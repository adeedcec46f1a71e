/**
  The run of `main` after option scanning: validation, opening the input
  and output files, and the compile (parse, compile) or decompile (open,
  trans, dump) pipeline on the selected backend module.

  The backend modules are not part of this model: a module is a record of
  its operations passed in as a parameter. The driver ignores whatever
  `compile` and `dump` return, so they appear solely as events of the run's
  trace; `parse` and `open` may return NULL (`None`); `trans` rewrites the
  program in place and receives the raw-output flag explicitly. Every
  operation receives the map files the scan loaded, in load order, which
  stand for the global name tables the backends consult.
*/
module Driver {
  import opened Types
  import opened Program
  import opened Options
  import opened Dispatch

  /** Where a backend reads or writes: the standard streams or a named file. */
  datatype Stream = Stdin | Stdout | File(path: string)

  /** A backend module's fallible and program-producing operations; the `seq<string>` argument
      is the list of loaded map files. */
  datatype Backend = Backend(
    parse: (Stream, uint32, seq<string>) -> Option<Ecl>,
    open: (Stream, uint32, seq<string>) -> Option<Ecl>,
    trans: (Ecl, bool, seq<string>) -> Ecl)

  /** The two linked-in modules, `th06_ecl` and `th10_ecl`. */
  datatype Backends = Backends(th06: Backend, th10: Backend)

  /** The paths `fopen` can open for reading and for writing. */
  datatype Env = Env(readable: set<string>, writable: set<string>)

  /** The parsed options in command-line order and the remaining positional arguments. */
  datatype Invocation = Invocation(opts: seq<Opt>, args: seq<string>)

  /** An observable step of a run: a file opened, a backend operation called, the program freed. */
  datatype Event =
    | OpenedInput(path: string)
    | OpenedOutput(path: string)
    | Parsed(src: Stream, version: uint32, result: Option<Ecl>)
    | Compiled(ecl: Ecl, dst: Stream, maps: seq<string>)
    | Opened(src: Stream, version: uint32, result: Option<Ecl>)
    | Transformed(ecl: Ecl, raw: bool, into: Ecl)
    | Dumped(ecl: Ecl, dst: Stream, maps: seq<string>)
    | Freed(ecl: Ecl)

  /** The end of a run: exit status, the failure reason if any, and what happened on the way.
      The reason is the model's; the driver prints no message for `ParseFailed` or `OpenFailed`. */
  datatype Exit = Exit(status: nat, error: Option<Error>, trace: seq<Event>)

  function Fail(e: Error, trace: seq<Event>): Exit
  {
    Exit(1, Some(e), trace)
  }

  function Select(b: Backends, f: Family): Backend
  {
    match f
    case Th06 => b.th06
    case Th10 => b.th10
  }

  // The pipeline protocol, as a state machine independent of the driver's code.

  /** Where a pipeline stands: before its first stage, holding a program, after the
      transform, after the terminal stage, after freeing, halted by a NULL result, or off protocol. */
  datatype Phase = Start | Holding(ecl: Ecl) | Reshaped(ecl: Ecl) | Written(ecl: Ecl) | Released | Halted | Stuck

  function Next(mode: ModeKind, p: Phase, e: Event): Phase
  {
    match e
    case OpenedInput(_) => if p == Start then Start else Stuck
    case OpenedOutput(_) => if p == Start then Start else Stuck
    case Parsed(_, _, r) =>
      if mode == Compile && p == Start then (if r.Some? then Holding(r.value) else Halted) else Stuck
    case Compiled(ecl, _, _) =>
      if mode == Compile && p == Holding(ecl) then Written(ecl) else Stuck
    case Opened(_, _, r) =>
      if mode == Decompile && p == Start then (if r.Some? then Holding(r.value) else Halted) else Stuck
    case Transformed(ecl, _, t) =>
      if mode == Decompile && p == Holding(ecl) then Reshaped(t) else Stuck
    case Dumped(ecl, _, _) =>
      if mode == Decompile && p == Reshaped(ecl) then Written(ecl) else Stuck
    case Freed(ecl) =>
      if p == Written(ecl) then Released else Stuck
  }

  function Replay(mode: ModeKind, p: Phase, trace: seq<Event>): Phase
    decreases |trace|
  {
    if |trace| == 0 then p else Replay(mode, Next(mode, p, trace[0]), trace[1..])
  }

  /** Replaying a concatenation replays its parts one after the other. */
  lemma {:induction false} ReplayAppend(mode: ModeKind, p: Phase, a: seq<Event>, b: seq<Event>)
    ensures Replay(mode, p, a + b) == Replay(mode, Replay(mode, p, a), b)
    decreases |a|
  {
    if |a| > 0 {
      assert (a + b)[0] == a[0];
      assert (a + b)[1..] == a[1..] + b;
      ReplayAppend(mode, Next(mode, p, a[0]), a[1..], b);
    } else {
      assert a + b == b;
    }
  }

  /** The pipeline at the end of `main` in thecl.c, on already opened streams. */
  function Pipeline(mode: ModeKind, b: Backend, version: uint32, raw: bool, maps: seq<string>, src: Stream, dst: Stream): (x: Exit)
    ensures x.status == 0 <==> x.error.None?
    ensures mode == Compile ==> (x.status == 0 <==> b.parse(src, version, maps).Some?)
    ensures mode == Decompile ==> (x.status == 0 <==> b.open(src, version, maps).Some?)
    ensures x.status != 0 ==> x.status == 1 && x.error == Some(if mode == Compile then ParseFailed else OpenFailed)
  {
    match mode
    case Compile =>
      var ecl := b.parse(src, version, maps);
      if ecl.None? then Fail(ParseFailed, [Parsed(src, version, None)])
      else Exit(0, None, [Parsed(src, version, ecl), Compiled(ecl.value, dst, maps), Freed(ecl.value)])
    case Decompile =>
      var ecl := b.open(src, version, maps);
      if ecl.None? then Fail(OpenFailed, [Opened(src, version, None)])
      else
        var t := b.trans(ecl.value, raw, maps);
        Exit(0, None, [Opened(src, version, ecl), Transformed(ecl.value, raw, t), Dumped(t, dst, maps), Freed(t)])
  }

  /** Every pipeline run follows the protocol: it ends released on success and halted on a NULL result. */
  lemma PipelineFollowsProtocol(mode: ModeKind, b: Backend, version: uint32, raw: bool, maps: seq<string>, src: Stream, dst: Stream)
    ensures Replay(mode, Start, Pipeline(mode, b, version, raw, maps, src, dst).trace) ==
            (if Pipeline(mode, b, version, raw, maps, src, dst).status == 0 then Released else Halted)
  {
    var x := Pipeline(mode, b, version, raw, maps, src, dst);
    var t := x.trace;
    if x.status == 0 {
      match mode
      case Compile =>
        var e := b.parse(src, version, maps).value;
        assert Replay(mode, Start, t) == Replay(mode, Holding(e), t[1..]);
        assert Replay(mode, Holding(e), t[1..]) == Replay(mode, Written(e), t[2..]);
        assert Replay(mode, Written(e), t[2..]) == Replay(mode, Released, t[3..]);
      case Decompile =>
        var e := b.open(src, version, maps).value;
        var u := b.trans(e, raw, maps);
        assert Replay(mode, Start, t) == Replay(mode, Holding(e), t[1..]);
        assert Replay(mode, Holding(e), t[1..]) == Replay(mode, Reshaped(u), t[2..]);
        assert Replay(mode, Reshaped(u), t[2..]) == Replay(mode, Written(u), t[3..]);
        assert Replay(mode, Written(u), t[3..]) == Replay(mode, Released, t[4..]);
    }
  }

  /** The input stream: the first positional argument, else standard input. */
  function Source(args: seq<string>): Stream
  {
    if |args| > 0 then File(args[0]) else Stdin
  }

  /** The output stream: the second positional argument, else standard output. */
  function Destination(args: seq<string>): Stream
  {
    if |args| > 1 then File(args[1]) else Stdout
  }

  /** The file opens a run with these arguments makes before its pipeline. */
  function Opens(args: seq<string>): seq<Event>
  {
    (if |args| > 0 then [OpenedInput(args[0])] else []) + (if |args| > 1 then [OpenedOutput(args[1])] else [])
  }

  /** Both files named by the positional arguments can be opened. */
  predicate FilesOpen(args: seq<string>, env: Env)
  {
    (|args| > 0 ==> args[0] in env.readable) && (|args| > 1 ==> args[1] in env.writable)
  }

  /** Opening the input and output files as `main` in thecl.c does, then the pipeline. */
  function OpenAndRun(r: Resolved, version: uint32, raw: bool, maps: seq<string>, args: seq<string>, env: Env, b: Backend): (x: Exit)
    ensures x.status == 0 <==> x.error.None?
    ensures |args| > 0 && args[0] !in env.readable ==> x == Fail(InputUnreadable(args[0]), [])
    ensures |args| > 1 && args[0] in env.readable && args[1] !in env.writable ==>
              x == Fail(OutputUnwritable(args[1]), [OpenedInput(args[0])])
  {
    if |args| == 0 then
      Pipeline(r.mode, b, version, raw, maps, Stdin, Stdout)
    else if args[0] !in env.readable then
      Fail(InputUnreadable(args[0]), [])
    else if |args| == 1 then
      var x := Pipeline(r.mode, b, version, raw, maps, File(args[0]), Stdout);
      x.(trace := [OpenedInput(args[0])] + x.trace)
    else if args[1] !in env.writable then
      Fail(OutputUnwritable(args[1]), [OpenedInput(args[0])])
    else
      var x := Pipeline(r.mode, b, version, raw, maps, File(args[0]), File(args[1]));
      x.(trace := [OpenedInput(args[0]), OpenedOutput(args[1])] + x.trace)
  }

  /** The whole of `main` from the parsed command line. */
  function Main(inv: Invocation, env: Env, backends: Backends): (x: Exit)
    ensures x.status == 0 <==> x.error.None?
    ensures x.status <= 1
  {
    match ScanOptions(inv.opts, env.readable)
    case Failure(e) => Fail(e, [])
    case Success(s) =>
      match Validate(s)
      case Failure(e) => Fail(e, [])
      case Success(r) => OpenAndRun(r, s.version, s.raw, s.maps, inv.args, env, Select(backends, r.family))
  }
}
