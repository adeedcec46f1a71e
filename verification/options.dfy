/**
  The option scan of `main`: each `-c`/`-d`, `-m` and `-r` is handled in the
  order it appears, and the first fatal option ends the run.

  Tokenising the command line is not modelled: an option arrives already
  split, with the version text of `-c`/`-d` already turned into a number.
*/
module Options {
  import opened Types

  /** `-c` (create an ECL file) or `-d` (dump one). */
  datatype ModeKind = Compile | Decompile

  datatype Opt =
    | ModeOpt(kind: ModeKind, version: uint32)
    | MapOpt(path: string)
    | RawOpt

  /** Every way an invocation of the driver can end with exit status 1. */
  datatype Error =
    | MoreThanOneMode
    | MapUnreadable(path: string)
    | VersionRequired
    | VersionUnsupported(version: uint32)
    | RawWhileCompiling
    | Usage
    | InputUnreadable(path: string)
    | OutputUnwritable(path: string)
    | ParseFailed
    | OpenFailed

  /** The driver's locals after the scan: `mode` (-1 is `None`), `version`, the raw flag and the loaded map files. */
  datatype Scanned = Scanned(mode: Option<ModeKind>, version: uint32, raw: bool, maps: seq<string>)

  const Initial := Scanned(None, 0, false, [])

  /** `version` is only assigned together with `mode`. */
  predicate VersionOnlyWithMode(s: Scanned)
  {
    s.mode.None? ==> s.version == 0
  }

  /** One iteration of the scan loop; `readable` is the set of paths `fopen` can open for reading. */
  function Step(s: Scanned, o: Opt, readable: set<string>): Result<Scanned, Error>
  {
    match o
    case ModeOpt(k, v) =>
      if s.mode.Some? then Failure(MoreThanOneMode) else Success(s.(mode := Some(k), version := v))
    case MapOpt(p) =>
      if p in readable then Success(s.(maps := s.maps + [p])) else Failure(MapUnreadable(p))
    case RawOpt =>
      Success(s.(raw := true))
  }

  /** The scan of the first `n` options. */
  function ScanPrefix(opts: seq<Opt>, n: nat, readable: set<string>): (r: Result<Scanned, Error>)
    requires n <= |opts|
    ensures r.Success? ==> VersionOnlyWithMode(r.value)
    ensures r.Success? ==> forall p :: p in r.value.maps ==> p in readable
    decreases n
  {
    if n == 0 then Success(Initial)
    else
      match ScanPrefix(opts, n - 1, readable)
      case Failure(e) => Failure(e)
      case Success(s) => Step(s, opts[n - 1], readable)
  }

  /** The whole scan loop. */
  function ScanOptions(opts: seq<Opt>, readable: set<string>): (r: Result<Scanned, Error>)
    ensures r.Success? ==> VersionOnlyWithMode(r.value)
    ensures r.Success? ==> forall p :: p in r.value.maps ==> p in readable
  {
    ScanPrefix(opts, |opts|, readable)
  }

  // A declarative reading of the scan, independent of the loop.

  /** Option `j` ends the run: a map file that cannot be opened, or a mode after an earlier mode. */
  predicate Fatal(opts: seq<Opt>, readable: set<string>, j: int)
  {
    0 <= j < |opts| &&
    match opts[j]
    case MapOpt(p) => p !in readable
    case ModeOpt(_, _) => exists i :: 0 <= i < j && opts[i].ModeOpt?
    case RawOpt => false
  }

  /** The diagnostic a fatal option produces. */
  function FatalError(o: Opt): Error
  {
    if o.MapOpt? then MapUnreadable(o.path) else MoreThanOneMode
  }

  predicate NoFatalBefore(opts: seq<Opt>, readable: set<string>, n: int)
  {
    forall j :: 0 <= j < n ==> !Fatal(opts, readable, j)
  }

  /** The `-m` paths among `opts`, in command-line order. */
  function MapPaths(opts: seq<Opt>): seq<string>
    decreases |opts|
  {
    if |opts| == 0 then []
    else MapPaths(opts[..|opts| - 1]) + (if opts[|opts| - 1].MapOpt? then [opts[|opts| - 1].path] else [])
  }

  /** Every map file named before option `n` can be opened. */
  predicate MapsReadableBefore(opts: seq<Opt>, readable: set<string>, n: int)
  {
    forall k :: 0 <= k < n && k < |opts| && opts[k].MapOpt? ==> opts[k].path in readable
  }

  /** Option `i` is the only `-c` or `-d`. */
  predicate OnlyModeAt(opts: seq<Opt>, i: int)
  {
    0 <= i < |opts| && opts[i].ModeOpt? && forall k :: 0 <= k < |opts| && k != i ==> !opts[k].ModeOpt?
  }

  /** No option is `-c` or `-d`. */
  predicate NoModeOpt(opts: seq<Opt>)
  {
    forall k :: 0 <= k < |opts| ==> !opts[k].ModeOpt?
  }

  /** `-r` appears among the options. */
  predicate HasRaw(opts: seq<Opt>)
  {
    exists k :: 0 <= k < |opts| && opts[k].RawOpt?
  }

  /** What a clean scan of the first `n` options leaves behind. */
  predicate Summarises(opts: seq<Opt>, n: nat, readable: set<string>, s: Scanned)
    requires n <= |opts|
  {
    && (s.mode.Some? <==> exists i :: 0 <= i < n && opts[i].ModeOpt?)
    && (forall i :: 0 <= i < n && opts[i].ModeOpt? ==> s.mode == Some(opts[i].kind) && s.version == opts[i].version)
    && (s.raw <==> exists i :: 0 <= i < n && opts[i].RawOpt?)
    && s.maps == MapPaths(opts[..n])
  }

  /** The scan fails exactly when some option is fatal, with the diagnostic of the first such option;
      otherwise it records the one mode and its version, the raw flag and the map files in order. */
  lemma {:induction false} ScanPrefixSpec(opts: seq<Opt>, n: nat, readable: set<string>)
    requires n <= |opts|
    ensures ScanPrefix(opts, n, readable).Success? <==> NoFatalBefore(opts, readable, n)
    ensures ScanPrefix(opts, n, readable).Success? ==> Summarises(opts, n, readable, ScanPrefix(opts, n, readable).value)
    ensures ScanPrefix(opts, n, readable).Failure? ==>
      exists j :: 0 <= j < n && Fatal(opts, readable, j) && NoFatalBefore(opts, readable, j)
                  && ScanPrefix(opts, n, readable).error == FatalError(opts[j])
    decreases n
  {
    if n > 0 {
      ScanPrefixSpec(opts, n - 1, readable);
      assert opts[..n][..n - 1] == opts[..n - 1];
      var prev := ScanPrefix(opts, n - 1, readable);
      if prev.Success? {
        var s := prev.value;
        var o := opts[n - 1];
        match o
        case ModeOpt(k, v) =>
          if s.mode.Some? {
            assert Fatal(opts, readable, n - 1);
          } else {
            assert !Fatal(opts, readable, n - 1);
          }
        case MapOpt(p) =>
          if p !in readable {
            assert Fatal(opts, readable, n - 1);
          }
        case RawOpt =>
          assert opts[n - 1].RawOpt?;
      } else {
        assert !NoFatalBefore(opts, readable, n);
      }
    }
  }

  /** A second `-c` or `-d` always ends the run with the mode diagnostic, unless a map file before it already failed. */
  lemma SecondModeFails(opts: seq<Opt>, readable: set<string>, i: nat, j: nat)
    requires i < j < |opts| && opts[i].ModeOpt? && opts[j].ModeOpt?
    requires MapsReadableBefore(opts, readable, j)
    ensures ScanOptions(opts, readable) == Failure(MoreThanOneMode)
  {
    ScanPrefixSpec(opts, |opts|, readable);
    assert Fatal(opts, readable, j);
    var r := ScanOptions(opts, readable);
    var f :| 0 <= f < |opts| && Fatal(opts, readable, f) && NoFatalBefore(opts, readable, f) && r.error == FatalError(opts[f]);
    assert f <= j;
  }

  /** With a single mode option and only readable map files, the scan succeeds and records that mode and version. */
  lemma SingleModeScans(opts: seq<Opt>, readable: set<string>, i: nat)
    requires OnlyModeAt(opts, i) && MapsReadableBefore(opts, readable, |opts|)
    ensures ScanOptions(opts, readable).Success?
    ensures ScanOptions(opts, readable).value.mode == Some(opts[i].kind)
    ensures ScanOptions(opts, readable).value.version == opts[i].version
    ensures ScanOptions(opts, readable).value.raw == HasRaw(opts)
    ensures ScanOptions(opts, readable).value.maps == MapPaths(opts)
  {
    ScanPrefixSpec(opts, |opts|, readable);
    assert opts[..|opts|] == opts;
    forall j | 0 <= j < |opts|
      ensures !Fatal(opts, readable, j)
    {
      if opts[j].ModeOpt? {
        assert j == i;
      }
    }
  }

  /** Without `-c` or `-d` a clean scan leaves no mode and version 0. */
  lemma NoModeScans(opts: seq<Opt>, readable: set<string>)
    requires NoModeOpt(opts) && MapsReadableBefore(opts, readable, |opts|)
    ensures ScanOptions(opts, readable).Success?
    ensures ScanOptions(opts, readable).value.mode.None?
    ensures ScanOptions(opts, readable).value.version == 0
  {
    ScanPrefixSpec(opts, |opts|, readable);
    assert NoFatalBefore(opts, readable, |opts|);
  }
}
