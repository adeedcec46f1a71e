/**
  Properties of a whole run of the driver: which check fires first, that
  configuration errors open no input or output file and call no backend, and what each
  pipeline does once everything is in order.
*/
module Properties {
  import opened Types
  import opened Program
  import opened Options
  import opened Dispatch
  import opened Driver

  /** The module serving a version, read off the two version sets. */
  function ModuleFor(b: Backends, version: uint32): Backend
  {
    if version in Th06Versions then b.th06 else b.th10
  }

  /** A second `-c`/`-d` ends the run before the version or the raw flag is checked and before the
      input or output file is opened. */
  lemma ModeConflictFailsFirst(inv: Invocation, env: Env, b: Backends, i: nat, j: nat)
    requires i < j < |inv.opts| && inv.opts[i].ModeOpt? && inv.opts[j].ModeOpt?
    requires MapsReadableBefore(inv.opts, env.readable, j)
    ensures Main(inv, env, b) == Fail(MoreThanOneMode, [])
  {
    SecondModeFails(inv.opts, env.readable, i, j);
  }

  /** A missing or unsupported version ends the run before the input or output file is opened, with distinct diagnostics. */
  lemma BadVersionFailsBeforeFiles(inv: Invocation, env: Env, b: Backends, i: nat)
    requires OnlyModeAt(inv.opts, i) && MapsReadableBefore(inv.opts, env.readable, |inv.opts|)
    requires inv.opts[i].version !in DocumentedVersions
    ensures Main(inv, env, b) ==
            Fail(if inv.opts[i].version == 0 then VersionRequired else VersionUnsupported(inv.opts[i].version), [])
  {
    SingleModeScans(inv.opts, env.readable, i);
  }

  /** `-r` with `-c` ends the run after version resolution and before the input or output file is opened. */
  lemma RawRejectedWhileCompiling(inv: Invocation, env: Env, b: Backends, i: nat)
    requires OnlyModeAt(inv.opts, i) && MapsReadableBefore(inv.opts, env.readable, |inv.opts|)
    requires inv.opts[i].kind == Compile && inv.opts[i].version in DocumentedVersions
    requires HasRaw(inv.opts)
    ensures Main(inv, env, b) == Fail(RawWhileCompiling, [])
  {
    SingleModeScans(inv.opts, env.readable, i);
  }

  /** Without `-c` or `-d` the run prints the usage and fails, provided every map file opens. */
  lemma NoModeIsUsage(inv: Invocation, env: Env, b: Backends)
    requires NoModeOpt(inv.opts)
    requires MapsReadableBefore(inv.opts, env.readable, |inv.opts|)
    ensures Main(inv, env, b) == Fail(Usage, [])
  {
    NoModeScans(inv.opts, env.readable);
  }

  /** A valid configuration whose input file cannot be opened fails before the backend is called. */
  lemma UnreadableInputFails(inv: Invocation, env: Env, b: Backends, i: nat)
    requires OnlyModeAt(inv.opts, i) && MapsReadableBefore(inv.opts, env.readable, |inv.opts|)
    requires inv.opts[i].version in DocumentedVersions
    requires !(inv.opts[i].kind == Compile && HasRaw(inv.opts))
    requires |inv.args| > 0 && inv.args[0] !in env.readable
    ensures Main(inv, env, b) == Fail(InputUnreadable(inv.args[0]), [])
  {
    SingleModeScans(inv.opts, env.readable, i);
  }

  /** A valid configuration whose output file cannot be created fails after opening only the input. */
  lemma UnwritableOutputFails(inv: Invocation, env: Env, b: Backends, i: nat)
    requires OnlyModeAt(inv.opts, i) && MapsReadableBefore(inv.opts, env.readable, |inv.opts|)
    requires inv.opts[i].version in DocumentedVersions
    requires !(inv.opts[i].kind == Compile && HasRaw(inv.opts))
    requires |inv.args| > 1 && inv.args[0] in env.readable && inv.args[1] !in env.writable
    ensures Main(inv, env, b) == Fail(OutputUnwritable(inv.args[1]), [OpenedInput(inv.args[0])])
  {
    SingleModeScans(inv.opts, env.readable, i);
  }

  /** Compiling: after opening the files, `parse` on the module of the version; on NULL the run
      fails there, otherwise `compile` once on the parsed program and then it is freed. */
  lemma CompileRun(inv: Invocation, env: Env, b: Backends, i: nat)
    requires OnlyModeAt(inv.opts, i) && MapsReadableBefore(inv.opts, env.readable, |inv.opts|)
    requires inv.opts[i].kind == Compile && inv.opts[i].version in DocumentedVersions
    requires !HasRaw(inv.opts) && FilesOpen(inv.args, env)
    ensures
      var v := inv.opts[i].version;
      var src, dst := Source(inv.args), Destination(inv.args);
      var maps := MapPaths(inv.opts);
      var r := ModuleFor(b, v).parse(src, v, maps);
      Main(inv, env, b) ==
        if r.Some? then Exit(0, None, Opens(inv.args) + [Parsed(src, v, r), Compiled(r.value, dst, maps), Freed(r.value)])
        else Fail(ParseFailed, Opens(inv.args) + [Parsed(src, v, None)])
  {
    SingleModeScans(inv.opts, env.readable, i);
    var v := inv.opts[i].version;
    var s := ScanOptions(inv.opts, env.readable).value;
    var res := Validate(s).value;
    assert Select(b, res.family) == ModuleFor(b, v);
    OpensPrefix(inv.args, env, res, v, s.raw, s.maps, ModuleFor(b, v));
  }

  /** Decompiling: after opening the files, `open` on the module of the version; on NULL the run
      fails there, otherwise `trans` (told whether `-r` was given) and then `dump` on the
      transformed program, once each, and then it is freed. */
  lemma DecompileRun(inv: Invocation, env: Env, b: Backends, i: nat)
    requires OnlyModeAt(inv.opts, i) && MapsReadableBefore(inv.opts, env.readable, |inv.opts|)
    requires inv.opts[i].kind == Decompile && inv.opts[i].version in DocumentedVersions
    requires FilesOpen(inv.args, env)
    ensures
      var v, raw := inv.opts[i].version, HasRaw(inv.opts);
      var src, dst := Source(inv.args), Destination(inv.args);
      var m, maps := ModuleFor(b, v), MapPaths(inv.opts);
      var r := m.open(src, v, maps);
      var t := if r.Some? then m.trans(r.value, raw, maps) else NewEcl();
      Main(inv, env, b) ==
        if r.Some? then
          Exit(0, None, Opens(inv.args) + [Opened(src, v, r), Transformed(r.value, raw, t), Dumped(t, dst, maps), Freed(t)])
        else Fail(OpenFailed, Opens(inv.args) + [Opened(src, v, None)])
  {
    SingleModeScans(inv.opts, env.readable, i);
    var v := inv.opts[i].version;
    var s := ScanOptions(inv.opts, env.readable).value;
    var res := Validate(s).value;
    assert Select(b, res.family) == ModuleFor(b, v);
    OpensPrefix(inv.args, env, res, v, s.raw, s.maps, ModuleFor(b, v));
  }

  /** With both files openable, the run is the file opens followed by the pipeline on the named streams. */
  lemma OpensPrefix(args: seq<string>, env: Env, r: Resolved, v: uint32, raw: bool, maps: seq<string>, m: Backend)
    requires FilesOpen(args, env)
    ensures OpenAndRun(r, v, raw, maps, args, env, m) ==
            var x := Pipeline(r.mode, m, v, raw, maps, Source(args), Destination(args));
            x.(trace := Opens(args) + x.trace)
  {
  }

  /** A run that reached its backend follows the pipeline protocol of its mode from start to end. */
  lemma RunFollowsProtocol(inv: Invocation, env: Env, b: Backends, i: nat)
    requires OnlyModeAt(inv.opts, i)
    ensures
      var x := Main(inv, env, b);
      x.error.None? || x.error == Some(ParseFailed) || x.error == Some(OpenFailed) ==>
        Replay(inv.opts[i].kind, Start, x.trace) == (if x.status == 0 then Released else Halted)
  {
    var x := Main(inv, env, b);
    if x.error.None? || x.error == Some(ParseFailed) || x.error == Some(OpenFailed) {
      var scan := ScanOptions(inv.opts, env.readable);
      ScanPrefixSpec(inv.opts, |inv.opts|, env.readable);
      assert scan.Success?;
      var s := scan.value;
      assert s.mode == Some(inv.opts[i].kind);
      assert Validate(s).Success?;
      var res := Validate(s).value;
      var m := Select(b, res.family);
      assert FilesOpen(inv.args, env);
      OpensPrefix(inv.args, env, res, s.version, s.raw, s.maps, m);
      var p := Pipeline(res.mode, m, s.version, s.raw, s.maps, Source(inv.args), Destination(inv.args));
      PipelineFollowsProtocol(res.mode, m, s.version, s.raw, s.maps, Source(inv.args), Destination(inv.args));
      ReplayAppend(res.mode, Start, Opens(inv.args), p.trace);
      if |inv.args| == 1 {
        assert Replay(res.mode, Start, Opens(inv.args)) == Replay(res.mode, Start, []);
      } else if |inv.args| > 1 {
        var o := Opens(inv.args);
        assert Replay(res.mode, Start, o) == Replay(res.mode, Start, o[1..]);
        assert Replay(res.mode, Start, o[1..]) == Replay(res.mode, Start, o[2..]);
      }
    }
  }

  /** A run that stopped on a configuration or file error opened at most its input file (map files
      aside, which the trace does not record) and called no backend. */
  lemma ConfigErrorsCallNoBackend(inv: Invocation, env: Env, b: Backends)
    ensures
      var x := Main(inv, env, b);
      x.error.Some? && x.error != Some(ParseFailed) && x.error != Some(OpenFailed) ==>
        forall e :: e in x.trace ==> e.OpenedInput?
  {
  }

  /** Compiling with version 999 fails at dispatch, naming the version, before opening the input or output file. */
  lemma Version999IsUnsupported(args: seq<string>, env: Env, b: Backends)
    ensures Main(Invocation([ModeOpt(Compile, 999)], args), env, b) == Fail(VersionUnsupported(999), [])
  {
  }

  /** `-r -d 0` asks for the version. */
  lemma VersionZeroIsRequired(args: seq<string>, env: Env, b: Backends)
    ensures Main(Invocation([RawOpt, ModeOpt(Decompile, 0)], args), env, b) == Fail(VersionRequired, [])
  {
    var opts := [RawOpt, ModeOpt(Decompile, 0)];
    assert ScanPrefix(opts, 1, env.readable) == Success(Initial.(raw := true));
  }
}
