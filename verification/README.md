# thecl driver and IR constructors, in Dafny

This project models the driver of `thecl`, the ECL compiler/decompiler of thtk,
and the constructors of its intermediate representation:

- **IR nodes** (`program.dfy`, module `Program`). A program (`thecl_t`) holds subroutines, animation and
  sub-script name lists, and local data blocks. An instruction is a sum type with one arm each for
  ordinary instructions, time markers, rank markers and label markers. A parameter carries a type tag
  and owns a tagged value. The constructors `thecl_new`, `thecl_instr_new`, `thecl_instr_time`,
  `thecl_instr_rank`, `thecl_instr_label` and `param_new` are pure functions here.
- **Option scan** (`options.dfy`, module `Options`). This is the loop of `main` over `-c`/`-d VERSION`,
  `-m MAPFILE` and `-r`, taken in command-line order. It fails on the first fatal option: a second
  mode, or a map file that cannot be opened. The loop is a left fold over the options. It is matched
  against a declarative reading: the first fatal option decides the diagnostic, and a clean scan
  records the single mode, its version, the raw flag and the map files.
- **Backend resolution** (`dispatch.dfy`, module `Dispatch`). This is the hard-coded version switch:
  6, 7, 8, 9 and 95 go to the th06 module; 10, 103, 11, 12, 125, 128, 13, 14, 143, 15 and 16 go to the
  th10 module. It is followed by the mode and raw-flag checks, in the order `main` makes them.
- **Run** (`driver.dfy`, module `Driver`). This covers opening the input and output files and the two
  pipelines. Compiling runs parse, then compile, then free. Decompiling runs open, then trans, then
  dump, then free. A NULL result from parse or open halts the run with exit status 1. A run produces
  an exit status, a failure reason (if any) and a trace of observable events. The pipelines are also checked
  against a small state machine (`Phase`, `Next`, `Replay`) that is written independently of the
  driver's code.
- **Run properties** (`properties.dfy`, module `Properties`). These say which check fires first, that
  configuration errors open no input or output file and call no backend, and exactly what each pipeline does.

The backend modules (`th06_ecl`, `th10_ecl`) are parameters. A `Backend` is a record of functions:
`parse`, `open` (each may return NULL, modelled as `None`) and `trans`. The driver ignores the results
of `compile` and `dump` (thecl/thecl.c:312, 322), so they appear only as trace events. The file system is also a parameter (`Env`):
the paths `fopen` can open for reading and for writing. The process-wide raw-output flag is passed
to `trans` explicitly. The process-wide name tables that `eclmap_load` fills (thecl/thecl.c:42-43, 229)
are represented by the list of loaded map files, in load order. This list is passed to every backend
operation and recorded in the `Compiled` and `Dumped` events.

When an output argument is given, `main` opens the output file for writing, and so truncates it,
before `parse` runs (thecl/thecl.c:295). The model records `OpenedOutput` before `Parsed` and claims
nothing about the output's contents after a failed parse.

## Model

| member | source | states |
|---|---|---|
| Program.NewEcl | thecl/thecl.c:46-54 | a new program has no subroutines, no local data, and zero animation and sub-script counts |
| Program.NewInstr | thecl/thecl.c:98-105 | a new instruction is of the ordinary kind, has an empty operand list and is zero-filled (opcode 0, time 0, no string) |
| Program.InstrTime | thecl/thecl.c:107-114 | the result is of the time kind, carries exactly the given time and exposes no operands |
| Program.InstrRank | thecl/thecl.c:116-123 | the result is of the rank kind, carries exactly the given rank and exposes no operands |
| Program.InstrLabel | thecl/thecl.c:125-132 | the result is of the label kind, carries exactly the given offset and exposes no operands |
| Program.NewParam | thecl/thecl.c:149-158 | the parameter tag and the value tag both equal the requested type; the expression flag starts false; the value is zero-filled |
| Program.MarkersHaveNoParams | thecl/thecl.c:98-132 | a node whose discriminant is not the ordinary kind exposes no operand list, and its discriminant names its arm |
| Options.ScanPrefix | thecl/thecl.c:209-239 | after any prefix of the options, a nonzero version implies a mode was set, and every loaded map file could be opened |
| Options.ScanOptions | thecl/thecl.c:195-220 | `version` is only ever assigned together with `mode`: a successful scan with no mode has version 0 |
| Options.ScanPrefixSpec | thecl/thecl.c:209-239 | the scan fails exactly when some option is fatal, with the diagnostic of the first fatal option; a clean scan records the one mode and its version, sets the raw flag exactly when `-r` appeared, and loads exactly the `-m` files, in command-line order |
| Options.SecondModeFails | thecl/thecl.c:211-217 | a second `-c`/`-d` always ends the scan with "more than one mode", unless a map file before it already failed |
| Options.SingleModeScans | thecl/thecl.c:211-234 | with one mode option and openable map files, the scan succeeds with that mode and version, the raw flag is set exactly when `-r` appeared, and the loaded map files are exactly the `-m` paths in order |
| Options.NoModeScans | thecl/thecl.c:195-235 | without `-c`/`-d`, a clean scan leaves no mode and version 0 |
| Dispatch.Resolve | thecl/thecl.c:243-263 | a version resolves exactly when the usage text lists it; to th06 exactly for 6, 7, 8, 9, 95; to th10 exactly for 10, 103, 11, 12, 125, 128, 13, 14, 143, 15, 16 |
| Dispatch.FamiliesPartitionVersions | thecl/thecl.c:186 | the two families are disjoint, together make up the advertised versions, and 0 is not one of them |
| Dispatch.Validate | thecl/thecl.c:243-283 | success exactly for a mode with a supported version and no raw flag while compiling; version 0 with a mode gives "version required", any other unsupported version gives "version unsupported", `-r` with `-c` is refused, no mode gives the usage error, and no other error occurs |
| Dispatch.VersionCheckedBeforeRaw | thecl/thecl.c:264-283 | with `-c`, `-r` and a bad version, the version diagnostic wins over the raw-flag diagnostic |
| Driver.Pipeline | thecl/thecl.c:305-324 | the pipeline exits 0 exactly when `parse` (compiling) or `open` (decompiling) returns a program; otherwise it exits 1 with failure reason `ParseFailed` or `OpenFailed` respectively |
| Driver.PipelineFollowsProtocol | thecl/thecl.c:305-324 | every pipeline trace is accepted by the protocol machine: released after success, halted after a NULL parse or open |
| Driver.OpenAndRun | thecl/thecl.c:285-303 | the input is checked first: an unreadable input fails with `InputUnreadable` of that path and opens nothing; with a readable input, an unwritable output fails with `OutputUnwritable` of that path after opening only the input |
| Driver.Main | thecl/thecl.c:190-334 | the exit status is 0 or 1, and it is 0 exactly when there is no failure reason |
| Properties.OpensPrefix | thecl/thecl.c:285-303 | with both files openable, the run is the file opens followed by the pipeline on the first positional argument (or stdin) and the second (or stdout) |
| Properties.ModeConflictFailsFirst | thecl/thecl.c:211-217 | a second mode fails the run with no input or output file opened and no backend called, before any version or raw check |
| Properties.BadVersionFailsBeforeFiles | thecl/thecl.c:264-271 | with a mode and an unsupported version, the run fails before opening the input or output file: "version required" for 0, "version N unsupported" otherwise |
| Properties.RawRejectedWhileCompiling | thecl/thecl.c:278-283 | `-r` with `-c` and a supported version fails before opening the input or output file |
| Properties.NoModeIsUsage | thecl/thecl.c:330-333 | without `-c`/`-d` the run fails with the usage error, opening no input or output file and calling no backend |
| Properties.UnreadableInputFails | thecl/thecl.c:285-292 | a valid configuration whose input cannot be opened fails with no backend call |
| Properties.UnwritableOutputFails | thecl/thecl.c:293-301 | a valid configuration whose output cannot be opened fails after opening only the input |
| Properties.CompileRun | thecl/thecl.c:305-313 | compiling calls `parse` of the version's module on the input, with the `-m` files in command-line order; on NULL it exits 1 without compiling; otherwise it compiles the parsed program once to the output, frees it and exits 0 |
| Properties.DecompileRun | thecl/thecl.c:314-324 | decompiling calls `open` of the version's module, with the `-m` files in command-line order; on NULL it exits 1; otherwise it runs `trans` (also under `-r`, which it receives) and then `dump` of the transformed program, once each, frees it and exits 0 |
| Properties.RunFollowsProtocol | thecl/thecl.c:305-328 | every run that reached its backend, file opens included, follows the protocol machine of its mode from start to release or halt |
| Properties.ConfigErrorsCallNoBackend | thecl/thecl.c:209-303 | a run stopped by a configuration or file error opened at most its input file and called no backend |
| Properties.Version999IsUnsupported | thecl/thecl.c:264-271 | `-c 999` fails at dispatch with "version 999 is unsupported" before the input or output file is opened |
| Properties.VersionZeroIsRequired | thecl/thecl.c:264-267 | `-r -d 0` fails with "version must be specified" |

## Left out

- Freeing (`thecl_free`, `thecl_instr_free`, `param_free`, `value_free`, `free_eclmaps`): these do manual ownership bookkeeping, which has no counterpart in a garbage-collected model. The trace records only that the program is freed once, after the terminal stage.
- Tokenising the command line (`util_getopt`, `util_getopt_default`) and `parse_version`: these are not part of this model. Options arrive already split, with numeric versions, and the positional arguments arrive as a list. `-V`, unknown options and missing option arguments are handled inside `util_getopt_default` and are not modelled.
- Map file contents (`eclmap_new`, `eclmap_load`, `eclmap_free`): a map file is modelled by its path. The tables it fills stand as the ordered list of loaded paths handed to the backend operations. Parsing the file is an external collaborator.
- Map-file opens are not trace events. Each `-m` file is opened and loaded during the option scan (thecl/thecl.c:223-229), before every later check. A clean scan lists the loaded paths in order in `Scanned.maps`. A trace, however, records only the input and output files and the backend calls, so "no file opened" in this model means no input or output file.
- The backend modules `th06_ecl` and `th10_ecl`: they are parameters. What `compile` and `dump` write, and what `trans` does under the raw flag, belong to them.
- Process and stream plumbing: `fclose`, `_setmode`, `atexit`, `current_input`/`current_output`, diagnostic texts and `print_usage` output. Exiting is modelled only as the exit status of the result.
- Messages: the `error` field of a run is the model's failure reason, not a printed message. The driver prints nothing of its own for `ParseFailed` or `OpenFailed` (thecl/thecl.c:310-311, 319-320). For `Usage` it prints only the usage text, to standard output (thecl/thecl.c:331).
- Allocation failure: `calloc` returning NULL is not checked by the source and is not modelled.
- Instruction and program fields that the shown code never sets (the rest of `thecl.h`, which is not part of this model): the ordinary arm keeps only an opcode, a time, an optional string and the operands.
- Value payloads beyond the zero-filled one that `param_new` leaves: integers, float bit patterns, strings and byte arrays are declared but no operation here builds them.
