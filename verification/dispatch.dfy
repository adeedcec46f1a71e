/**
  Backend resolution: the hard-coded switch from a version number to the
  th06 or th10 module, and the checks `main` makes before opening the input or output file.
*/
module Dispatch {
  import opened Types
  import opened Options

  /** The two backend modules, `th06_ecl` and `th10_ecl`. */
  datatype Family = Th06 | Th10

  /** The versions the usage text advertises. */
  const DocumentedVersions: set<uint32> := {6, 7, 8, 9, 95, 10, 103, 11, 12, 125, 128, 13, 14, 143, 15, 16}

  /** The versions served by the th06 module: the games up to 9.5. */
  const Th06Versions: set<uint32> := {6, 7, 8, 9, 95}

  /** The versions served by the th10 module, 10.3 included. */
  const Th10Versions: set<uint32> := {10, 103, 11, 12, 125, 128, 13, 14, 143, 15, 16}

  /** The version switch of `main`; `None` is the default branch that leaves `module` NULL. */
  function Resolve(version: uint32): (r: Option<Family>)
    ensures r.Some? <==> version in DocumentedVersions
    ensures r == Some(Th06) <==> version in Th06Versions
    ensures r == Some(Th10) <==> version in Th10Versions
  {
    match version
    case 6 | 7 | 8 | 9 | 95 => Some(Th06)
    case 10 | 103 | 11 | 12 | 125 | 128 | 13 | 14 | 143 | 15 | 16 => Some(Th10)
    case _ => None
  }

  /** The two families partition the advertised versions. */
  lemma FamiliesPartitionVersions()
    ensures Th06Versions !! Th10Versions
    ensures Th06Versions + Th10Versions == DocumentedVersions
    ensures 0 !in DocumentedVersions
  {
  }

  /** The mode to run and the module that runs it. */
  datatype Resolved = Resolved(mode: ModeKind, family: Family)

  /** The version check followed by the mode and raw-flag checks, in the order `main` makes them. */
  function Validate(s: Scanned): (r: Result<Resolved, Error>)
    ensures r.Success? <==> s.mode.Some? && s.version in DocumentedVersions && !(s.raw && s.mode == Some(Compile))
    ensures r.Success? ==> r.value.mode == s.mode.value
    ensures r.Success? ==> (r.value.family == Th06 <==> s.version in Th06Versions)
    ensures r.Success? ==> (r.value.family == Th10 <==> s.version in Th10Versions)
    ensures r == Failure(VersionRequired) <==> s.mode.Some? && s.version == 0
    ensures r == Failure(VersionUnsupported(s.version)) <==>
              s.mode.Some? && s.version != 0 && s.version !in DocumentedVersions
    ensures r == Failure(RawWhileCompiling) <==>
              s.mode == Some(Compile) && s.raw && s.version in DocumentedVersions
    ensures r == Failure(Usage) <==> s.mode.None?
    ensures r.Failure? ==> r.error in {VersionRequired, VersionUnsupported(s.version), RawWhileCompiling, Usage}
  {
    var family := Resolve(s.version);
    if family.None? && s.mode.Some? then
      if s.version == 0 then Failure(VersionRequired) else Failure(VersionUnsupported(s.version))
    else if s.mode.None? then
      Failure(Usage)
    else if s.raw && s.mode.value != Decompile then
      assert s.mode.value == Compile;
      Failure(RawWhileCompiling)
    else
      Success(Resolved(s.mode.value, family.value))
  }

  /** An unsupported version wins over the raw flag: the version check fires first. */
  lemma VersionCheckedBeforeRaw(s: Scanned)
    requires s.mode == Some(Compile) && s.raw && s.version !in DocumentedVersions
    ensures Validate(s) == Failure(if s.version == 0 then VersionRequired else VersionUnsupported(s.version))
  {
  }
}
