/**
  The intermediate representation of an ECL program and its constructors
  (`thecl_new`, `thecl_instr_new`, `thecl_instr_time`, `thecl_instr_rank`,
  `thecl_instr_label` and `param_new`).

  The C node is one struct with a type discriminant; here each kind of
  instruction is its own arm, so a marker has no parameter list to read.
*/
module Program {
  import opened Types

  /** The payload of a value; `Zeroed` is the all-zero union a fresh allocation holds. */
  datatype Payload =
    | Zeroed
    | Int(i: int)
    | Float(bits: bv32)
    | Text(s: string)
    | Bytes(data: seq<bv8>)

  /** A tagged value; the tag is fixed when the value is created. */
  datatype Value = Value(tag: int32, payload: Payload)

  /** One operand of an instruction. */
  datatype Param = Param(tag: int32, value: Value, isExpression: bool)

  /** A parameter's own tag agrees with the tag of the value it owns. */
  predicate Tagged(p: Param)
  {
    p.tag == p.value.tag
  }

  /** The discriminant of the C node: `THECL_INSTR_INSTR`, `_TIME`, `_RANK`, `_LABEL`. */
  datatype InstrType = InstrKind | TimeKind | RankKind | LabelKind

  datatype Instr =
    | Ordinary(id: uint32, time: uint32, text: Option<string>, params: seq<Param>)
    | TimeMarker(time: uint32)
    | RankMarker(rank: uint32)
    | LabelMarker(offset: uint32)

  function TypeOf(i: Instr): InstrType
  {
    match i
    case Ordinary(_, _, _, _) => InstrKind
    case TimeMarker(_) => TimeKind
    case RankMarker(_) => RankKind
    case LabelMarker(_) => LabelKind
  }

  /** The operand list a node exposes: markers expose none. */
  function Params(i: Instr): seq<Param>
  {
    if i.Ordinary? then i.params else []
  }

  /** A jump target of a subroutine: a name bound to an offset. */
  datatype Label = Label(name: string, offset: uint32)

  datatype Sub = Sub(name: string, instrs: seq<Instr>, vars: seq<string>, labels: seq<Label>)

  /** An opaque block of version-specific local data. */
  datatype LocalData = LocalData(data: seq<bv8>)

  /** The root of the representation; the C counts are the lengths of the name lists. */
  datatype Ecl = Ecl(subs: seq<Sub>, animNames: seq<string>, ecliNames: seq<string>, localData: seq<LocalData>)

  function AnimCount(e: Ecl): nat { |e.animNames| }

  function EcliCount(e: Ecl): nat { |e.ecliNames| }

  /** `thecl_new`: a program with no subroutines, no local data and no names. */
  function NewEcl(): (r: Ecl)
    ensures r.subs == [] && r.localData == []
    ensures AnimCount(r) == 0 && EcliCount(r) == 0
  {
    Ecl([], [], [], [])
  }

  /** `thecl_instr_new`: an ordinary instruction, zero-filled, with no operands. */
  function NewInstr(): (r: Instr)
    ensures TypeOf(r) == InstrKind
    ensures Params(r) == []
    ensures r.id == 0 && r.time == 0 && r.text.None?
  {
    Ordinary(0, 0, None, [])
  }

  /** `thecl_instr_time`: a time marker carrying `time`. */
  function InstrTime(time: uint32): (r: Instr)
    ensures TypeOf(r) == TimeKind && r.time == time
    ensures Params(r) == []
  {
    TimeMarker(time)
  }

  /** `thecl_instr_rank`: a rank marker carrying `rank`. */
  function InstrRank(rank: uint32): (r: Instr)
    ensures TypeOf(r) == RankKind && r.rank == rank
    ensures Params(r) == []
  {
    RankMarker(rank)
  }

  /** `thecl_instr_label`: a label marker carrying `offset`. */
  function InstrLabel(offset: uint32): (r: Instr)
    ensures TypeOf(r) == LabelKind && r.offset == offset
    ensures Params(r) == []
  {
    LabelMarker(offset)
  }

  /** `param_new`: a literal parameter whose value is pre-tagged with `tag`. */
  function NewParam(tag: int32): (r: Param)
    ensures r.tag == tag && r.value.tag == tag
    ensures Tagged(r)
    ensures !r.isExpression
    ensures r.value.payload == Zeroed
  {
    Param(tag, Value(tag, Zeroed), false)
  }

  /** A node built by a marker constructor never exposes operands, and its discriminant names its arm. */
  lemma MarkersHaveNoParams(i: Instr)
    requires TypeOf(i) != InstrKind
    ensures Params(i) == []
    ensures TypeOf(i) == TimeKind <==> i.TimeMarker?
    ensures TypeOf(i) == RankKind <==> i.RankMarker?
    ensures TypeOf(i) == LabelKind <==> i.LabelMarker?
  {
  }
}
