// Where the named registers sit in the GPFIFO register file. The header
// declares the named view as one struct whose members follow each other in
// declaration order, with explicit padding words between them; a member's
// word index is the sum of the sizes of the members before it. The struct
// shares its storage with `raw`, an array of GpfifoRegisterSize words.
module GpfifoLayout {
  import opened GpfifoOption

  /** constant::GpfifoRegisterSize, in 32-bit words. */
  const RegisterSize: nat := 0x40
  const WordBytes: nat := 4

  /** The named members of the register struct. */
  datatype Slot =
    | SetObject | Illegal | Nop | Semaphore | NonStallInterrupt | FbFlush
    | MemOpC | MemOpD | SetReference | Syncpoint | Wfi | CrcCheck | Yield

  /** A member of the struct: a named slot or a run of padding words. */
  datatype Member = Field(slot: Slot, words: nat) | Pad(words: nat)

  /** The struct's members in declaration order, with their sizes in words. */
  const Struct: seq<Member> := [
    Field(SetObject, 1), Field(Illegal, 1), Field(Nop, 1), Pad(1),
    Field(Semaphore, 4), Field(NonStallInterrupt, 1), Field(FbFlush, 1), Pad(2),
    Field(MemOpC, 1), Field(MemOpD, 1), Pad(6), Field(SetReference, 1), Pad(7),
    Field(Syncpoint, 2), Field(Wfi, 1), Field(CrcCheck, 1), Field(Yield, 1)]

  /** Word index at which member i of l starts. */
  function OffsetAt(l: seq<Member>, i: nat): nat
    requires i <= |l|
  {
    if i == 0 then 0 else OffsetAt(l, i - 1) + l[i - 1].words
  }

  /** The fixed word index of each named slot. */
  function SlotWord(s: Slot): nat {
    match s
    case SetObject => 0
    case Illegal => 1
    case Nop => 2
    case Semaphore => 4
    case NonStallInterrupt => 8
    case FbFlush => 9
    case MemOpC => 12
    case MemOpD => 13
    case SetReference => 20
    case Syncpoint => 28
    case Wfi => 30
    case CrcCheck => 31
    case Yield => 32
  }

  /** How many consecutive words each named slot occupies. */
  function SlotLength(s: Slot): nat {
    match s
    case Semaphore => 4
    case Syncpoint => 2
    case _ => 1
  }

  /** Index of a slot's member in Struct. */
  function Position(s: Slot): nat {
    match s
    case SetObject => 0
    case Illegal => 1
    case Nop => 2
    case Semaphore => 4
    case NonStallInterrupt => 5
    case FbFlush => 6
    case MemOpC => 8
    case MemOpD => 9
    case SetReference => 11
    case Syncpoint => 13
    case Wfi => 14
    case CrcCheck => 15
    case Yield => 16
  }

  /** Members laid out one after the other never overlap. */
  lemma {:induction false} OffsetsIncrease(l: seq<Member>, i: nat, j: nat)
    requires i < j <= |l|
    ensures OffsetAt(l, i) + l[i].words <= OffsetAt(l, j)
  {
    if j > i + 1 {
      OffsetsIncrease(l, i, j - 1);
    }
  }

  /** The word offsets of all members of Struct, and its total size. */
  lemma StructOffsets()
    ensures OffsetAt(Struct, 0) == 0 && OffsetAt(Struct, 1) == 1
    ensures OffsetAt(Struct, 2) == 2 && OffsetAt(Struct, 3) == 3
    ensures OffsetAt(Struct, 4) == 4 && OffsetAt(Struct, 5) == 8
    ensures OffsetAt(Struct, 6) == 9 && OffsetAt(Struct, 7) == 10
    ensures OffsetAt(Struct, 8) == 12 && OffsetAt(Struct, 9) == 13
    ensures OffsetAt(Struct, 10) == 14 && OffsetAt(Struct, 11) == 20
    ensures OffsetAt(Struct, 12) == 21 && OffsetAt(Struct, 13) == 28
    ensures OffsetAt(Struct, 14) == 30 && OffsetAt(Struct, 15) == 31
    ensures OffsetAt(Struct, 16) == 32 && OffsetAt(Struct, 17) == 33
  {
  }

  /** Each named slot is the struct member at its position, and the
      declaration order puts it at its fixed word index. */
  lemma StructPlacesSlot(s: Slot)
    ensures Position(s) < |Struct|
    ensures Struct[Position(s)] == Field(s, SlotLength(s))
    ensures OffsetAt(Struct, Position(s)) == SlotWord(s)
  {
    StructOffsets();
  }

  /** The named view occupies words 0..32, well inside the register file. */
  lemma StructFits()
    ensures OffsetAt(Struct, |Struct|) == 33 < RegisterSize
    ensures forall s: Slot :: SlotWord(s) + SlotLength(s) <= 33
  {
    StructOffsets();
  }

  /** Distinct slots occupy disjoint word ranges. */
  lemma SlotsDisjoint(s: Slot, t: Slot)
    requires s != t
    ensures SlotWord(s) + SlotLength(s) <= SlotWord(t) || SlotWord(t) + SlotLength(t) <= SlotWord(s)
  {
    StructPlacesSlot(s);
    StructPlacesSlot(t);
    if Position(s) < Position(t) {
      OffsetsIncrease(Struct, Position(s), Position(t));
    } else {
      OffsetsIncrease(Struct, Position(t), Position(s));
    }
  }

  /** The named slot that owns word i, if any; the others are padding. */
  function SlotOf(i: nat): (r: Option<Slot>)
    ensures r.Some? ==> SlotWord(r.value) <= i < SlotWord(r.value) + SlotLength(r.value)
    ensures r.None? ==> forall s: Slot :: !(SlotWord(s) <= i < SlotWord(s) + SlotLength(s))
  {
    if i == 0 then Some(SetObject)
    else if i == 1 then Some(Illegal)
    else if i == 2 then Some(Nop)
    else if 4 <= i < 8 then Some(Semaphore)
    else if i == 8 then Some(NonStallInterrupt)
    else if i == 9 then Some(FbFlush)
    else if i == 12 then Some(MemOpC)
    else if i == 13 then Some(MemOpD)
    else if i == 20 then Some(SetReference)
    else if 28 <= i < 30 then Some(Syncpoint)
    else if i == 30 then Some(Wfi)
    else if i == 31 then Some(CrcCheck)
    else if i == 32 then Some(Yield)
    else None
  }

  function Max(a: nat, b: nat): nat {
    if a < b then b else a
  }

  /** Bytes taken by the union of the named struct and the raw array. */
  function UnionBytes(): nat {
    WordBytes * Max(OffsetAt(Struct, |Struct|), RegisterSize)
  }

  /** The static_assert on the union's size: 0x40 words of 4 bytes. */
  lemma UnionIsRegisterFile()
    ensures UnionBytes() == RegisterSize * WordBytes == 256
  {
    StructFits();
  }
}
