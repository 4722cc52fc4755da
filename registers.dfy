// The named view of the GPFIFO register file: each named member of the
// register struct read from the raw words it shares storage with. The raw
// words are the only state; a member's value is decoded from its own words
// whenever it is read, and never stored.
module GpfifoRegisters {
  import opened GpfifoOption
  import opened GpfifoLayout
  import opened GpfifoFields

  /** Words 4-7: address halves, payload and control of a semaphore. */
  datatype SemaphoreRegisters = SemaphoreRegisters(
    offsetUpper: Bits8,
    offsetLower: Bits30,
    payload: bv32,
    control: SemaphoreControl)

  /** Words 28-29: payload and control of a syncpoint operation. */
  datatype SyncpointRegisters = SyncpointRegisters(payload: bv32, control: SyncpointControl)

  /** What a named member reads as, by the member's type. */
  datatype SlotValue =
    | ObjectBind(setObject: SetObjectRegister)
    | Scalar(word: bv32)
    | SemaphoreValue(semaphore: SemaphoreRegisters)
    | SyncpointValue(syncpoint: SyncpointRegisters)
    | WfiValue(wfi: WfiRegister)
    | YieldValue(yieldRegister: YieldRegister)

  /** The value kind each slot's member has. */
  predicate HasKind(s: Slot, v: SlotValue) {
    match s
    case SetObject => v.ObjectBind?
    case Semaphore => v.SemaphoreValue?
    case Syncpoint => v.SyncpointValue?
    case Wfi => v.WfiValue?
    case Yield => v.YieldValue?
    case _ => v.Scalar?
  }

  /** The words of a slot read through its member. */
  function DecodeSlot(s: Slot, words: seq<bv32>): (v: SlotValue)
    requires |words| == SlotLength(s)
    ensures HasKind(s, v)
  {
    match s
    case SetObject => ObjectBind(DecodeSetObject(words[0]))
    case Semaphore =>
      SemaphoreValue(SemaphoreRegisters(
        OffsetUpperOf(words[0]), OffsetLowerOf(words[1]), words[2], DecodeSemaphoreControl(words[3])))
    case Syncpoint => SyncpointValue(SyncpointRegisters(words[0], DecodeSyncpointControl(words[1])))
    case Wfi => WfiValue(DecodeWfi(words[0]))
    case Yield => YieldValue(DecodeYield(words[0]))
    case _ => Scalar(words[0])
  }

  /** The words a member's value stands for, with zero padding. */
  function EncodeSlot(v: SlotValue): seq<bv32> {
    match v
    case ObjectBind(r) => [EncodeSetObject(r)]
    case Scalar(w) => [w]
    case SemaphoreValue(r) =>
      [EncodeOffsetUpper(r.offsetUpper), EncodeOffsetLower(r.offsetLower), r.payload, EncodeSemaphoreControl(r.control)]
    case SyncpointValue(r) => [r.payload, EncodeSyncpointControl(r.control)]
    case WfiValue(r) => [EncodeWfi(r)]
    case YieldValue(r) => [EncodeYield(r)]
  }

  const AllBits: bv32 := 0xFFFF_FFFF

  /** For each word of a slot, the bits that its member's fields cover. */
  function SlotMasks(s: Slot): (m: seq<bv32>)
    ensures |m| == SlotLength(s)
  {
    match s
    case SetObject => [SetObjectMask]
    case Semaphore => [OffsetUpperMask, OffsetLowerMask, AllBits, SemaphoreControlMask]
    case Syncpoint => [AllBits, SyncpointControlMask]
    case Wfi => [WfiMask]
    case Yield => [YieldMask]
    case _ => [AllBits]
  }

  function Masked(words: seq<bv32>, masks: seq<bv32>): (r: seq<bv32>)
    requires |words| == |masks|
    ensures |r| == |words|
  {
    seq(|words|, i requires 0 <= i < |words| => words[i] & masks[i])
  }

  /** Encoding a member's value and reading it back gives the value. */
  lemma SlotRoundTrip(s: Slot, v: SlotValue)
    requires HasKind(s, v)
    ensures |EncodeSlot(v)| == SlotLength(s)
    ensures DecodeSlot(s, EncodeSlot(v)) == v
  {
    match v
    case ObjectBind(r) => SetObjectRoundTrip(r);
    case SemaphoreValue(r) =>
      OffsetUpperRoundTrip(r.offsetUpper);
      OffsetLowerRoundTrip(r.offsetLower);
      SemaphoreControlRoundTrip(r.control);
    case SyncpointValue(r) => SyncpointControlRoundTrip(r.control);
    case WfiValue(r) => WfiYieldRoundTrip(r, YieldRegister(YieldOp.Nop));
    case YieldValue(r) => WfiYieldRoundTrip(WfiRegister(CurrentScgType), r);
    case Scalar(_) =>
  }

  /** Reading a slot's words and encoding the value again keeps exactly
      the bits its member names and clears the padding. */
  lemma SlotReencode(s: Slot, words: seq<bv32>)
    requires |words| == SlotLength(s)
    ensures EncodeSlot(DecodeSlot(s, words)) == Masked(words, SlotMasks(s))
  {
    match s
    case Semaphore => SemaphoreReencode(words);
    case Syncpoint => SyncpointReencode(words);
    case SetObject => SetObjectReencode(words);
    case Wfi => WfiReencode(words);
    case Yield => YieldReencode(words);
    case _ => ScalarReencode(s, words);
  }

  lemma SemaphoreReencode(words: seq<bv32>)
    requires |words| == 4
    ensures EncodeSlot(DecodeSlot(Semaphore, words)) == Masked(words, SlotMasks(Semaphore))
  {
    var e := EncodeSlot(DecodeSlot(Semaphore, words));
    assert e == [words[0] & OffsetUpperMask, words[1] & OffsetLowerMask, words[2], words[3] & SemaphoreControlMask];
  }

  lemma SyncpointReencode(words: seq<bv32>)
    requires |words| == 2
    ensures EncodeSlot(DecodeSlot(Syncpoint, words)) == Masked(words, SlotMasks(Syncpoint))
  {
    var e := EncodeSlot(DecodeSlot(Syncpoint, words));
    assert e == [words[0], words[1] & SyncpointControlMask];
  }

  lemma SetObjectReencode(words: seq<bv32>)
    requires |words| == 1
    ensures EncodeSlot(DecodeSlot(SetObject, words)) == Masked(words, SlotMasks(SetObject))
  {
    assert Masked(words, SlotMasks(SetObject)) == [words[0] & SetObjectMask];
  }

  lemma WfiReencode(words: seq<bv32>)
    requires |words| == 1
    ensures EncodeSlot(DecodeSlot(Wfi, words)) == Masked(words, SlotMasks(Wfi))
  {
    assert Masked(words, SlotMasks(Wfi)) == [words[0] & WfiMask];
  }

  lemma YieldReencode(words: seq<bv32>)
    requires |words| == 1
    ensures EncodeSlot(DecodeSlot(Yield, words)) == Masked(words, SlotMasks(Yield))
  {
    assert Masked(words, SlotMasks(Yield)) == [words[0] & YieldMask];
  }

  /** The members that are plain words keep every bit. */
  lemma ScalarReencode(s: Slot, words: seq<bv32>)
    requires !(s.SetObject? || s.Semaphore? || s.Syncpoint? || s.Wfi? || s.Yield?)
    requires |words| == 1
    ensures EncodeSlot(DecodeSlot(s, words)) == Masked(words, SlotMasks(s))
  {
    assert SlotLength(s) == 1;
    assert DecodeSlot(s, words) == Scalar(words[0]);
    assert SlotMasks(s) == [AllBits];
    assert Masked(words, [AllBits])[0] == words[0];
  }

  /** The raw words that a slot occupies. */
  function SlotWords(raw: seq<bv32>, s: Slot): (w: seq<bv32>)
    requires |raw| == RegisterSize
    ensures |w| == SlotLength(s)
  {
    raw[SlotWord(s)..SlotWord(s) + SlotLength(s)]
  }

  /** The union read through one of its named members: a value of the
      member's type that stands for exactly the bits its fields name in the
      words the member overlays. */
  function ReadSlot(raw: seq<bv32>, s: Slot): (v: SlotValue)
    requires |raw| == RegisterSize
    ensures HasKind(s, v)
    ensures EncodeSlot(v) == Masked(raw[SlotWord(s)..SlotWord(s) + SlotLength(s)], SlotMasks(s))
  {
    SlotReencode(s, SlotWords(raw, s));
    DecodeSlot(s, SlotWords(raw, s))
  }

  /** A member's value depends on the words it overlays and on no others. */
  lemma ReadSlotLocal(raw: seq<bv32>, raw': seq<bv32>, s: Slot)
    requires |raw| == |raw'| == RegisterSize
    requires forall i :: SlotWord(s) <= i < SlotWord(s) + SlotLength(s) ==> raw[i] == raw'[i]
    ensures ReadSlot(raw, s) == ReadSlot(raw', s)
  {
    var a, b := SlotWords(raw, s), SlotWords(raw', s);
    forall k | 0 <= k < |a|
      ensures a[k] == b[k]
    {
      assert a[k] == raw[SlotWord(s) + k] && b[k] == raw'[SlotWord(s) + k];
    }
    assert a == b;
  }

  // ---------------------------------------------------------------------
  // What a raw store does to the named view.
  // ---------------------------------------------------------------------

  predicate Covers(s: Slot, m: nat) {
    SlotWord(s) <= m < SlotWord(s) + SlotLength(s)
  }

  /** A member's value after word k of its slot is replaced by a: only the
      field that word holds changes, to the value decoded from a. */
  function WithSlotWord(v: SlotValue, k: nat, a: bv32): SlotValue {
    match v
    case ObjectBind(_) => ObjectBind(DecodeSetObject(a))
    case Scalar(_) => Scalar(a)
    case SemaphoreValue(r) =>
      SemaphoreValue(
        if k == 0 then r.(offsetUpper := OffsetUpperOf(a))
        else if k == 1 then r.(offsetLower := OffsetLowerOf(a))
        else if k == 2 then r.(payload := a)
        else r.(control := DecodeSemaphoreControl(a)))
    case SyncpointValue(r) =>
      SyncpointValue(
        if k == 0 then r.(payload := a)
        else r.(control := DecodeSyncpointControl(a)))
    case WfiValue(_) => WfiValue(DecodeWfi(a))
    case YieldValue(_) => YieldValue(DecodeYield(a))
  }

  /** Replacing word k of a slot changes the member's value as WithSlotWord says. */
  lemma DecodeSlotUpdate(s: Slot, words: seq<bv32>, k: nat, a: bv32)
    requires |words| == SlotLength(s) && k < |words|
    ensures DecodeSlot(s, words[k := a]) == WithSlotWord(DecodeSlot(s, words), k, a)
  {
  }

  /** Member s's value after raw word m is replaced by a. A store outside
      the slot leaves it unchanged. */
  function WriteSlot(v: SlotValue, s: Slot, m: nat, a: bv32): SlotValue {
    if Covers(s, m) then WithSlotWord(v, m - SlotWord(s), a) else v
  }

  /** Storing a into raw word m changes the named view exactly as
      WriteSlot says: the one field at m, no other field of any member. */
  lemma WriteView(raw: seq<bv32>, m: nat, a: bv32, s: Slot)
    requires |raw| == RegisterSize && m < RegisterSize
    ensures ReadSlot(raw[m := a], s) == WriteSlot(ReadSlot(raw, s), s, m, a)
  {
    if Covers(s, m) {
      var k := m - SlotWord(s);
      assert SlotWords(raw[m := a], s) == SlotWords(raw, s)[k := a];
      DecodeSlotUpdate(s, SlotWords(raw, s), k, a);
    } else {
      assert SlotWords(raw[m := a], s) == SlotWords(raw, s);
    }
  }

  /** A store into one member's words changes no other member. */
  lemma WriteOtherSlot(raw: seq<bv32>, m: nat, a: bv32, s: Slot, t: Slot)
    requires |raw| == RegisterSize && m < RegisterSize
    requires Covers(s, m) && s != t
    ensures ReadSlot(raw[m := a], t) == ReadSlot(raw, t)
  {
    SlotsDisjoint(s, t);
    WriteView(raw, m, a, t);
  }

  /** Storing the semaphore payload (word 6) changes that field alone: the
      address halves and the control word read as before, and so does
      every other member, the syncpoint control among them. */
  lemma SemaphorePayloadWrite(raw: seq<bv32>, a: bv32)
    requires |raw| == RegisterSize
    ensures ReadSlot(raw[6 := a], Semaphore).semaphore == ReadSlot(raw, Semaphore).semaphore.(payload := a)
    ensures forall t: Slot :: t != Semaphore ==> ReadSlot(raw[6 := a], t) == ReadSlot(raw, t)
  {
    WriteView(raw, 6, a, Semaphore);
    forall t: Slot | t != Semaphore
      ensures ReadSlot(raw[6 := a], t) == ReadSlot(raw, t)
    {
      WriteOtherSlot(raw, 6, a, Semaphore, t);
    }
  }

  /** A word that no slot covers is padding: storing to it changes no member. */
  lemma WritePadding(raw: seq<bv32>, m: nat, a: bv32)
    requires |raw| == RegisterSize && m < RegisterSize && SlotOf(m).None?
    ensures forall s: Slot :: ReadSlot(raw[m := a], s) == ReadSlot(raw, s)
  {
    forall s: Slot ensures ReadSlot(raw[m := a], s) == ReadSlot(raw, s) {
      WriteView(raw, m, a, s);
    }
  }

  /** The value-initialised register file: every word zero. */
  function ZeroFile(): (raw: seq<bv32>)
    ensures |raw| == RegisterSize
    ensures forall i :: 0 <= i < |raw| ==> raw[i] == 0
  {
    seq(RegisterSize, _ => 0)
  }

  /** Before any method is called, every member encodes back to zero words. */
  lemma ResetEncodesZero(s: Slot)
    ensures EncodeSlot(ReadSlot(ZeroFile(), s)) == seq(SlotLength(s), _ => 0)
  {
    var words := SlotWords(ZeroFile(), s);
    SlotReencode(s, words);
    var masked := Masked(words, SlotMasks(s));
    forall k | 0 <= k < |masked|
      ensures masked[k] == 0
    {
      assert words[k] == ZeroFile()[SlotWord(s) + k];
    }
    assert masked == seq(SlotLength(s), _ => 0);
  }

  /** What the named members read before any method is called: every
      field holds code zero. The zero semaphore operation field names no
      operation; the other enumerated fields read as their code-0 names. */
  lemma ResetView()
    ensures ReadSlot(ZeroFile(), Semaphore).semaphore.control
         == SemaphoreControl(0, Disabled, SemaphoreReleaseWfi.En, SixteenBytes, 0, Signed)
    ensures ReadSlot(ZeroFile(), Semaphore).semaphore.control.NamedOperation() == None
    ensures ReadSlot(ZeroFile(), Semaphore).semaphore.control.NamedReduction() == Some(Min)
    ensures ReadSlot(ZeroFile(), Syncpoint).syncpoint.control
         == SyncpointControl(Wait, SyncpointWaitSwitch.Dis, 0)
    ensures ReadSlot(ZeroFile(), Wfi).wfi.scope == CurrentScgType
    ensures ReadSlot(ZeroFile(), Yield).yieldRegister.op == YieldOp.Nop
  {
    assert SlotWords(ZeroFile(), Semaphore) == [0, 0, 0, 0];
    assert SlotWords(ZeroFile(), Syncpoint) == [0, 0];
    assert SlotWords(ZeroFile(), Wfi) == [0];
    assert SlotWords(ZeroFile(), Yield) == [0];
  }
}
