// The enumerations and bit-field views that the GPFIFO register file lays
// over its 32-bit words (gpfifo.h, union Regs). Each packed bit-field is
// written out as an explicit shift and mask on a bv32 word, with an encoder
// that puts the fields back with zero padding. Field positions follow
// NVIDIA's host class clb06f.h and dev_pbdma.ref, as the header cites them.
//
//   word  view                bits
//   0     setObject           nvClass 0-15, engine 16-20
//   4     semaphore (upper)   offsetUpper 0-7
//   5     semaphore (lower)   offsetLower 2-31
//   7     semaphore control   operation 0-4, acquireSwitch 12, releaseWfi 20,
//                             releaseSize 24, reduction 27-30, format 31
//   29    syncpoint control   operation 0, waitSwitch 4, index 8-19
//   30    wfi                 scope 0
//   32    yield               op 0-1
module GpfifoFields {
  import opened GpfifoOption

  // Field values, as words whose bits above the field's width are clear.
  type Bit = b: bv32 | b < 2
  type Bits2 = b: bv32 | b < 0x4
  type Bits4 = b: bv32 | b < 0x10
  type Bits5 = b: bv32 | b < 0x20
  type Bits8 = b: bv32 | b < 0x100
  type Bits12 = b: bv32 | b < 0x1000
  type Bits16 = b: bv32 | b < 0x1_0000
  type Bits30 = b: bv32 | b < 0x4000_0000

  // ---------------------------------------------------------------------
  // Enumerations. Each has the code the header assigns to it; a field whose
  // width leaves codes unnamed decodes to an Option, the others decode to
  // the enumeration itself.
  // ---------------------------------------------------------------------

  /** One-hot semaphore operation codes, stored in a 5-bit field. */
  datatype SemaphoreOperation = Acquire | Release | AcqGeq | AcqAnd | Reduction {
    function Code(): Bits5 {
      match this
      case Acquire => 1
      case Release => 2
      case AcqGeq => 4
      case AcqAnd => 8
      case Reduction => 16
    }
  }

  function SemaphoreOperationOf(field: Bits5): (r: Option<SemaphoreOperation>)
    ensures r.Some? ==> r.value.Code() == field
    ensures r.None? ==> forall op: SemaphoreOperation :: op.Code() != field
  {
    if field == 1 then Some(Acquire)
    else if field == 2 then Some(Release)
    else if field == 4 then Some(AcqGeq)
    else if field == 8 then Some(AcqAnd)
    else if field == 16 then Some(Reduction)
    else None
  }

  /** Every operation code has exactly one bit set. */
  lemma SemaphoreOperationOneHot(op: SemaphoreOperation)
    ensures op.Code() != 0 && op.Code() & (op.Code() - 1) == 0
    ensures SemaphoreOperationOf(op.Code()) == Some(op)
  {
  }

  datatype SemaphoreAcquireSwitch = Disabled | Enabled {
    function Code(): Bit {
      match this
      case Disabled => 0
      case Enabled => 1
    }
  }

  function SemaphoreAcquireSwitchOf(field: Bit): (r: SemaphoreAcquireSwitch)
    ensures r.Code() == field
  {
    if field == 0 then Disabled else Enabled
  }

  datatype SemaphoreReleaseWfi = En | Dis {
    function Code(): Bit {
      match this
      case En => 0
      case Dis => 1
    }
  }

  function SemaphoreReleaseWfiOf(field: Bit): (r: SemaphoreReleaseWfi)
    ensures r.Code() == field
  {
    if field == 0 then SemaphoreReleaseWfi.En else SemaphoreReleaseWfi.Dis
  }

  datatype SemaphoreReleaseSize = SixteenBytes | FourBytes {
    function Code(): Bit {
      match this
      case SixteenBytes => 0
      case FourBytes => 1
    }
  }

  function SemaphoreReleaseSizeOf(field: Bit): (r: SemaphoreReleaseSize)
    ensures r.Code() == field
  {
    if field == 0 then SixteenBytes else FourBytes
  }

  /** Reduction codes 0-7, stored in a 4-bit field: codes 8-15 are unnamed. */
  datatype SemaphoreReduction = Min | Max | Xor | And | Or | Add | Inc | Dec {
    function Code(): Bits4 {
      match this
      case Min => 0
      case Max => 1
      case Xor => 2
      case And => 3
      case Or => 4
      case Add => 5
      case Inc => 6
      case Dec => 7
    }
  }

  function SemaphoreReductionOf(field: Bits4): (r: Option<SemaphoreReduction>)
    ensures r.Some? <==> field < 8
    ensures r.Some? ==> r.value.Code() == field
  {
    if field == 0 then Some(Min)
    else if field == 1 then Some(Max)
    else if field == 2 then Some(Xor)
    else if field == 3 then Some(And)
    else if field == 4 then Some(Or)
    else if field == 5 then Some(Add)
    else if field == 6 then Some(Inc)
    else if field == 7 then Some(Dec)
    else None
  }

  datatype SemaphoreFormat = Signed | Unsigned {
    function Code(): Bit {
      match this
      case Signed => 0
      case Unsigned => 1
    }
  }

  function SemaphoreFormatOf(field: Bit): (r: SemaphoreFormat)
    ensures r.Code() == field
  {
    if field == 0 then Signed else Unsigned
  }

  datatype SyncpointOperation = Wait | Incr {
    function Code(): Bit {
      match this
      case Wait => 0
      case Incr => 1
    }
  }

  function SyncpointOperationOf(field: Bit): (r: SyncpointOperation)
    ensures r.Code() == field
  {
    if field == 0 then Wait else Incr
  }

  datatype SyncpointWaitSwitch = Dis | En {
    function Code(): Bit {
      match this
      case Dis => 0
      case En => 1
    }
  }

  function SyncpointWaitSwitchOf(field: Bit): (r: SyncpointWaitSwitch)
    ensures r.Code() == field
  {
    if field == 0 then SyncpointWaitSwitch.Dis else SyncpointWaitSwitch.En
  }

  datatype WfiScope = CurrentScgType | All {
    function Code(): Bit {
      match this
      case CurrentScgType => 0
      case All => 1
    }
  }

  function WfiScopeOf(field: Bit): (r: WfiScope)
    ensures r.Code() == field
  {
    if field == 0 then CurrentScgType else All
  }

  /** All four values of the 2-bit yield field are named. */
  datatype YieldOp = Nop | PbdmaTimeslice | RunlistTimeslice | Tsg {
    function Code(): Bits2 {
      match this
      case Nop => 0
      case PbdmaTimeslice => 1
      case RunlistTimeslice => 2
      case Tsg => 3
    }
  }

  function YieldOpOf(field: Bits2): (r: YieldOp)
    ensures r.Code() == field
  {
    if field == 0 then Nop
    else if field == 1 then PbdmaTimeslice
    else if field == 2 then RunlistTimeslice
    else Tsg
  }

  /** Decoding a code returns the value that has it, for every enumeration
      that a field of the register file is declared with. */
  lemma EnumCodesRoundTrip()
    ensures forall s: SemaphoreOperation :: SemaphoreOperationOf(s.Code()) == Some(s)
    ensures forall s: SemaphoreAcquireSwitch :: SemaphoreAcquireSwitchOf(s.Code()) == s
    ensures forall s: SemaphoreReleaseWfi :: SemaphoreReleaseWfiOf(s.Code()) == s
    ensures forall s: SemaphoreReleaseSize :: SemaphoreReleaseSizeOf(s.Code()) == s
    ensures forall s: SemaphoreReduction :: SemaphoreReductionOf(s.Code()) == Some(s)
    ensures forall s: SemaphoreFormat :: SemaphoreFormatOf(s.Code()) == s
    ensures forall s: SyncpointOperation :: SyncpointOperationOf(s.Code()) == s
    ensures forall s: SyncpointWaitSwitch :: SyncpointWaitSwitchOf(s.Code()) == s
    ensures forall s: WfiScope :: WfiScopeOf(s.Code()) == s
    ensures forall s: YieldOp :: YieldOpOf(s.Code()) == s
  {
  }

  // ---------------------------------------------------------------------
  // Word 0: object bind.
  // ---------------------------------------------------------------------

  datatype SetObjectRegister = SetObjectRegister(nvClass: Bits16, engine: Bits5)

  /** The bits of word 0 that setObject names: 0-20. */
  const SetObjectMask: bv32 := 0x001F_FFFF

  function EncodeSetObject(r: SetObjectRegister): bv32 {
    r.nvClass | (r.engine << 16)
  }

  function DecodeSetObject(w: bv32): (r: SetObjectRegister)
    ensures EncodeSetObject(r) == w & SetObjectMask
  {
    SetObjectRegister(w & 0xFFFF, (w >> 16) & 0x1F)
  }

  lemma SetObjectRoundTrip(r: SetObjectRegister)
    ensures DecodeSetObject(EncodeSetObject(r)) == r
  {
  }

  // ---------------------------------------------------------------------
  // Words 4 and 5: the semaphore address halves.
  // ---------------------------------------------------------------------

  /** offsetUpper is bits 0-7 of word 4. */
  const OffsetUpperMask: bv32 := 0x0000_00FF
  /** offsetLower is bits 2-31 of word 5; bits 0-1 are padding. */
  const OffsetLowerMask: bv32 := 0xFFFF_FFFC

  function EncodeOffsetUpper(f: Bits8): bv32 {
    f
  }

  function OffsetUpperOf(w: bv32): (f: Bits8)
    ensures EncodeOffsetUpper(f) == w & OffsetUpperMask
  {
    w & 0xFF
  }

  /** Word 4 is offsetUpper in bits 0-7 together with its padding bits. */
  lemma OffsetUpperSplit(w: bv32)
    ensures EncodeOffsetUpper(OffsetUpperOf(w)) | (w & !OffsetUpperMask) == w
  {
  }

  lemma OffsetUpperRoundTrip(f: Bits8)
    ensures OffsetUpperOf(EncodeOffsetUpper(f)) == f
  {
  }

  function EncodeOffsetLower(f: Bits30): bv32 {
    f << 2
  }

  function OffsetLowerOf(w: bv32): (f: Bits30)
    ensures EncodeOffsetLower(f) == w & OffsetLowerMask
  {
    w >> 2
  }

  lemma OffsetLowerRoundTrip(f: Bits30)
    ensures OffsetLowerOf(EncodeOffsetLower(f)) == f
  {
  }

  // ---------------------------------------------------------------------
  // Word 7: semaphore control.
  // ---------------------------------------------------------------------

  datatype SemaphoreControl = SemaphoreControl(
    operation: Bits5,
    acquireSwitch: SemaphoreAcquireSwitch,
    releaseWfi: SemaphoreReleaseWfi,
    releaseSize: SemaphoreReleaseSize,
    reduction: Bits4,
    format: SemaphoreFormat)
  {
    /** The named operation, if the 5-bit field holds one of the five codes. */
    function NamedOperation(): Option<SemaphoreOperation> {
      SemaphoreOperationOf(operation)
    }

    /** The named reduction, if the 4-bit field holds one of the eight codes. */
    function NamedReduction(): Option<SemaphoreReduction> {
      SemaphoreReductionOf(reduction)
    }
  }

  /** Bits 0-4, 12, 20, 24, 27-30 and 31. */
  const SemaphoreControlMask: bv32 := 0xF910_101F

  function EncodeSemaphoreControl(c: SemaphoreControl): bv32 {
    c.operation
    | (c.acquireSwitch.Code() << 12)
    | (c.releaseWfi.Code() << 20)
    | (c.releaseSize.Code() << 24)
    | (c.reduction << 27)
    | (c.format.Code() << 31)
  }

  function DecodeSemaphoreControl(w: bv32): (c: SemaphoreControl)
    ensures EncodeSemaphoreControl(c) == w & SemaphoreControlMask
  {
    SemaphoreControl(
      w & 0x1F,
      SemaphoreAcquireSwitchOf((w >> 12) & 1),
      SemaphoreReleaseWfiOf((w >> 20) & 1),
      SemaphoreReleaseSizeOf((w >> 24) & 1),
      (w >> 27) & 0xF,
      SemaphoreFormatOf((w >> 31) & 1))
  }

  lemma SemaphoreControlRoundTrip(c: SemaphoreControl)
    ensures DecodeSemaphoreControl(EncodeSemaphoreControl(c)) == c
  {
    EnumCodesRoundTrip();
  }

  // ---------------------------------------------------------------------
  // Word 29: syncpoint control.
  // ---------------------------------------------------------------------

  datatype SyncpointControl = SyncpointControl(
    operation: SyncpointOperation,
    waitSwitch: SyncpointWaitSwitch,
    index: Bits12)

  /** Bits 0, 4 and 8-19. */
  const SyncpointControlMask: bv32 := 0x000F_FF11

  function EncodeSyncpointControl(c: SyncpointControl): bv32 {
    c.operation.Code() | (c.waitSwitch.Code() << 4) | (c.index << 8)
  }

  function DecodeSyncpointControl(w: bv32): (c: SyncpointControl)
    ensures EncodeSyncpointControl(c) == w & SyncpointControlMask
  {
    SyncpointControl(
      SyncpointOperationOf(w & 1),
      SyncpointWaitSwitchOf((w >> 4) & 1),
      (w >> 8) & 0xFFF)
  }

  lemma SyncpointControlRoundTrip(c: SyncpointControl)
    ensures DecodeSyncpointControl(EncodeSyncpointControl(c)) == c
  {
    EnumCodesRoundTrip();
  }

  // ---------------------------------------------------------------------
  // Words 30 and 32: wait-for-idle scope and yield op.
  // ---------------------------------------------------------------------

  datatype WfiRegister = WfiRegister(scope: WfiScope)

  const WfiMask: bv32 := 0x1

  function EncodeWfi(r: WfiRegister): bv32 {
    r.scope.Code()
  }

  function DecodeWfi(w: bv32): (r: WfiRegister)
    ensures EncodeWfi(r) == w & WfiMask
  {
    WfiRegister(WfiScopeOf(w & 1))
  }

  datatype YieldRegister = YieldRegister(op: YieldOp)

  const YieldMask: bv32 := 0x3

  function EncodeYield(r: YieldRegister): bv32 {
    r.op.Code()
  }

  function DecodeYield(w: bv32): (r: YieldRegister)
    ensures EncodeYield(r) == w & YieldMask
  {
    YieldRegister(YieldOpOf(w & 3))
  }

  lemma WfiYieldRoundTrip(wfi: WfiRegister, y: YieldRegister)
    ensures DecodeWfi(EncodeWfi(wfi)) == wfi
    ensures DecodeYield(EncodeYield(y)) == y
  {
    EnumCodesRoundTrip();
  }
}
