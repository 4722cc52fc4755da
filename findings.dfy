// How the header's enumeration-typed bit-fields read back. Every field of
// an enumeration type in union Regs is declared with a scoped enumeration
// whose underlying type is left at the default, int. A bit-field of a
// signed type keeps its top bit as a sign bit (Clang, the compiler the
// project builds with, does so, and warns that such a field "needs an
// extra bit" for its largest enumerators), so storing an enumerator whose
// code has the field's top bit set and reading the field back gives a
// negative value that is no enumerator.
//
// SignedFieldRead models the field read as the header declares it; the
// lemmas below name the enumerators it loses. The rest of the model reads
// every field unsigned (GpfifoFields), which is what the register layout
// it follows intends, and proves that reading gives back the stored code.
module GpfifoFindings {
  import opened GpfifoOption
  import opened GpfifoFields

  function Pow2(n: nat): (p: nat)
    ensures p >= 1
  {
    if n == 0 then 1 else 2 * Pow2(n - 1)
  }

  /** The value read from a bit-field of the given width whose declared
      type is signed: the stored bits as a two's complement number. */
  function SignedFieldRead(bits: bv32, width: nat): (v: int)
    requires 1 <= width <= 32 && bits as int < Pow2(width)
    ensures -(Pow2(width - 1) as int) <= v < Pow2(width - 1)
    ensures v == bits as int <==> bits as int < Pow2(width - 1)
    ensures v < 0 <==> bits as int >= Pow2(width - 1)
    ensures v < 0 ==> v + Pow2(width) == bits as int
  {
    var b, half := bits as int, Pow2(width - 1);
    assert Pow2(width) == 2 * half;
    if b < half then b else b - 2 * half
  }

  /** The 5-bit operation field gives back every code but Reduction's,
      which has the top bit set and reads as -16. */
  lemma OperationFieldAsWritten(op: SemaphoreOperation)
    ensures SignedFieldRead(op.Code(), 5) == op.Code() as int <==> op != Reduction
    ensures op == Reduction ==> SignedFieldRead(op.Code(), 5) == -16
  {
    assert Pow2(4) == 16 && Pow2(5) == 32;
  }

  /** A 1-bit enumerated field gives back code 0 and reads code 1 as -1. */
  lemma OneBitFieldAsWritten(b: Bit)
    ensures SignedFieldRead(b, 1) == b as int <==> b == 0
    ensures b == 1 ==> SignedFieldRead(b, 1) == -1
  {
    assert Pow2(0) == 1 && Pow2(1) == 2;
  }

  /** The one-bit enumerators with code 1 that read back as -1. */
  lemma OneBitEnumeratorsLost()
    ensures SignedFieldRead(Enabled.Code(), 1) == -1
    ensures SignedFieldRead(SemaphoreReleaseWfi.Dis.Code(), 1) == -1
    ensures SignedFieldRead(FourBytes.Code(), 1) == -1
    ensures SignedFieldRead(Unsigned.Code(), 1) == -1
    ensures SignedFieldRead(Incr.Code(), 1) == -1
    ensures SignedFieldRead(SyncpointWaitSwitch.En.Code(), 1) == -1
    ensures SignedFieldRead(WfiScope.All.Code(), 1) == -1
  {
    OneBitFieldAsWritten(1);
  }

  /** The 2-bit yield field gives back Nop and PbdmaTimeslice only:
      RunlistTimeslice reads as -2 and Tsg as -1. */
  lemma YieldFieldAsWritten(op: YieldOp)
    ensures SignedFieldRead(op.Code(), 2) == op.Code() as int <==> op == YieldOp.Nop || op == PbdmaTimeslice
    ensures op == RunlistTimeslice ==> SignedFieldRead(op.Code(), 2) == -2
    ensures op == Tsg ==> SignedFieldRead(op.Code(), 2) == -1
  {
    assert Pow2(1) == 2 && Pow2(2) == 4;
  }

  /** The 4-bit reduction field is wide enough: codes 0-7 leave its top bit
      clear, so every reduction reads back as its code. */
  lemma ReductionFieldAsWritten(r: SemaphoreReduction)
    ensures SignedFieldRead(r.Code(), 4) == r.Code() as int
  {
    assert Pow2(3) == 8 && Pow2(4) == 16;
  }

  // The same losses seen through the register words: the field's bits are
  // taken from the word that holds them, as the bit-field read does.

  /** A semaphore control word (word 7) whose operation field names
      Reduction reads that field back as -16. */
  lemma ReductionWordAsWritten(w: bv32)
    ensures DecodeSemaphoreControl(w).NamedOperation() == Some(Reduction)
        ==> SignedFieldRead(w & 0x1F, 5) == -16
  {
    OperationFieldAsWritten(Reduction);
  }

  /** A yield word (word 32) holding Tsg or RunlistTimeslice reads its op
      field back negative; one holding Nop or PbdmaTimeslice reads its code. */
  lemma YieldWordAsWritten(w: bv32)
    ensures SignedFieldRead(w & 3, 2) == DecodeYield(w).op.Code() as int
        <==> DecodeYield(w).op == YieldOp.Nop || DecodeYield(w).op == PbdmaTimeslice
    ensures DecodeYield(w).op == Tsg ==> SignedFieldRead(w & 3, 2) == -1
  {
    YieldFieldAsWritten(DecodeYield(w).op);
  }

  /** A semaphore control word whose acquireSwitch bit (bit 12) is Enabled
      reads that field back as -1. */
  lemma AcquireSwitchWordAsWritten(w: bv32)
    ensures DecodeSemaphoreControl(w).acquireSwitch == Enabled
        ==> SignedFieldRead((w >> 12) & 1, 1) == -1
  {
    OneBitFieldAsWritten((w >> 12) & 1);
  }
}
