// The GPFIFO engine: it owns one register file and takes method calls from
// the command stream. A call stores its argument into the addressed raw
// word and does nothing else; the named members are views of those words
// (GpfifoRegisters) and change only through them.
module GpfifoEngine {
  import opened GpfifoLayout
  import opened GpfifoRegisters

  /** One method call from the command stream: the register index (the
      source's `method`) and the 32-bit argument written to it. */
  datatype MethodParams = MethodParams(methodIndex: nat, argument: bv32)

  class Gpfifo {
    /** The raw view of the register union, GpfifoRegisterSize words. */
    const raw: array<bv32>

    ghost predicate Valid()
      reads this
    {
      raw.Length == RegisterSize
    }

    /** The register file is value-initialised: every word starts at zero. */
    constructor ()
      ensures Valid() && fresh(raw)
      ensures raw[..] == ZeroFile()
    {
      raw := new bv32[RegisterSize](_ => 0);
    }

    /** The current value of the named member s: the named bits of the
        raw words it overlays. */
    ghost function Member(s: Slot): (v: SlotValue)
      requires Valid()
      reads this, raw
      ensures HasKind(s, v)
      ensures EncodeSlot(v) == Masked(raw[SlotWord(s)..SlotWord(s) + SlotLength(s)], SlotMasks(s))
    {
      ReadSlot(raw[..], s)
    }

    /** Stores the argument at the addressed word. The index is not
        checked, so a caller must keep it below GpfifoRegisterSize. */
    method CallMethod(params: MethodParams)
      requires Valid() && params.methodIndex < RegisterSize
      modifies raw
      ensures Valid()
      ensures raw[..] == old(raw[..])[params.methodIndex := params.argument]
      ensures raw[params.methodIndex] == params.argument
      ensures forall i :: 0 <= i < raw.Length && i != params.methodIndex ==> raw[i] == old(raw[i])
      ensures forall s: Slot :: Member(s) == WriteSlot(old(Member(s)), s, params.methodIndex, params.argument)
    {
      ghost var before := raw[..];
      raw[params.methodIndex] := params.argument;
      forall s: Slot
        ensures ReadSlot(raw[..], s) == WriteSlot(ReadSlot(before, s), s, params.methodIndex, params.argument)
      {
        WriteView(before, params.methodIndex, params.argument, s);
      }
    }
  }
}
