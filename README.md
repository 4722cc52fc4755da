# GPFIFO command register file

The Skyline emulator's GPFIFO engine (`gpfifo.h`) owns the register file of
one GPU command channel. The register file is a union:

- the raw view is an array of `GpfifoRegisterSize` (0x40) 32-bit words;
- the named view is the struct declared over the same storage, following
  NVIDIA's host class `clb06f.h` and `dev_pbdma.ref`.

The named members are `setObject`, `illegal`, `nop`, `semaphore` (four words),
`nonStallInterrupt`, `fbFlush`, `memOpC`, `memOpD`, `setReference`,
`syncpoint` (two words), `wfi`, `crcCheck` and `yield`. Several of them are
bit-fields typed with the header's enumerations.

The engine's one operation, `CallMethod`, stores the call's argument into the
raw word addressed by the call's method index. It does nothing else.

The model has five modules.

- `GpfifoLayout` (`layout.dfy`) lays out the struct.
  - The struct is a sequence of members, named slots and padding runs.
  - Each member's word index is the sum of the sizes before it.
  - From this come each slot's fixed index, the disjointness of the slots
    and the size of the union.
- `GpfifoFields` (`fields.dfy`) holds the enumerations and the bit-field views.
  - Each enumerator carries the code the header gives it.
  - Each packed bit-field is an explicit shift and mask on a `bv32` word.
  - Each view has an encoder that writes the fields back with zero padding,
    and round-trip lemmas in both directions. This covers the object bind,
    both semaphore address halves, semaphore control, syncpoint control,
    WFI and yield.
  - A field wider than its enumeration keeps its raw bits and is named only
    through an `Option`, so decoding is total: the 5-bit one-hot semaphore
    operation and the 4-bit semaphore reduction.
- `GpfifoRegisters` (`registers.dfy`) is the named view read from a raw
  `seq<bv32>`.
  - Each member is decoded from its own words whenever it is read; only the
    raw words are state.
  - It states exactly what a store to one raw word does to every member.
- `GpfifoEngine` (`engine.dfy`) is the engine.
  - The class `Gpfifo` holds the raw register array.
  - The constructor value-initialises that array.
  - `CallMethod` is the raw store. Its contract gives the whole new array
    and the effect on every named member.
- `GpfifoFindings` (`findings.dfy`) covers how the enumeration-typed
  bit-fields read back as declared (see Findings).

`MethodParams` is a pair `(methodIndex, argument)`. `method` is a Dafny
keyword, so the source's `method` field is called `methodIndex`.

All register positions are word indices into the raw array.

## Model

| member | source | states |
|---|---|---|
| GpfifoLayout.OffsetsIncrease | app/src/main/cpp/skyline/gpu/engines/gpfifo.h:93-164 | members declared one after another in a struct never overlap: a member ends at or before the offset of every later member |
| GpfifoLayout.StructOffsets | app/src/main/cpp/skyline/gpu/engines/gpfifo.h:93-164 | the word offset of each of the 17 struct members (slots and padding), and the struct totals 33 words |
| GpfifoLayout.StructPlacesSlot | app/src/main/cpp/skyline/gpu/engines/gpfifo.h:93-163 | each named slot is a struct member of its size, whose declaration-order offset is its fixed word: setObject 0, illegal 1, nop 2, semaphore 4, nonStallInterrupt 8, fbFlush 9, memOpC 12, memOpD 13, setReference 20, syncpoint 28, wfi 30, crcCheck 31, yield 32 |
| GpfifoLayout.StructFits | app/src/main/cpp/skyline/gpu/engines/gpfifo.h:93-165 | the named struct is 33 words, below the 0x40 words of the raw array, and every slot ends by word 33 |
| GpfifoLayout.SlotsDisjoint | app/src/main/cpp/skyline/gpu/engines/gpfifo.h:93-163 | two distinct slots occupy disjoint word ranges |
| GpfifoLayout.SlotOf | app/src/main/cpp/skyline/gpu/engines/gpfifo.h:93-163 | the slot that owns a word, if any; `None` exactly for the padding words (3, 10-11, 14-19, 21-27, 33 and above) |
| GpfifoLayout.UnionIsRegisterFile | app/src/main/cpp/skyline/gpu/engines/gpfifo.h:165-167 | the union is as large as its larger member, the raw array: 0x40 words of 4 bytes, 256 bytes, which is the size the static_assert demands |
| GpfifoFields.SemaphoreOperationOf | app/src/main/cpp/skyline/gpu/engines/gpfifo.h:27-33 | a 5-bit operation field names the operation whose code it is, and names none exactly when no operation has that code |
| GpfifoFields.SemaphoreOperationOneHot | app/src/main/cpp/skyline/gpu/engines/gpfifo.h:27-33 | each operation code has exactly one bit set, and decodes back to its operation |
| GpfifoFields.SemaphoreAcquireSwitchOf | app/src/main/cpp/skyline/gpu/engines/gpfifo.h:35-38 | every 1-bit value is a named acquire switch with that code |
| GpfifoFields.SemaphoreReleaseWfiOf | app/src/main/cpp/skyline/gpu/engines/gpfifo.h:40-43 | every 1-bit value is a named release-WFI setting with that code (En is 0) |
| GpfifoFields.SemaphoreReleaseSizeOf | app/src/main/cpp/skyline/gpu/engines/gpfifo.h:45-48 | every 1-bit value is a named release size with that code |
| GpfifoFields.SemaphoreReductionOf | app/src/main/cpp/skyline/gpu/engines/gpfifo.h:50-59 | a 4-bit reduction field is named exactly when it is below 8, by the reduction with that code |
| GpfifoFields.SemaphoreFormatOf | app/src/main/cpp/skyline/gpu/engines/gpfifo.h:61-64 | every 1-bit value is a named format with that code |
| GpfifoFields.SyncpointOperationOf | app/src/main/cpp/skyline/gpu/engines/gpfifo.h:71-74 | every 1-bit value is a named syncpoint operation with that code |
| GpfifoFields.SyncpointWaitSwitchOf | app/src/main/cpp/skyline/gpu/engines/gpfifo.h:76-79 | every 1-bit value is a named wait switch with that code |
| GpfifoFields.WfiScopeOf | app/src/main/cpp/skyline/gpu/engines/gpfifo.h:81-84 | every 1-bit value is a named WFI scope with that code |
| GpfifoFields.YieldOpOf | app/src/main/cpp/skyline/gpu/engines/gpfifo.h:86-91 | every 2-bit value is a named yield op with that code |
| GpfifoFields.EnumCodesRoundTrip | app/src/main/cpp/skyline/gpu/engines/gpfifo.h:27-91 | decoding any enumerator's code gives back that enumerator, for every enumeration that a field of the register file is declared with (all ten except `MemOpTlbInvalidatePdb`, which no field uses) |
| GpfifoFields.DecodeSetObject | app/src/main/cpp/skyline/gpu/engines/gpfifo.h:94-98 | nvClass is bits 0-15 and engine bits 16-20 of word 0 (so engine < 32); encoding the fields gives back exactly those bits of the word |
| GpfifoFields.SetObjectRoundTrip | app/src/main/cpp/skyline/gpu/engines/gpfifo.h:94-98 | encoding an object bind and decoding it gives the same nvClass and engine |
| GpfifoFields.OffsetUpperOf | app/src/main/cpp/skyline/gpu/engines/gpfifo.h:105-108 | offsetUpper is bits 0-7 of word 4, so below 256; encoding it gives back exactly those bits of the word |
| GpfifoFields.OffsetUpperSplit | app/src/main/cpp/skyline/gpu/engines/gpfifo.h:105-108 | word 4 is the encoded offsetUpper combined with its 24 padding bits |
| GpfifoFields.OffsetUpperRoundTrip | app/src/main/cpp/skyline/gpu/engines/gpfifo.h:105-108 | an 8-bit offsetUpper encoded and read back is unchanged |
| GpfifoFields.OffsetLowerOf | app/src/main/cpp/skyline/gpu/engines/gpfifo.h:110-113 | offsetLower is bits 2-31 of word 5, so below 2^30, and putting it back at bit 2 gives exactly those bits of the word |
| GpfifoFields.OffsetLowerRoundTrip | app/src/main/cpp/skyline/gpu/engines/gpfifo.h:110-113 | an offsetLower placed at bit 2 and read back is unchanged |
| GpfifoFields.DecodeSemaphoreControl | app/src/main/cpp/skyline/gpu/engines/gpfifo.h:117-128 | semaphore control: operation bits 0-4, acquireSwitch bit 12, releaseWfi bit 20, releaseSize bit 24, reduction bits 27-30, format bit 31; encoding the fields with zero padding gives back exactly those bits of the word |
| GpfifoFields.SemaphoreControlRoundTrip | app/src/main/cpp/skyline/gpu/engines/gpfifo.h:117-128 | encoding a semaphore control and decoding it again returns the same fields |
| GpfifoFields.DecodeSyncpointControl | app/src/main/cpp/skyline/gpu/engines/gpfifo.h:143-150 | syncpoint control: operation bit 0, waitSwitch bit 4, index bits 8-19 (below 4096); encoding gives back exactly those bits |
| GpfifoFields.SyncpointControlRoundTrip | app/src/main/cpp/skyline/gpu/engines/gpfifo.h:143-150 | encoding a syncpoint control and decoding it again returns the same fields |
| GpfifoFields.DecodeWfi | app/src/main/cpp/skyline/gpu/engines/gpfifo.h:153-156 | wfi.scope is bit 0 of word 30; encoding gives back exactly that bit |
| GpfifoFields.DecodeYield | app/src/main/cpp/skyline/gpu/engines/gpfifo.h:160-163 | yield.op is bits 0-1 of word 32, each of the four values a named op; encoding gives back exactly those bits |
| GpfifoFields.WfiYieldRoundTrip | app/src/main/cpp/skyline/gpu/engines/gpfifo.h:153-163 | a WFI scope and a yield op encoded and decoded again are unchanged |
| GpfifoRegisters.DecodeSlot | app/src/main/cpp/skyline/gpu/engines/gpfifo.h:93-163 | a member read from its slot's words has the member's type |
| GpfifoRegisters.SlotRoundTrip | app/src/main/cpp/skyline/gpu/engines/gpfifo.h:93-163 | any value of a member, written into its slot's words and read back through the member, is unchanged, and it fills exactly the slot's words |
| GpfifoRegisters.SlotReencode | app/src/main/cpp/skyline/gpu/engines/gpfifo.h:93-163 | reading a member and writing it back keeps exactly the bits its fields name in each of its words and clears the padding bits |
| GpfifoRegisters.SemaphoreReencode | app/src/main/cpp/skyline/gpu/engines/gpfifo.h:104-129 | the case of SlotReencode for the four semaphore words |
| GpfifoRegisters.SyncpointReencode | app/src/main/cpp/skyline/gpu/engines/gpfifo.h:140-151 | the case of SlotReencode for the two syncpoint words |
| GpfifoRegisters.SetObjectReencode | app/src/main/cpp/skyline/gpu/engines/gpfifo.h:94-98 | the case of SlotReencode for word 0 |
| GpfifoRegisters.WfiReencode | app/src/main/cpp/skyline/gpu/engines/gpfifo.h:153-156 | the case of SlotReencode for word 30 |
| GpfifoRegisters.YieldReencode | app/src/main/cpp/skyline/gpu/engines/gpfifo.h:160-163 | the case of SlotReencode for word 32 |
| GpfifoRegisters.ScalarReencode | app/src/main/cpp/skyline/gpu/engines/gpfifo.h:100-158 | the plain `u32` members (illegal, nop, nonStallInterrupt, fbFlush, memOpC, memOpD, setReference, crcCheck) keep all 32 bits |
| GpfifoRegisters.ReadSlot | app/src/main/cpp/skyline/gpu/engines/gpfifo.h:93-166 | a named member read through the union has the member's type, and its value stands for exactly the bits its fields name in the raw words `SlotWord(s)` up to `SlotWord(s) + SlotLength(s)` that it overlays. `WriteView` and `SlotRoundTrip` state what the value means |
| GpfifoRegisters.ReadSlotLocal | app/src/main/cpp/skyline/gpu/engines/gpfifo.h:93-166 | two register files that agree on the words a member overlays give that member the same value |
| GpfifoRegisters.DecodeSlotUpdate | app/src/main/cpp/skyline/gpu/engines/gpfifo.h:93-163 | replacing one word of a slot changes, of the member's fields, only the ones that word holds, to the value decoded from the new word |
| GpfifoRegisters.WriteView | app/src/main/cpp/skyline/gpu/engines/gpfifo.h:175 | after a store to raw word m, a member reads as before if m is outside its slot, and otherwise differs only in the field that word m holds |
| GpfifoRegisters.WriteOtherSlot | app/src/main/cpp/skyline/gpu/engines/gpfifo.h:175 | a store into one member's words leaves every other member as it was |
| GpfifoRegisters.SemaphorePayloadWrite | app/src/main/cpp/skyline/gpu/engines/gpfifo.h:175 | storing to the semaphore payload (word 6) sets that payload; the semaphore's address halves and control, the syncpoint control and every other member are unchanged |
| GpfifoRegisters.WritePadding | app/src/main/cpp/skyline/gpu/engines/gpfifo.h:175 | a store to a padding word changes no named member |
| GpfifoRegisters.ZeroFile | app/src/main/cpp/skyline/gpu/engines/gpfifo.h:165-166 | the value-initialised register file has 0x40 words, every one zero |
| GpfifoRegisters.ResetEncodesZero | app/src/main/cpp/skyline/gpu/engines/gpfifo.h:166 | in the value-initialised file every member holds all-zero fields |
| GpfifoRegisters.ResetView | app/src/main/cpp/skyline/gpu/engines/gpfifo.h:166 | initially: semaphore control is operation 0 (no named operation), Disabled, En, SixteenBytes, reduction Min, Signed; syncpoint control is Wait, Dis, index 0; wfi scope CurrentScgType; yield op Nop |
| GpfifoEngine.Gpfifo.constructor | app/src/main/cpp/skyline/gpu/engines/gpfifo.h:165-170 | a new engine's register file is a fresh array of 0x40 words, all zero |
| GpfifoEngine.Gpfifo.Member | app/src/main/cpp/skyline/gpu/engines/gpfifo.h:93-166 | the engine's current value of a named member: a value of the member's type standing for exactly the named bits of the raw words it overlays |
| GpfifoEngine.Gpfifo.CallMethod | app/src/main/cpp/skyline/gpu/engines/gpfifo.h:172-176 | for an index below 0x40: the array afterwards is the old one with the argument at that index; reading that word gives the argument; every other word is unchanged; every named member changes exactly as WriteView says; nothing else is modified |
| GpfifoFindings.SignedFieldRead | app/src/main/cpp/skyline/gpu/engines/gpfifo.h:118-161 | a field of a signed type reads back its bits in two's complement: unchanged when the top bit is clear, else the bits minus 2^width |
| GpfifoFindings.OperationFieldAsWritten | app/src/main/cpp/skyline/gpu/engines/gpfifo.h:118 | the signed 5-bit operation field reads back every operation's code except Reduction's, which reads as -16 |
| GpfifoFindings.OneBitFieldAsWritten | app/src/main/cpp/skyline/gpu/engines/gpfifo.h:120-154 | a signed 1-bit field reads back its value exactly when it is 0, and reads 1 as -1 |
| GpfifoFindings.OneBitEnumeratorsLost | app/src/main/cpp/skyline/gpu/engines/gpfifo.h:120-154 | Enabled, SemaphoreReleaseWfi.Dis, FourBytes, Unsigned, Incr, SyncpointWaitSwitch.En and WfiScope.All each read back as -1 |
| GpfifoFindings.YieldFieldAsWritten | app/src/main/cpp/skyline/gpu/engines/gpfifo.h:161 | the signed 2-bit yield field reads back its code exactly for Nop and PbdmaTimeslice; RunlistTimeslice reads -2 and Tsg -1 |
| GpfifoFindings.ReductionWordAsWritten | app/src/main/cpp/skyline/gpu/engines/gpfifo.h:118 | a semaphore control word whose operation field names Reduction reads the signed field, bits 0-4 of the word, as -16 |
| GpfifoFindings.AcquireSwitchWordAsWritten | app/src/main/cpp/skyline/gpu/engines/gpfifo.h:120 | a semaphore control word whose acquireSwitch is Enabled reads the signed 1-bit field, bit 12 of the word, as -1 |
| GpfifoFindings.YieldWordAsWritten | app/src/main/cpp/skyline/gpu/engines/gpfifo.h:161 | a yield word reads its signed op field, bits 0-1, as the op's code exactly when the op is Nop or PbdmaTimeslice; Tsg reads -1 |
| GpfifoFindings.ReductionFieldAsWritten | app/src/main/cpp/skyline/gpu/engines/gpfifo.h:126 | every reduction code (0-7) reads back unchanged from the signed 4-bit field |

## Left out

- The debug log line in `CallMethod` (gpfifo.h:173). It is logging only and changes no state.
- The `Engine` base class, `DeviceState` and the `MethodParams` type. `engine.h` is not part of this model.
  - `MethodParams` is a pair of a natural-number index and a 32-bit argument.
  - The width of its `method` field is not modelled.
- Actions on the registers. `CallMethod` performs none, so the model has none. This covers:
  - semaphore acquire, release and reduction;
  - syncpoint wait and increment;
  - TLB invalidation, wait-for-idle, interrupts, flushes and yields;
  - the 40-bit semaphore address formed from offsetUpper and offsetLower.
- The out-of-range method index.
  - The code does not check the index, so a store at 0x40 or above is undefined behaviour.
  - `CallMethod` therefore requires the index to be below 0x40.
  - The model has no abort path for such an index.
- The C++ layout mechanics: union aliasing, `__attribute__((__packed__))` and compiler bit-field allocation.
  - The model keeps the raw words as the only state.
  - It states each member as an explicit shift and mask at the positions the header's declarations give.
- `MemOpTlbInvalidatePdb` (gpfifo.h:66-69). It is declared, but no field has this type, so it has no bit position.
- The signed read-back of enumeration-typed bit-fields is modelled only in `GpfifoFindings`. Everywhere else the model reads fields unsigned (see Findings).
- GpfifoRegisters.DecodeSlot: its own contract states only the member's type. What the decoded value means is stated by `SlotRoundTrip`, `SlotReencode` and the field decoders of `GpfifoFields`.

## Findings

| source | as written | input that shows it | evidently intended | confidence | as-written member | corrected member |
|---|---|---|---|---|---|---|
| app/src/main/cpp/skyline/gpu/engines/gpfifo.h:118 | `SemaphoreOperation operation : 5`. The scoped enumeration has the default underlying type `int`, so the field is a signed 5-bit bit-field | storing `Reduction` (16) and reading the field back gives -16, which is not an enumerator | the field reads back 16, `Reduction`, as with an unsigned underlying type (`enum class SemaphoreOperation : u8`) | not executed; latent, because nothing in this file reads the field | GpfifoFindings.OperationFieldAsWritten | GpfifoFields.SemaphoreControlRoundTrip |
| app/src/main/cpp/skyline/gpu/engines/gpfifo.h:120-154 | the 1-bit enumeration fields acquireSwitch, releaseWfi, releaseSize, format, syncpoint operation, waitSwitch and wfi scope are signed 1-bit bit-fields | storing `Enabled` (1) in `acquireSwitch` and reading it back gives -1 | each field reads back the enumerator stored in it | not executed; latent, because nothing in this file reads the fields | GpfifoFindings.OneBitEnumeratorsLost | GpfifoFields.EnumCodesRoundTrip |
| app/src/main/cpp/skyline/gpu/engines/gpfifo.h:161 | `YieldOp op : 2` is a signed 2-bit bit-field | storing `Tsg` (3) reads back -1, and `RunlistTimeslice` (2) reads back -2 | the field reads back the stored op | not executed; latent, because nothing in this file reads the field | GpfifoFindings.YieldFieldAsWritten | GpfifoFields.WfiYieldRoundTrip |
