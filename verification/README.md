# Verified models of AjarDSP

AjarDSP is a 16-bit VLIW signal processor: an assembler in C, a core and a system-on-chip in Verilog, and a
compiler port. This project models the parts of it whose correctness is not visible from any one block, and proves
what they are for. Hardware is modelled one step per rising clock edge; assembler code is modelled as loops over
lists, tables and memories.

`dafny verify dfyconfig.toml` checks everything.

## How it fits together

* **Program front end.** `Encoding`, `InsnTable`, `RowEncoder`, `AsmPasses` and `Assembler` model the two-pass
  assembler, `Vliwdec` the bundle decoder, `Vliwfetch` the aligner queue, `Pcu` the control unit, and `Core` wires the
  last three together. The proofs go in both directions along that path: `AsmImage` shows that the decoder reads back
  what the assembler wrote; `Vliwfetch` that the queue behaves as a program counter reading the image; `CoreRefinement`
  that the pipelined core executes what the plain machine of `Isa` executes, over every run that keeps the programming
  rules (`Isa.Legal`); `CoreFlow` states delay slots, call and return, hardware loops and interrupts for the core
  itself; `CoreProgress` that it never stalls; `Toolchain` puts assembler and core together; `JumpTargets` and
  `LinkedPrograms` follow a label from the operand of a branch to the target the control unit sees, and
  `ProgramRules` replaces the conditions on runs by rules on programs. `PredicateBits` follows a predicate, and
  `SourceControl` every control instruction, from the source text to what the core does. `RegisterBranches` is about the
  branches that do not jump, `TwoPacketLoops` about the loops that do not count.
* **Unique encoding and disassembly.** `UniqueEncoding`, `PassAgreement`, `PassFaults`, `Alignment`, `Disasm`,
  `InsnWords`, `SharedPatterns`, `SymbolFields` for the fields that hold addresses and `OperandFields` for those that
  hold registers and integers. `DataImage` says what the data memory holds, `Acceptance` which programs assemble at all.
  `WordBits` turns addresses into words and back.
* **Peripherals.** `AsyncFifo` with `FifoCorrect` and `GrayCode`; `Uart` with `UartLink` and `UartLive`; `WbBurst`
  with `BurstCorrect` and `BurstOut`; `SdramCtrl` with `SdramStart`, `SdramCorrect` and `SdramServe`; `Crc32`.
* **Arithmetic and the stack.** `PtrAdder`, `Mac`, `Stack`.

A clocked block is a record of registers, a step function for one clock edge, and a class whose fields are those
registers and whose methods are the block's always-blocks; every such method is proved to make exactly the step. The
lemmas are about the step function.

## Where the code does not do what one would expect

* `.align` with a negative number is accepted, and the two passes can then disagree about every later label
  (`Alignment.NegativeAlignDisagrees`). They agree exactly when the padding count does not run backwards
  (`Alignment.PassesAlignAlike`, `PassAgreement.ItemAgrees`); the same holds of a negative `.skip`
  (`PassAgreement.DatumAgrees`). `.align 0` passes the first pass and dereferences a null pointer in the second
  (`PassFaults.AlignZeroFaults`); where no padding runs backwards nothing else does (`PassFaults.PassFaultsIff`).
* An instruction with too few operands, all of the right kind, dereferences a null pointer in the search
  (`UniqueEncoding.EncodeCrashesIff`).
* Loading a symbol's address into an accumulator half is encoded as a load into a pointer register: the two table
  rows have one pattern (`InsnWords.SymbolLoadAliases`). When this happens is known exactly
  (`SharedPatterns.SameEncodingIff`).
* A comparison under a negated predicate is another comparison under the plain one: bit 28 negates a predicate, and in
  the rows of the comparisons it also says what is compared (`PredicateBits.NegatedComparison`).
* `eint`, `dint` and `reti` change the interrupt enable whether their predicate holds or not, while a return goes back
  only if it does (`SourceControl.ControlObeyed`).
* The factors of `mpy16` and `mac16` have three bits: `acc4` to `acc7` assemble as `acc0` to `acc3`
  (`OperandFields.FactorsAlias`). `$pred`, the special register, passes for the predicate `$pred0`
  (`OperandFields.MistakenIsFirst`). A negative integer of any size is taken, modulo the span of its field
  (`OperandFields.IntegersTaken`).
* A burst out of the data memory reads one word ahead, because the block memory answers a cycle late. After two bus
  acknowledgements in a row the next word is the one before it once more; without that, and always with the memory for
  simulation, which answers at once, the burst is right (`BurstOut.OutboundBurstExact`).
* After a single read or write the bus is still addressed in the cycle after its acknowledgement, and a read returns
  what is on the bus in that cycle (`BurstOut.ReadServed`).
* `mac16` adds the 32-bit product to the 40-bit accumulator without sign extension, so that in 40 bits a step is exact
  if and only if the product is not negative (`Mac.StepExactness`), and a whole sum if and only if the number of
  negative products is a multiple of 256 (`Mac.SumExactness`). With saturation a sum can therefore only stop at the
  top (`Mac.SaturatedSum`).
* A branch or a call through a pointer register assembles and reaches the control unit, but its cases there are
  commented out (rtl/verilog/pcu.v:362-378): it never jumps, and the call links all the same. An executed branch or call
  redirects the core exactly when its operand is a symbol (`RegisterBranches.RedirectsIffSymbol`). `Isa.Legal` and
  `ProgramRules.Ruled` exclude both.
* `bkrep` does not look at its predicate: with a predicate that fails it still sets begin and end, even in the cycle in
  which an interrupt is acknowledged (`CoreRefinement.SkippedBkrepSetsLoop`).
* A loop of two packets has its end label on its first packet, where the loop registers are only being set. On fresh
  registers its body executes once, whatever the counter says, and the counter stays; entered again with the counter
  running, the registers left over send the core back from the first packet and the count is off the other way
  (`TwoPacketLoops.TwoPacketLoopTurns`). From three packets on the count is right (`CoreFlow.CoreLoopCount`).
* A return address that is written in the very cycle in which `rets` takes effect comes too late for it
  (`IsaFlow.ReturnsToOld`). A `pop16` of `retpc` in the packet before `rets` is such a write
  (sw/tests/prog7.asm:105-106); it does no harm in a function that has called no other.
* A jump requested while the fetcher is not running is lost (`Vliwfetch.JumpAcceptedIff`). `Isa.Legal` lists these and
  the other rules as the conditions under which the core is a plain machine.
* The control unit takes the first instruction of a packet that is for it, and `nop` is for it: a jump after a `nop` in
  one bundle is not seen (`LinkedPrograms.NopHidesJump`), which is why `LinkedPrograms.BranchMeaning` speaks of the
  first.
* The decoder does not look at the parallel bit of a 16-bit instruction in the fourth word, which is what makes
  padding longer than four nops decode in groups (`Vliwdec.IsPacket`, `AsmImage.PaddingWords`).

## Model

| member | source | states |
|---|---|---|
| Vliwdec.Decode1 | rtl/verilog/vliwdec.v:181-203 | a quad that starts with an instruction without the parallel bit decodes to that one instruction and its size |
| Vliwdec.Decode2 | rtl/verilog/vliwdec.v:87-203 | two instructions, of any sizes, are found at their places whatever follows |
| Vliwdec.Decode3 | rtl/verilog/vliwdec.v:87-203 | three instructions that fit four words are found at their places |
| Vliwdec.Decode4 | rtl/verilog/vliwdec.v:130-160 | four 16-bit instructions are found, the fourth whatever its parallel bit |
| Vliwdec.DecodeInvertsBundling | rtl/verilog/vliwdec.v:87-204 | decoding inverts bundling: for every packet, whatever follows it in memory, the decoder returns its instructions, all bits and in order, and its length |
| Vliwfetch.Fetcher.Clock | rtl/verilog/vliwfetch.v:194-273 | one clock edge of the fetcher and of the registered instruction memory makes exactly the step |
| Vliwfetch.MuxShowsWords | rtl/verilog/vliwfetch.v:164-191 | while the queue invariant holds the multiplexer shows the four words at the program counter |
| Vliwfetch.StepRefines | rtl/verilog/vliwfetch.v:136-273 | one cycle of queue, priming and jumping issues what the plain program counter issues, and keeps the relation |
| Vliwfetch.FetcherRefinesPlain | rtl/verilog/vliwfetch.v:136-273 | over every run from reset, with any stalls and jump requests, the issued packets are those of a program counter that reads the image: one more packet after an accepted jump, then the target, with one bubble only if it is unaligned |
| Vliwfetch.DecoderInputExact | rtl/verilog/vliwfetch.v:127-191 | after any run from reset, whenever the fetcher is running or jumping its decoder input is exactly the four words at `pc` |
| Vliwfetch.JumpAcceptedIff | rtl/verilog/vliwfetch.v:227-258 | a jump request is accepted if and only if the fetcher is running, and otherwise makes no difference |
| Pcu.Unit.UpdateSlots | rtl/verilog/pcu.v:131-186 | the delay-slot, suppression and interrupt-shadow registers after a clock edge |
| Pcu.Unit.UpdateIrqEnable | rtl/verilog/pcu.v:188-215 | the interrupt enable after a clock edge |
| Pcu.Unit.UpdateLoop | rtl/verilog/pcu.v:217-242 | the hardware loop registers after a clock edge |
| Pcu.Unit.UpdateReturnAddresses | rtl/verilog/pcu.v:276-316 | the two return address registers after a clock edge |
| Pcu.Unit.Clock | rtl/verilog/pcu.v:128-316 | the whole control unit makes exactly the step |
| CoreRefinement.ControlAt | rtl/verilog/pcu.v:319-403 | what the control outputs mean for the plain machine while the fetcher runs: loop end, then branch with its slots, then interrupt |
| CoreRefinement.ControlLeaving | rtl/verilog/pcu.v:128-129 | in the shadow of a jump no control output disturbs the machine, and packets are suppressed exactly when fewer slots were asked for |
| CoreRefinement.StepKeeps | rtl/verilog/pcu.v:128-403 | one cycle of the control unit beside the fetcher keeps the relation to the plain machine, in every phase |
| CoreRefinement.CoreStep | rtl/verilog/ajardsp_top.v:352-355 | one enabled cycle of fetcher, decoder, dispatch and control unit is one step of the plain machine |
| CoreRefinement.CoreRefinesIsa | rtl/verilog/pcu.v:128-403 | over every legal run from reset the core executes exactly the packets the plain machine executes, in order, and every interrupt is taken between packets |
| CoreRefinement.AcknowledgeOnlyRunning | rtl/verilog/pcu.v:397-402 | an interrupt is acknowledged only while the fetcher runs; `retipc` gets the first suppressed packet; no turn of a loop is counted, and begin and end stay unless a `bkrep` whose predicate fails is being acted on |
| CoreRefinement.SuppressedNeverCounts | rtl/verilog/pcu.v:227-242 | in any state of a legal run, without a write from the program, the loop counter changes only by an executed packet at the loop's end, which takes one off; otherwise the loop registers change only by a `bkrep` |
| CoreRefinement.CountsOnlyExecuted | rtl/verilog/pcu.v:233-236 | over every legal run suppressed packets never decrement the loop counter |
| CoreRefinement.BkrepIgnoresPredicate | rtl/verilog/pcu.v:227-232 | a `bkrep` in the pipe sets begin and end whatever its predicate says |
| CoreRefinement.SkippedBkrepSetsLoop | rtl/verilog/pcu.v:227-232 | a concrete cycle: an interrupt is acknowledged over a `bkrep` whose predicate fails, which sets the loop registers all the same |
| CoreRefinement.CoreMoves | rtl/verilog/ajardsp_top.v:352-355 | one enabled cycle of the core, inside the programming rules or not, is one of the plain fetcher and one of the control unit on its packet |
| TwoPacketLoops.TwoPacketLoopRunsOnceIff | rtl/verilog/pcu.v:217-242 | after any run at all, under any stalls, the core executes a two-packet body and then goes on behind it if and only if the loop registers did not say already that a running loop ends there |
| TwoPacketLoops.TwoPacketLoopTurns | rtl/verilog/pcu.v:217-242 | how often the body executes in all: once on fresh registers, whatever the counter says; on registers left over from the same loop with the counter at n, n + 2 times at an aligned address and n / 2 + 2 times at another, where the bubble counts as well |
| CoreProgress.CoreProgresses | rtl/verilog/pcu.v:128-129 | in every legal run, any seven enabled cycles in a row execute a packet |
| CoreProgress.InterruptTaken | rtl/verilog/pcu.v:397-402 | with interrupts enabled a held request is acknowledged, and the fetcher sent to address 4, in the first of three cycles without a loop end or an acting control instruction that is outside the shadow of a jump |
| IsaFlow.DelaySlots | rtl/verilog/pcu.v:337-396 | after a taken branch with k slots the plain machine executes exactly the next k packets before the target, whatever the program writes meanwhile |
| IsaFlow.RetpcRun | rtl/verilog/pcu.v:276-297 | the return address at every point of a branch: a call links as it redirects the machine, and the program's own writes come on top |
| IsaFlow.RetpcUnwritten | rtl/verilog/pcu.v:276-297 | without such writes a call links to the first packet it leaves out and other branches leave the address alone |
| IsaFlow.ReturnsToOld | rtl/verilog/pcu.v:379-383 | a return goes to the address the register held before the cycle in which it takes effect, whatever the program writes in that cycle |
| IsaFlow.CallThenReturn | rtl/verilog/pcu.v:276-297 | call, any callee and return: the caller goes on at the return address as the callee left it, which the call set to the first packet it left out |
| IsaFlow.InterruptEntry | rtl/verilog/pcu.v:299-316 | what an interrupt entry saves and leaves, whatever the program writes in the same cycle and whatever is in the pipe |
| IsaFlow.InterruptThenReturn | rtl/verilog/pcu.v:299-316 | after an interrupt, any handler and its `reti`, the next packet is the one at the interrupt return address as the handler left it |
| IsaFlow.PlainHandler | rtl/verilog/pcu.v:299-316 | under a handler without nested interrupts and writes to `retipc` that is the packet that was next, unless the program itself writes `retipc` in the cycle of the entry |
| IsaFlow.AllTurns | rtl/verilog/pcu.v:217-242 | count + 1 turns of a loop body, packet by packet, then out with the counter at zero |
| IsaFlow.LoopCount | rtl/verilog/pcu.v:217-242 | the same over machine runs with stalls |
| IsaFlow.WrittenLoop | rtl/verilog/pcu.v:217-242 | after the program writes n to the loop counter and comes to a `bkrep` the body executes n + 1 times |
| IsaFlow.InterruptedLoopCount | rtl/verilog/pcu.v:217-316 | a loop interrupted any number of times, between any packets, by handlers that give the loop registers back still executes its body count + 1 times in order, once the handlers' packets are taken out |
| CoreFlow.RestOfTrace | rtl/verilog/pcu.v:128-403 | after any prefix the core's packets are the plain machine's |
| CoreFlow.CoreDelaySlots | rtl/verilog/pcu.v:337-396 | the core executes exactly the next k packets after a taken branch, call or return with k = 0, 1 or 2 slots, under any stalls and any writes of the program; a call links to the first packet left out, and writes to the return address come on top |
| CoreFlow.CoreCallThenReturn | rtl/verilog/pcu.v:276-297 | after call and return the core goes on at the return address as the callee left it, which the call set to the first packet it left out: each caller packet executes exactly once if and only if the callee hands that back |
| CoreFlow.CoreLoopCount | rtl/verilog/pcu.v:332-336 | with the counter at n a branch-free body of at least three packets executes exactly n + 1 times in order, then falls through with the counter at 0 |
| CoreFlow.CoreWrittenLoop | rtl/verilog/pcu.v:217-242 | the core does the same, from the write to the counter on |
| CoreFlow.CoreInterruptThenReturn | rtl/verilog/pcu.v:397-402 | the core goes on at the return address as the handler left it: returning from an interrupt neither loses nor repeats a packet if and only if that is still the first suppressed packet |
| CoreFlow.CorePlainInterrupt | rtl/verilog/pcu.v:299-316 | with a handler that is not interrupted itself and writes no `retipc` the core goes on at the interrupted packet, or where the program's own write to `retipc` in the cycle of the entry says |
| CoreFlow.CoreInterruptedLoop | rtl/verilog/pcu.v:217-316 | the core executes an interrupted loop exactly n + 1 times between its handlers and leaves the counter 0 |
| RowEncoder.MatchOperands | sw/tools/asm/asm.c:301-322 | the operand match, including the null dereference on a list that is too short |
| RowEncoder.EncodeOperands | sw/tools/asm/asm.c:359-367 | the operand loop ORs every field into the pattern, or fails |
| RowEncoder.EncodeRow | sw/tools/asm/asm.c:342-401 | what one table row answers to an instruction, as the field and predicate theorems take it |
| Encoding.EmittedBits | sw/tools/asm/asm.c:353-393 | whatever row encodes an instruction, the size bit is its size and the parallel bit says whether another one follows |
| Encoding.MatchLength | sw/tools/asm/asm.c:301-322 | operands that match a row agree with it in number and kind |
| UniqueEncoding.RowEncodes | sw/tools/asm/asm.c:85-299 | a row encodes an instruction if and only if mnemonic, kinds and ranges fit, the predicate is a predicate and its symbols are defined |
| UniqueEncoding.InsnsUnambiguous | sw/tools/asm/ajardsp-insns.c:110-2091 | no instruction fits two rows of the table |
| UniqueEncoding.EncodesOnce | sw/tools/asm/asm.c:338-403 | the search does not stop at the first success, yet emits at most one encoding: one if and only if some row takes the instruction |
| UniqueEncoding.NullOperandIff | sw/tools/asm/asm.c:301-322 | matching a row dereferences a null operand if and only if the operands are fewer than the row's and each is of the row's kind |
| UniqueEncoding.EncodeCrashesIff | sw/tools/asm/asm.c:338-403 | the search crashes if and only if the operands run short in that way of some row of the mnemonic |
| UniqueEncoding.ShortListCrashes | sw/tools/asm/asm.c:301-322 | one such instruction, `add16` with one operand |
| UniqueEncoding.CrashesAlike | sw/tools/asm/asm.c:301-322 | whether the search runs off an operand list does not depend on the symbols |
| UniqueEncoding.PassesEncodeAlike | sw/tools/asm/asm.c:277-299 | what encodes with the symbols known encoded without them, by the same row and in as many words |
| InsnTable.RowsClash | sw/tools/asm/ajardsp-insns.c:110-2091 | rows with the same mnemonic have an operand that at most one of them takes |
| InsnTable.UniqueRow | sw/tools/asm/ajardsp-insns.c:110-2091 | two rows that fit one instruction are the same row |
| Alignment.SameLowBits | sw/tools/asm/asm.c:516-519 | both passes round an address to the same 16 bits |
| Alignment.PassesAlignAlike | sw/tools/asm/asm.c:579-595 | the passes agree on an alignment if and only if the padding count does not run backwards, whole turns aside |
| Alignment.PositiveAlign | sw/tools/asm/asm.c:579-595 | a positive alignment, a power of two or not, pads by fewer words than it asks for and never backwards |
| Alignment.AlignsToPower | sw/tools/asm/asm.c:579-595 | after a power of two the address is the first multiple of it |
| Alignment.NegativeAlignDisagrees | sw/tools/asm/asm.c:516-519 | a concrete negative alignment on which the passes part |
| Assembler.Memory.WriteCode | sw/tools/asm/asm.c:381-393 | one encoding goes to the next word or two, unless it would leave the array |
| Assembler.SearchTable | sw/tools/asm/asm.c:338-403 | the search loop writes every encoding it finds |
| Assembler.TryAssembleBundle | sw/tools/asm/asm.c:325-420 | a bundle assembles, fails or faults exactly as specified, with the memory specified |
| Assembler.Asm.Pass0 | sw/tools/asm/asm.c:503-533 | the first pass over the code |
| Assembler.Asm.DataPass0 | sw/tools/asm/asm.c:482-501 | the first pass over the data |
| Assembler.Asm.Pass1 | sw/tools/asm/asm.c:570-641 | the second pass over the code |
| Assembler.Asm.DataPass1 | sw/tools/asm/asm.c:540-567 | the second pass over the data, whose outcome `DataImage.DataImageHolds` reads off |
| Assembler.Asm.GenOpcodes | sw/tools/asm/asm.c:647-664 | both passes: result, both memories and the symbol table |
| Acceptance.BundleGoodIff | sw/tools/asm/asm.c:325-420 | a bundle assembles if and only if each instruction has one encoding, they take four words at most and the memory has room |
| Acceptance.SymtabIff | sw/tools/asm/asm.c:478-535 | the first pass goes through if and only if all labels of the program are distinct and every bundle assembles where the pass comes to it |
| Acceptance.SecondPassIff | sw/tools/asm/asm.c:570-641 | over code that passed the first pass and whose padding does not run backwards, the second fails exactly at an empty item or an undefined symbol |
| Acceptance.AcceptedIff | sw/tools/asm/asm.c:647-664 | the assembler, with its own table, then accepts exactly the programs in which every symbol of an instruction or a datum is a label and no item is empty |
| DataImage.DataImageHolds | sw/tools/asm/asm.c:540-567 | the data memory holds every entry of the data list where the second pass comes to it: the value modulo 2^16, the address of the symbol, or 0xDEAD throughout a gap |
| DataImage.LabelledEntry | sw/tools/asm/asm.c:482-567 | a data label means the address at which the entry after it is held |
| DataImage.RestIsUninitialised | sw/tools/asm/asm.c:536-567 | beyond the data everything is 0xDEAD |
| PassAgreement.BundleCodes | sw/tools/asm/asm.c:325-420 | a bundle that assembles is one list of encodings, one for each instruction, in at most four words, with the parallel bit on all but the last |
| PassAgreement.BundleAgrees | sw/tools/asm/asm.c:325-420 | a bundle that assembles in the second pass assembled in the first, in as many words |
| PassAgreement.ItemAgrees | sw/tools/asm/asm.c:503-641 | an item takes both passes to the same next address if and only if its padding does not run backwards |
| PassAgreement.DatumAgrees | sw/tools/asm/asm.c:482-567 | the same for a gap in the data |
| PassAgreement.DataAgrees | sw/tools/asm/asm.c:482-567 | over the whole data list the passes keep in step if and only if no gap runs backwards |
| PassAgreement.PassesAgree | sw/tools/asm/asm.c:503-641 | both passes are at one address before every item if and only if no padding runs backwards |
| PassAgreement.LabelsAgree | sw/tools/asm/symtab.c:40-70 | a label resolves to the address at which the second pass puts what follows it if and only if the passes are at one address there, as they are if nothing before it runs backwards |
| PassAgreement.SymbolsMeanAddresses | sw/tools/asm/symtab.c:40-70 | in a program that assembles and in which no alignment and no gap runs backwards every code and data label means that address |
| PassAgreement.SensibleIsForward | sw/tools/asm/asm.c:579-595 | which holds of all programs without negative alignments and gaps |
| PassFaults.ItemFaultsIff | sw/tools/asm/asm.c:570-641 | of the items that pass the first pass the second faults on the empty ones, which only `.align 0` makes, and on no others |
| PassFaults.PassFaultsIff | sw/tools/asm/asm.c:570-641 | the second pass over a program that passed the first faults if and only if it comes to an empty item, where no padding runs backwards |
| PassFaults.AssemblerFaultsIff | sw/tools/asm/asm.c:647-664 | the same of the whole assembler with its own table: after the first pass it faults if and only if the data assembles and the second pass comes to an empty item |
| PassFaults.AlignZeroFaults | sw/tools/asm/asm.c:570-641 | a program that is nothing but `.align 0` passes the first pass and faults in the second |
| AsmImage.PaddingWords | sw/tools/asm/asm.c:579-595 | padding of any length reads as groups of nops that the decoder takes |
| AsmImage.PassWrites | sw/tools/asm/asm.c:570-641 | the second pass writes its packets one after the other |
| AsmImage.ImageDecodes | sw/tools/asm/asm.c:325-664 | round trip: every packet of the image, bundle or padding, decodes to exactly its instructions and leads to the next one, the last one to the end |
| AsmImage.BundleInImage | sw/tools/asm/asm.c:325-420 | every bundle of the program is such a packet, at the address the assembler gave it |
| Toolchain.InsnsSound | sw/tools/asm/ajardsp-insns.c:110-2091 | the instruction table gives every instruction one encoding of one size in both passes |
| Toolchain.ImageSpells | rtl/verilog/vliwfetch.v:164-191 | the core fetches from an assembled image exactly the packets the assembler wrote |
| Toolchain.NthPacket | sw/tools/asm/asm.c:325-420 | following the program counter goes through the packets in the order they were written |
| Toolchain.CoreExecutesAssembledPackets | rtl/verilog/pcu.v:128-403 | over every legal run on an assembled image whose jumps go to packets, every packet the core executes is one the assembler wrote |
| JumpTargets.RowTargets | sw/tools/asm/ajardsp-insns.c:110-2091 | no row's operands touch the unit bits, and the rows of the 32-bit space that are for the control unit have just a symbol, in bits 23..8 |
| JumpTargets.TargetIsSymbol | rtl/verilog/pcu.v:343-353 | what the control unit reads as the target of any encoded jump, call or loop is the address of the symbol that is its one operand |
| JumpTargets.ControlMeaning | sw/tools/asm/ajardsp-insns.c:1811-2075 | a branch, call or loop to a symbol reaches the control unit with the type, the delay slots and the target its source says |
| LinkedPrograms.CodesInOrder | sw/tools/asm/asm.c:325-420 | the encodings of a bundle are the search's answers to its instructions, in order |
| LinkedPrograms.DispatchFinds | rtl/verilog/ajardsp_top.v:898-917 | a 32-bit instruction that reaches the control unit is one of the packet's, whole |
| LinkedPrograms.DispatchIs | rtl/verilog/ajardsp_top.v:898-917 | and it is the first one that is for that unit |
| LinkedPrograms.ShortHidesJump | rtl/verilog/ajardsp_top.v:898-917 | a 16-bit instruction for the control unit other than a return hides every jump and loop behind it in the packet |
| LinkedPrograms.NopHidesJump | rtl/verilog/ajardsp_top.v:898-917 | so does a nop, in any place of the packet |
| LinkedPrograms.LabelIsStart | sw/tools/asm/asm.c:503-641 | a code label's value is the address of the packet after it |
| LinkedPrograms.BranchMeaning | rtl/verilog/pcu.v:337-353 | at the address of a bundle whose first instruction for the control unit is a branch, call or loop to a label, the core sees that type, those delay slots, and the address of the packet after the label as target |
| PredicateBits.PredicateRead | sw/tools/asm/asm.c:366-380 | what the core reads as the predicate of every encoded instruction: the named register modulo 4 and the source's negation, the first register without negation if a 32-bit one has no predicate, and always executed in 16 bits |
| PredicateBits.NegRows | sw/tools/asm/ajardsp-insns.c:683-972 | the only rows with the negation bit in their pattern are the comparisons "greater" and "greater or equal" |
| PredicateBits.NegatedComparison | sw/tools/asm/asm.c:366-380 | a negated `cmp16eq` has the code of a plain `cmp16gt`, a negated `cmp16ne` that of a plain `cmp16ge`, for all operands and predicates |
| PredicateBits.Atoi4IsDecimal | sw/tools/asm/asm.c:370 | the digit loop leaves the decimal number modulo 4 |
| SourceControl.PlainRead | sw/tools/asm/ajardsp-insns.c:2008-2091 | returns, `eint`, `dint`, `halt` and `nop` reach the control unit with the type and delay slots of their mnemonic, predicated or not |
| SourceControl.EncodedControl | rtl/verilog/pcu.v:337-403 | every control instruction that is encoded is for the control unit and does there what its source says: target, delay slots, link and predicate of branches, calls and both returns, loop, interrupt enable and halt |
| SourceControl.ControlObeyed | rtl/verilog/pcu.v:188-403 | the same of the image: at a bundle's address the core obeys the bundle's first control instruction, with the packet after the label as its target |
| RegisterBranches.RegisterMeaning | sw/tools/asm/ajardsp-insns.c:1861-2008 | a branch or call through a pointer register, predicated or not, reaches the control unit as a jump or call of the 16-bit space |
| RegisterBranches.RegisterNeverJumps | rtl/verilog/pcu.v:359-396 | acting on one, the unit raises the jump line for nothing but a loop end or, its predicate failing, an interrupt |
| RegisterBranches.OnlyTheCallLinks | rtl/verilog/pcu.v:276-297 | the call sets the return address in the next cycle, the branch does not |
| RegisterBranches.EncodedJumpRedirects | rtl/verilog/pcu.v:337-396 | an encoded branch or call redirects the machine if and only if its operand is a symbol and its predicate bit is not what the source negates |
| RegisterBranches.RedirectsIffSymbol | rtl/verilog/pcu.v:337-396 | the same of the image: at a bundle whose first instruction for the control unit is a branch or call, the core is redirected if and only if the operand is a symbol and the predicate holds |
| LinkedPrograms.LinkedProgramsAim | sw/tools/asm/asm.c:277-299 | in a program whose branches name code labels every jump of the image goes to the start of a packet or to the end |
| ProgramRules.StepOrderly | rtl/verilog/pcu.v:128-403 | a cycle keeps the slots still to come calm and free of loop ends, if the packets executed keep the rules |
| ProgramRules.AlignedEndsMet | rtl/verilog/vliwfetch.v:227-240 | with aligned end labels a loop end is always met at an aligned address |
| ProgramRules.BubbleUnaligned | rtl/verilog/vliwfetch.v:227-240 | the fetcher loses a cycle at unaligned targets only, so that an aligned loop end is never met twice |
| ProgramRules.RulesMakeLegal | rtl/verilog/pcu.v:128-403 | rules that can be checked packet by packet (calm delay slots, no loop end in or right after a jump, two calm packets at the end of a loop body, no branch or call through a register) and the data path's part (`DataRun`) make every run of the core a legal one, under any stalls, predicates and interrupts |
| LinkedPrograms.RunRuled | rtl/verilog/pcu.v:128-403 | a run that stays within a ruled image keeps the rules and goes only to starts of packets |
| LinkedPrograms.CoreRunsSource | rtl/verilog/pcu.v:128-403 | from source to execution: if branches name code labels and packets keep the rules, every run of the core within the image is legal, so that `CoreRefinement.CoreRefinesIsa` applies, and executes nothing but packets the assembler wrote, decoded whole |
| SymbolFields.SymbolFieldHolds | sw/tools/asm/asm.c:277-299 | in the word of any encoded instruction every resolved symbol field holds the symbol's address modulo 2 to the field's width |
| OperandFields.RegisterFieldHolds | sw/tools/asm/asm.c:85-254 | every register of an encoded instruction stands in its field as the number the units read: accumulator halves low before high, accumulators above pointers where both may stand, special registers by the address of rtl/verilog/specregs.v |
| OperandFields.RegistersTaken | sw/tools/asm/asm.c:85-254 | which field takes which register, exactly, with the one mistake |
| OperandFields.MistakenIsFirst | sw/tools/asm/asm.c:189-207 | the special register `pred` encodes as the first predicate |
| OperandFields.IntegerFieldHolds | sw/tools/asm/asm.c:258-275 | an integer stands in its field modulo the span of the field |
| OperandFields.IntegersTaken | sw/tools/asm/asm.c:258-275 | integers are taken exactly if below that span, however negative |
| OperandFields.FactorsAlias | sw/tools/asm/ajardsp-insns.c:624-680 | `mpy16` and `mac16` get the same code for the halves of `acc4` to `acc7` as for those of `acc0` to `acc3` |
| WordBits.AddrRoundTrip | sw/tools/asm/asm.c:290-294 | an address put into 16 bits comes back |
| Disasm.CompareMask | sw/tools/asm/disasm.c:78-83 | the mask loop |
| Disasm.Disassemble | sw/tools/asm/disasm.c:53-100 | the first row that agrees with the word outside its operands |
| Disasm.OperandReadBack | sw/tools/asm/asm.c:85-299 | in a row whose operands are apart every operand can be read back from the word |
| Disasm.AssembledMatches | sw/tools/asm/disasm.c:85-95 | an instruction without a predicate matches its own row |
| InsnWords.RowTells | sw/tools/asm/ajardsp-insns.c:110-2091 | operands overlap neither each other nor the fixed bits in any row, and all rows that match a word have the same fixed bits |
| InsnWords.OperandsReadBack | sw/tools/asm/asm.c:85-299 | every operand of every row can be read back, predicated or not |
| InsnWords.DisassemblesAssembled | sw/tools/asm/disasm.c:53-100 | assemble, then disassemble: the row found first has the pattern that was assembled |
| SharedPatterns.SharingRows | sw/tools/asm/ajardsp-insns.c:110-2091 | which rows share a pattern: the signed and unsigned comparisons, the loads of an immediate or a symbol, and loads and stores with an offset that is a number or a symbol; no others |
| SharedPatterns.SameEncodingIff | sw/tools/asm/asm.c:338-403 | two instructions without predicates have one encoding if and only if their rows share a pattern and their operands fill its fields alike |
| SharedPatterns.DifferentPatternsDifferentWords | sw/tools/asm/asm.c:338-403 | rows of different patterns never share a word |
| InsnWords.SymbolLoadAliases | sw/tools/asm/ajardsp-insns.c:1196-1237 | two different loads of a symbol have one encoding |
| GrayCode.GrayInjective | rtl/verilog/soc/async_fifo.v:142-157 | different pointers have different codes |
| GrayCode.GrayChangesOneBit | rtl/verilog/soc/async_fifo.v:142-157 | a pointer that advances changes one bit |
| GrayCode.GrayWrapsOneBit | rtl/verilog/soc/async_fifo.v:142-157 | so does one that wraps around |
| GrayCode.GrayTop | rtl/verilog/soc/async_fifo.v:45-67 | the top bits of a code are the code of the top bits |
| AsyncFifo.Fifo.Clock | rtl/verilog/soc/async_fifo.v:32-126 | an edge of either clock, or of both, makes exactly the step |
| AsyncFifo.QuadrantOf | rtl/verilog/soc/async_fifo.v:45-67 | the quadrant comparison sees which quarter of the memory a pointer is in |
| FifoCorrect.DirKept | rtl/verilog/soc/async_fifo.v:45-78 | the direction flag stays right under reads, writes and both at once |
| FifoCorrect.FlagsExact | rtl/verilog/soc/async_fifo.v:38-42 | empty and full, as the hardware computes them, hold exactly when nothing and everything is stored |
| FifoCorrect.StepKeeps | rtl/verilog/soc/async_fifo.v:32-126 | an edge keeps the invariant, and a read presents the oldest word |
| FifoCorrect.FifoOrder | rtl/verilog/soc/async_fifo.v:32-126 | under every interleaving of polite clock edges the occupancy stays between 0 and 2^aw, empty implies `rempty`, full implies `wfull`, and the words read are the words written in order |
| FifoCorrect.EmptyFlagFalls | rtl/verilog/soc/async_fifo.v:80-91 | two read edges without emptiness lower `rempty` |
| FifoCorrect.FullFlagFalls | rtl/verilog/soc/async_fifo.v:93-109 | two write edges without fullness lower `wfull` |
| Uart.Transmitter.Clock | rtl/verilog/soc/uart.v:256-396 | a clock edge of the transmitter makes exactly the step |
| Uart.Receiver.Clock | rtl/verilog/soc/uart.v:75-222 | a clock edge of the receiver makes exactly the step |
| UartLink.SendKeeps | rtl/verilog/soc/uart.v:256-396 | the line shows start bit, data bits and stop bit of the byte accepted last |
| UartLink.HearsOn | rtl/verilog/soc/uart.v:75-222 | the receiver, three cycles behind, is always at the same place of the frame and samples every bit half a bit time in |
| UartLink.ResetLinks | rtl/verilog/soc/uart.v:81-99 | four cycles of reset bring any two ends together |
| UartLink.BytesArrive | rtl/verilog/soc/uart.v:75-396 | for every request pattern and all bit times with HALF + 2 <= FULL the bytes acknowledged are the bytes accepted, each once and in order |
| UartLink.AllBytesArrive | rtl/verilog/soc/uart.v:75-396 | none is held back once the line has been idle for half a bit |
| UartLive.ReadyAgain | rtl/verilog/soc/uart.v:256-396 | from any point of a run, the transmitter is idle after a time that is computed there, ten bit times at most |
| UartLive.ByteAcknowledged | rtl/verilog/soc/uart.v:75-396 | a byte offered to an idle transmitter is acknowledged at the other end, in its place, within ten and a half bit times and five cycles, whatever is asked for meanwhile |
| WbBurst.Master.Clock | rtl/verilog/soc/wb_ajardsp.v:117-299 | the always-block, assignment by assignment, with the outside ports of both memories before it, makes the step that the burst theorems are about |
| BurstCorrect.CycleCopies | rtl/verilog/soc/wb_ajardsp.v:228-299 | a cycle of a burst keeps the memory equal to the plain copy but for the word in transit |
| BurstCorrect.BurstEnds | rtl/verilog/soc/wb_ajardsp.v:228-299 | with the last acknowledgement the memory is what the plain copying loop leaves, for all increment flags |
| BurstCorrect.BusIsAddressed | rtl/verilog/soc/wb_ajardsp.v:208-222 | back-off and start-up end: the bus is addressed again within three cycles |
| BurstCorrect.CopyLaysOut | rtl/verilog/dmem.v:182-189 | with both increments the copy lays the words out one after the other and leaves all else alone |
| BurstCorrect.InboundBurstExact | rtl/verilog/soc/wb_ajardsp.v:117-299 | an inbound burst is over after exactly max(1, len >> 2) acknowledgements, for any delays, with every pair of the memory as it should be |
| BurstCorrect.BootExact | rtl/verilog/soc/wb_ajardsp.v:126-146 | booting fills exactly the first 64 pairs of the instruction memory |
| BurstOut.WriteServed | rtl/verilog/soc/wb_ajardsp.v:158-164 | a single write addresses the bus with its address and data until the bus acknowledges, and is acknowledged once, in the next cycle |
| BurstOut.ReadServed | rtl/verilog/soc/wb_ajardsp.v:187-206 | a single read likewise, acknowledged once, two cycles after the bus, with the data of the cycle between |
| BurstOut.TransfersPlanned | rtl/verilog/soc/wb_ajardsp.v:224-295 | as far as a burst outwards has come, its transfers are the planned ones if the memory answers at once or no word follows two acknowledgements in a row, and only then where neighbouring words differ |
| BurstOut.OutboundBurstExact | rtl/verilog/soc/wb_ajardsp.v:165-295 | a burst outwards is over after exactly max(1, len >> 2) acknowledgements; the same condition decides whether the bus got the words of the memory in order, each at its address with its byte selection |
| BurstOut.TransparentBytes | rtl/verilog/soc/wb_ajardsp.v:253-257 | a transparent burst deselects exactly the zero bytes |
| SdramCtrl.Controller.Clock | rtl/verilog/soc/sdram_ctrl.v:398-431 | a clock edge makes exactly the step, and the command on the pins is the state's |
| SdramStart.StartUpFirst | rtl/verilog/soc/sdram_ctrl.v:481-569 | under any requests nothing but the six commands of the start-up is issued until it is over, in their order |
| SdramStart.PowerUpTime | rtl/verilog/soc/sdram_ctrl.v:481-488 | the clock is enabled when the power-up time is over, and no earlier |
| SdramStart.ServiceAfterSettling | rtl/verilog/soc/sdram_ctrl.v:555-569 | service begins more than tRFC and 200 cycles after the last refresh of the start-up |
| SdramServe.InitialisationEnds | rtl/verilog/soc/sdram_ctrl.v:481-569 | the start-up is over after a time computed from the parameters |
| SdramServe.CommandsAnswer | rtl/verilog/soc/sdram_ctrl.v:623-647 | a write is issued exactly in the cycle after one was captured, a read exactly if a read alone was, with the column and row of the address that stood there |
| SdramServe.WriteAcknowledged | rtl/verilog/soc/sdram_ctrl.v:434-451 | a captured write is acknowledged in the cycle of its command and the next, and no read with it |
| SdramServe.ReadAcknowledged | rtl/verilog/soc/sdram_ctrl.v:434-451 | a captured read is acknowledged in the fifth and sixth cycle after |
| SdramServe.AcksAnswer | rtl/verilog/soc/sdram_ctrl.v:434-451 | nothing else is acknowledged |
| SdramServe.RequestAnswered | rtl/verilog/soc/sdram_ctrl.v:571-699 | a request held steady is answered within a bound computed from the state, with exactly one transfer: the one it asks for, in its row and column |
| SdramServe.EveryRequestAnswered | rtl/verilog/soc/sdram_ctrl.v:571-699 | after any requests, a refresh and the rows of other addresses included, that is within tRFC + 32 cycles |
| SdramCorrect.StepSafe | rtl/verilog/soc/sdram_ctrl.v:453-697 | every command of a safe state is allowed, and the next state is safe |
| SdramCorrect.CommandsAllowed | rtl/verilog/soc/sdram_ctrl.v:453-697 | from reset, under arbitrary requests and address changes: ACTIVE only in a closed bank, READ and WRITE only in the open row of the captured request, refresh and mode load only after a precharge, tRP and tRFC kept |
| SdramCorrect.RefreshDeadline | rtl/verilog/soc/sdram_ctrl.v:571-639 | after a refresh the next one comes within tREFI + tRFC + 13 cycles, whatever the requests do |
| SdramCorrect.DeadlineAttained | rtl/verilog/soc/sdram_ctrl.v:571-639 | the bound is exact |
| Crc32.NibbleIsFourBits | rtl/verilog/soc/CRC32_D4.v:24-69 | the nibble function is four steps of the serial register, D[3] first |
| Crc32.DivisionIdentity | rtl/verilog/soc/CRC32_D4.v:11-12 | the reference division divides: dividend = quotient times generator plus remainder |
| Crc32.DivisionUnique | rtl/verilog/soc/CRC32_D4.v:11-12 | there is only one way to divide |
| Crc32.CrcIsRemainder | rtl/verilog/soc/CRC32_D4.v:11-13 | the serial register after a message is the remainder of the message times x^32, initial value included |
| Crc32.NibbleCrcIsRemainder | rtl/verilog/soc/CRC32_D4.v:24-69 | folding the nibble function over any nibbles gives that remainder, by the generator of section 3.2.9 of IEEE 802.3-2018 |
| Crc32.CrcLinear | rtl/verilog/soc/CRC32_D4.v:24-69 | the CRC is linear in register and message together |
| PtrAdder.Adder | rtl/verilog/lsu.v:1084-1107 | the two bit loops and the sum compute the masked, possibly reversed, addition |
| PtrAdder.CircularRun | rtl/verilog/lsu.v:1084-1107 | with a mask of the low k bits the pointer counts in steps of the modifier inside its block |
| PtrAdder.CircularVisitsOnce | rtl/verilog/lsu.v:1084-1107 | with an odd modifier 2^k updates meet no address of the block twice |
| PtrAdder.CircularVisitsAll | rtl/verilog/lsu.v:1084-1107 | and miss none |
| PtrAdder.ReverseCarryRun | sw/tests/bitrev_01.asm:48-61 | with modifier 2^(16-k), the top k mask bits and bit reversal the n-th address from an aligned base is the base plus the k-bit reversal of n |
| PtrAdder.ReverseCarryValues | sw/tests/bitrev_01.asm:48-61 | the same as numbers |
| Mac.SaturatesExactly | rtl/verilog/int_addsub.v:51-82 | a saturated sum or difference is the exact signed one clamped to 40 bits |
| Mac.WrapsExactly | rtl/verilog/int_addsub.v:51-82 | an unsaturated one wraps around |
| Mac.MultipliersAgree | rtl/verilog/int_mul.v:44-63 | both multiplier forms give the exact product modulo 2^32, for every choice of signs |
| Mac.LowBitsExact | rtl/verilog/cu.v:396-405 | any number of unsaturated steps leaves the sum of the products modulo 2^32 in the low 32 bits |
| Mac.WholeSum | rtl/verilog/cu.v:396-405 | an unsaturated sum of any length is the exact one plus 2^32 for every negative product, modulo 2^40 |
| Mac.SumExactness | rtl/verilog/cu.v:396-405 | it is exact in 40 bits if and only if the number of negative products is a multiple of 256 |
| Mac.UnsignedExact | rtl/verilog/cu.v:396-405 | up to 128 unsigned products from zero are exact in 40 bits, saturated or not |
| Mac.StepExactness | rtl/verilog/cu.v:396-405 | without overflow a step is exact in 40 bits if and only if the product is not negative |
| Mac.StepSaturates | rtl/verilog/cu.v:395-404 | with saturation a step is the exact sum with the product as the adder sees it, clamped to 40 bits |
| Mac.RunSaturates | rtl/verilog/cu.v:395-404 | any number of them is a fold of clamped additions |
| Mac.SaturatedSum | rtl/verilog/cu.v:395-404 | a saturated sum of any length is the exact one plus 2^32 for every negative product, clamped once; without negative products it is the exact one stopped at the top |
| Stack.StackPointer.Clock | rtl/verilog/sp.v:81-146 | the two always-blocks give both units their addresses and leave the stack pointer where the two accesses, one after the other, would leave it |
| Stack.PairIsTwoSingles | rtl/verilog/sp.v:81-146 | two pushes or two pops in one packet move the stack pointer like the two in order, and see those addresses |
| Stack.Prologue | sw/tools/gcc/config/ajardsp/ajardsp.c:1369-1409 | the code the prologue loop emits |
| Stack.Epilogue | sw/tools/gcc/config/ajardsp/ajardsp.c:1411-1447 | the code the epilogue loop emits |
| Stack.PrologueSaves | sw/tools/gcc/config/ajardsp/ajardsp.c:1369-1409 | where every saved word lies after the prologue |
| Stack.SavedExactly | sw/tools/gcc/config/ajardsp/ajardsp.h:99-119 | what is pushed is exactly the pointers 4 to 6 and the halves of the accumulators 4 to 7 that the function uses, each once |
| Stack.EpilogueInverts | sw/tools/gcc/config/ajardsp/ajardsp.c:1369-1447 | for every frame size and every set of live registers, prologue, a body that restores sp and spares the saved words, and epilogue give back sp, frame pointer, return address and every saved register |
| Stack.LocalsApart | sw/tools/gcc/config/ajardsp/ajardsp.c:1382-1389 | the locals are none of the saved words |

## Left out

- The scanner and parser of the assembler, its file output and the line-number file: input and output. The model
  starts from the parsed lists and ends with the two memories and the symbol table.
- LinkedPrograms.CoreRunsSource: the run is taken to stay within the image, to write only packet addresses into the
  return registers and, if interrupts come, to have a packet at their vector (`Toolchain.ContainedRun`); and the data
  path not to write a return address or the loop counter in the very cycle the control unit updates it, nor the program
  to pass address zero with the loop counter running (`ProgramRules.DataRun`). Only where some loop ends at an unaligned
  address, jumps to such an end are excluded as well.
- Isa.Legal: branches in delay slots, loops of fewer than three packets, branches at the end of a loop body and the
  branch and the call through a pointer register are excluded, because the hardware gives them no useful meaning;
  `ProgramRules.RulesMakeLegal` turns the exclusion into rules that can be checked in the program text.
- The data path of the core: register files, load-store, computation and bit-manipulation units and their dispatch.
  `Pcu.Env` takes the predicate bit and the special-register writes as inputs.
- SharedPatterns.SameEncodingIff: instructions with predicates are outside, as they are for the disassembler.
- Alignment.PositiveAlign: alignments within 2^16 of the largest C int, where the signed sum overflows, are outside.
- SdramCorrect.RefreshDeadline: the timing parameters are taken to fit the 16-bit counter, as the source's do.
- The DDR data path and its clocked pads, and the contents of the mode registers.
- The core's own writes to memory during a burst.
- The memory blocks, the multiplier block and the clock and input-output blocks of the device vendor: a memory is an
  array and the multiplier a signed 18 by 18 product; these primitives are not part of this model.
- The choice of mask and modifier by the pointer's selector, and its value 2, which the source does not decode.
- The meaning of `cmp16` beyond its encoding.
- The rest of the compiler port, and the pipeline hazards between the instructions of prologue and epilogue.
- The simulation debugger, the video, audio, keyboard and display blocks, test benches and scripts.
