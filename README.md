# sim86 execution step, in Dafny

A model of the instruction-execution core of the sim86 8086 simulator's Rust
front end (`simulator.rs`). The simulator holds a bank of eight general 16-bit
registers (`arr`), a five-slot secondary bank (`biu`) and a 16-bit flag word.
`execute_instruction` takes one decoded instruction and updates that state in
place:

- `mov` copies a register or an immediate into a register, as a whole word or
  as one byte half;
- `add`, `sub` and `cmp` take a word path or a byte path, chosen by the wide
  bit (`Flags & 8`) of the instruction;
- after each arithmetic operation, three setters update the zero, sign and
  parity bits of the flag word.

The project has two layers:

- **Specification.** `Semantics.Step` is a pure function. It maps the register
  file before (a `RegisterFile.Registers` value) to the register file after, or
  to the `Faults.Fault` that aborts the step.
- **Implementation.** `Sim86.Simulator` is a class with `arr: array<bv16>`
  (length 8), `biu: array<bv16>` (length 5) and `flags: bv16`. The
  `execute_*` and `set_*_flag` methods are mirrored one for one.
  `register_ptr`, `u16_ptr` and `into_u8_ptr` become functions over the slot
  type `Loc` and the byte selector `ByteSel`, and `Load`/`Store` stand for
  the pointer reads and writes. Each method is proved to realise the
  matching specification function: on success the arrays and the flag word
  hold the specified registers, and on a fault nothing has changed and the
  same fault is reported.

The `Properties` module states what a step does in the program's own terms.
The `Flags` module proves what each flag setter does to the flag word.

Modelling choices:

- **Faults.** `panic!` and `unimplemented!` become an error result naming the
  fault. An out-of-range register index, the index 0 included, is a fault.
- **Arithmetic.** `u16` and `u8` addition and subtraction wrap modulo 2^16
  and 2^8, as a release build does. They are bit-vector operations.
- **Immediates.** `Value as u16` and `Value as u8` take the low bits of the
  32-bit two's-complement pattern of the signed immediate.
- **Byte halves.** `into_u8_ptr` returns byte 0 of the register when
  `Offset == 0` and byte 1 otherwise. The model assumes a little-endian host,
  where byte 0 holds bits 0-7 and byte 1 holds bits 8-15. `GetByte` and
  `SetByte` are the only place that encodes this.
- **Quirks kept as written.**
  - The sign test reads bit 14 (`0x4000`) of the result.
  - A byte-width add, sub or cmp with an immediate source always adds and
    writes back.
  - `mov` reports the same "no legal destination" fault for a source that is
    neither a register nor an immediate.
- **Flags.** `simulator.rs` derives the flags directly from the 16-bit
  result, or from the byte result zero-extended to 16 bits, and it has no
  overflow flag.

## Model

| member | source | states |
|---|---|---|
| RegisterFile.RegisterLoc | perfaware/sim86/shared/contrib_rust/src/simulator.rs:213-222 | an index resolves exactly when it is in 1..13, to the slot whose decoder index it is; index 0 faults with an underflow, indices above 13 with an illegal access |
| RegisterFile.U16Loc | perfaware/sim86/shared/contrib_rust/src/simulator.rs:224-234 | only a register operand denotes a word slot (resolved like `register_ptr`); any other operand faults with "no legal destination" |
| RegisterFile.ByteOf | perfaware/sim86/shared/contrib_rust/src/simulator.rs:19-25 | offset 0 selects byte 0 and every other offset selects byte 1 |
| RegisterFile.GetByte | perfaware/sim86/shared/contrib_rust/src/simulator.rs:91 | reading through the byte pointer gives bits 0-7 of the word for byte 0 and bits 8-15 for byte 1 (little-endian host) |
| RegisterFile.SetByte | perfaware/sim86/shared/contrib_rust/src/simulator.rs:93-94 | a write through the byte pointer gives the selected byte the new value and keeps the other byte |
| RegisterFile.Initial | perfaware/sim86/shared/contrib_rust/src/simulator.rs:29-38 | the fresh register file has every slot of both banks and the flag word zero |
| Instructions.IsWide | perfaware/sim86/shared/contrib_rust/src/simulator.rs:46 | an instruction is word-width exactly when the wide bit (mask 8, bit 3) of its flag word is set |
| Instructions.AsU16 | perfaware/sim86/shared/contrib_rust/src/simulator.rs:139 | `Value as u16` is the low half of the immediate's 32-bit two's-complement pattern: the pattern is its upper half followed by the result |
| Instructions.AsU8 | perfaware/sim86/shared/contrib_rust/src/simulator.rs:99-103 | the 8-bit truncation of an immediate is the low byte of its 16-bit truncation |
| Flags.LowBit | perfaware/sim86/shared/contrib_rust/src/simulator.rs:256 | `ctr & 1` contributes 1 exactly when bit 0 is set, and 0 otherwise |
| Flags.ZeroFlagSetter | perfaware/sim86/shared/contrib_rust/src/simulator.rs:236-242 | after `set_zero_flag` bit 0x0040 is set iff the result is 0, and every other bit is unchanged |
| Flags.SignFlagSetter | perfaware/sim86/shared/contrib_rust/src/simulator.rs:244-250 | after `set_signed_flag` bit 0x0080 is set iff bit 14 of the result is set, and every other bit is unchanged |
| Flags.ParityFlagSetter | perfaware/sim86/shared/contrib_rust/src/simulator.rs:259-263 | after `set_parity_flag` bit 0x0004 is set iff the counted parity is even, and every other bit is unchanged |
| Flags.FlagsForAny | perfaware/sim86/shared/contrib_rust/src/simulator.rs:163-165 | the three setters in sequence leave zero, sign and parity describing the result and every other flag bit untouched |
| Flags.ResultFlags | perfaware/sim86/shared/contrib_rust/src/simulator.rs:163-165 | the same, with parity meaning an even number of ones in the result's low byte |
| Flags.OnesAtMost | perfaware/sim86/shared/contrib_rust/src/simulator.rs:253-258 | the bit count the parity loop accumulates never exceeds the number of bits examined (8), so the `u16` counter cannot wrap |
| Flags.OnesOf57 | perfaware/sim86/shared/contrib_rust/src/simulator.rs:282-290 | 57 has four one bits in its low byte, so its parity is even |
| Semantics.WordSource | perfaware/sim86/shared/contrib_rust/src/simulator.rs:117-160 | the word path's source value is the source register's word or the immediate truncated to 16 bits; an unresolvable register faults as `register_ptr` does and any other operand faults as an illegal operand |
| Semantics.MovStep | perfaware/sim86/shared/contrib_rust/src/simulator.rs:76-110 | a successful mov keeps the register file well formed and never changes the flag word |
| Semantics.WordResult | perfaware/sim86/shared/contrib_rust/src/simulator.rs:117-161 | the operation stage of the word path changes no flag; the flags come only from the setters |
| Semantics.WordArith | perfaware/sim86/shared/contrib_rust/src/simulator.rs:112-166 | a successful word-width step keeps the register file well formed |
| Semantics.ByteResult | perfaware/sim86/shared/contrib_rust/src/simulator.rs:173-206 | the operation stage of the byte path changes no flag |
| Semantics.ByteArith | perfaware/sim86/shared/contrib_rust/src/simulator.rs:168-211 | a successful byte-width step keeps the register file well formed |
| Semantics.Step | perfaware/sim86/shared/contrib_rust/src/simulator.rs:40-69 | a step faults as unimplemented exactly for an operation other than mov, add, sub and cmp; the "illegal operation type" arms are never reached |
| Sim86.Simulator.constructor | perfaware/sim86/shared/contrib_rust/src/simulator.rs:29-38 | a new simulator has banks of 8 and 5 slots holding the all-zero register file |
| Sim86.Simulator.Load | perfaware/sim86/shared/contrib_rust/src/simulator.rs:86 | reading through a slot pointer gives the word the register file holds in that slot |
| Sim86.Simulator.Store | perfaware/sim86/shared/contrib_rust/src/simulator.rs:122 | writing through a slot pointer changes that slot of the register file and nothing else |
| Sim86.Simulator.ExecuteInstruction | perfaware/sim86/shared/contrib_rust/src/simulator.rs:40-69 | the arrays and flag word after the call are those `Step` specifies, or nothing changes and the fault is reported |
| Sim86.Simulator.ExecuteMov | perfaware/sim86/shared/contrib_rust/src/simulator.rs:76-110 | the in-place mov realises `MovStep` |
| Sim86.Simulator.ExecuteArithmetic | perfaware/sim86/shared/contrib_rust/src/simulator.rs:112-166 | the in-place word path realises `WordArith` |
| Sim86.Simulator.ExecuteU8Arithmetic | perfaware/sim86/shared/contrib_rust/src/simulator.rs:168-211 | the in-place byte path realises `ByteArith` |
| Sim86.Simulator.SetZeroFlag | perfaware/sim86/shared/contrib_rust/src/simulator.rs:236-242 | sets the flag word to the one `ZeroFlagSetter` describes and changes no register |
| Sim86.Simulator.SetSignedFlag | perfaware/sim86/shared/contrib_rust/src/simulator.rs:244-250 | sets the flag word to the one `SignFlagSetter` describes and changes no register |
| Sim86.Simulator.SetParityFlag | perfaware/sim86/shared/contrib_rust/src/simulator.rs:252-264 | the counting loop finds the parity of the low byte, and the flag word becomes the one `ParityFlagSetter` describes for it; no register changes |
| Properties.IndexRoundTrip | perfaware/sim86/shared/contrib_rust/src/simulator.rs:213-222 | every slot has a decoder index in 1..13, and resolving that index gives the slot back |
| Properties.IndexBanks | perfaware/sim86/shared/contrib_rust/src/simulator.rs:213-222 | index i in 1..8 selects `arr[i-1]` and index i in 9..13 selects `biu[i-9]` |
| Properties.TruncationExamples | perfaware/sim86/shared/contrib_rust/src/simulator.rs:99-103 | -1, 0x12345 and -0x8000 truncate to 0xFFFF, 0x2345 and 0x8000 as `u16`; -2 and 0x1FF truncate to 0xFE and 0xFF as `u8` |
| Properties.ByteHalvesDetermine | perfaware/sim86/shared/contrib_rust/src/simulator.rs:19-25 | a word is determined by its two byte halves |
| Properties.ByteWriteIsolated | perfaware/sim86/shared/contrib_rust/src/simulator.rs:93-94 | a byte write sets the addressed byte and leaves the other byte, every other slot and the flags unchanged |
| Properties.MovWordRegister | perfaware/sim86/shared/contrib_rust/src/simulator.rs:84-86 | a wide register mov copies the source word into the destination and changes nothing else, flags included |
| Properties.MovWordImmediate | perfaware/sim86/shared/contrib_rust/src/simulator.rs:98-99 | a wide immediate mov stores the immediate truncated to 16 bits and changes nothing else |
| Properties.MovByte | perfaware/sim86/shared/contrib_rust/src/simulator.rs:87-103 | a byte mov writes the addressed destination byte with the source's addressed byte, or with the immediate truncated to 8 bits; the other byte, other slots and flags are unchanged |
| Properties.MovFaults | perfaware/sim86/shared/contrib_rust/src/simulator.rs:76-110 | a mov faults on an unresolvable destination first, then on an unresolvable register source or a source of another kind, and succeeds otherwise |
| Properties.WordAddSub | perfaware/sim86/shared/contrib_rust/src/simulator.rs:117-165 | word add/sub store dst + src or dst - src modulo 2^16 in the destination, leave other slots alone, and set the flags from the stored value |
| Properties.WordCmp | perfaware/sim86/shared/contrib_rust/src/simulator.rs:125-128 | word cmp writes no register, sets the flags from dst - src, and so sets the zero bit exactly when the two words are equal |
| Properties.SubZero16 | perfaware/sim86/shared/contrib_rust/src/simulator.rs:146 | a 16-bit difference is zero exactly when the operands are equal |
| Properties.AddThenSubRestores | perfaware/sim86/shared/contrib_rust/src/simulator.rs:117-151 | a word add followed by a word sub of the same immediate, or of a register other than the destination, restores the destination, leaves every other slot as it was, and leaves flags that describe the restored word |
| Properties.AddSubCancel | perfaware/sim86/shared/contrib_rust/src/simulator.rs:142-150 | wrapping subtraction undoes wrapping addition modulo 2^16 |
| Properties.CmpIsSubWithoutWrite | perfaware/sim86/shared/contrib_rust/src/simulator.rs:125-132 | on the word path, and on the byte path with a register source, cmp faults exactly when sub does, and otherwise leaves the registers unchanged and the flags as sub would set them |
| Properties.ByteRegisterAddSub | perfaware/sim86/shared/contrib_rust/src/simulator.rs:174-192 | byte add/sub with a register source put the byte sum or difference modulo 2^8 in the addressed destination byte, leave the other byte and other slots alone, and set the flags from that byte |
| Properties.ByteRegisterCmp | perfaware/sim86/shared/contrib_rust/src/simulator.rs:185-188 | byte cmp writes no register, and its zero bit is set exactly when the two addressed bytes are equal |
| Properties.SubZero8 | perfaware/sim86/shared/contrib_rust/src/simulator.rs:186 | a byte difference, widened to 16 bits, is zero exactly when the bytes are equal |
| Properties.ByteImmediateAlwaysAdds | perfaware/sim86/shared/contrib_rust/src/simulator.rs:198-202 | with an immediate source, byte sub and cmp behave exactly as byte add: the addressed byte becomes itself plus the immediate's low byte, and the flags follow it |
| Properties.ByteArithClearsSign | perfaware/sim86/shared/contrib_rust/src/simulator.rs:208-209 | the byte path always leaves the sign bit clear, because a widened byte never has bit 14 set |
| Properties.ArithFaults | perfaware/sim86/shared/contrib_rust/src/simulator.rs:112-211 | add, sub and cmp fault on an unresolvable destination first, then on an unresolvable register source or a source of another kind, and succeed otherwise, on both paths |
| Properties.OnlyWideBitMatters | perfaware/sim86/shared/contrib_rust/src/simulator.rs:45-65 | instructions that differ only in flag bits other than the wide bit step identically |
| Properties.MovThenSubToZero | perfaware/sim86/shared/contrib_rust/src/simulator.rs:40-166 | from the all-zero state, mov of 5 into the first register and then sub of 5 leave 0 there, with the zero and parity bits set and the sign bit clear |

## Left out

- The register and flag trace that `execute_instruction` prints after every instruction (simulator.rs:70-73) is output only and is not modelled.
- The `memory` byte vector (simulator.rs:5, 16, 36) is allocated but never read or written, so it is not modelled.
- Raw pointers, `unsafe` and the foreign instruction layout are not modelled. A slot is the `Loc` datatype and a byte pointer is a `ByteSel`. The decoder's instruction becomes a native datatype that keeps only the operation, the flag word and the two operands.
- Memory and other operand kinds all become `OtherOperand`, which every path here rejects.
- Debug builds panic when `u16` or `u8` arithmetic overflows; the model uses the wrapping arithmetic of release builds instead.
- Index 0 makes `register_ptr` compute `idx - 1` on a `usize`, which panics in a debug build and points outside the bank otherwise. The model reports it as the `IndexUnderflow` fault.
- The "illegal operation type" panics sit in arms that dispatch never reaches. They are modelled as the `IllegalOperationType` fault, and `Semantics.Step` is proved never to return it.
- Sim86.Simulator.SetParityFlag: the model's `total` counter is an unbounded natural where the source uses a `u16`. The loop invariant `total <= i` keeps it at most 8 (as does `Flags.OnesAtMost` for the count it computes), so the two agree.
- The `flag_swap_on` and `flag_swap_off` tests (simulator.rs:269-279) exercise only Rust's `|` and `&` on constants. The OR-on and AND-off masks they stand for are stated by `Flags.ZeroFlagSetter`, `Flags.SignFlagSetter` and `Flags.ParityFlagSetter`.
- Advancing the instruction pointer, conditional jumps and loops, memory operands and the overflow flag are not part of `simulator.rs`, so they are not part of this model.
