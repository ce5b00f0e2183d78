# M6800 decoder, classifier and lifter in Dafny

This project models the core of the Motorola 6800 architecture plugin for
Binary Ninja. That core has three parts.

- **The opcode table and classification lists** (`instructions.py`). The
  `INSTRUCTIONS` dictionary maps an opcode byte to its mnemonic, length,
  accumulator and address mode. Four lists name the conditional branches,
  the jumps, the calls and the return.
- **The decoder and classifier** (`architecture.py`). `_decode_instruction`
  turns the bytes at an address into a descriptor and the operand value its
  mode resolves:
  - a two's-complement displacement added to the next address;
  - a big-endian word;
  - a single byte.

  Addresses are masked to the 15-bit address space. `get_instruction_info`
  turns the instruction class and mode into the branch edges that Binary
  Ninja follows.
- **The lifter** (`architecture.py`). `get_instruction_low_level_il`,
  `_handle_jump` and `_handle_branch` append low-level IL to the function
  under construction. They look up labels by address, allocate fresh ones
  and place them.

The modules follow that structure:

- `Instructions` (instructions.dfy) holds the table in two forms:
  - `TableAsWritten` is the dictionary exactly as written.
  - `Instruction` is the corrected table that the rest of the model uses
    (see "## Findings").

  It also holds the lists as sets and the five-field descriptor
  (mnemonic, length, operand, class, mode) that the decoder unpacks. The
  class comes from the four lists. Membership of the dual-accumulator
  opcodes is a parameter. A row without a mode string is accumulator mode
  when it names an accumulator, and inherent mode otherwise.
- `Decoder` (decoder.dfy) models `_decode_instruction` as a function that
  returns a `Result`. Both LookupError paths are `Failure` values:
  - an opcode without a row;
  - a word operand cut short.

  It also holds the inverse, `EncodeOperand`, with round-trip lemmas in
  both directions.
- `Classifier` (classifier.dfy) models `get_instruction_info` as a function
  that returns the sequence of edges.
- `IL` (il.dfy) holds the IL expressions the lifter builds. The
  per-mnemonic operation builders are an uninterpreted `Op`.
- `Lifter` (lifter.dfy) holds the pieces of lifting:
  - the pure specification of one lifting step (`Lifted`, `BranchEmission`,
    `Operation`);
  - a `Builder` class whose methods mirror the source's imperative code
    over the IL function. That state is the known labels, the fresh-label
    counter, the current address, and the appended items.
- `Flags` (flags.dfy) holds the flag write-type and flag-condition tables.
- `Wrappers` (wrappers.dfy) holds `Option` and `Result`.

Names the source imports without defining them are bridged as follows:

- `ADDRESS_MASK` is the constant 0x7FFF.
- `BIGGER_LOADS`, `REGISTER_OR_MEMORY_DESTINATIONS` and the dual opcodes are
  fields of a `Config` parameter.

Two further details:

- For the indexed jump (0x6E), `_handle_jump` builds a jump to the constant
  offset byte, without the index register. The corrected lifter appends
  that jump; the lifter as written appends nothing (see "## Findings").
  The classifier reports such a jump as an unresolved edge.
- Row 0x8C gives CPX the accumulator tag 'A', where the other CPX rows have
  none; the model keeps it as written.

## Model

| member | source | states |
|---|---|---|
| Instructions.TableAsWritten | instructions.py:15-214 | the dictionary as written; every row except 0x8E has the length its mode implies (1 without a mode, 2 for REL/DIR/IND, 3 for EXT, a word immediate only for CPX/LDX/LOS), and every row of the accumulator grid except 0xF8 is the one its position calls for |
| Instructions.Block00 | instructions.py:17-60 | rows 0x00-0x3F: each length fits its mode |
| Instructions.Block40 | instructions.py:61-106 | rows 0x40-0x7F: each length fits its mode |
| Instructions.Block80 | instructions.py:107-163 | rows 0x80-0xBF: lengths fit their modes except 0x8E; accumulator-A grid rows follow the grid |
| Instructions.BlockC0 | instructions.py:164-213 | rows 0xC0-0xFF: lengths fit their modes; accumulator-B grid rows follow the grid except 0xF8 |
| Instructions.Instruction | instructions.py:15-214 | the corrected table: every row's length fits its mode, every accumulator-grid row is the grid's, and it agrees with the dictionary on every byte but 0x8E and 0xF8 |
| Instructions.BranchListIsRange | instructions.py:3-5 | the conditional-branch list is exactly 0x22..0x2F |
| Instructions.BranchIsRelative | instructions.py:35-48 | every conditional-branch opcode has a two-byte REL row |
| Instructions.JumpsCoverModes | instructions.py:7-9 | the jump list is BRA relative (0x20), JMP indexed (0x6E), JMP extended (0x7E) |
| Instructions.CallsCoverModes | instructions.py:11 | the call list is BSR relative (0x8D), JSR indexed (0xAD), JSR extended (0xBD) |
| Instructions.ListsDisjoint | instructions.py:3-13 | the four lists are pairwise disjoint and the return list is exactly 0x39 |
| Instructions.ReturnIsRts | instructions.py:57 | 0x39 is the one-byte RTS |
| Instructions.UnassignedOpcodes | instructions.py:15-214 | 0x00, 0x02-0x05, 0x21, 0x8F and 0xCC have no row |
| Instructions.DuplicateAdcRow | instructions.py:208-209 | as written 0xF8 and 0xF9 carry the same ADC B extended row, while 0xF8's grid position calls for EOR |
| Instructions.ShortStackImmediate | instructions.py:117-174 | as written the immediate LOS is two bytes long, while the table's other 16-bit register immediates, CPX (0x8C) and LDX (0xCE), are three; the DIR/EXT rows are listed for contrast only |
| Instructions.ImmediateWidths | instructions.py:107-119 | in the corrected table an immediate row is three bytes long exactly for CPX, LDX and LOS |
| Instructions.EorColumn | instructions.py:113 | in the corrected table every opcode at low nibble 8 from 0x88 up is EOR, 0xF8 included |
| Instructions.Lookup | architecture.py:108 | a descriptor exists exactly for bytes with a row and carries the row's mnemonic, length and mode; its operand is ACCA exactly for tag A, ACCB exactly for tag B, and none without a tag; accumulator mode exactly when the row names an accumulator and no mode |
| Instructions.DescriptorShape | architecture.py:108 | every descriptor's length fits its mode and names at most an accumulator |
| Instructions.ClassFollowsLists | instructions.py:3-13 | a descriptor's class is the list its opcode is in, in both directions; dual only for listed dual opcodes outside the four lists |
| Instructions.ControlTransfersHaveTargets | instructions.py:3-13 | branches, jumps and calls are relative, indexed or extended, never operand-less |
| Decoder.MaskAddress | architecture.py:122 | masking gives an address in range congruent to its input |
| Decoder.MaskKeepsAddresses | architecture.py:122 | masking fixes in-range addresses and is idempotent |
| Decoder.SignedByte | architecture.py:120 | the signed reading of a byte lies in -128..127 and is congruent to the byte |
| Decoder.SignedByteRoundTrip | architecture.py:120 | every displacement in -128..127 has a byte that reads back as it |
| Decoder.BigEndianWord | architecture.py:127 | the unpacked word is below 0x10000 with the first byte high and the second low |
| Decoder.Displacement | architecture.py:120 | the displacement is the operand byte read as a signed byte (in -128..127 and congruent to it), 0 when the slice after the opcode is empty |
| Decoder.MaskedWord | architecture.py:127-133 | a masked word keeps the low byte and the low seven bits of the high byte |
| Decoder.Resolve | architecture.py:112-138 | fails exactly when a word operand is cut short, then with the address; otherwise the value is the masked relative target, the operand byte, or the masked word, as the mode demands |
| Decoder.ResolveRelative | architecture.py:118-122 | a relative value is the masked sum of address, length and signed displacement |
| Decoder.Decode | architecture.py:104-140 | an invalid-opcode failure exactly for bytes without a row, carrying opcode and address; otherwise the operand resolved for the descriptor |
| Decoder.RelativeTargetReencodes | architecture.py:118-122 | a masked relative target re-encodes as the displacement byte it came from |
| Decoder.ReachableTargetResolves | architecture.py:118-122 | a target within a signed byte of the next address is reached by its encoding |
| Decoder.WordRoundTrip | architecture.py:127-133 | an address written as two big-endian bytes unpacks and masks to itself |
| Decoder.ReencodeResolved | architecture.py:112-138 | re-encoding a resolved operand gives back the instruction bytes, a word with its high bit cleared |
| Decoder.DecodeReencodes | architecture.py:104-140 | decode then encode reproduces the instruction bytes when the mask dropped no bit |
| Decoder.ResolveEncoded | architecture.py:112-138 | resolving the encoding of an encodable value gives that value, with the descriptor's length |
| Decoder.DecodeEncoded | architecture.py:104-140 | encode then decode gives the descriptor and value back |
| Decoder.DisplacementBoundaries | architecture.py:118-122 | 0x7F is +127 and 0x80 is -128; sign extension before masking wraps a backward branch at 0x10 to 0x7F92 |
| Decoder.LoadImmediateExample | architecture.py:123-125 | LDA A #0x2A decodes with operand 0x2A |
| Decoder.StackImmediateExample | architecture.py:126-129 | with the corrected row, LOS # takes the masked word 0x9234 as 0x1234 |
| Decoder.InvalidOpcodeExample | architecture.py:107-110 | 0xCC fails as an invalid opcode at its address |
| Decoder.TruncatedOperandExample | architecture.py:130-138 | JMP extended with one operand byte fails as undecodable |
| Classifier.Edges | architecture.py:187-209 | at most two edges; none exactly for non-transfer classes; one unresolved edge exactly for indexed transfers; resolved edges carry the value; the fall-through exactly for non-indexed conditional branches, at address plus length |
| Classifier.DecodedTargetKnown | architecture.py:104-140 | every non-indexed transfer resolves a target inside the address space |
| Classifier.InstructionInfo | architecture.py:179-209 | None exactly when decoding fails; otherwise the decoded length and the decoded instruction's edges |
| Classifier.TargetsInAddressSpace | architecture.py:179-209 | every resolved edge target is masked; the fall-through is address plus length |
| Classifier.IndexedTransferEdges | architecture.py:190-205 | an indexed branch, jump or call reports length 2 and only an unresolved edge |
| Classifier.RelativeTransferEdges | architecture.py:190-205 | a relative branch reports the masked target then the unmasked next address; a relative jump or call reports the masked target |
| Classifier.ExtendedTransferEdges | architecture.py:196-205 | an extended jump or call reports the masked operand word, and nothing when it is cut short |
| Classifier.ConditionalBranchEdges | architecture.py:190-195 | every listed conditional branch reports its true edge then its false edge |
| Classifier.ReturnEdges | architecture.py:206-207 | RTS is one byte long with a function-return edge |
| Classifier.PlainInstructionEdges | architecture.py:187-209 | an opcode outside the four lists reports no edges |
| Classifier.BranchToSelf | architecture.py:179-209 | BRA -2 at 0x5810 reports an unconditional edge to 0x5810 |
| Classifier.FallThroughUnmasked | architecture.py:190-195 | BEQ +0 at 0x7FFF reports a true edge to 1 and a false edge to 0x8001 |
| Flags.WriteTypesSpellTheirFlags | architecture.py:40-47 | every write type but the empty one has a flag list, and each list spells its name |
| Flags.WriteGroupsNest | architecture.py:42-47 | HNZVC contains NZVC, which contains NZV, which contains Z, each strictly |
| Flags.ConditionsReadArithmeticFlags | architecture.py:49-64 | every condition has a flag list; none reads H or I, so HNZVC writes all of them |
| Flags.Negation | architecture.py:49-64 | maps each condition to a different one, its opposite in a pairing that is this model's own (the source defines none); Flags.NegationReadsSameFlags proves the pairing an involution |
| Flags.NegationReadsSameFlags | architecture.py:49-64 | a condition and its opposite read the same flags |
| Lifter.DecodedIsLiftable | architecture.py:211-231 | every decoded instruction has the operand its mode and class need |
| Lifter.LoadSize | architecture.py:220 | loads are two bytes wide exactly for the bigger loads, one otherwise |
| Lifter.Destination | architecture.py:237-270 | a destination is bound exactly in indexed, direct, extended and relative modes |
| Lifter.Operation | architecture.py:272-289 | a bare operation exactly when the mnemonic does not write back; its mnemonic, operands and wrapping are stated by Lifter.OperationShape |
| Lifter.SourceOperand | architecture.py:233-270 | no operand exactly in inherent mode; the register name exactly for PUL in accumulator mode; a load from the destination wherever one is bound |
| Lifter.JumpTo | architecture.py:70-73 | a goto exactly when the target has a label, to that label; otherwise a jump to the constant target |
| Lifter.BranchEmission | architecture.py:77-102 | `_handle_branch`'s items: one `if`, two more items when the target has no label and one more when the fall-through has none; its order, labels and counter are stated by the Branch* lemmas below |
| Lifter.BranchEmitsOneIf | architecture.py:77-102 | the branch appends its one `if` first, over the true and false labels, and no other `if`; it appends 1 item, plus 2 for an unlabelled target (its label and jump), plus 1 for an unlabelled fall-through (its label) |
| Lifter.BranchLabelsFresh | architecture.py:77-95 | allocated labels are new and distinct from each other; the counter advances once per allocation |
| Lifter.BranchMarksFreshLabels | architecture.py:97-102 | exactly the allocated labels are placed, each once |
| Lifter.FallThroughLabelLast | architecture.py:101-102 | an unlabelled fall-through gets its fresh label placed last, after the `if` and any jump |
| Lifter.KnownTargetsEmitOnlyIf | architecture.py:77-102 | with both targets labelled the branch is the `if` alone |
| Lifter.UnknownTargetJumps | architecture.py:97-99 | an unlabelled target gets its fresh label placed after the `if`, followed by a jump to it |
| Lifter.OperationShape | architecture.py:272-286 | the operation is the instruction's own mnemonic over its source operand; the accumulator is the second operand exactly for dual instructions; it is wrapped in a register or memory write-back exactly for the write-back mnemonics |
| Lifter.WriteBackTargetsSource | architecture.py:282-286 | a write-back stores to the accumulator or memory location its operand came from |
| Lifter.ResolvedOperand | architecture.py:233-270 | the source operand built from a resolved value is the one the instruction bytes encode |
| Lifter.DecodedOperand | architecture.py:211-270 | every decoded instruction's operation reads the operand its bytes encode |
| Lifter.Lifted | architecture.py:222-231 | the corrected lifting step: at least one item, and the label counter moves only for conditional branches; its dispatch is stated by Lifter.LiftingShape |
| Lifter.LiftedAsWritten | architecture.py:222-231 | the lifting step as written: it appends nothing exactly for unconditional branches; Lifter.DroppedJump relates it to Lifter.Lifted |
| Lifter.LiftingShape | architecture.py:222-289 | only conditional branches touch labels; a conditional branch emits exactly `BranchEmission` for its mnemonic, length and target; an unconditional branch appends exactly `JumpTo` its target; every other instruction appends exactly its `Operation` |
| Lifter.DroppedJump | architecture.py:228-231 | as written an unconditional branch appends nothing where the corrected lifter appends its jump; both agree otherwise |
| Lifter.Lift | architecture.py:211-289 | fails exactly when decoding fails, with its error; otherwise reports the decoded length and appends exactly the corrected lifting step of the decoded instruction, advancing the label counter to match |
| Lifter.LiftAsWritten | architecture.py:211-231 | fails exactly when decoding fails, with its error; otherwise reports the decoded length and appends exactly the as-written lifting step, advancing the label counter to match |
| Lifter.BranchToSelfDropped | architecture.py:228-231 | BRA -2 at 0x5810 lifts to nothing as written, and to a jump to 0x5810 corrected |
| Lifter.Builder.constructor | architecture.py:211 | starts from the known labels with no items and every known label below the counter |
| Lifter.Builder.LabelFor | architecture.py:71 | finds a label exactly for addresses that have one |
| Lifter.Builder.NewLabel | architecture.py:81 | returns a label no address has and advances the counter, changing nothing else |
| Lifter.Builder.Append | architecture.py:287 | appends one expression and changes nothing else |
| Lifter.Builder.MarkLabel | architecture.py:98 | places one label and changes nothing else |
| Lifter.Builder.HandleJump | architecture.py:70-73 | the jump built for the target, as `JumpTo` specifies it |
| Lifter.Builder.HandleBranch | architecture.py:77-102 | appends exactly the branch emission and advances the counter to match, keeping labels fresh |
| Lifter.Builder.LiftInstruction | architecture.py:211-231 | the corrected lifter (BRA/JMP append their jump, which the source discards): appends nothing when decoding fails; otherwise appends `Lifted`'s items, returns the length and keeps labels fresh |
| Lifter.Builder.LiftDecoded | architecture.py:222-231 | the corrected lifter (BRA/JMP append their jump, which the source discards): appends exactly `Lifted`'s items for a decoded instruction |
| Lifter.Builder.AppendOperation | architecture.py:233-289 | appends exactly `Operation` of the decoded instruction (its mnemonic, operands and write-back as Lifter.OperationShape states them), changing nothing else |

## Left out

- `binaryview.py` (segments, sections, the entry-point read) is loader plumbing over framework objects and is not part of this model.
- `__init__.py` is an earlier copy of the architecture and is not part of this model.
- `get_instruction_text` only renders display tokens; it is not modelled.
- The per-mnemonic IL semantics of `LLIL_OPERATIONS` are not shown in the source; `Op` keeps them uninterpreted, and the branch condition is `Op` with no operands.
- `BIGGER_LOADS`, `REGISTER_OR_MEMORY_DESTINATIONS` and the dual-accumulator opcodes are not shown in the source; they are the `Config` parameter.
- `ADDRESS_MASK` is not shown in the source; the model fixes it to 0x7FFF, the 15-bit address space the loader uses.
- Decoder.Decodable: `data[0]` on an empty buffer (architecture.py:106) and `data[1]` on a one-byte buffer (architecture.py:125, 136) raise an uncaught IndexError; the model makes the opcode byte, and the operand byte where the mode reads it, a precondition instead of modelling the crash.
- Lifter.HasDestination: a write-back in immediate or inherent mode would use an unbound `destination`; the model makes this a precondition. Relative mode is allowed, because the source binds a destination there too.
- `log_error`, `InstructionInfo`, `LowLevelILLabel`, register and flag-role metadata are framework objects; they are replaced by plain datatypes or left out.
- Label identity: a fresh `LowLevelILLabel()` is modelled as the next value of a counter.

## Findings

| source | as written | input that shows it | evidently intended | confidence | as-written member | corrected member |
|---|---|---|---|---|---|---|
| architecture.py:228-231 | the expression `_handle_jump` builds for an unconditional branch is discarded, so BRA and JMP append no IL | BRA -2 (`0x20 0xFE`) at 0x5810 with no labels: the IL falls through to 0x5812 | append the goto or jump, as `_handle_jump` builds it | high; not executed | Lifter.LiftedAsWritten, Lifter.LiftAsWritten, Lifter.BranchToSelfDropped | Lifter.Lifted, Lifter.LiftingShape, Lifter.Lift, Lifter.Builder.LiftInstruction, Lifter.Builder.LiftDecoded |
| instructions.py:208 | 0xF8 is ADC B extended, repeating 0xF9 | opcode byte 0xF8 decodes as ADC | EOR B extended, completing the EOR column 0x88, 0x98, ..., 0xE8 of the accumulator grid | high; not executed | Instructions.DuplicateAdcRow | Instructions.Instruction, Instructions.EorColumn |
| instructions.py:119 | the immediate LOS (0x8E) is two bytes long | `0x8E 0x12 0x34`: one operand byte is read and 0x34 is decoded as the next opcode | three bytes with a word operand, like the table's other 16-bit register immediates CPX (0x8C) and LDX (0xCE), and as the 6800's LDS # is | medium; not executed | Instructions.ShortStackImmediate | Instructions.ImmediateWidths, Decoder.StackImmediateExample |
