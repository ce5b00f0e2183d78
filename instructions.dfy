/** The M6800 opcode table (instructions.py) and the descriptor that the
    decoder unpacks from it (architecture.py:108). */
module Instructions {
  import opened Wrappers

  /** A byte of machine code. */
  type Byte = b: int | 0 <= b < 0x100

  /** Every mnemonic that occurs in the opcode table. */
  datatype Mnemonic =
      NOP | TAP | TPA | INX | DEX | CLV | SEV | CLC | SEC | CLI | SEI | SBA | CBA | TAB | TBA
    | DAA | ABA | BRA | BHI | BLS | BCC | BCS | BNE | BEQ | BVC | BVS | BPL | BMI | BGE | BLT
    | BGT | BLE | TSX | INS | PUL | DES | TXS | PSH | RTS | RTI | WAI | SWI | NEG | COM | LSR
    | ROR | ASR | ASL | ROL | DEC | INC | TST | CLR | JMP | SUB | CMP | SBC | AND | BIT | LDA
    | EOR | ADC | ORA | ADD | CPX | BSR | LOS | STA | STS | JSR | LDX | STX

  /** Accumulator tag of a table row: the 'A' or 'B' of the third field. */
  datatype AccumulatorTag = A | B

  /** Address-mode strings of a table row: 'REL', 'IMM', 'DIR', 'EXT', 'IND'. */
  datatype TableMode = REL | IMM | DIR | EXT | IND

  /** One row of the table: (mnemonic, length, accumulator, address mode). */
  datatype Entry = Entry(mnemonic: Mnemonic, length: nat, accumulator: Option<AccumulatorTag>, mode: Option<TableMode>)

  /** Conditional relative branches. */
  const BranchInstructions: set<Byte> :=
    {0x22, 0x23, 0x24, 0x25, 0x26, 0x27, 0x28, 0x29, 0x2A, 0x2B, 0x2C, 0x2D, 0x2E, 0x2F}

  /** BRA and the two JMP forms. */
  const JmpInstructions: set<Byte> := {0x20, 0x6E, 0x7E}

  /** BSR and the two JSR forms. */
  const CallInstructions: set<Byte> := {0x8D, 0xAD, 0xBD}

  const ReturnInstructions: set<Byte> := {0x39}

  /** The encoded length each address mode implies: one byte without an
      operand, two with a byte operand, three with a word operand; an
      immediate operand is a word exactly for the three instructions on the
      16-bit registers (CPX, LDX and LOS, the stack-pointer load). */
  ghost predicate LengthFitsMode(e: Entry)
  {
    match e.mode
    case None => e.length == 1
    case Some(REL) => e.length == 2
    case Some(DIR) => e.length == 2
    case Some(IND) => e.length == 2
    case Some(EXT) => e.length == 3
    case Some(IMM) => e.length == (if e.mnemonic in {CPX, LDX, LOS} then 3 else 2)
  }

  /** The accumulator operations of opcodes 0x80 to 0xFF, by low nibble. */
  function AluOperation(low: int): Mnemonic
  {
    match low
    case 0x0 => SUB
    case 0x1 => CMP
    case 0x2 => SBC
    case 0x4 => AND
    case 0x5 => BIT
    case 0x6 => LDA
    case 0x7 => STA
    case 0x8 => EOR
    case 0x9 => ADC
    case 0xA => ORA
    case _ => ADD
  }

  /** The opcodes of the accumulator grid: bit 6 picks accumulator A or B,
      bits 4-5 the mode (immediate, direct, indexed, extended) and the low
      nibble the operation; there is no immediate store. */
  predicate InAluGrid(opcode: Byte)
  {
    var low := opcode % 0x10;
    && opcode >= 0x80
    && low <= 0xB && low != 0x3
    && !(low == 0x7 && (opcode / 0x10) % 4 == 0)
  }

  /** The row the grid position of `opcode` calls for. */
  function AluGridEntry(opcode: Byte): Entry
  {
    var column := (opcode / 0x10) % 4;
    Entry(AluOperation(opcode % 0x10),
          if column == 3 then 3 else 2,
          Some(if opcode < 0xC0 then A else B),
          Some(if column == 0 then IMM else if column == 1 then DIR else if column == 2 then IND else EXT))
  }

  /** The INSTRUCTIONS dictionary exactly as written, None for a byte that
      has no row. Two rows break the table's own regularity: 0x8E gives the
      immediate stack-pointer load a one-byte operand, and 0xF8 repeats
      0xF9's ADC where the grid calls for EOR. */
  function TableAsWritten(opcode: Byte): (r: Option<Entry>)
    ensures r.Some? && opcode != 0x8E ==> LengthFitsMode(r.value)
    ensures r.Some? && InAluGrid(opcode) && opcode != 0xF8 ==> r.value == AluGridEntry(opcode)
  {
    if opcode < 0x40 then Block00(opcode)
    else if opcode < 0x80 then Block40(opcode)
    else if opcode < 0xC0 then Block80(opcode)
    else BlockC0(opcode)
  }

  /** The opcode table the rest of the model decodes with: the dictionary
      with rows 0x8E and 0xF8 corrected to LOS with a word operand and to
      EOR B extended. Every row's length fits its mode, and every row of
      the accumulator grid is the one its position calls for. */
  function Instruction(opcode: Byte): (r: Option<Entry>)
    ensures r.Some? ==> LengthFitsMode(r.value)
    ensures r.Some? && InAluGrid(opcode) ==> r.value == AluGridEntry(opcode)
    ensures opcode != 0x8E && opcode != 0xF8 ==> r == TableAsWritten(opcode)
  {
    if opcode == 0x8E then Some(Entry(LOS, 3, None, Some(IMM)))
    else if opcode == 0xF8 then Some(Entry(EOR, 3, Some(B), Some(EXT)))
    else TableAsWritten(opcode)
  }

  /** Rows for opcodes 0x00 to 0x3F. */
  function Block00(opcode: Byte): (r: Option<Entry>)
    requires opcode < 0x40
    ensures r.Some? ==> LengthFitsMode(r.value)
  {
    match opcode
    case 0x01 => Some(Entry(NOP, 1, None, None))
    case 0x06 => Some(Entry(TAP, 1, None, None))
    case 0x07 => Some(Entry(TPA, 1, None, None))
    case 0x08 => Some(Entry(INX, 1, None, None))
    case 0x09 => Some(Entry(DEX, 1, None, None))
    case 0x0A => Some(Entry(CLV, 1, None, None))
    case 0x0B => Some(Entry(SEV, 1, None, None))
    case 0x0C => Some(Entry(CLC, 1, None, None))
    case 0x0D => Some(Entry(SEC, 1, None, None))
    case 0x0E => Some(Entry(CLI, 1, None, None))
    case 0x0F => Some(Entry(SEI, 1, None, None))
    case 0x10 => Some(Entry(SBA, 1, None, None))
    case 0x11 => Some(Entry(CBA, 1, None, None))
    case 0x16 => Some(Entry(TAB, 1, None, None))
    case 0x17 => Some(Entry(TBA, 1, None, None))
    case 0x19 => Some(Entry(DAA, 1, None, None))
    case 0x1B => Some(Entry(ABA, 1, None, None))
    case 0x20 => Some(Entry(BRA, 2, None, Some(REL)))
    case 0x22 => Some(Entry(BHI, 2, None, Some(REL)))
    case 0x23 => Some(Entry(BLS, 2, None, Some(REL)))
    case 0x24 => Some(Entry(BCC, 2, None, Some(REL)))
    case 0x25 => Some(Entry(BCS, 2, None, Some(REL)))
    case 0x26 => Some(Entry(BNE, 2, None, Some(REL)))
    case 0x27 => Some(Entry(BEQ, 2, None, Some(REL)))
    case 0x28 => Some(Entry(BVC, 2, None, Some(REL)))
    case 0x29 => Some(Entry(BVS, 2, None, Some(REL)))
    case 0x2A => Some(Entry(BPL, 2, None, Some(REL)))
    case 0x2B => Some(Entry(BMI, 2, None, Some(REL)))
    case 0x2C => Some(Entry(BGE, 2, None, Some(REL)))
    case 0x2D => Some(Entry(BLT, 2, None, Some(REL)))
    case 0x2E => Some(Entry(BGT, 2, None, Some(REL)))
    case 0x2F => Some(Entry(BLE, 2, None, Some(REL)))
    case 0x30 => Some(Entry(TSX, 1, None, None))
    case 0x31 => Some(Entry(INS, 1, None, None))
    case 0x32 => Some(Entry(PUL, 1, Some(A), None))
    case 0x33 => Some(Entry(PUL, 1, Some(B), None))
    case 0x34 => Some(Entry(DES, 1, None, None))
    case 0x35 => Some(Entry(TXS, 1, None, None))
    case 0x36 => Some(Entry(PSH, 1, Some(A), None))
    case 0x37 => Some(Entry(PSH, 1, Some(B), None))
    case 0x39 => Some(Entry(RTS, 1, None, None))
    case 0x3B => Some(Entry(RTI, 1, None, None))
    case 0x3E => Some(Entry(WAI, 1, None, None))
    case 0x3F => Some(Entry(SWI, 1, None, None))
    case _ => None
  }

  /** Rows for opcodes 0x40 to 0x7F. */
  function Block40(opcode: Byte): (r: Option<Entry>)
    requires 0x40 <= opcode < 0x80
    ensures r.Some? ==> LengthFitsMode(r.value)
  {
    match opcode
    case 0x40 => Some(Entry(NEG, 1, Some(A), None))
    case 0x43 => Some(Entry(COM, 1, Some(A), None))
    case 0x44 => Some(Entry(LSR, 1, Some(A), None))
    case 0x46 => Some(Entry(ROR, 1, Some(A), None))
    case 0x47 => Some(Entry(ASR, 1, Some(A), None))
    case 0x48 => Some(Entry(ASL, 1, Some(A), None))
    case 0x49 => Some(Entry(ROL, 1, Some(A), None))
    case 0x4A => Some(Entry(DEC, 1, Some(A), None))
    case 0x4C => Some(Entry(INC, 1, Some(A), None))
    case 0x4D => Some(Entry(TST, 1, Some(A), None))
    case 0x4F => Some(Entry(CLR, 1, Some(A), None))
    case 0x50 => Some(Entry(NEG, 1, Some(B), None))
    case 0x53 => Some(Entry(COM, 1, Some(B), None))
    case 0x54 => Some(Entry(LSR, 1, Some(B), None))
    case 0x56 => Some(Entry(ROR, 1, Some(B), None))
    case 0x57 => Some(Entry(ASR, 1, Some(B), None))
    case 0x58 => Some(Entry(ASL, 1, Some(B), None))
    case 0x59 => Some(Entry(ROL, 1, Some(B), None))
    case 0x5A => Some(Entry(DEC, 1, Some(B), None))
    case 0x5C => Some(Entry(INC, 1, Some(B), None))
    case 0x5D => Some(Entry(TST, 1, Some(B), None))
    case 0x5F => Some(Entry(CLR, 1, Some(B), None))
    case 0x60 => Some(Entry(NEG, 2, None, Some(IND)))
    case 0x63 => Some(Entry(COM, 2, None, Some(IND)))
    case 0x64 => Some(Entry(LSR, 2, None, Some(IND)))
    case 0x66 => Some(Entry(ROR, 2, None, Some(IND)))
    case 0x67 => Some(Entry(ASR, 2, None, Some(IND)))
    case 0x68 => Some(Entry(ASL, 2, None, Some(IND)))
    case 0x69 => Some(Entry(ROL, 2, None, Some(IND)))
    case 0x6A => Some(Entry(DEC, 2, None, Some(IND)))
    case 0x6C => Some(Entry(INC, 2, None, Some(IND)))
    case 0x6D => Some(Entry(TST, 2, None, Some(IND)))
    case 0x6E => Some(Entry(JMP, 2, None, Some(IND)))
    case 0x6F => Some(Entry(CLR, 2, None, Some(IND)))
    case 0x70 => Some(Entry(NEG, 3, None, Some(EXT)))
    case 0x73 => Some(Entry(COM, 3, None, Some(EXT)))
    case 0x74 => Some(Entry(LSR, 3, None, Some(EXT)))
    case 0x76 => Some(Entry(ROR, 3, None, Some(EXT)))
    case 0x77 => Some(Entry(ASR, 3, None, Some(EXT)))
    case 0x78 => Some(Entry(ASL, 3, None, Some(EXT)))
    case 0x79 => Some(Entry(ROL, 3, None, Some(EXT)))
    case 0x7A => Some(Entry(DEC, 3, None, Some(EXT)))
    case 0x7C => Some(Entry(INC, 3, None, Some(EXT)))
    case 0x7D => Some(Entry(TST, 3, None, Some(EXT)))
    case 0x7E => Some(Entry(JMP, 3, None, Some(EXT)))
    case 0x7F => Some(Entry(CLR, 3, None, Some(EXT)))
    case _ => None
  }

  /** Rows for opcodes 0x80 to 0xBF. */
  function Block80(opcode: Byte): (r: Option<Entry>)
    requires 0x80 <= opcode < 0xC0
    ensures r.Some? && opcode != 0x8E ==> LengthFitsMode(r.value)
    ensures r.Some? && InAluGrid(opcode) ==> r.value == AluGridEntry(opcode)
  {
    match opcode
    case 0x80 => Some(Entry(SUB, 2, Some(A), Some(IMM)))
    case 0x81 => Some(Entry(CMP, 2, Some(A), Some(IMM)))
    case 0x82 => Some(Entry(SBC, 2, Some(A), Some(IMM)))
    case 0x84 => Some(Entry(AND, 2, Some(A), Some(IMM)))
    case 0x85 => Some(Entry(BIT, 2, Some(A), Some(IMM)))
    case 0x86 => Some(Entry(LDA, 2, Some(A), Some(IMM)))
    case 0x88 => Some(Entry(EOR, 2, Some(A), Some(IMM)))
    case 0x89 => Some(Entry(ADC, 2, Some(A), Some(IMM)))
    case 0x8A => Some(Entry(ORA, 2, Some(A), Some(IMM)))
    case 0x8B => Some(Entry(ADD, 2, Some(A), Some(IMM)))
    case 0x8C => Some(Entry(CPX, 3, Some(A), Some(IMM)))
    case 0x8D => Some(Entry(BSR, 2, None, Some(REL)))
    case 0x8E => Some(Entry(LOS, 2, None, Some(IMM)))
    case 0x90 => Some(Entry(SUB, 2, Some(A), Some(DIR)))
    case 0x91 => Some(Entry(CMP, 2, Some(A), Some(DIR)))
    case 0x92 => Some(Entry(SBC, 2, Some(A), Some(DIR)))
    case 0x94 => Some(Entry(AND, 2, Some(A), Some(DIR)))
    case 0x95 => Some(Entry(BIT, 2, Some(A), Some(DIR)))
    case 0x96 => Some(Entry(LDA, 2, Some(A), Some(DIR)))
    case 0x97 => Some(Entry(STA, 2, Some(A), Some(DIR)))
    case 0x98 => Some(Entry(EOR, 2, Some(A), Some(DIR)))
    case 0x99 => Some(Entry(ADC, 2, Some(A), Some(DIR)))
    case 0x9A => Some(Entry(ORA, 2, Some(A), Some(DIR)))
    case 0x9B => Some(Entry(ADD, 2, Some(A), Some(DIR)))
    case 0x9C => Some(Entry(CPX, 2, None, Some(DIR)))
    case 0x9E => Some(Entry(LOS, 2, None, Some(DIR)))
    case 0x9F => Some(Entry(STS, 2, None, Some(DIR)))
    case 0xA0 => Some(Entry(SUB, 2, Some(A), Some(IND)))
    case 0xA1 => Some(Entry(CMP, 2, Some(A), Some(IND)))
    case 0xA2 => Some(Entry(SBC, 2, Some(A), Some(IND)))
    case 0xA4 => Some(Entry(AND, 2, Some(A), Some(IND)))
    case 0xA5 => Some(Entry(BIT, 2, Some(A), Some(IND)))
    case 0xA6 => Some(Entry(LDA, 2, Some(A), Some(IND)))
    case 0xA7 => Some(Entry(STA, 2, Some(A), Some(IND)))
    case 0xA8 => Some(Entry(EOR, 2, Some(A), Some(IND)))
    case 0xA9 => Some(Entry(ADC, 2, Some(A), Some(IND)))
    case 0xAA => Some(Entry(ORA, 2, Some(A), Some(IND)))
    case 0xAB => Some(Entry(ADD, 2, Some(A), Some(IND)))
    case 0xAC => Some(Entry(CPX, 2, None, Some(IND)))
    case 0xAD => Some(Entry(JSR, 2, None, Some(IND)))
    case 0xAE => Some(Entry(LOS, 2, None, Some(IND)))
    case 0xAF => Some(Entry(STS, 2, None, Some(IND)))
    case 0xB0 => Some(Entry(SUB, 3, Some(A), Some(EXT)))
    case 0xB1 => Some(Entry(CMP, 3, Some(A), Some(EXT)))
    case 0xB2 => Some(Entry(SBC, 3, Some(A), Some(EXT)))
    case 0xB4 => Some(Entry(AND, 3, Some(A), Some(EXT)))
    case 0xB5 => Some(Entry(BIT, 3, Some(A), Some(EXT)))
    case 0xB6 => Some(Entry(LDA, 3, Some(A), Some(EXT)))
    case 0xB7 => Some(Entry(STA, 3, Some(A), Some(EXT)))
    case 0xB8 => Some(Entry(EOR, 3, Some(A), Some(EXT)))
    case 0xB9 => Some(Entry(ADC, 3, Some(A), Some(EXT)))
    case 0xBA => Some(Entry(ORA, 3, Some(A), Some(EXT)))
    case 0xBB => Some(Entry(ADD, 3, Some(A), Some(EXT)))
    case 0xBC => Some(Entry(CPX, 3, None, Some(EXT)))
    case 0xBD => Some(Entry(JSR, 3, None, Some(EXT)))
    case 0xBE => Some(Entry(LOS, 3, None, Some(EXT)))
    case 0xBF => Some(Entry(STS, 3, None, Some(EXT)))
    case _ => None
  }

  /** Rows for opcodes 0xC0 to 0xFF. */
  function BlockC0(opcode: Byte): (r: Option<Entry>)
    requires 0xC0 <= opcode
    ensures r.Some? ==> LengthFitsMode(r.value)
    ensures r.Some? && InAluGrid(opcode) && opcode != 0xF8 ==> r.value == AluGridEntry(opcode)
  {
    match opcode
    case 0xC0 => Some(Entry(SUB, 2, Some(B), Some(IMM)))
    case 0xC1 => Some(Entry(CMP, 2, Some(B), Some(IMM)))
    case 0xC2 => Some(Entry(SBC, 2, Some(B), Some(IMM)))
    case 0xC4 => Some(Entry(AND, 2, Some(B), Some(IMM)))
    case 0xC5 => Some(Entry(BIT, 2, Some(B), Some(IMM)))
    case 0xC6 => Some(Entry(LDA, 2, Some(B), Some(IMM)))
    case 0xC8 => Some(Entry(EOR, 2, Some(B), Some(IMM)))
    case 0xC9 => Some(Entry(ADC, 2, Some(B), Some(IMM)))
    case 0xCA => Some(Entry(ORA, 2, Some(B), Some(IMM)))
    case 0xCB => Some(Entry(ADD, 2, Some(B), Some(IMM)))
    case 0xCE => Some(Entry(LDX, 3, None, Some(IMM)))
    case 0xD0 => Some(Entry(SUB, 2, Some(B), Some(DIR)))
    case 0xD1 => Some(Entry(CMP, 2, Some(B), Some(DIR)))
    case 0xD2 => Some(Entry(SBC, 2, Some(B), Some(DIR)))
    case 0xD4 => Some(Entry(AND, 2, Some(B), Some(DIR)))
    case 0xD5 => Some(Entry(BIT, 2, Some(B), Some(DIR)))
    case 0xD6 => Some(Entry(LDA, 2, Some(B), Some(DIR)))
    case 0xD7 => Some(Entry(STA, 2, Some(B), Some(DIR)))
    case 0xD8 => Some(Entry(EOR, 2, Some(B), Some(DIR)))
    case 0xD9 => Some(Entry(ADC, 2, Some(B), Some(DIR)))
    case 0xDA => Some(Entry(ORA, 2, Some(B), Some(DIR)))
    case 0xDB => Some(Entry(ADD, 2, Some(B), Some(DIR)))
    case 0xDE => Some(Entry(LDX, 2, None, Some(DIR)))
    case 0xDF => Some(Entry(STX, 2, None, Some(DIR)))
    case 0xE0 => Some(Entry(SUB, 2, Some(B), Some(IND)))
    case 0xE1 => Some(Entry(CMP, 2, Some(B), Some(IND)))
    case 0xE2 => Some(Entry(SBC, 2, Some(B), Some(IND)))
    case 0xE4 => Some(Entry(AND, 2, Some(B), Some(IND)))
    case 0xE5 => Some(Entry(BIT, 2, Some(B), Some(IND)))
    case 0xE6 => Some(Entry(LDA, 2, Some(B), Some(IND)))
    case 0xE7 => Some(Entry(STA, 2, Some(B), Some(IND)))
    case 0xE8 => Some(Entry(EOR, 2, Some(B), Some(IND)))
    case 0xE9 => Some(Entry(ADC, 2, Some(B), Some(IND)))
    case 0xEA => Some(Entry(ORA, 2, Some(B), Some(IND)))
    case 0xEB => Some(Entry(ADD, 2, Some(B), Some(IND)))
    case 0xEE => Some(Entry(LDX, 2, None, Some(IND)))
    case 0xEF => Some(Entry(STX, 2, None, Some(IND)))
    case 0xF0 => Some(Entry(SUB, 3, Some(B), Some(EXT)))
    case 0xF1 => Some(Entry(CMP, 3, Some(B), Some(EXT)))
    case 0xF2 => Some(Entry(SBC, 3, Some(B), Some(EXT)))
    case 0xF4 => Some(Entry(AND, 3, Some(B), Some(EXT)))
    case 0xF5 => Some(Entry(BIT, 3, Some(B), Some(EXT)))
    case 0xF6 => Some(Entry(LDA, 3, Some(B), Some(EXT)))
    case 0xF7 => Some(Entry(STA, 3, Some(B), Some(EXT)))
    case 0xF8 => Some(Entry(ADC, 3, Some(B), Some(EXT)))
    case 0xF9 => Some(Entry(ADC, 3, Some(B), Some(EXT)))
    case 0xFA => Some(Entry(ORA, 3, Some(B), Some(EXT)))
    case 0xFB => Some(Entry(ADD, 3, Some(B), Some(EXT)))
    case 0xFE => Some(Entry(LDX, 3, None, Some(EXT)))
    case 0xFF => Some(Entry(STX, 3, None, Some(EXT)))
    case _ => None
  }

  // ---- Properties of the table and of the classification lists ----

  /** The conditional-branch list is the contiguous range 0x22..0x2F. */
  lemma BranchListIsRange(b: Byte)
    ensures b in BranchInstructions <==> 0x22 <= b <= 0x2F
  {
  }

  /** Every conditional-branch opcode has a two-byte relative row. */
  lemma BranchIsRelative(b: Byte)
    requires b in BranchInstructions
    ensures Instruction(b).Some? && Instruction(b).value.mode == Some(REL) && Instruction(b).value.length == 2
  {
    BranchListIsRange(b);
  }

  /** The jump list holds one opcode per target mode: relative BRA, indexed
      JMP and extended JMP. */
  lemma JumpsCoverModes()
    ensures Instruction(0x20) == Some(Entry(BRA, 2, None, Some(REL)))
    ensures Instruction(0x6E) == Some(Entry(JMP, 2, None, Some(IND)))
    ensures Instruction(0x7E) == Some(Entry(JMP, 3, None, Some(EXT)))
  {
  }

  /** The call list likewise: relative BSR, indexed JSR and extended JSR. */
  lemma CallsCoverModes()
    ensures Instruction(0x8D) == Some(Entry(BSR, 2, None, Some(REL)))
    ensures Instruction(0xAD) == Some(Entry(JSR, 2, None, Some(IND)))
    ensures Instruction(0xBD) == Some(Entry(JSR, 3, None, Some(EXT)))
  {
  }

  /** No opcode sits in two of the four classification lists, and the one
      return opcode is RTS. */
  lemma ListsDisjoint(b: Byte)
    ensures b in BranchInstructions ==> b !in JmpInstructions && b !in CallInstructions && b !in ReturnInstructions
    ensures b in JmpInstructions ==> b !in CallInstructions && b !in ReturnInstructions
    ensures b in CallInstructions ==> b !in ReturnInstructions
    ensures b in ReturnInstructions <==> b == 0x39
  {
  }

  /** The return opcode's row is the one-byte RTS. */
  lemma ReturnIsRts()
    ensures Instruction(0x39) == Some(Entry(RTS, 1, None, None))
  {
  }

  /** Bytes the table leaves out have no row. */
  lemma UnassignedOpcodes(b: Byte)
    requires b in {0x00, 0x02, 0x03, 0x04, 0x05, 0x21, 0x8F, 0xCC}
    ensures Instruction(b).None?
  {
  }

  /** As written, 0xF8 repeats 0xF9's ADC B extended row, where its grid
      position calls for EOR B extended. */
  lemma DuplicateAdcRow()
    ensures TableAsWritten(0xF8) == TableAsWritten(0xF9) == Some(Entry(ADC, 3, Some(B), Some(EXT)))
    ensures InAluGrid(0xF8) && AluGridEntry(0xF8) == Entry(EOR, 3, Some(B), Some(EXT))
    ensures TableAsWritten(0xF8).value != AluGridEntry(0xF8)
  {
  }

  /** As written, the immediate stack-pointer load reads one operand byte,
      though the table's other 16-bit register immediates, CPX (0x8C) and
      LDX (0xCE), read a word, as the 6800's LDS # does. The DIR and EXT
      rows are listed for contrast only: their lengths follow from the
      address width, one byte direct and a word extended, as for any
      mnemonic. */
  lemma ShortStackImmediate()
    ensures TableAsWritten(0x8E) == Some(Entry(LOS, 2, None, Some(IMM)))
    ensures !LengthFitsMode(TableAsWritten(0x8E).value)
    ensures TableAsWritten(0x8C) == Some(Entry(CPX, 3, Some(A), Some(IMM)))
    ensures TableAsWritten(0x9E) == Some(Entry(LOS, 2, None, Some(DIR)))
    ensures TableAsWritten(0xBE) == Some(Entry(LOS, 3, None, Some(EXT)))
    ensures TableAsWritten(0xCE) == Some(Entry(LDX, 3, None, Some(IMM)))
  {
  }

  /** Of the corrected table's immediate rows, exactly those of CPX, LDX and
      LOS carry a word operand. */
  lemma ImmediateWidths(b: Byte)
    requires Instruction(b).Some? && Instruction(b).value.mode == Some(IMM)
    ensures Instruction(b).value.length == 3 <==> Instruction(b).value.mnemonic in {CPX, LDX, LOS}
  {
    assert LengthFitsMode(Instruction(b).value);
  }

  /** In the corrected table the column at low nibble 8 is EOR throughout,
      0xF8 included. */
  lemma EorColumn(b: Byte)
    requires b in {0x88, 0x98, 0xA8, 0xB8, 0xC8, 0xD8, 0xE8, 0xF8}
    ensures Instruction(b).Some? && Instruction(b).value.mnemonic == EOR
  {
    assert InAluGrid(b) && AluOperation(b % 0x10) == EOR;
  }

  // ---- The five-field descriptor unpacked by the decoder ----

  /** Registers of the architecture (architecture.py:21-27). */
  datatype Register = SP | PC | IX | ACCA | ACCB

  datatype AddressMode = Inherent | Accumulator | Immediate | Direct | Extended | Indexed | Relative

  datatype InstructionClass = ConditionalBranch | UnconditionalBranch | Call | Return | Dual | Other

  /** (mnemonic, length, operand, class, mode) as architecture.py:108 unpacks it. */
  datatype Descriptor = Descriptor(
    mnemonic: Mnemonic, length: nat, operand: Option<Register>, cls: InstructionClass, mode: AddressMode)

  function RegisterOf(tag: AccumulatorTag): Register
  {
    match tag
    case A => ACCA
    case B => ACCB
  }

  /** A row without a mode string addresses an accumulator when it names one,
      and nothing otherwise. */
  function ModeOf(e: Entry): AddressMode
  {
    match e.mode
    case Some(REL) => Relative
    case Some(IMM) => Immediate
    case Some(DIR) => Direct
    case Some(EXT) => Extended
    case Some(IND) => Indexed
    case None => if e.accumulator.Some? then Accumulator else Inherent
  }

  /** The class comes from the four lists; outside them an opcode in `dual`
      selects one of two accumulators, and anything else is a plain data
      operation. */
  function ClassOf(opcode: Byte, dual: set<Byte>): InstructionClass
  {
    if opcode in BranchInstructions then ConditionalBranch
    else if opcode in JmpInstructions then UnconditionalBranch
    else if opcode in CallInstructions then Call
    else if opcode in ReturnInstructions then Return
    else if opcode in dual then Dual
    else Other
  }

  /** The descriptor of an opcode, None when the table has no row for it. */
  function Lookup(opcode: Byte, dual: set<Byte>): (r: Option<Descriptor>)
    ensures r.Some? <==> Instruction(opcode).Some?
    ensures r.Some? ==> r.value.mnemonic == Instruction(opcode).value.mnemonic
    ensures r.Some? ==> r.value.length == Instruction(opcode).value.length
    ensures r.Some? ==> r.value.mode == ModeOf(Instruction(opcode).value)
    ensures r.Some? ==> (r.value.mode == Accumulator <==> r.value.operand.Some? && Instruction(opcode).value.mode.None?)
    ensures r.Some? ==> (r.value.operand == Some(ACCA) <==> Instruction(opcode).value.accumulator == Some(A))
    ensures r.Some? ==> (r.value.operand == Some(ACCB) <==> Instruction(opcode).value.accumulator == Some(B))
    ensures r.Some? ==> (r.value.operand.None? <==> Instruction(opcode).value.accumulator.None?)
  {
    match Instruction(opcode)
    case None => None
    case Some(e) =>
      var operand := if e.accumulator.Some? then Some(RegisterOf(e.accumulator.value)) else None;
      Some(Descriptor(e.mnemonic, e.length, operand, ClassOf(opcode, dual), ModeOf(e)))
  }

  /** The encoded length of a descriptor as its mode dictates. */
  ghost predicate LengthFitsAddressMode(d: Descriptor)
  {
    match d.mode
    case Inherent => d.length == 1
    case Accumulator => d.length == 1
    case Relative => d.length == 2
    case Direct => d.length == 2
    case Indexed => d.length == 2
    case Extended => d.length == 3
    case Immediate => d.length == (if d.mnemonic in {CPX, LDX, LOS} then 3 else 2)
  }

  /** Every descriptor's length fits its mode, and only accumulators are
      named as operands. */
  lemma DescriptorShape(opcode: Byte, dual: set<Byte>)
    requires Lookup(opcode, dual).Some?
    ensures LengthFitsAddressMode(Lookup(opcode, dual).value)
    ensures Lookup(opcode, dual).value.operand in {None, Some(ACCA), Some(ACCB)}
  {
    var e := Instruction(opcode).value;
    assert LengthFitsMode(e);
  }

  /** The class of an opcode is the list it appears in, in both directions. */
  lemma ClassFollowsLists(opcode: Byte, dual: set<Byte>)
    requires Lookup(opcode, dual).Some?
    ensures var c := Lookup(opcode, dual).value.cls;
      && (c == ConditionalBranch <==> opcode in BranchInstructions)
      && (c == UnconditionalBranch <==> opcode in JmpInstructions)
      && (c == Call <==> opcode in CallInstructions)
      && (c == Return <==> opcode == 0x39)
      && (c == Dual <==> opcode in dual && opcode !in BranchInstructions + JmpInstructions + CallInstructions + ReturnInstructions)
  {
    ListsDisjoint(opcode);
  }

  /** Branches, jumps and calls always address their target relatively,
      through the index register, or by an extended address: never
      without an operand. */
  lemma ControlTransfersHaveTargets(opcode: Byte, dual: set<Byte>)
    requires Lookup(opcode, dual).Some?
    requires Lookup(opcode, dual).value.cls in {ConditionalBranch, UnconditionalBranch, Call}
    ensures Lookup(opcode, dual).value.mode in {Relative, Indexed, Extended}
  {
    ListsDisjoint(opcode);
    if opcode in BranchInstructions {
      BranchIsRelative(opcode);
    } else if opcode in JmpInstructions {
      JumpsCoverModes();
    } else {
      CallsCoverModes();
    }
  }
}
