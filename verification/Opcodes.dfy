/** The assembler's opcode tables and the disassembler's, written down separately in the two programs. */
module Opcodes {
  import opened Bits
  import opened Text

  datatype Mnemonic =
    | ADC | ALR | ANC | AND | ANE | ARR | ASL | BCC | BCS | BEQ | BIT | BMI | BNE | BPL | BRK | BVC | BVS | CLC
    | CLD | CLI | CLV | CMP | CPX | CPY | DCP | DEC | DEX | DEY | EOR | INC | INX | INY | ISC | JAM | JMP | JSR
    | LAS | LAX | LDA | LDX | LDY | LSR | LXA | NOP | ORA | PHA | PHP | PLA | PLP | RLA | ROL | ROR | RRA | RTI
    | RTS | SAX | SBC | SBX | SEC | SED | SEI | SHA | SHX | SHY | SLO | SRE | STA | STX | STY | TAS | TAX | TAY
    | TSX | TXA | TXS | TYA

  datatype Mode = Imp | Acc | Imm | Zp | Zpx | Zpy | Abso | Absx | Absy | Ind | Indx | Indy | Rel

  /** `_MN`. */
  function AsmName(op: byte): Mnemonic {
    match op
    case 0x00 => BRK case 0x01 => ORA case 0x02 => JAM case 0x03 => SLO case 0x04 => NOP case 0x05 => ORA case 0x06 => ASL case 0x07 => SLO
    case 0x08 => PHP case 0x09 => ORA case 0x0A => ASL case 0x0B => ANC case 0x0C => NOP case 0x0D => ORA case 0x0E => ASL case 0x0F => SLO
    case 0x10 => BPL case 0x11 => ORA case 0x12 => JAM case 0x13 => SLO case 0x14 => NOP case 0x15 => ORA case 0x16 => ASL case 0x17 => SLO
    case 0x18 => CLC case 0x19 => ORA case 0x1A => NOP case 0x1B => SLO case 0x1C => NOP case 0x1D => ORA case 0x1E => ASL case 0x1F => SLO
    case 0x20 => JSR case 0x21 => AND case 0x22 => JAM case 0x23 => RLA case 0x24 => BIT case 0x25 => AND case 0x26 => ROL case 0x27 => RLA
    case 0x28 => PLP case 0x29 => AND case 0x2A => ROL case 0x2B => ANC case 0x2C => BIT case 0x2D => AND case 0x2E => ROL case 0x2F => RLA
    case 0x30 => BMI case 0x31 => AND case 0x32 => JAM case 0x33 => RLA case 0x34 => NOP case 0x35 => AND case 0x36 => ROL case 0x37 => RLA
    case 0x38 => SEC case 0x39 => AND case 0x3A => NOP case 0x3B => RLA case 0x3C => NOP case 0x3D => AND case 0x3E => ROL case 0x3F => RLA
    case 0x40 => RTI case 0x41 => EOR case 0x42 => JAM case 0x43 => SRE case 0x44 => NOP case 0x45 => EOR case 0x46 => LSR case 0x47 => SRE
    case 0x48 => PHA case 0x49 => EOR case 0x4A => LSR case 0x4B => ALR case 0x4C => JMP case 0x4D => EOR case 0x4E => LSR case 0x4F => SRE
    case 0x50 => BVC case 0x51 => EOR case 0x52 => JAM case 0x53 => SRE case 0x54 => NOP case 0x55 => EOR case 0x56 => LSR case 0x57 => SRE
    case 0x58 => CLI case 0x59 => EOR case 0x5A => NOP case 0x5B => SRE case 0x5C => NOP case 0x5D => EOR case 0x5E => LSR case 0x5F => SRE
    case 0x60 => RTS case 0x61 => ADC case 0x62 => JAM case 0x63 => RRA case 0x64 => NOP case 0x65 => ADC case 0x66 => ROR case 0x67 => RRA
    case 0x68 => PLA case 0x69 => ADC case 0x6A => ROR case 0x6B => ARR case 0x6C => JMP case 0x6D => ADC case 0x6E => ROR case 0x6F => RRA
    case 0x70 => BVS case 0x71 => ADC case 0x72 => JAM case 0x73 => RRA case 0x74 => NOP case 0x75 => ADC case 0x76 => ROR case 0x77 => RRA
    case 0x78 => SEI case 0x79 => ADC case 0x7A => NOP case 0x7B => RRA case 0x7C => NOP case 0x7D => ADC case 0x7E => ROR case 0x7F => RRA
    case 0x80 => NOP case 0x81 => STA case 0x82 => NOP case 0x83 => SAX case 0x84 => STY case 0x85 => STA case 0x86 => STX case 0x87 => SAX
    case 0x88 => DEY case 0x89 => NOP case 0x8A => TXA case 0x8B => ANE case 0x8C => STY case 0x8D => STA case 0x8E => STX case 0x8F => SAX
    case 0x90 => BCC case 0x91 => STA case 0x92 => JAM case 0x93 => SHA case 0x94 => STY case 0x95 => STA case 0x96 => STX case 0x97 => SAX
    case 0x98 => TYA case 0x99 => STA case 0x9A => TXS case 0x9B => TAS case 0x9C => SHY case 0x9D => STA case 0x9E => SHX case 0x9F => SHA
    case 0xA0 => LDY case 0xA1 => LDA case 0xA2 => LDX case 0xA3 => LAX case 0xA4 => LDY case 0xA5 => LDA case 0xA6 => LDX case 0xA7 => LAX
    case 0xA8 => TAY case 0xA9 => LDA case 0xAA => TAX case 0xAB => LXA case 0xAC => LDY case 0xAD => LDA case 0xAE => LDX case 0xAF => LAX
    case 0xB0 => BCS case 0xB1 => LDA case 0xB2 => JAM case 0xB3 => LAX case 0xB4 => LDY case 0xB5 => LDA case 0xB6 => LDX case 0xB7 => LAX
    case 0xB8 => CLV case 0xB9 => LDA case 0xBA => TSX case 0xBB => LAS case 0xBC => LDY case 0xBD => LDA case 0xBE => LDX case 0xBF => LAX
    case 0xC0 => CPY case 0xC1 => CMP case 0xC2 => NOP case 0xC3 => DCP case 0xC4 => CPY case 0xC5 => CMP case 0xC6 => DEC case 0xC7 => DCP
    case 0xC8 => INY case 0xC9 => CMP case 0xCA => DEX case 0xCB => SBX case 0xCC => CPY case 0xCD => CMP case 0xCE => DEC case 0xCF => DCP
    case 0xD0 => BNE case 0xD1 => CMP case 0xD2 => JAM case 0xD3 => DCP case 0xD4 => NOP case 0xD5 => CMP case 0xD6 => DEC case 0xD7 => DCP
    case 0xD8 => CLD case 0xD9 => CMP case 0xDA => NOP case 0xDB => DCP case 0xDC => NOP case 0xDD => CMP case 0xDE => DEC case 0xDF => DCP
    case 0xE0 => CPX case 0xE1 => SBC case 0xE2 => NOP case 0xE3 => ISC case 0xE4 => CPX case 0xE5 => SBC case 0xE6 => INC case 0xE7 => ISC
    case 0xE8 => INX case 0xE9 => SBC case 0xEA => NOP case 0xEB => SBC case 0xEC => CPX case 0xED => SBC case 0xEE => INC case 0xEF => ISC
    case 0xF0 => BEQ case 0xF1 => SBC case 0xF2 => JAM case 0xF3 => ISC case 0xF4 => NOP case 0xF5 => SBC case 0xF6 => INC case 0xF7 => ISC
    case 0xF8 => SED case 0xF9 => SBC case 0xFA => NOP case 0xFB => ISC case 0xFC => NOP case 0xFD => SBC case 0xFE => INC case _ => ISC
  }

  /** `_AM`. */
  function AsmMode(op: byte): Mode {
    match op
    case 0x00 => Imp case 0x01 => Indx case 0x02 => Imp case 0x03 => Indx case 0x04 => Zp case 0x05 => Zp case 0x06 => Zp case 0x07 => Zp
    case 0x08 => Imp case 0x09 => Imm case 0x0A => Acc case 0x0B => Imm case 0x0C => Abso case 0x0D => Abso case 0x0E => Abso case 0x0F => Abso
    case 0x10 => Rel case 0x11 => Indy case 0x12 => Imp case 0x13 => Indy case 0x14 => Zpx case 0x15 => Zpx case 0x16 => Zpx case 0x17 => Zpx
    case 0x18 => Imp case 0x19 => Absy case 0x1A => Imp case 0x1B => Absy case 0x1C => Absx case 0x1D => Absx case 0x1E => Absx case 0x1F => Absx
    case 0x20 => Abso case 0x21 => Indx case 0x22 => Imp case 0x23 => Indx case 0x24 => Zp case 0x25 => Zp case 0x26 => Zp case 0x27 => Zp
    case 0x28 => Imp case 0x29 => Imm case 0x2A => Acc case 0x2B => Imm case 0x2C => Abso case 0x2D => Abso case 0x2E => Abso case 0x2F => Abso
    case 0x30 => Rel case 0x31 => Indy case 0x32 => Imp case 0x33 => Indy case 0x34 => Zpx case 0x35 => Zpx case 0x36 => Zpx case 0x37 => Zpx
    case 0x38 => Imp case 0x39 => Absy case 0x3A => Imp case 0x3B => Absy case 0x3C => Absx case 0x3D => Absx case 0x3E => Absx case 0x3F => Absx
    case 0x40 => Imp case 0x41 => Indx case 0x42 => Imp case 0x43 => Indx case 0x44 => Zp case 0x45 => Zp case 0x46 => Zp case 0x47 => Zp
    case 0x48 => Imp case 0x49 => Imm case 0x4A => Acc case 0x4B => Imm case 0x4C => Abso case 0x4D => Abso case 0x4E => Abso case 0x4F => Abso
    case 0x50 => Rel case 0x51 => Indy case 0x52 => Imp case 0x53 => Indy case 0x54 => Zpx case 0x55 => Zpx case 0x56 => Zpx case 0x57 => Zpx
    case 0x58 => Imp case 0x59 => Absy case 0x5A => Imp case 0x5B => Absy case 0x5C => Absx case 0x5D => Absx case 0x5E => Absx case 0x5F => Absx
    case 0x60 => Imp case 0x61 => Indx case 0x62 => Imp case 0x63 => Indx case 0x64 => Zp case 0x65 => Zp case 0x66 => Zp case 0x67 => Zp
    case 0x68 => Imp case 0x69 => Imm case 0x6A => Acc case 0x6B => Imm case 0x6C => Ind case 0x6D => Abso case 0x6E => Abso case 0x6F => Abso
    case 0x70 => Rel case 0x71 => Indy case 0x72 => Imp case 0x73 => Indy case 0x74 => Zpx case 0x75 => Zpx case 0x76 => Zpx case 0x77 => Zpx
    case 0x78 => Imp case 0x79 => Absy case 0x7A => Imp case 0x7B => Absy case 0x7C => Absx case 0x7D => Absx case 0x7E => Absx case 0x7F => Absx
    case 0x80 => Imm case 0x81 => Indx case 0x82 => Imm case 0x83 => Indx case 0x84 => Zp case 0x85 => Zp case 0x86 => Zp case 0x87 => Zp
    case 0x88 => Imp case 0x89 => Imm case 0x8A => Imp case 0x8B => Imm case 0x8C => Abso case 0x8D => Abso case 0x8E => Abso case 0x8F => Abso
    case 0x90 => Rel case 0x91 => Indy case 0x92 => Imp case 0x93 => Indy case 0x94 => Zpx case 0x95 => Zpx case 0x96 => Zpy case 0x97 => Zpy
    case 0x98 => Imp case 0x99 => Absy case 0x9A => Imp case 0x9B => Absy case 0x9C => Absx case 0x9D => Absx case 0x9E => Absy case 0x9F => Absy
    case 0xA0 => Imm case 0xA1 => Indx case 0xA2 => Imm case 0xA3 => Indx case 0xA4 => Zp case 0xA5 => Zp case 0xA6 => Zp case 0xA7 => Zp
    case 0xA8 => Imp case 0xA9 => Imm case 0xAA => Imp case 0xAB => Imm case 0xAC => Abso case 0xAD => Abso case 0xAE => Abso case 0xAF => Abso
    case 0xB0 => Rel case 0xB1 => Indy case 0xB2 => Imp case 0xB3 => Indy case 0xB4 => Zpx case 0xB5 => Zpx case 0xB6 => Zpy case 0xB7 => Zpy
    case 0xB8 => Imp case 0xB9 => Absy case 0xBA => Imp case 0xBB => Absy case 0xBC => Absx case 0xBD => Absx case 0xBE => Absy case 0xBF => Absy
    case 0xC0 => Imm case 0xC1 => Indx case 0xC2 => Imm case 0xC3 => Indx case 0xC4 => Zp case 0xC5 => Zp case 0xC6 => Zp case 0xC7 => Zp
    case 0xC8 => Imp case 0xC9 => Imm case 0xCA => Imp case 0xCB => Imm case 0xCC => Abso case 0xCD => Abso case 0xCE => Abso case 0xCF => Abso
    case 0xD0 => Rel case 0xD1 => Indy case 0xD2 => Imp case 0xD3 => Indy case 0xD4 => Zpx case 0xD5 => Zpx case 0xD6 => Zpx case 0xD7 => Zpx
    case 0xD8 => Imp case 0xD9 => Absy case 0xDA => Imp case 0xDB => Absy case 0xDC => Absx case 0xDD => Absx case 0xDE => Absx case 0xDF => Absx
    case 0xE0 => Imm case 0xE1 => Indx case 0xE2 => Imm case 0xE3 => Indx case 0xE4 => Zp case 0xE5 => Zp case 0xE6 => Zp case 0xE7 => Zp
    case 0xE8 => Imp case 0xE9 => Imm case 0xEA => Imp case 0xEB => Imm case 0xEC => Abso case 0xED => Abso case 0xEE => Abso case 0xEF => Abso
    case 0xF0 => Rel case 0xF1 => Indy case 0xF2 => Imp case 0xF3 => Indy case 0xF4 => Zpx case 0xF5 => Zpx case 0xF6 => Zpx case 0xF7 => Zpx
    case 0xF8 => Imp case 0xF9 => Absy case 0xFA => Imp case 0xFB => Absy case 0xFC => Absx case 0xFD => Absx case 0xFE => Absx case _ => Absx
  }

  /** `g_mn`. */
  function DisName(op: byte): Mnemonic {
    match op
    case 0x00 => BRK case 0x01 => ORA case 0x02 => JAM case 0x03 => SLO case 0x04 => NOP case 0x05 => ORA case 0x06 => ASL case 0x07 => SLO
    case 0x08 => PHP case 0x09 => ORA case 0x0A => ASL case 0x0B => ANC case 0x0C => NOP case 0x0D => ORA case 0x0E => ASL case 0x0F => SLO
    case 0x10 => BPL case 0x11 => ORA case 0x12 => JAM case 0x13 => SLO case 0x14 => NOP case 0x15 => ORA case 0x16 => ASL case 0x17 => SLO
    case 0x18 => CLC case 0x19 => ORA case 0x1A => NOP case 0x1B => SLO case 0x1C => NOP case 0x1D => ORA case 0x1E => ASL case 0x1F => SLO
    case 0x20 => JSR case 0x21 => AND case 0x22 => JAM case 0x23 => RLA case 0x24 => BIT case 0x25 => AND case 0x26 => ROL case 0x27 => RLA
    case 0x28 => PLP case 0x29 => AND case 0x2A => ROL case 0x2B => ANC case 0x2C => BIT case 0x2D => AND case 0x2E => ROL case 0x2F => RLA
    case 0x30 => BMI case 0x31 => AND case 0x32 => JAM case 0x33 => RLA case 0x34 => NOP case 0x35 => AND case 0x36 => ROL case 0x37 => RLA
    case 0x38 => SEC case 0x39 => AND case 0x3A => NOP case 0x3B => RLA case 0x3C => NOP case 0x3D => AND case 0x3E => ROL case 0x3F => RLA
    case 0x40 => RTI case 0x41 => EOR case 0x42 => JAM case 0x43 => SRE case 0x44 => NOP case 0x45 => EOR case 0x46 => LSR case 0x47 => SRE
    case 0x48 => PHA case 0x49 => EOR case 0x4A => LSR case 0x4B => ALR case 0x4C => JMP case 0x4D => EOR case 0x4E => LSR case 0x4F => SRE
    case 0x50 => BVC case 0x51 => EOR case 0x52 => JAM case 0x53 => SRE case 0x54 => NOP case 0x55 => EOR case 0x56 => LSR case 0x57 => SRE
    case 0x58 => CLI case 0x59 => EOR case 0x5A => NOP case 0x5B => SRE case 0x5C => NOP case 0x5D => EOR case 0x5E => LSR case 0x5F => SRE
    case 0x60 => RTS case 0x61 => ADC case 0x62 => JAM case 0x63 => RRA case 0x64 => NOP case 0x65 => ADC case 0x66 => ROR case 0x67 => RRA
    case 0x68 => PLA case 0x69 => ADC case 0x6A => ROR case 0x6B => ARR case 0x6C => JMP case 0x6D => ADC case 0x6E => ROR case 0x6F => RRA
    case 0x70 => BVS case 0x71 => ADC case 0x72 => JAM case 0x73 => RRA case 0x74 => NOP case 0x75 => ADC case 0x76 => ROR case 0x77 => RRA
    case 0x78 => SEI case 0x79 => ADC case 0x7A => NOP case 0x7B => RRA case 0x7C => NOP case 0x7D => ADC case 0x7E => ROR case 0x7F => RRA
    case 0x80 => NOP case 0x81 => STA case 0x82 => NOP case 0x83 => SAX case 0x84 => STY case 0x85 => STA case 0x86 => STX case 0x87 => SAX
    case 0x88 => DEY case 0x89 => NOP case 0x8A => TXA case 0x8B => ANE case 0x8C => STY case 0x8D => STA case 0x8E => STX case 0x8F => SAX
    case 0x90 => BCC case 0x91 => STA case 0x92 => JAM case 0x93 => SHA case 0x94 => STY case 0x95 => STA case 0x96 => STX case 0x97 => SAX
    case 0x98 => TYA case 0x99 => STA case 0x9A => TXS case 0x9B => TAS case 0x9C => SHY case 0x9D => STA case 0x9E => SHX case 0x9F => SHA
    case 0xA0 => LDY case 0xA1 => LDA case 0xA2 => LDX case 0xA3 => LAX case 0xA4 => LDY case 0xA5 => LDA case 0xA6 => LDX case 0xA7 => LAX
    case 0xA8 => TAY case 0xA9 => LDA case 0xAA => TAX case 0xAB => LXA case 0xAC => LDY case 0xAD => LDA case 0xAE => LDX case 0xAF => LAX
    case 0xB0 => BCS case 0xB1 => LDA case 0xB2 => JAM case 0xB3 => LAX case 0xB4 => LDY case 0xB5 => LDA case 0xB6 => LDX case 0xB7 => LAX
    case 0xB8 => CLV case 0xB9 => LDA case 0xBA => TSX case 0xBB => LAS case 0xBC => LDY case 0xBD => LDA case 0xBE => LDX case 0xBF => LAX
    case 0xC0 => CPY case 0xC1 => CMP case 0xC2 => NOP case 0xC3 => DCP case 0xC4 => CPY case 0xC5 => CMP case 0xC6 => DEC case 0xC7 => DCP
    case 0xC8 => INY case 0xC9 => CMP case 0xCA => DEX case 0xCB => SBX case 0xCC => CPY case 0xCD => CMP case 0xCE => DEC case 0xCF => DCP
    case 0xD0 => BNE case 0xD1 => CMP case 0xD2 => JAM case 0xD3 => DCP case 0xD4 => NOP case 0xD5 => CMP case 0xD6 => DEC case 0xD7 => DCP
    case 0xD8 => CLD case 0xD9 => CMP case 0xDA => NOP case 0xDB => DCP case 0xDC => NOP case 0xDD => CMP case 0xDE => DEC case 0xDF => DCP
    case 0xE0 => CPX case 0xE1 => SBC case 0xE2 => NOP case 0xE3 => ISC case 0xE4 => CPX case 0xE5 => SBC case 0xE6 => INC case 0xE7 => ISC
    case 0xE8 => INX case 0xE9 => SBC case 0xEA => NOP case 0xEB => SBC case 0xEC => CPX case 0xED => SBC case 0xEE => INC case 0xEF => ISC
    case 0xF0 => BEQ case 0xF1 => SBC case 0xF2 => JAM case 0xF3 => ISC case 0xF4 => NOP case 0xF5 => SBC case 0xF6 => INC case 0xF7 => ISC
    case 0xF8 => SED case 0xF9 => SBC case 0xFA => NOP case 0xFB => ISC case 0xFC => NOP case 0xFD => SBC case 0xFE => INC case _ => ISC
  }

  /** `g_dm`, its codes 0..12 read as the modes they number. */
  function DisMode(op: byte): Mode {
    match op
    case 0x00 => Imp case 0x01 => Indx case 0x02 => Imp case 0x03 => Indx case 0x04 => Zp case 0x05 => Zp case 0x06 => Zp case 0x07 => Zp
    case 0x08 => Imp case 0x09 => Imm case 0x0A => Acc case 0x0B => Imm case 0x0C => Abso case 0x0D => Abso case 0x0E => Abso case 0x0F => Abso
    case 0x10 => Rel case 0x11 => Indy case 0x12 => Imp case 0x13 => Indy case 0x14 => Zpx case 0x15 => Zpx case 0x16 => Zpx case 0x17 => Zpx
    case 0x18 => Imp case 0x19 => Absy case 0x1A => Imp case 0x1B => Absy case 0x1C => Absx case 0x1D => Absx case 0x1E => Absx case 0x1F => Absx
    case 0x20 => Abso case 0x21 => Indx case 0x22 => Imp case 0x23 => Indx case 0x24 => Zp case 0x25 => Zp case 0x26 => Zp case 0x27 => Zp
    case 0x28 => Imp case 0x29 => Imm case 0x2A => Acc case 0x2B => Imm case 0x2C => Abso case 0x2D => Abso case 0x2E => Abso case 0x2F => Abso
    case 0x30 => Rel case 0x31 => Indy case 0x32 => Imp case 0x33 => Indy case 0x34 => Zpx case 0x35 => Zpx case 0x36 => Zpx case 0x37 => Zpx
    case 0x38 => Imp case 0x39 => Absy case 0x3A => Imp case 0x3B => Absy case 0x3C => Absx case 0x3D => Absx case 0x3E => Absx case 0x3F => Absx
    case 0x40 => Imp case 0x41 => Indx case 0x42 => Imp case 0x43 => Indx case 0x44 => Zp case 0x45 => Zp case 0x46 => Zp case 0x47 => Zp
    case 0x48 => Imp case 0x49 => Imm case 0x4A => Acc case 0x4B => Imm case 0x4C => Abso case 0x4D => Abso case 0x4E => Abso case 0x4F => Abso
    case 0x50 => Rel case 0x51 => Indy case 0x52 => Imp case 0x53 => Indy case 0x54 => Zpx case 0x55 => Zpx case 0x56 => Zpx case 0x57 => Zpx
    case 0x58 => Imp case 0x59 => Absy case 0x5A => Imp case 0x5B => Absy case 0x5C => Absx case 0x5D => Absx case 0x5E => Absx case 0x5F => Absx
    case 0x60 => Imp case 0x61 => Indx case 0x62 => Imp case 0x63 => Indx case 0x64 => Zp case 0x65 => Zp case 0x66 => Zp case 0x67 => Zp
    case 0x68 => Imp case 0x69 => Imm case 0x6A => Acc case 0x6B => Imm case 0x6C => Ind case 0x6D => Abso case 0x6E => Abso case 0x6F => Abso
    case 0x70 => Rel case 0x71 => Indy case 0x72 => Imp case 0x73 => Indy case 0x74 => Zpx case 0x75 => Zpx case 0x76 => Zpx case 0x77 => Zpx
    case 0x78 => Imp case 0x79 => Absy case 0x7A => Imp case 0x7B => Absy case 0x7C => Absx case 0x7D => Absx case 0x7E => Absx case 0x7F => Absx
    case 0x80 => Imm case 0x81 => Indx case 0x82 => Imm case 0x83 => Indx case 0x84 => Zp case 0x85 => Zp case 0x86 => Zp case 0x87 => Zp
    case 0x88 => Imp case 0x89 => Imm case 0x8A => Imp case 0x8B => Imm case 0x8C => Abso case 0x8D => Abso case 0x8E => Abso case 0x8F => Abso
    case 0x90 => Rel case 0x91 => Indy case 0x92 => Imp case 0x93 => Indy case 0x94 => Zpx case 0x95 => Zpx case 0x96 => Zpy case 0x97 => Zpy
    case 0x98 => Imp case 0x99 => Absy case 0x9A => Imp case 0x9B => Absy case 0x9C => Absx case 0x9D => Absx case 0x9E => Absy case 0x9F => Absy
    case 0xA0 => Imm case 0xA1 => Indx case 0xA2 => Imm case 0xA3 => Indx case 0xA4 => Zp case 0xA5 => Zp case 0xA6 => Zp case 0xA7 => Zp
    case 0xA8 => Imp case 0xA9 => Imm case 0xAA => Imp case 0xAB => Imm case 0xAC => Abso case 0xAD => Abso case 0xAE => Abso case 0xAF => Abso
    case 0xB0 => Rel case 0xB1 => Indy case 0xB2 => Imp case 0xB3 => Indy case 0xB4 => Zpx case 0xB5 => Zpx case 0xB6 => Zpy case 0xB7 => Zpy
    case 0xB8 => Imp case 0xB9 => Absy case 0xBA => Imp case 0xBB => Absy case 0xBC => Absx case 0xBD => Absx case 0xBE => Absy case 0xBF => Absy
    case 0xC0 => Imm case 0xC1 => Indx case 0xC2 => Imm case 0xC3 => Indx case 0xC4 => Zp case 0xC5 => Zp case 0xC6 => Zp case 0xC7 => Zp
    case 0xC8 => Imp case 0xC9 => Imm case 0xCA => Imp case 0xCB => Imm case 0xCC => Abso case 0xCD => Abso case 0xCE => Abso case 0xCF => Abso
    case 0xD0 => Rel case 0xD1 => Indy case 0xD2 => Imp case 0xD3 => Indy case 0xD4 => Zpx case 0xD5 => Zpx case 0xD6 => Zpx case 0xD7 => Zpx
    case 0xD8 => Imp case 0xD9 => Absy case 0xDA => Imp case 0xDB => Absy case 0xDC => Absx case 0xDD => Absx case 0xDE => Absx case 0xDF => Absx
    case 0xE0 => Imm case 0xE1 => Indx case 0xE2 => Imm case 0xE3 => Indx case 0xE4 => Zp case 0xE5 => Zp case 0xE6 => Zp case 0xE7 => Zp
    case 0xE8 => Imp case 0xE9 => Imm case 0xEA => Imp case 0xEB => Imm case 0xEC => Abso case 0xED => Abso case 0xEE => Abso case 0xEF => Abso
    case 0xF0 => Rel case 0xF1 => Indy case 0xF2 => Imp case 0xF3 => Indy case 0xF4 => Zpx case 0xF5 => Zpx case 0xF6 => Zpx case 0xF7 => Zpx
    case 0xF8 => Imp case 0xF9 => Absy case 0xFA => Imp case 0xFB => Absy case 0xFC => Absx case 0xFD => Absx case 0xFE => Absx case _ => Absx
  }

  /** `g_dl`. */
  function Length(m: Mode): nat {
    match m
    case Imp => 1
    case Acc => 1
    case Abso => 3
    case Absx => 3
    case Absy => 3
    case Ind => 3
    case _ => 2
  }

  /** The two programs agree on every opcode's mnemonic and mode. */
  lemma TablesAgree(op: byte)
    ensures AsmName(op) == DisName(op) && AsmMode(op) == DisMode(op)
  {
  }

  predicate IsBranch(mn: Mnemonic) {
    mn == BCC || mn == BCS || mn == BEQ || mn == BMI || mn == BNE || mn == BPL || mn == BVC || mn == BVS
  }

  /** Branches exist in relative mode only. */
  lemma BranchMode(op: byte)
    requires IsBranch(AsmName(op))
    ensures AsmMode(op) == Rel
  {
  }

  predicate Names(op: byte, mn: Mnemonic, mode: Mode) { AsmName(op) == mn && AsmMode(op) == mode }

  /** `OPCODES[mn][mode]`: building the table in order leaves the last opcode below `n`. */
  function LastBelow(mn: Mnemonic, mode: Mode, n: nat): (r: Option<byte>)
    requires n <= 256
    ensures r.Some? ==> r.value < n
  {
    if n == 0 then None else if Names(n - 1, mn, mode) then Some(n - 1) else LastBelow(mn, mode, n - 1)
  }

  function Opcode(mn: Mnemonic, mode: Mode): Option<byte> { LastBelow(mn, mode, 256) }

  lemma {:induction false} LastBelowIs(mn: Mnemonic, mode: Mode, n: nat)
    requires n <= 256
    ensures var r := LastBelow(mn, mode, n);
            && (r.Some? ==> Names(r.value, mn, mode) && forall op: byte :: r.value < op < n ==> !Names(op, mn, mode))
            && (r.None? ==> forall op: byte :: op < n ==> !Names(op, mn, mode))
  {
    hide Names;
    if n > 0 { LastBelowIs(mn, mode, n - 1); }
  }

  /** Whatever the assembler picks for a mnemonic and mode, the disassembler reads that mnemonic and mode back. */
  lemma OpcodeReadsBack(mn: Mnemonic, mode: Mode)
    requires Opcode(mn, mode).Some?
    ensures var op := Opcode(mn, mode).value; DisName(op) == mn && DisMode(op) == mode
  {
    hide AsmName, AsmMode, DisName, DisMode;
    LastBelowIs(mn, mode, 256);
    TablesAgree(Opcode(mn, mode).value);
  }

  lemma LastIs(mn: Mnemonic, mode: Mode, op: byte)
    requires Names(op, mn, mode) && forall o: byte :: op < o ==> !Names(o, mn, mode)
    ensures Opcode(mn, mode) == Some(op)
  {
    hide Names, LastBelow;
    LastBelowIs(mn, mode, 256);
  }

  lemma NopHigh(op: byte)
    requires op > 0xFA
    ensures !Names(op, NOP, Imp)
  {
  }

  lemma SbcHigh(op: byte)
    requires op > 0xEB
    ensures !Names(op, SBC, Imm)
  {
  }

  lemma NopAt()
    ensures AsmName(0xFA) == NOP && AsmMode(0xFA) == Imp
  {
  }

  lemma SbcAt()
    ensures AsmName(0xEB) == SBC && AsmMode(0xEB) == Imm
  {
  }

  /** Mnemonics with several opcodes in one mode assemble to the last of them. */
  lemma LastWins()
    ensures Opcode(NOP, Imp) == Some(0xFA) && Opcode(SBC, Imm) == Some(0xEB)
  {
    hide Opcode, AsmName, AsmMode;
    NopAt();
    SbcAt();
    assert Names(0xFA, NOP, Imp) && Names(0xEB, SBC, Imm);
    hide Names;
    forall op: byte | 0xFA < op ensures !Names(op, NOP, Imp) { NopHigh(op); }
    forall op: byte | 0xEB < op ensures !Names(op, SBC, Imm) { SbcHigh(op); }
    LastIs(NOP, Imp, 0xFA);
    LastIs(SBC, Imm, 0xEB);
  }

  /** The table as the assembler builds it. */
  method BuildTable() returns (table: map<(Mnemonic, Mode), byte>)
    ensures forall mn, mode :: (mn, mode) in table <==> Opcode(mn, mode).Some?
    ensures forall mn, mode :: (mn, mode) in table ==> Opcode(mn, mode) == Some(table[(mn, mode)])
  {
    hide AsmName, AsmMode;
    table := map[];
    for i := 0 to 256
      invariant forall mn, mode :: (mn, mode) in table <==> LastBelow(mn, mode, i).Some?
      invariant forall mn, mode :: (mn, mode) in table ==> LastBelow(mn, mode, i) == Some(table[(mn, mode)])
    {
      table := table[(AsmName(i), AsmMode(i)) := i];
    }
  }
}
