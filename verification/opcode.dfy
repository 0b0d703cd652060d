/** Decoding of a 16-bit CHIP-8 opcode: the four nibbles the interpreter
    dispatches on, the instruction they select, and the encoding back. */
module Opcode {
  import opened Bytes

  type Nibble = x: int | 0 <= x < 0x10
  /** A 12-bit address `nnn` */
  type Addr = x: int | 0 <= x < 0x1000

  /** `(op & 0xF000) >> 12`, `(op & 0x0F00) >> 8`, `(op & 0x00F0) >> 4` and `op & 0x000F`. */
  function Nibbles(op: u16): (d: (Nibble, Nibble, Nibble, Nibble))
    ensures op == d.0 * 0x1000 + d.1 * 0x100 + d.2 * 0x10 + d.3
  {
    var q1 := op / 0x10;
    var q2 := q1 / 0x10;
    (q2 / 0x10, q2 % 0x10, q1 % 0x10, op % 0x10)
  }

  /** One variant per arm of the interpreter's dispatch; `Unknown` is the catch-all arm. */
  datatype Instr =
    | Nop                                  // 0000
    | ClearScreen                          // 00E0
    | Return                               // 00EE
    | Jump(nnn: Addr)                      // 1nnn
    | Call(nnn: Addr)                      // 2nnn
    | SkipEqByte(x: Nibble, kk: u8)        // 3xkk
    | SkipNeByte(x: Nibble, kk: u8)        // 4xkk
    | SkipEqReg(x: Nibble, y: Nibble)      // 5xy0
    | LoadByte(x: Nibble, kk: u8)          // 6xkk
    | AddByte(x: Nibble, kk: u8)           // 7xkk
    | Move(x: Nibble, y: Nibble)           // 8xy0
    | OrReg(x: Nibble, y: Nibble)          // 8xy1
    | AndReg(x: Nibble, y: Nibble)         // 8xy2
    | XorReg(x: Nibble, y: Nibble)         // 8xy3
    | AddReg(x: Nibble, y: Nibble)         // 8xy4
    | SubReg(x: Nibble, y: Nibble)         // 8xy5
    | ShiftRight(x: Nibble, y: Nibble)     // 8xy6 (y is not read)
    | SubNReg(x: Nibble, y: Nibble)        // 8xy7
    | ShiftLeft(x: Nibble, y: Nibble)      // 8xyE (y is not read)
    | SkipNeReg(x: Nibble, y: Nibble)      // 9xy0
    | LoadIndex(nnn: Addr)                 // Annn
    | JumpV0(nnn: Addr)                    // Bnnn
    | Random(x: Nibble, kk: u8)            // Cxkk
    | Draw(x: Nibble, y: Nibble, n: Nibble) // Dxyn
    | SkipKey(x: Nibble)                   // Ex9E
    | SkipNotKey(x: Nibble)                // ExA1
    | LoadDelay(x: Nibble)                 // Fx07
    | WaitKey(x: Nibble)                   // Fx0A
    | SetDelay(x: Nibble)                  // Fx15
    | SetSound(x: Nibble)                  // Fx18
    | AddIndex(x: Nibble)                  // Fx1E
    | LoadFont(x: Nibble)                  // Fx29
    | StoreBcd(x: Nibble)                  // Fx33
    | StoreRegs(x: Nibble)                 // Fx55
    | LoadRegs(x: Nibble)                  // Fx65
    | Unknown(op: u16)                     // any other pattern: unimplemented!
  {
    /** The arms that write only registers V0..VF and cannot fail. */
    predicate IsRegisterOp() {
      LoadByte? || AddByte? || Move? || OrReg? || AndReg? || XorReg? || AddReg? || SubReg? ||
      ShiftRight? || SubNReg? || ShiftLeft? || Random? || LoadDelay?
    }

    /** The arms that set pc themselves: jumps, calls, returns, skips and the key wait. */
    predicate WritesPc() {
      Return? || Jump? || Call? || SkipEqByte? || SkipNeByte? || SkipEqReg? || SkipNeReg? ||
      JumpV0? || SkipKey? || SkipNotKey? || WaitKey?
    }

    /** The arms that clear the screen, move pc or the stack, or fail outright. */
    predicate IsControlOp() {
      Nop? || ClearScreen? || Return? || Jump? || Call? || SkipEqByte? || SkipNeByte? ||
      SkipEqReg? || SkipNeReg? || JumpV0? || SkipKey? || SkipNotKey? || WaitKey? || Unknown?
    }
  }

  /** The dispatch of `execute`: the first nibble pattern that matches `op`. */
  function Decode(op: u16): (r: Instr)
    ensures r.Unknown? ==> r.op == op
  {
    var (d1, d2, d3, d4) := Nibbles(op);
    Dispatch(op, d1, d2, d3, d4)
  }

  /** The match on the nibble tuple `(d1, d2, d3, d4)` of `op`; `op & 0x0FFF` and
      `op & 0x00FF` are the low three and two nibbles. */
  function Dispatch(op: u16, d1: Nibble, d2: Nibble, d3: Nibble, d4: Nibble): Instr {
    var nnn := d2 * 0x100 + d3 * 0x10 + d4;
    var kk := d3 * 0x10 + d4;
    match d1
    case 0x0 =>
      if d2 == 0 && d3 == 0 && d4 == 0 then Nop
      else if d2 == 0 && d3 == 0xE && d4 == 0 then ClearScreen
      else if d2 == 0 && d3 == 0xE && d4 == 0xE then Return
      else Unknown(op)
    case 0x1 => Jump(nnn)
    case 0x2 => Call(nnn)
    case 0x3 => SkipEqByte(d2, kk)
    case 0x4 => SkipNeByte(d2, kk)
    case 0x5 => if d4 == 0 then SkipEqReg(d2, d3) else Unknown(op)
    case 0x6 => LoadByte(d2, kk)
    case 0x7 => AddByte(d2, kk)
    case 0x8 =>
      (match d4
       case 0x0 => Move(d2, d3)
       case 0x1 => OrReg(d2, d3)
       case 0x2 => AndReg(d2, d3)
       case 0x3 => XorReg(d2, d3)
       case 0x4 => AddReg(d2, d3)
       case 0x5 => SubReg(d2, d3)
       case 0x6 => ShiftRight(d2, d3)
       case 0x7 => SubNReg(d2, d3)
       case 0xE => ShiftLeft(d2, d3)
       case _ => Unknown(op))
    case 0x9 => if d4 == 0 then SkipNeReg(d2, d3) else Unknown(op)
    case 0xA => LoadIndex(nnn)
    case 0xB => JumpV0(nnn)
    case 0xC => Random(d2, kk)
    case 0xD => Draw(d2, d3, d4)
    case 0xE =>
      if d3 == 0x9 && d4 == 0xE then SkipKey(d2)
      else if d3 == 0xA && d4 == 0x1 then SkipNotKey(d2)
      else Unknown(op)
    case 0xF =>
      if d3 == 0x0 && d4 == 0x7 then LoadDelay(d2)
      else if d3 == 0x0 && d4 == 0xA then WaitKey(d2)
      else if d3 == 0x1 && d4 == 0x5 then SetDelay(d2)
      else if d3 == 0x1 && d4 == 0x8 then SetSound(d2)
      else if d3 == 0x1 && d4 == 0xE then AddIndex(d2)
      else if d3 == 0x2 && d4 == 0x9 then LoadFont(d2)
      else if d3 == 0x3 && d4 == 0x3 then StoreBcd(d2)
      else if d3 == 0x5 && d4 == 0x5 then StoreRegs(d2)
      else if d3 == 0x6 && d4 == 0x5 then LoadRegs(d2)
      else Unknown(op)
  }

  /** The opcode word of an instruction (an assembler for the dispatch above). */
  function Encode(ins: Instr): u16 {
    match ins
    case Nop => 0x0000
    case ClearScreen => 0x00E0
    case Return => 0x00EE
    case Jump(nnn) => 0x1000 + nnn
    case Call(nnn) => 0x2000 + nnn
    case SkipEqByte(x, kk) => 0x3000 + x * 0x100 + kk
    case SkipNeByte(x, kk) => 0x4000 + x * 0x100 + kk
    case SkipEqReg(x, y) => 0x5000 + x * 0x100 + y * 0x10
    case LoadByte(x, kk) => 0x6000 + x * 0x100 + kk
    case AddByte(x, kk) => 0x7000 + x * 0x100 + kk
    case Move(x, y) => 0x8000 + x * 0x100 + y * 0x10
    case OrReg(x, y) => 0x8001 + x * 0x100 + y * 0x10
    case AndReg(x, y) => 0x8002 + x * 0x100 + y * 0x10
    case XorReg(x, y) => 0x8003 + x * 0x100 + y * 0x10
    case AddReg(x, y) => 0x8004 + x * 0x100 + y * 0x10
    case SubReg(x, y) => 0x8005 + x * 0x100 + y * 0x10
    case ShiftRight(x, y) => 0x8006 + x * 0x100 + y * 0x10
    case SubNReg(x, y) => 0x8007 + x * 0x100 + y * 0x10
    case ShiftLeft(x, y) => 0x800E + x * 0x100 + y * 0x10
    case SkipNeReg(x, y) => 0x9000 + x * 0x100 + y * 0x10
    case LoadIndex(nnn) => 0xA000 + nnn
    case JumpV0(nnn) => 0xB000 + nnn
    case Random(x, kk) => 0xC000 + x * 0x100 + kk
    case Draw(x, y, n) => 0xD000 + x * 0x100 + y * 0x10 + n
    case SkipKey(x) => 0xE09E + x * 0x100
    case SkipNotKey(x) => 0xE0A1 + x * 0x100
    case LoadDelay(x) => 0xF007 + x * 0x100
    case WaitKey(x) => 0xF00A + x * 0x100
    case SetDelay(x) => 0xF015 + x * 0x100
    case SetSound(x) => 0xF018 + x * 0x100
    case AddIndex(x) => 0xF01E + x * 0x100
    case LoadFont(x) => 0xF029 + x * 0x100
    case StoreBcd(x) => 0xF033 + x * 0x100
    case StoreRegs(x) => 0xF055 + x * 0x100
    case LoadRegs(x) => 0xF065 + x * 0x100
    case Unknown(op) => op
  }

  /** An instruction that decoding can produce: `Unknown` only for words no arm matches. */
  predicate Decodable(ins: Instr) {
    ins.Unknown? ==> Decode(ins.op) == ins
  }

  /** The address and byte fields are the low three and two nibbles. */
  lemma Fields(op: u16)
    ensures var d := Nibbles(op);
      op % 0x1000 == d.1 * 0x100 + d.2 * 0x10 + d.3 && op % 0x100 == d.2 * 0x10 + d.3
  {
  }

  /** Splitting a word assembled from four nibbles gives those nibbles back. */
  lemma {:induction false} NibblesOf(op: u16, d1: Nibble, d2: Nibble, d3: Nibble, d4: Nibble)
    requires op == d1 * 0x1000 + d2 * 0x100 + d3 * 0x10 + d4
    ensures Nibbles(op) == (d1, d2, d3, d4)
  {
    var d := Nibbles(op);
    Fields(op);
    assert d.0 == d1 by {
      assert op - d1 * 0x1000 < 0x1000;
    }
  }

  /** A word `d1 nnn` splits into `d1` and the three nibbles of `nnn`. */
  lemma {:induction false} NibblesOfAddr(op: u16, d1: Nibble, nnn: Addr)
    requires op == d1 * 0x1000 + nnn
    ensures var d := Nibbles(op); d.0 == d1 && d.1 * 0x100 + d.2 * 0x10 + d.3 == nnn
  {
    var d := Nibbles(op);
    assert d.0 == d1 by {
      assert op - d1 * 0x1000 < 0x1000;
    }
  }

  /** A word `d1 x kk` splits into `d1`, `x` and the two nibbles of `kk`. */
  lemma {:induction false} NibblesOfByte(op: u16, d1: Nibble, x: Nibble, kk: u8)
    requires op == d1 * 0x1000 + x * 0x100 + kk
    ensures var d := Nibbles(op); d.0 == d1 && d.1 == x && d.2 * 0x10 + d.3 == kk
  {
    NibblesOfAddr(op, d1, x * 0x100 + kk);
    var d := Nibbles(op);
    assert d.1 == x by {
      assert d.1 as int * 0x100 + d.2 as int * 0x10 + d.3 == x as int * 0x100 + kk;
    }
  }

  /** Decoding loses nothing: every word is re-assembled from what it decodes to. */
  lemma EncodeDecode(op: u16)
    ensures Decodable(Decode(op))
    ensures Encode(Decode(op)) == op
  {
    var d1 := Nibbles(op).0;
    Fields(op);
    if d1 == 0x0 {
    } else if d1 == 0x1 {
    } else if d1 == 0x2 {
    } else if d1 == 0x3 {
    } else if d1 == 0x4 {
    } else if d1 == 0x5 {
    } else if d1 == 0x6 {
    } else if d1 == 0x7 {
    } else if d1 == 0x8 {
      EncodeDecodeAlu(op);
    } else if d1 == 0x9 {
    } else if d1 == 0xA {
    } else if d1 == 0xB {
    } else if d1 == 0xC {
    } else if d1 == 0xD {
    } else if d1 == 0xE {
    } else {
      EncodeDecodeMisc(op);
    }
  }

  lemma {:induction false} EncodeDecodeAlu(op: u16)
    requires Nibbles(op).0 == 0x8
    ensures Decodable(Decode(op)) && Encode(Decode(op)) == op
  {
  }

  lemma {:induction false} EncodeDecodeMisc(op: u16)
    requires Nibbles(op).0 == 0xF
    ensures Decodable(Decode(op)) && Encode(Decode(op)) == op
  {
  }

  /** Decoding is the inverse of encoding on decodable instructions. */
  lemma DecodeEncode(ins: Instr)
    requires Decodable(ins)
    ensures Decode(Encode(ins)) == ins
  {
    if ins.Nop? || ins.ClearScreen? || ins.Return? || ins.Jump? || ins.Call? ||
       ins.LoadIndex? || ins.JumpV0? || ins.Unknown? {
      DecodeEncodeFlow(ins);
    } else if ins.SkipEqByte? || ins.SkipNeByte? || ins.LoadByte? || ins.AddByte? || ins.Random? {
      DecodeEncodeByteOperand(ins);
    } else if ins.SkipEqReg? || ins.SkipNeReg? || ins.Draw? || ins.SkipKey? || ins.SkipNotKey? {
      DecodeEncodeRegOperand(ins);
    } else if ins.Move? || ins.OrReg? || ins.AndReg? || ins.XorReg? {
      DecodeEncodeLogic(ins);
    } else if ins.AddReg? || ins.SubReg? || ins.ShiftRight? || ins.SubNReg? || ins.ShiftLeft? {
      DecodeEncodeArith(ins);
    } else if ins.LoadDelay? || ins.WaitKey? || ins.SetDelay? || ins.SetSound? {
      DecodeEncodeTimers(ins);
    } else {
      DecodeEncodeMemory(ins);
    }
  }

  lemma {:induction false} DecodeEncodeFlow(ins: Instr)
    requires Decodable(ins)
    requires ins.Nop? || ins.ClearScreen? || ins.Return? || ins.Jump? || ins.Call? ||
             ins.LoadIndex? || ins.JumpV0? || ins.Unknown?
    ensures Decode(Encode(ins)) == ins
  {
    match ins
    case Nop => NibblesOf(Encode(ins), 0, 0, 0, 0);
    case ClearScreen => NibblesOf(Encode(ins), 0, 0, 0xE, 0);
    case Return => NibblesOf(Encode(ins), 0, 0, 0xE, 0xE);
    case Jump(nnn) => NibblesOfAddr(Encode(ins), 1, nnn);
    case Call(nnn) => NibblesOfAddr(Encode(ins), 2, nnn);
    case LoadIndex(nnn) => NibblesOfAddr(Encode(ins), 0xA, nnn);
    case JumpV0(nnn) => NibblesOfAddr(Encode(ins), 0xB, nnn);
    case Unknown(op) =>
  }

  lemma {:induction false} DecodeEncodeByteOperand(ins: Instr)
    requires ins.SkipEqByte? || ins.SkipNeByte? || ins.LoadByte? || ins.AddByte? || ins.Random?
    ensures Decode(Encode(ins)) == ins
  {
    match ins
    case SkipEqByte(x, kk) => NibblesOfByte(Encode(ins), 3, x, kk);
    case SkipNeByte(x, kk) => NibblesOfByte(Encode(ins), 4, x, kk);
    case LoadByte(x, kk) => NibblesOfByte(Encode(ins), 6, x, kk);
    case AddByte(x, kk) => NibblesOfByte(Encode(ins), 7, x, kk);
    case Random(x, kk) => NibblesOfByte(Encode(ins), 0xC, x, kk);
  }

  lemma {:induction false} DecodeEncodeRegOperand(ins: Instr)
    requires ins.SkipEqReg? || ins.SkipNeReg? || ins.Draw? || ins.SkipKey? || ins.SkipNotKey?
    ensures Decode(Encode(ins)) == ins
  {
    match ins
    case SkipEqReg(x, y) => NibblesOf(Encode(ins), 5, x, y, 0);
    case SkipNeReg(x, y) => NibblesOf(Encode(ins), 9, x, y, 0);
    case Draw(x, y, n) => NibblesOf(Encode(ins), 0xD, x, y, n);
    case SkipKey(x) => NibblesOf(Encode(ins), 0xE, x, 9, 0xE);
    case SkipNotKey(x) => NibblesOf(Encode(ins), 0xE, x, 0xA, 1);
  }

  lemma {:induction false} DecodeEncodeLogic(ins: Instr)
    requires ins.Move? || ins.OrReg? || ins.AndReg? || ins.XorReg?
    ensures Decode(Encode(ins)) == ins
  {
    match ins
    case Move(x, y) => NibblesOf(Encode(ins), 8, x, y, 0);
    case OrReg(x, y) => NibblesOf(Encode(ins), 8, x, y, 1);
    case AndReg(x, y) => NibblesOf(Encode(ins), 8, x, y, 2);
    case XorReg(x, y) => NibblesOf(Encode(ins), 8, x, y, 3);
  }

  lemma {:induction false} DecodeEncodeArith(ins: Instr)
    requires ins.AddReg? || ins.SubReg? || ins.ShiftRight? || ins.SubNReg? || ins.ShiftLeft?
    ensures Decode(Encode(ins)) == ins
  {
    match ins
    case AddReg(x, y) => NibblesOf(Encode(ins), 8, x, y, 4);
    case SubReg(x, y) => NibblesOf(Encode(ins), 8, x, y, 5);
    case ShiftRight(x, y) => NibblesOf(Encode(ins), 8, x, y, 6);
    case SubNReg(x, y) => NibblesOf(Encode(ins), 8, x, y, 7);
    case ShiftLeft(x, y) => NibblesOf(Encode(ins), 8, x, y, 0xE);
  }

  lemma {:induction false} DecodeEncodeTimers(ins: Instr)
    requires ins.LoadDelay? || ins.WaitKey? || ins.SetDelay? || ins.SetSound?
    ensures Decode(Encode(ins)) == ins
  {
    match ins
    case LoadDelay(x) => NibblesOf(Encode(ins), 0xF, x, 0, 7);
    case WaitKey(x) => NibblesOf(Encode(ins), 0xF, x, 0, 0xA);
    case SetDelay(x) => NibblesOf(Encode(ins), 0xF, x, 1, 5);
    case SetSound(x) => NibblesOf(Encode(ins), 0xF, x, 1, 8);
  }

  lemma {:induction false} DecodeEncodeMemory(ins: Instr)
    requires ins.AddIndex? || ins.LoadFont? || ins.StoreBcd? || ins.StoreRegs? || ins.LoadRegs?
    ensures Decode(Encode(ins)) == ins
  {
    match ins
    case AddIndex(x) => NibblesOf(Encode(ins), 0xF, x, 1, 0xE);
    case LoadFont(x) => NibblesOf(Encode(ins), 0xF, x, 2, 9);
    case StoreBcd(x) => NibblesOf(Encode(ins), 0xF, x, 3, 3);
    case StoreRegs(x) => NibblesOf(Encode(ins), 0xF, x, 5, 5);
    case LoadRegs(x) => NibblesOf(Encode(ins), 0xF, x, 6, 5);
  }

  /** Every opcode outside the recognised patterns falls through to the fatal arm. */
  lemma UnknownPatterns(op: u16)
    ensures Decode(op).Unknown? <==>
      var (d1, d2, d3, d4) := Nibbles(op);
      (d1 == 0 && op !in {0x0000, 0x00E0, 0x00EE}) ||
      ((d1 == 5 || d1 == 9) && d4 != 0) ||
      (d1 == 8 && d4 !in {0, 1, 2, 3, 4, 5, 6, 7, 0xE}) ||
      (d1 == 0xE && !(d3 == 9 && d4 == 0xE) && !(d3 == 0xA && d4 == 1)) ||
      (d1 == 0xF && (d3, d4) !in {(0, 7), (0, 0xA), (1, 5), (1, 8), (1, 0xE), (2, 9), (3, 3), (5, 5), (6, 5)})
  {
  }
}
