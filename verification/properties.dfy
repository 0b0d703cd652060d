/** What the interpreter guarantees across operations and for every input: timers,
    fetch and control flow, the stack, the arithmetic flags, drawing, memory
    transfers and keys, stated on the functions of module `Machine`. */
module Properties {
  import opened Bytes
  import opened Opcode
  import opened Machine

  /** `r` is `m` with at most the registers in `regs` changed. */
  predicate OnlyRegisters(m: State, r: State, regs: set<nat>) {
    r == m.(v := r.v) && |r.v| == |m.v| &&
    forall k :: 0 <= k < |m.v| && k !in regs ==> r.v[k] == m.v[k]
  }

  // ---------------------------------------------------------------- boot

  /** `new` and `reset`: the font at the bottom of memory, pc at the program origin, all else clear. */
  lemma BootState()
    ensures var m := Boot();
      m.pc == 0x200 && m.i == 0 && m.sp == 0 && m.dt == 0 && m.st == 0 &&
      m.ram[..FONTSET_SIZE] == FONTSET &&
      (forall a :: FONTSET_SIZE <= a < RAM_SIZE ==> m.ram[a] == 0) &&
      (forall p :: 0 <= p < SCREEN_SIZE ==> !m.screen[p]) &&
      (forall k :: 0 <= k < NUM_REGS ==> m.v[k] == 0) &&
      (forall k :: 0 <= k < STACK_SIZE ==> m.stack[k] == 0) &&
      (forall k :: 0 <= k < NUM_KEYS ==> !m.keys[k])
  {
  }

  // ---------------------------------------------------------------- timers

  /** `t - n`, stopping at zero. */
  function CountDown(t: u8, n: nat): u8 {
    if t >= n then t - n else 0
  }

  /** `n` calls of `tick_timers` in a row: the final state and how many of them beeped. */
  function RunTimers(m: State, n: nat): (State, nat)
    decreases n
  {
    if n == 0 then (m, 0)
    else
      var (m1, beep) := TickTimers(m);
      var (m2, beeps) := RunTimers(m1, n - 1);
      (m2, beeps + if beep then 1 else 0)
  }

  /** After n calls each timer has dropped by n, stopping at zero, nothing else has changed,
      and exactly one of the calls beeped if the sound timer ran out among them, none otherwise. */
  lemma {:induction false} TimersCountDown(m: State, n: nat)
    ensures var (r, beeps) := RunTimers(m, n);
      r == m.(dt := CountDown(m.dt, n), st := CountDown(m.st, n)) &&
      beeps == if 1 <= m.st <= n then 1 else 0
    decreases n
  {
    if n > 0 {
      TimersCountDown(TickTimers(m).0, n - 1);
    }
  }

  /** One call beeps exactly when the sound timer was 1, and the next call does not beep. */
  lemma BeepIsOneShot(m: State)
    ensures var (m1, beep) := TickTimers(m);
      (beep <==> m.st == 1) && (beep ==> m1.st == 0 && !TickTimers(m1).1)
  {
  }

  /** `Fx18` with Vx = 1 followed by a frame's `tick_timers` beeps once and silences the timer. */
  lemma SoundThenBeep(m: State, x: Nibble, rnd: u8)
    requires WellFormed(m) && m.v[x] == 1
    ensures Exec(m, SetSound(x), rnd).Ok?
    ensures var (m1, beep) := TickTimers(Exec(m, SetSound(x), rnd).value);
      beep && m1.st == 0 && !TickTimers(m1).1
  {
  }

  // ---------------------------------------------------------------- fetch and control flow

  /** The opcode is the byte at pc followed by the byte after it; fetching fails exactly when
      the second byte lies past memory, and otherwise only advances pc by 2. */
  lemma FetchBigEndian(m: State)
    requires WellFormed(m)
    ensures Fetch(m).Ok? <==> m.pc + 1 < RAM_SIZE
    ensures Fetch(m).Ok? ==>
      var (op, m1) := Fetch(m).value;
      op / 0x100 == m.ram[m.pc] && op % 0x100 == m.ram[m.pc + 1] && m1 == m.(pc := m.pc + 2)
  {
    if m.pc + 1 < RAM_SIZE {
      var hb, lb := m.ram[m.pc], m.ram[m.pc + 1];
      assert (hb as int * 0x100 + lb) / 0x100 == hb;
    }
  }

  /** An instruction assembled into the two bytes at pc is the one the next tick executes. */
  lemma FetchDecodes(m: State, ins: Instr)
    requires WellFormed(m) && Decodable(ins) && m.pc + 1 < RAM_SIZE
    requires m.ram[m.pc] == Encode(ins) / 0x100 && m.ram[m.pc + 1] == Encode(ins) % 0x100
    ensures Fetch(m).Ok? && Fetch(m).value.0 == Encode(ins) && Decode(Fetch(m).value.0) == ins
  {
    DecodeEncode(ins);
  }

  /** `1nnn`: the jump target replaces the advanced pc; nothing else changes. */
  lemma JumpOverridesAdvance(m: State, nnn: Addr, rnd: u8)
    requires WellFormed(m) && Fetch(m).Ok? && Decode(Fetch(m).value.0) == Jump(nnn)
    ensures Tick(m, rnd) == Ok(m.(pc := nnn))
  {
  }

  /** Any instruction that is not a jump, call, return, skip or key wait leaves pc just past itself. */
  lemma StraightLineAdvances(m: State, rnd: u8)
    requires WellFormed(m) && Fetch(m).Ok? && !Decode(Fetch(m).value.0).WritesPc()
    ensures Tick(m, rnd).Ok? ==> Tick(m, rnd).value.pc == m.pc + 2
  {
  }

  /** Whether a skip instruction's condition holds. */
  predicate SkipTaken(m: State, ins: Instr)
    requires WellFormed(m)
  {
    match ins
    case SkipEqByte(x, kk) => m.v[x] == kk
    case SkipNeByte(x, kk) => m.v[x] != kk
    case SkipEqReg(x, y) => m.v[x] == m.v[y]
    case SkipNeReg(x, y) => m.v[x] != m.v[y]
    case _ => false
  }

  /** `3xkk`, `4xkk`, `5xy0`, `9xy0`: a taken skip steps over the following instruction
      (pc + 4 from the skip), an untaken one goes on to it (pc + 2). */
  lemma SkipStepsOver(m: State, rnd: u8)
    requires WellFormed(m) && Fetch(m).Ok?
    requires var ins := Decode(Fetch(m).value.0);
      ins.SkipEqByte? || ins.SkipNeByte? || ins.SkipEqReg? || ins.SkipNeReg?
    ensures Tick(m, rnd) ==
      Ok(m.(pc := m.pc + if SkipTaken(m, Decode(Fetch(m).value.0)) then 4 else 2))
  {
  }

  /** The `pc += 2` of a skip and the `pc -= 2` of `Fx0A` never overflow or underflow within
      a tick: after a successful fetch pc lies between 2 and 0x1001. */
  lemma TickPcNeverWraps(m: State, rnd: u8)
    requires WellFormed(m)
    ensures Tick(m, rnd) != Err(PcOverflow) && Tick(m, rnd) != Err(PcUnderflow)
  {
    if Fetch(m).Ok? {
      var (op, m1) := Fetch(m).value;
      ExecPcInRange(m1, Decode(op), rnd);
    }
  }

  lemma ExecPcInRange(m: State, ins: Instr, rnd: u8)
    requires WellFormed(m) && 2 <= m.pc <= RAM_SIZE + 1
    ensures Exec(m, ins, rnd) != Err(PcOverflow) && Exec(m, ins, rnd) != Err(PcUnderflow)
  {
    if ins.IsRegisterOp() {
      RegisterOpsTotal(m, ins, rnd);
    } else if ins.SkipEqByte? || ins.SkipNeByte? || ins.SkipEqReg? || ins.SkipNeReg? ||
              ins.SkipKey? || ins.SkipNotKey? || ins.WaitKey? {
      SkipsStayInRange(m, ins, rnd);
    }
  }

  lemma SkipsStayInRange(m: State, ins: Instr, rnd: u8)
    requires WellFormed(m) && 2 <= m.pc <= RAM_SIZE + 1
    requires ins.SkipEqByte? || ins.SkipNeByte? || ins.SkipEqReg? || ins.SkipNeReg? ||
             ins.SkipKey? || ins.SkipNotKey? || ins.WaitKey?
    ensures Exec(m, ins, rnd) != Err(PcOverflow) && Exec(m, ins, rnd) != Err(PcUnderflow)
  {
  }

  /** A word no arm recognises is fatal: the tick fails with that very word. */
  lemma UnknownIsFatal(m: State, rnd: u8)
    requires WellFormed(m) && Fetch(m).Ok? && Decode(Fetch(m).value.0).Unknown?
    ensures Tick(m, rnd) == Err(Unimplemented(Fetch(m).value.0))
  {
    EncodeDecode(Fetch(m).value.0);
  }

  // ---------------------------------------------------------------- stack

  /** `push` fails exactly on a full stack and `pop` exactly on an empty one. */
  lemma StackFaults(m: State, val: u16)
    requires WellFormed(m)
    ensures Push(m, val).Err? <==> m.sp == STACK_SIZE
    ensures Pop(m).Err? <==> m.sp == 0
  {
  }

  /** `pop` after `push` gives back the pushed value and the stack pointer. */
  lemma PushThenPop(m: State, val: u16)
    requires WellFormed(m) && m.sp < STACK_SIZE
    ensures Push(m, val).Ok?
    ensures Pop(Push(m, val).value) == Ok((val, m.(stack := m.stack[m.sp := val])))
  {
  }

  /** `2nnn` then `00EE`: the call enters nnn one level deeper, the return restores pc and sp;
      only the stack slot the call used keeps the return address. */
  lemma CallThenReturn(m: State, nnn: Addr, rnd: u8)
    requires WellFormed(m) && m.sp < STACK_SIZE
    ensures Exec(m, Call(nnn), rnd).Ok?
    ensures var m1 := Exec(m, Call(nnn), rnd).value;
      m1.pc == nnn && m1.sp == m.sp + 1 && m1.stack[m.sp] == m.pc &&
      Exec(m1, Return, rnd) == Ok(m.(stack := m.stack[m.sp := m.pc]))
  {
  }

  /** A call at pc to a subroutine that starts with a return: two ticks land just past the call. */
  lemma SubroutineRoundTrip(m: State, nnn: Addr, rnd: u8)
    requires WellFormed(m) && m.sp < STACK_SIZE && m.pc + 1 < RAM_SIZE && nnn + 1 < RAM_SIZE
    requires m.ram[m.pc] == 0x20 + nnn / 0x100 && m.ram[m.pc + 1] == nnn % 0x100
    requires m.ram[nnn] == 0x00 && m.ram[nnn + 1] == 0xEE
    ensures Tick(m, rnd).Ok? && Tick(Tick(m, rnd).value, rnd).Ok?
    ensures var r := Tick(Tick(m, rnd).value, rnd).value;
      r.pc == m.pc + 2 && r.sp == m.sp && r.stack == m.stack[m.sp := m.pc + 2]
  {
    FetchDecodes(m, Call(nnn));
    var m1 := Tick(m, rnd).value;
    assert m1.ram == m.ram && m1.pc == nnn;
    FetchDecodes(m1, Return);
  }

  // ---------------------------------------------------------------- registers

  /** `7xkk` adds without carry: Vx plus the lost carry is the true sum, and VF is untouched
      unless it is Vx itself. */
  lemma AddByteWraps(m: State, x: Nibble, kk: u8, rnd: u8)
    requires WellFormed(m)
    ensures Exec(m, AddByte(x, kk), rnd).Ok?
    ensures var r := Exec(m, AddByte(x, kk), rnd).value;
      OnlyRegisters(m, r, {x}) &&
      r.v[x] as int + (if m.v[x] as int + kk > 0xFF then 0x100 else 0) == m.v[x] as int + kk
  {
  }

  /** `8xy4`: VF is the carry of Vx + Vy; for x != F, Vx plus 256 times the carry is the sum.
      For x = F the flag is written last and wins. */
  lemma AddRegCarry(m: State, x: Nibble, y: Nibble, rnd: u8)
    requires WellFormed(m)
    ensures Exec(m, AddReg(x, y), rnd).Ok?
    ensures var r := Exec(m, AddReg(x, y), rnd).value;
      OnlyRegisters(m, r, {x, VF}) &&
      r.v[VF] == (if m.v[x] as int + m.v[y] > 0xFF then 1 else 0) &&
      (x != VF ==> r.v[x] as int + 0x100 * r.v[VF] as int == m.v[x] as int + m.v[y])
  {
  }

  /** `8xy5`: VF = 1 exactly when Vx >= Vy (no borrow); for x != F, Vx is Vx - Vy modulo 256. */
  lemma SubRegBorrow(m: State, x: Nibble, y: Nibble, rnd: u8)
    requires WellFormed(m)
    ensures Exec(m, SubReg(x, y), rnd).Ok?
    ensures var r := Exec(m, SubReg(x, y), rnd).value;
      OnlyRegisters(m, r, {x, VF}) &&
      r.v[VF] == (if m.v[x] >= m.v[y] then 1 else 0) &&
      (x != VF ==> r.v[x] == m.v[x] as int - m.v[y] + 0x100 * (1 - r.v[VF] as int))
  {
  }

  /** `8xy7`: VF = 1 exactly when Vy >= Vx; for x != F, Vx is Vy - Vx modulo 256. */
  lemma SubNRegBorrow(m: State, x: Nibble, y: Nibble, rnd: u8)
    requires WellFormed(m)
    ensures Exec(m, SubNReg(x, y), rnd).Ok?
    ensures var r := Exec(m, SubNReg(x, y), rnd).value;
      OnlyRegisters(m, r, {x, VF}) &&
      r.v[VF] == (if m.v[y] >= m.v[x] then 1 else 0) &&
      (x != VF ==> r.v[x] == m.v[y] as int - m.v[x] + 0x100 * (1 - r.v[VF] as int))
  {
  }

  /** `8xy6`: VF is the bit shifted out; for x != F, 2 * Vx + VF is the old Vx. Vy is not read. */
  lemma ShiftRightLsb(m: State, x: Nibble, y: Nibble, rnd: u8)
    requires WellFormed(m)
    ensures Exec(m, ShiftRight(x, y), rnd).Ok?
    ensures var r := Exec(m, ShiftRight(x, y), rnd).value;
      OnlyRegisters(m, r, {x, VF}) &&
      r.v[VF] == m.v[x] % 2 &&
      (x != VF ==> 2 * r.v[x] + r.v[VF] == m.v[x])
  {
  }

  /** `8xyE`: for x != F, VF is the bit shifted out and Vx + 256 * VF is twice the old Vx.
      For x = F the flag is written first and then shifted itself, ending as 2 * msb. */
  lemma ShiftLeftMsb(m: State, x: Nibble, y: Nibble, rnd: u8)
    requires WellFormed(m)
    ensures Exec(m, ShiftLeft(x, y), rnd).Ok?
    ensures var r := Exec(m, ShiftLeft(x, y), rnd).value;
      OnlyRegisters(m, r, {x, VF}) &&
      (x != VF ==> r.v[VF] == m.v[x] / 0x80 && r.v[x] as int + 0x100 * r.v[VF] as int == 2 * m.v[x] as int) &&
      (x == VF ==> r.v[VF] == 2 * (m.v[VF] as int / 0x80))
  {
  }

  /** The instruction of `8xy1`, `8xy2` and `8xy3`. */
  function LogicInstr(op: BitOp, x: Nibble, y: Nibble): Instr {
    match op
    case Or => OrReg(x, y)
    case And => AndReg(x, y)
    case Xor => XorReg(x, y)
  }

  /** `8xy1` / `8xy2` / `8xy3`: every bit of the new Vx is the operator on the bits of Vx and Vy. */
  lemma LogicBitwise(m: State, op: BitOp, x: Nibble, y: Nibble, rnd: u8, k: nat)
    requires WellFormed(m) && k < 8
    ensures Exec(m, LogicInstr(op, x, y), rnd).Ok?
    ensures var r := Exec(m, LogicInstr(op, x, y), rnd).value;
      OnlyRegisters(m, r, {x}) && (Bit(r.v[x], k) <==> Apply(op, Bit(m.v[x], k), Bit(m.v[y], k)))
  {
    BitwiseBit(op, m.v[x], m.v[y], 8, k);
  }

  /** `Cxkk`: Vx has a bit set only where both the random byte and kk do. */
  lemma RandomMasked(m: State, x: Nibble, kk: u8, rnd: u8, k: nat)
    requires WellFormed(m) && k < 8
    ensures Exec(m, Random(x, kk), rnd).Ok?
    ensures var r := Exec(m, Random(x, kk), rnd).value;
      OnlyRegisters(m, r, {x}) && (Bit(r.v[x], k) <==> Bit(rnd, k) && Bit(kk, k))
  {
    MaskedHasNoOtherBits(rnd, kk, k);
  }

  /** The register arms never fail and write nothing but Vx and VF. */
  lemma RegisterOpsTotal(m: State, ins: Instr, rnd: u8)
    requires WellFormed(m) && ins.IsRegisterOp()
    ensures Exec(m, ins, rnd).Ok? && OnlyRegisters(m, Exec(m, ins, rnd).value, {ins.x, VF})
  {
  }

  /** What `execute` leaves alone: no instruction writes the keys, only `Fx15` and `Fx18` change
      the timers, and only `00E0` and `Dxyn` change the screen. */
  lemma ExecFrames(m: State, ins: Instr, rnd: u8)
    requires WellFormed(m) && Exec(m, ins, rnd).Ok?
    ensures var r := Exec(m, ins, rnd).value;
      r.keys == m.keys &&
      (r.dt != m.dt ==> ins.SetDelay?) &&
      (r.st != m.st ==> ins.SetSound?) &&
      (r.screen != m.screen ==> ins.ClearScreen? || ins.Draw?)
  {
  }

  /** The random byte reaches only `Cxkk`: every other instruction has the same outcome
      whatever byte the tick is given. */
  lemma RandomOnlyForCxkk(m: State, ins: Instr, rnd: u8, rnd': u8)
    requires WellFormed(m) && !ins.Random?
    ensures Exec(m, ins, rnd) == Exec(m, ins, rnd')
  {
  }

  // ---------------------------------------------------------------- screen

  /** `00E0` turns every pixel off, changes nothing else, and a second one changes nothing. */
  lemma ClearScreenBlanks(m: State, rnd: u8)
    requires WellFormed(m)
    ensures Exec(m, ClearScreen, rnd).Ok?
    ensures var r := Exec(m, ClearScreen, rnd).value;
      r == m.(screen := r.screen) && |r.screen| == SCREEN_SIZE &&
      (forall p :: 0 <= p < SCREEN_SIZE ==> !r.screen[p]) &&
      Exec(r, ClearScreen, rnd) == Ok(r)
  {
  }

  /** Screen index p is covered exactly when a set sprite bit lands on it. */
  lemma CoveredCells(vx: int, vy: int, sprite: seq<u8>, p: int)
    requires |sprite| <= 16 && 0 <= p < SCREEN_SIZE
    ensures Covered(vx, vy, sprite, p) <==>
      exists row, col :: 0 <= row < |sprite| && 0 <= col < 8 &&
        PixelIndex(vx, vy, row, col) == p && SpriteBit(sprite[row], col)
  {
    if Covered(vx, vy, sprite, p) {
      PixelOfCell(vx, vy, p);
      var row, col := CellRow(vy, p), CellCol(vx, p);
      assert PixelIndex(vx, vy, row, col) == p && SpriteBit(sprite[row], col);
    }
    if exists row, col :: 0 <= row < |sprite| && 0 <= col < 8 &&
        PixelIndex(vx, vy, row, col) == p && SpriteBit(sprite[row], col) {
      var row, col :| 0 <= row < |sprite| && 0 <= col < 8 &&
        PixelIndex(vx, vy, row, col) == p && SpriteBit(sprite[row], col);
      CellOfPixel(vx, vy, row, col);
    }
  }

  /** Some pixel under a set sprite bit is lit exactly when a set sprite bit lands on a lit pixel. */
  lemma CollidesCells(screen: seq<bool>, vx: int, vy: int, sprite: seq<u8>)
    requires |screen| == SCREEN_SIZE && |sprite| <= 16
    ensures Collides(screen, vx, vy, sprite) <==>
      exists row, col :: 0 <= row < |sprite| && 0 <= col < 8 && SpriteBit(sprite[row], col) &&
        screen[PixelIndex(vx, vy, row, col)]
  {
    if Collides(screen, vx, vy, sprite) {
      var p :| 0 <= p < |screen| && Covered(vx, vy, sprite, p) && screen[p];
      PixelOfCell(vx, vy, p);
      var row, col := CellRow(vy, p), CellCol(vx, p);
      assert SpriteBit(sprite[row], col) && screen[PixelIndex(vx, vy, row, col)];
    }
    if exists row, col :: 0 <= row < |sprite| && 0 <= col < 8 && SpriteBit(sprite[row], col) &&
        screen[PixelIndex(vx, vy, row, col)] {
      var row, col :| 0 <= row < |sprite| && 0 <= col < 8 && SpriteBit(sprite[row], col) &&
        screen[PixelIndex(vx, vy, row, col)];
      CellOfPixel(vx, vy, row, col);
      assert Covered(vx, vy, sprite, PixelIndex(vx, vy, row, col));
    }
  }

  /** `Dxyn` flips the pixel under each sprite cell whose bit is set and keeps the one under a clear bit. */
  lemma DrawFlipsCell(m: State, x: Nibble, y: Nibble, n: Nibble, row: nat, col: nat)
    requires WellFormed(m) && (n == 0 || m.i + n <= RAM_SIZE) && row < n && col < 8
    ensures DrawSprite(m, x, y, n).Ok?
    ensures var r := DrawSprite(m, x, y, n).value;
      var p := PixelIndex(m.v[x], m.v[y], row, col);
      r.screen[p] == (m.screen[p] != SpriteBit(Sprite(m, n)[row], col))
  {
    CellOfPixel(m.v[x], m.v[y], row, col);
  }

  /** `Dxyn` changes a pixel exactly when a set sprite bit lands on it, wrapping at the edges. */
  lemma DrawChangesOnlyCovered(m: State, x: Nibble, y: Nibble, n: Nibble, p: int)
    requires WellFormed(m) && (n == 0 || m.i + n <= RAM_SIZE) && 0 <= p < SCREEN_SIZE
    ensures DrawSprite(m, x, y, n).Ok?
    ensures DrawSprite(m, x, y, n).value.screen[p] != m.screen[p] <==>
      exists row, col :: 0 <= row < n && 0 <= col < 8 &&
        PixelIndex(m.v[x], m.v[y], row, col) == p && SpriteBit(Sprite(m, n)[row], col)
  {
    CoveredCells(m.v[x], m.v[y], Sprite(m, n), p);
  }

  /** `Dxyn` fails exactly when a sprite of at least one row reaches past memory, where the row
      read panics. */
  lemma DrawFaults(m: State, x: Nibble, y: Nibble, n: Nibble)
    requires WellFormed(m)
    ensures DrawSprite(m, x, y, n).Err? <==> n > 0 && m.i + n > RAM_SIZE
    ensures DrawSprite(m, x, y, n).Err? ==> DrawSprite(m, x, y, n).fault == RamOutOfRange
  {
  }

  /** `Dxyn` sets VF to 1 exactly when a set sprite bit lands on a lit pixel, and to 0 otherwise;
      it changes nothing but the screen and VF. */
  lemma DrawCollisionFlag(m: State, x: Nibble, y: Nibble, n: Nibble)
    requires WellFormed(m) && (n == 0 || m.i + n <= RAM_SIZE)
    ensures DrawSprite(m, x, y, n).Ok?
    ensures var r := DrawSprite(m, x, y, n).value;
      r == m.(screen := r.screen, v := m.v[VF := r.v[VF]]) &&
      (r.v[VF] == 1 <==>
        exists row, col :: 0 <= row < n && 0 <= col < 8 && SpriteBit(Sprite(m, n)[row], col) &&
          m.screen[PixelIndex(m.v[x], m.v[y], row, col)]) &&
      (r.v[VF] == 0 || r.v[VF] == 1)
  {
    CollidesCells(m.screen, m.v[x], m.v[y], Sprite(m, n));
  }

  /** Drawing on a blank screen never reports a collision. */
  lemma DrawOnBlankScreen(m: State, x: Nibble, y: Nibble, n: Nibble)
    requires WellFormed(m) && (n == 0 || m.i + n <= RAM_SIZE) && m.screen == Blank()
    ensures DrawSprite(m, x, y, n).Ok? && DrawSprite(m, x, y, n).value.v[VF] == 0
  {
  }

  /** Drawing the same sprite twice at the same place restores the screen (XOR undoes itself),
      provided neither coordinate is read from VF, which the first draw overwrites. */
  lemma DrawTwiceRestores(m: State, x: Nibble, y: Nibble, n: Nibble, rnd: u8)
    requires WellFormed(m) && (n == 0 || m.i + n <= RAM_SIZE) && x != VF && y != VF
    ensures Exec(m, Draw(x, y, n), rnd).Ok?
    ensures Exec(Exec(m, Draw(x, y, n), rnd).value, Draw(x, y, n), rnd).Ok?
    ensures Exec(Exec(m, Draw(x, y, n), rnd).value, Draw(x, y, n), rnd).value.screen == m.screen
  {
    var m1 := Exec(m, Draw(x, y, n), rnd).value;
    assert m1.v[x] == m.v[x] && m1.v[y] == m.v[y] && Sprite(m1, n) == Sprite(m, n);
  }

  // ---------------------------------------------------------------- memory

  /** `Fx33` fails exactly when I + 2 lies past memory; otherwise it writes three decimal digits
      that make up Vx, and nothing else. */
  lemma BcdDigits(m: State, x: Nibble, rnd: u8)
    requires WellFormed(m)
    ensures Exec(m, StoreBcd(x), rnd).Err? <==> m.i + 2 >= RAM_SIZE
    ensures Exec(m, StoreBcd(x), rnd).Ok? ==>
      var r := Exec(m, StoreBcd(x), rnd).value;
      r == m.(ram := r.ram) && |r.ram| == RAM_SIZE &&
      var (h, t, o) := (r.ram[m.i], r.ram[m.i + 1], r.ram[m.i + 2]);
      h < 10 && t < 10 && o < 10 && 100 * h + 10 * t + o == m.v[x] &&
      forall a :: 0 <= a < RAM_SIZE && !(m.i <= a < m.i + 3) ==> r.ram[a] == m.ram[a]
  {
  }

  /** `Fx55` fails exactly when I + x lies past memory; otherwise ram[I + k] = Vk for k <= x
      and every other byte of memory, and all else, is unchanged. */
  lemma StoreRegistersFrame(m: State, x: Nibble, rnd: u8)
    requires WellFormed(m)
    ensures Exec(m, StoreRegs(x), rnd).Err? <==> m.i + x >= RAM_SIZE
    ensures Exec(m, StoreRegs(x), rnd).Ok? ==>
      var r := Exec(m, StoreRegs(x), rnd).value;
      r == m.(ram := r.ram) && |r.ram| == RAM_SIZE &&
      (forall k :: 0 <= k <= x ==> r.ram[m.i + k] == m.v[k]) &&
      (forall a :: 0 <= a < RAM_SIZE && !(m.i <= a <= m.i + x) ==> r.ram[a] == m.ram[a])
  {
  }

  /** `Fx65` fails exactly when I + x lies past memory; otherwise Vk = ram[I + k] for k <= x
      and the registers above x, and all else, are unchanged. */
  lemma LoadRegistersFrame(m: State, x: Nibble, rnd: u8)
    requires WellFormed(m)
    ensures Exec(m, LoadRegs(x), rnd).Err? <==> m.i + x >= RAM_SIZE
    ensures Exec(m, LoadRegs(x), rnd).Ok? ==>
      var r := Exec(m, LoadRegs(x), rnd).value;
      r == m.(v := r.v) && |r.v| == NUM_REGS &&
      (forall k :: 0 <= k <= x ==> r.v[k] == m.ram[m.i + k]) &&
      (forall k :: x < k < NUM_REGS ==> r.v[k] == m.v[k])
  {
  }

  /** `Fx55` then `Fx65` with the same I and x restores V0..Vx whatever the registers held in
      between, and leaves the registers above x as they were just before the load. */
  lemma StoreThenLoad(m: State, x: Nibble, w: seq<u8>, rnd: u8)
    requires WellFormed(m) && m.i + x < RAM_SIZE && |w| == NUM_REGS
    ensures Exec(m, StoreRegs(x), rnd).Ok?
    ensures var m1 := Exec(m, StoreRegs(x), rnd).value.(v := w);
      Exec(m1, LoadRegs(x), rnd).Ok? &&
      Exec(m1, LoadRegs(x), rnd).value.v == m.v[..x + 1] + w[x + 1..]
  {
    var m1 := Exec(m, StoreRegs(x), rnd).value;
    assert m1.ram[m.i .. m.i + x + 1] == m.v[..x + 1];
  }

  /** `Fx29` points I at the five-byte glyph of digit Vx, as long as the font is in place. */
  lemma FontGlyph(m: State, x: Nibble, rnd: u8)
    requires WellFormed(m) && m.ram[..FONTSET_SIZE] == FONTSET && m.v[x] < 16
    ensures Exec(m, LoadFont(x), rnd).Ok?
    ensures var r := Exec(m, LoadFont(x), rnd).value;
      r.i == 5 * m.v[x] && r.i + 5 <= FONTSET_SIZE &&
      r.ram[r.i .. r.i + 5] == FONTSET[5 * m.v[x] .. 5 * m.v[x] + 5]
  {
    var r := Exec(m, LoadFont(x), rnd).value;
    assert r.ram[r.i .. r.i + 5] == m.ram[..FONTSET_SIZE][r.i .. r.i + 5];
  }

  /** `load` succeeds exactly when the ROM fits above 0x200, puts it there and changes nothing else. */
  lemma LoadCopiesRom(m: State, data: seq<u8>)
    requires WellFormed(m)
    ensures Load(m, data).Ok? <==> |data| <= RAM_SIZE - START_ADDR
    ensures Load(m, data).Ok? ==>
      var r := Load(m, data).value;
      r == m.(ram := r.ram) && |r.ram| == RAM_SIZE &&
      r.ram[START_ADDR .. START_ADDR + |data|] == data &&
      r.ram[..START_ADDR] == m.ram[..START_ADDR] &&
      r.ram[START_ADDR + |data|..] == m.ram[START_ADDR + |data|..]
  {
  }

  // ---------------------------------------------------------------- keys

  /** `keypress` fails exactly on an index of 16 or more; otherwise it sets that one key. */
  lemma KeypressSetsOneKey(m: State, idx: nat, pressed: bool)
    requires WellFormed(m)
    ensures Keypress(m, idx, pressed).Err? <==> idx >= NUM_KEYS
    ensures Keypress(m, idx, pressed).Ok? ==>
      var r := Keypress(m, idx, pressed).value;
      r == m.(keys := r.keys) && |r.keys| == NUM_KEYS && r.keys[idx] == pressed &&
      forall j :: 0 <= j < NUM_KEYS && j != idx ==> r.keys[j] == m.keys[j]
  {
  }

  /** `Ex9E` / `ExA1` fail exactly when Vx is not a key; otherwise they skip when key Vx is
      (respectively is not) held. */
  lemma SkipOnKeyCases(m: State, x: Nibble, rnd: u8)
    requires WellFormed(m) && m.pc + 2 <= 0xFFFF
    ensures Exec(m, SkipKey(x), rnd).Err? <==> m.v[x] >= NUM_KEYS
    ensures Exec(m, SkipNotKey(x), rnd).Err? <==> m.v[x] >= NUM_KEYS
    ensures m.v[x] < NUM_KEYS ==>
      Exec(m, SkipKey(x), rnd) == Ok(m.(pc := m.pc + if m.keys[m.v[x]] then 2 else 0)) &&
      Exec(m, SkipNotKey(x), rnd) == Ok(m.(pc := m.pc + if m.keys[m.v[x]] then 0 else 2))
  {
  }

  /** `Fx0A` with key k held and no lower key held stores k in Vx and changes nothing else. */
  lemma WaitKeyStoresLowest(m: State, x: Nibble, k: nat, rnd: u8)
    requires WellFormed(m) && k < NUM_KEYS && m.keys[k]
    requires forall j :: 0 <= j < k ==> !m.keys[j]
    ensures Exec(m, WaitKey(x), rnd) == Ok(m.(v := m.v[x := k]))
  {
  }

  /** `Fx0A` with no key held: the tick ends in exactly the state it started from, so the
      same instruction is fetched again. */
  lemma WaitKeyRepeats(m: State, x: Nibble, rnd: u8)
    requires WellFormed(m) && Fetch(m).Ok? && Decode(Fetch(m).value.0) == WaitKey(x)
    requires forall j :: 0 <= j < NUM_KEYS ==> !m.keys[j]
    ensures Tick(m, rnd) == Ok(m)
  {
  }

  // ---------------------------------------------------------------- a whole program

  /** The ROM `6005 7003` loaded into a fresh machine: two ticks leave V0 = 8, pc past both. */
  lemma LoadAddProgram()
    ensures Load(Boot(), [0x60, 0x05, 0x70, 0x03]).Ok?
    ensures var m0 := Load(Boot(), [0x60, 0x05, 0x70, 0x03]).value;
      Tick(m0, 0).Ok? && Tick(Tick(m0, 0).value, 0).Ok? &&
      Tick(Tick(m0, 0).value, 0).value.v[0] == 8 &&
      Tick(Tick(m0, 0).value, 0).value.pc == 0x204
  {
    var m0 := Load(Boot(), [0x60, 0x05, 0x70, 0x03]).value;
    FetchDecodes(m0, LoadByte(0, 5));
    var m1 := Tick(m0, 0).value;
    FetchDecodes(m1, AddByte(0, 3));
  }
}
