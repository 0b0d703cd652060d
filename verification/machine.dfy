/** The interpreter state as a value, and every operation of the interpreter as
    a function from state to state. These functions are the specification the
    imperative `Chip8.Emu` class is proved against; a panic of the Rust `Emu`
    (an out-of-range index, an overflowing `u16` step, `unimplemented!`) is an
    explicit `Err` carrying the kind of fault. */
module Machine {
  import opened Bytes
  import opened Opcode

  const SCREEN_WIDTH: nat := 64
  const SCREEN_HEIGHT: nat := 32
  const SCREEN_SIZE: nat := 64 * 32
  const RAM_SIZE: nat := 4096
  const NUM_KEYS: nat := 16
  const NUM_REGS: nat := 16
  const START_ADDR: nat := 0x200
  const STACK_SIZE: nat := 16
  const FONTSET_SIZE: nat := 80
  /** Register VF, the carry / borrow / shift-out / collision flag */
  const VF: nat := 0xF

  /** The built-in glyphs 0..F, five rows each, loaded at address 0. */
  const FONTSET: seq<u8> := [
    0xF0, 0x90, 0x90, 0x90, 0xF0, // 0
    0x20, 0x60, 0x20, 0x20, 0x70, // 1
    0xF0, 0x10, 0xF0, 0x80, 0xF0, // 2
    0xF0, 0x10, 0xF0, 0x10, 0xF0, // 3
    0x90, 0x90, 0xF0, 0x10, 0x10, // 4
    0xF0, 0x80, 0xF0, 0x10, 0xF0, // 5
    0xF0, 0x80, 0xF0, 0x90, 0xF0, // 6
    0xF0, 0x10, 0x20, 0x40, 0x40, // 7
    0xF0, 0x90, 0xF0, 0x90, 0xF0, // 8
    0xF0, 0x90, 0xF0, 0x10, 0xF0, // 9
    0xF0, 0x90, 0xF0, 0x90, 0x90, // A
    0xE0, 0x90, 0xE0, 0x90, 0xE0, // B
    0xF0, 0x80, 0x80, 0x80, 0xF0, // C
    0xE0, 0x90, 0x90, 0x90, 0xE0, // D
    0xF0, 0x80, 0xF0, 0x80, 0xF0, // E
    0xF0, 0x80, 0xF0, 0x80, 0x80  // F
  ]

  /** Why the Rust `Emu` would panic. */
  datatype Fault =
    | FetchOutOfRange        // ram[pc] or ram[pc + 1] lies past the end of memory
    | StackOverflow          // push with all 16 stack slots in use
    | StackUnderflow         // pop from an empty stack (sp -= 1 below zero)
    | PcOverflow             // pc += 2 beyond 0xFFFF
    | PcUnderflow            // pc -= 2 below zero
    | KeyOutOfRange          // a key index of 16 or more
    | RamOutOfRange          // a memory access or ROM copy past the end of memory
    | Unimplemented(op: u16) // no arm of the dispatch matches the opcode

  datatype Option<T> = None | Some(value: T)

  datatype Result<T> = Ok(value: T) | Err(fault: Fault)

  /** The fields of `Emu`: `screen` is row-major, pixel (x, y) at index x + 64 * y. */
  datatype State = State(
    pc: u16,
    ram: seq<u8>,
    screen: seq<bool>,
    v: seq<u8>,
    i: u16,
    sp: u16,
    stack: seq<u16>,
    keys: seq<bool>,
    dt: u8,
    st: u8)

  /** The fixed sizes of the arrays, and a stack pointer that indexes the stack or is one past it. */
  predicate WellFormed(m: State) {
    |m.ram| == RAM_SIZE && |m.screen| == SCREEN_SIZE && |m.v| == NUM_REGS &&
    |m.stack| == STACK_SIZE && |m.keys| == NUM_KEYS && m.sp <= STACK_SIZE
  }

  function FaultOf(r: Result<State>): Option<Fault> {
    if r.Ok? then None else Some(r.fault)
  }

  /** The state after an operation; a faulting operation leaves the state as it was. */
  function After(m: State, r: Result<State>): State {
    if r.Ok? then r.value else m
  }

  function Blank(): seq<bool> {
    seq(SCREEN_SIZE, _ => false)
  }

  /** `new` and `reset`: the font at 0..80, pc at the program origin, everything else zero. */
  function Boot(): (m: State)
    ensures WellFormed(m)
  {
    State(START_ADDR, FONTSET + seq(RAM_SIZE - FONTSET_SIZE, _ => 0), Blank(),
          seq(NUM_REGS, _ => 0), 0, 0, seq(STACK_SIZE, _ => 0), seq(NUM_KEYS, _ => false), 0, 0)
  }

  /** `load`: the ROM bytes copied to the program origin; a ROM that does not fit panics. */
  function Load(m: State, data: seq<u8>): (r: Result<State>)
    requires WellFormed(m)
    ensures r.Ok? ==> WellFormed(r.value)
  {
    if START_ADDR + |data| > RAM_SIZE then Err(RamOutOfRange)
    else Ok(m.(ram := m.ram[..START_ADDR] + data + m.ram[START_ADDR + |data|..]))
  }

  /** `keypress`: set or clear one key flag. */
  function Keypress(m: State, idx: nat, pressed: bool): (r: Result<State>)
    requires WellFormed(m)
    ensures r.Ok? ==> WellFormed(r.value)
  {
    if idx >= NUM_KEYS then Err(KeyOutOfRange) else Ok(m.(keys := m.keys[idx := pressed]))
  }

  /** `tick_timers`: the new state and whether to beep. */
  function TickTimers(m: State): (r: (State, bool))
    ensures r.0 == m.(dt := r.0.dt, st := r.0.st)
    ensures r.0.dt == m.dt - 1 || r.0.dt == m.dt == 0
    ensures r.0.st == m.st - 1 || r.0.st == m.st == 0
    ensures r.1 <==> m.st > 0 && r.0.st == 0
  {
    (m.(dt := if m.dt > 0 then m.dt - 1 else m.dt,
        st := if m.st > 0 then m.st - 1 else m.st),
     m.st == 1)
  }

  /** `fetch`: the big-endian word at pc (`(hb << 8) | lb`), with pc advanced by 2. */
  function Fetch(m: State): (r: Result<(u16, State)>)
    requires WellFormed(m)
    ensures r.Ok? ==> WellFormed(r.value.1)
  {
    if m.pc + 1 >= RAM_SIZE then Err(FetchOutOfRange)
    else Ok((m.ram[m.pc] as int * 0x100 + m.ram[m.pc + 1], m.(pc := m.pc + 2)))
  }

  /** `push` */
  function Push(m: State, val: u16): (r: Result<State>)
    requires WellFormed(m)
    ensures r.Ok? ==> WellFormed(r.value)
  {
    if m.sp >= STACK_SIZE then Err(StackOverflow)
    else Ok(m.(stack := m.stack[m.sp := val], sp := m.sp + 1))
  }

  /** `pop`: the popped address and the new state. */
  function Pop(m: State): (r: Result<(u16, State)>)
    requires WellFormed(m)
    ensures r.Ok? ==> WellFormed(r.value.1)
  {
    if m.sp == 0 then Err(StackUnderflow)
    else Ok((m.stack[m.sp - 1], m.(sp := m.sp - 1)))
  }

  function SetV(m: State, x: nat, val: u8): State
    requires WellFormed(m) && x < NUM_REGS
  {
    m.(v := m.v[x := val])
  }

  /** `pc += 2`: skip the next instruction. */
  function SkipNext(m: State): (r: Result<State>)
    ensures r.Ok? <==> m.pc + 2 <= 0xFFFF
    ensures r.Ok? ==> r.value == m.(pc := r.value.pc) && r.value.pc == m.pc + 2
    ensures r.Err? ==> r.fault == PcOverflow
  {
    if m.pc + 2 > 0xFFFF then Err(PcOverflow) else Ok(m.(pc := m.pc + 2))
  }

  function SkipIf(m: State, cond: bool): Result<State> {
    if cond then SkipNext(m) else Ok(m)
  }

  // ---------------------------------------------------------------- sprites

  /** The screen index of sprite cell (row, col) drawn at (vx, vy), each axis wrapped. */
  function PixelIndex(vx: int, vy: int, row: int, col: int): (p: nat)
    ensures p < SCREEN_SIZE
  {
    (vx + col) % SCREEN_WIDTH + SCREEN_WIDTH * ((vy + row) % SCREEN_HEIGHT)
  }

  /** The sprite row that would land on screen index p. */
  function CellRow(vy: int, p: int): nat {
    (p / SCREEN_WIDTH - vy) % SCREEN_HEIGHT
  }

  /** The sprite column that would land on screen index p. */
  function CellCol(vx: int, p: int): nat {
    (p % SCREEN_WIDTH - vx) % SCREEN_WIDTH
  }

  /** Screen index p lies under a set bit of the sprite. */
  predicate Covered(vx: int, vy: int, sprite: seq<u8>, p: int) {
    var row, col := CellRow(vy, p), CellCol(vx, p);
    row < |sprite| && col < 8 && SpriteBit(sprite[row], col)
  }

  /** The screen after XOR-ing the sprite onto it. */
  function Drawn(screen: seq<bool>, vx: int, vy: int, sprite: seq<u8>): (r: seq<bool>)
    ensures |r| == |screen|
  {
    seq(|screen|, p requires 0 <= p < |screen| => screen[p] != Covered(vx, vy, sprite, p))
  }

  /** Some pixel under a set sprite bit was lit: drawing turns it off. */
  predicate Collides(screen: seq<bool>, vx: int, vy: int, sprite: seq<u8>) {
    exists p :: 0 <= p < |screen| && Covered(vx, vy, sprite, p) && screen[p]
  }

  /** The cells (row', col') of the sprite that the draw loop has visited before (row, col) and
      whose bit is set: those it has already XOR-ed onto the screen. */
  ghost predicate Hit(vx: int, vy: int, sprite: seq<u8>, p: int, row: int, col: int) {
    var r, c := CellRow(vy, p), CellCol(vx, p);
    Covered(vx, vy, sprite, p) && (r < row || (r == row && c < col))
  }

  /** Cell (row, col) lands on a screen index whose cell is (row, col) again. */
  lemma CellOfPixel(vx: int, vy: int, row: nat, col: nat)
    requires row < SCREEN_HEIGHT && col < SCREEN_WIDTH
    ensures CellRow(vy, PixelIndex(vx, vy, row, col)) == row
    ensures CellCol(vx, PixelIndex(vx, vy, row, col)) == col
  {
    var a, b := (vx + col) % SCREEN_WIDTH, (vy + row) % SCREEN_HEIGHT;
    var p := a + SCREEN_WIDTH * b;
    assert p / SCREEN_WIDTH == b && p % SCREEN_WIDTH == a;
  }

  /** Every screen index is where its own cell lands. */
  lemma PixelOfCell(vx: int, vy: int, p: int)
    requires 0 <= p < SCREEN_SIZE
    ensures PixelIndex(vx, vy, CellRow(vy, p), CellCol(vx, p)) == p
  {
    var a, b := p % SCREEN_WIDTH, p / SCREEN_WIDTH;
    assert p == a + SCREEN_WIDTH * b;
    assert (vx + CellCol(vx, p)) % SCREEN_WIDTH == a;
    assert (vy + CellRow(vy, p)) % SCREEN_HEIGHT == b;
  }

  /** One step of the draw loop adds exactly the pixel of cell (row, col), if its bit is set. */
  lemma HitStep(vx: int, vy: int, sprite: seq<u8>, p: int, row: nat, col: nat)
    requires row < |sprite| <= 16 && col < 8 && 0 <= p < SCREEN_SIZE
    ensures Hit(vx, vy, sprite, p, row, col + 1) ==
            (Hit(vx, vy, sprite, p, row, col) ||
             (SpriteBit(sprite[row], col) && p == PixelIndex(vx, vy, row, col)))
  {
    CellOfPixel(vx, vy, row, col);
    PixelOfCell(vx, vy, p);
  }

  /** Some set bit among the cells the draw loop has visited before (row, col) lay on a lit pixel. */
  ghost predicate CollidedBefore(before: seq<bool>, vx: int, vy: int, sprite: seq<u8>, row: int, col: int) {
    exists p :: 0 <= p < |before| && Hit(vx, vy, sprite, p, row, col) && before[p]
  }

  /** One step of the draw loop at cell (row, col) keeps the loop's two invariants: the screen is
      the original XOR the cells visited so far, and the flag says whether one of them was lit. */
  lemma DrawStep(before: seq<bool>, s: seq<bool>, vx: int, vy: int, sprite: seq<u8>, row: nat, col: nat)
    requires |before| == |s| == SCREEN_SIZE && row < |sprite| <= 16 && col < 8
    requires forall p :: 0 <= p < SCREEN_SIZE ==> s[p] == (before[p] != Hit(vx, vy, sprite, p, row, col))
    ensures var idx := PixelIndex(vx, vy, row, col);
      var s' := if SpriteBit(sprite[row], col) then s[idx := !s[idx]] else s;
      (forall p :: 0 <= p < SCREEN_SIZE ==> s'[p] == (before[p] != Hit(vx, vy, sprite, p, row, col + 1))) &&
      (CollidedBefore(before, vx, vy, sprite, row, col + 1) <==>
        CollidedBefore(before, vx, vy, sprite, row, col) || (SpriteBit(sprite[row], col) && s[idx]))
  {
    var idx := PixelIndex(vx, vy, row, col);
    forall p | 0 <= p < SCREEN_SIZE
      ensures Hit(vx, vy, sprite, p, row, col + 1) ==
              (Hit(vx, vy, sprite, p, row, col) || (SpriteBit(sprite[row], col) && p == idx))
    {
      HitStep(vx, vy, sprite, p, row, col);
    }
    CellOfPixel(vx, vy, row, col);
    assert !Hit(vx, vy, sprite, idx, row, col);
    if CollidedBefore(before, vx, vy, sprite, row, col + 1) {
      var p :| 0 <= p < |before| && Hit(vx, vy, sprite, p, row, col + 1) && before[p];
      if p != idx {
        assert Hit(vx, vy, sprite, p, row, col);
      }
    }
    if SpriteBit(sprite[row], col) && s[idx] {
      assert Hit(vx, vy, sprite, idx, row, col + 1);
    }
  }

  /** A finished row of the draw loop is the start of the next one. */
  lemma DrawNextRow(before: seq<bool>, vx: int, vy: int, sprite: seq<u8>, row: nat, p: int)
    ensures Hit(vx, vy, sprite, p, row, 8) == Hit(vx, vy, sprite, p, row + 1, 0)
    ensures CollidedBefore(before, vx, vy, sprite, row, 8) == CollidedBefore(before, vx, vy, sprite, row + 1, 0)
  {
  }

  /** After the last row the loop has XOR-ed every covered pixel, and only those. */
  lemma DrawDone(before: seq<bool>, vx: int, vy: int, sprite: seq<u8>, p: int)
    ensures Hit(vx, vy, sprite, p, |sprite|, 0) == Covered(vx, vy, sprite, p)
    ensures CollidedBefore(before, vx, vy, sprite, |sprite|, 0) == Collides(before, vx, vy, sprite)
  {
  }

  /** The n sprite rows at I; with no rows nothing is read. */
  function Sprite(m: State, n: Nibble): (s: seq<u8>)
    requires WellFormed(m) && (n == 0 || m.i + n <= RAM_SIZE)
    ensures |s| == n && forall row :: 0 <= row < n ==> s[row] == m.ram[m.i + row]
  {
    if n == 0 then [] else m.ram[m.i .. m.i + n]
  }

  /** `Dxyn`: the sprite is the n bytes at I; reading past memory panics. */
  function DrawSprite(m: State, x: Nibble, y: Nibble, n: Nibble): (r: Result<State>)
    requires WellFormed(m)
    ensures r.Ok? ==> WellFormed(r.value)
  {
    if n > 0 && m.i + n > RAM_SIZE then Err(RamOutOfRange)
    else
      var sprite := Sprite(m, n);
      var vx, vy := m.v[x], m.v[y];
      Ok(m.(screen := Drawn(m.screen, vx, vy, sprite),
            v := m.v[VF := if Collides(m.screen, vx, vy, sprite) then 1 else 0]))
  }

  // ---------------------------------------------------------------- keys

  /** The lowest pressed key at index `from` or above. */
  function FirstPressed(keys: seq<bool>, from: nat): (r: Option<nat>)
    requires from <= |keys|
    ensures r.Some? ==> from <= r.value < |keys| && keys[r.value]
    ensures r.Some? ==> forall k :: from <= k < r.value ==> !keys[k]
    ensures r.None? ==> forall k :: from <= k < |keys| ==> !keys[k]
    decreases |keys| - from
  {
    if from == |keys| then None
    else if keys[from] then Some(from)
    else FirstPressed(keys, from + 1)
  }

  /** `Fx0A`: the lowest pressed key into Vx, or else pc rewound by 2 so the instruction repeats. */
  function WaitForKey(m: State, x: Nibble): (r: Result<State>)
    requires WellFormed(m)
  {
    match FirstPressed(m.keys, 0)
    case Some(k) => Ok(SetV(m, x, k))
    case None => if m.pc < 2 then Err(PcUnderflow) else Ok(m.(pc := m.pc - 2))
  }

  /** `Ex9E` / `ExA1`: skip when key Vx is (not) pressed; Vx of 16 or more indexes past the keys. */
  function SkipOnKey(m: State, x: Nibble, pressed: bool): Result<State>
    requires WellFormed(m)
  {
    if m.v[x] >= NUM_KEYS then Err(KeyOutOfRange) else SkipIf(m, m.keys[m.v[x]] == pressed)
  }

  // ---------------------------------------------------------------- memory

  /** `Fx33`: hundreds, tens and ones of Vx at I, I + 1, I + 2. */
  function StoreDigits(m: State, x: Nibble): (r: Result<State>)
    requires WellFormed(m)
    ensures r.Ok? ==> WellFormed(r.value)
  {
    if m.i + 2 >= RAM_SIZE then Err(RamOutOfRange)
    else
      var vx := m.v[x];
      Ok(m.(ram := m.ram[m.i := vx / 100][m.i + 1 := vx / 10 % 10][m.i + 2 := vx % 10]))
  }

  /** A sequence that agrees with `c` except on `n` positions from `lo`, where it holds
      `b[..n]`, is that splice of `b` into `c`. */
  lemma Splice<T>(a: seq<T>, c: seq<T>, b: seq<T>, lo: nat, n: nat)
    requires |a| == |c| && lo + n <= |c| && n <= |b|
    requires forall k :: 0 <= k < |a| ==> a[k] == if lo <= k < lo + n then b[k - lo] else c[k]
    ensures a == c[..lo] + b[..n] + c[lo + n..]
  {
    var s := c[..lo] + b[..n] + c[lo + n..];
    assert |s| == |a|;
    forall k | 0 <= k < |a|
      ensures a[k] == s[k]
    {
      if k >= lo + n {
        assert s[k] == c[lo + n..][k - lo - n];
      }
    }
  }

  /** `Fx55`: V0..Vx to ram[I..I + x + 1]. */
  function StoreRegisters(m: State, x: Nibble): (r: Result<State>)
    requires WellFormed(m)
    ensures r.Ok? ==> WellFormed(r.value)
  {
    if m.i + x >= RAM_SIZE then Err(RamOutOfRange)
    else Ok(m.(ram := m.ram[..m.i] + m.v[..x + 1] + m.ram[m.i + x + 1..]))
  }

  /** `Fx65`: ram[I..I + x + 1] to V0..Vx. */
  function LoadRegisters(m: State, x: Nibble): (r: Result<State>)
    requires WellFormed(m)
    ensures r.Ok? ==> WellFormed(r.value)
  {
    if m.i + x >= RAM_SIZE then Err(RamOutOfRange)
    else Ok(m.(v := m.ram[m.i .. m.i + x + 1] + m.v[x + 1..]))
  }

  // ---------------------------------------------------------------- execute

  /** `execute` of one decoded instruction; `rnd` is the byte `rand::random` yields for `Cxkk`.
      pc has already been advanced past the instruction. */
  function Exec(m: State, ins: Instr, rnd: u8): (r: Result<State>)
    requires WellFormed(m)
    ensures r.Ok? ==> WellFormed(r.value)
  {
    match ins
    case Nop => Ok(m)
    case ClearScreen => Ok(m.(screen := Blank()))
    case Return =>
      (match Pop(m)
       case Err(f) => Err(f)
       case Ok((addr, m1)) => Ok(m1.(pc := addr)))
    case Jump(nnn) => Ok(m.(pc := nnn))
    case Call(nnn) =>
      (match Push(m, m.pc)
       case Err(f) => Err(f)
       case Ok(m1) => Ok(m1.(pc := nnn)))
    case SkipEqByte(x, kk) => SkipIf(m, m.v[x] == kk)
    case SkipNeByte(x, kk) => SkipIf(m, m.v[x] != kk)
    case SkipEqReg(x, y) => SkipIf(m, m.v[x] == m.v[y])
    case LoadByte(x, kk) => Ok(SetV(m, x, kk))
    case AddByte(x, kk) => Ok(SetV(m, x, WrappingAdd(m.v[x], kk)))
    case Move(x, y) => Ok(SetV(m, x, m.v[y]))
    case OrReg(x, y) => Ok(SetV(m, x, ByteOp(Or, m.v[x], m.v[y])))
    case AndReg(x, y) => Ok(SetV(m, x, ByteOp(And, m.v[x], m.v[y])))
    case XorReg(x, y) => Ok(SetV(m, x, ByteOp(Xor, m.v[x], m.v[y])))
    case AddReg(x, y) =>
      var (sum, carry) := OverflowingAdd(m.v[x], m.v[y]);
      Ok(SetV(SetV(m, x, sum), VF, if carry then 1 else 0))
    case SubReg(x, y) =>
      var (diff, borrow) := OverflowingSub(m.v[x], m.v[y]);
      Ok(SetV(SetV(m, x, diff), VF, if borrow then 0 else 1))
    case ShiftRight(x, _) =>
      var lsb := m.v[x] % 2;
      Ok(SetV(SetV(m, x, m.v[x] / 2), VF, lsb))
    case SubNReg(x, y) =>
      var (diff, borrow) := OverflowingSub(m.v[y], m.v[x]);
      Ok(SetV(SetV(m, x, diff), VF, if borrow then 0 else 1))
    case ShiftLeft(x, _) =>
      // VF is written first and Vx is shifted afterwards, reading the register again
      var m1 := SetV(m, VF, m.v[x] / 0x80);
      Ok(SetV(m1, x, m1.v[x] as int * 2 % 0x100))
    case SkipNeReg(x, y) => SkipIf(m, m.v[x] != m.v[y])
    case LoadIndex(nnn) => Ok(m.(i := nnn))
    case JumpV0(nnn) => Ok(m.(pc := m.v[0] + nnn))
    case Random(x, kk) => Ok(SetV(m, x, ByteOp(And, rnd, kk)))
    case Draw(x, y, n) => DrawSprite(m, x, y, n)
    case SkipKey(x) => SkipOnKey(m, x, true)
    case SkipNotKey(x) => SkipOnKey(m, x, false)
    case LoadDelay(x) => Ok(SetV(m, x, m.dt))
    case WaitKey(x) => WaitForKey(m, x)
    case SetDelay(x) => Ok(m.(dt := m.v[x]))
    case SetSound(x) => Ok(m.(st := m.v[x]))
    case AddIndex(x) => Ok(m.(i := WrappingAdd16(m.i, m.v[x])))
    case LoadFont(x) => Ok(m.(i := m.v[x] as int * 5))
    case StoreBcd(x) => StoreDigits(m, x)
    case StoreRegs(x) => StoreRegisters(m, x)
    case LoadRegs(x) => LoadRegisters(m, x)
    case Unknown(op) => Err(Unimplemented(op))
  }

  /** `tick`: fetch, then decode and execute. */
  function Tick(m: State, rnd: u8): (r: Result<State>)
    requires WellFormed(m)
    ensures r.Ok? ==> WellFormed(r.value)
  {
    match Fetch(m)
    case Err(f) => Err(f)
    case Ok((op, m1)) => Exec(m1, Decode(op), rnd)
  }
}
