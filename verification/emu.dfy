/** The interpreter object: fixed-size arrays and registers updated in place.
    Every method is proved to move the object's state (`Model()`) exactly as the
    corresponding function of module `Machine` says. */
module Chip8 {
  import opened Bytes
  import opened Opcode
  import opened Machine

  class Emu {
    var pc: u16
    const ram: array<u8>
    const screen: array<bool>
    const v: array<u8>
    var i: u16
    var sp: u16
    const stack: array<u16>
    const keys: array<bool>
    var dt: u8
    var st: u8

    ghost predicate Valid()
      reads this
    {
      ram.Length == RAM_SIZE && screen.Length == SCREEN_SIZE && v.Length == NUM_REGS &&
      stack.Length == STACK_SIZE && keys.Length == NUM_KEYS && sp <= STACK_SIZE &&
      ram != v && screen != keys
    }

    /** The state of the object as a value. */
    ghost function Model(): (m: State)
      reads this, ram, screen, v, stack, keys
      ensures Valid() ==> WellFormed(m)
    {
      State(pc, ram[..], screen[..], v[..], i, sp, stack[..], keys[..], dt, st)
    }

    /** `new` */
    constructor ()
      ensures Valid() && Model() == Boot()
      ensures fresh(ram) && fresh(screen) && fresh(v) && fresh(stack) && fresh(keys)
    {
      pc := START_ADDR;
      ram := new u8[RAM_SIZE](_ => 0);
      screen := new bool[SCREEN_SIZE](_ => false);
      v := new u8[NUM_REGS](_ => 0);
      i := 0;
      sp := 0;
      stack := new u16[STACK_SIZE](_ => 0);
      keys := new bool[NUM_KEYS](_ => false);
      dt := 0;
      st := 0;
      new;
      forall k | 0 <= k < FONTSET_SIZE {
        ram[k] := FONTSET[k];
      }
      assert ram[..] == Boot().ram;
    }

    /** `reset`: back to the state `new` produces. */
    method Reset()
      requires Valid()
      modifies this, ram, screen, v, stack, keys
      ensures Valid() && Model() == Boot()
    {
      pc := START_ADDR;
      forall k | 0 <= k < ram.Length {
        ram[k] := 0;
      }
      forall k | 0 <= k < screen.Length {
        screen[k] := false;
      }
      forall k | 0 <= k < v.Length {
        v[k] := 0;
      }
      i := 0;
      sp := 0;
      forall k | 0 <= k < stack.Length {
        stack[k] := 0;
      }
      forall k | 0 <= k < keys.Length {
        keys[k] := false;
      }
      dt := 0;
      st := 0;
      forall k | 0 <= k < FONTSET_SIZE {
        ram[k] := FONTSET[k];
      }
      assert ram[..] == Boot().ram;
    }

    /** `tick`: one fetch-decode-execute cycle. `rnd` is the byte `rand::random` yields
        if the instruction is `Cxkk`. After a fault nothing is promised of the state:
        the Rust `Emu` has panicked. */
    method Tick(rnd: u8) returns (fault: Option<Fault>)
      requires Valid()
      modifies this, ram, screen, v, stack
      ensures Valid()
      ensures fault == FaultOf(Machine.Tick(old(Model()), rnd))
      ensures fault.None? ==> Model() == Machine.Tick(old(Model()), rnd).value
    {
      var op;
      op, fault := Fetch();
      if fault.None? {
        fault := Execute(op, rnd);
      }
    }

    /** `tick_timers`: both timers count down to zero; beep when the sound timer goes 1 -> 0. */
    method TickTimers() returns (beep: bool)
      requires Valid()
      modifies this
      ensures Valid()
      ensures (Model(), beep) == Machine.TickTimers(old(Model()))
    {
      beep := false;
      if dt > 0 {
        dt := dt - 1;
      }
      if st > 0 {
        if st == 1 {
          beep := true;
        }
        st := st - 1;
      }
    }

    /** `get_display` */
    method Display() returns (d: seq<bool>)
      requires Valid()
      ensures d == Model().screen && |d| == SCREEN_SIZE
    {
      d := screen[..];
    }

    /** `load`: copy the ROM to the program origin. */
    method Load(data: seq<u8>) returns (fault: Option<Fault>)
      requires Valid()
      modifies ram
      ensures Valid()
      ensures fault == FaultOf(Machine.Load(old(Model()), data))
      ensures Model() == After(old(Model()), Machine.Load(old(Model()), data))
    {
      if START_ADDR + |data| > RAM_SIZE {
        return Some(RamOutOfRange);
      }
      forall k | 0 <= k < |data| {
        ram[START_ADDR + k] := data[k];
      }
      assert ram[..] == old(ram[..])[..START_ADDR] + data + old(ram[..])[START_ADDR + |data|..];
      fault := None;
    }

    /** `keypress` */
    method Keypress(idx: nat, pressed: bool) returns (fault: Option<Fault>)
      requires Valid()
      modifies keys
      ensures Valid()
      ensures fault == FaultOf(Machine.Keypress(old(Model()), idx, pressed))
      ensures Model() == After(old(Model()), Machine.Keypress(old(Model()), idx, pressed))
    {
      if idx >= NUM_KEYS {
        return Some(KeyOutOfRange);
      }
      keys[idx] := pressed;
      fault := None;
    }

    /** `fetch` */
    method Fetch() returns (op: u16, fault: Option<Fault>)
      requires Valid()
      modifies this
      ensures Valid()
      ensures var r := Machine.Fetch(old(Model()));
        fault == (if r.Ok? then None else Some(r.fault)) &&
        (r.Ok? ==> op == r.value.0 && Model() == r.value.1) &&
        (r.Err? ==> Model() == old(Model()))
    {
      if pc as int + 1 >= RAM_SIZE {
        return 0, Some(FetchOutOfRange);
      }
      var hb := ram[pc];
      var lb := ram[pc + 1];
      op := hb as int * 0x100 + lb;
      pc := pc + 2;
      fault := None;
    }

    /** `push` */
    method Push(val: u16) returns (fault: Option<Fault>)
      requires Valid()
      modifies this, stack
      ensures Valid()
      ensures fault == FaultOf(Machine.Push(old(Model()), val))
      ensures Model() == After(old(Model()), Machine.Push(old(Model()), val))
    {
      if sp >= STACK_SIZE as u16 {
        return Some(StackOverflow);
      }
      stack[sp] := val;
      sp := sp + 1;
      fault := None;
    }

    /** `pop` */
    method Pop() returns (val: u16, fault: Option<Fault>)
      requires Valid()
      modifies this
      ensures Valid()
      ensures var r := Machine.Pop(old(Model()));
        fault == (if r.Ok? then None else Some(r.fault)) &&
        (r.Ok? ==> val == r.value.0 && Model() == r.value.1) &&
        (r.Err? ==> Model() == old(Model()))
    {
      if sp == 0 {
        return 0, Some(StackUnderflow);
      }
      sp := sp - 1;
      val := stack[sp];
      fault := None;
    }

    /** `pc += 2` */
    method SkipNext() returns (fault: Option<Fault>)
      requires Valid()
      modifies this
      ensures Valid()
      ensures fault == FaultOf(Machine.SkipNext(old(Model())))
      ensures Model() == After(old(Model()), Machine.SkipNext(old(Model())))
    {
      if pc as int + 2 > 0xFFFF {
        return Some(PcOverflow);
      }
      pc := pc + 2;
      fault := None;
    }

    /** `execute`: decode, then run the matching arm. The arm methods other than the one for
        `Cxkk` are specified with the random byte 0, since the byte reaches no other arm
        (`Properties.RandomOnlyForCxkk`). */
    method Execute(op: u16, rnd: u8) returns (fault: Option<Fault>)
      requires Valid()
      modifies this, ram, screen, v, stack
      ensures Valid()
      ensures fault == FaultOf(Exec(old(Model()), Decode(op), rnd))
      ensures Model() == After(old(Model()), Exec(old(Model()), Decode(op), rnd))
    {
      var ins := Decode(op);
      if ins.IsRegisterOp() {
        ExecuteRegisterOp(ins, rnd);
        fault := None;
      } else if ins.IsControlOp() {
        fault := ExecuteControlOp(ins);
      } else {
        fault := ExecuteMemoryOp(ins);
      }
    }

    /** The arms that change only registers V0..VF. */
    method ExecuteRegisterOp(ins: Instr, rnd: u8)
      requires Valid() && ins.IsRegisterOp()
      modifies v
      ensures Valid()
      ensures Exec(old(Model()), ins, rnd).Ok?
      ensures Model() == Exec(old(Model()), ins, rnd).value
    {
      if ins.ShiftLeft? {
        ExecuteShiftLeft(ins.x, ins.y);
      } else if ins.ShiftRight? {
        ExecuteShiftRight(ins.x, ins.y);
      } else if ins.AddReg? || ins.SubReg? || ins.SubNReg? {
        ExecuteFlagOp(ins);
      } else if ins.OrReg? || ins.AndReg? || ins.XorReg? || ins.Random? {
        ExecuteLogicOp(ins, rnd);
      } else {
        ExecuteLoadOp(ins);
      }
    }

    /** `6xkk`, `7xkk`, `8xy0` and `Fx07`: compute the new Vx, then write it. */
    method ExecuteLoadOp(ins: Instr)
      requires Valid()
      requires ins.LoadByte? || ins.AddByte? || ins.Move? || ins.LoadDelay?
      modifies v
      ensures Valid()
      ensures Exec(old(Model()), ins, 0).Ok?
      ensures Model() == Exec(old(Model()), ins, 0).value
    {
      var val: u8;
      match ins {
      case LoadByte(x, kk) =>
        val := kk;
      case AddByte(x, kk) =>
        val := WrappingAdd(v[x], kk);
      case Move(x, y) =>
        val := v[y];
      case LoadDelay(x) =>
        val := dt;
      }
      assert Exec(Model(), ins, 0) == Ok(SetV(Model(), ins.x, val));
      v[ins.x] := val;
    }

    /** `8xy1`, `8xy2`, `8xy3` and `Cxkk`: the bitwise operators into Vx. */
    method ExecuteLogicOp(ins: Instr, rnd: u8)
      requires Valid()
      requires ins.OrReg? || ins.AndReg? || ins.XorReg? || ins.Random?
      modifies v
      ensures Valid()
      ensures Exec(old(Model()), ins, rnd).Ok?
      ensures Model() == Exec(old(Model()), ins, rnd).value
    {
      var val: u8;
      match ins {
      case OrReg(x, y) =>
        val := ByteOp(Or, v[x], v[y]);
      case AndReg(x, y) =>
        val := ByteOp(And, v[x], v[y]);
      case XorReg(x, y) =>
        val := ByteOp(Xor, v[x], v[y]);
      case Random(x, kk) =>
        val := ByteOp(And, rnd, kk);
      }
      assert Exec(Model(), ins, rnd) == Ok(SetV(Model(), ins.x, val));
      v[ins.x] := val;
    }

    /** `8xyE`: VF is written first; the shift then reads Vx, which is VF itself when x = F. */
    method ExecuteShiftLeft(x: Nibble, y: Nibble)
      requires Valid()
      modifies v
      ensures Valid()
      ensures Exec(old(Model()), ShiftLeft(x, y), 0).Ok?
      ensures Model() == Exec(old(Model()), ShiftLeft(x, y), 0).value
    {
      var msb := v[x] / 0x80;
      v[VF] := msb;
      v[x] := v[x] as int * 2 % 0x100;
    }

    /** `8xy6`: the shifted value into Vx, then the shifted-out bit into VF. */
    method ExecuteShiftRight(x: Nibble, y: Nibble)
      requires Valid()
      modifies v
      ensures Valid()
      ensures Exec(old(Model()), ShiftRight(x, y), 0).Ok?
      ensures Model() == Exec(old(Model()), ShiftRight(x, y), 0).value
    {
      var lsb := v[x] % 2;
      v[x] := v[x] / 2;
      v[VF] := lsb;
    }

    /** `8xy4`, `8xy5` and `8xy7`: the result into Vx, then the carry or borrow into VF. */
    method ExecuteFlagOp(ins: Instr)
      requires Valid()
      requires ins.AddReg? || ins.SubReg? || ins.SubNReg?
      modifies v
      ensures Valid()
      ensures Exec(old(Model()), ins, 0).Ok?
      ensures Model() == Exec(old(Model()), ins, 0).value
    {
      var x := ins.x;
      var val: u8, flag: u8;
      match ins {
      case AddReg(_, y) =>
        var (sum, carry) := OverflowingAdd(v[x], v[y]);
        val, flag := sum, if carry then 1 else 0;
      case SubReg(_, y) =>
        var (diff, borrow) := OverflowingSub(v[x], v[y]);
        val, flag := diff, if borrow then 0 else 1;
      case SubNReg(_, y) =>
        var (diff, borrow) := OverflowingSub(v[y], v[x]);
        val, flag := diff, if borrow then 0 else 1;
      }
      assert Exec(Model(), ins, 0) == Ok(SetV(SetV(Model(), x, val), VF, flag));
      v[x] := val;
      v[VF] := flag;
    }

    /** The arms that jump, call, return, skip or wait, and the fatal catch-all arm. */
    method ExecuteControlOp(ins: Instr) returns (fault: Option<Fault>)
      requires Valid() && ins.IsControlOp()
      modifies this, screen, v, stack
      ensures Valid()
      ensures fault == FaultOf(Exec(old(Model()), ins, 0))
      ensures Model() == After(old(Model()), Exec(old(Model()), ins, 0))
    {
      if ins.SkipEqByte? || ins.SkipNeByte? || ins.SkipEqReg? || ins.SkipNeReg? {
        fault := ExecuteSkipOp(ins);
      } else if ins.SkipKey? || ins.SkipNotKey? || ins.WaitKey? {
        fault := ExecuteKeyOp(ins);
      } else {
        fault := ExecuteFlowOp(ins);
      }
    }

    /** The arms that clear the screen, jump, call or return, and the fatal catch-all arm. */
    method ExecuteFlowOp(ins: Instr) returns (fault: Option<Fault>)
      requires Valid()
      requires ins.Nop? || ins.ClearScreen? || ins.Return? || ins.Jump? || ins.Call? ||
               ins.JumpV0? || ins.Unknown?
      modifies this, screen, stack
      ensures Valid()
      ensures fault == FaultOf(Exec(old(Model()), ins, 0))
      ensures Model() == After(old(Model()), Exec(old(Model()), ins, 0))
    {
      fault := None;
      match ins
      case Nop =>
      case ClearScreen =>
        forall k | 0 <= k < screen.Length {
          screen[k] := false;
        }
      case Return =>
        var addr;
        addr, fault := Pop();
        if fault.None? {
          pc := addr;
        }
      case Jump(nnn) =>
        pc := nnn;
      case Call(nnn) =>
        fault := Push(pc);
        if fault.None? {
          pc := nnn;
        }
      case JumpV0(nnn) =>
        pc := v[0] + nnn;
      case Unknown(op) =>
        fault := Some(Unimplemented(op));
    }

    /** `3xkk`, `4xkk`, `5xy0` and `9xy0`: skip the next instruction on a register condition. */
    method ExecuteSkipOp(ins: Instr) returns (fault: Option<Fault>)
      requires Valid()
      requires ins.SkipEqByte? || ins.SkipNeByte? || ins.SkipEqReg? || ins.SkipNeReg?
      modifies this
      ensures Valid()
      ensures fault == FaultOf(Exec(old(Model()), ins, 0))
      ensures Model() == After(old(Model()), Exec(old(Model()), ins, 0))
    {
      var taken: bool;
      match ins {
      case SkipEqByte(x, kk) =>
        taken := v[x] == kk;
      case SkipNeByte(x, kk) =>
        taken := v[x] != kk;
      case SkipEqReg(x, y) =>
        taken := v[x] == v[y];
      case SkipNeReg(x, y) =>
        taken := v[x] != v[y];
      }
      assert Exec(Model(), ins, 0) == SkipIf(Model(), taken);
      fault := None;
      if taken {
        fault := SkipNext();
      }
    }

    /** `Ex9E` and `ExA1` skip on the state of key Vx; `Fx0A` waits for a key. */
    method ExecuteKeyOp(ins: Instr) returns (fault: Option<Fault>)
      requires Valid()
      requires ins.SkipKey? || ins.SkipNotKey? || ins.WaitKey?
      modifies this, v
      ensures Valid()
      ensures fault == FaultOf(Exec(old(Model()), ins, 0))
      ensures Model() == After(old(Model()), Exec(old(Model()), ins, 0))
    {
      if ins.WaitKey? {
        fault := WaitForKey(ins.x);
        return;
      }
      var key := v[ins.x];
      if key >= NUM_KEYS as u8 {
        return Some(KeyOutOfRange);
      }
      var taken := if ins.SkipKey? then keys[key] else !keys[key];
      fault := None;
      if taken {
        fault := SkipNext();
      }
    }

    /** The arms that set I or a timer, draw, or move bytes between registers and memory. */
    method ExecuteMemoryOp(ins: Instr) returns (fault: Option<Fault>)
      requires Valid() && !ins.IsRegisterOp() && !ins.IsControlOp()
      modifies this, ram, screen, v
      ensures Valid()
      ensures fault == FaultOf(Exec(old(Model()), ins, 0))
      ensures Model() == After(old(Model()), Exec(old(Model()), ins, 0))
    {
      fault := None;
      match ins
      case LoadIndex(nnn) =>
        i := nnn;
      case SetDelay(x) =>
        dt := v[x];
      case SetSound(x) =>
        st := v[x];
      case AddIndex(x) =>
        i := WrappingAdd16(i, v[x]);
      case LoadFont(x) =>
        i := v[x] as int * 5;
      case Draw(x, y, n) =>
        fault := DrawSprite(x, y, n);
      case StoreBcd(x) =>
        fault := StoreDigits(x);
      case StoreRegs(x) =>
        fault := StoreRegisters(x);
      case LoadRegs(x) =>
        fault := LoadRegisters(x);
    }

    /** `Dxyn`: XOR the n-row sprite at I onto the screen at (Vx, Vy), row by row and
        bit by bit, then set VF to whether a lit pixel was turned off. */
    method DrawSprite(x: Nibble, y: Nibble, n: Nibble) returns (fault: Option<Fault>)
      requires Valid()
      modifies screen, v
      ensures Valid()
      ensures fault == FaultOf(Machine.DrawSprite(old(Model()), x, y, n))
      ensures Model() == After(old(Model()), Machine.DrawSprite(old(Model()), x, y, n))
    {
      if n > 0 && i as int + n > RAM_SIZE {
        return Some(RamOutOfRange);
      }
      var xCoord, yCoord := v[x], v[y];
      ghost var sprite := Sprite(old(Model()), n);
      ghost var before := screen[..];
      var flipped := false;
      var row := 0;
      while row < n
        invariant 0 <= row <= n
        invariant forall p :: 0 <= p < SCREEN_SIZE ==>
          screen[p] == (before[p] != Hit(xCoord, yCoord, sprite, p, row, 0))
        invariant flipped == CollidedBefore(before, xCoord, yCoord, sprite, row, 0)
        invariant v[..] == old(v[..])
      {
        var pixels := ram[i as int + row];
        assert pixels == sprite[row];
        var col := 0;
        while col < 8
          invariant 0 <= col <= 8
          invariant forall p :: 0 <= p < SCREEN_SIZE ==>
            screen[p] == (before[p] != Hit(xCoord, yCoord, sprite, p, row, col))
          invariant flipped == CollidedBefore(before, xCoord, yCoord, sprite, row, col)
          invariant v[..] == old(v[..])
        {
          DrawStep(before, screen[..], xCoord, yCoord, sprite, row, col);
          if SpriteBit(pixels, col) {
            var idx := PixelIndex(xCoord, yCoord, row, col);
            flipped := flipped || screen[idx];
            screen[idx] := !screen[idx];
          }
          col := col + 1;
        }
        forall p | 0 <= p < SCREEN_SIZE {
          DrawNextRow(before, xCoord, yCoord, sprite, row, p);
        }
        row := row + 1;
      }
      forall p | 0 <= p < SCREEN_SIZE {
        DrawDone(before, xCoord, yCoord, sprite, p);
      }
      v[VF] := if flipped then 1 else 0;
      assert screen[..] == Drawn(before, xCoord, yCoord, sprite);
      fault := None;
    }

    /** `Fx0A`: scan the keys in index order; store the first pressed one in Vx, or
        rewind pc so that the instruction is fetched again. */
    method WaitForKey(x: Nibble) returns (fault: Option<Fault>)
      requires Valid()
      modifies this, v
      ensures Valid()
      ensures fault == FaultOf(Machine.WaitForKey(old(Model()), x))
      ensures Model() == After(old(Model()), Machine.WaitForKey(old(Model()), x))
    {
      var pressed := false;
      var k := 0;
      while k < NUM_KEYS
        invariant 0 <= k <= NUM_KEYS
        invariant !pressed && v[..] == old(v[..])
        invariant forall j :: 0 <= j < k ==> !keys[j]
      {
        if keys[k] {
          v[x] := k;
          pressed := true;
          break;
        }
        k := k + 1;
      }
      fault := None;
      if !pressed {
        if pc < 2 {
          fault := Some(PcUnderflow);
        } else {
          pc := pc - 2;
        }
      }
    }

    /** `Fx33` */
    method StoreDigits(x: Nibble) returns (fault: Option<Fault>)
      requires Valid()
      modifies ram
      ensures Valid()
      ensures fault == FaultOf(Machine.StoreDigits(old(Model()), x))
      ensures Model() == After(old(Model()), Machine.StoreDigits(old(Model()), x))
    {
      if i as int + 2 >= RAM_SIZE {
        return Some(RamOutOfRange);
      }
      var vx := v[x];
      ram[i] := vx / 100;
      ram[i + 1] := vx / 10 % 10;
      ram[i + 2] := vx % 10;
      fault := None;
    }

    /** `Fx55` */
    method StoreRegisters(x: Nibble) returns (fault: Option<Fault>)
      requires Valid()
      modifies ram
      ensures Valid()
      ensures fault == FaultOf(Machine.StoreRegisters(old(Model()), x))
      ensures Model() == After(old(Model()), Machine.StoreRegisters(old(Model()), x))
    {
      if i as int + x >= RAM_SIZE {
        return Some(RamOutOfRange);
      }
      ghost var before := Model();
      var index := 0;
      while index <= x
        invariant 0 <= index <= x + 1
        invariant forall k :: 0 <= k < RAM_SIZE ==>
          ram[k] == if i <= k < i as int + index then v[k - i] else before.ram[k]
      {
        ram[i as int + index] := v[index];
        index := index + 1;
      }
      Splice(ram[..], before.ram, v[..], i, x + 1);
      assert Model() == before.(ram := ram[..]);
      fault := None;
    }

    /** `Fx65` */
    method LoadRegisters(x: Nibble) returns (fault: Option<Fault>)
      requires Valid()
      modifies v
      ensures Valid()
      ensures fault == FaultOf(Machine.LoadRegisters(old(Model()), x))
      ensures Model() == After(old(Model()), Machine.LoadRegisters(old(Model()), x))
    {
      if i as int + x >= RAM_SIZE {
        return Some(RamOutOfRange);
      }
      var index := 0;
      while index <= x
        invariant 0 <= index <= x + 1
        invariant forall k :: 0 <= k < NUM_REGS ==>
          v[k] == if k < index then ram[i as int + k] else old(v[k])
      {
        v[index] := ram[i as int + index];
        index := index + 1;
      }
      Splice(v[..], old(v[..]), ram[i..], 0, x + 1);
      fault := None;
    }
  }
}
