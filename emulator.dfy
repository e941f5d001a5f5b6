/** The mutable machine of `chip8.hpp` and the operations of `chip8.cpp`
    that update it in place: construction, the copy loop of the loader and
    `emulate_op`. Each method is proved to do what the value-level
    `Semantics.Step` says. */
module Emulator {
  import opened Bits
  import opened Isa
  import opened Semantics
  import opened Properties

  class Chip8 {
    const memory: array<byte>
    var I: word
    var PC: word
    var sp: word
    const stack: array<word>
    var programSize: nat
    var DT: byte
    var ST: byte
    const V: array<byte>
    const keyPressed: array<bool>
    var awaitingKey: byte
    const screen: array<byte>
    var redraw: bool

    /** The arrays have their declared sizes and the three byte arrays are
        distinct objects. */
    ghost predicate Layout()
      reads this
    {
      && memory.Length == MemorySize
      && V.Length == RegisterCount
      && stack.Length == StackDepth
      && keyPressed.Length == KeyCount
      && screen.Length == ScreenSize
      && memory != V && memory != screen && V != screen
    }

    /** The machine as a value. */
    ghost function State(): (m: Machine)
      reads this, memory, V, stack, keyPressed, screen
      requires Layout()
      ensures Shaped(m)
    {
      Machine(memory[..], V[..], I, PC, sp, stack[..], DT, ST, keyPressed[..],
              awaitingKey, screen[..], redraw)
    }

    ghost predicate Valid()
      reads this, memory, V, stack, keyPressed, screen
    {
      Layout() && Invariant(State())
    }

    /** The initialisers of the header and the constructor's body: the font
        goes to address 0 and the screen is filled with 0. The rest of
        memory, `redraw` and `programSize` have no initialiser, so nothing
        is promised about them. */
    constructor ()
      ensures Valid()
      ensures fresh(memory) && fresh(V) && fresh(stack) && fresh(keyPressed) && fresh(screen)
      ensures memory[..|Font|] == Font
      ensures screen[..] == Blank()
      ensures I == 0 && PC == LoadAddress && sp == 0
      ensures stack[..] == seq(StackDepth, _ => 0)
      ensures DT == 0 && ST == 0
      ensures V[..] == seq(RegisterCount, _ => 0)
      ensures keyPressed[..] == seq(KeyCount, _ => false)
      ensures awaitingKey == 0
    {
      memory := new byte[MemorySize];
      I, PC, sp := 0, LoadAddress, 0;
      stack := new word[StackDepth](_ => 0);
      DT, ST := 0, 0;
      V := new byte[RegisterCount](_ => 0);
      keyPressed := new bool[KeyCount](_ => false);
      awaitingKey := 0;
      screen := new byte[ScreenSize];
      new;
      LoadFont();
      FillScreen();
    }

    /** `std::copy` of the font to the start of memory. */
    method LoadFont()
      requires Layout()
      modifies memory
      ensures memory[..|Font|] == Font
      ensures memory[|Font|..] == old(memory[|Font|..])
    {
      var k := 0;
      while k < |Font|
        invariant 0 <= k <= |Font|
        invariant memory[..k] == Font[..k]
        invariant memory[k..] == old(memory[k..])
      {
        memory[k] := Font[k];
        k := k + 1;
      }
    }

    /** `m_Screen.fill(0)`. */
    method FillScreen()
      requires Layout()
      modifies screen
      ensures screen[..] == Blank()
    {
      var k := 0;
      while k < ScreenSize
        invariant 0 <= k <= ScreenSize
        invariant forall j | 0 <= j < k :: screen[j] == 0
      {
        screen[k] := 0;
        k := k + 1;
      }
      assert screen[..] == Blank();
    }

    /** The copy loop of `load_program`, given the program's bytes: an empty
        program is refused, otherwise the bytes go to memory from PC on. */
    method LoadProgram(program: seq<byte>) returns (ok: bool)
      requires Valid()
      requires PC + |program| <= MemorySize
      modifies this`programSize, memory
      ensures Valid()
      ensures programSize == |program|
      ensures ok <==> program != []
      ensures State() == old(State()).(mem := LoadImage(old(memory[..]), PC, program))
    {
      programSize := |program|;
      if programSize == 0 {
        return false;
      }
      CopyProgram(program);
      ok := true;
    }

    /** The loader's loop: each program byte goes to PC plus its offset. */
    method CopyProgram(program: seq<byte>)
      requires Layout() && PC + |program| <= MemorySize
      modifies memory
      ensures memory[..] == LoadImage(old(memory[..]), PC, program)
    {
      ghost var mem := memory[..];
      var i: int := 0;
      while i < |program|
        invariant 0 <= i <= |program|
        invariant memory[..] == LoadImage(mem, PC, program[..i])
      {
        LoadImageStep(mem, PC, program, i);
        memory[i + PC] := program[i];
        i := i + 1;
      }
      assert program[..i] == program;
    }

    /** Moves PC on by one instruction, two bytes. */
    method Advance()
      modifies this`PC
      ensures PC == ToWord(old(PC) + 2)
    {
      PC := ToWord(PC as int + 2);
    }

    /** One cycle of `emulate_op`; `rnd` is the generator's byte for Cxkk. */
    method EmulateOp(rnd: byte) returns (outcome: Outcome)
      requires Valid()
      modifies this`I, this`PC, this`sp, this`DT, this`ST, this`awaitingKey, this`redraw
      modifies memory, V, stack, screen
      ensures Valid()
      ensures Transition(outcome, State()) == Step(old(State()), rnd)
    {
      ghost var m := State();
      if PC as int + 1 >= MemorySize {
        return Undefined(FetchOutOfRange);
      }
      var ins := Decode(Opcode(memory[PC], memory[PC + 1]));
      ghost var t := Execute(m, ins, rnd);
      assert t == Step(m, rnd);
      StepPreservesInvariant(m, rnd);
      assert Invariant(t.next);
      outcome := Dispatch(ins, rnd);
    }

    /** The switch on the group nibble. */
    method Dispatch(ins: Instr, rnd: byte) returns (outcome: Outcome)
      requires Layout() && ins.nnn < 0x1000
      modifies this`I, this`PC, this`sp, this`DT, this`ST, this`awaitingKey, this`redraw
      modifies memory, V, stack, screen
      ensures Transition(outcome, State()) == Execute(old(State()), ins, rnd)
    {
      match ins.u
      case 0x0 =>
        outcome := System(ins);
      case 0x8 =>
        outcome := Arith(ins);
      case 0xD =>
        outcome := Draw(ins.x, ins.y, ins.n);
      case 0xE =>
        outcome := KeySkip(ins);
      case 0xF =>
        outcome := Misc(ins);
      case _ =>
        outcome := Direct(ins, rnd);
    }

    /** The groups whose whole effect is written in the top-level switch. */
    method Direct(ins: Instr, rnd: byte) returns (outcome: Outcome)
      requires Layout() && ins.nnn < 0x1000
      requires ins.u !in {0x0, 0x8, 0xD, 0xE, 0xF}
      modifies this`I, this`PC, V, stack, this`sp
      ensures Transition(outcome, State()) == Execute(old(State()), ins, rnd)
    {
      if ins.u in {0x6, 0x7, 0xA, 0xC} {
        Load(ins, rnd);
        outcome := Executed;
      } else {
        outcome := Flow(ins, rnd);
      }
    }

    /** Jumps, the call and the conditional skips. */
    method Flow(ins: Instr, rnd: byte) returns (outcome: Outcome)
      requires Layout() && ins.nnn < 0x1000
      requires ins.u in {0x1, 0x2, 0x3, 0x4, 0x5, 0x9, 0xB}
      modifies this`PC, stack, this`sp
      ensures Transition(outcome, State()) == Execute(old(State()), ins, rnd)
    {
      var x, y, kk, nnn := ins.x, ins.y, ins.kk, ins.nnn;
      outcome := Executed;
      if ins.u == 0x1 {
        PC := nnn;
      } else if ins.u == 0x2 {
        outcome := Call(nnn);
      } else if ins.u == 0x3 {
        if V[x] == kk { Advance(); }
        Advance();
      } else if ins.u == 0x4 {
        if V[x] != kk { Advance(); }
        Advance();
      } else if ins.u == 0x5 {
        if V[x] == V[y] { Advance(); }
        Advance();
      } else if ins.u == 0x9 {
        if V[x] != V[y] { Advance(); }
        Advance();
      } else {
        PC := ToWord(V[0] + nnn);
      }
    }

    /** Loads into Vx or I, each followed by `PC += 2`. */
    method Load(ins: Instr, rnd: byte)
      requires Layout() && ins.nnn < 0x1000
      requires ins.u in {0x6, 0x7, 0xA, 0xC}
      modifies this`I, this`PC, V
      ensures Transition(Executed, State()) == Execute(old(State()), ins, rnd)
    {
      var x, kk := ins.x, ins.kk;
      if ins.u == 0x6 {
        V[x] := kk;
      } else if ins.u == 0x7 {
        V[x] := ToByte(V[x] as int + kk);
      } else if ins.u == 0xA {
        I := ins.nnn;
      } else {
        V[x] := And(rnd, kk);
      }
      Advance();
    }

    /** Group 0: clear the screen or return, on the low nibble. */
    method System(ins: Instr) returns (outcome: Outcome)
      requires Layout()
      modifies this`PC, this`sp, this`redraw, screen
      ensures Transition(outcome, State()) == ExecSystem(old(State()), ins)
    {
      if ins.n == 0x0 {
        FillScreen();
        redraw := true;
        Advance();
        outcome := Executed;
      } else if ins.n == 0xE {
        if sp == 0 {
          return Undefined(StackUnderflow);
        } else if sp > StackDepth {
          return Undefined(StackOverflow);
        }
        sp := sp - 1;
        PC := ToWord(stack[sp] as int + 2);
        outcome := Executed;
      } else {
        outcome := Halted(ins.u * 0x10 + ins.x, ins.kk);
      }
    }

    /** 2nnn: push PC and jump. */
    method Call(nnn: word) returns (outcome: Outcome)
      requires Layout()
      modifies this`PC, this`sp, stack
      ensures Transition(outcome, State()) == Semantics.Call(old(State()), nnn)
    {
      if sp >= StackDepth {
        return Undefined(StackOverflow);
      }
      stack[sp] := PC;
      sp := sp + 1;
      PC := nnn;
      outcome := Executed;
    }

    /** Group 8: the register-register operations, on the low nibble. */
    method Arith(ins: Instr) returns (outcome: Outcome)
      requires Layout()
      modifies this`PC, V
      ensures Transition(outcome, State()) == ExecArith(old(State()), ins)
    {
      if !ArithKnown(ins.n) {
        return Halted(ins.u * 0x10 + ins.x, ins.kk);
      }
      ArithOp(ins.x, ins.y, ins.n);
      Advance();
      outcome := Executed;
    }

    /** The register updates of group 8. */
    method ArithOp(x: nibble, y: nibble, n: nibble)
      requires Layout() && ArithKnown(n)
      modifies V
      ensures V[..] == ArithRegisters(old(V[..]), x, y, n)
    {
      if n == 0x0 {
        V[x] := V[y];
      } else if n == 0x1 {
        V[x] := Or(V[x], V[y]);
      } else if n == 0x2 {
        V[x] := And(V[x], V[y]);
      } else if n == 0x3 {
        V[x] := Xor(V[x], V[y]);
      } else if n == 0x4 {
        V[VF] := if V[x] as int + V[y] > 0xFF then 1 else 0;
        V[x] := ToByte(V[x] as int + V[y]);
      } else if n == 0x5 {
        V[VF] := if V[x] > V[y] then 1 else 0;
        V[x] := ToByte(V[x] as int - V[y]);
      } else if n == 0x6 {
        V[VF] := V[x] % 2;
        V[x] := V[x] / 2;
      } else if n == 0x7 {
        V[VF] := if V[y] > V[x] then 1 else 0;
        V[y] := ToByte(V[y] as int - V[x]);
      } else {
        V[VF] := V[x] / 0x80;
        V[x] := ToByte(V[x] as int * 2);
      }
    }

    /** Dxyn: for each of the n sprite rows, walking a pointer from I, and
        each of its 8 bits, toggle the pixel under every set bit. */
    method Draw(x: nibble, y: nibble, n: nibble) returns (outcome: Outcome)
      requires Layout()
      modifies this`PC, this`redraw, V, screen
      ensures Transition(outcome, State()) == ExecDraw(old(State()), x, y, n)
    {
      if I >= MemorySize || I as int + n > MemorySize {
        return Undefined(MemoryOutOfRange);
      }
      DrawSprite(x, y, n);
      redraw := true;
      Advance();
      outcome := Executed;
    }

    /** The two loops of Dxyn: the rows of the sprite from I on, each drawn
        on the screen row `(Vy + h) % 32` read before the row is drawn. */
    method DrawSprite(x: nibble, y: nibble, n: nibble)
      requires Layout() && I + n <= MemorySize
      modifies V, screen
      ensures Canvas(V[..], screen[..]) == PlotRows(old(Canvas(V[..], screen[..])), memory[..], I, x, y, n)
    {
      ghost var mem := memory[..];
      ghost var c0 := Canvas(V[..], screen[..]);
      var row: int := I;
      var h: int := 0;
      while h < n
        invariant 0 <= h <= n && row == I + h
        invariant Canvas(V[..], screen[..]) == PlotRows(c0, mem, I, x, y, h)
      {
        var py: int := (V[y] as int + h) % 32;
        DrawRow(x, py, memory[row]);
        row := row + 1;
        h := h + 1;
      }
      assert memory[..] == mem;
    }

    /** The eight bits of one sprite row, most significant first. */
    method DrawRow(x: nibble, py: nat, row: byte)
      requires Layout() && py < ScreenHeight
      modifies V, screen
      ensures Canvas(V[..], screen[..]) == PlotColumns(old(Canvas(V[..], screen[..])), x, py, row, 8)
    {
      ghost var c0 := Canvas(V[..], screen[..]);
      var w: int := 0;
      while w < 8
        invariant 0 <= w <= 8
        invariant Canvas(V[..], screen[..]) == PlotColumns(c0, x, py, row, w)
      {
        Plot(x, py, row, w);
        w := w + 1;
      }
    }

    /** One bit of a sprite row: under a set bit, VF receives whether the
        pixel was lit and the pixel is toggled. */
    method Plot(x: nibble, py: nat, row: byte, w: nat)
      requires Layout() && py < ScreenHeight && w < 8
      modifies V, screen
      ensures Canvas(V[..], screen[..]) == PlotPixel(old(Canvas(V[..], screen[..])), x, py, row, w)
    {
      var cell := 64 * py + (V[x] as int + w) % 64;
      if SpriteBit(row, w) {
        var pixel := screen[cell];
        V[VF] := if pixel == 1 then 1 else 0;
        screen[cell] := Xor(pixel, 1);
      }
    }

    /** Group E: skip on the key named by Vx, on the low byte. */
    method KeySkip(ins: Instr) returns (outcome: Outcome)
      requires Layout()
      modifies this`PC
      ensures Transition(outcome, State()) == ExecKeySkip(old(State()), ins)
    {
      var vx := V[ins.x];
      outcome := Executed;
      if ins.kk == 0x9E {
        if vx >= KeyCount {
          return Undefined(KeyOutOfRange);
        }
        if keyPressed[vx] { Advance(); }
        Advance();
      } else if ins.kk == 0xA1 {
        if vx >= KeyCount {
          return Undefined(KeyOutOfRange);
        }
        if !keyPressed[vx] { Advance(); }
        Advance();
      }
    }

    /** Group F: timers, key wait, I, BCD and the register block copies. */
    method Misc(ins: Instr) returns (outcome: Outcome)
      requires Layout()
      modifies this`PC, this`I, this`DT, this`ST, this`awaitingKey, V, memory
      ensures Transition(outcome, State()) == ExecMisc(old(State()), ins)
    {
      if ins.kk in {0x33, 0x55, 0x65} {
        outcome := MiscMemory(ins);
      } else {
        outcome := MiscRegisters(ins);
      }
    }

    /** Group F subcodes on the timers, the key wait, I and VF. */
    method MiscRegisters(ins: Instr) returns (outcome: Outcome)
      requires Layout() && ins.kk !in {0x33, 0x55, 0x65}
      modifies this`PC, this`I, this`DT, this`ST, this`awaitingKey, V
      ensures Transition(outcome, State()) == ExecMisc(old(State()), ins)
    {
      var x := ins.x;
      if ins.kk == 0x07 {
        V[x] := DT;
      } else if ins.kk == 0x0A {
        awaitingKey := Or(0x80, x);
      } else if ins.kk == 0x15 {
        DT := V[x];
      } else if ins.kk == 0x18 {
        ST := V[x];
      } else if ins.kk == 0x1E {
        I := ToWord(I as int + V[x]);
        V[VF] := if I as int + V[x] > 0xFF then 1 else 0;
      } else if ins.kk == 0x29 {
        I := 5 * V[x] as int;
      } else {
        return Halted(ins.u * 0x10 + ins.x, ins.kk);
      }
      Advance();
      outcome := Executed;
    }

    /** Fx33, Fx55 and Fx65: the subcodes that touch memory from I. */
    method MiscMemory(ins: Instr) returns (outcome: Outcome)
      requires Layout() && ins.kk in {0x33, 0x55, 0x65}
      modifies this`PC, this`I, V, memory
      ensures Transition(outcome, State()) == ExecMisc(old(State()), ins)
    {
      var x := ins.x;
      if ins.kk == 0x33 {
        if I as int + 2 >= MemorySize {
          return Undefined(MemoryOutOfRange);
        }
        var tmp := V[x] as int;
        var c := tmp % 10;
        tmp := tmp / 10;
        var b := tmp % 10;
        tmp := tmp / 10;
        var a := tmp;
        memory[I] := a;
        memory[I + 1] := b;
        memory[I + 2] := c;
      } else if ins.kk == 0x55 {
        if I as int + x >= MemorySize {
          return Undefined(MemoryOutOfRange);
        }
        StoreRegisterBlock(x);
      } else {
        if I as int + x >= MemorySize {
          return Undefined(MemoryOutOfRange);
        }
        LoadRegisterBlock(x);
      }
      Advance();
      outcome := Executed;
    }

    /** Fx55 without the PC update: copy V0..Vx to memory from I, then
        move I past the block, by x + 1. */
    method StoreRegisterBlock(x: nibble)
      requires Layout() && I + x < MemorySize
      modifies this`I, memory
      ensures I == old(I) + x + 1
      ensures memory[..] == StoreRegisters(old(memory[..]), V[..], old(I), x)
    {
      var base: int := I;
      var p: int := 0;
      while p <= x
        invariant 0 <= p <= x + 1
        invariant forall q | 0 <= q < p :: memory[base + q] == V[q]
        invariant forall a | 0 <= a < MemorySize && !(base <= a < base + p) :: memory[a] == old(memory[a])
        modifies memory
      {
        memory[base + p] := V[p];
        p := p + 1;
      }
      assert memory[..] == StoreRegisters(old(memory[..]), V[..], base, x);
      I := I + x + 1;
    }

    /** Fx65 without the PC update: copy memory from I to V0..Vx, then
        move I past the block, by x + 1. */
    method LoadRegisterBlock(x: nibble)
      requires Layout() && I + x < MemorySize
      modifies this`I, V
      ensures I == old(I) + x + 1
      ensures V[..] == LoadRegisters(memory[..], old(V[..]), old(I), x)
    {
      var base: int := I;
      var p: int := 0;
      while p <= x
        invariant 0 <= p <= x + 1
        invariant forall q | 0 <= q < p :: V[q] == memory[base + q]
        invariant forall q | p <= q < RegisterCount :: V[q] == old(V[q])
        modifies V
      {
        V[p] := memory[base + p];
        p := p + 1;
      }
      assert V[..] == LoadRegisters(memory[..], old(V[..]), base, x);
      I := I + x + 1;
    }
  }
}
