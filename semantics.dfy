/** The interpreter's state as a value, and the effect of one instruction on
    it. `Step` follows the opcode switch of `Chip8::emulate_op` branch by
    branch, in the order the source reads and writes the register file, so
    that the cases where x, y or both are the flag register VF come out as
    written. The class in module Emulator is proved against it. */
module Semantics {
  import opened Bits
  import opened Isa

  /** Every field of the machine: memory, the registers V0..VF, I, PC, the
      stack and its pointer, the two timers, the key flags, the key-wait
      latch, the framebuffer and the redraw flag. */
  datatype Machine = Machine(
    mem: seq<byte>,
    v: seq<byte>,
    i: word,
    pc: word,
    sp: word,
    stack: seq<word>,
    dt: byte,
    st: byte,
    keys: seq<bool>,
    awaitingKey: byte,
    screen: seq<byte>,
    redraw: bool)

  /** A value that may be absent. */
  datatype Option<T> = None | Some(value: T)

  /** The fixed sizes of the machine's arrays. */
  predicate Shaped(m: Machine)
  {
    && |m.mem| == MemorySize
    && |m.v| == RegisterCount
    && |m.stack| == StackDepth
    && |m.keys| == KeyCount
    && |m.screen| == ScreenSize
  }

  /** What every state reached from construction satisfies: the stack
      pointer stays within the stack, the latch is either clear or
      `0x80 | x` for a register x, and every pixel is 0 or 1. */
  predicate Invariant(m: Machine)
  {
    && Shaped(m)
    && m.sp <= StackDepth
    && (m.awaitingKey == 0 || 0x80 <= m.awaitingKey < 0x80 + RegisterCount)
    && Monochrome(m.screen)
  }

  /** The accesses the source performs without a bounds check; the C++
      behaviour is undefined on each. */
  datatype Fault =
    | FetchOutOfRange    // the second opcode byte lies past memory
    | StackUnderflow     // a return with nothing on the stack
    | StackOverflow      // a call with all 16 stack slots in use
    | KeyOutOfRange      // a key check on a register holding 16 or more
    | MemoryOutOfRange   // a sprite, BCD or register block past the end

  /** `Halted` is `not_handled`: the process exits before any state changes. */
  datatype Outcome =
    | Executed
    | Halted(msb: byte, lsb: byte)
    | Undefined(fault: Fault)

  datatype Transition = Transition(outcome: Outcome, next: Machine)

  function Continue(m: Machine): Transition
  {
    Transition(Executed, m)
  }

  function Fail(m: Machine, f: Fault): Transition
  {
    Transition(Undefined(f), m)
  }

  /** An unrecognised instruction reports the opcode's two bytes and exits. */
  function Unhandled(m: Machine, ins: Instr): Transition
  {
    Transition(Halted(ins.u * 0x10 + ins.x, ins.kk), m)
  }

  /** Moves PC on by one instruction, two bytes, wrapping at 16 bits. */
  function Advance(m: Machine): Machine
  {
    m.(pc := ToWord(m.pc + 2))
  }

  /** A conditional skip: past the next instruction when `cond` holds, and
      always past this one. */
  function SkipIf(m: Machine, cond: bool): Machine
  {
    Advance(if cond then Advance(m) else m)
  }

  /** The framebuffer after `m_Screen.fill(0)`. */
  function Blank(): (s: seq<byte>)
  {
    seq(ScreenSize, _ => 0)
  }

  /** The loader's copy loop: program byte k lands at address base + k. */
  function LoadImage(mem: seq<byte>, base: nat, program: seq<byte>): (r: seq<byte>)
    requires base + |program| <= |mem|
    ensures |r| == |mem|
    ensures forall k | 0 <= k < |program| :: r[base + k] == program[k]
    ensures forall a | 0 <= a < |mem| && !(base <= a < base + |program|) :: r[a] == mem[a]
  {
    mem[..base] + program + mem[base + |program|..]
  }

  /** Copying one more byte of the program is one more memory update. */
  lemma LoadImageStep(mem: seq<byte>, base: nat, program: seq<byte>, i: nat)
    requires base + |program| <= |mem| && i < |program|
    ensures LoadImage(mem, base, program[..i + 1]) == LoadImage(mem, base, program[..i])[base + i := program[i]]
  {
    var a, b := LoadImage(mem, base, program[..i + 1]), LoadImage(mem, base, program[..i])[base + i := program[i]];
    forall k | 0 <= k < |mem|
      ensures a[k] == b[k]
    {
      if base <= k < base + i {
        assert a[k] == program[..i + 1][k - base];
      }
    }
  }

  /** Every pixel is 0 or 1. */
  predicate Monochrome(screen: seq<byte>)
  {
    forall k | 0 <= k < |screen| :: screen[k] <= 1
  }

  /** One call of `emulate_op`: fetch the opcode at PC, decode it, execute it.
      `rnd` is the byte the random generator would produce for Cxkk. */
  function Step(m: Machine, rnd: byte): (t: Transition)
    requires Shaped(m)
  {
    if m.pc + 1 >= MemorySize then Fail(m, FetchOutOfRange)
    else Execute(m, Decode(Opcode(m.mem[m.pc], m.mem[m.pc + 1])), rnd)
  }

  /** The top-level switch on the group nibble. All sixteen groups have a
      case, so the source's top-level `default` is never taken. */
  function Execute(m: Machine, ins: Instr, rnd: byte): (t: Transition)
    requires Shaped(m) && ins.nnn < 0x1000
  {
    var x, y, kk, nnn := ins.x, ins.y, ins.kk, ins.nnn;
    match ins.u
    case 0x0 => ExecSystem(m, ins)
    case 0x1 => Continue(m.(pc := nnn))
    case 0x2 => Call(m, nnn)
    case 0x3 => Continue(SkipIf(m, m.v[x] == kk))
    case 0x4 => Continue(SkipIf(m, m.v[x] != kk))
    case 0x5 => Continue(SkipIf(m, m.v[x] == m.v[y]))
    case 0x6 => Continue(Advance(m.(v := m.v[x := kk])))
    case 0x7 => Continue(Advance(m.(v := m.v[x := ToByte(m.v[x] + kk)])))
    case 0x8 => ExecArith(m, ins)
    case 0x9 => Continue(SkipIf(m, m.v[x] != m.v[y]))
    case 0xA => Continue(Advance(m.(i := nnn)))
    case 0xB => Continue(m.(pc := ToWord(m.v[0] + nnn)))
    case 0xC => Continue(Advance(m.(v := m.v[x := And(rnd, kk)])))
    case 0xD => ExecDraw(m, x, y, ins.n)
    case 0xE => ExecKeySkip(m, ins)
    case _ => ExecMisc(m, ins)
  }

  /** Group 0 dispatches on the low nibble only: `0nn0` clears the screen,
      `0nnE` returns, anything else is unrecognised. */
  function ExecSystem(m: Machine, ins: Instr): (t: Transition)
    requires Shaped(m)
  {
    if ins.n == 0x0 then Continue(Advance(m.(screen := Blank(), redraw := true)))
    else if ins.n == 0xE then
      if m.sp == 0 then Fail(m, StackUnderflow)
      else if m.sp > StackDepth then Fail(m, StackOverflow)
      else Continue(m.(sp := m.sp - 1, pc := ToWord(m.stack[m.sp - 1] as int + 2)))
    else Unhandled(m, ins)
  }

  /** 2nnn: push PC on the stack, then jump to nnn. The pushed address is that of the
      call itself; the return adds 2. */
  function Call(m: Machine, nnn: word): (t: Transition)
    requires Shaped(m)
  {
    if m.sp >= StackDepth then Fail(m, StackOverflow)
    else Continue(m.(stack := m.stack[m.sp := m.pc], sp := m.sp + 1, pc := nnn))
  }

  /** The low nibbles group 8 recognises. */
  predicate ArithKnown(n: nibble)
  {
    n <= 0x7 || n == 0xE
  }

  /** The register file after a recognised group 8 instruction. Every
      variant that sets VF writes it first and then updates its destination
      from the registers as they are after that write. 8xy7 writes Vy, not
      Vx. */
  function ArithRegisters(v: seq<byte>, x: nibble, y: nibble, n: nibble): (r: seq<byte>)
    requires |v| == RegisterCount && ArithKnown(n)
    ensures |r| == RegisterCount
  {
    if n == 0x0 then v[x := v[y]]
    else if n == 0x1 then v[x := Or(v[x], v[y])]
    else if n == 0x2 then v[x := And(v[x], v[y])]
    else if n == 0x3 then v[x := Xor(v[x], v[y])]
    else if n == 0x4 then
      var v1 := v[VF := if v[x] as int + v[y] > 0xFF then 1 else 0];
      v1[x := ToByte(v1[x] + v1[y])]
    else if n == 0x5 then
      var v1 := v[VF := if v[x] > v[y] then 1 else 0];
      v1[x := ToByte(v1[x] - v1[y])]
    else if n == 0x6 then
      // VF takes the bit shifted out at the bottom, then Vx is halved
      var v1 := v[VF := v[x] % 2];
      v1[x := v1[x] / 2]
    else if n == 0x7 then
      var v1 := v[VF := if v[y] > v[x] then 1 else 0];
      v1[y := ToByte(v1[y] - v1[x])]
    else
      // VF takes the bit shifted out at the top, then Vx is doubled modulo 256
      var v1 := v[VF := v[x] / 0x80];
      v1[x := ToByte(v1[x] * 2)]
  }

  /** Group 8, on the low nibble; an unrecognised one halts. */
  function ExecArith(m: Machine, ins: Instr): (t: Transition)
    requires Shaped(m)
  {
    if ArithKnown(ins.n) then Continue(Advance(m.(v := ArithRegisters(m.v, ins.x, ins.y, ins.n))))
    else Unhandled(m, ins)
  }

  /** The two halves of the state a draw touches. */
  datatype Canvas = Canvas(v: seq<byte>, screen: seq<byte>)

  predicate CanvasShaped(c: Canvas)
  {
    |c.v| == RegisterCount && |c.screen| == ScreenSize
  }

  /** `row & (0b10000000 >> w)`: bit w of a sprite row, counted from the
      most significant. */
  predicate SpriteBit(row: byte, w: nat)
    requires w < 8
  {
    (row as bv8) & (0x80 as bv8 >> w) != 0
  }

  // The screen is 64 pixels wide and 32 high; the literals below keep the
  // index arithmetic linear.

  /** Column w of one sprite row drawn on screen row py. The column
      `(Vx + w) % 64` is taken from the current Vx, and a set bit stores
      `pixel == 1` into VF before toggling the pixel. */
  function PlotPixel(c: Canvas, x: nibble, py: nat, row: byte, w: nat): (r: Canvas)
    requires CanvasShaped(c) && py < ScreenHeight && w < 8
    ensures CanvasShaped(r)
  {
    var cell := 64 * py + (c.v[x] + w) % 64;
    var pixel := c.screen[cell];
    if SpriteBit(row, w)
    then Canvas(c.v[VF := if pixel == 1 then 1 else 0], c.screen[cell := Xor(pixel, 1)])
    else c
  }

  /** The first w columns of one sprite row drawn on screen row py, left to
      right. */
  function PlotColumns(c: Canvas, x: nibble, py: nat, row: byte, w: nat): (r: Canvas)
    requires CanvasShaped(c) && py < ScreenHeight && w <= 8
    ensures CanvasShaped(r)
  {
    if w == 0 then c
    else PlotPixel(PlotColumns(c, x, py, row, w - 1), x, py, row, w - 1)
  }

  /** The first h sprite rows, read from `mem[i..i+h]`, drawn top to bottom;
      the screen row `(Vy + h) % 32` of each is computed from Vy as it is
      when that row starts. */
  function PlotRows(c: Canvas, mem: seq<byte>, i: nat, x: nibble, y: nibble, h: nat): (r: Canvas)
    requires CanvasShaped(c) && i + h <= |mem|
    ensures CanvasShaped(r)
  {
    if h == 0 then c
    else
      var d := PlotRows(c, mem, i, x, y, h - 1);
      PlotColumns(d, x, (d.v[y] + (h - 1)) % 32, mem[i + (h - 1)], 8)
  }

  /** Dxyn: draw the n-row sprite at I, set redraw, advance. Taking
      `&m_Memory[I]` is itself out of range once I reaches the end of
      memory, even for a sprite of no rows. */
  function ExecDraw(m: Machine, x: nibble, y: nibble, n: nibble): (t: Transition)
    requires Shaped(m)
  {
    if m.i >= MemorySize || m.i + n > MemorySize then Fail(m, MemoryOutOfRange)
    else
      var c := PlotRows(Canvas(m.v, m.screen), m.mem, m.i, x, y, n);
      Continue(Advance(m.(v := c.v, screen := c.screen, redraw := true)))
  }

  /** Group E, on the low byte. The switch has no default: any other
      subcode does nothing, not even advance PC. */
  function ExecKeySkip(m: Machine, ins: Instr): (t: Transition)
    requires Shaped(m)
  {
    var vx := m.v[ins.x];
    if ins.kk == 0x9E then
      if vx >= KeyCount then Fail(m, KeyOutOfRange) else Continue(SkipIf(m, m.keys[vx]))
    else if ins.kk == 0xA1 then
      if vx >= KeyCount then Fail(m, KeyOutOfRange) else Continue(SkipIf(m, !m.keys[vx]))
    else Continue(m)
  }

  /** Fx55: `V0..Vx` copied to `mem[i..i+x]`. */
  function StoreRegisters(mem: seq<byte>, v: seq<byte>, i: nat, x: nibble): (r: seq<byte>)
    requires |v| == RegisterCount && i + x < |mem|
    ensures |r| == |mem|
    ensures forall p | 0 <= p <= x :: r[i + p] == v[p]
    ensures forall a | 0 <= a < |mem| && !(i <= a <= i + x) :: r[a] == mem[a]
  {
    mem[..i] + v[..x + 1] + mem[i + x + 1..]
  }

  /** Fx65: `mem[i..i+x]` copied to `V0..Vx`. */
  function LoadRegisters(mem: seq<byte>, v: seq<byte>, i: nat, x: nibble): (r: seq<byte>)
    requires |v| == RegisterCount && i + x < |mem|
    ensures |r| == RegisterCount
    ensures forall p | 0 <= p <= x :: r[p] == mem[i + p]
    ensures forall p | x < p < RegisterCount :: r[p] == v[p]
  {
    mem[i..i + x + 1] + v[x + 1..]
  }

  /** Fx33: the hundreds, tens and ones digits as the source computes them;
      each is a decimal digit and together they spell out vx. */
  function Bcd(vx: byte): (digits: (byte, byte, byte))
    ensures digits.0 < 10 && digits.1 < 10 && digits.2 < 10
    ensures 100 * digits.0 + 10 * digits.1 + digits.2 == vx
  {
    var c := vx % 10;
    var t := vx / 10;
    var b := t % 10;
    var a := t / 10;
    (a, b, c)
  }

  /** Group F, on the low byte. */
  function ExecMisc(m: Machine, ins: Instr): (t: Transition)
    requires Shaped(m)
  {
    var x := ins.x;
    var vx := m.v[x];
    if ins.kk == 0x07 then Continue(Advance(m.(v := m.v[x := m.dt])))
    else if ins.kk == 0x0A then Continue(Advance(m.(awaitingKey := Or(0x80, x))))
    else if ins.kk == 0x15 then Continue(Advance(m.(dt := vx)))
    else if ins.kk == 0x18 then Continue(Advance(m.(st := vx)))
    else if ins.kk == 0x1E then
      // I grows by Vx first; the flag then compares the new I plus Vx with 255
      var i := ToWord(m.i + vx);
      Continue(Advance(m.(i := i, v := m.v[VF := if i + vx > 0xFF then 1 else 0])))
    else if ins.kk == 0x29 then Continue(Advance(m.(i := 5 * vx as int)))
    else if ins.kk == 0x33 then
      if m.i + 2 >= MemorySize then Fail(m, MemoryOutOfRange)
      else
        var (a, b, c) := Bcd(vx);
        Continue(Advance(m.(mem := m.mem[m.i := a][m.i + 1 := b][m.i + 2 := c])))
    else if ins.kk == 0x55 then
      if m.i + x >= MemorySize then Fail(m, MemoryOutOfRange)
      else Continue(Advance(m.(mem := StoreRegisters(m.mem, m.v, m.i, x), i := m.i + x + 1)))
    else if ins.kk == 0x65 then
      if m.i + x >= MemorySize then Fail(m, MemoryOutOfRange)
      else Continue(Advance(m.(v := LoadRegisters(m.mem, m.v, m.i, x), i := m.i + x + 1)))
    else Unhandled(m, ins)
  }
}
