/** Properties of the instruction semantics: what each kind of instruction
    does to the machine, stated apart from how `Step` computes it, and the
    invariant every step keeps. */
module Properties {
  import opened Bits
  import opened Isa
  import opened Semantics

  /** Drawing one bit keeps every pixel 0 or 1. */
  lemma PlotPixelMonochrome(c: Canvas, x: nibble, py: nat, row: byte, w: nat)
    requires CanvasShaped(c) && py < ScreenHeight && w < 8 && Monochrome(c.screen)
    ensures Monochrome(PlotPixel(c, x, py, row, w).screen)
  {
    var cell := 64 * py + (c.v[x] + w) % 64;
    XorOneSwaps();
    assert Xor(c.screen[cell], 1) <= 1;
  }

  /** Drawing keeps every pixel 0 or 1. */
  lemma {:induction false} PlotColumnsMonochrome(c: Canvas, x: nibble, py: nat, row: byte, w: nat)
    requires CanvasShaped(c) && py < ScreenHeight && w <= 8 && Monochrome(c.screen)
    ensures Monochrome(PlotColumns(c, x, py, row, w).screen)
  {
    if w > 0 {
      PlotColumnsMonochrome(c, x, py, row, w - 1);
      PlotPixelMonochrome(PlotColumns(c, x, py, row, w - 1), x, py, row, w - 1);
    }
  }

  lemma {:induction false} PlotRowsMonochrome(c: Canvas, mem: seq<byte>, i: nat, x: nibble, y: nibble, h: nat)
    requires CanvasShaped(c) && i + h <= |mem| && Monochrome(c.screen)
    ensures Monochrome(PlotRows(c, mem, i, x, y, h).screen)
  {
    if h > 0 {
      var d := PlotRows(c, mem, i, x, y, h - 1);
      PlotRowsMonochrome(c, mem, i, x, y, h - 1);
      PlotColumnsMonochrome(d, x, (d.v[y] + (h - 1)) % 32, mem[i + (h - 1)], 8);
    }
  }

  /** Every step keeps the stack pointer within the stack, the key-wait
      latch well formed and the screen monochrome. */
  lemma StepPreservesInvariant(m: Machine, rnd: byte)
    requires Invariant(m)
    ensures Invariant(Step(m, rnd).next)
  {
    if m.pc + 1 < MemorySize {
      var ins := Decode(Opcode(m.mem[m.pc], m.mem[m.pc + 1]));
      ExecutePreservesInvariant(m, ins, rnd);
      assert Step(m, rnd) == Execute(m, ins, rnd);
    }
  }

  lemma ExecutePreservesInvariant(m: Machine, ins: Instr, rnd: byte)
    requires Invariant(m) && ins.nnn < 0x1000
    ensures Invariant(Execute(m, ins, rnd).next)
  {
    match ins.u
    case 0x0 => SystemPreservesInvariant(m, ins);
    case 0x8 => ArithPreservesInvariant(m, ins);
    case 0xD => DrawPreservesInvariant(m, ins.x, ins.y, ins.n);
    case 0xE => KeySkipPreservesInvariant(m, ins);
    case 0xF => MiscPreservesInvariant(m, ins);
    case _ => DirectPreservesInvariant(m, ins, rnd);
  }

  /** The groups executed in the top-level switch itself. */
  lemma DirectPreservesInvariant(m: Machine, ins: Instr, rnd: byte)
    requires Invariant(m) && ins.nnn < 0x1000
    requires ins.u !in {0x0, 0x8, 0xD, 0xE, 0xF}
    ensures Invariant(Execute(m, ins, rnd).next)
  {
  }

  lemma SystemPreservesInvariant(m: Machine, ins: Instr)
    requires Invariant(m)
    ensures Invariant(ExecSystem(m, ins).next)
  {
    assert Monochrome(Blank());
  }

  lemma ArithPreservesInvariant(m: Machine, ins: Instr)
    requires Invariant(m)
    ensures Invariant(ExecArith(m, ins).next)
  {
  }

  lemma DrawPreservesInvariant(m: Machine, x: nibble, y: nibble, n: nibble)
    requires Invariant(m)
    ensures Invariant(ExecDraw(m, x, y, n).next)
  {
    if m.i < MemorySize && m.i + n <= MemorySize {
      PlotRowsMonochrome(Canvas(m.v, m.screen), m.mem, m.i, x, y, n);
    }
  }

  lemma KeySkipPreservesInvariant(m: Machine, ins: Instr)
    requires Invariant(m)
    ensures Invariant(ExecKeySkip(m, ins).next)
  {
  }

  lemma MiscPreservesInvariant(m: Machine, ins: Instr)
    requires Invariant(m)
    ensures Invariant(ExecMisc(m, ins).next)
  {
    var next := ExecMisc(m, ins).next;
    if ins.kk == 0x0A {
      OrHighBit(ins.x);
    } else {
      assert next.sp == m.sp && next.awaitingKey == m.awaitingKey && next.screen == m.screen;
      InvariantFrame(m, next);
    }
  }

  /** A step that leaves the stack pointer, the latch and the screen alone
      keeps the invariant. */
  lemma InvariantFrame(m: Machine, next: Machine)
    requires Invariant(m) && Shaped(next)
    requires next.sp == m.sp && next.awaitingKey == m.awaitingKey && next.screen == m.screen
    ensures Invariant(next)
  {
  }
}
