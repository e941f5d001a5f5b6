/** What each kind of instruction does to the machine, stated as the
    instruction set promises it rather than as `Execute` computes it: which
    opcodes halt, by how much a skip moves PC, how the arithmetic wraps and
    sets VF, how a call and a return pair up, and what the memory-block
    instructions leave behind. */
module Instructions {
  import opened Bits
  import opened Isa
  import opened Semantics

  /** The opcodes `emulate_op` has a case for, in terms of the two fetched
      bytes: group 0 and group 8 look at the low nibble, group F at the low
      byte, every other group accepts anything. */
  predicate Recognised(hi: byte, lo: byte)
  {
    var u := hi / 0x10;
    if u == 0x0 then lo % 0x10 == 0x0 || lo % 0x10 == 0xE
    else if u == 0x8 then lo % 0x10 <= 0x7 || lo % 0x10 == 0xE
    else if u == 0xF then lo in {0x07, 0x0A, 0x15, 0x18, 0x1E, 0x29, 0x33, 0x55, 0x65}
    else true
  }

  /** The machine with PC moved on by `d` bytes, wrapping at 16 bits. */
  function Moved(m: Machine, d: nat): Machine
  {
    m.(pc := ToWord(m.pc + d))
  }

  /** A step halts exactly on an opcode without a case, reports the two
      fetched bytes and changes nothing. */
  lemma HaltsIffUnrecognised(m: Machine, rnd: byte)
    requires Shaped(m) && m.pc + 1 < MemorySize
    ensures Step(m, rnd).outcome.Halted? <==> !Recognised(m.mem[m.pc], m.mem[m.pc + 1])
    ensures !Recognised(m.mem[m.pc], m.mem[m.pc + 1]) ==>
              Step(m, rnd) == Transition(Halted(m.mem[m.pc], m.mem[m.pc + 1]), m)
  {
    var hi, lo := m.mem[m.pc], m.mem[m.pc + 1];
    var ins := Decode(Opcode(hi, lo));
    DecodeBytes(hi, lo);
    assert Step(m, rnd) == Execute(m, ins, rnd);
    assert ins.u * 0x10 + ins.x == hi;
    if ins.u == 0x0 {
      assert Execute(m, ins, rnd) == ExecSystem(m, ins);
    } else if ins.u == 0x8 {
      assert Execute(m, ins, rnd) == ExecArith(m, ins);
    } else if ins.u == 0xF {
      assert Execute(m, ins, rnd) == ExecMisc(m, ins);
    } else {
      assert Recognised(hi, lo);
    }
  }

  /** The fault a step runs into, in terms of the state and the two
      fetched bytes alone: a fetch past the end of memory, a return with an
      empty (or corrupt) stack, a call with a full one, a key check on a
      register holding 16 or more, and a sprite, BCD or register block
      reaching past the end of memory. */
  function FaultOf(m: Machine): Option<Fault>
    requires Shaped(m)
  {
    if m.pc + 1 >= MemorySize then Some(FetchOutOfRange)
    else
      var hi, lo := m.mem[m.pc], m.mem[m.pc + 1];
      var u, x, n := hi / 0x10, hi % 0x10, lo % 0x10;
      if u == 0x0 && n == 0xE && m.sp == 0 then Some(StackUnderflow)
      else if u == 0x0 && n == 0xE && m.sp > StackDepth then Some(StackOverflow)
      else if u == 0x2 && m.sp >= StackDepth then Some(StackOverflow)
      else if u == 0xD && (m.i >= MemorySize || m.i + n > MemorySize) then Some(MemoryOutOfRange)
      else if u == 0xE && (lo == 0x9E || lo == 0xA1) && m.v[x] >= KeyCount then Some(KeyOutOfRange)
      else if u == 0xF && lo == 0x33 && m.i + 2 >= MemorySize then Some(MemoryOutOfRange)
      else if u == 0xF && (lo == 0x55 || lo == 0x65) && m.i + x >= MemorySize then Some(MemoryOutOfRange)
      else None
  }

  /** A step ends in undefined behaviour exactly when `FaultOf` names a
      fault; it then reports that fault and changes nothing. */
  lemma FaultsIffOutOfRange(m: Machine, rnd: byte)
    requires Shaped(m)
    ensures Step(m, rnd).outcome.Undefined? <==> FaultOf(m).Some?
    ensures FaultOf(m).Some? ==> Step(m, rnd) == Transition(Undefined(FaultOf(m).value), m)
  {
    if m.pc + 1 < MemorySize {
      var hi, lo := m.mem[m.pc], m.mem[m.pc + 1];
      var ins := Decode(Opcode(hi, lo));
      DecodeBytes(hi, lo);
      assert Step(m, rnd) == Execute(m, ins, rnd);
      if ins.u == 0x0 {
        assert Execute(m, ins, rnd) == ExecSystem(m, ins);
      } else if ins.u == 0x2 {
        assert Execute(m, ins, rnd) == Call(m, ins.nnn);
      } else if ins.u == 0x8 {
        assert Execute(m, ins, rnd) == ExecArith(m, ins);
      } else if ins.u == 0xD {
        assert Execute(m, ins, rnd) == ExecDraw(m, ins.x, ins.y, ins.n);
      } else if ins.u == 0xE {
        assert Execute(m, ins, rnd) == ExecKeySkip(m, ins);
      } else if ins.u == 0xF {
        assert Execute(m, ins, rnd) == ExecMisc(m, ins);
      }
    }
  }

  /** An E-group instruction with a subcode other than 9E and A1 does
      nothing at all, not even advance PC. */
  lemma UnknownKeySubcodeIsNoop(m: Machine, rnd: byte)
    requires Shaped(m) && m.pc + 1 < MemorySize
    requires m.mem[m.pc] / 0x10 == 0xE && m.mem[m.pc + 1] !in {0x9E, 0xA1}
    ensures Step(m, rnd) == Transition(Executed, m)
  {
    DecodeBytes(m.mem[m.pc], m.mem[m.pc + 1]);
  }

  /** 3xkk, 4xkk, 5xy? and 9xy? move PC by 4 when their comparison holds
      and by 2 otherwise, and change nothing else. The low nibble of 5xy?
      and 9xy? is ignored. */
  lemma RegisterSkips(m: Machine, rnd: byte)
    requires Shaped(m) && m.pc + 1 < MemorySize
    requires m.mem[m.pc] / 0x10 in {0x3, 0x4, 0x5, 0x9}
    ensures var hi, lo := m.mem[m.pc], m.mem[m.pc + 1];
            var vx, vy := m.v[hi % 0x10], m.v[lo / 0x10];
            var taken := match hi / 0x10
                         case 0x3 => vx == lo
                         case 0x4 => vx != lo
                         case 0x5 => vx == vy
                         case _ => vx != vy;
            Step(m, rnd) == Transition(Executed, Moved(m, if taken then 4 else 2))
  {
    DecodeBytes(m.mem[m.pc], m.mem[m.pc + 1]);
  }

  /** Ex9E and ExA1 move PC by 4 when key Vx is down (resp. up) and by 2
      otherwise; a key number past the sixteen keys is out of range. */
  lemma KeySkips(m: Machine, rnd: byte)
    requires Shaped(m) && m.pc + 1 < MemorySize
    requires m.mem[m.pc] / 0x10 == 0xE && m.mem[m.pc + 1] in {0x9E, 0xA1}
    ensures var vx := m.v[m.mem[m.pc] % 0x10];
            if vx >= KeyCount then Step(m, rnd) == Transition(Undefined(KeyOutOfRange), m)
            else
              var taken := m.keys[vx] == (m.mem[m.pc + 1] == 0x9E);
              Step(m, rnd) == Transition(Executed, Moved(m, if taken then 4 else 2))
  {
    DecodeBytes(m.mem[m.pc], m.mem[m.pc + 1]);
  }

  /** 7xkk adds modulo 256 without touching VF (unless x is F) or any other
      register. */
  lemma AddImmediateWraps(m: Machine, ins: Instr, rnd: byte)
    requires Shaped(m) && ins.u == 0x7 && ins.nnn < 0x1000
    ensures var t := Execute(m, ins, rnd);
            && t.outcome == Executed
            && t.next.v[ins.x] == (m.v[ins.x] as int + ins.kk) % 0x100
            && (forall r | 0 <= r < RegisterCount && r != ins.x :: t.next.v[r] == m.v[r])
            && t.next == Moved(m, 2).(v := t.next.v)
  {
  }

  /** 1nnn moves PC to nnn and changes nothing else. */
  lemma JumpGoesToTarget(m: Machine, ins: Instr, rnd: byte)
    requires Shaped(m) && ins.u == 0x1 && ins.nnn < 0x1000
    ensures var t := Execute(m, ins, rnd);
            t.outcome == Executed && t.next.pc == ins.nnn && t.next == m.(pc := t.next.pc)
  {
  }

  /** Bnnn moves PC to V0 + nnn, modulo 65536, and changes nothing else. */
  lemma JumpOffsetAddsV0(m: Machine, ins: Instr, rnd: byte)
    requires Shaped(m) && ins.u == 0xB && ins.nnn < 0x1000
    ensures var t := Execute(m, ins, rnd);
            && t.outcome == Executed
            && t.next.pc == (m.v[0] as int + ins.nnn) % 0x1_0000
            && t.next == m.(pc := t.next.pc)
  {
  }

  /** 6xkk puts kk in Vx, keeps every other register and advances PC by 2. */
  lemma LoadImmediateSetsVx(m: Machine, ins: Instr, rnd: byte)
    requires Shaped(m) && ins.u == 0x6 && ins.nnn < 0x1000
    ensures var t := Execute(m, ins, rnd);
            && t.outcome == Executed
            && t.next.v[ins.x] == ins.kk
            && (forall r | 0 <= r < RegisterCount && r != ins.x :: t.next.v[r] == m.v[r])
            && t.next == Moved(m, 2).(v := t.next.v)
  {
  }

  /** Annn puts nnn in I and advances PC by 2. */
  lemma SetIndexLoadsI(m: Machine, ins: Instr, rnd: byte)
    requires Shaped(m) && ins.u == 0xA && ins.nnn < 0x1000
    ensures var t := Execute(m, ins, rnd);
            t.outcome == Executed && t.next.i == ins.nnn && t.next == Moved(m, 2).(i := t.next.i)
  {
  }

  /** Cxkk puts the random byte masked by kk in Vx, keeps every other
      register and advances PC by 2. */
  lemma RandomMasksWithKk(m: Machine, ins: Instr, rnd: byte)
    requires Shaped(m) && ins.u == 0xC && ins.nnn < 0x1000
    ensures var t := Execute(m, ins, rnd);
            && t.outcome == Executed
            && t.next.v[ins.x] == And(rnd, ins.kk)
            && (forall r | 0 <= r < RegisterCount && r != ins.x :: t.next.v[r] == m.v[r])
            && t.next == Moved(m, 2).(v := t.next.v)
  {
  }

  /** Fx15 and Fx18 copy Vx into the delay and the sound timer, Fx07 copies
      the delay timer into Vx; each advances PC by 2 and changes nothing
      else. */
  lemma TimerMoves(m: Machine, ins: Instr, rnd: byte)
    requires Shaped(m) && ins.u == 0xF && ins.kk in {0x07, 0x15, 0x18} && ins.nnn < 0x1000
    ensures var t := Execute(m, ins, rnd);
            && t.outcome == Executed
            && (ins.kk == 0x15 ==> t.next == Moved(m, 2).(dt := m.v[ins.x]))
            && (ins.kk == 0x18 ==> t.next == Moved(m, 2).(st := m.v[ins.x]))
            && (ins.kk == 0x07 ==> t.next == Moved(m, 2).(v := m.v[ins.x := m.dt]))
  {
  }

  /** Fx15 followed by Fy07 with the timer not ticking in between: Vy gets
      the value Vx had. */
  lemma DelayTimerRoundTrip(m: Machine, write: Instr, read: Instr, rnd: byte)
    requires Shaped(m)
    requires write.u == 0xF && write.kk == 0x15 && write.nnn < 0x1000
    requires read.u == 0xF && read.kk == 0x07 && read.nnn < 0x1000
    ensures var t1 := Execute(m, write, rnd);
            var t2 := Execute(t1.next, read, rnd);
            t1.outcome == Executed && t2.outcome == Executed && t2.next.v[read.x] == m.v[write.x]
  {
    TimerMoves(m, write, rnd);
    TimerMoves(Execute(m, write, rnd).next, read, rnd);
  }

  /** Fx29 points I at the five-byte glyph of digit Vx, for a digit below
      16, as long as the font still sits at the start of memory. */
  lemma FontGlyphAddress(m: Machine, ins: Instr, rnd: byte)
    requires Shaped(m) && ins.u == 0xF && ins.kk == 0x29 && ins.nnn < 0x1000
    requires m.v[ins.x] < 0x10 && m.mem[..|Font|] == Font
    ensures var t := Execute(m, ins, rnd);
            && t.outcome == Executed
            && t.next.i == 5 * m.v[ins.x]
            && t.next.mem[t.next.i..t.next.i + 5] == Font[5 * m.v[ins.x]..5 * m.v[ins.x] + 5]
            && t.next == Moved(m, 2).(i := t.next.i)
  {
    var d := m.v[ins.x] as int;
    assert m.mem[5 * d..5 * d + 5] == m.mem[..|Font|][5 * d..5 * d + 5];
  }

  /** Every group 8 instruction writes at most its destination (Vy for
      8xy7, Vx otherwise) and VF; 8xy0 to 8xy3 leave VF alone too. */
  lemma ArithFrame(v: seq<byte>, x: nibble, y: nibble, n: nibble)
    requires |v| == RegisterCount && ArithKnown(n)
    ensures forall j | 0 <= j < RegisterCount && j != (if n == 0x7 then y else x) && j != VF ::
              ArithRegisters(v, x, y, n)[j] == v[j]
    ensures n <= 0x3 ==>
              forall j | 0 <= j < RegisterCount && j != x :: ArithRegisters(v, x, y, n)[j] == v[j]
  {
  }

  /** 8xy0 copies Vy into Vx; 8xy1, 8xy2 and 8xy3 combine Vx with Vy bit by
      bit. */
  lemma BitwiseOps(v: seq<byte>, x: nibble, y: nibble)
    requires |v| == RegisterCount
    ensures ArithRegisters(v, x, y, 0x0)[x] == v[y]
    ensures ArithRegisters(v, x, y, 0x1)[x] == Or(v[x], v[y])
    ensures ArithRegisters(v, x, y, 0x2)[x] == And(v[x], v[y])
    ensures ArithRegisters(v, x, y, 0x3)[x] == Xor(v[x], v[y])
  {
  }

  /** 8xy4 with x and y other than F: Vx becomes the sum modulo 256 and VF
      the carry. */
  lemma AddCarries(v: seq<byte>, x: nibble, y: nibble)
    requires |v| == RegisterCount && x != VF && y != VF
    ensures var r := ArithRegisters(v, x, y, 0x4);
            && r[x] == (v[x] as int + v[y]) % 0x100
            && r[VF] == (if v[x] as int + v[y] > 0xFF then 1 else 0)
  {
  }

  /** 8xy5 with x and y other than F: VF is 1 exactly when Vx is strictly
      greater than Vy, and Vx becomes the difference modulo 256. */
  lemma SubtractBorrows(v: seq<byte>, x: nibble, y: nibble)
    requires |v| == RegisterCount && x != VF && y != VF
    ensures var r := ArithRegisters(v, x, y, 0x5);
            && (r[VF] == 1 <==> v[x] > v[y])
            && r[VF] <= 1
            && r[x] == (v[x] as int - v[y]) % 0x100
  {
  }

  /** 8xy7 with x and y other than F stores `Vy - Vx` modulo 256 in Vy, not
      in Vx, and VF is 1 exactly when Vy is strictly greater than Vx. With
      x equal to y both are 0. */
  lemma ReverseSubtractWritesVy(v: seq<byte>, x: nibble, y: nibble)
    requires |v| == RegisterCount && x != VF && y != VF
    ensures var r := ArithRegisters(v, x, y, 0x7);
            && r[y] == (v[y] as int - v[x]) % 0x100
            && (x != y ==> r[x] == v[x])
            && (r[VF] == 1 <==> v[y] > v[x])
            && r[VF] <= 1
  {
  }

  /** 8xy6 and 8xyE with x other than F: the bit shifted out goes to VF. */
  lemma ShiftsKeepShiftedBit(v: seq<byte>, x: nibble, y: nibble)
    requires |v| == RegisterCount && x != VF
    ensures var r := ArithRegisters(v, x, y, 0x6);
            r[x] as int * 2 + r[VF] == v[x] && r[VF] <= 1
    ensures var r := ArithRegisters(v, x, y, 0xE);
            r[VF] as int * 0x100 + r[x] == v[x] as int * 2 && r[VF] <= 1
  {
  }

  /** A call followed by a return restores the stack pointer and resumes
      after the call; only the pushed stack slot is left changed. */
  lemma CallThenReturn(m: Machine, call: Instr, ret: Instr, rnd: byte)
    requires Shaped(m) && m.sp < StackDepth
    requires call.u == 0x2 && call.nnn < 0x1000
    requires ret.u == 0x0 && ret.n == 0xE && ret.nnn < 0x1000
    ensures var t1 := Execute(m, call, rnd);
            && t1.outcome == Executed
            && t1.next.pc == call.nnn
            && t1.next.stack[m.sp] == m.pc
            && t1.next.sp == m.sp + 1
            && Execute(t1.next, ret, rnd)
               == Transition(Executed, Moved(m, 2).(stack := m.stack[m.sp := m.pc]))
  {
  }

  /** Any 0nn0 blanks every cell, sets redraw and advances PC by 2. */
  lemma ClearBlanksScreen(m: Machine, ins: Instr, rnd: byte)
    requires Shaped(m) && ins.u == 0x0 && ins.n == 0x0 && ins.nnn < 0x1000
    ensures var t := Execute(m, ins, rnd);
            && t.outcome == Executed
            && |t.next.screen| == ScreenSize
            && (forall k | 0 <= k < ScreenSize :: t.next.screen[k] == 0)
            && t.next == Moved(m, 2).(screen := t.next.screen, redraw := true)
  {
  }

  /** Fx33 writes the decimal digits of Vx at I, I+1, I+2 and nothing
      else. */
  lemma BcdStoresDigits(m: Machine, ins: Instr, rnd: byte)
    requires Shaped(m) && ins.u == 0xF && ins.kk == 0x33 && ins.nnn < 0x1000
    requires m.i + 2 < MemorySize
    ensures var t := Execute(m, ins, rnd);
            var mem := t.next.mem;
            && t.outcome == Executed
            && |mem| == MemorySize
            && mem[m.i] < 10 && mem[m.i + 1] < 10 && mem[m.i + 2] < 10
            && 100 * (mem[m.i] as int) + 10 * mem[m.i + 1] + mem[m.i + 2] == m.v[ins.x]
            && (forall a | 0 <= a < MemorySize && !(m.i <= a <= m.i + 2) :: mem[a] == m.mem[a])
            && t.next == Moved(m, 2).(mem := mem)
  {
  }

  /** Storing V0..Vx and loading them back from the same address gives
      V0..Vx back and leaves the other registers alone. */
  lemma StoreThenLoad(mem: seq<byte>, v: seq<byte>, w: seq<byte>, i: nat, x: nibble)
    requires |v| == RegisterCount && |w| == RegisterCount && i + x < |mem|
    ensures var r := LoadRegisters(StoreRegisters(mem, v, i, x), w, i, x);
            r[..x + 1] == v[..x + 1] && r[x + 1..] == w[x + 1..]
  {
    var r := LoadRegisters(StoreRegisters(mem, v, i, x), w, i, x);
    assert forall p | 0 <= p <= x :: r[p] == v[p];
  }

  /** Fx55 followed by Fx65 with I set back: V0..Vx are restored whatever
      happened to the registers in between, and each instruction advances I
      by x+1. */
  lemma StoreThenLoadInstructions(m: Machine, store: Instr, load: Instr, w: seq<byte>, rnd: byte)
    requires Shaped(m) && m.i + store.x < MemorySize && |w| == RegisterCount
    requires store.u == 0xF && store.kk == 0x55 && store.nnn < 0x1000
    requires load.u == 0xF && load.kk == 0x65 && load.x == store.x && load.nnn < 0x1000
    ensures var t1 := Execute(m, store, rnd);
            var m2 := t1.next.(i := m.i, v := w);
            var t2 := Execute(m2, load, rnd);
            && t1.outcome == Executed && t2.outcome == Executed
            && t1.next.i == m.i + store.x + 1
            && t2.next.i == m.i + store.x + 1
            && t2.next.v[..store.x + 1] == m.v[..store.x + 1]
            && t2.next.v[store.x + 1..] == w[store.x + 1..]
  {
    StoreThenLoad(m.mem, m.v, w, m.i, store.x);
  }

  /** Fx1E adds Vx to I modulo 65536, then sets VF from the new I plus Vx. */
  lemma AddToIndexSetsFlag(m: Machine, ins: Instr, rnd: byte)
    requires Shaped(m) && ins.u == 0xF && ins.kk == 0x1E && ins.nnn < 0x1000
    ensures var t := Execute(m, ins, rnd);
            && t.outcome == Executed
            && t.next.i == (m.i as int + m.v[ins.x]) % 0x1_0000
            && (t.next.v[VF] == 1 <==> t.next.i as int + m.v[ins.x] > 0xFF)
            && t.next.v[VF] <= 1
            && t.next.v == m.v[VF := t.next.v[VF]]
            && t.next == Moved(m, 2).(i := t.next.i, v := t.next.v)
  {
  }

  /** Fx0A sets the key-wait latch to `0x80 | x`, from which `& 0x7f`
      recovers x, and changes nothing else but PC. */
  lemma WaitKeySetsLatch(m: Machine, ins: Instr, rnd: byte)
    requires Shaped(m) && ins.u == 0xF && ins.kk == 0x0A && ins.nnn < 0x1000
    ensures var t := Execute(m, ins, rnd);
            && t.outcome == Executed
            && t.next.awaitingKey != 0
            && And(t.next.awaitingKey, 0x7F) == ins.x
            && t.next == Moved(m, 2).(awaitingKey := t.next.awaitingKey)
  {
    OrHighBit(ins.x);
    AndLowBits(0x80 + ins.x);
  }
}
