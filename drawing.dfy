/** Dxyn in closed form. Walking the sprite row by row and bit by bit, the
    draw toggles exactly the cells under set sprite bits, each at most once,
    so drawing the same sprite twice restores the screen, and VF is left as
    the collision flag of the last set bit walked. These hold when neither x
    nor y is the flag register, so that the coordinates stay put while VF
    is written. */
module Drawing {
  import opened Bits
  import opened Isa
  import opened Semantics

  /** The sprite row that covers screen row `sy` when the sprite starts at
      row `vy`, counting with wrap-around. */
  function SpriteRow(sy: int, vy: int): (h: nat)
    ensures h < 32
  {
    (sy - vy) % 32
  }

  /** The sprite column that covers screen column `sx` when the sprite
      starts at column `vx`, counting with wrap-around. */
  function SpriteColumn(sx: int, vx: int): (w: nat)
    ensures w < 64
  {
    (sx - vx) % 64
  }

  /** Cell k lies under a set bit of the n-row sprite at I drawn from
      (Vx, Vy). */
  predicate Hit(m: Machine, x: nibble, y: nibble, n: nibble, k: nat)
    requires Shaped(m) && m.i + n <= MemorySize
  {
    var h, w := SpriteRow(k / 64, m.v[y]), SpriteColumn(k % 64, m.v[x]);
    h < n && w < 8 && SpriteBit(m.mem[m.i + h], w)
  }

  /** A screen index splits into its row and column. */
  lemma CellSplit(py: nat, px: nat)
    requires py < 32 && px < 64
    ensures (64 * py + px) / 64 == py && (64 * py + px) % 64 == px
  {
  }

  /** Going forward r steps from b lands on a exactly when a is r steps
      ahead of b. */
  lemma WrapStep64(a: int, b: int, r: int)
    requires 0 <= a < 64 && 0 <= r < 64
    ensures a == (b + r) % 64 <==> (a - b) % 64 == r
  {
    var q, q' := (b + r) / 64, (a - b) / 64;
    assert b + r == 64 * q + (b + r) % 64;
    assert a - b == 64 * q' + (a - b) % 64;
  }

  lemma WrapStep32(a: int, b: int, r: int)
    requires 0 <= a < 32 && 0 <= r < 32
    ensures a == (b + r) % 32 <==> (a - b) % 32 == r
  {
    var q, q' := (b + r) / 32, (a - b) / 32;
    assert b + r == 32 * q + (b + r) % 32;
    assert a - b == 32 * q' + (a - b) % 32;
  }

  /** Cell k is the one `PlotPixel` visits for column w exactly when k is
      on row py and w is the sprite column over k. */
  lemma PixelCell(k: nat, py: nat, vx: byte, w: nat)
    requires k < ScreenSize && py < 32 && w < 8
    ensures k == 64 * py + (vx + w) % 64 <==> k / 64 == py && SpriteColumn(k % 64, vx) == w
  {
    CellSplit(py, (vx + w) % 64);
    CellSplit(k / 64, k % 64);
    WrapStep64(k % 64, vx, w);
  }

  /** Drawing a bit touches only VF among the registers and, on the screen,
      toggles the one cell under a set bit. */
  lemma PlotPixelEffect(c: Canvas, x: nibble, py: nat, row: byte, w: nat)
    requires CanvasShaped(c) && py < ScreenHeight && w < 8
    ensures var r := PlotPixel(c, x, py, row, w);
            var cell := 64 * py + (c.v[x] + w) % 64;
            && (forall j | 0 <= j < RegisterCount && j != VF :: r.v[j] == c.v[j])
            && r.v[VF] == (if SpriteBit(row, w) then (if c.screen[cell] == 1 then 1 else 0) else c.v[VF])
            && (forall k | 0 <= k < ScreenSize ::
                  r.screen[k] == if k == cell && SpriteBit(row, w) then Xor(c.screen[k], 1) else c.screen[k])
  {
  }

  /** The flag a single bit leaves: the collision of its cell when the bit
      is set, the old flag otherwise. */
  lemma PlotPixelFlag(c: Canvas, x: nibble, py: nat, row: byte, w: nat)
    requires CanvasShaped(c) && py < ScreenHeight && w < 8
    ensures PlotPixel(c, x, py, row, w).v[VF]
            == if SpriteBit(row, w) then Collision(c.screen[64 * py + (c.v[x] + w) % 64]) else c.v[VF]
  {
  }

  /** Drawing the first w columns of a row keeps every register but VF. */
  lemma {:induction false} PlotColumnsRegisters(c: Canvas, x: nibble, py: nat, row: byte, w: nat)
    requires CanvasShaped(c) && py < ScreenHeight && w <= 8
    ensures forall j | 0 <= j < RegisterCount && j != VF :: PlotColumns(c, x, py, row, w).v[j] == c.v[j]
  {
    if w > 0 {
      PlotColumnsRegisters(c, x, py, row, w - 1);
      PlotPixelEffect(PlotColumns(c, x, py, row, w - 1), x, py, row, w - 1);
    }
  }

  /** Over the first w columns of a row, for x other than F, cell k is
      toggled exactly when it is on row py under a set bit among those
      columns. */
  lemma {:induction false} PlotColumnsCell(c: Canvas, x: nibble, py: nat, row: byte, w: nat, k: nat)
    requires CanvasShaped(c) && py < ScreenHeight && w <= 8 && x != VF && k < ScreenSize
    ensures var sw := SpriteColumn(k % 64, c.v[x]);
            PlotColumns(c, x, py, row, w).screen[k]
            == if k / 64 == py && sw < w && SpriteBit(row, sw) then Xor(c.screen[k], 1) else c.screen[k]
  {
    if w > 0 {
      var d := PlotColumns(c, x, py, row, w - 1);
      PlotColumnsCell(c, x, py, row, w - 1, k);
      PlotColumnsRegisters(c, x, py, row, w - 1);
      PlotPixelEffect(d, x, py, row, w - 1);
      PixelCell(k, py, c.v[x], w - 1);
    }
  }

  /** Drawing the first h rows keeps every register but VF. */
  lemma {:induction false} PlotRowsRegisters(c: Canvas, mem: seq<byte>, i: nat, x: nibble, y: nibble, h: nat)
    requires CanvasShaped(c) && i + h <= |mem|
    ensures forall j | 0 <= j < RegisterCount && j != VF :: PlotRows(c, mem, i, x, y, h).v[j] == c.v[j]
  {
    if h > 0 {
      var d := PlotRows(c, mem, i, x, y, h - 1);
      PlotRowsRegisters(c, mem, i, x, y, h - 1);
      PlotColumnsRegisters(d, x, (d.v[y] + (h - 1)) % 32, mem[i + (h - 1)], 8);
    }
  }

  /** Over the first h rows, for x and y other than F, cell k is toggled
      exactly when it lies under a set bit of those rows. */
  lemma {:induction false} PlotRowsCell(c: Canvas, mem: seq<byte>, i: nat, x: nibble, y: nibble, h: nat, k: nat)
    requires CanvasShaped(c) && i + h <= |mem| && h <= 32 && x != VF && y != VF && k < ScreenSize
    ensures var sh, sw := SpriteRow(k / 64, c.v[y]), SpriteColumn(k % 64, c.v[x]);
            PlotRows(c, mem, i, x, y, h).screen[k]
            == if sh < h && sw < 8 && SpriteBit(mem[i + sh], sw) then Xor(c.screen[k], 1) else c.screen[k]
  {
    if h > 0 {
      var d := PlotRows(c, mem, i, x, y, h - 1);
      PlotRowsCell(c, mem, i, x, y, h - 1, k);
      PlotRowsRegisters(c, mem, i, x, y, h - 1);
      var py := (d.v[y] + (h - 1)) % 32;
      PlotColumnsCell(d, x, py, mem[i + (h - 1)], 8, k);
      WrapStep32(k / 64, c.v[y], h - 1);
    }
  }

  /** Dxyn for x and y other than F: it toggles exactly the cells under set
      sprite bits, keeps every register but VF, sets redraw and advances PC
      by 2. */
  lemma DrawTogglesHits(m: Machine, x: nibble, y: nibble, n: nibble)
    requires Shaped(m) && m.i < MemorySize && m.i + n <= MemorySize && x != VF && y != VF
    ensures var t := ExecDraw(m, x, y, n);
            && t.outcome == Executed
            && |t.next.screen| == ScreenSize && |t.next.v| == RegisterCount
            && (forall k | 0 <= k < ScreenSize ::
                  t.next.screen[k] == if Hit(m, x, y, n, k) then Xor(m.screen[k], 1) else m.screen[k])
            && (forall j | 0 <= j < RegisterCount && j != VF :: t.next.v[j] == m.v[j])
            && t.next == m.(pc := ToWord(m.pc + 2), v := t.next.v, screen := t.next.screen, redraw := true)
  {
    var c := Canvas(m.v, m.screen);
    PlotRowsRegisters(c, m.mem, m.i, x, y, n);
    forall k | 0 <= k < ScreenSize
      ensures PlotRows(c, m.mem, m.i, x, y, n).screen[k]
              == if Hit(m, x, y, n, k) then Xor(m.screen[k], 1) else m.screen[k]
    {
      PlotRowsCell(c, m.mem, m.i, x, y, n, k);
    }
  }

  /** The cells Dxyn toggles, read forwards: sprite bit w of row h lands on
      column (Vx + w) mod 64 of screen row (Vy + h) mod 32, and that cell is
      a hit exactly when the bit is set. */
  lemma HitAtBitCell(m: Machine, x: nibble, y: nibble, n: nibble, h: nat, w: nat)
    requires Shaped(m) && m.i + n <= MemorySize && h < n && w < 8
    ensures Hit(m, x, y, n, BitCell(m.v[x], m.v[y], Bit(h, w))) == SpriteBit(m.mem[m.i + h], w)
  {
    var py, px := (m.v[y] + h) % 32, (m.v[x] + w) % 64;
    CellSplit(py, px);
    WrapStep32(py, m.v[y], h);
    WrapStep64(px, m.v[x], w);
  }

  /** Drawing the same sprite twice at the same place restores a screen
      of 0/1 pixels, for x and y other than F. */
  lemma DrawTwiceRestores(m: Machine, x: nibble, y: nibble, n: nibble)
    requires Shaped(m) && Monochrome(m.screen) && m.i < MemorySize && m.i + n <= MemorySize && x != VF && y != VF
    ensures var m1 := ExecDraw(m, x, y, n).next;
            Shaped(m1) && ExecDraw(m1, x, y, n).next.screen == m.screen
  {
    var m1 := ExecDraw(m, x, y, n).next;
    DrawTogglesHits(m, x, y, n);
    DrawTogglesHits(m1, x, y, n);
    var m2 := ExecDraw(m1, x, y, n).next;
    forall k | 0 <= k < ScreenSize
      ensures m2.screen[k] == m.screen[k]
    {
      assert Hit(m1, x, y, n, k) == Hit(m, x, y, n, k);
      XorOneSwaps();
    }
  }

  /** The last set bit among the first w bits of a sprite row. */
  function LastInRow(row: byte, w: nat): (r: Option<nat>)
    requires w <= 8
    ensures r.Some? ==> r.value < w && SpriteBit(row, r.value)
  {
    if w == 0 then None
    else if SpriteBit(row, w - 1) then Some(w - 1)
    else LastInRow(row, w - 1)
  }

  /** `LastInRow` finds the last set bit: none after it is set, and it
      finds none only when no bit is set. */
  lemma {:induction false} LastInRowIsLast(row: byte, w: nat)
    requires w <= 8
    ensures LastInRow(row, w).Some? ==> forall w' | LastInRow(row, w).value < w' < w :: !SpriteBit(row, w')
    ensures LastInRow(row, w).None? <==> forall w' | 0 <= w' < w :: !SpriteBit(row, w')
  {
    if w > 0 {
      LastInRowIsLast(row, w - 1);
    }
  }

  /** The last set bit, by row and column, among the first h rows of the
      sprite at `mem[i..]`. */
  function LastSetBit(mem: seq<byte>, i: nat, h: nat): (r: Option<Bit>)
    requires i + h <= |mem|
    ensures r.Some? ==> r.value.row < h && r.value.column < 8 && SpriteBit(mem[i + r.value.row], r.value.column)
  {
    if h == 0 then None
    else match LastInRow(mem[i + (h - 1)], 8)
      case Some(w) => Some(Bit(h - 1, w))
      case None => LastSetBit(mem, i, h - 1)
  }

  /** `LastSetBit` finds nothing exactly when no bit of the first h rows is
      set. */
  lemma {:induction false} LastSetBitNone(mem: seq<byte>, i: nat, h: nat)
    requires i + h <= |mem|
    ensures LastSetBit(mem, i, h).None? <==> forall a, w' | i <= a < i + h && 0 <= w' < 8 :: !SpriteBit(mem[a], w')
  {
    if h > 0 {
      LastSetBitNone(mem, i, h - 1);
      LastInRowIsLast(mem[i + (h - 1)], 8);
    }
  }

  /** The bit `LastSetBit` finds is the last one walked: no later bit of its
      row and no bit of a later row is set. */
  lemma {:induction false} LastSetBitIsLast(mem: seq<byte>, i: nat, h: nat, b: Bit)
    requires i + h <= |mem| && LastSetBit(mem, i, h) == Some(b)
    ensures forall a, w' | a == i + b.row && b.column < w' < 8 :: !SpriteBit(mem[a], w')
    ensures forall a, w' | i + b.row < a < i + h && 0 <= w' < 8 :: !SpriteBit(mem[a], w')
  {
    var row := mem[i + (h - 1)];
    LastInRowIsLast(row, 8);
    if LastInRow(row, 8).None? {
      LastSetBitIsLast(mem, i, h - 1, b);
      assert forall w' | 0 <= w' < 8 :: !SpriteBit(row, w');
    } else {
      assert b == Bit(h - 1, LastInRow(row, 8).value);
    }
  }

  /** A sprite bit, by its row and column within the sprite. */
  datatype Bit = Bit(row: nat, column: nat)

  /** The screen cell sprite bit b lands on when the sprite is drawn from
      (vx, vy). */
  function BitCell(vx: byte, vy: byte, b: Bit): (k: nat)
    requires b.column < 8
    ensures k < ScreenSize
  {
    64 * ((vy + b.row) % 32) + (vx + b.column) % 64
  }

  /** The collision flag a pixel gives when it is toggled. */
  function Collision(pixel: byte): byte
  {
    if pixel == 1 then 1 else 0
  }

  /** Two different offsets less than 64 apart reach different columns. */
  lemma DistinctColumns(a: int, p: int, q: int)
    requires p < q < p + 64
    ensures (a + p) % 64 != (a + q) % 64
  {
    var k1, k2 := (a + p) / 64, (a + q) / 64;
    assert a + p == 64 * k1 + (a + p) % 64;
    assert a + q == 64 * k2 + (a + q) % 64;
  }

  /** Two different offsets less than 32 apart reach different rows. */
  lemma DistinctRows(a: int, p: int, q: int)
    requires p < q < p + 32
    ensures (a + p) % 32 != (a + q) % 32
  {
    var k1, k2 := (a + p) / 32, (a + q) / 32;
    assert a + p == 32 * k1 + (a + p) % 32;
    assert a + q == 32 * k2 + (a + q) % 32;
  }

  /** A row of the sprite leaves every other screen row alone. */
  lemma {:induction false} ColumnsKeepOtherRow(c: Canvas, x: nibble, py: nat, row: byte, w: nat, q: nat, px: nat)
    requires CanvasShaped(c) && py < ScreenHeight && w <= 8 && q < ScreenHeight && q != py && px < ScreenWidth
    ensures PlotColumns(c, x, py, row, w).screen[64 * q + px] == c.screen[64 * q + px]
  {
    if w > 0 {
      ColumnsKeepOtherRow(c, x, py, row, w - 1, q, px);
    }
  }

  /** The first w columns of a row leave the cells of the later columns
      alone. */
  lemma {:induction false} ColumnsKeepLaterColumn(c: Canvas, x: nibble, py: nat, row: byte, w: nat, b: nat)
    requires CanvasShaped(c) && py < ScreenHeight && w <= b < 8 && x != VF
    ensures PlotColumns(c, x, py, row, w).screen[64 * py + (c.v[x] + b) % 64]
            == c.screen[64 * py + (c.v[x] + b) % 64]
  {
    if w > 0 {
      ColumnsKeepLaterColumn(c, x, py, row, w - 1, b);
      PlotColumnsRegisters(c, x, py, row, w - 1);
      DistinctColumns(c.v[x], w - 1, b);
    }
  }

  /** The first h rows of a sprite leave the screen rows of the later sprite
      rows alone. */
  lemma {:induction false} RowsKeepLaterRow(c: Canvas, mem: seq<byte>, i: nat, x: nibble, y: nibble, h: nat, r: nat, px: nat)
    requires CanvasShaped(c) && i + h <= |mem| && h <= r < 32 && y != VF && px < ScreenWidth
    ensures PlotRows(c, mem, i, x, y, h).screen[64 * ((c.v[y] + r) % 32) + px]
            == c.screen[64 * ((c.v[y] + r) % 32) + px]
  {
    if h > 0 {
      var d := PlotRows(c, mem, i, x, y, h - 1);
      RowsKeepLaterRow(c, mem, i, x, y, h - 1, r, px);
      PlotRowsRegisters(c, mem, i, x, y, h - 1);
      DistinctRows(c.v[y], h - 1, r);
      ColumnsKeepOtherRow(d, x, (d.v[y] + (h - 1)) % 32, mem[i + (h - 1)], 8, (c.v[y] + r) % 32, px);
    }
  }

  /** One more column of a row: VF becomes the collision of that column's
      cell, as it was before the row, when its bit is set, and is kept
      otherwise. */
  lemma ColumnsFlagStep(c: Canvas, x: nibble, py: nat, row: byte, w: nat)
    requires CanvasShaped(c) && py < ScreenHeight && 0 < w <= 8 && x != VF
    ensures SpriteBit(row, w - 1) ==>
              PlotColumns(c, x, py, row, w).v[VF] == Collision(c.screen[64 * py + (c.v[x] + (w - 1)) % 64])
    ensures !SpriteBit(row, w - 1) ==>
              PlotColumns(c, x, py, row, w).v[VF] == PlotColumns(c, x, py, row, w - 1).v[VF]
  {
    var d := PlotColumns(c, x, py, row, w - 1);
    PlotColumnsRegisters(c, x, py, row, w - 1);
    assert d.v[x] == c.v[x];
    PlotPixelFlag(d, x, py, row, w - 1);
    if SpriteBit(row, w - 1) {
      ColumnsKeepLaterColumn(c, x, py, row, w - 1, w - 1);
    }
  }

  /** Over the first w columns of a row, VF ends as the collision of the
      last set bit, read from the screen as it was before the row. */
  lemma {:induction false} PlotColumnsFlag(c: Canvas, x: nibble, py: nat, row: byte, w: nat)
    requires CanvasShaped(c) && py < ScreenHeight && w <= 8 && x != VF
    ensures LastInRow(row, w).None? ==> PlotColumns(c, x, py, row, w).v[VF] == c.v[VF]
    ensures LastInRow(row, w).Some? ==>
              PlotColumns(c, x, py, row, w).v[VF] == Collision(c.screen[64 * py + (c.v[x] + LastInRow(row, w).value) % 64])
  {
    if w > 0 {
      ColumnsFlagStep(c, x, py, row, w);
      if !SpriteBit(row, w - 1) {
        PlotColumnsFlag(c, x, py, row, w - 1);
        assert LastInRow(row, w) == LastInRow(row, w - 1);
      }
    }
  }

  /** One more sprite row: VF becomes the collision of the row's last set
      bit, read from the screen as it was before the draw, or is kept when
      the row has no set bit. */
  lemma RowsFlagStep(c: Canvas, mem: seq<byte>, i: nat, x: nibble, y: nibble, h: nat)
    requires CanvasShaped(c) && i + h <= |mem| && 0 < h <= 32 && x != VF && y != VF
    ensures LastInRow(mem[i + (h - 1)], 8).None? ==>
              PlotRows(c, mem, i, x, y, h).v[VF] == PlotRows(c, mem, i, x, y, h - 1).v[VF]
    ensures LastInRow(mem[i + (h - 1)], 8).Some? ==>
              PlotRows(c, mem, i, x, y, h).v[VF]
              == Collision(c.screen[BitCell(c.v[x], c.v[y], Bit(h - 1, LastInRow(mem[i + (h - 1)], 8).value))])
  {
    var d := PlotRows(c, mem, i, x, y, h - 1);
    PlotRowsRegisters(c, mem, i, x, y, h - 1);
    assert d.v[x] == c.v[x] && d.v[y] == c.v[y];
    var py := (c.v[y] + (h - 1)) % 32;
    var row := mem[i + (h - 1)];
    assert PlotRows(c, mem, i, x, y, h) == PlotColumns(d, x, py, row, 8);
    PlotColumnsFlag(d, x, py, row, 8);
    var last := LastInRow(row, 8);
    if last.Some? {
      var b := last.value;
      var cell := BitCell(c.v[x], c.v[y], Bit(h - 1, b));
      RowsKeepLaterRow(c, mem, i, x, y, h - 1, h - 1, (c.v[x] + b) % 64);
      assert d.screen[cell] == c.screen[cell];
    }
  }

  /** Over the first h rows, VF ends as the collision of the last set bit,
      read from the screen as it was before the draw; with no set bit it is
      unchanged. */
  lemma {:induction false} PlotRowsFlag(c: Canvas, mem: seq<byte>, i: nat, x: nibble, y: nibble, h: nat)
    requires CanvasShaped(c) && i + h <= |mem| && h <= 32 && x != VF && y != VF
    ensures LastSetBit(mem, i, h).None? ==> PlotRows(c, mem, i, x, y, h).v[VF] == c.v[VF]
    ensures LastSetBit(mem, i, h).Some? ==>
              PlotRows(c, mem, i, x, y, h).v[VF] == Collision(c.screen[BitCell(c.v[x], c.v[y], LastSetBit(mem, i, h).value)])
  {
    if h > 0 {
      RowsFlagStep(c, mem, i, x, y, h);
      var last := LastInRow(mem[i + (h - 1)], 8);
      if last.None? {
        PlotRowsFlag(c, mem, i, x, y, h - 1);
        assert LastSetBit(mem, i, h) == LastSetBit(mem, i, h - 1);
      } else {
        assert LastSetBit(mem, i, h) == Some(Bit(h - 1, last.value));
      }
    }
  }

  /** Dxyn for x and y other than F: VF ends as the collision flag of the
      last set sprite bit walked, not of any set bit, and is unchanged when
      the sprite has no set bit. */
  lemma DrawFlagIsLastCollision(m: Machine, x: nibble, y: nibble, n: nibble)
    requires Shaped(m) && m.i < MemorySize && m.i + n <= MemorySize && x != VF && y != VF
    ensures var t := ExecDraw(m, x, y, n);
            |t.next.v| == RegisterCount &&
            (LastSetBit(m.mem, m.i, n).None? ==> t.next.v[VF] == m.v[VF]) &&
            (LastSetBit(m.mem, m.i, n).Some? ==>
               t.next.v[VF] == Collision(m.screen[BitCell(m.v[x], m.v[y], LastSetBit(m.mem, m.i, n).value)]))
  {
    PlotRowsFlag(Canvas(m.v, m.screen), m.mem, m.i, x, y, n);
  }
}
