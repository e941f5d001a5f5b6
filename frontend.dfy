/** The parts of `main.cpp` that compute or change emulator state: the window
    title's file name, the framebuffer-to-ARGB mapping, the clamped timer
    update, the key map and key events, and the gate in front of
    `emulate_op`. SDL, audio, argument parsing and the wall clock are not
    modelled; the number of elapsed frames and the events come in as
    parameters. */
module Frontend {
  import opened Bits
  import opened Isa
  import opened Semantics
  import opened Instructions
  import opened Properties
  import opened Emulator

  /* ---------------------------------------------------------------------
     getfilename
     --------------------------------------------------------------------- */

  /** The last index of s holding a character of cs, if any. */
  function LastIndexOf(s: string, cs: set<char>): (r: Option<nat>)
    ensures r.Some? ==> r.value < |s| && s[r.value] in cs
    ensures r.Some? ==> forall j | r.value < j < |s| :: s[j] !in cs
    ensures r.None? ==> forall j | 0 <= j < |s| :: s[j] !in cs
  {
    if |s| == 0 then None
    else if s[|s| - 1] in cs then Some(|s| - 1)
    else LastIndexOf(s[..|s| - 1], cs)
  }

  /** The two directory separators `find_last_of` looks for. */
  const Separators: set<char> := {'/', '\\'}

  /** The path with everything up to and including its last separator
      removed: the longest suffix of the path free of separators. */
  function Basename(path: string): (r: string)
    ensures |r| <= |path| && path[|path| - |r|..] == r
    ensures forall j | 0 <= j < |r| :: r[j] !in Separators
    ensures |r| < |path| ==> path[|path| - |r| - 1] in Separators
  {
    match LastIndexOf(path, Separators)
    case None => path
    case Some(k) => path[k + 1..]
  }

  /** The name with everything from its last period on removed. */
  function StripExtension(name: string): (r: string)
    ensures |r| <= |name| && name[..|r|] == r
    ensures '.' !in name ==> r == name
    ensures '.' in name ==> |r| < |name| && name[|r|] == '.' && forall j | |r| < j < |name| :: name[j] != '.'
  {
    match LastIndexOf(name, {'.'})
    case None => name
    case Some(k) => name[..k]
  }

  /** `getfilename`: the directory part goes first, so that a period in a
      directory name does not count as an extension. The result holds no
      separator, is no longer than the path and is the base name cut at its
      last period, or the whole base name when it has none. */
  function FileName(path: string): (r: string)
    ensures forall j | 0 <= j < |r| :: r[j] !in Separators
    ensures |r| <= |path|
    ensures var b := Basename(path);
            && |r| <= |b|
            && b[..|r|] == r
            && ('.' !in b ==> r == b)
            && ('.' in b ==> |r| < |b| && b[|r|] == '.' && forall j | |r| < j < |b| :: b[j] != '.')
  {
    var b := Basename(path);
    var r := StripExtension(b);
    assert forall j | 0 <= j < |r| :: r[j] == b[j];
    r
  }

  /** A path with neither a separator nor a period is its own file name. */
  lemma PlainNameUnchanged(path: string)
    requires forall j | 0 <= j < |path| :: path[j] !in Separators && path[j] != '.'
    ensures FileName(path) == path
  {
    assert Basename(path) == path;
  }

  /* ---------------------------------------------------------------------
     renderTo
     --------------------------------------------------------------------- */

  type u32 = x: int | 0 <= x < 0x1_0000_0000

  /** The ARGB colour of one screen cell: `0x0033FF66 * cell`, or-ed with
      the opaque dark grey `0xFF111111`. */
  function PixelColor(cell: byte): (argb: u32)
    ensures cell == 0 ==> argb == 0xFF111111
    ensures cell == 1 ==> argb == 0xFF33FF77
    ensures argb >= 0xFF000000
  {
    var product := 0x0033FF66 as bv32 * cell as bv32;
    OpaqueAlpha(product);
    (product | 0xFF111111) as int
  }

  /** Or-ing with `0xFF111111` sets the alpha byte. */
  lemma OpaqueAlpha(p: bv32)
    ensures (p | 0xFF111111) & 0xFF000000 == 0xFF000000
    ensures (p | 0xFF111111) as int >= 0xFF000000
  {
  }

  /** On a monochrome screen the colour tells the cell: lit and unlit cells
      get different colours. */
  lemma PixelColorDistinguishes(a: byte, b: byte)
    requires a <= 1 && b <= 1
    ensures PixelColor(a) == PixelColor(b) <==> a == b
  {
  }

  /** `renderTo`: output cell i is the colour of screen cell i, for all
      2048 cells. */
  method RenderTo(pixels: array<u32>, screen: array<byte>)
    requires pixels.Length == ScreenSize && screen.Length == ScreenSize
    modifies pixels
    ensures forall i | 0 <= i < ScreenSize :: pixels[i] == PixelColor(screen[i])
  {
    var i := 0;
    while i < ScreenSize
      invariant 0 <= i <= ScreenSize
      invariant forall j | 0 <= j < i :: pixels[j] == PixelColor(screen[j])
    {
      pixels[i] := PixelColor(screen[i]);
      i := i + 1;
    }
  }

  /** The redraw step of the frame: when the emulator asks for a redraw, the
      screen is rendered and the request is cleared; otherwise nothing
      happens. */
  method Present(emu: Chip8, pixels: array<u32>)
    requires emu.Valid() && pixels.Length == ScreenSize
    modifies pixels, emu`redraw
    ensures emu.Valid()
    ensures emu.State() == old(emu.State()).(redraw := false)
    ensures old(emu.redraw) ==> forall i | 0 <= i < ScreenSize :: pixels[i] == PixelColor(emu.screen[i])
    ensures !old(emu.redraw) ==> pixels[..] == old(pixels[..])
  {
    if emu.redraw {
      RenderTo(pixels, emu.screen);
      emu.redraw := false;
    }
  }

  /* ---------------------------------------------------------------------
     Timers
     --------------------------------------------------------------------- */

  function Min(a: int, b: int): int
  {
    if a <= b then a else b
  }

  /** A timer after `frames` frames: it goes down by one a frame and stops
      at zero. */
  function Tick(t: byte, frames: nat): (r: byte)
    ensures r as int == if t as int <= frames then 0 else t as int - frames
  {
    t - Min(frames, t)
  }

  /** Running the timers for a frames and then for b frames is running them
      for a + b frames, so the split of elapsed time into frames does not
      matter; a timer never increases. */
  lemma TickCompose(t: byte, a: nat, b: nat)
    ensures Tick(Tick(t, a), b) == Tick(t, a + b)
    ensures Tick(t, a) <= t
  {
  }

  /** The timer update of one frame (main.cpp runs it when at least one
      frame has passed and emulation is not paused): both timers go down by
      `frames`, clamped at zero, and the sound plays for the part of the
      frames the sound timer covered. */
  method UpdateTimers(emu: Chip8, frames: nat) returns (beep: nat)
    requires emu.Valid()
    modifies emu`ST, emu`DT
    ensures emu.Valid()
    ensures emu.State() == old(emu.State()).(st := Tick(old(emu.ST), frames), dt := Tick(old(emu.DT), frames))
    ensures beep == Min(frames, old(emu.ST)) && beep + emu.ST == old(emu.ST)
  {
    var st := Min(frames, emu.ST);
    emu.ST := emu.ST - st;
    var dt := Min(frames, emu.DT);
    emu.DT := emu.DT - dt;
    beep := st;
  }

  /* ---------------------------------------------------------------------
     Keys
     --------------------------------------------------------------------- */

  /** The host key symbol of Escape. */
  const Escape: char := '\U{1B}'

  /** The lookup in the host-keyboard-to-keypad map: sixteen pad keys on
      the 1234 / QWER / ASDF / ZXCV block, the digits 5-9 and 0 as second
      names for some of them, P for pause (-2) and Escape for quit (-1).
      SDL names the printable keys by their characters. */
  function KeyCode(sym: char): (r: Option<int>)
    ensures r.Some? ==> r.value == -1 || r.value == -2 || 0 <= r.value < KeyCount
  {
    match sym
    case '1' => Some(0x1) case '2' => Some(0x2) case '3' => Some(0x3) case '4' => Some(0xC)
    case 'q' => Some(0x4) case 'w' => Some(0x5) case 'e' => Some(0x6) case 'r' => Some(0xD)
    case 'a' => Some(0x7) case 's' => Some(0x8) case 'd' => Some(0x9) case 'f' => Some(0xE)
    case 'z' => Some(0xA) case 'x' => Some(0x0) case 'c' => Some(0xB) case 'v' => Some(0xF)
    case '5' => Some(0x5) case '6' => Some(0x6) case '7' => Some(0x7) case 'p' => Some(-2)
    case '8' => Some(0x8) case '9' => Some(0x9) case '0' => Some(0x0)
    case _ => if sym == Escape then Some(-1) else None
  }

  /** Only Escape quits, only P pauses, and every keypad key has a host
      key. */
  lemma KeyMapCodes(k: nibble)
    ensures forall sym :: KeyCode(sym) == Some(-1) <==> sym == Escape
    ensures forall sym :: KeyCode(sym) == Some(-2) <==> sym == 'p'
    ensures exists sym :: KeyCode(sym) == Some(k)
  {
    var hosts := "x123qweasdzc4rfv";
    assert KeyCode(hosts[k]) == Some(k);
  }

  /** A keypad key going down or up: its flag is set, and on a key-down
      while Fx0A waits, the waiting register receives the key and the wait
      ends. */
  function PressKey(m: Machine, key: nibble, down: bool): (r: Machine)
    requires Invariant(m)
    ensures Invariant(r)
  {
    var m1 := m.(keys := m.keys[key := down]);
    if down && m.awaitingKey != 0 then
      AndLowBits(m.awaitingKey);
      m1.(v := m.v[And(m.awaitingKey, 0x7F) := key], awaitingKey := 0)
    else m1
  }

  /** The events the main loop reacts to. */
  datatype Event = QuitEvent | KeyDown(sym: char) | KeyUp(sym: char) | OtherEvent

  /** The machine and the main loop's two flags. */
  datatype Host = Host(machine: Machine, running: bool, paused: bool)

  /** One event: closing the window or Escape (down or up) stops the loop,
      P going down toggles pause, a keypad key is pressed or released, and
      an unmapped key does nothing. P going up reaches `SetKeyPressed` with
      -2, an index before the key array: None. */
  function OnEvent(h: Host, ev: Event): (r: Option<Host>)
    requires Invariant(h.machine)
    ensures r.Some? ==> Invariant(r.value.machine)
    ensures r.None? <==> ev == KeyUp('p')
  {
    match ev
    case QuitEvent => Some(h.(running := false))
    case OtherEvent => Some(h)
    case KeyDown(sym) => OnKey(h, sym, true)
    case KeyUp(sym) => OnKey(h, sym, false)
  }

  function OnKey(h: Host, sym: char, down: bool): (r: Option<Host>)
    requires Invariant(h.machine)
    ensures r.Some? ==> Invariant(r.value.machine)
    ensures r.None? <==> sym == 'p' && !down
  {
    match KeyCode(sym)
    case None => Some(h)
    case Some(code) =>
      if code == -1 then Some(h.(running := false))
      else if code == -2 && down then Some(h.(paused := !h.paused))
      else if 0 <= code < KeyCount then Some(h.(machine := PressKey(h.machine, code, down)))
      else None
  }

  /** The event handling of the main loop on the emulator object. */
  method HandleEvent(emu: Chip8, ev: Event, running: bool, paused: bool)
    returns (nowRunning: bool, nowPaused: bool, defined: bool)
    requires emu.Valid()
    modifies emu`awaitingKey, emu.V, emu.keyPressed
    ensures emu.Valid()
    ensures var r := OnEvent(Host(old(emu.State()), running, paused), ev);
            && defined == r.Some?
            && (defined ==> r.value == Host(emu.State(), nowRunning, nowPaused))
            && (!defined ==> emu.State() == old(emu.State()))
    ensures !defined ==> nowRunning == running && nowPaused == paused
  {
    nowRunning, nowPaused, defined := running, paused, true;
    match ev
    case QuitEvent =>
      nowRunning := false;
    case OtherEvent =>
    case KeyDown(sym) =>
      nowRunning, nowPaused, defined := HandleKey(emu, sym, true, running, paused);
    case KeyUp(sym) =>
      nowRunning, nowPaused, defined := HandleKey(emu, sym, false, running, paused);
  }

  method HandleKey(emu: Chip8, sym: char, down: bool, running: bool, paused: bool)
    returns (nowRunning: bool, nowPaused: bool, defined: bool)
    requires emu.Valid()
    modifies emu`awaitingKey, emu.V, emu.keyPressed
    ensures emu.Valid()
    ensures var r := OnKey(Host(old(emu.State()), running, paused), sym, down);
            && defined == r.Some?
            && (defined ==> r.value == Host(emu.State(), nowRunning, nowPaused))
            && (!defined ==> emu.State() == old(emu.State()))
    ensures !defined ==> nowRunning == running && nowPaused == paused
  {
    nowRunning, nowPaused, defined := running, paused, true;
    var lookup := KeyCode(sym);
    if lookup.None? {
      return;
    }
    var code := lookup.value;
    if code == -1 {
      nowRunning := false;
      return;
    }
    if code == -2 && down {
      nowPaused := !paused;
      return;
    }
    if !(0 <= code < KeyCount) {
      defined := false;
      return;
    }
    PressKeyIn(emu, code, down);
  }

  /** `SetKeyPressed` followed by the key-wait resolution. */
  method PressKeyIn(emu: Chip8, key: nibble, down: bool)
    requires emu.Valid()
    modifies emu`awaitingKey, emu.V, emu.keyPressed
    ensures emu.Valid()
    ensures emu.State() == PressKey(old(emu.State()), key, down)
  {
    emu.keyPressed[key] := down;
    if down && emu.awaitingKey != 0 {
      AndLowBits(emu.awaitingKey);
      emu.V[And(emu.awaitingKey, 0x7F)] := key;
      emu.awaitingKey := 0;
    }
  }

  /** Fx0A followed by a key-down of a keypad key: the register named by
      the instruction holds the key, no other register changes and the
      wait is over. A key-up does not end the wait. */
  lemma WaitThenPress(m: Machine, ins: Instr, rnd: byte, key: nibble)
    requires Invariant(m) && ins.u == 0xF && ins.kk == 0x0A && ins.nnn < 0x1000
    ensures var m1 := Execute(m, ins, rnd).next;
            && Invariant(m1)
            && m1.awaitingKey != 0 && PressKey(m1, key, false).awaitingKey == m1.awaitingKey
            && var m2 := PressKey(m1, key, true);
            && m2.awaitingKey == 0
            && m2.v[ins.x] == key
            && (forall j | 0 <= j < RegisterCount && j != ins.x :: m2.v[j] == m.v[j])
            && m2.keys[key]
  {
    WaitKeySetsLatch(m, ins, rnd);
    ExecutePreservesInvariant(m, ins, rnd);
  }

  /* ---------------------------------------------------------------------
     The gate in front of emulate_op
     --------------------------------------------------------------------- */

  /** One pass of the main loop's execution step: the emulator runs one
      instruction only when no key wait is pending and emulation is not
      paused; otherwise the machine is left as it is. */
  method Cycle(emu: Chip8, paused: bool, rnd: byte) returns (outcome: Option<Outcome>)
    requires emu.Valid()
    modifies emu`I, emu`PC, emu`sp, emu`DT, emu`ST, emu`awaitingKey, emu`redraw
    modifies emu.memory, emu.V, emu.stack, emu.screen
    ensures emu.Valid()
    ensures old(emu.awaitingKey) == 0 && !paused ==>
              outcome.Some? && Transition(outcome.value, emu.State()) == Step(old(emu.State()), rnd)
    ensures old(emu.awaitingKey) != 0 || paused ==> outcome.None? && emu.State() == old(emu.State())
  {
    if emu.awaitingKey == 0 && !paused {
      var o := emu.EmulateOp(rnd);
      outcome := Some(o);
    } else {
      outcome := None;
    }
  }
}
