/**
 * The Wi-Fi reset button handler of main/interrupts.c: a recogniser over
 * (level, time) samples that raises the long-press flag for a press of five
 * seconds or more and the triple-press flag for three quick short presses.
 * The handler's static locals and the two flags it raises are the fields of
 * a `ButtonIsr` object; the register reads are the handler's parameters and
 * the register stores go to a `Registers` object.
 */
module Interrupts {
  import opened Esp
  import opened HardwareLayer

  const LongPressMs: int := 5000              // a press this long (ms) is a reset
  const ClickWindowUs: int := 3000000         // releases this close (us) are consecutive clicks
  const TripleClicks: int := 3
  const MatrixBase: int := 0x3F4C_2000        // INTERRUPT_MATRIX_BASE_ADDRESS
  const ProGpioMapReg: int := 0x5C            // INTERRUPT_MATRIX_PRO_GPIO_MAP_REG
  const CpuGpioInterrupt: bv32 := 4           // CPU_GPIO_INTERRUPT_NUM

  /** The recogniser's state: the handler's static locals and the two flags it raises. */
  datatype Gesture = Gesture(lastLevel: int, pressStart: int, lastRelease: int, clicks: int,
                             resetPressed: bool, triplePressed: bool)

  /** The state at boot: the level high (released), no clicks, no flags. */
  function Boot(): Gesture
  {
    Gesture(1, 0, 0, 0, false, false)
  }

  /** Whether the interrupt status word has the button pin's bit set. */
  predicate Triggered(status: bv32, pin: nat)
  {
    status & Mask(pin) != 0
  }

  /** Bit `pin` of the level register, as the handler reads it. */
  function LevelBit(word: bv32, pin: nat): (l: int)
    ensures l == 0 || l == 1
  {
    if pin < 32 && (word >> pin) & 1 == 1 then 1 else 0
  }

  /** The press duration in milliseconds, with C's truncating division of the `int64_t` microseconds. */
  function PressMs(g: Gesture, now: int): int
  {
    CDiv(now - g.pressStart, 1000)
  }

  /**
   * A release (0 to 1): a long press raises the reset flag and forgets the
   * clicks; a short press counts a click (restarting at 1 after a gap of
   * more than three seconds), remembers the release time, and at the third
   * click raises the triple-press flag and starts over.
   */
  function Release(g: Gesture, now: int): Gesture
  {
    if PressMs(g, now) >= LongPressMs then g.(resetPressed := true, clicks := 0)
    else
      var clicks := if now - g.lastRelease <= ClickWindowUs then g.clicks + 1 else 1;
      if clicks >= TripleClicks then g.(clicks := 0, lastRelease := now, triplePressed := true)
      else g.(clicks := clicks, lastRelease := now)
  }

  /** One triggered interrupt with the pin at `level`: a press (1 to 0) records its start; the level is remembered. */
  function Sample(g: Gesture, level: int, now: int): Gesture
  {
    if level == 0 && g.lastLevel == 1 then g.(pressStart := now, lastLevel := level)
    else if level == 1 && g.lastLevel == 0 then Release(g, now).(lastLevel := level)
    else g.(lastLevel := level)
  }

  /** `gpio_interrupt_handler`: nothing unless the button pin triggered. */
  function Handle(g: Gesture, pin: nat, status: bv32, levelWord: bv32, now: int): Gesture
  {
    if Triggered(status, pin) then Sample(g, LevelBit(levelWord, pin), now) else g
  }

  /** A run of triggered interrupts, as (level, time) samples. */
  datatype Edge = Edge(level: int, now: int)

  function Run(g: Gesture, edges: seq<Edge>): Gesture
  {
    if edges == [] then g else Sample(Run(g, edges[..|edges| - 1]), edges[|edges| - 1].level, edges[|edges| - 1].now)
  }

  /** Between calls the click count is one of 0, 1, 2. */
  predicate Valid(g: Gesture)
  {
    0 <= g.clicks < TripleClicks
  }

  /* --------------------------------------------------------------- lemmas */

  /** An interrupt of another pin changes nothing. */
  lemma UntriggeredKeeps(g: Gesture, pin: nat, status: bv32, levelWord: bv32, now: int)
    requires !Triggered(status, pin)
    ensures Handle(g, pin, status, levelWord, now) == g
  {
  }

  /** A press (1 to 0) records the time and nothing else. */
  lemma PressRecordsStart(g: Gesture, now: int)
    requires g.lastLevel == 1
    ensures Sample(g, 0, now) == g.(pressStart := now, lastLevel := 0)
  {
  }

  /** A sample at the level already seen, or any level other than 0 and 1, changes no timing state and no flag. */
  lemma SameLevelKeepsTiming(g: Gesture, level: int, now: int)
    requires !(level == 0 && g.lastLevel == 1) && !(level == 1 && g.lastLevel == 0)
    ensures Sample(g, level, now) == g.(lastLevel := level)
  {
  }

  /** A long press raises the reset flag, forgets the clicks and keeps the last release time and the triple flag. */
  lemma LongPressResets(g: Gesture, now: int)
    requires g.lastLevel == 0 && PressMs(g, now) >= LongPressMs
    ensures var r := Sample(g, 1, now);
            r.resetPressed && r.clicks == 0 && r.lastRelease == g.lastRelease &&
            r.triplePressed == g.triplePressed && r.pressStart == g.pressStart && r.lastLevel == 1
  {
  }

  /**
   * A short press counts a click (after a gap of more than three seconds,
   * the first), records the release, and raises the triple flag exactly when
   * the count reaches three.
   */
  lemma ShortPressCounts(g: Gesture, now: int)
    requires g.lastLevel == 0 && PressMs(g, now) < LongPressMs
    ensures var r := Sample(g, 1, now);
            var n := if now - g.lastRelease <= ClickWindowUs then g.clicks + 1 else 1;
            r.lastRelease == now && r.resetPressed == g.resetPressed && r.lastLevel == 1 &&
            (n >= TripleClicks ==> r.triplePressed && r.clicks == 0) &&
            (n < TripleClicks ==> r.triplePressed == g.triplePressed && r.clicks == n)
  {
  }

  /** The handler keeps the click count in 0..2 and never lowers a flag. */
  lemma HandleKeepsValid(g: Gesture, pin: nat, status: bv32, levelWord: bv32, now: int)
    requires Valid(g)
    ensures var r := Handle(g, pin, status, levelWord, now);
            Valid(r) && (g.resetPressed ==> r.resetPressed) && (g.triplePressed ==> r.triplePressed)
  {
  }

  /** Over any run the click count stays in 0..2 and the flags never go down. */
  lemma {:induction false} RunKeepsValid(g: Gesture, edges: seq<Edge>)
    requires Valid(g)
    ensures var r := Run(g, edges);
            Valid(r) && (g.resetPressed ==> r.resetPressed) && (g.triplePressed ==> r.triplePressed)
    decreases |edges|
  {
    if edges != [] {
      RunKeepsValid(g, edges[..|edges| - 1]);
    }
  }

  /** Two runs one after the other. */
  lemma {:induction false} RunAppend(g: Gesture, a: seq<Edge>, b: seq<Edge>)
    ensures Run(g, a + b) == Run(Run(g, a), b)
    decreases |b|
  {
    if b == [] {
      assert a + b == a;
    } else {
      assert (a + b)[..|a + b| - 1] == a + b[..|b| - 1];
      RunAppend(g, a, b[..|b| - 1]);
    }
  }

  /** One short click: press at `t`, release 0.1 s later. */
  function Click(t: int): seq<Edge>
  {
    [Edge(0, t), Edge(1, t + 100000)]
  }

  /** A run of two samples. */
  lemma RunTwo(g: Gesture, a: Edge, b: Edge)
    ensures Run(g, [a, b]) == Sample(Sample(g, a.level, a.now), b.level, b.now)
  {
    assert [a, b][..1] == [a];
    assert [a][..0] == [];
    assert Run(g, [a]) == Sample(Run(g, []), a.level, a.now);
  }

  /** Three short clicks one second apart, from boot, raise the triple flag and leave no clicks counted. */
  lemma TripleClickRaisesFlag()
    ensures var r := Run(Boot(), Click(1000000) + Click(2000000) + Click(3000000));
            r.triplePressed && !r.resetPressed && r.clicks == 0
  {
    RunTwo(Boot(), Edge(0, 1000000), Edge(1, 1100000));
    var g1 := Run(Boot(), Click(1000000));
    assert g1 == Gesture(1, 1000000, 1100000, 1, false, false);
    RunTwo(g1, Edge(0, 2000000), Edge(1, 2100000));
    var g2 := Run(g1, Click(2000000));
    assert g2 == Gesture(1, 2000000, 2100000, 2, false, false);
    RunTwo(g2, Edge(0, 3000000), Edge(1, 3100000));
    var g3 := Run(g2, Click(3000000));
    assert g3 == Gesture(1, 3000000, 3100000, 0, false, true);
    RunAppend(Boot(), Click(1000000), Click(2000000));
    RunAppend(Boot(), Click(1000000) + Click(2000000), Click(3000000));
  }

  /** A press held exactly five seconds is a reset; one microsecond less is a click. */
  lemma LongPressThreshold()
    ensures Run(Boot(), [Edge(0, 0), Edge(1, 5000000)]).resetPressed
    ensures !Run(Boot(), [Edge(0, 0), Edge(1, 4999999)]).resetPressed
    ensures Run(Boot(), [Edge(0, 0), Edge(1, 4999999)]).clicks == 1
  {
    RunTwo(Boot(), Edge(0, 0), Edge(1, 5000000));
    RunTwo(Boot(), Edge(0, 0), Edge(1, 4999999));
  }

  /* ---------------------------------------------------------------- the handler */

  /** The handler's static locals, the pin it watches and the two flags it raises. */
  class ButtonIsr {
    var pin: nat
    var lastLevel: int
    var pressStart: int
    var lastRelease: int
    var clickCount: int
    var resetPressed: bool
    var triplePressed: bool

    function Snap(): Gesture
      reads this
    {
      Gesture(lastLevel, pressStart, lastRelease, clickCount, resetPressed, triplePressed)
    }

    /** The state at boot, watching pin 0 until interrupts are enabled. */
    constructor ()
      ensures Snap() == Boot() && pin == 0
    {
      pin := 0;
      lastLevel, pressStart, lastRelease, clickCount := 1, 0, 0, 0;
      resetPressed, triplePressed := false, false;
    }

    /** `enable_GPIO_interrupts`: route the GPIO interrupt to CPU line 4 and watch `interruptGpio`. */
    method EnableInterrupts(interruptGpio: nat, regs: Registers)
      modifies this, regs
      ensures regs.writes == old(regs.writes) + [RegWrite(MatrixBase + ProGpioMapReg, CpuGpioInterrupt)]
      ensures pin == interruptGpio && Snap() == old(Snap())
    {
      regs.WriteRegister(MatrixBase + ProGpioMapReg, CpuGpioInterrupt);
      pin := interruptGpio;
    }

    /**
     * `gpio_interrupt_handler` with the interrupt status and level words it
     * reads and the time it is called at: when the pin triggered, its pending
     * bit is cleared and the level sample is taken.
     */
    method Handler(status: bv32, levelWord: bv32, now: int, regs: Registers)
      modifies this, regs
      ensures Snap() == Handle(old(Snap()), pin, status, levelWord, now) && pin == old(pin)
      ensures regs.writes == old(regs.writes) + (if Triggered(status, pin) then [RegWrite(GpioBase + IntW1tc, Mask(pin))] else [])
    {
      if status & Mask(pin) != 0 {
        regs.WriteRegister(GpioBase + IntW1tc, Mask(pin));
        var level := LevelBit(levelWord, pin);
        OnSample(level, now);
      } else {
        assert regs.writes == old(regs.writes) + [];
      }
    }

    /** The level sample of a triggered interrupt. */
    method OnSample(level: int, now: int)
      modifies this
      ensures Snap() == Sample(old(Snap()), level, now) && pin == old(pin)
    {
      if level == 0 && lastLevel == 1 {
        pressStart := now;
      } else if level == 1 && lastLevel == 0 {
        OnRelease(now);
      }
      lastLevel := level;
    }

    /** A release: the long-press test, then the click count. */
    method OnRelease(now: int)
      modifies this
      ensures Snap() == Release(old(Snap()), now) && pin == old(pin)
    {
      var pressMs := CDiv(now - pressStart, 1000);
      if pressMs >= LongPressMs {
        resetPressed := true;
        clickCount := 0;
      } else {
        if now - lastRelease <= ClickWindowUs {
          clickCount := clickCount + 1;
        } else {
          clickCount := 1;
        }
        lastRelease := now;
        if clickCount >= TripleClicks {
          triplePressed := true;
          clickCount := 0;
        }
      }
    }
  }
}
