/**
 * The LED driver of main/leds_driver.c, up to the command queue: the driver
 * keeps a table of three LEDs and an `initialized` flag, and every API call
 * turns into commands pushed onto the queue that the LED task consumes. The
 * commands are the output; the task that turns them into blinking is not
 * part of this model.
 */
module LedsDriver {
  import opened Esp
  import opened HardwareLayer

  /** `LEDs`, in the order of the driver's table. */
  datatype Led = Red | Green | Yellow

  /** The table order used by `all_leds_off` and `all_leds_init`. */
  const Table: seq<Led> := [Red, Green, Yellow]

  /** One queued command (`LED_indicator` without its pin): `times == 0` blinks without end. */
  datatype LedCommand = LedCommand(led: Led, on: bool, blinkSec: real, times: int)

  function OffCommand(l: Led): LedCommand
  {
    LedCommand(l, false, 0.0, 0)
  }

  /** The commands of `all_leds_off`: one off command per LED, in table order. */
  function AllOffCommands(): seq<LedCommand>
  {
    seq(|Table|, i requires 0 <= i < |Table| => OffCommand(Table[i]))
  }

  /** A call of the driver API. */
  datatype LedAction =
    | AllOff
    | On(led: Led, offOthers: bool)
    | Off(led: Led)
    | Blink(led: Led, sec: real, offOthers: bool)
    | BlinkTimes(led: Led, sec: real, times: int, offOthers: bool)

  /** The commands a call pushes once the driver is initialised. */
  function Commands(a: LedAction): seq<LedCommand>
  {
    match a
    case AllOff => AllOffCommands()
    case On(l, o) => (if o then AllOffCommands() else []) + [LedCommand(l, true, 0.0, 0)]
    case Off(l) => [OffCommand(l)]
    case Blink(l, s, o) => (if o then AllOffCommands() else []) + [LedCommand(l, true, s, 0)]
    case BlinkTimes(l, s, n, o) => (if o then AllOffCommands() else []) + [LedCommand(l, true, s, n)]
  }

  /** The commands several calls push, one after the other. */
  function AllCommands(actions: seq<LedAction>): seq<LedCommand>
  {
    if actions == [] then [] else Commands(actions[0]) + AllCommands(actions[1..])
  }

  /** The last command addressed to `l`: the one the LED task leaves `l` in. */
  function Latest(cmds: seq<LedCommand>, l: Led): (r: Option<LedCommand>)
    ensures r.Some? ==> r.value in cmds && r.value.led == l
    ensures r.None? <==> forall c :: c in cmds ==> c.led != l
  {
    if cmds == [] then None
    else if cmds[|cmds| - 1].led == l then Some(cmds[|cmds| - 1])
    else Latest(cmds[..|cmds| - 1], l)
  }

  /** The stores of `single_led_GPIO_init`: a plain output pin, driven low. */
  function LedPinInit(gpio: nat): seq<RegWrite>
  {
    [RegWrite(GpioBase + PinReg(gpio), ConfigWord(false, false, Disable)),
     RegWrite(GpioBase + EnW1ts, Mask(gpio)),
     RegWrite(GpioBase + OutW1tc, Mask(gpio))]
  }

  /** The stores of `all_leds_init` for the first `n` LEDs of the table. */
  function PinInits(pins: seq<int>, n: nat): seq<RegWrite>
    requires n <= |pins|
  {
    if n == 0 then [] else PinInits(pins, n - 1) + LedPinInit(UShort(pins[n - 1]))
  }

  /* ---------------------------------------------------------------- lemmas */

  /** `Latest` over two halves: the second half wins. */
  lemma {:induction false} LatestAppend(a: seq<LedCommand>, b: seq<LedCommand>, l: Led)
    ensures Latest(a + b, l) == if Latest(b, l).Some? then Latest(b, l) else Latest(a, l)
    decreases |b|
  {
    if b == [] {
      assert a + b == a;
    } else {
      assert (a + b)[..|a + b| - 1] == a + b[..|b| - 1];
      LatestAppend(a, b[..|b| - 1], l);
    }
  }

  /** After `all_leds_off` every LED is off. */
  lemma AllOffMeaning(l: Led)
    ensures Latest(AllOffCommands(), l) == Some(OffCommand(l))
    ensures |AllOffCommands()| == 3
  {
    var c := AllOffCommands();
    assert c == [OffCommand(Red), OffCommand(Green), OffCommand(Yellow)];
  }

  /** The LED state a lighting call leaves: the LED in its command and, when asked, every other LED off; otherwise the others untouched. */
  lemma {:induction false} LightingMeaning(prefix: bool, cmd: LedCommand, l: Led)
    ensures var cmds := (if prefix then AllOffCommands() else []) + [cmd];
            (l == cmd.led ==> Latest(cmds, l) == Some(cmd)) &&
            (l != cmd.led && prefix ==> Latest(cmds, l) == Some(OffCommand(l))) &&
            (l != cmd.led && !prefix ==> Latest(cmds, l).None?)
  {
    var pre := if prefix then AllOffCommands() else [];
    LatestAppend(pre, [cmd], l);
    if prefix {
      AllOffMeaning(l);
    }
    if l != cmd.led {
      assert Latest([cmd], l) == Latest([], l);
    }
  }

  /**
   * `led_on(x, true)` leaves `x` steadily on and the others off; `led_on(x,
   * false)` commands only `x`. Each blinking call does the same with a blink
   * interval, continuous for `led_blinking` and `times` blinks for
   * `led_blinking_limited_times`.
   */
  lemma ActionMeaning(a: LedAction, l: Led)
    requires !a.AllOff? && !a.Off?
    ensures var cmds := Commands(a);
            var target := match a
                          case On(x, _) => LedCommand(x, true, 0.0, 0)
                          case Blink(x, s, _) => LedCommand(x, true, s, 0)
                          case BlinkTimes(x, s, n, _) => LedCommand(x, true, s, n)
                          case _ => OffCommand(l);
            (l == a.led ==> Latest(cmds, l) == Some(target)) &&
            (l != a.led && a.offOthers ==> Latest(cmds, l) == Some(OffCommand(l))) &&
            (l != a.led && !a.offOthers ==> Latest(cmds, l).None?)
  {
    match a
    case On(x, o) => LightingMeaning(o, LedCommand(x, true, 0.0, 0), l);
    case Blink(x, s, o) => LightingMeaning(o, LedCommand(x, true, s, 0), l);
    case BlinkTimes(x, s, n, o) => LightingMeaning(o, LedCommand(x, true, s, n), l);
  }

  /** `led_off(x)` turns `x` off and commands no other LED. */
  lemma OffMeaning(x: Led, l: Led)
    ensures Latest(Commands(Off(x)), l) == if l == x then Some(OffCommand(x)) else None
  {
  }

  /** Several calls: the commands of each, in call order. */
  lemma {:induction false} AllCommandsAppend(a: seq<LedAction>, b: seq<LedAction>)
    ensures AllCommands(a + b) == AllCommands(a) + AllCommands(b)
    decreases |a|
  {
    if a == [] {
      assert a + b == b;
    } else {
      assert (a + b)[1..] == a[1..] + b;
      AllCommandsAppend(a[1..], b);
    }
  }

  /** `all_leds_init` configures the three pins, each as a plain output driven low, whatever their value. */
  lemma PinInitsShape(pins: seq<int>)
    requires |pins| == 3
    ensures PinInits(pins, 3) == LedPinInit(UShort(pins[0])) + LedPinInit(UShort(pins[1])) + LedPinInit(UShort(pins[2]))
    ensures |PinInits(pins, 3)| == 9
  {
    assert PinInits(pins, 1) == LedPinInit(UShort(pins[0]));
  }

  /** A pin of -1 (not connected) is still set up, as GPIO 65535. */
  lemma UnconnectedPinIsSetUp()
    ensures UShort(-1) == 65535
    ensures LedPinInit(UShort(-1))[0] == RegWrite(GpioBase + PinReg(65535), ConfigWord(false, false, Disable))
  {
  }

  /* ---------------------------------------------------------------- the driver */

  /** The driver's module state: the flag, the pins of the table and the command queue. */
  class Leds {
    var initialized: bool
    var pins: seq<int>
    var queue: seq<LedCommand>

    /** The state before `all_leds_init`: no pins, nothing queued. */
    constructor ()
      ensures !initialized && pins == [-1, -1, -1] && queue == []
    {
      initialized, pins, queue := false, [-1, -1, -1], [];
    }

    /** `all_leds_init`: the pins by table index, every LED's GPIO set up (the pin guard is always true), then the flag. */
    method AllLedsInit(greenPin: int, redPin: int, yellowPin: int, regs: Registers)
      modifies this, regs
      ensures pins == [redPin, greenPin, yellowPin] && initialized && queue == old(queue)
      ensures regs.writes == old(regs.writes) + PinInits(pins, 3)
    {
      pins := [redPin, greenPin, yellowPin];
      for i := 0 to 3
        invariant pins == [redPin, greenPin, yellowPin] && queue == old(queue)
        invariant regs.writes == old(regs.writes) + PinInits(pins, i)
      {
        if pins[i] > -1 || true {
          var gpio := UShort(pins[i]);
          regs.ConfigGpio(gpio, false, false, TwentyMa, false, false, Disable);
          regs.SetOutputDirection(gpio);
          regs.SetOutputLevel(gpio, Low);
        }
      }
      initialized := true;
    }

    /** `all_leds_off`. */
    method AllLedsOff()
      modifies this
      ensures queue == old(queue) + (if initialized then Commands(AllOff) else [])
      ensures initialized == old(initialized) && pins == old(pins)
    {
      if !initialized {
        return;
      }
      for i := 0 to |Table|
        invariant queue == old(queue) + AllOffCommands()[..i]
        invariant initialized && pins == old(pins)
      {
        assert AllOffCommands()[..i + 1] == AllOffCommands()[..i] + [OffCommand(Table[i])];
        queue := queue + [LedCommand(Table[i], false, 0.0, 0)];
      }
      assert AllOffCommands()[..|Table|] == AllOffCommands();
    }

    /** The optional `all_leds_off` a lighting call starts with. */
    method OffFirst(offOthers: bool)
      requires initialized
      modifies this
      ensures queue == old(queue) + (if offOthers then AllOffCommands() else [])
      ensures initialized && pins == old(pins)
    {
      if offOthers {
        AllLedsOff();
      }
    }

    /** `led_on`. */
    method LedOn(led: Led, offOthers: bool)
      modifies this
      ensures queue == old(queue) + (if initialized then Commands(On(led, offOthers)) else [])
      ensures initialized == old(initialized) && pins == old(pins)
    {
      if !initialized {
        return;
      }
      OffFirst(offOthers);
      queue := queue + [LedCommand(led, true, 0.0, 0)];
    }

    /** `led_off`. */
    method LedOff(led: Led)
      modifies this
      ensures queue == old(queue) + (if initialized then Commands(Off(led)) else [])
      ensures initialized == old(initialized) && pins == old(pins)
    {
      if !initialized {
        return;
      }
      queue := queue + [LedCommand(led, false, 0.0, 0)];
    }

    /** `led_blinking_limited_times`. */
    method LedBlinkingLimitedTimes(led: Led, blinkSec: real, blinkTimes: int, offOthers: bool)
      modifies this
      ensures queue == old(queue) + (if initialized then Commands(BlinkTimes(led, blinkSec, blinkTimes, offOthers)) else [])
      ensures initialized == old(initialized) && pins == old(pins)
    {
      if !initialized {
        return;
      }
      OffFirst(offOthers);
      queue := queue + [LedCommand(led, true, blinkSec, blinkTimes)];
    }

    /** `led_blinking`. */
    method LedBlinking(led: Led, blinkSec: real, offOthers: bool)
      modifies this
      ensures queue == old(queue) + (if initialized then Commands(Blink(led, blinkSec, offOthers)) else [])
      ensures initialized == old(initialized) && pins == old(pins)
    {
      if !initialized {
        return;
      }
      OffFirst(offOthers);
      queue := queue + [LedCommand(led, true, blinkSec, 0)];
    }

    /** Any API call, dispatched to its function. */
    method Apply(a: LedAction)
      modifies this
      ensures queue == old(queue) + (if initialized then Commands(a) else [])
      ensures initialized == old(initialized) && pins == old(pins)
    {
      match a {
        case AllOff => AllLedsOff();
        case On(l, o) => LedOn(l, o);
        case Off(l) => LedOff(l);
        case Blink(l, s, o) => LedBlinking(l, s, o);
        case BlinkTimes(l, s, n, o) => LedBlinkingLimitedTimes(l, s, n, o);
      }
    }
  }
}
