/**
 * The Wi-Fi status callbacks of main/WiFi_callbacks.c: once initialised with
 * an LCD context, every status report shows its message on the LCD (screen
 * cleared first) and drives the LEDs through a fixed status-to-LED mapping.
 */
module WifiCallbacks {
  import opened Esp
  import opened LedsDriver
  import opened LcdDriver
  import opened WifiModel

  /** The blink interval, in seconds, of the blinking statuses. */
  const BlinkSec: real := 0.4

  /** The `switch` of `on_wifi_status`: the LED call a status makes, if any. */
  function StatusAction(s: WifiStatus): (a: Option<LedAction>)
    ensures a.None? <==> s == StNone
  {
    match s
    case StConnecting => Some(Blink(Green, BlinkSec, true))
    case StConnected => Some(On(Green, false))
    case StDisconnecting => Some(Blink(Green, BlinkSec, false))
    case StDisconnected => Some(Off(Green))
    case StError => Some(On(Red, true))
    case StNone => None
  }

  /** The LED commands a status pushes once the LED driver is initialised. */
  function StatusCommands(s: WifiStatus): seq<LedCommand>
  {
    if StatusAction(s).Some? then Commands(StatusAction(s).value) else []
  }

  /**
   * What each status means for each LED, written as a table of LED states:
   * the command `l` is left in, or `None` when `l` is not addressed.
   * Connecting blinks green and switches the rest off; connected lights
   * green; disconnecting blinks green; disconnected switches green off; an
   * error lights red and switches the rest off.
   */
  function Intended(s: WifiStatus, l: Led): Option<LedCommand>
  {
    match s
    case StConnecting => Some(if l == Green then LedCommand(Green, true, BlinkSec, 0) else OffCommand(l))
    case StConnected => if l == Green then Some(LedCommand(Green, true, 0.0, 0)) else None
    case StDisconnecting => if l == Green then Some(LedCommand(Green, true, BlinkSec, 0)) else None
    case StDisconnected => if l == Green then Some(OffCommand(Green)) else None
    case StError => Some(if l == Red then LedCommand(Red, true, 0.0, 0) else OffCommand(l))
    case StNone => None
  }

  /** The commands of every status leave each LED in the state the table gives. */
  lemma StatusLeds(s: WifiStatus, l: Led)
    ensures Latest(StatusCommands(s), l) == Intended(s, l)
  {
    match s
    case StDisconnected => OffMeaning(Green, l);
    case StNone =>
    case _ => ActionMeaning(StatusAction(s).value, l);
  }

  /** The module state of main/WiFi_callbacks.c. */
  class WifiCallbacksHandler {
    var initialized: bool
    var lcd: LcdContext

    /** The static initial state: not initialised, a zeroed LCD context. */
    constructor ()
      ensures !initialized && lcd == LcdContext(0, 0, 0, 0, 0, 0, 0, 0)
    {
      initialized := false;
      lcd := LcdContext(0, 0, 0, 0, 0, 0, 0, 0);
    }

    /** `init_wifi_callbacks_handler`: keep the LCD context and mark the module initialised. */
    method Init(ctx: LcdContext)
      modifies this
      ensures initialized && lcd == ctx
    {
      lcd := ctx;
      initialized := true;
    }

    /**
     * `on_wifi_status`: nothing before initialisation; afterwards the
     * message on the LCD from row 0 with the screen cleared (nothing when
     * the LCD cannot copy the text, `allocOk` false), then the status's LED
     * call, which itself does nothing before the LED driver is initialised.
     */
    method OnWifiStatus(msg: string, status: WifiStatus, display: Lcd, leds: Leds, allocOk: bool)
      modifies display, leds
      ensures display.levels == old(display.levels) + (if initialized && allocOk then ShowLinesPins(0, msg, true, lcd) else [])
      ensures leds.queue == old(leds.queue) + (if initialized && leds.initialized then StatusCommands(status) else [])
      ensures leds.initialized == old(leds.initialized) && leds.pins == old(leds.pins)
    {
      if !initialized {
        return;
      }
      display.ShowLines(0, msg, lcd, true, allocOk);
      var a := StatusAction(status);
      if a.Some? {
        leds.Apply(a.value);
      }
    }
  }
}
