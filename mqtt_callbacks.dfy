/**
 * The MQTT callbacks of main/mqtt_callbacks.c: a status report shows its
 * text on the LCD and drives the LEDs, but only when it equals the stored
 * previous status, which is `MQM_NONE` and never changes; a new connection
 * publishes "device connected".
 */
module MqttCallbacks {
  import opened Esp
  import opened LedsDriver
  import opened LcdDriver
  import opened MqttModel
  import MqttManager
  import Topics

  /** The blink interval, in seconds, of the blinking statuses. */
  const BlinkSec: real := 0.4

  /** The message `publish_when_client_connected` sends. */
  const ConnectedMessage: string := "device connected"

  /** The `switch` of `on_mqtt_status`: the LED calls a status makes, in order. */
  function StatusActions(s: MqmStatus): (r: seq<LedAction>)
    ensures r == [] <==> s == MqmNone
  {
    match s
    case MqmConnecting => [Blink(Yellow, BlinkSec, false)]
    case MqmConnected => [On(Yellow, false), On(Green, false)]
    case MqmDisconnecting => [Blink(Yellow, BlinkSec, false)]
    case MqmDisconnected => [Off(Yellow)]
    case MqmError => [On(Red, false), Off(Yellow)]
    case MqmNone => []
  }

  /**
   * The LED state each branch of the `switch` means: the command `l` is left
   * in, or `None` when `l` is not addressed. No branch switches other LEDs
   * off.
   */
  function Intended(s: MqmStatus, l: Led): Option<LedCommand>
  {
    match s
    case MqmConnecting => if l == Yellow then Some(LedCommand(Yellow, true, BlinkSec, 0)) else None
    case MqmConnected => if l != Red then Some(LedCommand(l, true, 0.0, 0)) else None
    case MqmDisconnecting => if l == Yellow then Some(LedCommand(Yellow, true, BlinkSec, 0)) else None
    case MqmDisconnected => if l == Yellow then Some(OffCommand(Yellow)) else None
    case MqmError =>
      if l == Red then Some(LedCommand(Red, true, 0.0, 0))
      else if l == Yellow then Some(OffCommand(Yellow)) else None
    case MqmNone => None
  }

  /** The commands of each branch leave every LED in the state the table gives. */
  lemma StatusLeds(s: MqmStatus, l: Led)
    ensures Latest(AllCommands(StatusActions(s)), l) == Intended(s, l)
  {
    match s
    case MqmConnected => TwoCalls(On(Yellow, false), On(Green, false), l);
    case MqmError => TwoCalls(On(Red, false), Off(Yellow), l);
    case MqmDisconnected => OneCall(Off(Yellow), l);
    case MqmNone =>
    case _ => OneCall(StatusActions(s)[0], l);
  }

  /** One LED call as a one-element branch. */
  lemma OneCall(a: LedAction, l: Led)
    ensures AllCommands([a]) == Commands(a)
  {
    assert AllCommands([a]) == Commands(a) + AllCommands([]);
  }

  /** Two LED calls: `l` ends in the second call's command when it addresses `l`, else in the first's. */
  lemma TwoCalls(a: LedAction, b: LedAction, l: Led)
    ensures Latest(AllCommands([a, b]), l) == if Latest(Commands(b), l).Some? then Latest(Commands(b), l) else Latest(Commands(a), l)
  {
    TwoCommands(a, b);
    LatestAppend(Commands(a), Commands(b), l);
  }

  /** Two LED calls push the first call's commands, then the second's. */
  lemma TwoCommands(a: LedAction, b: LedAction)
    ensures AllCommands([a, b]) == Commands(a) + Commands(b)
  {
    assert [a, b][1..] == [b];
    OneCall(b, Yellow);
  }

  /** Whether a report passes the previous-status test and reaches the LCD and the LEDs. */
  predicate Reaches(prevStatus: MqmStatus, clientStatus: MqmStatus)
  {
    prevStatus == clientStatus
  }

  /**
   * With the previous status fixed at `MQM_NONE`, only a `MQM_NONE` report
   * gets through, and it issues no LED command.
   */
  lemma OnlyNoneReaches(s: MqmStatus)
    ensures Reaches(MqmNone, s) <==> s == MqmNone
    ensures Reaches(MqmNone, s) ==> AllCommands(StatusActions(s)) == []
  {
  }

  /** The reports of a run that get through as written: `prev_status` is never updated. */
  function PassedAsWritten(prev: MqmStatus, reports: seq<MqmStatus>): seq<MqmStatus>
  {
    if reports == [] then []
    else (if Reaches(prev, reports[0]) then [reports[0]] else []) + PassedAsWritten(prev, reports[1..])
  }

  /** A connection that goes through connecting, connected and error shows none of them. */
  lemma AsWrittenHidesTransitions()
    ensures PassedAsWritten(MqmNone, [MqmConnecting, MqmConnected, MqmError]) == []
  {
    var r := [MqmConnecting, MqmConnected, MqmError];
    assert r[1..] == [MqmConnected, MqmError] && r[1..][1..] == [MqmError] && r[1..][1..][1..] == [];
  }

  /**
   * The reports that get through with the evidently intended filter: a
   * report that differs from the last one shown is shown and becomes the
   * previous status; a repeated one is skipped.
   */
  function PassedCorrected(prev: MqmStatus, reports: seq<MqmStatus>): seq<MqmStatus>
    decreases |reports|
  {
    if reports == [] then []
    else if prev != reports[0] then [reports[0]] + PassedCorrected(reports[0], reports[1..])
    else PassedCorrected(prev, reports[1..])
  }

  /**
   * With the corrected filter no status is shown twice in a row, nothing is
   * shown exactly when every report repeats the previous status, and
   * otherwise the display ends on the latest report.
   */
  lemma {:induction false} CorrectedShowsTransitions(prev: MqmStatus, reports: seq<MqmStatus>)
    ensures var r := PassedCorrected(prev, reports);
            (r != [] ==> r[0] != prev) &&
            (forall i :: 0 <= i < |r| - 1 ==> r[i] != r[i + 1]) &&
            (r == [] <==> forall i :: 0 <= i < |reports| ==> reports[i] == prev) &&
            (r != [] ==> r[|r| - 1] == reports[|reports| - 1])
    decreases |reports|
  {
    if reports != [] {
      var next := if prev != reports[0] then reports[0] else prev;
      CorrectedShowsTransitions(next, reports[1..]);
      var t := PassedCorrected(next, reports[1..]);
      if prev != reports[0] {
        assert PassedCorrected(prev, reports) == [reports[0]] + t;
      } else {
        assert PassedCorrected(prev, reports) == t;
        forall i | 0 <= i < |reports| && (forall j :: 0 <= j < |reports[1..]| ==> reports[1..][j] == prev)
          ensures reports[i] == prev
        {
          if i > 0 { assert reports[i] == reports[1..][i - 1]; }
        }
      }
    }
  }

  /** The module state of main/mqtt_callbacks.c. */
  class MqttCallbacksHandler {
    var initialized: bool
    var lcd: LcdContext
    var prevStatus: MqmStatus

    /** The static initial state: not initialised, a zeroed LCD context, previous status `MQM_NONE`. */
    constructor ()
      ensures !initialized && lcd == LcdContext(0, 0, 0, 0, 0, 0, 0, 0) && prevStatus == MqmNone
    {
      initialized := false;
      lcd := LcdContext(0, 0, 0, 0, 0, 0, 0, 0);
      prevStatus := MqmNone;
    }

    /** `init_mqtt_callbacks_handler`: keep the LCD context and mark the module initialised. */
    method Init(ctx: LcdContext)
      modifies this
      ensures initialized && lcd == ctx && prevStatus == old(prevStatus)
    {
      lcd := ctx;
      initialized := true;
    }

    /**
     * `on_mqtt_status`: nothing before initialisation or when the report
     * differs from the previous status; otherwise the text on the LCD from
     * row 0 with the screen cleared (nothing when the text cannot be copied,
     * `allocOk` false), then the status's LED calls in order.
     */
    method OnMqttStatus(status: string, clientStatus: MqmStatus, display: Lcd, leds: Leds, allocOk: bool)
      modifies display, leds
      ensures display.levels == old(display.levels) +
                (if initialized && Reaches(prevStatus, clientStatus) && allocOk then ShowLinesPins(0, status, true, lcd) else [])
      ensures leds.queue == old(leds.queue) +
                (if initialized && Reaches(prevStatus, clientStatus) && leds.initialized then AllCommands(StatusActions(clientStatus)) else [])
      ensures leds.initialized == old(leds.initialized) && leds.pins == old(leds.pins)
    {
      if !initialized {
        return;
      }
      if prevStatus != clientStatus {
        return;
      }
      display.ShowLines(0, status, lcd, true, allocOk);
      StatusLedCalls(clientStatus, leds);
    }

    /** The `switch` of `on_mqtt_status`: the status's LED calls, in order. */
    static method StatusLedCalls(clientStatus: MqmStatus, leds: Leds)
      modifies leds
      ensures leds.queue == old(leds.queue) + (if leds.initialized then AllCommands(StatusActions(clientStatus)) else [])
      ensures leds.initialized == old(leds.initialized) && leds.pins == old(leds.pins)
    {
      match clientStatus {
        case MqmConnecting =>
          leds.LedBlinking(Yellow, BlinkSec, false);
          OneCall(Blink(Yellow, BlinkSec, false), Yellow);
        case MqmConnected =>
          leds.LedOn(Yellow, false);
          leds.LedOn(Green, false);
          TwoCommands(On(Yellow, false), On(Green, false));
        case MqmDisconnecting =>
          leds.LedBlinking(Yellow, BlinkSec, false);
          OneCall(Blink(Yellow, BlinkSec, false), Yellow);
        case MqmDisconnected =>
          leds.LedOff(Yellow);
          OneCall(Off(Yellow), Yellow);
        case MqmError =>
          leds.LedOn(Red, false);
          leds.LedOff(Yellow);
          TwoCommands(On(Red, false), Off(Yellow));
        case MqmNone =>
      }
    }

    /**
     * `publish_when_client_connected`: nothing before initialisation;
     * otherwise one publish of "device connected" on the device-connection
     * topic with QoS 1 and no retain. The publish result is only logged.
     */
    method PublishWhenClientConnected(client: MqttManager.Manager?)
      modifies client
      ensures client != null ==>
                client.Snap() == (if initialized then Publish(old(client.Snap()), Some(Topics.OutDeviceConnection), Some(ConnectedMessage), 1, 0).m
                                  else old(client.Snap()))
    {
      if !initialized {
        return;
      }
      var _ := MqttManager.Publish(client, Some(Topics.OutDeviceConnection), Some(ConnectedMessage), 1, 0);
    }
  }
}
