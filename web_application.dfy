/**
 * The application layer of main/web_application.c: the MQTT command handlers
 * that drive the LEDs and the LCD, the network switch requested over MQTT
 * with its rules for keeping or dropping credentials, the connection report,
 * and the OTA progress reporting.
 *
 * The layer works on several objects at once: the Wi-Fi and MQTT managers it
 * was given, the credential store, the LED driver and the LCD. `World` is
 * their joint state as a value; every operation is a function from `World` to
 * `World`, and every method of `WebApp` is proved to move the objects as that
 * function says.
 */
module WebApplication {
  import opened Esp
  import opened Util
  import opened NvsMemory
  import opened LedsDriver
  import opened LcdDriver
  import WifiModel
  import MqttModel
  import WifiManager
  import MqttManager
  import Topics

  /** `DEV_NAME` and `PROG_VERSION` (main/config.h). */
  const DevName: string := "ESP32-s2 Ivgeny-DevKit"
  const ProgVersion: string := "1.3.2"

  /** The size of each line buffer of `device_connection_test`. */
  const LineBufSize: nat := 64
  /** The size of the buffer each stored credential is formatted into. */
  const CredLineBufSize: nat := 128
  /** How many one-second polls the network switch waits for MQTT. */
  const MqttPolls: nat := 60

  const InvalidPayloadText: string := "invalid payload"
  /** "Switching Wi-Fi…" as the bytes the C literal holds: the ellipsis is three UTF-8 bytes. */
  const SwitchingText: string := "Switching" + " " + "Wi-Fi\U{E2}\U{80}\U{A6}"
  const NewWifiConnectedText: string := "new wifi connected"
  const SwitchedOkText: string := "Wi-Fi switched OK"
  const WrongPasswordText: string := "new wifi not connected - wrong password"
  const NoApText: string := "new wifi not connected - ssid not found"
  const OtherReasonText: string := "new wifi not connected - other reason"
  const ReconnectFailedText: string := ReconnectFailed
  const InvalidUrlText: string := "invalid url"
  const BeginFailedText: string := "Begin failed"
  const DownloadStartedText: string := "Download started"
  const OtaOkText: string := "OTA successful, restarting..."
  const OtaFailedText: string := "OTA version updated failed"
  const InstalledText: string := "new version installed"
  const StartingOtaText: string := "Starting OTA update"

  /* ------------------------------------------------------------ the world */

  /** The objects the layer drives, as values; a `None` manager is a NULL pointer. */
  datatype World = World(wfm: Option<WifiModel.Wfm>, mqm: Option<MqttModel.Mqm>, blob: Option<CredList>,
                         ledsReady: bool, queue: seq<LedCommand>, levels: seq<PinLevel>)

  /** What the stored list and the Wi-Fi context must satisfy for the store and the switch to be defined. */
  ghost predicate WorldOk(w: World)
  {
    (w.blob.Some? ==> ValidList(w.blob.value)) && (w.wfm.Some? ==> WifiModel.Inv(w.wfm.value))
  }

  /** `mqm_is_connected`. */
  predicate Up(m: Option<MqttModel.Mqm>)
  {
    m.Some? && m.value.connected
  }

  /** `mqm_publish_ex(mqm, topic, msg, 1, 0)` on a possibly NULL context; the result is only logged. */
  function PubMqm(m: Option<MqttModel.Mqm>, topic: string, msg: string): Option<MqttModel.Mqm>
  {
    if m.None? then None else Some(MqttModel.Publish(m.value, Some(topic), Some(msg), 1, 0).m)
  }

  /** `publish_q1` and `MQTT_PUBLISH_CHECK` with QoS 1, no retain. */
  function Publish(w: World, topic: string, msg: string): World
  {
    w.(mqm := PubMqm(w.mqm, topic, msg))
  }

  /** Several publishes on one topic, in order. */
  function PublishAll(w: World, topic: string, msgs: seq<string>): World
    decreases |msgs|
  {
    if msgs == [] then w else Publish(PublishAll(w, topic, msgs[..|msgs| - 1]), topic, msgs[|msgs| - 1])
  }

  /** One LED driver call. */
  function Light(w: World, a: LedAction): World
  {
    w.(queue := w.queue + if w.ledsReady then Commands(a) else [])
  }

  /** Several LED driver calls, in order. */
  function LightAll(w: World, actions: seq<LedAction>): World
  {
    w.(queue := w.queue + if w.ledsReady then AllCommands(actions) else [])
  }

  /** `LCD_show_lines(0, text, LCD, clear)`; `allocOk` false stands for the failed copy of the text. */
  function Show(w: World, text: string, clear: bool, lcd: LcdContext, allocOk: bool): World
  {
    w.(levels := w.levels + if allocOk then ShowLinesPins(0, text, clear, lcd) else [])
  }

  /** The stored list after `add_wifi_creds_to_NVS_memory`. */
  function SavedBlob(blob: Option<CredList>, ssid: CString, pass: CString, readFault: bool): Option<CredList>
    requires blob.Some? ==> ValidList(blob.value)
  {
    if ssid == "" then blob else Some(UpsertList(LoadedList(blob, readFault), ssid, pass))
  }

  /** The stored list after `remove_wifi_creds_from_NVS_memory`. */
  function ForgottenBlob(blob: Option<CredList>, ssid: CString, readFault: bool): Option<CredList>
    requires blob.Some? ==> ValidList(blob.value)
  {
    if ssid == "" then blob else Some(RemoveList(LoadedList(blob, readFault), ssid))
  }

  /* ----------------------------------------------------------- LED commands */

  /** An entry of `s_leds_table`: a command string and the LED call it runs. */
  datatype LedEntry = LedEntry(command: string, action: LedAction)

  const LedTable: seq<LedEntry> := [
    LedEntry("red led on", On(Red, false)),
    LedEntry("red led off", Off(Red)),
    LedEntry("yellow led on", On(Yellow, false)),
    LedEntry("yellow led off", Off(Yellow)),
    LedEntry("green led on", On(Green, false)),
    LedEntry("green led off", Off(Green))
  ]

  /** The first table entry from `i` on whose command is exactly `cmd`. */
  function FindLed(cmd: string, i: nat): (r: Option<nat>)
    ensures r.Some? ==> i <= r.value < |LedTable| && LedTable[r.value].command == cmd &&
                        forall j :: i <= j < r.value ==> LedTable[j].command != cmd
    ensures r.None? ==> forall j :: i <= j < |LedTable| ==> LedTable[j].command != cmd
    decreases |LedTable| - i
  {
    if i >= |LedTable| then None
    else if LedTable[i].command == cmd then Some(i)
    else FindLed(cmd, i + 1)
  }

  /** The LED call `leds_toggle_handler` makes for a command; none for NULL or an unknown command. */
  function LedCommandFor(cmd: Option<CString>): Option<LedAction>
  {
    if cmd.None? then None
    else match FindLed(cmd.value, 0)
      case Some(i) => Some(LedTable[i].action)
      case None => None
  }

  /** The colour word of a command. */
  function ColourName(l: Led): string
  {
    match l
    case Red => "red"
    case Green => "green"
    case Yellow => "yellow"
  }

  /* --------------------------------------------------------------- Wi-Fi scan */

  const EmptyScanText: string := "[]"
  const ScanDoneText: string := "Wi-Fi scan done"

  /** What `wfm_scan_sync` returns, and the context it leaves. */
  datatype ScanResult = ScanResult(wfm: Option<WifiModel.Wfm>, err: Err)

  /** `wfm_scan_sync(wfm)`; a NULL context is refused. */
  function ScanOn(w: Option<WifiModel.Wfm>): ScanResult
  {
    if w.None? then ScanResult(None, InvalidArg)
    else
      var s := WifiModel.ScanSync(w.value);
      ScanResult(Some(s.w), s.err)
  }

  /**
   * `scan_wifi_networks`: a failed scan or a failed array allocation
   * publishes "[]"; otherwise the JSON text, when it could be printed, is
   * published and the LCD reports the scan. `arrayOk` and `json` stand for
   * the JSON library: whether the array was created, and the text it printed.
   */
  function ScanNetworks(w: World, arrayOk: bool, json: Option<string>, lcd: LcdContext, allocOk: bool): World
  {
    var s := ScanOn(w.wfm);
    ScanReported(w.(wfm := s.wfm), s.err, arrayOk, json, lcd, allocOk)
  }

  /** The report of `scan_wifi_networks` once the scan returned `err`. */
  function ScanReported(w: World, err: Err, arrayOk: bool, json: Option<string>, lcd: LcdContext, allocOk: bool): World
  {
    if err != Ok || !arrayOk then Publish(w, Topics.OutScanWifiResult, EmptyScanText)
    else
      var w1 := if json.Some? then Publish(w, Topics.OutScanWifiResult, json.value) else w;
      Show(w1, ScanDoneText, true, lcd, allocOk)
  }

  /* --------------------------------------------------------- network switch */

  /** The two halves of a "SSID|PASSWORD" payload. */
  datatype Payload = Payload(ssid: CString, pass: CString)

  /** `strchr(s, '|')`: the index of the first `|`. */
  function FirstBar(s: string): (r: Option<nat>)
    ensures r.Some? ==> r.value < |s| && s[r.value] == '|' && forall j :: 0 <= j < r.value ==> s[j] != '|'
    ensures r.None? <==> '|' !in s
  {
    if s == [] then None
    else if s[0] == '|' then Some(0)
    else match FirstBar(s[1..])
      case Some(k) => Some(k + 1)
      case None => None
  }

  /** The copy of `s` with its terminator and a NUL written at `k` holds `s[..k]` and, after `k`, `s[k + 1..]`. */
  lemma SplitBuffer(s: CString, k: nat, b: seq<char>)
    requires k < |s| && b == (s + ['\0'])[k := '\0']
    ensures CStr(b) == s[..k] && CStr(b[k + 1..]) == s[k + 1..]
  {
    assert b[..k] == s[..k] && b[k + 1..] == s[k + 1..] + ['\0'];
    assert forall c :: c in s[..k] ==> c in s;
    assert forall c :: c in s[k + 1..] ==> c in s;
    CStrOfTerminated(b, k);
    assert b[k + 1..][..|s| - k - 1] == s[k + 1..];
    CStrOfTerminated(b[k + 1..], |s| - k - 1);
  }

  /** The payload split at its first `|`; no payload, no `|` or an empty SSID is invalid. */
  function SplitPayload(payload: Option<CString>): (r: Option<Payload>)
  {
    if payload.None? then None
    else
      var s := payload.value;
      match FirstBar(s)
      case None => None
      case Some(k) =>
        assert forall c :: c in s[..k] ==> c in s;
        assert forall c :: c in s[k + 1..] ==> c in s;
        if k == 0 then None else Some(Payload(s[..k], s[k + 1..]))
  }

  /** What `wfm_change_network` returns, and the context it leaves. */
  datatype SwitchResult = SwitchResult(wfm: Option<WifiModel.Wfm>, err: Err, reason: Option<WifiModel.DiscReason>)

  /** `wfm_change_network(wfm, ssid, pass, &reason)`; a NULL context is refused. */
  function SwitchOn(w: Option<WifiModel.Wfm>, p: Payload): SwitchResult
    requires w.Some? ==> WifiModel.Inv(w.value)
  {
    if w.None? then SwitchResult(None, InvalidArg, None)
    else
      var r := WifiModel.ChangeNetwork(w.value, Some(p.ssid), Some(p.pass));
      SwitchResult(Some(r.w), r.err, r.reason)
  }

  /** The reason variable: `WFM_DISC_NONE` unless the switch wrote one. */
  function ReasonOf(r: Option<WifiModel.DiscReason>): WifiModel.DiscReason
  {
    if r.Some? then r.value else WifiModel.DiscNone
  }

  /** One wait of one second: the MQTT client handles the next event of its environment, if one comes. */
  function Tick(m: Option<MqttModel.Mqm>): Option<MqttModel.Mqm>
  {
    if m.Some? && |m.value.broker.waits| > 0 then Some(MqttModel.Arrive(m.value)) else m
  }

  /** The polling loop: wait a second at a time while fewer than 60 seconds have passed and MQTT is down. */
  function Poll(m: Option<MqttModel.Mqm>, waited: nat): Option<MqttModel.Mqm>
    decreases MqttPolls - waited
  {
    if waited >= MqttPolls || Up(m) then m else Poll(Tick(m), waited + 1)
  }

  /** The credential operation a switch ends with. */
  datatype StoreOp = KeepStore | SaveCred | ForgetCred

  /** What the task does once the switch is over: at most one publish, one store operation, one LCD text and one LED call. */
  datatype Reaction = Reaction(message: Option<string>, store: StoreOp, shown: Option<string>, light: Option<LedAction>)

  /** The message for a failed switch. */
  function FailureText(r: WifiModel.DiscReason): string
  {
    match r
    case DiscWrongPassword => WrongPasswordText
    case DiscNoAp => NoApText
    case _ => OtherReasonText
  }

  /**
   * The outcome rules of `change_wifi_network_task`. `switched`: the switch
   * returned OK; `wifiUp`: Wi-Fi is connected afterwards; `mqttUp`: MQTT is
   * connected after the polls.
   */
  function Decide(switched: bool, wifiUp: bool, mqttUp: bool, reason: WifiModel.DiscReason): Reaction
  {
    if switched && wifiUp then
      if mqttUp then Reaction(Some(NewWifiConnectedText), SaveCred, Some(SwitchedOkText), Some(On(Green, true)))
      else Reaction(None, KeepStore, None, None)
    else if wifiUp then
      Reaction(Some(FailureText(reason)), if reason == WifiModel.DiscWrongPassword then ForgetCred else KeepStore,
               None, if mqttUp then Some(On(Yellow, true)) else None)
    else Reaction(None, KeepStore, Some(ReconnectFailedText), Some(On(Red, true)))
  }

  /** The world after a reaction: each part moved by its own step. */
  function Reacted(w: World, r: Reaction, p: Payload, lcd: LcdContext, allocOk: bool, readFault: bool): World
    requires w.blob.Some? ==> ValidList(w.blob.value)
  {
    w.(mqm := if r.message.Some? then PubMqm(w.mqm, Topics.OutNewWifiConnectStatus, r.message.value) else w.mqm,
       blob := match r.store
               case KeepStore => w.blob
               case SaveCred => SavedBlob(w.blob, p.ssid, p.pass, readFault)
               case ForgetCred => ForgottenBlob(w.blob, p.ssid, readFault),
       queue := w.queue + (if w.ledsReady && r.light.Some? then Commands(r.light.value) else []),
       levels := w.levels + (if allocOk && r.shown.Some? then ShowLinesPins(0, r.shown.value, true, lcd) else []))
  }

  /** The stored list after the new credentials are saved. */
  function Saved(w: World, p: Payload, readFault: bool): World
    requires w.blob.Some? ==> ValidList(w.blob.value)
  {
    w.(blob := SavedBlob(w.blob, p.ssid, p.pass, readFault))
  }

  /** The stored list after the new SSID is removed. */
  function Forgot(w: World, p: Payload, readFault: bool): World
    requires w.blob.Some? ==> ValidList(w.blob.value)
  {
    w.(blob := ForgottenBlob(w.blob, p.ssid, readFault))
  }

  /** The first half of a switch: announced on the LCD and by the blinking green LED. */
  function Announced(w: World, lcd: LcdContext, allocOk: bool): World
  {
    Light(Show(w, SwitchingText, true, lcd, allocOk), Blink(Green, 0.3, true))
  }

  /** The announcement is two words: "Switching" and "Wi-Fi…" in its eight bytes. */
  lemma SwitchingWords()
    ensures Tokens(SwitchingText) == ["Switching", "Wi-Fi\U{E2}\U{80}\U{A6}"]
  {
    var a, b := "Switching", "Wi-Fi\U{E2}\U{80}\U{A6}";
    assert SwitchingText == a + " " + b;
    TokensHead(a, b);
    TokensWord(b);
  }

  /**
   * The second word of the announcement does not fit after the first on a
   * sixteen-column row, so it is shown on row 1.
   */
  lemma SwitchingWraps()
    ensures LayoutCorrected(Tokens(SwitchingText), 0) ==
              [Text("Switching"), Text(" "), MoveTo(1), Text("Wi-Fi\U{E2}\U{80}\U{A6}"), Text(" ")]
  {
    SwitchingWords();
    var a, b := "Switching", "Wi-Fi\U{E2}\U{80}\U{A6}";
    var ws := [a, b];
    assert |b| == 8;
    assert ws[..1] == [a] && [a][..0] == [];
    assert Layout([a], 0, Rows - 1) == [Text(a), Text(" ")];
    assert PlaceAfter([a], 0, Rows - 1) == Place(0, 10);
    assert Layout(ws, 0, Rows - 1) == Layout([a], 0, Rows - 1) + WordShown(Place(0, 10), b, Rows - 1);
  }

  /** The rest of a switch on a valid payload: the switch, the polls when Wi-Fi is up, and the outcome rules. */
  function Switched(w: World, p: Payload, lcd: LcdContext, allocOk: bool, readFault: bool): World
    requires WorldOk(w)
  {
    var s := SwitchOn(w.wfm, p);
    var wifiUp := s.wfm.Some? && s.wfm.value.connected;
    var w2 := w.(wfm := s.wfm, mqm := if wifiUp then Poll(w.mqm, 0) else w.mqm);
    Reacted(w2, Decide(s.err == Ok, wifiUp, Up(w2.mqm), ReasonOf(s.reason)), p, lcd, allocOk, readFault)
  }

  /**
   * `change_wifi_network_task`: an invalid payload is reported and changes
   * nothing else; otherwise the switch is announced on the LCD and by the
   * green LED, the switch runs, MQTT is polled when Wi-Fi is up, and the
   * outcome rules decide the rest.
   */
  function ChangeTask(w: World, payload: Option<CString>, lcd: LcdContext, allocOk: bool, readFault: bool): World
    requires WorldOk(w)
  {
    match SplitPayload(payload)
    case None => Publish(w, Topics.OutNewWifiConnectStatus, InvalidPayloadText)
    case Some(p) => Switched(Announced(w, lcd, allocOk), p, lcd, allocOk, readFault)
  }

  /* ------------------------------------------------------ connection report */

  /** A prefix and a field `strlcpy`'d behind it in a 64-byte buffer. */
  function PrefixedLine(prefix: string, field: string): string
    requires |prefix| < LineBufSize
  {
    prefix + Bounded(CStr(field), LineBufSize - 1 - |prefix|)
  }

  /** The six lines of `device_connection_test`, in publishing order. */
  function InfoLines(info: WifiModel.ConnInfo): seq<string>
  {
    ["Device Name: " + DevName, "Firmware: " + ProgVersion,
     PrefixedLine("WiFi SSID: ", info.ssid), PrefixedLine("IP Address: ", info.ip),
     PrefixedLine("MAC Address: ", info.mac), PrefixedLine("RSSI: ", info.rssi)]
  }

  /** `snprintf(out, 128, "ssid:%s pass:%s", ...)`. */
  function CredLine(c: Cred): string
  {
    Bounded("ssid:" + c.ssid + " pass:" + c.pass, CredLineBufSize - 1)
  }

  /** One line per used slot of a list, in stored order. */
  function CredLines(l: CredList): (r: seq<string>)
    requires l.count <= |l.creds|
    ensures |r| == l.count
  {
    seq(l.count, i requires 0 <= i < l.count => CredLine(l.creds[i]))
  }

  /** `device_connection_test`: the six status lines, then one line per stored credential. */
  function DeviceTest(w: World, readFault: bool): World
    requires w.wfm.Some? && WorldOk(w)
  {
    var w1 := PublishAll(w, Topics.OutDeviceConnection, InfoLines(w.wfm.value.info));
    PublishAll(w1, Topics.OutWifiCredList, CredLines(LoadedList(w.blob, readFault)))
  }

  /* ------------------------------------------------------------------- OTA */

  /** One in-progress step of the download: the image size and the bytes read so far. */
  datatype Progress = Progress(total: int, read: int)

  /** The download as its environment plays it: whether it begins, the in-progress steps, whether it finishes. */
  datatype OtaEnv = OtaEnv(beginOk: bool, steps: seq<Progress>, finishOk: bool)

  /** The world after the OTA attempt, and whether the device restarts. */
  datatype OtaRun = OtaRun(w: World, restart: bool)

  /** `(read * 100) / total`, truncating. */
  function Pct(p: Progress): int
    requires p.total > 0
  {
    CDiv(p.read * 100, p.total)
  }

  /** The 5% bucket of a percentage, truncating: `-1 / 5 == 0`. */
  function Bucket(pct: int): int
  {
    CDiv(pct, 5)
  }

  /** Whether a step is reported after `last`: a known size and a later bucket. */
  predicate Reports(p: Progress, last: int)
  {
    p.total > 0 && Bucket(Pct(p)) > Bucket(last)
  }

  /** The percentages reported over the steps, starting from `last`. */
  function Reported(steps: seq<Progress>, last: int): seq<int>
    decreases |steps|
  {
    if steps == [] then []
    else if Reports(steps[0], last) then [Pct(steps[0])] + Reported(steps[1..], Pct(steps[0]))
    else Reported(steps[1..], last)
  }

  function Digit(d: nat): char
    requires d < 10
  {
    "0123456789"[d]
  }

  /** `%d` of a natural number. */
  function Digits(n: nat): string
    decreases n
  {
    if n < 10 then [Digit(n)] else Digits(n / 10) + [Digit(n % 10)]
  }

  /** `"Progress: %d%%"`, which always fits its 48-byte buffer. */
  function ProgressText(pct: int): string
  {
    "Progress: " + (if pct < 0 then "-" + Digits(-pct) else Digits(pct)) + "%"
  }

  /** One report: published, then shown without clearing. */
  function Report(w: World, pct: int, lcd: LcdContext, allocOk: bool): World
  {
    Show(Publish(w, Topics.OutOtaUpdate, ProgressText(pct)), ProgressText(pct), false, lcd, allocOk)
  }

  /** Several reports, in order. */
  function ReportAll(w: World, pcts: seq<int>, lcd: LcdContext, allocOk: bool): World
    decreases |pcts|
  {
    if pcts == [] then w else ReportAll(Report(w, pcts[0], lcd, allocOk), pcts[1..], lcd, allocOk)
  }

  /** The download loop with `last_bucket` as it goes. */
  function ProgressLoop(w: World, steps: seq<Progress>, last: int, lcd: LcdContext, allocOk: bool): World
    decreases |steps|
  {
    if steps == [] then w
    else if Reports(steps[0], last) then ProgressLoop(Report(w, Pct(steps[0]), lcd, allocOk), steps[1..], Pct(steps[0]), lcd, allocOk)
    else ProgressLoop(w, steps[1..], last, lcd, allocOk)
  }

  /** One round of the success flashing: all three on, then all three off. */
  const FlashRound: seq<LedAction> := [On(Green, false), On(Red, false), On(Yellow, false), Off(Green), Off(Red), Off(Yellow)]
  const FlashRounds: nat := 5

  function Flashes(n: nat): seq<LedAction>
  {
    if n == 0 then [] else Flashes(n - 1) + FlashRound
  }

  /** `perform_ota`. */
  function PerformOta(w: World, url: Option<CString>, env: OtaEnv, lcd: LcdContext, allocOk: bool): OtaRun
  {
    if url.None? || url.value == "" then OtaRun(Publish(w, Topics.OutOtaUpdate, InvalidUrlText), false)
    else if !env.beginOk then OtaRun(Publish(w, Topics.OutOtaUpdate, BeginFailedText), false)
    else
      var w1 := Show(Publish(w, Topics.OutOtaUpdate, DownloadStartedText), "", true, lcd, allocOk);
      var w2 := ProgressLoop(w1, env.steps, -1, lcd, allocOk);
      if env.finishOk then
        OtaRun(LightAll(Show(Publish(w2, Topics.OutOtaUpdate, OtaOkText), InstalledText, true, lcd, allocOk), Flashes(FlashRounds)), true)
      else
        OtaRun(Light(Show(Publish(w2, Topics.OutOtaUpdate, OtaFailedText), InstalledText, true, lcd, allocOk), On(Red, true)), false)
  }

  /** `OTA_update`: the LCD announces the update, then `perform_ota`. */
  function OtaUpdate(w: World, url: Option<CString>, env: OtaEnv, lcd: LcdContext, allocOk: bool): OtaRun
  {
    PerformOta(Show(w, StartingOtaText, true, lcd, allocOk), url, env, lcd, allocOk)
  }

  /* ---------------------------------------------------------------- lemmas */

  /** The table's commands tell each other apart by length and first letter. */
  lemma TableShapes()
    ensures |LedTable| == 6
    ensures |LedTable[0].command| == 10 && |LedTable[1].command| == 11 && |LedTable[2].command| == 13
    ensures |LedTable[3].command| == 14 && |LedTable[4].command| == 12 && |LedTable[5].command| == 13
    ensures LedTable[2].command[0] == 'y' && LedTable[5].command[0] == 'g'
  {
  }

  /** Every entry is the first with its command. */
  lemma TableFirst(i: nat)
    requires i < |LedTable|
    ensures FindLed(LedTable[i].command, 0) == Some(i)
  {
    TableShapes();
  }

  /** "<colour> led on" lights that LED, leaving the others alone. */
  lemma LedOnCommand(l: Led)
    ensures LedCommandFor(Some(ColourName(l) + " led on")) == Some(On(l, false))
  {
    var cmd := ColourName(l) + " led on";
    match l
    case Red =>
      assert cmd == LedTable[0].command;
      TableFirst(0);
    case Yellow =>
      assert cmd == LedTable[2].command;
      TableFirst(2);
    case Green =>
      assert cmd == LedTable[4].command;
      TableFirst(4);
  }

  /** "<colour> led off" switches that LED off. */
  lemma LedOffCommand(l: Led)
    ensures LedCommandFor(Some(ColourName(l) + " led off")) == Some(Off(l))
  {
    var cmd := ColourName(l) + " led off";
    match l
    case Red =>
      assert cmd == LedTable[1].command;
      TableFirst(1);
    case Yellow =>
      assert cmd == LedTable[3].command;
      TableFirst(3);
    case Green =>
      assert cmd == LedTable[5].command;
      TableFirst(5);
  }

  /** A command runs an LED call exactly when it is one of the six, and NULL runs none. */
  lemma UnknownLedCommand(cmd: CString)
    ensures LedCommandFor(None).None?
    ensures LedCommandFor(Some(cmd)).None? <==>
              forall l: Led {:trigger ColourName(l)} :: cmd != ColourName(l) + " led on" && cmd != ColourName(l) + " led off"
  {
    if LedCommandFor(Some(cmd)).Some? {
      var i := FindLed(cmd, 0).value;
      var l := LedTable[i].action.led;
      assert cmd == ColourName(l) + " led on" || cmd == ColourName(l) + " led off";
    } else {
      forall l: Led
        ensures cmd != ColourName(l) + " led on" && cmd != ColourName(l) + " led off"
      {
        LedOnCommand(l);
        LedOffCommand(l);
      }
    }
  }

  /** A toggle command sets only its own LED, steadily on or off. */
  lemma ToggleTouchesOneLed(cmd: CString, l: Led)
    requires LedCommandFor(Some(cmd)).Some?
    ensures var a := LedCommandFor(Some(cmd)).value;
            Latest(Commands(a), l) == if l != a.led then None else Some(LedCommand(l, a.On?, 0.0, 0))
  {
    var a := LedCommandFor(Some(cmd)).value;
    var i := FindLed(cmd, 0).value;
    assert a == LedTable[i].action;
    if a.Off? {
      OffMeaning(a.led, l);
    } else {
      ActionMeaning(a, l);
    }
  }

  /** A payload with a non-empty SSID free of `|` splits back into its halves; the password may hold `|`. */
  lemma SplitRoundTrip(ssid: CString, pass: CString)
    requires ssid != "" && '|' !in ssid
    ensures '\0' !in ssid + "|" + pass
    ensures SplitPayload(Some(ssid + "|" + pass)) == Some(Payload(ssid, pass))
  {
    var s := ssid + "|" + pass;
    assert forall j :: 0 <= j < |ssid| ==> s[j] == ssid[j];
    assert s[|ssid|] == '|';
    var k := FirstBar(s).value;
    assert k == |ssid|;
    assert s[..k] == ssid && s[k + 1..] == pass;
  }

  /** A payload is refused exactly when it is NULL, has no `|`, or starts with one. */
  lemma SplitRejects(payload: Option<CString>)
    ensures SplitPayload(payload).None? <==>
              payload.None? || '|' !in payload.value || payload.value[0] == '|'
  {
  }

  /** A polled context that was down ends up exactly when a connect event comes within the polls left. */
  lemma {:induction false} PollMeaning(m: MqttModel.Mqm, waited: nat)
    requires !m.connected && waited <= MqttPolls
    ensures Up(Poll(Some(m), waited)) <==> MqttModel.Connects in m.broker.waits[..Min(MqttPolls - waited, |m.broker.waits|)]
    decreases MqttPolls - waited
  {
    var waits := m.broker.waits;
    var n := Min(MqttPolls - waited, |waits|);
    if n == 0 {
      assert waits[..n] == [];
      if waited < MqttPolls {
        assert Tick(Some(m)) == Some(m);
        PollIdle(m, waited);
      }
    } else {
      var m1 := m.(broker := m.broker.(waits := waits[1..]));
      assert waits[..n] == [waits[0]] + waits[1..][..n - 1];
      match waits[0] {
        case Connects =>
          MqttModel.ConnectedFlags(m1);
          assert Up(Tick(Some(m)));
          PollStaysUp(Tick(Some(m)), waited + 1);
        case Drops =>
          MqttModel.DisconnectedOutcome(m1);
          var d := MqttModel.OnDisconnected(m1);
          assert Tick(Some(m)) == Some(d) && !d.connected && d.broker.waits == waits[1..];
          PollMeaning(d, waited + 1);
        case Silent =>
          assert Tick(Some(m)) == Some(m1);
          PollMeaning(m1, waited + 1);
      }
    }
  }

  /** Once up, polling stops. */
  lemma PollStaysUp(m: Option<MqttModel.Mqm>, waited: nat)
    requires Up(m)
    ensures Poll(m, waited) == m
  {
  }

  /** With nothing left to happen, a context that is down stays down through the polls. */
  lemma {:induction false} PollIdle(m: MqttModel.Mqm, waited: nat)
    requires !m.connected && |m.broker.waits| == 0
    ensures Poll(Some(m), waited) == Some(m)
    decreases MqttPolls - waited
  {
    if waited < MqttPolls {
      PollIdle(m, waited + 1);
    }
  }

  /**
   * The credential rules of a switch: the new credentials are saved exactly
   * when the switch succeeded with Wi-Fi and MQTT both up afterwards; they are
   * removed exactly when the switch failed, Wi-Fi came back, and the reason
   * was a wrong password.
   */
  lemma StoreRules(switched: bool, wifiUp: bool, mqttUp: bool, reason: WifiModel.DiscReason)
    ensures Decide(switched, wifiUp, mqttUp, reason).store == SaveCred <==> switched && wifiUp && mqttUp
    ensures Decide(switched, wifiUp, mqttUp, reason).store == ForgetCred <==>
              !switched && wifiUp && reason == WifiModel.DiscWrongPassword
  {
  }

  /**
   * The reports of a switch: success publishes "new wifi connected" only
   * with MQTT back; a failure with Wi-Fi back publishes the reason's
   * message; a failure without Wi-Fi publishes nothing and only shows the
   * failure and lights the red LED.
   */
  lemma ReportRules(switched: bool, wifiUp: bool, mqttUp: bool, reason: WifiModel.DiscReason)
    ensures var r := Decide(switched, wifiUp, mqttUp, reason);
            (switched && wifiUp ==> (r.message.Some? <==> mqttUp) && (mqttUp ==> r.message == Some(NewWifiConnectedText))) &&
            (!switched && wifiUp ==> r.message == Some(FailureText(reason)) && r.shown.None?) &&
            (!wifiUp ==> r == Reaction(None, KeepStore, Some(ReconnectFailedText), Some(On(Red, true))))
  {
  }

  /** An invalid payload only publishes "invalid payload": no switch, no store change, no LED or LCD output. */
  lemma InvalidPayloadChangesNothing(w: World, payload: Option<CString>, lcd: LcdContext, allocOk: bool, readFault: bool)
    requires WorldOk(w) && SplitPayload(payload).None?
    ensures var w' := ChangeTask(w, payload, lcd, allocOk, readFault);
            w' == w.(mqm := w'.mqm) && w'.mqm == PubMqm(w.mqm, Topics.OutNewWifiConnectStatus, InvalidPayloadText)
  {
  }

  /** A successful switch with MQTT back: publish, save, show, light. */
  lemma ReactedSwitched(w: World, p: Payload, lcd: LcdContext, allocOk: bool, readFault: bool, reason: WifiModel.DiscReason)
    requires w.blob.Some? ==> ValidList(w.blob.value)
    ensures Reacted(w, Decide(true, true, true, reason), p, lcd, allocOk, readFault) ==
            Light(Show(Saved(Publish(w, Topics.OutNewWifiConnectStatus, NewWifiConnectedText), p, readFault),
                       SwitchedOkText, true, lcd, allocOk), On(Green, true))
  {
  }

  /** A failed switch with Wi-Fi back: the yellow LED if MQTT is back, the reason published, and a wrong password forgotten. */
  lemma ReactedReverted(w: World, p: Payload, lcd: LcdContext, allocOk: bool, readFault: bool, mqttUp: bool, reason: WifiModel.DiscReason)
    requires w.blob.Some? ==> ValidList(w.blob.value)
    ensures var w1 := if mqttUp then Light(w, On(Yellow, true)) else w;
            var w2 := Publish(w1, Topics.OutNewWifiConnectStatus, FailureText(reason));
            Reacted(w, Decide(false, true, mqttUp, reason), p, lcd, allocOk, readFault) ==
            if reason == WifiModel.DiscWrongPassword then Forgot(w2, p, readFault) else w2
  {
  }

  /** Wi-Fi not back: the failure shown and the red LED lit. */
  lemma ReactedFailed(w: World, p: Payload, lcd: LcdContext, allocOk: bool, readFault: bool, switched: bool, mqttUp: bool,
                      reason: WifiModel.DiscReason)
    requires w.blob.Some? ==> ValidList(w.blob.value)
    ensures Reacted(w, Decide(switched, false, mqttUp, reason), p, lcd, allocOk, readFault) ==
            Light(Show(w, ReconnectFailedText, true, lcd, allocOk), On(Red, true))
  {
  }

  /** Two runs of publishes on the same topic, one after the other. */
  lemma {:induction false} PublishAllAppend(w: World, topic: string, a: seq<string>, b: seq<string>)
    ensures PublishAll(PublishAll(w, topic, a), topic, b) == PublishAll(w, topic, a + b)
    decreases |b|
  {
    if b == [] {
      assert a + b == a;
    } else {
      var b' := b[..|b| - 1];
      PublishAllAppend(w, topic, a, b');
      assert (a + b)[..|a + b| - 1] == a + b';
    }
  }

  /** Publishing one more message on the same topic. */
  lemma PublishSnoc(w: World, topic: string, msgs: seq<string>, m: string)
    ensures PublishAll(w, topic, msgs + [m]) == Publish(PublishAll(w, topic, msgs), topic, m)
  {
    assert (msgs + [m])[..|msgs|] == msgs;
  }

  /** Two runs of LED calls, one after the other. */
  lemma LightAllAppend(w: World, a: seq<LedAction>, b: seq<LedAction>)
    ensures LightAll(LightAll(w, a), b) == LightAll(w, a + b)
  {
    AllCommandsAppend(a, b);
    AppendAssoc(w.queue, if w.ledsReady then AllCommands(a) else [], if w.ledsReady then AllCommands(b) else []);
  }

  /** Three LED calls, one after the other. */
  lemma LightThree(w: World, a: LedAction, b: LedAction, c: LedAction)
    ensures Light(Light(Light(w, a), b), c) == LightAll(w, [a, b, c])
  {
    assert [a, b, c][1..] == [b, c] && [b, c][1..] == [c] && [c][1..] == [];
    assert AllCommands([c]) == Commands(c) + AllCommands([]);
    assert AllCommands([b, c]) == Commands(b) + AllCommands([c]);
    assert AllCommands([a, b, c]) == Commands(a) + AllCommands([b, c]);
    if w.ledsReady {
      AppendAssoc(w.queue, Commands(a), Commands(b));
      AppendAssoc(w.queue + Commands(a), Commands(b), Commands(c));
      AppendAssoc(w.queue, Commands(a), Commands(b) + Commands(c));
      AppendAssoc(Commands(a), Commands(b), Commands(c));
      assert Commands(c) + [] == Commands(c);
    }
  }

  /** One more LED call. */
  lemma LightSnoc(w: World, actions: seq<LedAction>, a: LedAction)
    ensures LightAll(w, actions + [a]) == Light(LightAll(w, actions), a)
  {
    AllCommandsAppend(actions, [a]);
    assert AllCommands([a]) == Commands(a);
    AppendAssoc(w.queue, AllCommands(actions), Commands(a));
  }

  /**
   * The scan keeps the Wi-Fi invariant; a failed scan (including a NULL
   * context) or a failed array reports "[]" and leaves the LCD and the LEDs
   * alone; a successful one always ends with "Wi-Fi scan done" on the LCD.
   */
  lemma ScanRules(w: World, arrayOk: bool, json: Option<string>, lcd: LcdContext, allocOk: bool)
    requires WorldOk(w)
    ensures WorldOk(ScanNetworks(w, arrayOk, json, lcd, allocOk))
    ensures var s := ScanOn(w.wfm);
            var w' := ScanNetworks(w, arrayOk, json, lcd, allocOk);
            (w.wfm.None? ==> s.err == InvalidArg) &&
            (s.err != Ok || !arrayOk ==>
               w' == w.(wfm := s.wfm, mqm := PubMqm(w.mqm, Topics.OutScanWifiResult, EmptyScanText))) &&
            (s.err == Ok && arrayOk ==>
               w'.levels == w.levels + (if allocOk then ShowLinesPins(0, ScanDoneText, true, lcd) else []) &&
               w'.mqm == (if json.Some? then PubMqm(w.mqm, Topics.OutScanWifiResult, json.value) else w.mqm))
  {
    if w.wfm.Some? {
      WifiModel.ScanSyncKeepsInv(w.wfm.value);
    }
  }

  /** The publishes of `msgs` on `topic` with QoS 1 and no retain, in order. */
  function PublishOps(topic: string, msgs: seq<string>): (ops: seq<MqttModel.ClientOp>)
    ensures |ops| == |msgs| && forall i :: 0 <= i < |msgs| ==> ops[i] == MqttModel.OpPublish(topic, msgs[i], 1, 0)
    decreases |msgs|
  {
    if msgs == [] then [] else PublishOps(topic, msgs[..|msgs| - 1]) + [MqttModel.OpPublish(topic, msgs[|msgs| - 1], 1, 0)]
  }

  /** Publishing in order on a connected client logs one publish per message, and nothing else. */
  lemma {:induction false} PublishAllLogs(w: World, topic: string, msgs: seq<string>)
    requires w.mqm.Some? && w.mqm.value.client && w.mqm.value.connected
    ensures PublishAll(w, topic, msgs).mqm.Some? && PublishAll(w, topic, msgs).mqm.value.client
    ensures PublishAll(w, topic, msgs).mqm.value.connected
    ensures PublishAll(w, topic, msgs).mqm.value.broker.log == w.mqm.value.broker.log + PublishOps(topic, msgs)
    decreases |msgs|
  {
    if msgs != [] {
      var front := msgs[..|msgs| - 1];
      PublishAllLogs(w, topic, front);
      var m0 := PublishAll(w, topic, front).mqm.value;
      MqttModel.PublishOutcome(m0, Some(topic), Some(msgs[|msgs| - 1]), 1, 0);
    }
  }

  /** Publishing leaves everything but the MQTT context alone. */
  lemma {:induction false} PublishAllFrame(w: World, topic: string, msgs: seq<string>)
    ensures PublishAll(w, topic, msgs) == w.(mqm := PublishAll(w, topic, msgs).mqm)
    decreases |msgs|
  {
    if msgs != [] {
      PublishAllFrame(w, topic, msgs[..|msgs| - 1]);
    }
  }

  /** A stored credential fits its line, so the line is never cut. */
  lemma CredLineWhole(c: Cred)
    ensures CredLine(c) == "ssid:" + c.ssid + " pass:" + c.pass
  {
  }

  /**
   * The connection report on a connected client publishes the six status
   * lines and then exactly one whole "ssid:... pass:..." line per stored
   * credential, in stored order.
   */
  lemma DeviceTestPublishes(w: World, readFault: bool)
    requires w.wfm.Some? && WorldOk(w) && w.mqm.Some? && w.mqm.value.client && w.mqm.value.connected
    ensures DeviceTest(w, readFault).mqm.Some?
    ensures DeviceTest(w, readFault).mqm.value.broker.log ==
              w.mqm.value.broker.log + PublishOps(Topics.OutDeviceConnection, InfoLines(w.wfm.value.info))
                                     + PublishOps(Topics.OutWifiCredList, CredLines(LoadedList(w.blob, readFault)))
  {
    var w1 := PublishAll(w, Topics.OutDeviceConnection, InfoLines(w.wfm.value.info));
    PublishAllLogs(w, Topics.OutDeviceConnection, InfoLines(w.wfm.value.info));
    PublishAllLogs(w1, Topics.OutWifiCredList, CredLines(LoadedList(w.blob, readFault)));
  }

  /** One line per stored credential, `ssid:<ssid> pass:<password>`, in stored order. */
  lemma CredLinesFormat(l: CredList)
    requires l.count <= |l.creds|
    ensures |CredLines(l)| == l.count
    ensures forall i :: 0 <= i < l.count ==> CredLines(l)[i] == "ssid:" + l.creds[i].ssid + " pass:" + l.creds[i].pass
  {
    forall i | 0 <= i < l.count
      ensures CredLines(l)[i] == "ssid:" + l.creds[i].ssid + " pass:" + l.creds[i].pass
    {
      CredLineWhole(l.creds[i]);
    }
  }

  /** The status lines fit their 64-byte buffers. */
  lemma InfoLinesFit(info: WifiModel.ConnInfo)
    ensures |InfoLines(info)| == 6
    ensures forall i :: 0 <= i < 6 ==> |InfoLines(info)[i]| < LineBufSize
  {
  }

  /** Every report lies in a bucket above the bucket of `last`. */
  lemma {:induction false} ReportedAbove(steps: seq<Progress>, last: int)
    ensures forall i :: 0 <= i < |Reported(steps, last)| ==> Bucket(Reported(steps, last)[i]) > Bucket(last)
    decreases |steps|
  {
    if steps != [] {
      if Reports(steps[0], last) {
        var p := Pct(steps[0]);
        ReportedAbove(steps[1..], p);
        var t := Reported(steps[1..], p);
        var r := Reported(steps, last);
        assert r == [p] + t;
        forall i | 0 <= i < |r|
          ensures Bucket(r[i]) > Bucket(last)
        {
          if i > 0 {
            assert r[i] == t[i - 1];
          }
        }
      } else {
        ReportedAbove(steps[1..], last);
      }
    }
  }

  /** The buckets of the reports rise strictly, so no bucket is reported twice. */
  lemma {:induction false} ReportedRising(steps: seq<Progress>, last: int)
    ensures forall i, j :: 0 <= i < j < |Reported(steps, last)| ==>
              Bucket(Reported(steps, last)[i]) < Bucket(Reported(steps, last)[j])
    decreases |steps|
  {
    if steps != [] {
      if Reports(steps[0], last) {
        var p := Pct(steps[0]);
        ReportedRising(steps[1..], p);
        ReportedAbove(steps[1..], p);
        var t := Reported(steps[1..], p);
        var r := Reported(steps, last);
        assert r == [p] + t;
        forall i, j | 0 <= i < j < |r|
          ensures Bucket(r[i]) < Bucket(r[j])
        {
          assert r[j] == t[j - 1];
          if i > 0 {
            assert r[i] == t[i - 1];
          }
        }
      } else {
        ReportedRising(steps[1..], last);
      }
    }
  }

  /**
   * From the initial `last_bucket` of -1 the reports rise strictly by bucket
   * and the first is at 5% or more.
   */
  lemma ReportedBuckets(steps: seq<Progress>)
    ensures forall i, j :: 0 <= i < j < |Reported(steps, -1)| ==>
              Bucket(Reported(steps, -1)[i]) < Bucket(Reported(steps, -1)[j])
    ensures forall i :: 0 <= i < |Reported(steps, -1)| ==> Reported(steps, -1)[i] >= 5
  {
    ReportedRising(steps, -1);
    ReportedAbove(steps, -1);
    var r := Reported(steps, -1);
    forall i | 0 <= i < |r|
      ensures r[i] >= 5
    {
      assert Bucket(r[i]) > Bucket(-1);
      BucketPositive(r[i]);
    }
  }

  /** A percentage in a bucket above 0 is at least 5. */
  lemma BucketPositive(pct: int)
    requires Bucket(pct) > Bucket(-1)
    ensures pct >= 5
  {
    assert Bucket(-1) == 0;
  }

  /** Steps without a known size report nothing. */
  lemma {:induction false} UnknownSizeReportsNothing(steps: seq<Progress>, last: int)
    requires forall i :: 0 <= i < |steps| ==> steps[i].total <= 0
    ensures Reported(steps, last) == []
    decreases |steps|
  {
    if steps != [] {
      UnknownSizeReportsNothing(steps[1..], last);
    }
  }

  /** The download loop reports exactly the percentages `Reported` lists, in order. */
  lemma {:induction false} ProgressLoopReports(w: World, steps: seq<Progress>, last: int, lcd: LcdContext, allocOk: bool)
    ensures ProgressLoop(w, steps, last, lcd, allocOk) == ReportAll(w, Reported(steps, last), lcd, allocOk)
    decreases |steps|
  {
    if steps != [] {
      if Reports(steps[0], last) {
        var p := Pct(steps[0]);
        ProgressLoopReports(Report(w, p, lcd, allocOk), steps[1..], p, lcd, allocOk);
        var r := Reported(steps, last);
        assert r[0] == p && r[1..] == Reported(steps[1..], p);
      } else {
        ProgressLoopReports(w, steps[1..], last, lcd, allocOk);
      }
    }
  }

  /** The success flashing leaves every LED off. */
  lemma FlashesEndOff(n: nat, l: Led)
    requires n > 0
    ensures Latest(AllCommands(Flashes(n)), l) == Some(OffCommand(l))
  {
    AllCommandsAppend(Flashes(n - 1), FlashRound);
    LatestAppend(AllCommands(Flashes(n - 1)), AllCommands(FlashRound), l);
    RoundEndsOff(l);
  }

  /** One round ends with every LED off. */
  lemma RoundEndsOff(l: Led)
    ensures Latest(AllCommands(FlashRound), l) == Some(OffCommand(l))
  {
    var ons := [LedCommand(Green, true, 0.0, 0), LedCommand(Red, true, 0.0, 0), LedCommand(Yellow, true, 0.0, 0)];
    var offs := [OffCommand(Green), OffCommand(Red), OffCommand(Yellow)];
    assert AllCommands(FlashRound[3..]) == offs by {
      assert FlashRound[3..][1..][1..][1..] == [];
    }
    assert AllCommands(FlashRound) == ons + offs by {
      assert FlashRound[1..][1..][1..] == FlashRound[3..];
    }
    LatestAppend(ons, offs, l);
    match l
    case Yellow =>
    case Red =>
      assert offs[..2] == [OffCommand(Green), OffCommand(Red)];
    case Green =>
      assert offs[..2] == [OffCommand(Green), OffCommand(Red)] && offs[..2][..1] == [OffCommand(Green)];
  }

  /**
   * The device restarts exactly when the URL is usable, the download begins
   * and finishes; a NULL or empty URL only publishes "invalid url".
   */
  lemma OtaOutcome(w: World, url: Option<CString>, env: OtaEnv, lcd: LcdContext, allocOk: bool)
    ensures PerformOta(w, url, env, lcd, allocOk).restart <==> url.Some? && url.value != "" && env.beginOk && env.finishOk
    ensures url.None? || url.value == "" ==>
              PerformOta(w, url, env, lcd, allocOk).w == Publish(w, Topics.OutOtaUpdate, InvalidUrlText)
  {
  }

  /** A NULL text shows the empty message: the screen is cleared and the cursor put home. */
  lemma EmptyTextClears(lcd: LcdContext)
    ensures ShowLinesPins(0, "", true, lcd) == ClearPins(lcd) + CursorPins(0, 0, lcd)
  {
    assert Tokens("") == [];
    assert ShowPins([], 0, lcd) == [];
  }

  /* ----------------------------------------------------------- the module */

  /** The module state of main/web_application.c and the objects it drives. */
  class WebApp {
    var wfm: WifiManager.Manager?
    var mqm: MqttManager.Manager?
    var lcd: LcdContext
    var nvs: int
    var appInitialized: bool
    const store: NvsStore
    const leds: Leds
    const display: Lcd

    /** The joint state of the objects. */
    function Now(): World
      reads this, wfm, mqm, store, leds, display
    {
      World(if wfm == null then None else Some(wfm.Snap()), if mqm == null then None else Some(mqm.Snap()),
            store.blob, leds.initialized, leds.queue, display.levels)
    }

    ghost predicate Valid()
      reads this, wfm, store
    {
      store.Valid() && (wfm != null ==> wfm.Valid())
    }

    /** The static initial state: no managers, nothing initialised. */
    constructor (store: NvsStore, leds: Leds, display: Lcd)
      ensures wfm == null && mqm == null && lcd == LcdContext(0, 0, 0, 0, 0, 0, 0, 0) && nvs == 0 && !appInitialized
      ensures this.store == store && this.leds == leds && this.display == display
    {
      wfm, mqm := null, null;
      lcd := LcdContext(0, 0, 0, 0, 0, 0, 0, 0);
      nvs, appInitialized := 0, false;
      this.store, this.leds, this.display := store, leds, display;
    }

    /** `init_web_app`: a NULL manager or a zero storage handle is refused with nothing changed. */
    method InitWebApp(wifiManager: WifiManager.Manager?, mqttClient: MqttManager.Manager?, lcdContext: LcdContext, nvsMemory: int)
      returns (err: Err)
      modifies this
      ensures wifiManager == null || mqttClient == null || nvsMemory == 0 ==>
                err == InvalidArg && wfm == old(wfm) && mqm == old(mqm) && lcd == old(lcd) && nvs == old(nvs) &&
                appInitialized == old(appInitialized)
      ensures wifiManager != null && mqttClient != null && nvsMemory != 0 ==>
                err == Ok && wfm == wifiManager && mqm == mqttClient && lcd == lcdContext && nvs == nvsMemory && appInitialized
    {
      if wifiManager == null || mqttClient == null || nvsMemory == 0 {
        return InvalidArg;
      }
      wfm := wifiManager;
      mqm := mqttClient;
      lcd := lcdContext;
      nvs := nvsMemory;
      appInitialized := true;
      return Ok;
    }

    /* ---------------------------------------------------- one step each */

    /** `publish_q1(topic, msg)`. */
    method Pub(topic: string, msg: string)
      modifies mqm
      ensures Now() == Publish(old(Now()), topic, msg)
    {
      var _ := MqttManager.Publish(mqm, Some(topic), Some(msg), 1, 0);
    }

    /** One LED driver call. */
    method Lights(a: LedAction)
      modifies leds
      ensures Now() == Light(old(Now()), a)
    {
      leds.Apply(a);
    }

    /** `LCD_show_lines(0, text, LCD, clear)`. */
    method ShowText(text: string, clear: bool, allocOk: bool)
      modifies display
      ensures Now() == Show(old(Now()), text, clear, lcd, allocOk)
    {
      display.ShowLines(0, text, lcd, clear, allocOk);
    }

    /** `add_wifi_creds_to_NVS_memory`. */
    method SaveCreds(ssid: CString, pass: CString, readFault: bool)
      requires store.Valid()
      modifies store
      ensures store.Valid()
      ensures Now() == old(Now()).(blob := SavedBlob(old(store.blob), ssid, pass, readFault))
    {
      store.AddCreds(Some(ssid), pass, readFault);
    }

    /** `remove_wifi_creds_from_NVS_memory`. */
    method ForgetCreds(ssid: CString, readFault: bool)
      requires store.Valid()
      modifies store
      ensures store.Valid()
      ensures Now() == old(Now()).(blob := ForgottenBlob(old(store.blob), ssid, readFault))
    {
      store.RemoveCreds(Some(ssid), readFault);
    }

    /* ----------------------------------------------------------- handlers */

    /** `LCD_display_text`: a NULL text is shown as the empty string. */
    method LcdDisplayText(text: Option<string>, allocOk: bool)
      modifies display
      ensures Now() == Show(old(Now()), if text.None? then "" else text.value, true, lcd, allocOk)
    {
      var t := if text.None? then "" else text.value;
      ShowText(t, true, allocOk);
    }

    /** `scan_wifi_networks`, with the JSON library's results as parameters. */
    method ScanWifiNetworks(arrayOk: bool, json: Option<string>, allocOk: bool)
      requires Valid()
      modifies wfm, mqm, display
      ensures Valid()
      ensures Now() == ScanNetworks(old(Now()), arrayOk, json, lcd, allocOk)
    {
      var err := Scan();
      ReportScan(err, arrayOk, json, allocOk);
    }

    /** `wfm_scan_sync` on the shared context. */
    method Scan() returns (err: Err)
      requires Valid()
      modifies wfm
      ensures Valid()
      ensures var s := ScanOn(old(Now()).wfm);
              Now() == old(Now()).(wfm := s.wfm) && err == s.err
    {
      if wfm == null {
        return InvalidArg;
      }
      WifiModel.ScanSyncKeepsInv(wfm.Snap());
      err := wfm.ScanSync();
    }

    /** The publishing half of `scan_wifi_networks`. */
    method ReportScan(err: Err, arrayOk: bool, json: Option<string>, allocOk: bool)
      modifies mqm, display
      ensures Now() == ScanReported(old(Now()), err, arrayOk, json, lcd, allocOk)
    {
      if err != Ok || !arrayOk {
        Pub(Topics.OutScanWifiResult, EmptyScanText);
        return;
      }
      if json.Some? {
        Pub(Topics.OutScanWifiResult, json.value);
      }
      ShowText(ScanDoneText, true, allocOk);
    }

    /** `leds_toggle_handler`: the first table entry equal to the command runs its LED call. */
    method LedsToggleHandler(command: Option<CString>)
      modifies leds
      ensures Now() == match LedCommandFor(command) case Some(a) => Light(old(Now()), a) case None => old(Now())
    {
      if command.None? {
        return;
      }
      var i := 0;
      while i < |LedTable|
        invariant 0 <= i <= |LedTable|
        invariant forall j :: 0 <= j < i ==> LedTable[j].command != command.value
        invariant Now() == old(Now())
      {
        if LedTable[i].command == command.value {
          assert FindLed(command.value, 0) == Some(i);
          Lights(LedTable[i].action);
          return;
        }
        i := i + 1;
      }
    }

    /** `change_wifi_network_handler`: the payload copy the task is started with; none for NULL or a failed copy. */
    static method ChangeWifiNetworkHandler(payload: Option<CString>, allocOk: bool) returns (task: Option<CString>)
      ensures task.Some? <==> payload.Some? && allocOk
      ensures task.Some? ==> task == payload
    {
      if payload.None? || !allocOk {
        return None;
      }
      return payload;
    }

    /** `strchr(buf, '|')` over the first `n` characters: the index of the first `|`, or `n`. */
    static method FindBar(buf: array<char>, n: nat) returns (k: nat)
      requires n <= buf.Length
      ensures k <= n && (k < n ==> buf[k] == '|')
      ensures forall j :: 0 <= j < k ==> buf[j] != '|'
    {
      k := 0;
      while k < n && buf[k] != '|'
        invariant k <= n
        invariant forall j :: 0 <= j < k ==> buf[j] != '|'
      {
        k := k + 1;
      }
    }

    /** The `strchr` split of the payload's copy: the first `|` becomes the terminator of the SSID. */
    static method SplitInPlace(payload: Option<CString>) returns (r: Option<Payload>)
      ensures r == SplitPayload(payload)
    {
      if payload.None? {
        return None;
      }
      var s := payload.value;
      var buf := new char[|s| + 1](i => if 0 <= i < |s| then s[i] else '\0');
      assert buf[..|s|] == s;
      var k := FindBar(buf, |s|);
      if k == |s| {
        return None;
      }
      assert FirstBar(s) == Some(k);
      assert buf[..] == s + ['\0'];
      buf[k] := '\0';
      assert buf[..] == (s + ['\0'])[k := '\0'];
      SplitBuffer(s, k, buf[..]);
      var ssid: CString := CStr(buf[..]);
      var pass: CString := CStr(buf[k + 1..]);
      if ssid == "" {
        return None;
      }
      return Some(Payload(ssid, pass));
    }

    /** `wfm_change_network` on the shared context. */
    method SwitchNetwork(p: Payload) returns (err: Err, reason: Option<WifiModel.DiscReason>)
      requires Valid()
      modifies wfm
      ensures Valid()
      ensures var s := SwitchOn(old(Now()).wfm, p);
              Now() == old(Now()).(wfm := s.wfm) && err == s.err && reason == s.reason
    {
      if wfm == null {
        return InvalidArg, None;
      }
      err, reason := wfm.ChangeNetwork(Some(p.ssid), Some(p.pass));
    }

    /** The polling loop of the switch: one second at a time, at most 60, until MQTT is connected. */
    method PollMqtt()
      modifies mqm
      ensures Now() == old(Now()).(mqm := Poll(old(Now()).mqm, 0))
    {
      var waitSec: nat := 0;
      while waitSec < MqttPolls && !MqttManager.IsConnected(mqm)
        invariant waitSec <= MqttPolls
        invariant Now() == old(Now()).(mqm := Now().mqm)
        invariant Poll(Now().mqm, waitSec) == Poll(old(Now()).mqm, 0)
        decreases MqttPolls - waitSec
      {
        if mqm != null && |mqm.broker.waits| > 0 {
          mqm.Arrive();
        }
        waitSec := waitSec + 1;
      }
    }

    /** The rules for a switch that worked and found MQTT back. */
    method ReactSwitched(p: Payload, allocOk: bool, readFault: bool)
      requires store.Valid()
      modifies mqm, store, leds, display
      ensures store.Valid()
      ensures Now() == Light(Show(Saved(Publish(old(Now()), Topics.OutNewWifiConnectStatus, NewWifiConnectedText), p, readFault),
                                  SwitchedOkText, true, lcd, allocOk), On(Green, true))
    {
      Pub(Topics.OutNewWifiConnectStatus, NewWifiConnectedText);
      SaveCreds(p.ssid, p.pass, readFault);
      ShowText(SwitchedOkText, true, allocOk);
      Lights(On(Green, true));
    }

    /** The rules for a switch that failed and fell back to a connected network. */
    method ReactReverted(p: Payload, mqttUp: bool, reason: WifiModel.DiscReason, readFault: bool)
      requires store.Valid()
      modifies mqm, store, leds
      ensures store.Valid()
      ensures var w1 := if mqttUp then Light(old(Now()), On(Yellow, true)) else old(Now());
              var w2 := Publish(w1, Topics.OutNewWifiConnectStatus, FailureText(reason));
              Now() == if reason == WifiModel.DiscWrongPassword then Forgot(w2, p, readFault) else w2
    {
      if mqttUp {
        Lights(On(Yellow, true));
      }
      Pub(Topics.OutNewWifiConnectStatus, FailureText(reason));
      if reason == WifiModel.DiscWrongPassword {
        ForgetCreds(p.ssid, readFault);
      }
    }

    /** The outcome rules, carried out in the order of the source. */
    method React(p: Payload, switched: bool, wifiUp: bool, reason: WifiModel.DiscReason, allocOk: bool, readFault: bool)
      requires store.Valid()
      modifies mqm, store, leds, display
      ensures store.Valid()
      ensures Now() == Reacted(old(Now()), Decide(switched, wifiUp, Up(old(Now()).mqm), reason), p, lcd, allocOk, readFault)
    {
      var mqttUp := MqttManager.IsConnected(mqm);
      if switched && wifiUp {
        if mqttUp {
          ReactedSwitched(Now(), p, lcd, allocOk, readFault, reason);
          ReactSwitched(p, allocOk, readFault);
        }
      } else {
        ReactUnswitched(p, switched, wifiUp, mqttUp, reason, allocOk, readFault);
      }
    }

    /** The outcome rules when the switch did not leave the new network connected. */
    method ReactUnswitched(p: Payload, switched: bool, wifiUp: bool, mqttUp: bool, reason: WifiModel.DiscReason,
                           allocOk: bool, readFault: bool)
      requires store.Valid() && !(switched && wifiUp)
      modifies mqm, store, leds, display
      ensures store.Valid()
      ensures Now() == Reacted(old(Now()), Decide(switched, wifiUp, mqttUp, reason), p, lcd, allocOk, readFault)
    {
      if wifiUp {
        ReactedReverted(Now(), p, lcd, allocOk, readFault, mqttUp, reason);
        ReactReverted(p, mqttUp, reason, readFault);
      } else {
        ReactedFailed(Now(), p, lcd, allocOk, readFault, switched, mqttUp, reason);
        ReactFailed(allocOk);
      }
    }

    /** The rules for a switch after which Wi-Fi is down. */
    method ReactFailed(allocOk: bool)
      modifies leds, display
      ensures Now() == Light(Show(old(Now()), ReconnectFailedText, true, lcd, allocOk), On(Red, true))
    {
      ShowText(ReconnectFailedText, true, allocOk);
      Lights(On(Red, true));
    }

    /** The switch of a valid payload, after it has been announced. */
    method RunSwitch(p: Payload, allocOk: bool, readFault: bool)
      requires Valid()
      modifies wfm, mqm, store, leds, display
      ensures Valid()
      ensures Now() == Switched(old(Now()), p, lcd, allocOk, readFault)
    {
      var err, reason := SwitchNetwork(p);
      var wifiUp := WifiManager.IsConnected(wfm);
      if wifiUp {
        PollMqtt();
      }
      React(p, err == Ok, wifiUp, ReasonOf(reason), allocOk, readFault);
    }

    /**
     * `change_wifi_network_task` on one payload. `allocOk` stands for the
     * LCD's copies of its texts, `readFault` for a failed read of the stored
     * list.
     */
    method ChangeWifiNetworkTask(payload: Option<CString>, allocOk: bool, readFault: bool)
      requires Valid()
      modifies wfm, mqm, store, leds, display
      ensures Valid()
      ensures Now() == ChangeTask(old(Now()), payload, lcd, allocOk, readFault)
    {
      var p := SplitInPlace(payload);
      if p.None? {
        Pub(Topics.OutNewWifiConnectStatus, InvalidPayloadText);
        return;
      }
      SwitchTo(p.value, allocOk, readFault);
    }

    /** A valid payload: the switch announced, then run. */
    method SwitchTo(p: Payload, allocOk: bool, readFault: bool)
      requires Valid()
      modifies wfm, mqm, store, leds, display
      ensures Valid()
      ensures WorldOk(Announced(old(Now()), lcd, allocOk))
      ensures Now() == Switched(Announced(old(Now()), lcd, allocOk), p, lcd, allocOk, readFault)
    {
      ShowText(SwitchingText, true, allocOk);
      Lights(Blink(Green, 0.3, true));
      RunSwitch(p, allocOk, readFault);
    }

    /** `device_connection_test`. The context must be set: the source reads through it unchecked. */
    method DeviceConnectionTest(readFault: bool)
      requires wfm != null && Valid()
      modifies mqm
      ensures Now() == DeviceTest(old(Now()), readFault)
    {
      var info := wfm.info;
      PublishInfo(info);
      var _, loaded := store.Load(true, readFault);
      PublishCreds(loaded.value);
    }

    /** The loop over the loaded list: one publish per stored network. */
    method PublishCreds(list: CredList)
      requires list.count <= |list.creds|
      modifies mqm
      ensures Now() == PublishAll(old(Now()), Topics.OutWifiCredList, CredLines(list))
    {
      ghost var w1 := Now();
      for i := 0 to list.count
        invariant Now() == PublishAll(w1, Topics.OutWifiCredList, CredLines(list)[..i])
      {
        assert CredLines(list)[..i + 1] == CredLines(list)[..i] + [CredLine(list.creds[i])];
        PublishSnoc(w1, Topics.OutWifiCredList, CredLines(list)[..i], CredLine(list.creds[i]));
        Pub(Topics.OutWifiCredList, CredLine(list.creds[i]));
      }
      assert CredLines(list)[..list.count] == CredLines(list);
    }

    /** The six status publishes of `device_connection_test`, each line formatted into its own buffer. */
    method PublishInfo(info: WifiModel.ConnInfo)
      modifies mqm
      ensures Now() == PublishAll(old(Now()), Topics.OutDeviceConnection, InfoLines(info))
    {
      ghost var w := Now();
      var lines := InfoLines(info);
      Publish3(Topics.OutDeviceConnection, lines[0], lines[1], lines[2]);
      Publish3(Topics.OutDeviceConnection, lines[3], lines[4], lines[5]);
      PublishAllAppend(w, Topics.OutDeviceConnection, lines[..3], lines[3..]);
      assert lines[..3] == [lines[0], lines[1], lines[2]] && lines[3..] == [lines[3], lines[4], lines[5]];
      assert lines[..3] + lines[3..] == lines;
    }

    /** Three publishes on one topic. */
    method Publish3(topic: string, a: string, b: string, c: string)
      modifies mqm
      ensures Now() == PublishAll(old(Now()), topic, [a, b, c])
    {
      ghost var w := Now();
      Pub(topic, a);
      Pub(topic, b);
      Pub(topic, c);
      PublishSnoc(w, topic, [], a);
      PublishSnoc(w, topic, [a], b);
      PublishSnoc(w, topic, [a, b], c);
      assert [] + [a] == [a] && [a] + [b] == [a, b] && [a, b] + [c] == [a, b, c];
    }

    /** `perform_ota` with the download played by `env`; `restart` tells whether the device restarts. */
    method PerformOtaUpdate(url: Option<CString>, env: OtaEnv, allocOk: bool) returns (restart: bool)
      modifies mqm, leds, display
      ensures var r := PerformOta(old(Now()), url, env, lcd, allocOk);
              Now() == r.w && restart == r.restart
    {
      if url.None? || url.value == "" {
        Pub(Topics.OutOtaUpdate, InvalidUrlText);
        return false;
      }
      if !env.beginOk {
        Pub(Topics.OutOtaUpdate, BeginFailedText);
        return false;
      }
      Pub(Topics.OutOtaUpdate, DownloadStartedText);
      ShowText("", true, allocOk);
      ghost var w1 := Now();
      var lastBucket := -1;
      for i := 0 to |env.steps|
        invariant ProgressLoop(Now(), env.steps[i..], lastBucket, lcd, allocOk) == ProgressLoop(w1, env.steps, -1, lcd, allocOk)
      {
        var p := env.steps[i];
        assert env.steps[i..] == [p] + env.steps[i + 1..];
        if p.total > 0 {
          var pct := CDiv(p.read * 100, p.total);
          if CDiv(pct, 5) > CDiv(lastBucket, 5) {
            lastBucket := pct;
            var msg := ProgressText(pct);
            Pub(Topics.OutOtaUpdate, msg);
            ShowText(msg, false, allocOk);
          }
        }
      }
      if env.finishOk {
        Pub(Topics.OutOtaUpdate, OtaOkText);
        ShowText(InstalledText, true, allocOk);
        Flash();
        return true;
      }
      Pub(Topics.OutOtaUpdate, OtaFailedText);
      ShowText(InstalledText, true, allocOk);
      Lights(On(Red, true));
      return false;
    }

    /** The five flashing rounds of a finished update. */
    method Flash()
      modifies leds
      ensures Now() == LightAll(old(Now()), Flashes(FlashRounds))
    {
      for i := 0 to FlashRounds
        invariant Now() == LightAll(old(Now()), Flashes(i))
      {
        ghost var w := Now();
        FlashOnce();
        AllCommandsAppend(Flashes(i), FlashRound);
        AppendAssoc(old(Now()).queue, if w.ledsReady then AllCommands(Flashes(i)) else [],
                    if w.ledsReady then AllCommands(FlashRound) else []);
      }
    }

    /** One flashing round: the three LEDs on, then off. */
    method FlashOnce()
      modifies leds
      ensures Now() == LightAll(old(Now()), FlashRound)
    {
      ghost var w := Now();
      Switch3(On(Green, false), On(Red, false), On(Yellow, false));
      Switch3(Off(Green), Off(Red), Off(Yellow));
      assert FlashRound == [On(Green, false), On(Red, false), On(Yellow, false)] + [Off(Green), Off(Red), Off(Yellow)];
      LightAllAppend(w, [On(Green, false), On(Red, false), On(Yellow, false)], [Off(Green), Off(Red), Off(Yellow)]);
    }

    /** Three LED calls in a row. */
    method Switch3(a: LedAction, b: LedAction, c: LedAction)
      modifies leds
      ensures Now() == LightAll(old(Now()), [a, b, c])
    {
      ghost var w := Now();
      Lights(a);
      Lights(b);
      Lights(c);
      LightThree(w, a, b, c);
    }

    /** `OTA_update`. */
    method OtaUpdateHandler(url: Option<CString>, env: OtaEnv, allocOk: bool) returns (restart: bool)
      modifies mqm, leds, display
      ensures var r := OtaUpdate(old(Now()), url, env, lcd, allocOk);
              Now() == r.w && restart == r.restart
    {
      ShowText(StartingOtaText, true, allocOk);
      restart := PerformOtaUpdate(url, env, allocOk);
    }
  }
}
