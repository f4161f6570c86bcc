/**
 * The Wi-Fi manager of main/wifi_manager.c as a state machine over a snapshot
 * of its context (`wfm_t`) and of the Wi-Fi driver it drives.
 *
 * The driver is an environment: `failing` names the calls whose checked
 * result is an error, `waits` holds the outcome of each blocking wait for a
 * connection (in the order the waits happen), `scans` holds the records of
 * each scan. The event handler runs synchronously: starting the station fires
 * STA_START, stopping a started station fires STA_STOP, disconnecting a
 * connected station fires STA_DISCONNECTED, and a wait outcome applies the
 * event that ended the wait (GOT_IP or STA_DISCONNECTED).
 */
module WifiModel {
  import opened Esp
  import opened Util
  import opened NvsMemory
  import opened WifiScan

  const MaxReconnectAttempts: nat := 5
  const StaSsidBytes: nat := 32       // wifi_sta_config_t.ssid
  const StaPassBytes: nat := 64       // wifi_sta_config_t.password
  const ApSsidBytes: nat := 32        // wifi_ap_config_t.ssid
  const ApPassBytes: nat := 64        // wifi_ap_config_t.password
  const ApChannel: nat := 6           // WIFI_AP_CHANNELS
  const ApMaxConnections: nat := 4    // WIFI_AP_MAX_CONNECTIONS

  /** `wfm_mode_e`. */
  datatype Mode = ModeNone | ModeSta | ModeAp

  /** `wfm_disc_reason_e`. */
  datatype DiscReason = DiscNone | DiscWrongPassword | DiscNoAp | DiscOther

  /** `wifi_status_t`, passed to the status callback. */
  datatype WifiStatus = StConnecting | StConnected | StDisconnecting | StDisconnected | StError | StNone

  /** The driver's disconnect reason codes the handler distinguishes. */
  datatype DriverReason =
    | AuthFail | AuthExpire | FourWayHandshakeTimeout | AssocExpire | NoApFound | AssocLeave
    | OtherReason(code: int)

  /** `wfm_config_t`. */
  datatype WfmConfig = WfmConfig(
    staListenInterval: nat, connectTimeoutMs: nat, stopTimeoutMs: nat,
    scanActiveMinMs: nat, scanActiveMaxMs: nat, scanChannel: nat, allowHidden: bool,
    maxReconnectAttempts: nat)

  /** `WFM_DEFAULT_CFG`. */
  const DefaultConfig := WfmConfig(3, 30000, 10000, 50, 120, 0, false, 5)

  /** A zeroed configuration. */
  const ZeroConfig := WfmConfig(0, 0, 0, 0, 0, 0, false, 0)

  /** `wfm_callbacks_t`: which callbacks are set. */
  datatype WfmCallbacks = WfmCallbacks(onScanJson: bool, onStatus: bool)

  /** `wfm_conn_info_t`. */
  datatype ConnInfo = ConnInfo(ssid: SsidText, pass: PassText, ip: string, mac: string, rssi: string)

  const EmptyInfo := ConnInfo("", "", "", "", "")

  datatype RadioMode = RadioNull | RadioSta | RadioAp
  datatype AuthMode = AuthOpen | AuthWpaWpa2Psk

  /** The access point configuration handed to the driver. */
  datatype ApConfig = ApConfig(ssid: string, pass: string, channel: nat, maxConnection: nat, auth: AuthMode)

  /** Driver calls the manager makes, in order. */
  datatype RadioOp =
    | OpInit | OpSetMode(mode: RadioMode) | OpStart | OpStop | OpDeinit | OpConnect | OpDisconnect
    | OpSetStaConfig(ssid: string, pass: string) | OpSetApConfig(ap: ApConfig)
    | OpScan(channel: nat, showHidden: bool, minMs: nat, maxMs: nat)

  /** How a wait for CONNECTED or FAIL ends. */
  datatype WaitOutcome =
    | GotIp(ip: string, mac: string, rssi: Option<string>)
    | Dropped(reason: Option<DriverReason>)
    | TimedOut

  /** The driver: its mode, its station configuration, the environment's answers, and the calls made. */
  datatype Radio = Radio(
    mode: RadioMode, staSsid: CString, staPass: CString,
    failing: set<Call>, waits: seq<WaitOutcome>, scans: seq<seq<ApRecord>>,
    log: seq<RadioOp>)

  /** What the manager hands to its callbacks and to the task scheduler. */
  datatype Notice = Status(msg: string, status: WifiStatus) | ScanJson(aps: seq<ScanEntry>) | SpawnReconnect

  /** `wfm_t`, with the driver beside it. */
  datatype Wfm = Wfm(
    mode: Mode, lastDisc: DiscReason, info: ConnInfo, scan: seq<ScanEntry>, saved: CredList,
    connected: bool, started: bool, autoReconnect: bool, connectOnStart: bool, manualStop: bool,
    cfg: WfmConfig, cbs: WfmCallbacks, hasEventGroup: bool,
    radio: Radio, notes: seq<Notice>)

  datatype Step = Step(w: Wfm, err: Err)
  datatype Awaited = Awaited(w: Wfm, joined: bool)
  datatype Switched = Switched(w: Wfm, err: Err, reason: Option<DiscReason>)
  datatype Round = Joined(w: Wfm) | Aborted(w: Wfm, err: Err) | Exhausted(w: Wfm)

  /** What every operation keeps: the credential array's shape, a well-formed scan list, and a started station only in station mode. */
  ghost predicate Inv(w: Wfm)
  {
    |w.saved.creds| == MaxCreds && w.saved.count <= MaxCreds &&
    WellFormedScan(w.scan) &&
    (w.started ==> w.radio.mode == RadioSta)
  }

  /* ---------------------------------------------------------------- helpers */

  function Fails(w: Wfm, c: Call): bool { c in w.radio.failing }

  function Op(w: Wfm, op: RadioOp): Wfm
  {
    w.(radio := w.radio.(log := w.radio.log + [op]))
  }

  /** `print_status`: the status callback runs only when it is set and the message is for the device. */
  function Notify(w: Wfm, msg: string, st: WifiStatus, update: bool): Wfm
  {
    if w.cbs.onStatus && update then w.(notes := w.notes + [Status(msg, st)]) else w
  }

  /** The text a buffer of `size` bytes keeps of `s`. */
  function Field(s: CString, size: nat): CString
    requires size > 0
  {
    Bounded(s, size - 1)
  }

  /* ---------------------------------------------------------- event handler */

  /** The disconnect reason the handler records; a missing event payload counts as "other". */
  function Classify(r: Option<DriverReason>): (d: DiscReason)
    ensures d == DiscWrongPassword <==>
              r.Some? && r.value in {AuthFail, AuthExpire, FourWayHandshakeTimeout, AssocExpire}
    ensures d == DiscNoAp <==> r == Some(NoApFound)
    ensures d != DiscNone
  {
    match r
    case None => DiscOther
    case Some(AuthFail) => DiscWrongPassword
    case Some(AuthExpire) => DiscWrongPassword
    case Some(FourWayHandshakeTimeout) => DiscWrongPassword
    case Some(AssocExpire) => DiscWrongPassword
    case Some(NoApFound) => DiscNoAp
    case Some(_) => DiscOther
  }

  /** WIFI_EVENT_STA_START. */
  function OnStaStart(w: Wfm): Wfm
  {
    var w1 := w.(started := true);
    if w.connectOnStart then Op(Notify(w1, "Wi-Fi started, connecting...", StConnecting, true), OpConnect)
    else w1
  }

  /** WIFI_EVENT_STA_DISCONNECTED. */
  function OnStaDisconnected(w: Wfm, r: Option<DriverReason>): Wfm
  {
    var w1 := Notify(w.(connected := false, lastDisc := Classify(r)), "Wi-Fi disconnected", StDisconnected, true);
    if w.autoReconnect && !w.manualStop then w1.(notes := w1.notes + [SpawnReconnect]) else w1
  }

  /** WIFI_EVENT_STA_STOP. */
  function OnStaStop(w: Wfm): Wfm
  {
    w.(started := false)
  }

  /** The connection info GOT_IP records: name and password from the driver's station configuration, each text cut to its field. */
  function GotIpInfo(radio: Radio, ip: string, mac: string, rssi: Option<string>): (info: ConnInfo)
    ensures info.ssid == Bounded(radio.staSsid, SsidMax) && info.pass == Bounded(radio.staPass, PassMax)
    ensures info.rssi == (if rssi.Some? then Bounded(rssi.value, 7) else "N/A")
  {
    ConnInfo(Field(radio.staSsid, SsidMax + 1), Field(radio.staPass, PassMax + 1),
             Bounded(ip, 15), Bounded(mac, 17),
             if rssi.Some? then Bounded(rssi.value, 7) else "N/A")
  }

  /** IP_EVENT_STA_GOT_IP: the connection info is taken from the driver's station configuration. */
  function OnGotIp(w: Wfm, ip: string, mac: string, rssi: Option<string>): Wfm
  {
    var w1 := w.(info := GotIpInfo(w.radio, ip, mac, rssi));
    var w2 := if rssi.None? then Notify(w1, "Wi-Fi unstable connection", StConnected, true) else w1;
    Notify(w2.(connected := true), "Wi-Fi connected", StConnected, true)
  }

  /* ------------------------------------------------------------ driver calls */

  /** `esp_wifi_start`: a station that was not started fires STA_START. */
  function RadioStart(w: Wfm): Step
  {
    if Fails(w, WifiStart) then Step(w, DriverError(WifiStart))
    else
      var w1 := Op(w, OpStart);
      if w.radio.mode == RadioSta && !w.started then Step(OnStaStart(w1), Ok) else Step(w1, Ok)
  }

  /** `esp_wifi_stop` whose result is not checked: a started station fires STA_STOP. */
  function RadioStop(w: Wfm): Wfm
  {
    var w1 := Op(w, OpStop);
    if w.started then OnStaStop(w1) else w1
  }

  /** `esp_wifi_deinit`. */
  function RadioDeinit(w: Wfm): Wfm
  {
    Op(w, OpDeinit).(radio := Op(w, OpDeinit).radio.(mode := RadioNull))
  }

  /** `esp_wifi_disconnect`: a connected station fires STA_DISCONNECTED (reason: left). */
  function RadioDisconnect(w: Wfm): Wfm
  {
    var w1 := Op(w, OpDisconnect);
    if w.connected then OnStaDisconnected(w1, Some(AssocLeave)) else w1
  }

  /** `esp_wifi_set_config(WIFI_IF_STA, ...)` with the name and password copied into the 32- and 64-byte fields. */
  function SetStaConfig(w: Wfm, ssid: CString, pass: CString): Wfm
  {
    var s := Field(ssid, StaSsidBytes);
    var p := Field(pass, StaPassBytes);
    Op(w.(radio := w.radio.(staSsid := s, staPass := p)), OpSetStaConfig(s, p))
  }

  /** The event a wait outcome stands for. */
  function Apply(w: Wfm, o: WaitOutcome): Wfm
  {
    match o
    case GotIp(ip, mac, rssi) => OnGotIp(w, ip, mac, rssi)
    case Dropped(r) => OnStaDisconnected(w, r)
    case TimedOut => w
  }

  /** A blocking wait for CONNECTED or FAIL: takes the next outcome and applies its event. */
  function AwaitConnection(w: Wfm): Awaited
  {
    if |w.radio.waits| == 0 then Awaited(w, false)
    else Awaited(Apply(w.(radio := w.radio.(waits := w.radio.waits[1..])), w.radio.waits[0]), w.radio.waits[0].GotIp?)
  }

  /** The records the next scan returns (none once the environment's list is used up). */
  function ScanRecords(r: Radio): seq<ApRecord>
  {
    if |r.scans| == 0 then [] else r.scans[0]
  }

  /** The driver once the next scan's records are taken. */
  function PopScan(r: Radio): Radio
  {
    if |r.scans| == 0 then r else r.(scans := r.scans[1..])
  }

  /** `convert_AP_list_to_JSON`: the scan list goes to the JSON callback when it is set. */
  function ReportScan(w: Wfm): Wfm
  {
    if w.cbs.onScanJson then w.(notes := w.notes + [ScanJson(w.scan)]) else w
  }

  /* -------------------------------------------------------------- operations */

  /** `wfm_init` on a context: zeroed, then configured, then the event plumbing set up. */
  function Zero(w: Wfm): Wfm
  {
    Wfm(ModeNone, DiscNone, EmptyInfo, [], EmptyList(), false, false, false, false, false,
        ZeroConfig, WfmCallbacks(false, false), false, w.radio, w.notes)
  }

  /** The saved list as `wfm_init` copies it: at most fifteen entries counted. */
  function Clamp(l: CredList): (r: CredList)
    ensures r.creds == l.creds && r.count == Min(l.count, MaxCreds)
  {
    if l.count > MaxCreds then l.(count := MaxCreds) else l
  }

  /** `wfm_init`. */
  function Init(w: Wfm, saved: Option<CredList>, cfg: Option<WfmConfig>, cbs: Option<WfmCallbacks>): Step
  {
    InitDriver(Configure(w, saved, cfg, cbs))
  }

  /** The zeroed context with the configuration (or the default one), the callbacks and the clamped saved list copied in. */
  function Configure(w: Wfm, saved: Option<CredList>, cfg: Option<WfmConfig>, cbs: Option<WfmCallbacks>): Wfm
  {
    var z := Zero(w);
    z.(cfg := if cfg.Some? then cfg.value else DefaultConfig,
       cbs := if cbs.Some? then cbs.value else z.cbs,
       saved := if saved.Some? then Clamp(saved.value) else z.saved)
  }

  /** The event plumbing `wfm_init` sets up once the context is configured. */
  function InitDriver(z: Wfm): Step
  {
    if Fails(z, NetifInit) then Step(z, DriverError(NetifInit))
    else if Fails(z, EventGroupCreate) then Step(z, NoMem)
    else
      var z2 := z.(hasEventGroup := true);
      if Fails(z2, RegisterWifiEvents) then Step(z2, DriverError(RegisterWifiEvents))
      else if Fails(z2, RegisterIpEvents) then Step(z2, DriverError(RegisterIpEvents))
      else Step(Notify(z2.(mode := ModeNone), "Wi-Fi manager initialized", StNone, true), Ok)
  }

  /** `wfm_deinit`: stop and release the driver, then zero the context. */
  function Deinit(w: Wfm): Wfm
  {
    Zero(RadioDeinit(RadioStop(w)))
  }

  /** The start-up part of `wfm_scan_sync` for a station that is not started. */
  function StartForScan(w: Wfm): Step
  {
    if Fails(w, StaNetifCreate) then Step(w, DriverError(StaNetifCreate))
    else if Fails(w, WifiInit) then Step(w, DriverError(WifiInit))
    else
      var w1 := Op(w, OpInit);
      if Fails(w1, SetMode) then Step(w1, DriverError(SetMode))
      else
        var w2 := Op(w1, OpSetMode(RadioSta));
        RadioStart(w2.(radio := w2.radio.(mode := RadioSta), connectOnStart := false))
  }

  /** `wfm_scan_sync`. */
  function ScanSync(w: Wfm): Step
  {
    var s := if w.started then Step(w, Ok) else StartForScan(w);
    if s.err != Ok then s else CollectScan(s.w)
  }

  /** The blocking scan of `wfm_scan_sync` and the list it builds, once the station runs. */
  function CollectScan(w: Wfm): Step
  {
    if Fails(w, ScanStart) then Step(w, DriverError(ScanStart))
    else
      var w1 := Op(w, OpScan(w.cfg.scanChannel, w.cfg.allowHidden, w.cfg.scanActiveMinMs, w.cfg.scanActiveMaxMs));
      var recs := ScanRecords(w1.radio);
      var w2 := w1.(radio := PopScan(w1.radio));
      if Fails(w2, GetApNum) then Step(w2, DriverError(GetApNum))
      else if recs == [] then Step(ReportScan(w2.(scan := [])), Ok)
      else if Fails(w2, RecordsAlloc) then Step(w2, NoMem)
      else if Fails(w2, GetApRecords) then Step(w2, DriverError(GetApRecords))
      else Step(ReportScan(w2.(scan := Dedup(recs))), Ok)
  }

  /** The access point configuration `wfm_start_ap` builds: WPA/WPA2 exactly when a non-empty password is given. */
  function ApConf(ssid: CString, pass: Option<CString>): (c: ApConfig)
    ensures c.ssid == Bounded(ssid, ApSsidBytes - 1)
    ensures c.pass == (if pass.Some? then Bounded(pass.value, ApPassBytes - 1) else "")
    ensures c.channel == ApChannel && c.maxConnection == ApMaxConnections
    ensures c.auth == AuthOpen <==> pass.None? || pass.value == ""
  {
    ApConfig(Field(ssid, ApSsidBytes), Field(if pass.Some? then pass.value else "", ApPassBytes),
             ApChannel, ApMaxConnections,
             if pass.Some? && pass.value != "" then AuthWpaWpa2Psk else AuthOpen)
  }

  /** `wfm_start_ap`. */
  function StartAp(w: Wfm, ssid: Option<CString>, pass: Option<CString>): Step
  {
    if ssid.None? then Step(w, InvalidArg)
    else BringUpAp(RadioDeinit(RadioStop(w)), ApConf(ssid.value, pass))
  }

  /** The part of `wfm_start_ap` after the station is stopped and released. */
  function BringUpAp(w: Wfm, conf: ApConfig): Step
  {
    if Fails(w, ApNetifCreate) then Step(w, DriverError(ApNetifCreate))
    else if Fails(w, WifiInit) then Step(w, DriverError(WifiInit))
    else
      var w1 := Op(w, OpInit);
      if Fails(w1, SetMode) then Step(w1, DriverError(SetMode))
      else
        var w2 := Op(w1, OpSetMode(RadioAp));
        var w3 := w2.(radio := w2.radio.(mode := RadioAp));
        if Fails(w3, SetConfig) then Step(w3, DriverError(SetConfig))
        else
          var s := RadioStart(Op(w3, OpSetApConfig(conf)));
          if s.err != Ok then s
          else Step(Notify(s.w.(mode := ModeAp), "Wi-Fi setup server started", StNone, true), Ok)
  }

  /** `wfm_stop_ap` as written: it acts only when the station flag `started` is set. */
  function StopAp(w: Wfm): Step
  {
    if !w.started then Step(w, Ok)
    else if w.mode != ModeAp then Step(w, Ok)
    else StopApBody(w)
  }

  /** `wfm_stop_ap` as evidently intended: it acts whenever the manager is in access point mode. */
  function StopApCorrected(w: Wfm): Step
  {
    if w.mode != ModeAp then Step(w, Ok) else StopApBody(w)
  }

  function StopApBody(w: Wfm): Step
  {
    Step(Notify(RadioDeinit(RadioStop(w)).(mode := ModeNone), "Wi-Fi setup server stopped", StNone, true), Ok)
  }

  /** `wfm_disconnect_sta`, whose result every caller ignores: acts only in station mode. */
  function DisconnectSta(w: Wfm): Wfm
  {
    if w.mode != ModeSta then w else RadioDisconnect(w)
  }

  /** `wfm_stop_sta`: success exactly when a started station reported STA_STOP. */
  function StopSta(w: Wfm): Step
  {
    var w1 := DisconnectSta(w);
    if Fails(w1, WifiStop) then Step(w1, DriverError(WifiStop))
    else Step(RadioStop(w1), if w1.started then Ok else Fail)
  }

  /** The start of one attempt of `wfm_first_connect`: configure the station for `c`, then start it (STA_START connects). */
  function StartAttempt(w: Wfm, c: Cred): Step
  {
    if Fails(w, SetConfig) then Step(w, DriverError(SetConfig))
    else RadioStart(SetStaConfig(w, c.ssid, c.pass).(connectOnStart := true, autoReconnect := false))
  }

  /** The candidate loop of `wfm_first_connect`, from saved entry `i` on. */
  function TryCreds(w: Wfm, saved: seq<Cred>, i: nat): Step
    decreases |saved| - i
  {
    if i >= |saved| then Step(w, Fail)
    else if !IsSsidAvailable(w.scan, Some(saved[i].ssid)) then TryCreds(w, saved, i + 1)
    else
      var s := StartAttempt(w, saved[i]);
      if s.err != Ok then s
      else
        var a := AwaitConnection(s.w);
        if a.joined then Step(a.w.(autoReconnect := true, mode := ModeSta), Ok)
        else TryCreds(RadioStop(a.w), saved, i + 1)
  }

  /** `wfm_first_connect`. */
  function FirstConnect(w: Wfm): Step
    requires Inv(w)
  {
    if w.saved.count == 0 then Step(w, Fail)
    else
      var s := ScanSync(w);
      if s.err != Ok then s
      else
        var t := StopSta(s.w);
        if t.err != Ok then t
        else TryCreds(t.w, Entries(w.saved), 0)
  }

  /** `wfm_full_driver_stop`: the disconnect it causes never schedules a reconnect. */
  function FullDriverStop(w: Wfm): Step
  {
    var w1 := RadioDeinit(RadioStop(RadioDisconnect(w.(manualStop := true))));
    Step(Notify(w1.(manualStop := false, mode := ModeNone), "Wi-Fi full driver stopped", StDisconnected, true), Ok)
  }

  /** The candidates of one reconnect round: the last connection first, then the saved list. */
  function ReconnectCandidates(w: Wfm): seq<Cred>
    requires w.saved.count <= |w.saved.creds|
  {
    [Cred(w.info.ssid, w.info.pass)] + Entries(w.saved)
  }

  /** One attempt of a reconnect round: configure the station for `c` and connect. */
  function RoundAttempt(w: Wfm, c: Cred): Step
  {
    if Fails(w, SetConfig) then Step(w, DriverError(SetConfig))
    else
      var w1 := SetStaConfig(w, c.ssid, c.pass);
      if Fails(w1, WifiConnect) then Step(w1, DriverError(WifiConnect))
      else Step(Op(w1, OpConnect), Ok)
  }

  /** The candidate loop of one reconnect round, from candidate `i` on. */
  function TryRound(w: Wfm, cands: seq<Cred>, i: nat): Round
    decreases |cands| - i
  {
    if i >= |cands| then Exhausted(w)
    else if !IsSsidAvailable(w.scan, Some(cands[i].ssid)) then TryRound(w, cands, i + 1)
    else
      var s := RoundAttempt(w, cands[i]);
      if s.err != Ok then Aborted(s.w, s.err)
      else
        var a := AwaitConnection(s.w);
        if a.joined then Joined(a.w.(mode := ModeSta, autoReconnect := true))
        else TryRound(Notify(a.w, "Failed to reconnect", StNone, false), cands, i + 1)
  }

  /** One round of `wfm_reconnect`: a fresh scan, then the candidate loop. */
  function ReconnectRound(w: Wfm): Round
    requires Inv(w)
  {
    var w0 := Notify(w, "Attempting to reconnect...", StNone, true);
    var s := ScanSync(w0);
    if s.err != Ok then Aborted(Notify(s.w, "Wi-Fi scan failed during reconnect", StNone, true), s.err)
    else if Fails(s.w, GetConfig) then Aborted(s.w, DriverError(GetConfig))
    else
      ScanSyncKeepsInv(w0);
      TryRound(s.w, ReconnectCandidates(s.w), 0)
  }

  /** The rounds of `wfm_reconnect` from round `attempt` on. */
  function ReconnectRounds(w: Wfm, attempt: nat): Step
    requires Inv(w)
    decreases MaxReconnectAttempts - attempt, 1
  {
    if attempt >= MaxReconnectAttempts then
      Step(Notify(w, "Auto-reconnect failed after all attempts", StNone, true).(autoReconnect := true), Fail)
    else
      RoundsFrom(w, attempt)
  }

  /** `u` is `w`: a predicate of its own, so that `RoundsEndIn` is opened only where a proof asks for it. */
  ghost predicate Same(u: Wfm, w: Wfm)
  {
    u == w
  }

  /** The rounds from round `attempt` on, started in `w`, end in `target`. */
  ghost predicate RoundsEndIn(w: Wfm, attempt: nat, target: Step)
  {
    forall u {:trigger Same(u, w)} :: Same(u, w) ==>
      Inv(u) && attempt <= MaxReconnectAttempts && ReconnectRounds(u, attempt) == target
  }

  /** How the firmware reports round result `rd`: the state left in `w`, `ended` unless no network was found, and the error returned. */
  predicate Reports(rd: Round, w: Wfm, ended: bool, err: Err)
  {
    w == rd.w && ended == !rd.Exhausted? && (rd.Joined? ==> err == Ok) && (rd.Aborted? ==> err == rd.err)
  }

  /** The candidate loop from candidate `i` on, started in `w`, ends in `target`. */
  ghost predicate TriesEndIn(w: Wfm, cands: seq<Cred>, i: nat, target: Round)
  {
    forall u {:trigger Same(u, w)} :: Same(u, w) ==> TryRound(u, cands, i) == target
  }

  /** Round `attempt` of `wfm_reconnect` and, when it finds no network, the rounds after it. */
  function RoundsFrom(w: Wfm, attempt: nat): Step
    requires Inv(w) && attempt < MaxReconnectAttempts
    decreases MaxReconnectAttempts - attempt, 0
  {
    match ReconnectRound(w)
    case Joined(w2) => Step(w2, Ok)
    case Aborted(w2, e) => Step(w2, e)
    case Exhausted(w2) =>
      RoundKeepsInv(w);
      ReconnectRounds(w2, attempt + 1)
  }

  /** `wfm_reconnect`. */
  function Reconnect(w: Wfm): Step
    requires Inv(w)
  {
    ReconnectRounds(Notify(w.(autoReconnect := false), "Auto-reconnect in progress", StNone, true), 0)
  }

  /** `wfm_change_network`; `reason` is what it writes through `out_reason`, `None` when it writes nothing. */
  function ChangeNetwork(w: Wfm, ssid: Option<CString>, pass: Option<CString>): Switched
    requires Inv(w)
  {
    if ssid.None? || pass.None? then Switched(w, InvalidArg, None)
    else Switch(w.(autoReconnect := false), ssid.value, pass.value,
                Field(w.info.ssid, SsidMax + 1), Field(w.info.pass, PassMax + 1))
  }

  /** The switch itself, with auto-reconnect off and the previous credentials copied aside. */
  function Switch(w: Wfm, ssid: CString, pass: CString, prevSsid: CString, prevPass: CString): Switched
    requires Inv(w)
  {
    if Fails(w, GetConfig) then Switched(w, DriverError(GetConfig), None)
    else
      var w2 := RadioDisconnect(w);
      if Fails(w2, SetConfig) then Switched(w2, DriverError(SetConfig), None)
      else
        var w3 := SetStaConfig(w2, ssid, pass);
        if Fails(w3, WifiConnect) then Switched(w3, DriverError(WifiConnect), None)
        else
          var a := AwaitConnection(Op(w3, OpConnect));
          if a.joined then Switched(a.w.(autoReconnect := true), Ok, Some(DiscNone))
          else
            ChangeKeepsInv(w, ssid, pass);
            FallBack(a.w, prevSsid, prevPass)
  }

  /** The failure path of `wfm_change_network`: reapply the previous credentials, wait once, and reconnect if still down. */
  function FallBack(w: Wfm, prevSsid: CString, prevPass: CString): Switched
    requires Inv(w)
  {
    var b := AwaitConnection(Op(SetStaConfig(w, prevSsid, prevPass), OpConnect));
    FallBackWaitKeepsInv(w, prevSsid, prevPass);
    var w4 := if !b.w.connected then Reconnect(b.w).w else b.w;
    Switched(w4.(autoReconnect := true), Fail, Some(b.w.lastDisc))
  }

  /* ----------------------------------------------------- invariant lemmas */

  lemma OpKeepsInv(w: Wfm, op: RadioOp)
    requires Inv(w)
    ensures Inv(Op(w, op))
  {
  }

  lemma NotifyKeepsInv(w: Wfm, msg: string, st: WifiStatus, update: bool)
    requires Inv(w)
    ensures Inv(Notify(w, msg, st, update))
  {
  }

  /** The invariant only looks at the saved list, the scan list, `started` and the driver's mode. */
  lemma InvCarries(w: Wfm, w': Wfm)
    requires Inv(w) && w'.scan == w.scan && w'.saved == w.saved
    requires w'.started ==> w'.radio.mode == RadioSta
    ensures Inv(w')
  {
  }

  lemma EventsKeepInv(w: Wfm, r: Option<DriverReason>, ip: string, mac: string, rssi: Option<string>)
    requires Inv(w)
    ensures w.radio.mode == RadioSta ==> Inv(OnStaStart(w))
    ensures Inv(OnStaDisconnected(w, r))
    ensures Inv(OnStaStop(w))
    ensures Inv(OnGotIp(w, ip, mac, rssi))
  {
    if w.radio.mode == RadioSta { InvCarries(w, OnStaStart(w)); }
    InvCarries(w, OnStaDisconnected(w, r));
    InvCarries(w, OnStaStop(w));
    GotIpFrame(w, ip, mac, rssi);
    InvCarries(w, OnGotIp(w, ip, mac, rssi));
  }

  /** GOT_IP changes only the connection info, `connected` and the notices. */
  lemma GotIpFrame(w: Wfm, ip: string, mac: string, rssi: Option<string>)
    ensures var g := OnGotIp(w, ip, mac, rssi);
            g == w.(info := g.info, connected := true, notes := g.notes)
  {
    var w1 := w.(info := GotIpInfo(w.radio, ip, mac, rssi));
    var w2 := if rssi.None? then Notify(w1, "Wi-Fi unstable connection", StConnected, true) else w1;
    NotifyFrame(w1, "Wi-Fi unstable connection", StConnected, true);
    NotifyFrame(w2.(connected := true), "Wi-Fi connected", StConnected, true);
    assert w2 == w.(info := w1.info, notes := w2.notes);
  }

  /** A notice changes nothing but the notices. */
  lemma NotifyFrame(w: Wfm, msg: string, st: WifiStatus, update: bool)
    ensures var n := Notify(w, msg, st, update);
            n == w.(notes := n.notes) && n.cbs == w.cbs
  {
  }

  lemma RadioStartKeepsInv(w: Wfm)
    requires Inv(w)
    ensures Inv(RadioStart(w).w)
  {
    if !Fails(w, WifiStart) {
      OpKeepsInv(w, OpStart);
      if w.radio.mode == RadioSta && !w.started {
        EventsKeepInv(Op(w, OpStart), None, "", "", None);
      }
    }
  }

  lemma RadioStopKeepsInv(w: Wfm)
    requires Inv(w)
    ensures Inv(RadioStop(w)) && !RadioStop(w).started
  {
    OpKeepsInv(w, OpStop);
  }

  lemma RadioDisconnectKeepsInv(w: Wfm)
    requires Inv(w)
    ensures Inv(RadioDisconnect(w))
  {
    OpKeepsInv(w, OpDisconnect);
    if w.connected {
      EventsKeepInv(Op(w, OpDisconnect), Some(AssocLeave), "", "", None);
    }
  }

  lemma SetStaConfigKeepsInv(w: Wfm, ssid: CString, pass: CString)
    requires Inv(w)
    ensures Inv(SetStaConfig(w, ssid, pass))
  {
  }

  lemma AwaitKeepsInv(w: Wfm)
    requires Inv(w)
    ensures Inv(AwaitConnection(w).w)
  {
    AwaitFrame(w);
    InvCarries(w, AwaitConnection(w).w);
  }

  lemma StartForScanKeepsInv(w: Wfm)
    requires Inv(w) && !w.started
    ensures Inv(StartForScan(w).w)
  {
    if !Fails(w, StaNetifCreate) && !Fails(w, WifiInit) {
      var w1 := Op(w, OpInit);
      OpKeepsInv(w, OpInit);
      if !Fails(w1, SetMode) {
        var w2 := Op(w1, OpSetMode(RadioSta));
        OpKeepsInv(w1, OpSetMode(RadioSta));
        var w3 := w2.(radio := w2.radio.(mode := RadioSta), connectOnStart := false);
        assert Inv(w3);
        RadioStartKeepsInv(w3);
      }
    }
  }

  lemma CollectScanKeepsInv(w: Wfm)
    requires Inv(w)
    ensures Inv(CollectScan(w).w)
  {
    if Fails(w, ScanStart) {
      return;
    }
    var op := OpScan(w.cfg.scanChannel, w.cfg.allowHidden, w.cfg.scanActiveMinMs, w.cfg.scanActiveMaxMs);
    var w1 := Op(w, op);
    var w2 := w1.(radio := PopScan(w1.radio));
    assert Inv(w2) by {
      OpKeepsInv(w, op);
      InvCarries(w1, w2);
    }
    var recs := ScanRecords(w1.radio);
    if Fails(w2, GetApNum) || (recs != [] && (Fails(w2, RecordsAlloc) || Fails(w2, GetApRecords))) {
      return;
    }
    var list := if recs == [] then [] else Dedup(recs);
    assert WellFormedScan(list);
    ScanListKeepsInv(w2, list);
  }

  /** A well-formed scan list, reported, keeps the invariant. */
  lemma ScanListKeepsInv(w: Wfm, list: seq<ScanEntry>)
    requires Inv(w) && WellFormedScan(list)
    ensures Inv(ReportScan(w.(scan := list)))
  {
  }

  lemma ScanSyncKeepsInv(w: Wfm)
    requires Inv(w)
    ensures Inv(ScanSync(w).w)
  {
    if !w.started {
      StartForScanKeepsInv(w);
      if StartForScan(w).err == Ok { CollectScanKeepsInv(StartForScan(w).w); }
    } else {
      CollectScanKeepsInv(w);
    }
  }

  lemma {:induction false} TryRoundKeepsInv(w: Wfm, cands: seq<Cred>, i: nat)
    requires Inv(w)
    ensures Inv(TryRound(w, cands, i).w)
    decreases |cands| - i
  {
    if i < |cands| {
      if !IsSsidAvailable(w.scan, Some(cands[i].ssid)) {
        TryRoundKeepsInv(w, cands, i + 1);
      } else {
        RoundAttemptFrame(w, cands[i]);
        var s := RoundAttempt(w, cands[i]);
        InvCarries(w, s.w);
        if s.err == Ok {
          AwaitFrame(s.w);
          var a := AwaitConnection(s.w);
          InvCarries(s.w, a.w);
          if a.joined {
            InvCarries(a.w, a.w.(mode := ModeSta, autoReconnect := true));
          } else {
            TryRoundKeepsInv(Notify(a.w, "Failed to reconnect", StNone, false), cands, i + 1);
          }
        }
      }
    }
  }

  /** The state `wfm_change_network` falls back from keeps the invariant. */
  lemma ChangeKeepsInv(w: Wfm, ssid: CString, pass: CString)
    requires Inv(w)
    ensures Inv(AwaitConnection(Op(SetStaConfig(RadioDisconnect(w), ssid, pass), OpConnect)).w)
  {
    var w1 := w;
    RadioDisconnectKeepsInv(w1);
    var w3 := SetStaConfig(RadioDisconnect(w1), ssid, pass);
    SetStaConfigKeepsInv(RadioDisconnect(w1), ssid, pass);
    OpKeepsInv(w3, OpConnect);
    AwaitKeepsInv(Op(w3, OpConnect));
  }

  /** The fallback wait keeps the invariant. */
  lemma FallBackWaitKeepsInv(w: Wfm, prevSsid: CString, prevPass: CString)
    requires Inv(w)
    ensures Inv(AwaitConnection(Op(SetStaConfig(w, prevSsid, prevPass), OpConnect)).w)
  {
    var w5 := SetStaConfig(w, prevSsid, prevPass);
    SetStaConfigKeepsInv(w, prevSsid, prevPass);
    OpKeepsInv(w5, OpConnect);
    AwaitKeepsInv(Op(w5, OpConnect));
  }

  /* ------------------------------------------------------------ frame lemmas */

  /** What the manager's own steps never change: the saved list, the scan list, the configuration and the environment's answers. */
  ghost predicate SameEnv(w: Wfm, w': Wfm)
  {
    w'.scan == w.scan && w'.saved == w.saved && w'.cfg == w.cfg && w'.cbs == w.cbs &&
    w'.radio.failing == w.radio.failing && w'.radio.scans == w.radio.scans
  }

  /** A step that also keeps the pending waits, the station configuration, the mode and the reconnect flag. */
  ghost predicate Quiet(w: Wfm, w': Wfm)
  {
    SameEnv(w, w') && w'.radio.waits == w.radio.waits &&
    w'.radio.staSsid == w.radio.staSsid && w'.radio.staPass == w.radio.staPass &&
    w'.mode == w.mode && w'.autoReconnect == w.autoReconnect && w'.radio.mode == w.radio.mode &&
    w'.info == w.info
  }

  /** The notices only grow. */
  ghost predicate Appends(w: Wfm, w': Wfm)
  {
    w.notes <= w'.notes && w.radio.log <= w'.radio.log
  }

  lemma QuietOp(w: Wfm, op: RadioOp)
    ensures Quiet(w, Op(w, op)) && Appends(w, Op(w, op))
  {
  }

  lemma QuietNotify(w: Wfm, msg: string, st: WifiStatus, update: bool)
    ensures Quiet(w, Notify(w, msg, st, update)) && Appends(w, Notify(w, msg, st, update))
  {
  }

  lemma QuietStaStart(w: Wfm)
    ensures Quiet(w, OnStaStart(w)) && Appends(w, OnStaStart(w))
  {
    var w1 := w.(started := true);
    if w.connectOnStart {
      var w2 := Notify(w1, "Wi-Fi started, connecting...", StConnecting, true);
      QuietNotify(w1, "Wi-Fi started, connecting...", StConnecting, true);
      QuietOp(w2, OpConnect);
    }
  }

  lemma QuietStaDisconnected(w: Wfm, r: Option<DriverReason>)
    ensures Quiet(w, OnStaDisconnected(w, r)) && Appends(w, OnStaDisconnected(w, r))
  {
    var w0 := w.(connected := false, lastDisc := Classify(r));
    QuietNotify(w0, "Wi-Fi disconnected", StDisconnected, true);
  }

  lemma QuietRadioStart(w: Wfm)
    ensures Quiet(w, RadioStart(w).w) && Appends(w, RadioStart(w).w)
  {
    QuietOp(w, OpStart);
    QuietStaStart(Op(w, OpStart));
  }

  lemma QuietRadioStop(w: Wfm)
    ensures Quiet(w, RadioStop(w)) && Appends(w, RadioStop(w))
  {
    QuietOp(w, OpStop);
  }

  lemma QuietRadioDisconnect(w: Wfm)
    ensures Quiet(w, RadioDisconnect(w)) && Appends(w, RadioDisconnect(w))
  {
    QuietOp(w, OpDisconnect);
    QuietStaDisconnected(Op(w, OpDisconnect), Some(AssocLeave));
  }

  lemma SetStaConfigFrame(w: Wfm, ssid: CString, pass: CString)
    ensures var w' := SetStaConfig(w, ssid, pass);
            SameEnv(w, w') && w'.radio.waits == w.radio.waits && w'.mode == w.mode &&
            w'.autoReconnect == w.autoReconnect && w'.connected == w.connected &&
            w'.radio.staSsid == Bounded(ssid, StaSsidBytes - 1) && w'.radio.staPass == Bounded(pass, StaPassBytes - 1)
  {
  }

  lemma ApplyFrame(w: Wfm, o: WaitOutcome)
    ensures var a := Apply(w, o);
            SameEnv(w, a) && a.radio.waits == w.radio.waits &&
            a.radio.staSsid == w.radio.staSsid && a.radio.staPass == w.radio.staPass &&
            a.mode == w.mode && a.autoReconnect == w.autoReconnect && a.radio.mode == w.radio.mode &&
            a.started == w.started &&
            (o.GotIp? ==> a.connected && a.info.ssid == Bounded(w.radio.staSsid, SsidMax) &&
                          a.info.pass == Bounded(w.radio.staPass, PassMax)) &&
            (!o.GotIp? ==> a.info == w.info)
  {
    match o
    case GotIp(ip, mac, rssi) => GotIpFrame(w, ip, mac, rssi);
    case Dropped(r) => QuietStaDisconnected(w, r);
    case TimedOut =>
  }

  /** A wait records a disconnect reason exactly when its outcome is a disconnect. */
  lemma AwaitLastDisc(w: Wfm)
    ensures var a := AwaitConnection(w);
            (|w.radio.waits| > 0 && w.radio.waits[0].Dropped? ==> a.w.lastDisc == Classify(w.radio.waits[0].reason)) &&
            (|w.radio.waits| == 0 || !w.radio.waits[0].Dropped? ==> a.w.lastDisc == w.lastDisc)
  {
    if |w.radio.waits| > 0 {
      var w1 := w.(radio := w.radio.(waits := w.radio.waits[1..]));
      match w.radio.waits[0]
      case GotIp(ip, mac, rssi) => GotIpFrame(w1, ip, mac, rssi);
      case Dropped(r) =>
      case TimedOut =>
    }
  }

  /** A wait takes exactly one outcome from the environment, and reports a connection exactly when that outcome is GOT_IP. */
  lemma AwaitFrame(w: Wfm)
    ensures var a := AwaitConnection(w);
            SameEnv(w, a.w) && a.w.mode == w.mode && a.w.autoReconnect == w.autoReconnect &&
            a.w.radio.staSsid == w.radio.staSsid && a.w.radio.staPass == w.radio.staPass &&
            a.w.radio.mode == w.radio.mode && a.w.started == w.started &&
            a.w.radio.waits == (if |w.radio.waits| == 0 then [] else w.radio.waits[1..]) &&
            (a.joined <==> |w.radio.waits| > 0 && w.radio.waits[0].GotIp?) &&
            (a.joined ==> a.w.connected && a.w.info.ssid == Bounded(w.radio.staSsid, SsidMax) &&
                          a.w.info.pass == Bounded(w.radio.staPass, PassMax)) &&
            (!a.joined ==> a.w.info == w.info)
  {
    if |w.radio.waits| > 0 {
      ApplyFrame(w.(radio := w.radio.(waits := w.radio.waits[1..])), w.radio.waits[0]);
    }
  }

  lemma BoundedTwice(s: seq<char>, a: nat, b: nat)
    requires a <= b
    ensures Bounded(Bounded(s, a), b) == Bounded(s, a)
  {
  }

  lemma BoundedShorter(s: seq<char>, a: nat, b: nat)
    requires b <= a
    ensures Bounded(Bounded(s, a), b) == Bounded(s, b)
  {
  }

  /* ------------------------------------------------------- first connection */

  /** The saved entries the last scan lists, in saved order: the networks `wfm_first_connect` tries. */
  function Available(scan: seq<ScanEntry>, saved: seq<Cred>): (c: seq<Cred>)
    ensures |c| <= |saved|
    ensures forall x :: x in c ==> x in saved && IsSsidAvailable(scan, Some(x.ssid))
  {
    if saved == [] then []
    else (if IsSsidAvailable(scan, Some(saved[0].ssid)) then [saved[0]] else []) + Available(scan, saved[1..])
  }

  /** The first of the first `n` wait outcomes that is GOT_IP. */
  function FirstJoin(waits: seq<WaitOutcome>, n: nat): (j: Option<nat>)
    ensures j.Some? ==> j.value < n && j.value < |waits| && waits[j.value].GotIp?
    ensures j.Some? ==> forall k :: 0 <= k < j.value ==> !waits[k].GotIp?
    ensures j.None? ==> forall k :: 0 <= k < n && k < |waits| ==> !waits[k].GotIp?
  {
    if n == 0 || waits == [] then None
    else if waits[0].GotIp? then Some(0)
    else match FirstJoin(waits[1..], n - 1)
      case None => None
      case Some(k) => Some(k + 1)
  }

  /** A state connected (as the manager sees it) to the network `c` names, in station mode, with reconnection enabled. */
  ghost predicate JoinedTo(w: Wfm, c: Cred)
  {
    w.connected && w.mode == ModeSta && w.autoReconnect &&
    w.info.ssid == Bounded(c.ssid, StaSsidBytes - 1) && w.info.pass == Bounded(c.pass, StaPassBytes - 1)
  }

  lemma StartAttemptFrame(w: Wfm, c: Cred)
    ensures var s := StartAttempt(w, c);
            SameEnv(w, s.w) && s.w.radio.waits == w.radio.waits &&
            (s.err == Ok <==> SetConfig !in w.radio.failing && WifiStart !in w.radio.failing) &&
            s.w.radio.staSsid == (if SetConfig in w.radio.failing then w.radio.staSsid else Bounded(c.ssid, StaSsidBytes - 1)) &&
            s.w.radio.staPass == (if SetConfig in w.radio.failing then w.radio.staPass else Bounded(c.pass, StaPassBytes - 1))
  {
    if !Fails(w, SetConfig) {
      var w0 := SetStaConfig(w, c.ssid, c.pass);
      SetStaConfigFrame(w, c.ssid, c.pass);
      QuietRadioStart(w0.(connectOnStart := true, autoReconnect := false));
    }
  }

  /** A successful start followed by a GOT_IP wait leaves the manager joined to the configured network. */
  lemma AttemptJoins(w: Wfm, c: Cred)
    requires StartAttempt(w, c).err == Ok
    requires AwaitConnection(StartAttempt(w, c).w).joined
    ensures JoinedTo(AwaitConnection(StartAttempt(w, c).w).w.(autoReconnect := true, mode := ModeSta), c)
  {
    StartAttemptFrame(w, c);
    AwaitFrame(StartAttempt(w, c).w);
    BoundedTwice(c.ssid, StaSsidBytes - 1, SsidMax);
    BoundedTwice(c.pass, StaPassBytes - 1, PassMax);
  }

  /** The candidate joined when the waits answer the candidates `c` in turn, if any. */
  function JoinTarget(c: seq<Cred>, waits: seq<WaitOutcome>): (t: Option<Cred>)
    ensures t.Some? ==> t.value in c
  {
    match FirstJoin(waits, |c|)
    case None => None
    case Some(j) => Some(c[j])
  }

  /** A failed first wait passes the remaining waits to the remaining candidates. */
  lemma JoinTargetShift(x: Cred, c: seq<Cred>, waits: seq<WaitOutcome>)
    requires |waits| > 0 ==> !waits[0].GotIp?
    ensures JoinTarget([x] + c, waits) == JoinTarget(c, if |waits| == 0 then [] else waits[1..])
  {
    if |waits| > 0 {
      FirstJoinShift(waits, |c|);
      match FirstJoin(waits[1..], |c|)
      case None =>
      case Some(k) => assert ([x] + c)[k + 1] == c[k];
    }
  }

  /** FirstJoin over a longer prefix that starts with a failed wait. */
  lemma FirstJoinShift(waits: seq<WaitOutcome>, n: nat)
    requires |waits| > 0 && !waits[0].GotIp?
    ensures FirstJoin(waits, n + 1) == match FirstJoin(waits[1..], n) case None => None case Some(k) => Some(k + 1)
  {
  }

  /**
   * The candidate loop of `wfm_first_connect` tries the available saved networks
   * in order, one wait each, and joins the first whose wait ends with GOT_IP;
   * the connection info then names that network. Without driver errors it
   * succeeds exactly when such a wait exists, and fails with ESP_FAIL otherwise.
   */
  lemma {:induction false} TryCredsOutcome(w: Wfm, saved: seq<Cred>, i: nat)
    requires i <= |saved|
    ensures var r := TryCreds(w, saved, i);
            var c := Available(w.scan, saved[i..]);
            var t := JoinTarget(c, w.radio.waits);
            SameEnv(w, r.w) &&
            (r.err == Ok ==> t.Some? && JoinedTo(r.w, t.value)) &&
            (SetConfig !in w.radio.failing && WifiStart !in w.radio.failing ==>
               (r.err == Ok <==> t.Some?) && (r.err == Ok || r.err == Fail))
    decreases |saved| - i
  {
    if i == |saved| {
      assert saved[i..] == [];
      return;
    }
    assert saved[i..][1..] == saved[i + 1..];
    if !IsSsidAvailable(w.scan, Some(saved[i].ssid)) {
      TryCredsOutcome(w, saved, i + 1);
      return;
    }
    var c := Available(w.scan, saved[i..]);
    var c' := Available(w.scan, saved[i + 1..]);
    assert c == [saved[i]] + c';
    var s := StartAttempt(w, saved[i]);
    StartAttemptFrame(w, saved[i]);
    if s.err != Ok {
      return;
    }
    var a := AwaitConnection(s.w);
    AwaitFrame(s.w);
    if a.joined {
      AttemptJoins(w, saved[i]);
      assert JoinTarget(c, w.radio.waits) == Some(saved[i]);
    } else {
      var w2 := RadioStop(a.w);
      QuietRadioStop(a.w);
      TryCredsOutcome(w2, saved, i + 1);
      JoinTargetShift(saved[i], c', w.radio.waits);
    }
  }


  /* ----------------------------------------------------------------- scans */

  /** The driver calls a scan may find failing. */
  const ScanCalls: set<Call> := {StaNetifCreate, WifiInit, SetMode, WifiStart, ScanStart, GetApNum, RecordsAlloc, GetApRecords}

  lemma StartForScanFrame(w: Wfm)
    requires !w.started
    ensures var s := StartForScan(w);
            SameEnv(w, s.w) && s.w.radio.waits == w.radio.waits && s.w.autoReconnect == w.autoReconnect &&
            s.w.info == w.info && (s.err == Ok ==> s.w.started) &&
            (w.radio.failing !! ScanCalls ==> s.err == Ok)
  {
    if !Fails(w, StaNetifCreate) && !Fails(w, WifiInit) {
      var w1 := Op(w, OpInit);
      QuietOp(w, OpInit);
      if !Fails(w1, SetMode) {
        var w2 := Op(w1, OpSetMode(RadioSta));
        QuietOp(w1, OpSetMode(RadioSta));
        var w3 := w2.(radio := w2.radio.(mode := RadioSta), connectOnStart := false);
        QuietRadioStart(w3);
        if !Fails(w3, WifiStart) {
          QuietStaStart(Op(w3, OpStart));
        }
      }
    }
  }

  /** The scan proper, as a step: which records it takes and the state it ends in. */
  lemma CollectScanCases(w: Wfm)
    ensures var s := CollectScan(w);
            var w2 := Op(w, OpScan(w.cfg.scanChannel, w.cfg.allowHidden, w.cfg.scanActiveMinMs, w.cfg.scanActiveMaxMs));
            var w3 := w2.(radio := PopScan(w2.radio));
            var recs := ScanRecords(w.radio);
            (s.err == Ok ==> s.w == ReportScan(w3.(scan := Dedup(recs)))) &&
            (s.err != Ok ==> s.w == w || s.w == w3) &&
            (w.radio.failing !! ScanCalls ==> s.err == Ok)
  {
    var w2 := Op(w, OpScan(w.cfg.scanChannel, w.cfg.allowHidden, w.cfg.scanActiveMinMs, w.cfg.scanActiveMaxMs));
    assert ScanRecords(w2.radio) == ScanRecords(w.radio);
  }

  lemma CollectScanFrame(w: Wfm)
    ensures var s := CollectScan(w);
            s.w.saved == w.saved && s.w.started == w.started && s.w.radio.waits == w.radio.waits &&
            s.w.autoReconnect == w.autoReconnect && s.w.radio.failing == w.radio.failing && s.w.cbs == w.cbs &&
            s.w.cfg == w.cfg && s.w.mode == w.mode && w.notes <= s.w.notes && s.w.info == w.info &&
            |s.w.radio.scans| + 1 >= |w.radio.scans| &&
            (s.err == Ok ==> s.w.scan == Dedup(ScanRecords(w.radio))) &&
            (s.err == Ok && w.cbs.onScanJson ==> s.w.notes == w.notes + [ScanJson(s.w.scan)]) &&
            (s.err != Ok ==> s.w.scan == w.scan) &&
            (w.radio.failing !! ScanCalls ==> s.err == Ok)
  {
    CollectScanCases(w);
  }

  /**
   * `wfm_scan_sync` leaves the station started and the scan list built from the
   * records the driver returned (so well formed, see WifiScan), hands that list
   * to the JSON callback, and keeps the old list on every error. Without driver
   * errors it succeeds.
   */
  lemma ScanSyncOutcome(w: Wfm)
    ensures var s := ScanSync(w);
            SameEnvButScan(w, s.w) && s.w.radio.waits == w.radio.waits && s.w.autoReconnect == w.autoReconnect &&
            s.w.info == w.info && |s.w.radio.scans| + 1 >= |w.radio.scans| &&
            (s.err == Ok ==> s.w.started && s.w.scan == Dedup(ScanRecords(w.radio))) &&
            (s.err == Ok && w.cbs.onScanJson ==> LastNotice(s.w, ScanJson(s.w.scan))) &&
            (s.err != Ok ==> s.w.scan == w.scan) &&
            (w.radio.failing !! ScanCalls ==> s.err == Ok)
  {
    if w.started {
      assert ScanSync(w) == CollectScan(w);
      CollectScanFrame(w);
    } else {
      StartForScanFrame(w);
      var s := StartForScan(w);
      if s.err == Ok {
        assert ScanSync(w) == CollectScan(s.w);
        assert ScanRecords(s.w.radio) == ScanRecords(w.radio);
        CollectScanFrame(s.w);
        var r := CollectScan(s.w);
        if w.cbs.onScanJson && r.err == Ok {
          assert r.w.notes == s.w.notes + [ScanJson(r.w.scan)];
        }
      } else {
        assert ScanSync(w) == s;
      }
    }
  }

  /** The latest notice is `n`. */
  ghost predicate LastNotice(w: Wfm, n: Notice)
  {
    |w.notes| > 0 && w.notes[|w.notes| - 1] == n
  }

  /** Everything SameEnv keeps except the scan list. */
  ghost predicate SameEnvButScan(w: Wfm, w': Wfm)
  {
    w'.saved == w.saved && w'.cfg == w.cfg && w'.cbs == w.cbs && w'.radio.failing == w.radio.failing
  }

  /** `wfm_stop_sta` succeeds exactly when `esp_wifi_stop` succeeds on a started station; the station is then stopped. */
  lemma StopStaOutcome(w: Wfm)
    ensures var r := StopSta(w);
            SameEnv(w, r.w) && r.w.radio.waits == w.radio.waits && r.w.autoReconnect == w.autoReconnect &&
            (r.err == Ok <==> WifiStop !in w.radio.failing && w.started) &&
            (WifiStop !in w.radio.failing ==> !r.w.started)
  {
    var w1 := DisconnectSta(w);
    if w.mode == ModeSta {
      QuietRadioDisconnect(w);
      assert w1.started == w.started;
    }
    QuietRadioStop(w1);
  }

  /**
   * `wfm_first_connect`: with no saved network it fails at once and changes
   * nothing; on success it is joined to a saved network that the fresh scan
   * lists. Without driver errors it succeeds exactly when some available saved
   * network, tried in saved order, gets GOT_IP.
   */
  lemma FirstConnectOutcome(w: Wfm)
    requires Inv(w)
    ensures var r := FirstConnect(w);
            r.w.saved == w.saved &&
            (w.saved.count == 0 ==> r == Step(w, Fail)) &&
            (r.err == Ok ==> r.w.scan == Dedup(ScanRecords(w.radio)) &&
                             exists c :: c in Entries(w.saved) && IsSsidAvailable(r.w.scan, Some(c.ssid)) && JoinedTo(r.w, c)) &&
            (w.radio.failing == {} && w.saved.count > 0 ==>
               (r.err == Ok <==> JoinTarget(Available(Dedup(ScanRecords(w.radio)), Entries(w.saved)), w.radio.waits).Some?))
  {
    if w.saved.count > 0 {
      var s := ScanSync(w);
      ScanSyncOutcome(w);
      if s.err == Ok {
        var t := StopSta(s.w);
        StopStaOutcome(s.w);
        if t.err == Ok {
          TryCredsOutcome(t.w, Entries(w.saved), 0);
          assert Entries(w.saved)[0..] == Entries(w.saved);
          var r := TryCreds(t.w, Entries(w.saved), 0);
          if r.err == Ok {
            var c := JoinTarget(Available(t.w.scan, Entries(w.saved)), t.w.radio.waits).value;
            assert c in Entries(w.saved) && IsSsidAvailable(r.w.scan, Some(c.ssid)) && JoinedTo(r.w, c);
          }
        }
      }
    }
  }

  /* ---------------------------------------------------------- event effects */

  /** How many reconnect tasks the notices schedule. */
  function Spawns(notes: seq<Notice>): nat
  {
    if notes == [] then 0
    else Spawns(notes[..|notes| - 1]) + (if notes[|notes| - 1] == SpawnReconnect then 1 else 0)
  }

  lemma SpawnsSnoc(notes: seq<Notice>, n: Notice)
    ensures Spawns(notes + [n]) == Spawns(notes) + (if n == SpawnReconnect then 1 else 0)
  {
    assert (notes + [n])[..|notes|] == notes;
  }

  lemma NotifySpawns(w: Wfm, msg: string, st: WifiStatus, update: bool)
    ensures Spawns(Notify(w, msg, st, update).notes) == Spawns(w.notes)
  {
    if w.cbs.onStatus && update { SpawnsSnoc(w.notes, Status(msg, st)); }
  }

  /**
   * STA_DISCONNECTED clears `connected`, records the classified reason, and
   * schedules one reconnect task exactly when auto-reconnect is on and the stop
   * was not requested.
   */
  lemma DisconnectedOutcome(w: Wfm, r: Option<DriverReason>)
    ensures var d := OnStaDisconnected(w, r);
            !d.connected && d.lastDisc == Classify(r) && d.started == w.started &&
            Spawns(d.notes) == Spawns(w.notes) + (if w.autoReconnect && !w.manualStop then 1 else 0)
  {
    var w1 := w.(connected := false, lastDisc := Classify(r));
    NotifySpawns(w1, "Wi-Fi disconnected", StDisconnected, true);
    var w2 := Notify(w1, "Wi-Fi disconnected", StDisconnected, true);
    SpawnsSnoc(w2.notes, SpawnReconnect);
  }

  /**
   * GOT_IP sets `connected` and records the configured network's name and
   * password, each within its field; a missing signal reading is recorded as
   * "N/A" and reported as an unstable connection before the connected status.
   */
  lemma GotIpOutcome(w: Wfm, ip: string, mac: string, rssi: Option<string>)
    ensures var d := OnGotIp(w, ip, mac, rssi);
            d.connected && d.started == w.started &&
            d.info.ssid == Bounded(w.radio.staSsid, SsidMax) && d.info.pass == Bounded(w.radio.staPass, PassMax) &&
            (w.cbs.onStatus ==> LastNotice(d, Status("Wi-Fi connected", StConnected))) &&
            (w.cbs.onStatus && rssi.None? ==>
               d.notes == w.notes + [Status("Wi-Fi unstable connection", StConnected), Status("Wi-Fi connected", StConnected)]) &&
            (!w.cbs.onStatus ==> d.notes == w.notes)
  {
    GotIpFrame(w, ip, mac, rssi);
    var w1 := w.(info := GotIpInfo(w.radio, ip, mac, rssi));
    if rssi.Some? {
      assert OnGotIp(w, ip, mac, rssi) == Notify(w1.(connected := true), "Wi-Fi connected", StConnected, true);
    }
  }

  /* ------------------------------------------------------------- AP mode */

  /** The driver calls `wfm_start_ap` checks. */
  const ApCalls: set<Call> := {ApNetifCreate, WifiInit, SetMode, SetConfig, WifiStart}

  /** The last driver calls made were `ops`. */
  ghost predicate LastOps(w: Wfm, ops: seq<RadioOp>)
  {
    |ops| <= |w.radio.log| && w.radio.log[|w.radio.log| - |ops|..] == ops
  }

  lemma BringUpApSucceeds(w: Wfm, conf: ApConfig)
    requires w.radio.failing !! ApCalls
    ensures BringUpAp(w, conf).err == Ok
  {
    var w3 := Op(Op(w, OpInit), OpSetMode(RadioAp));
    assert !Fails(w3.(radio := w3.radio.(mode := RadioAp)), SetConfig);
  }

  lemma BringUpApOutcome(w: Wfm, conf: ApConfig)
    requires !w.started
    ensures var r := BringUpAp(w, conf);
            r.err == Ok ==> r.w.mode == ModeAp && !r.w.started && r.w.radio.mode == RadioAp &&
                            LastOps(r.w, [OpSetApConfig(conf), OpStart])
  {
    var r := BringUpAp(w, conf);
    if Fails(w, ApNetifCreate) || Fails(w, WifiInit) || Fails(w, SetMode) {
      assert r.err != Ok;
      return;
    }
    var w1 := Op(w, OpInit);
    var w2 := Op(w1, OpSetMode(RadioAp));
    var w3 := w2.(radio := w2.radio.(mode := RadioAp));
    if Fails(w3, SetConfig) || Fails(w3, WifiStart) {
      assert r.err != Ok;
      return;
    }
    var w4 := Op(Op(w3, OpSetApConfig(conf)), OpStart);
    assert RadioStart(Op(w3, OpSetApConfig(conf))) == Step(w4, Ok);
    var w5 := Notify(w4.(mode := ModeAp), "Wi-Fi setup server started", StNone, true);
    assert r.w == w5;
    assert w5.radio == w4.radio;
    assert w4.radio.log[|w4.radio.log| - 2..] == [OpSetApConfig(conf), OpStart];
  }

  /**
   * `wfm_start_ap`: a NULL name changes nothing; otherwise, without driver
   * errors, the driver ends in access point mode configured as ApConf states
   * (name and password cut to their fields, channel 6, at most four stations,
   * open exactly when the password is NULL or empty). The station is then stopped.
   */
  lemma StartApOutcome(w: Wfm, ssid: Option<CString>, pass: Option<CString>)
    ensures var r := StartAp(w, ssid, pass);
            (ssid.None? ==> r == Step(w, InvalidArg)) &&
            (ssid.Some? && w.radio.failing !! ApCalls ==> r.err == Ok) &&
            (r.err == Ok ==>
               ssid.Some? && r.w.mode == ModeAp && !r.w.started && r.w.radio.mode == RadioAp &&
               LastOps(r.w, [OpSetApConfig(ApConf(ssid.value, pass)), OpStart]))
  {
    if ssid.Some? {
      var w1 := RadioDeinit(RadioStop(w));
      QuietRadioStop(w);
      BringUpApOutcome(w1, ApConf(ssid.value, pass));
      if w.radio.failing !! ApCalls { BringUpApSucceeds(w1, ApConf(ssid.value, pass)); }
    }
  }

  /** As written, `wfm_stop_ap` right after a successful `wfm_start_ap` does nothing: `started` tracks only the station. */
  lemma StopApAfterStartApIsNoOp(w: Wfm, ssid: Option<CString>, pass: Option<CString>)
    requires StartAp(w, ssid, pass).err == Ok
    ensures StopAp(StartAp(w, ssid, pass).w) == Step(StartAp(w, ssid, pass).w, Ok)
  {
    StartApOutcome(w, ssid, pass);
  }

  /** The corrected stop shuts the access point down: mode NONE, driver stopped and released. */
  lemma StopApCorrectedStops(w: Wfm)
    ensures var r := StopApCorrected(w);
            r.err == Ok &&
            (w.mode != ModeAp ==> r.w == w) &&
            (w.mode == ModeAp ==> r.w.mode == ModeNone && !r.w.started && r.w.radio.mode == RadioNull &&
                                  r.w.radio.log == w.radio.log + [OpStop, OpDeinit])
  {
  }

  /** After a successful `wfm_start_ap`, the corrected stop does stop the access point. */
  lemma StopApCorrectedAfterStartAp(w: Wfm, ssid: Option<CString>, pass: Option<CString>)
    requires StartAp(w, ssid, pass).err == Ok
    ensures StopApCorrected(StartAp(w, ssid, pass).w).w.mode == ModeNone
    ensures StopApCorrected(StartAp(w, ssid, pass).w).w.radio.mode == RadioNull
  {
    StartApOutcome(w, ssid, pass);
    StopApCorrectedStops(StartAp(w, ssid, pass).w);
  }

  /**
   * `wfm_full_driver_stop`: the driver ends stopped and released, mode NONE, the
   * link down, `manual_stop` cleared again, the auto-reconnect setting kept, and
   * the disconnect it causes schedules no reconnect task.
   */
  lemma FullDriverStopOutcome(w: Wfm)
    ensures var r := FullDriverStop(w);
            r.err == Ok && r.w.mode == ModeNone && !r.w.manualStop && !r.w.started && !r.w.connected &&
            r.w.radio.mode == RadioNull && r.w.autoReconnect == w.autoReconnect &&
            Spawns(r.w.notes) == Spawns(w.notes)
  {
    var w0 := w.(manualStop := true);
    var w1 := RadioDisconnect(w0);
    StopDisconnect(w0);
    var w2 := RadioDeinit(RadioStop(w1));
    assert w2 == w1.(started := false, radio := w2.radio);
    NotifySpawns(w2.(manualStop := false, mode := ModeNone), "Wi-Fi full driver stopped", StDisconnected, true);
  }

  /** The disconnect of a full driver stop, with `manual_stop` set: the link goes down and no reconnect task is scheduled. */
  lemma StopDisconnect(w: Wfm)
    requires w.manualStop
    ensures var d := RadioDisconnect(w);
            !d.connected && d.autoReconnect == w.autoReconnect && Spawns(d.notes) == Spawns(w.notes) &&
            d.mode == w.mode
  {
    if w.connected {
      DisconnectedOutcome(Op(w, OpDisconnect), Some(AssocLeave));
    }
  }

  /* ------------------------------------------------------------- reconnect */

  lemma RoundAttemptFrame(w: Wfm, c: Cred)
    ensures var s := RoundAttempt(w, c);
            SameEnv(w, s.w) && s.w.radio.waits == w.radio.waits && s.w.mode == w.mode &&
            s.w.autoReconnect == w.autoReconnect && s.w.radio.mode == w.radio.mode &&
            s.w.started == w.started && s.w.info == w.info &&
            (s.err == Ok || s.err == DriverError(SetConfig) || s.err == DriverError(WifiConnect)) &&
            (s.err == Ok <==> SetConfig !in w.radio.failing && WifiConnect !in w.radio.failing) &&
            (s.err == Ok ==> s.w.radio.staSsid == Bounded(c.ssid, StaSsidBytes - 1) &&
                             s.w.radio.staPass == Bounded(c.pass, StaPassBytes - 1))
  {
    if !Fails(w, SetConfig) {
      SetStaConfigFrame(w, c.ssid, c.pass);
    }
  }

  /**
   * One reconnect round: it stops at a driver error or at the first available
   * candidate whose wait ends with GOT_IP, and is then joined to that candidate;
   * otherwise the reconnect flag, the mode and the connection info are untouched.
   */
  lemma {:induction false} TryRoundOutcome(w: Wfm, cands: seq<Cred>, i: nat)
    ensures var r := TryRound(w, cands, i);
            SameEnv(w, r.w) && r.w.radio.mode == w.radio.mode && r.w.started == w.started &&
            (r.Joined? ==> exists k :: i <= k < |cands| && IsSsidAvailable(w.scan, Some(cands[k].ssid)) && JoinedTo(r.w, cands[k])) &&
            (!r.Joined? ==> r.w.autoReconnect == w.autoReconnect && r.w.info == w.info && r.w.mode == w.mode) &&
            (r.Aborted? ==> r.err == DriverError(SetConfig) || r.err == DriverError(WifiConnect))
    decreases |cands| - i
  {
    if i >= |cands| {
      return;
    }
    if !IsSsidAvailable(w.scan, Some(cands[i].ssid)) {
      TryRoundOutcome(w, cands, i + 1);
      return;
    }
    var s := RoundAttempt(w, cands[i]);
    RoundAttemptFrame(w, cands[i]);
    if s.err != Ok {
      return;
    }
    var a := AwaitConnection(s.w);
    AwaitFrame(s.w);
    if a.joined {
      BoundedTwice(cands[i].ssid, StaSsidBytes - 1, SsidMax);
      BoundedTwice(cands[i].pass, StaPassBytes - 1, PassMax);
      assert JoinedTo(TryRound(w, cands, i).w, cands[i]);
    } else {
      var w2 := Notify(a.w, "Failed to reconnect", StNone, false);
      TryRoundOutcome(w2, cands, i + 1);
    }
  }

  /** The last connection followed by the saved list: the candidates of every round. */
  function Candidates(w: Wfm): (c: seq<Cred>)
    requires w.saved.count <= |w.saved.creds|
    ensures |c| == w.saved.count + 1 && c[0] == Cred(w.info.ssid, w.info.pass)
    ensures forall k :: 1 <= k < |c| ==> c[k] == w.saved.creds[k - 1]
  {
    ReconnectCandidates(w)
  }

  lemma RoundKeepsInv(w: Wfm)
    requires Inv(w)
    ensures Inv(ReconnectRound(w).w)
  {
    var w0 := Notify(w, "Attempting to reconnect...", StNone, true);
    QuietNotify(w, "Attempting to reconnect...", StNone, true);
    InvCarries(w, w0);
    ScanSyncKeepsInv(w0);
    var s := ScanSync(w0);
    if s.err != Ok {
      InvCarries(s.w, Notify(s.w, "Wi-Fi scan failed during reconnect", StNone, true));
    } else if !Fails(s.w, GetConfig) {
      TryRoundKeepsInv(s.w, ReconnectCandidates(s.w), 0);
    }
  }

  /** One round: a join is to an available candidate; an exhausted round leaves flag, info and saved list as they were. */
  lemma RoundOutcome(w: Wfm)
    requires Inv(w) && !w.autoReconnect
    ensures var r := ReconnectRound(w);
            r.w.saved == w.saved && r.w.cbs == w.cbs && |r.w.radio.scans| + 1 >= |w.radio.scans| &&
            (r.Joined? ==> exists c :: c in Candidates(w) && IsSsidAvailable(r.w.scan, Some(c.ssid)) && JoinedTo(r.w, c)) &&
            (!r.Joined? ==> !r.w.autoReconnect && r.w.info == w.info) &&
            (r.Aborted? ==> r.err != Ok && r.err != Fail)
  {
    var w0 := Notify(w, "Attempting to reconnect...", StNone, true);
    QuietNotify(w, "Attempting to reconnect...", StNone, true);
    var s := ScanSync(w0);
    ScanSyncOutcome(w0);
    ScanSyncKeepsInv(w0);
    if s.err != Ok || Fails(s.w, GetConfig) {
      return;
    }
    var cands := ReconnectCandidates(s.w);
    assert cands == Candidates(w);
    TryRoundOutcome(s.w, cands, 0);
    var r := TryRound(s.w, cands, 0);
    if r.Joined? {
      var k :| 0 <= k < |cands| && IsSsidAvailable(s.w.scan, Some(cands[k].ssid)) && JoinedTo(r.w, cands[k]);
      assert cands[k] in Candidates(w);
    }
  }

  lemma {:induction false} RoundsKeepInv(w: Wfm, attempt: nat)
    requires Inv(w) && !w.autoReconnect && attempt <= MaxReconnectAttempts
    ensures var r := ReconnectRounds(w, attempt);
            Inv(r.w) && r.w.saved == w.saved && r.w.cbs == w.cbs
    decreases MaxReconnectAttempts - attempt
  {
    if attempt >= MaxReconnectAttempts {
      GiveUpOutcome(w, attempt);
      return;
    }
    var next := RoundsNext(w, attempt);
    if next.None? {
      return;
    }
    var r := ReconnectRounds(w, attempt);
    var w2 := next.value;
    RoundsKeepInv(w2, attempt + 1);
    assert r == ReconnectRounds(w2, attempt + 1);
  }

  /** A round takes at most one scan and keeps the saved list and the callbacks. */
  lemma RoundScans(w: Wfm)
    requires Inv(w)
    ensures var r := ReconnectRound(w);
            r.w.saved == w.saved && r.w.cbs == w.cbs && |r.w.radio.scans| + 1 >= |w.radio.scans|
  {
    var w0 := Notify(w, "Attempting to reconnect...", StNone, true);
    QuietNotify(w, "Attempting to reconnect...", StNone, true);
    ScanSyncOutcome(w0);
    CollectScanFrame(w0);
    var s := ScanSync(w0);
    ScanSyncKeepsInv(w0);
    if s.err == Ok && !Fails(s.w, GetConfig) {
      TryRoundOutcome(s.w, ReconnectCandidates(s.w), 0);
    }
  }

  lemma {:induction false} RoundsJoin(w: Wfm, attempt: nat)
    requires Inv(w) && !w.autoReconnect && attempt <= MaxReconnectAttempts
    ensures var r := ReconnectRounds(w, attempt);
            r.err == Ok ==> exists c :: c in Candidates(w) && IsSsidAvailable(r.w.scan, Some(c.ssid)) && JoinedTo(r.w, c)
    decreases MaxReconnectAttempts - attempt
  {
    if attempt >= MaxReconnectAttempts {
      return;
    }
    var next := RoundsNext(w, attempt);
    if next.None? {
      return;
    }
    var r := ReconnectRounds(w, attempt);
    var w2 := next.value;
    assert Candidates(w2) == Candidates(w);
    RoundsJoin(w2, attempt + 1);
    assert r == ReconnectRounds(w2, attempt + 1);
  }

  /** What a round that finds no network leaves for the next one: the invariant, the saved list, the callbacks, the flag off and the last connection. */
  ghost predicate RoundGoesOn(w: Wfm, w2: Wfm)
  {
    Inv(w2) && w2.saved == w.saved && w2.cbs == w.cbs && !w2.autoReconnect && w2.info == w.info
  }

  /**
   * Round `attempt` either finds no network and leaves the rest to the next
   * round, or ends the rounds: with a join to an available candidate, or with
   * the driver's error and auto-reconnect still off.
   */
  lemma RoundsNext(w: Wfm, attempt: nat) returns (next: Option<Wfm>)
    requires Inv(w) && !w.autoReconnect && attempt < MaxReconnectAttempts
    ensures var r := ReconnectRounds(w, attempt);
            next.Some? ==> RoundGoesOn(w, next.value) && r == ReconnectRounds(next.value, attempt + 1)
    ensures var r := ReconnectRounds(w, attempt);
            next.None? ==>
              Inv(r.w) && r.w.saved == w.saved && r.w.cbs == w.cbs && r.err != Fail &&
              (r.err == Ok ==> exists c :: c in Candidates(w) && IsSsidAvailable(r.w.scan, Some(c.ssid)) && JoinedTo(r.w, c)) &&
              (r.err != Ok ==> !r.w.autoReconnect)
  {
    var rd := ReconnectRound(w);
    RoundsUnfold(w, attempt);
    RoundOutcome(w);
    next := if rd.Exhausted? then Some(rd.w) else None;
  }

  /** A round that joins a network joins one of the candidates the scan saw; one that does not leaves the candidates as they were. */
  lemma RoundJoined(w: Wfm)
    requires Inv(w) && !w.autoReconnect
    ensures var rd := ReconnectRound(w);
            (rd.Joined? ==> exists c :: c in Candidates(w) && IsSsidAvailable(rd.w.scan, Some(c.ssid)) && JoinedTo(rd.w, c)) &&
            (rd.Exhausted? ==> !rd.w.autoReconnect && rd.w.saved == w.saved && Candidates(rd.w) == Candidates(w)) &&
            (rd.Aborted? ==> rd.err != Ok)
  {
    RoundOutcome(w);
  }

  /** After the last round `wfm_reconnect` gives up: ESP_FAIL, auto-reconnect on again, the failure reported. */
  lemma GiveUpOutcome(w: Wfm, attempt: nat)
    requires Inv(w) && attempt >= MaxReconnectAttempts
    ensures var r := ReconnectRounds(w, attempt);
            Inv(r.w) && r.w.saved == w.saved && r.w.cbs == w.cbs && r.w.radio.scans == w.radio.scans &&
            r.err == Fail && r.w.autoReconnect &&
            (w.cbs.onStatus ==> LastNotice(r.w, Status("Auto-reconnect failed after all attempts", StNone)))
  {
    var w1 := Notify(w, "Auto-reconnect failed after all attempts", StNone, true);
    InvCarries(w, w1.(autoReconnect := true));
  }

  /** One round of `wfm_reconnect` before the last: a join or a driver error ends the loop, an exhausted round goes on. */
  lemma RoundsUnfold(w: Wfm, attempt: nat)
    requires Inv(w) && attempt < MaxReconnectAttempts
    ensures var rd := ReconnectRound(w);
            var r := ReconnectRounds(w, attempt);
            Inv(rd.w) &&
            (rd.Joined? ==> r == Step(rd.w, Ok)) &&
            (rd.Aborted? ==> r == Step(rd.w, rd.err)) &&
            (rd.Exhausted? ==> r == ReconnectRounds(rd.w, attempt + 1))
  {
    assert ReconnectRounds(w, attempt) == RoundsFrom(w, attempt);
    RoundKeepsInv(w);
  }

  lemma {:induction false} RoundsGiveUp(w: Wfm, attempt: nat)
    requires Inv(w) && !w.autoReconnect && attempt <= MaxReconnectAttempts
    ensures var r := ReconnectRounds(w, attempt);
            (r.err == Fail ==> r.w.autoReconnect) &&
            (r.err != Ok && r.err != Fail ==> !r.w.autoReconnect)
    decreases MaxReconnectAttempts - attempt
  {
    if attempt >= MaxReconnectAttempts {
      GiveUpOutcome(w, attempt);
      return;
    }
    var next := RoundsNext(w, attempt);
    if next.None? {
      return;
    }
    var r := ReconnectRounds(w, attempt);
    var w2 := next.value;
    RoundsGiveUp(w2, attempt + 1);
    assert r == ReconnectRounds(w2, attempt + 1);
  }

  /**
   * `wfm_reconnect`: at most five rounds. On success it is
   * joined to the last connection or a saved network that the round's scan
   * lists; after five failed rounds it re-enables auto-reconnect (GiveUpOutcome:
   * and reports the failure); on a driver error auto-reconnect stays off.
   */
  lemma ReconnectOutcome(w: Wfm)
    requires Inv(w)
    ensures var r := Reconnect(w);
            Inv(r.w) && r.w.saved == w.saved &&
            (r.err == Ok ==> exists c :: c in Candidates(w) && IsSsidAvailable(r.w.scan, Some(c.ssid)) && JoinedTo(r.w, c)) &&
            (r.err == Fail ==> r.w.autoReconnect) &&
            (r.err != Ok && r.err != Fail ==> !r.w.autoReconnect)
  {
    var w0 := Notify(w.(autoReconnect := false), "Auto-reconnect in progress", StNone, true);
    InvCarries(w, w0);
    RoundsJoin(w0, 0);
    RoundsGiveUp(w0, 0);
    RoundsKeepInv(w0, 0);
    assert Candidates(w0) == Candidates(w);
  }

  /* --------------------------------------------------------- network switch */

  /** `wfm_change_network` checks its arguments before touching anything. */
  lemma ChangeNetworkRejects(w: Wfm, ssid: Option<CString>, pass: Option<CString>)
    requires Inv(w) && (ssid.None? || pass.None?)
    ensures ChangeNetwork(w, ssid, pass) == Switched(w, InvalidArg, None)
  {
  }

  /** An early driver error returns it with nothing written through `out_reason` and auto-reconnect left off. */
  lemma ChangeNetworkDriverError(w: Wfm, ssid: Option<CString>, pass: Option<CString>)
    requires Inv(w)
    ensures var r := ChangeNetwork(w, ssid, pass);
            r.err != Ok && r.err != Fail && r.err != InvalidArg ==>
              r.reason.None? && !r.w.autoReconnect &&
              r.err in {DriverError(GetConfig), DriverError(SetConfig), DriverError(WifiConnect)}
  {
  }

  /** A switch that connects returns OK with reason NONE, auto-reconnect back on, and the new network's credentials in `info`. */
  lemma ChangeNetworkJoins(w: Wfm, ssid: Option<CString>, pass: Option<CString>)
    requires Inv(w)
    ensures var r := ChangeNetwork(w, ssid, pass);
            r.err == Ok ==>
              ssid.Some? && pass.Some? &&
              r.reason == Some(DiscNone) && r.w.autoReconnect && r.w.connected &&
              r.w.info.ssid == Bounded(ssid.value, StaSsidBytes - 1) &&
              r.w.info.pass == Bounded(pass.value, StaPassBytes - 1)
  {
    if ssid.None? || pass.None? {
      return;
    }
    var w1 := w.(autoReconnect := false);
    if Fails(w1, GetConfig) {
      return;
    }
    var w2 := RadioDisconnect(w1);
    QuietRadioDisconnect(w1);
    if Fails(w2, SetConfig) {
      return;
    }
    var w3 := SetStaConfig(w2, ssid.value, pass.value);
    SetStaConfigFrame(w2, ssid.value, pass.value);
    if Fails(w3, WifiConnect) {
      return;
    }
    var w4 := Op(w3, OpConnect);
    QuietOp(w3, OpConnect);
    AwaitFrame(w4);
    BoundedTwice(ssid.value, StaSsidBytes - 1, SsidMax);
    BoundedTwice(pass.value, StaPassBytes - 1, PassMax);
  }

  /** A switch that does not connect returns FAIL with auto-reconnect back on and the reason read after the fallback wait. */
  lemma ChangeNetworkFails(w: Wfm, ssid: Option<CString>, pass: Option<CString>)
    requires Inv(w)
    ensures var r := ChangeNetwork(w, ssid, pass);
            r.err == Fail ==> r.reason.Some? && r.w.autoReconnect
  {
  }

  /**
   * When the new network drops the link and the fallback wait sees no further
   * disconnect, the reason written through `out_reason` is the new network's
   * disconnect reason, classified.
   */
  lemma ChangeNetworkReason(w: Wfm, ssid: CString, pass: CString, d: Option<DriverReason>)
    requires Inv(w) && w.radio.failing == {}
    requires |w.radio.waits| >= 2 && w.radio.waits[0] == Dropped(d) && !w.radio.waits[1].Dropped?
    ensures var r := ChangeNetwork(w, Some(ssid), Some(pass));
            r.err == Fail && r.reason == Some(Classify(d)) && r.w.autoReconnect
  {
    var w1 := w.(autoReconnect := false);
    var w2 := RadioDisconnect(w1);
    QuietRadioDisconnect(w1);
    var w3 := SetStaConfig(w2, ssid, pass);
    SetStaConfigFrame(w2, ssid, pass);
    var w4 := Op(w3, OpConnect);
    QuietOp(w3, OpConnect);
    var a := AwaitConnection(w4);
    AwaitFrame(w4);
    AwaitLastDisc(w4);
    assert !a.joined && a.w.lastDisc == Classify(d);
    var w5 := SetStaConfig(a.w, Field(w.info.ssid, SsidMax + 1), Field(w.info.pass, PassMax + 1));
    SetStaConfigFrame(a.w, Field(w.info.ssid, SsidMax + 1), Field(w.info.pass, PassMax + 1));
    var w6 := Op(w5, OpConnect);
    QuietOp(w5, OpConnect);
    assert w6.lastDisc == Classify(d) && w6.radio.waits == w.radio.waits[1..];
    AwaitLastDisc(w6);
  }

  /**
   * When the new network does not connect but the previous one does, the
   * manager is back on the previous network: its credentials (as the
   * station configuration holds them) are in `info`, and no reconnect round
   * runs.
   */
  lemma ChangeNetworkReverts(w: Wfm, ssid: CString, pass: CString)
    requires Inv(w) && w.radio.failing == {}
    requires |w.radio.waits| >= 2 && !w.radio.waits[0].GotIp? && w.radio.waits[1].GotIp?
    ensures var r := ChangeNetwork(w, Some(ssid), Some(pass));
            r.err == Fail && r.w.connected && r.w.autoReconnect &&
            r.w.info.ssid == Bounded(w.info.ssid, StaSsidBytes - 1) &&
            r.w.info.pass == Bounded(w.info.pass, StaPassBytes - 1) &&
            r.w.radio.scans == w.radio.scans
  {
    var w1 := w.(autoReconnect := false);
    var w2 := RadioDisconnect(w1);
    QuietRadioDisconnect(w1);
    var w3 := SetStaConfig(w2, ssid, pass);
    SetStaConfigFrame(w2, ssid, pass);
    var w4 := Op(w3, OpConnect);
    QuietOp(w3, OpConnect);
    var a := AwaitConnection(w4);
    AwaitFrame(w4);
    assert !a.joined && a.w.info == w.info && a.w.radio.waits == w.radio.waits[1..];
    var ps := Field(w.info.ssid, SsidMax + 1);
    var pp := Field(w.info.pass, PassMax + 1);
    var w5 := SetStaConfig(a.w, ps, pp);
    SetStaConfigFrame(a.w, ps, pp);
    var w6 := Op(w5, OpConnect);
    QuietOp(w5, OpConnect);
    AwaitFrame(w6);
    BoundedShorter(w.info.ssid, SsidMax, StaSsidBytes - 1);
    BoundedShorter(w.info.pass, PassMax, StaPassBytes - 1);
    BoundedTwice(Bounded(w.info.ssid, StaSsidBytes - 1), StaSsidBytes - 1, SsidMax);
    BoundedTwice(Bounded(w.info.pass, StaPassBytes - 1), StaPassBytes - 1, PassMax);
  }

  /* ------------------------------------------------------ set-up and tear-down */

  /** The checked calls of `wfm_init`. */
  const InitCalls := {NetifInit, EventGroupCreate, RegisterWifiEvents, RegisterIpEvents}

  /**
   * `wfm_init` zeroes the context, takes the configuration or the default one,
   * copies the callbacks and the saved list with its count clamped to fifteen,
   * and succeeds exactly when the netif, event group and both handler
   * registrations do; on success the mode is NONE and the status callback hears
   * "Wi-Fi manager initialized".
   */
  lemma InitOutcome(w: Wfm, saved: Option<CredList>, cfg: Option<WfmConfig>, cbs: Option<WfmCallbacks>)
    requires saved.Some? ==> |saved.value.creds| == MaxCreds
    ensures var r := Init(w, saved, cfg, cbs);
            Inv(r.w) && r.w.mode == ModeNone && r.w.scan == [] && r.w.info == EmptyInfo &&
            !r.w.connected && !r.w.started && !r.w.autoReconnect && !r.w.manualStop &&
            r.w.cfg == (if cfg.Some? then cfg.value else DefaultConfig) &&
            r.w.cbs == (if cbs.Some? then cbs.value else WfmCallbacks(false, false)) &&
            (saved.Some? ==> r.w.saved.creds == saved.value.creds && r.w.saved.count == Min(saved.value.count, MaxCreds)) &&
            (saved.None? ==> r.w.saved == EmptyList()) &&
            (r.err == Ok <==> w.radio.failing !! InitCalls) &&
            (NetifInit in w.radio.failing ==> r.err == DriverError(NetifInit) && !r.w.hasEventGroup) &&
            (NetifInit !in w.radio.failing && EventGroupCreate in w.radio.failing ==> r.err == NoMem) &&
            (r.err == Ok && r.w.cbs.onStatus ==> LastNotice(r.w, Status("Wi-Fi manager initialized", StNone)))
  {
  }

  /** `wfm_deinit` leaves the driver stopped and released and the context zeroed. */
  lemma DeinitOutcome(w: Wfm)
    ensures var d := Deinit(w);
            Inv(d) && d.mode == ModeNone && d.scan == [] && d.saved == EmptyList() && d.info == EmptyInfo &&
            !d.connected && !d.started && !d.autoReconnect && !d.hasEventGroup &&
            d.radio.mode == RadioNull && d.notes == RadioStop(w).notes &&
            d.radio.log == w.radio.log + [OpStop, OpDeinit]
  {
  }

  /* ------------------------------------------ every operation keeps Inv */

  lemma StopStaKeepsInv(w: Wfm)
    requires Inv(w)
    ensures Inv(StopSta(w).w)
  {
    var w1 := DisconnectSta(w);
    if w.mode == ModeSta { RadioDisconnectKeepsInv(w); }
    RadioStopKeepsInv(w1);
  }

  lemma {:induction false} TryCredsKeepsInv(w: Wfm, saved: seq<Cred>, i: nat)
    requires Inv(w)
    ensures Inv(TryCreds(w, saved, i).w)
    decreases |saved| - i
  {
    if i < |saved| {
      if !IsSsidAvailable(w.scan, Some(saved[i].ssid)) {
        TryCredsKeepsInv(w, saved, i + 1);
      } else {
        var s := StartAttempt(w, saved[i]);
        StartAttemptFrame(w, saved[i]);
        if !Fails(w, SetConfig) {
          var w1 := SetStaConfig(w, saved[i].ssid, saved[i].pass).(connectOnStart := true, autoReconnect := false);
          SetStaConfigKeepsInv(w, saved[i].ssid, saved[i].pass);
          InvCarries(w, w1);
          RadioStartKeepsInv(w1);
        }
        if s.err == Ok {
          AwaitKeepsInv(s.w);
          var a := AwaitConnection(s.w);
          if a.joined {
            InvCarries(a.w, a.w.(autoReconnect := true, mode := ModeSta));
          } else {
            RadioStopKeepsInv(a.w);
            TryCredsKeepsInv(RadioStop(a.w), saved, i + 1);
          }
        }
      }
    }
  }

  lemma FirstConnectKeepsInv(w: Wfm)
    requires Inv(w)
    ensures Inv(FirstConnect(w).w)
  {
    if w.saved.count > 0 {
      ScanSyncKeepsInv(w);
      var s := ScanSync(w);
      if s.err == Ok {
        StopStaKeepsInv(s.w);
        TryCredsKeepsInv(StopSta(s.w).w, Entries(w.saved), 0);
      }
    }
  }

  lemma StartApKeepsInv(w: Wfm, ssid: Option<CString>, pass: Option<CString>)
    requires Inv(w)
    ensures Inv(StartAp(w, ssid, pass).w)
  {
    if ssid.Some? {
      var w1 := RadioDeinit(RadioStop(w));
      QuietRadioStop(w);
      BringUpApOutcome(w1, ApConf(ssid.value, pass));
      BringUpApKeepsInv(w1, ApConf(ssid.value, pass));
    }
  }

  lemma BringUpApKeepsInv(w: Wfm, conf: ApConfig)
    requires Inv(w) && !w.started
    ensures Inv(BringUpAp(w, conf).w)
  {
    if Fails(w, ApNetifCreate) || Fails(w, WifiInit) {
      return;
    }
    var w1 := Op(w, OpInit);
    if Fails(w1, SetMode) {
      return;
    }
    var w2 := Op(w1, OpSetMode(RadioAp));
    var w3 := w2.(radio := w2.radio.(mode := RadioAp));
    assert Inv(w3) && !w3.started;
    if Fails(w3, SetConfig) {
      return;
    }
    var w4 := Op(w3, OpSetApConfig(conf));
    var s := RadioStart(w4);
    assert Inv(s.w) && !s.w.started by {
      QuietRadioStart(w4);
    }
    if s.err != Ok {
      return;
    }
    NotifyKeepsInv(s.w.(mode := ModeAp), "Wi-Fi setup server started", StNone, true);
  }

  lemma StopApKeepsInv(w: Wfm)
    requires Inv(w)
    ensures Inv(StopAp(w).w) && Inv(StopApCorrected(w).w)
  {
    if w.mode == ModeAp {
      StopApBodyKeepsInv(w);
    }
  }

  lemma StopApBodyKeepsInv(w: Wfm)
    requires Inv(w)
    ensures Inv(StopApBody(w).w)
  {
    RadioStopKeepsInv(w);
    var w1 := RadioDeinit(RadioStop(w)).(mode := ModeNone);
    assert Inv(w1);
    NotifyKeepsInv(w1, "Wi-Fi setup server stopped", StNone, true);
  }

  lemma FullDriverStopKeepsInv(w: Wfm)
    requires Inv(w)
    ensures Inv(FullDriverStop(w).w)
  {
    RadioDisconnectKeepsInv(w.(manualStop := true));
    RadioStopKeepsInv(RadioDisconnect(w.(manualStop := true)));
  }

  lemma FallBackKeepsInv(w: Wfm, prevSsid: CString, prevPass: CString)
    requires Inv(w)
    ensures Inv(FallBack(w, prevSsid, prevPass).w)
  {
    var b := AwaitConnection(Op(SetStaConfig(w, prevSsid, prevPass), OpConnect));
    FallBackWaitKeepsInv(w, prevSsid, prevPass);
    if !b.w.connected {
      ReconnectOutcome(b.w);
      InvCarries(Reconnect(b.w).w, Reconnect(b.w).w.(autoReconnect := true));
    } else {
      InvCarries(b.w, b.w.(autoReconnect := true));
    }
  }

  lemma ChangeNetworkKeepsInv(w: Wfm, ssid: Option<CString>, pass: Option<CString>)
    requires Inv(w)
    ensures Inv(ChangeNetwork(w, ssid, pass).w)
  {
    if ssid.None? || pass.None? {
      return;
    }
    var w1 := w.(autoReconnect := false);
    if Fails(w1, GetConfig) {
      return;
    }
    RadioDisconnectKeepsInv(w1);
    var w2 := RadioDisconnect(w1);
    if Fails(w2, SetConfig) {
      return;
    }
    SetStaConfigKeepsInv(w2, ssid.value, pass.value);
    var w3 := SetStaConfig(w2, ssid.value, pass.value);
    if Fails(w3, WifiConnect) {
      return;
    }
    ChangeKeepsInv(w1, ssid.value, pass.value);
    var a := AwaitConnection(Op(w3, OpConnect));
    if a.joined {
      InvCarries(a.w, a.w.(autoReconnect := true));
    } else {
      FallBackKeepsInv(a.w, Field(w.info.ssid, SsidMax + 1), Field(w.info.pass, PassMax + 1));
    }
  }
}
