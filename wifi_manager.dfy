/**
 * The Wi-Fi manager of main/wifi_manager.c as an object whose fields are those
 * of `wfm_t` (plus the driver it drives). Every method updates the fields in
 * the order the C function does and is proved to leave exactly the state the
 * matching function of WifiModel describes; the properties of the manager are
 * the lemmas proved there about those functions.
 */
module WifiManager {
  import opened Esp
  import opened Util
  import opened NvsMemory
  import opened WifiScan
  import opened WifiModel

  /** The events `wifi_event_handler` reacts to. */
  datatype Event =
    | StaStart | StaStop
    | StaDisconnected(reason: Option<DriverReason>)
    | StaGotIp(ip: string, mac: string, rssi: Option<string>)

  class Manager {
    var mode: Mode
    var lastDisc: DiscReason
    var info: ConnInfo
    var scan: seq<ScanEntry>
    var saved: CredList
    var connected: bool
    var started: bool
    var autoReconnect: bool
    var connectOnStart: bool
    var manualStop: bool
    var cfg: WfmConfig
    var cbs: WfmCallbacks
    var hasEventGroup: bool
    var radio: Radio
    var notes: seq<Notice>

    /** The context as a value. */
    function Snap(): Wfm
      reads this
    {
      Wfm(mode, lastDisc, info, scan, saved, connected, started, autoReconnect, connectOnStart,
          manualStop, cfg, cbs, hasEventGroup, radio, notes)
    }

    ghost predicate Valid()
      reads this
    {
      Inv(Snap())
    }

    /** A context as `memset` leaves it, beside a driver in state `r`. */
    constructor (r: Radio)
      ensures Snap() == Zero(Snap()) && radio == r && notes == []
      ensures Valid()
    {
      mode, lastDisc, info, scan, saved := ModeNone, DiscNone, EmptyInfo, [], EmptyList();
      connected, started, autoReconnect, connectOnStart, manualStop := false, false, false, false, false;
      cfg, cbs, hasEventGroup := ZeroConfig, WfmCallbacks(false, false), false;
      radio, notes := r, [];
    }

    /* ---------------------------------------------------------- primitives */

    method Op(op: RadioOp)
      modifies this
      ensures Snap() == WifiModel.Op(old(Snap()), op)
    {
      radio := radio.(log := radio.log + [op]);
    }

    /** `print_status`. */
    method Notify(msg: string, st: WifiStatus, update: bool)
      modifies this
      ensures Snap() == WifiModel.Notify(old(Snap()), msg, st, update)
    {
      if cbs.onStatus && update {
        notes := notes + [Status(msg, st)];
      }
    }

    /** `convert_AP_list_to_JSON`. */
    method ReportScan()
      modifies this
      ensures Snap() == WifiModel.ReportScan(old(Snap()))
    {
      if cbs.onScanJson {
        notes := notes + [ScanJson(scan)];
      }
    }

    /* ------------------------------------------------------- event handler */

    method OnStaStart()
      modifies this
      ensures Snap() == WifiModel.OnStaStart(old(Snap()))
    {
      started := true;
      if connectOnStart {
        Notify("Wi-Fi started, connecting...", StConnecting, true);
        Op(OpConnect);
      }
    }

    method OnStaStop()
      modifies this
      ensures Snap() == WifiModel.OnStaStop(old(Snap()))
    {
      started := false;
    }

    method OnStaDisconnected(r: Option<DriverReason>)
      modifies this
      ensures Snap() == WifiModel.OnStaDisconnected(old(Snap()), r)
    {
      ghost var w0 := Snap();
      connected := false;
      lastDisc := Classify(r);
      assert Snap() == w0.(connected := false, lastDisc := Classify(r));
      Notify("Wi-Fi disconnected", StDisconnected, true);
      ghost var w1 := Snap();
      if autoReconnect && !manualStop {
        notes := notes + [SpawnReconnect];
        assert Snap() == w1.(notes := w1.notes + [SpawnReconnect]);
      }
    }

    method OnGotIp(ip: string, mac: string, rssi: Option<string>)
      modifies this
      ensures Snap() == WifiModel.OnGotIp(old(Snap()), ip, mac, rssi)
    {
      info := GotIpInfo(radio, ip, mac, rssi);
      if rssi.None? {
        Notify("Wi-Fi unstable connection", StConnected, true);
      }
      connected := true;
      Notify("Wi-Fi connected", StConnected, true);
    }

    /** `wifi_event_handler`. */
    method HandleEvent(e: Event)
      modifies this
      ensures e == StaStart ==> Snap() == WifiModel.OnStaStart(old(Snap()))
      ensures e == StaStop ==> Snap() == WifiModel.OnStaStop(old(Snap()))
      ensures e.StaDisconnected? ==> Snap() == WifiModel.OnStaDisconnected(old(Snap()), e.reason)
      ensures e.StaGotIp? ==> Snap() == WifiModel.OnGotIp(old(Snap()), e.ip, e.mac, e.rssi)
    {
      match e
      case StaStart => OnStaStart();
      case StaStop => OnStaStop();
      case StaDisconnected(r) => OnStaDisconnected(r);
      case StaGotIp(ip, mac, rssi) => OnGotIp(ip, mac, rssi);
    }

    /* -------------------------------------------------------- driver calls */

    method RadioStart() returns (err: Err)
      modifies this
      ensures Snap() == WifiModel.RadioStart(old(Snap())).w && err == WifiModel.RadioStart(old(Snap())).err
    {
      if WifiStart in radio.failing {
        return DriverError(WifiStart);
      }
      var fires := radio.mode == RadioSta && !started;
      Op(OpStart);
      if fires {
        OnStaStart();
      }
      return Ok;
    }

    method RadioStop()
      modifies this
      ensures Snap() == WifiModel.RadioStop(old(Snap()))
    {
      var fires := started;
      Op(OpStop);
      if fires {
        OnStaStop();
      }
    }

    method RadioDeinit()
      modifies this
      ensures Snap() == WifiModel.RadioDeinit(old(Snap()))
    {
      Op(OpDeinit);
      radio := radio.(mode := RadioNull);
    }

    method RadioDisconnect()
      modifies this
      ensures Snap() == WifiModel.RadioDisconnect(old(Snap()))
    {
      var fires := connected;
      Op(OpDisconnect);
      if fires {
        OnStaDisconnected(Some(AssocLeave));
      }
    }

    method SetStaConfig(ssid: CString, pass: CString)
      modifies this
      ensures Snap() == WifiModel.SetStaConfig(old(Snap()), ssid, pass)
    {
      var s := Field(ssid, StaSsidBytes);
      var p := Field(pass, StaPassBytes);
      radio := radio.(staSsid := s, staPass := p);
      Op(OpSetStaConfig(s, p));
    }

    /** `xEventGroupWaitBits` on CONNECTED or FAIL. */
    method AwaitConnection() returns (joined: bool)
      modifies this
      ensures Snap() == WifiModel.AwaitConnection(old(Snap())).w
      ensures joined == WifiModel.AwaitConnection(old(Snap())).joined
    {
      if |radio.waits| == 0 {
        return false;
      }
      var o := radio.waits[0];
      radio := radio.(waits := radio.waits[1..]);
      match o {
        case GotIp(ip, mac, rssi) => OnGotIp(ip, mac, rssi);
        case Dropped(r) => OnStaDisconnected(r);
        case TimedOut =>
      }
      joined := o.GotIp?;
    }

    /* ---------------------------------------------------------------- scan */

    /** `is_ssid_available`: a linear search of the last scan list. */
    method IsSsidAvailable(ssid: Option<string>) returns (b: bool)
      ensures b == WifiScan.IsSsidAvailable(scan, ssid)
    {
      if ssid.None? {
        return false;
      }
      var i := 0;
      while i < |scan|
        invariant 0 <= i <= |scan|
        invariant forall j :: 0 <= j < i ==> scan[j].ssid != ssid.value
      {
        if scan[i].ssid == ssid.value {
          return true;
        }
        i := i + 1;
      }
      return false;
    }

    /** The inner search of the de-duplication loop: the index of `ssid` in the list, or -1. */
    method FindScanEntry(ssid: string) returns (found: int)
      ensures found == -1 <==> FindEntry(scan, ssid).None?
      ensures found != -1 ==> FindEntry(scan, ssid) == Some(found)
    {
      var k := 0;
      while k < |scan|
        invariant 0 <= k <= |scan|
        invariant forall j :: 0 <= j < k ==> scan[j].ssid != ssid
      {
        if scan[k].ssid == ssid {
          FindEntryUnique(scan, ssid, k);
          return k;
        }
        k := k + 1;
      }
      return -1;
    }

    /** One turn of the de-duplication loop. */
    method AddRecordToScan(r: ApRecord)
      requires |scan| < ScanMax
      modifies this
      ensures Snap() == old(Snap()).(scan := AddRecord(old(scan), r))
    {
      if r.ssid == "" {
        return;
      }
      var found := FindScanEntry(r.ssid);
      if found < 0 {
        scan := scan + [ScanEntry(r.ssid, r.rssi)];
      } else if r.rssi > scan[found].rssi {
        scan := scan[found := ScanEntry(scan[found].ssid, r.rssi)];
      }
    }

    /** The de-duplication loop of `wfm_scan_sync`. */
    method BuildScanList(recs: seq<ApRecord>)
      modifies this
      ensures Snap() == old(Snap()).(scan := Dedup(recs))
    {
      scan := [];
      var i := 0;
      while i < |recs| && |scan| < ScanMax
        invariant 0 <= i <= |recs|
        invariant scan == Dedup(recs[..i])
        invariant Snap() == old(Snap()).(scan := scan)
      {
        AddRecordToScan(recs[i]);
        assert recs[..i + 1] == recs[..i] + [recs[i]];
        DedupSnoc(recs[..i], recs[i]);
        i := i + 1;
      }
      if i < |recs| {
        DedupSaturated(recs, i);
      }
      assert recs[..|recs|] == recs;
    }

    /** The start-up part of `wfm_scan_sync`. */
    method StartForScan() returns (err: Err)
      modifies this
      ensures Snap() == WifiModel.StartForScan(old(Snap())).w && err == WifiModel.StartForScan(old(Snap())).err
    {
      if StaNetifCreate in radio.failing {
        return DriverError(StaNetifCreate);
      }
      if WifiInit in radio.failing {
        return DriverError(WifiInit);
      }
      Op(OpInit);
      if SetMode in radio.failing {
        return DriverError(SetMode);
      }
      Op(OpSetMode(RadioSta));
      radio := radio.(mode := RadioSta);
      connectOnStart := false;
      err := RadioStart();
    }

    /** The blocking scan of `wfm_scan_sync` and the list it builds. */
    method CollectScan() returns (err: Err)
      modifies this
      ensures Snap() == WifiModel.CollectScan(old(Snap())).w && err == WifiModel.CollectScan(old(Snap())).err
    {
      if ScanStart in radio.failing {
        return DriverError(ScanStart);
      }
      Op(OpScan(cfg.scanChannel, cfg.allowHidden, cfg.scanActiveMinMs, cfg.scanActiveMaxMs));
      var recs := ScanRecords(radio);
      radio := PopScan(radio);
      if GetApNum in radio.failing {
        return DriverError(GetApNum);
      }
      if |recs| == 0 {
        scan := [];
        ReportScan();
        return Ok;
      }
      if RecordsAlloc in radio.failing {
        return NoMem;
      }
      if GetApRecords in radio.failing {
        return DriverError(GetApRecords);
      }
      BuildScanList(recs);
      ReportScan();
      return Ok;
    }

    /** `wfm_scan_sync`. */
    method ScanSync() returns (err: Err)
      modifies this
      ensures Snap() == WifiModel.ScanSync(old(Snap())).w && err == WifiModel.ScanSync(old(Snap())).err
    {
      if !started {
        err := StartForScan();
        if err != Ok {
          return;
        }
      }
      err := CollectScan();
    }
  
    /* ------------------------------------------------------ station control */

    /** `wfm_disconnect_sta`. */
    method DisconnectSta()
      modifies this
      ensures Snap() == WifiModel.DisconnectSta(old(Snap()))
    {
      if mode == ModeSta {
        RadioDisconnect();
      }
    }

    /** `wfm_stop_sta`. */
    method StopSta() returns (err: Err)
      modifies this
      ensures Snap() == WifiModel.StopSta(old(Snap())).w && err == WifiModel.StopSta(old(Snap())).err
    {
      DisconnectSta();
      if WifiStop in radio.failing {
        return DriverError(WifiStop);
      }
      var wasStarted := started;
      RadioStop();
      err := if wasStarted then Ok else Fail;
    }

    /* --------------------------------------------------------- first connect */

    /** A join ends the search: back to auto-reconnect, in station mode. */
    method MarkJoined()
      modifies this
      ensures Snap() == old(Snap()).(autoReconnect := true, mode := ModeSta)
    {
      autoReconnect := true;
      mode := ModeSta;
    }

    /** One attempt of `wfm_first_connect`: configure the station for `c`, then start it. */
    method StartAttempt(c: Cred) returns (err: Err)
      modifies this
      ensures Snap() == WifiModel.StartAttempt(old(Snap()), c).w && err == WifiModel.StartAttempt(old(Snap()), c).err
    {
      if SetConfig in radio.failing {
        return DriverError(SetConfig);
      }
      SetStaConfig(c.ssid, c.pass);
      connectOnStart := true;
      autoReconnect := false;
      err := RadioStart();
    }

    /** The candidate loop of `wfm_first_connect`: the saved networks in stored order. */
    method TryCreds() returns (err: Err)
      requires saved.count <= |saved.creds|
      modifies this
      ensures var r := WifiModel.TryCreds(old(Snap()), Entries(old(saved)), 0);
              Snap() == r.w && err == r.err
    {
      ghost var w0 := Snap();
      ghost var entries := Entries(saved);
      var i := 0;
      while i < saved.count
        invariant 0 <= i <= saved.count
        invariant saved == w0.saved
        invariant WifiModel.TryCreds(Snap(), entries, i) == WifiModel.TryCreds(w0, entries, 0)
      {
        ghost var wi := Snap();
        var c := saved.creds[i];
        assert c == entries[i];
        var avail := IsSsidAvailable(Some(c.ssid));
        if !avail {
          i := i + 1;
          continue;
        }
        StartAttemptFrame(wi, c);
        err := StartAttempt(c);
        if err != Ok {
          return;
        }
        ghost var ws := Snap();
        AwaitFrame(ws);
        var joined := AwaitConnection();
        if joined {
          MarkJoined();
          assert WifiModel.TryCreds(wi, entries, i) == Step(Snap(), Ok);
          return Ok;
        }
        ghost var wa := Snap();
        QuietRadioStop(wa);
        RadioStop();
        assert WifiModel.TryCreds(wi, entries, i) == WifiModel.TryCreds(Snap(), entries, i + 1);
        i := i + 1;
      }
      return Fail;
    }

    /** `wfm_first_connect`. */
    method FirstConnect() returns (err: Err)
      requires Valid()
      modifies this
      ensures Snap() == WifiModel.FirstConnect(old(Snap())).w && err == WifiModel.FirstConnect(old(Snap())).err
      ensures Valid()
    {
      ghost var w0 := Snap();
      FirstConnectKeepsInv(w0);
      if saved.count == 0 {
        return Fail;
      }
      ScanSyncOutcome(w0);
      err := ScanSync();
      if err != Ok {
        return;
      }
      StopStaOutcome(Snap());
      err := StopSta();
      if err != Ok {
        return;
      }
      err := TryCreds();
    }

    /* ------------------------------------------------------------ reconnect */

    /** One attempt of a reconnect round: configure the station for `c` and connect. */
    method RoundAttempt(c: Cred) returns (err: Err)
      modifies this
      ensures Snap() == WifiModel.RoundAttempt(old(Snap()), c).w && err == WifiModel.RoundAttempt(old(Snap()), c).err
    {
      if SetConfig in radio.failing {
        return DriverError(SetConfig);
      }
      SetStaConfig(c.ssid, c.pass);
      if WifiConnect in radio.failing {
        return DriverError(WifiConnect);
      }
      Op(OpConnect);
      return Ok;
    }

    /** The candidate loop of a reconnect round: the last connection, then the saved networks in stored order. */
    method TryRound() returns (ended: bool, err: Err)
      requires saved.count <= |saved.creds|
      modifies this
      ensures RoundReported(WifiModel.TryRound(old(Snap()), ReconnectCandidates(old(Snap())), 0), Snap(), ended, err)
    {
      ghost var cands := ReconnectCandidates(Snap());
      ghost var target := WifiModel.TryRound(Snap(), cands, 0);
      TriesFrom(Snap(), cands, 0);
      ended, err := TryCandidates(cands, target);
    }

    /**
     * The loop over the candidates: the last connection (`i == -1`), then the
     * saved networks. `ended` is false when every candidate was tried without joining.
     */
    method TryCandidates(ghost cands: seq<Cred>, ghost target: Round) returns (ended: bool, err: Err)
      requires saved.count <= |saved.creds| && cands == ReconnectCandidates(Snap())
      requires Tries(Snap(), cands, 0, target)
      modifies this
      ensures RoundReported(target, Snap(), ended, err)
    {
      var first := Cred(info.ssid, info.pass);
      ghost var creds := saved;
      var i: int := -1;
      while i < saved.count
        invariant -1 <= i <= saved.count && saved == creds && cands == [first] + Entries(creds)
        invariant Tries(Snap(), cands, i + 1, target)
      {
        var c := if i == -1 then first else saved.creds[i];
        assert c == cands[i + 1];
        ended, err := TryCandidate(c, i + 1, i + 2, cands, target);
        if ended {
          return;
        }
        i := i + 1;
      }
      TriesExhausted(Snap(), cands, i + 1, target);
      return false, Fail;
    }

    /** Candidate `k` of the loop: skipped when not in the scan list, otherwise configured and awaited. */
    method TryCandidate(c: Cred, k: nat, later: nat, ghost cands: seq<Cred>, ghost target: Round)
      returns (ended: bool, err: Err)
      requires later == k + 1 && k < |cands| && c == cands[k]
      requires Tries(Snap(), cands, k, target)
      modifies this
      ensures ended ==> RoundReported(target, Snap(), ended, err)
      ensures !ended ==> Tries(Snap(), cands, later, target)
      ensures saved == old(saved)
    {
      ghost var wi := Snap();
      assert WifiModel.Same(wi, Snap());
      var avail := IsSsidAvailable(Some(c.ssid));
      if !avail {
        TriesFrom(wi, cands, later);
        return false, Fail;
      }
      ended, err := AttemptCandidate(c, k, later, cands, target);
    }

    /** Candidate `k`, listed in the scan: configured, connected and awaited. */
    method AttemptCandidate(c: Cred, k: nat, later: nat, ghost cands: seq<Cred>, ghost target: Round)
      returns (ended: bool, err: Err)
      requires later == k + 1 && k < |cands| && c == cands[k]
      requires WifiScan.IsSsidAvailable(scan, Some(c.ssid))
      requires WifiModel.TryRound(Snap(), cands, k) == target
      modifies this
      ensures ended ==> RoundReported(target, Snap(), ended, err)
      ensures !ended ==> Tries(Snap(), cands, later, target)
      ensures saved == old(saved)
    {
      ghost var wi := Snap();
      RoundAttemptFrame(wi, c);
      err := RoundAttempt(c);
      if err != Ok {
        return true, err;
      }
      ghost var ws := Snap();
      AwaitFrame(ws);
      var joined := AwaitConnection();
      if joined {
        MarkJoined();
        Notify("Auto-reconnect succeeded", StNone, false);
        return true, Ok;
      }
      Notify("Failed to reconnect", StNone, false);
      TriesFrom(Snap(), cands, later);
      ended := false;
    }

    /** One round of `wfm_reconnect`: a fresh scan, then the candidate loop. */
    method ReconnectRound() returns (ended: bool, err: Err)
      requires Valid()
      modifies this
      ensures RoundReported(WifiModel.ReconnectRound(old(Snap())), Snap(), ended, err)
    {
      Notify("Attempting to reconnect...", StNone, true);
      ghost var w0 := Snap();
      ScanSyncKeepsInv(w0);
      err := ScanSync();
      if err != Ok {
        Notify("Wi-Fi scan failed during reconnect", StNone, true);
        return true, err;
      }
      if GetConfig in radio.failing {
        return true, DriverError(GetConfig);
      }
      ended, err := TryRound();
    }

    /** `wfm_reconnect`. */
    method Reconnect() returns (err: Err)
      requires Valid()
      modifies this
      ensures Snap() == WifiModel.Reconnect(old(Snap())).w && err == WifiModel.Reconnect(old(Snap())).err
      ensures Valid()
    {
      ghost var w := Snap();
      autoReconnect := false;
      Notify("Auto-reconnect in progress", StNone, true);
      ReconnectStart(w, Snap());
      err := ReconnectRounds(WifiModel.Reconnect(w));
    }

    /** The round loop of `wfm_reconnect`: at most five rounds, ending as the rounds of the model end. */
    method ReconnectRounds(ghost target: Step) returns (err: Err)
      requires Leads(Snap(), 0, target)
      modifies this
      ensures Step(Snap(), err) == target
    {
      var attempt := 0;
      while attempt < MaxReconnectAttempts
        invariant attempt <= MaxReconnectAttempts && Leads(Snap(), attempt, target)
      {
        var ended;
        ended, err := RoundStep(attempt, target);
        if ended {
          return;
        }
        attempt := attempt + 1;
      }
      err := GiveUp(attempt, target);
    }

    /** Round `attempt` of the loop of `wfm_reconnect`: it ends the rounds or leaves the state the next round starts in. */
    method RoundStep(attempt: nat, ghost target: Step) returns (ended: bool, err: Err)
      requires attempt < MaxReconnectAttempts && Leads(Snap(), attempt, target)
      modifies this
      ensures ended ==> Step(Snap(), err) == target
      ensures !ended ==> Leads(Snap(), attempt + 1, target)
    {
      ghost var w := Snap();
      assert WifiModel.Same(w, Snap());
      ended, err := ReconnectRound();
      RoundEnds(w, attempt, attempt + 1, target, Snap(), ended, err);
    }

    /** The end of `wfm_reconnect` after the last round. */
    method GiveUp(attempt: nat, ghost target: Step) returns (err: Err)
      requires attempt >= MaxReconnectAttempts && Leads(Snap(), attempt, target)
      modifies this
      ensures Step(Snap(), err) == target
    {
      assert WifiModel.Same(Snap(), Snap());
      Notify("Auto-reconnect failed after all attempts", StNone, true);
      autoReconnect := true;
      err := Fail;
    }

    /* --------------------------------------------------- access point mode */

    /** `wfm_start_ap`: release the station, then bring the access point up. */
    method StartAp(ssid: Option<CString>, pass: Option<CString>) returns (err: Err)
      requires Valid()
      modifies this
      ensures Snap() == WifiModel.StartAp(old(Snap()), ssid, pass).w && err == WifiModel.StartAp(old(Snap()), ssid, pass).err
      ensures Valid()
    {
      StartApKeepsInv(Snap(), ssid, pass);
      if ssid.None? {
        return InvalidArg;
      }
      RadioStop();
      RadioDeinit();
      err := BringUpAp(ApConf(ssid.value, pass));
    }

    /** The driver set-up of `wfm_start_ap`. */
    method BringUpAp(conf: ApConfig) returns (err: Err)
      modifies this
      ensures Snap() == WifiModel.BringUpAp(old(Snap()), conf).w && err == WifiModel.BringUpAp(old(Snap()), conf).err
    {
      if ApNetifCreate in radio.failing {
        return DriverError(ApNetifCreate);
      }
      if WifiInit in radio.failing {
        return DriverError(WifiInit);
      }
      Op(OpInit);
      if SetMode in radio.failing {
        return DriverError(SetMode);
      }
      Op(OpSetMode(RadioAp));
      radio := radio.(mode := RadioAp);
      if SetConfig in radio.failing {
        return DriverError(SetConfig);
      }
      Op(OpSetApConfig(conf));
      err := RadioStart();
      if err != Ok {
        return;
      }
      mode := ModeAp;
      Notify("Wi-Fi setup server started", StNone, true);
    }

    /**
     * `wfm_stop_ap` as written: nothing happens unless the station-start
     * event marked the driver started and the mode is the access point.
     */
    method StopAp() returns (err: Err)
      requires Valid()
      modifies this
      ensures Snap() == WifiModel.StopAp(old(Snap())).w && err == WifiModel.StopAp(old(Snap())).err
      ensures Valid()
    {
      StopApKeepsInv(Snap());
      if !started || mode != ModeAp {
        return Ok;
      }
      RadioStop();
      RadioDeinit();
      mode := ModeNone;
      Notify("Wi-Fi setup server stopped", StNone, true);
      return Ok;
    }

    /** `wfm_full_driver_stop`. */
    method FullDriverStop() returns (err: Err)
      requires Valid()
      modifies this
      ensures Snap() == WifiModel.FullDriverStop(old(Snap())).w && err == Ok
      ensures Valid()
    {
      FullDriverStopKeepsInv(Snap());
      err := Halt();
    }

    /** The body of `wfm_full_driver_stop`. */
    method Halt() returns (err: Err)
      modifies this
      ensures Snap() == WifiModel.FullDriverStop(old(Snap())).w && err == Ok
    {
      manualStop := true;
      RadioDisconnect();
      Release();
      Stopped();
      return Ok;
    }

    /** The end of `wfm_full_driver_stop`: the flags reset and the status reported. */
    method Stopped()
      modifies this
      ensures Snap() == WifiModel.Notify(old(Snap()).(manualStop := false, mode := ModeNone),
                                         "Wi-Fi full driver stopped", StDisconnected, true)
    {
      manualStop := false;
      mode := ModeNone;
      Notify("Wi-Fi full driver stopped", StDisconnected, true);
    }

    /** `esp_wifi_stop` then `esp_wifi_deinit`. */
    method Release()
      modifies this
      ensures Snap() == WifiModel.RadioDeinit(WifiModel.RadioStop(old(Snap())))
    {
      RadioStop();
      RadioDeinit();
    }

    /* ------------------------------------------------------- network switch */

    /** `wfm_change_network`; `reason` is what it writes through `out_reason`, `None` when it writes nothing. */
    method ChangeNetwork(ssid: Option<CString>, pass: Option<CString>) returns (err: Err, reason: Option<DiscReason>)
      requires Valid()
      modifies this
      ensures var r := WifiModel.ChangeNetwork(old(Snap()), ssid, pass);
              Snap() == r.w && err == r.err && reason == r.reason
      ensures Valid()
    {
      ghost var w0 := Snap();
      ChangeNetworkKeepsInv(w0, ssid, pass);
      if ssid.None? || pass.None? {
        return InvalidArg, None;
      }
      autoReconnect := false;
      var prevSsid := Field(info.ssid, SsidMax + 1);
      var prevPass := Field(info.pass, PassMax + 1);
      err, reason := Switch(ssid.value, pass.value, prevSsid, prevPass);
    }

    /** The switch itself, once auto-reconnect is off and the previous credentials are copied aside. */
    method Switch(ssid: CString, pass: CString, prevSsid: CString, prevPass: CString) returns (err: Err, reason: Option<DiscReason>)
      requires Valid()
      modifies this
      ensures var r := WifiModel.Switch(old(Snap()), ssid, pass, prevSsid, prevPass);
              Snap() == r.w && err == r.err && reason == r.reason
    {
      ghost var w0 := Snap();
      if GetConfig in radio.failing {
        return DriverError(GetConfig), None;
      }
      RadioDisconnect();
      if SetConfig in radio.failing {
        return DriverError(SetConfig), None;
      }
      SetStaConfig(ssid, pass);
      if WifiConnect in radio.failing {
        return DriverError(WifiConnect), None;
      }
      Op(OpConnect);
      var joined := AwaitConnection();
      if joined {
        Notify("Switched to new Wi-Fi successfully", StNone, false);
        autoReconnect := true;
        return Ok, Some(DiscNone);
      }
      ChangeKeepsInv(w0, ssid, pass);
      err, reason := FallBack(prevSsid, prevPass);
    }

    /** The failure path of `wfm_change_network`: back to the previous network, reconnecting if it does not come up. */
    method FallBack(prevSsid: CString, prevPass: CString) returns (err: Err, reason: Option<DiscReason>)
      requires Valid()
      modifies this
      ensures var r := WifiModel.FallBack(old(Snap()), prevSsid, prevPass);
              Snap() == r.w && err == r.err && reason == r.reason
    {
      FallBackWaitKeepsInv(Snap(), prevSsid, prevPass);
      SetStaConfig(prevSsid, prevPass);
      Op(OpConnect);
      var _ := AwaitConnection();
      reason := Some(lastDisc);
      if !connected {
        var _ := Reconnect();
      }
      autoReconnect := true;
      err := Fail;
    }

    /* ------------------------------------------------------ set-up and tear-down */

    /** `memset(wfm, 0, sizeof(*wfm))`: every field zeroed; the driver and what the callbacks heard are not part of the context. */
    method Clear()
      modifies this
      ensures Snap() == Zero(old(Snap()))
    {
      mode, lastDisc, info, scan, saved := ModeNone, DiscNone, EmptyInfo, [], EmptyList();
      connected, started, autoReconnect, connectOnStart, manualStop := false, false, false, false, false;
      cfg, cbs, hasEventGroup := ZeroConfig, WfmCallbacks(false, false), false;
    }

    /** `wfm_init` on a context. */
    method Setup(saved: Option<CredList>, cfg: Option<WfmConfig>, cbs: Option<WfmCallbacks>) returns (err: Err)
      modifies this
      ensures Snap() == WifiModel.Init(old(Snap()), saved, cfg, cbs).w && err == WifiModel.Init(old(Snap()), saved, cfg, cbs).err
    {
      Configure(saved, cfg, cbs);
      err := InitDriver();
    }

    /** The configuration part of `wfm_init`. */
    method Configure(saved: Option<CredList>, cfg: Option<WfmConfig>, cbs: Option<WfmCallbacks>)
      modifies this
      ensures Snap() == WifiModel.Configure(old(Snap()), saved, cfg, cbs)
    {
      Clear();
      this.cfg := if cfg.Some? then cfg.value else DefaultConfig;
      if cbs.Some? {
        this.cbs := cbs.value;
      }
      if saved.Some? {
        this.saved := saved.value;
        if this.saved.count > MaxCreds {
          this.saved := this.saved.(count := MaxCreds);
        }
      }
    }

    /** The event plumbing of `wfm_init`. */
    method InitDriver() returns (err: Err)
      modifies this
      ensures Snap() == WifiModel.InitDriver(old(Snap())).w && err == WifiModel.InitDriver(old(Snap())).err
    {
      if NetifInit in radio.failing {
        return DriverError(NetifInit);
      }
      if EventGroupCreate in radio.failing {
        return NoMem;
      }
      hasEventGroup := true;
      if RegisterWifiEvents in radio.failing {
        return DriverError(RegisterWifiEvents);
      }
      if RegisterIpEvents in radio.failing {
        return DriverError(RegisterIpEvents);
      }
      mode := ModeNone;
      Notify("Wi-Fi manager initialized", StNone, true);
      return Ok;
    }

    /** `wfm_deinit` on a context. */
    method Teardown()
      modifies this
      ensures Snap() == WifiModel.Deinit(old(Snap()))
    {
      RadioStop();
      RadioDeinit();
      Clear();
    }
  }

  /** `wfm_init`: a NULL context is refused before anything is touched. */
  method Init(m: Manager?, saved: Option<CredList>, cfg: Option<WfmConfig>, cbs: Option<WfmCallbacks>) returns (err: Err)
    modifies m
    ensures m == null ==> err == InvalidArg
    ensures m != null ==> m.Snap() == WifiModel.Init(old(m.Snap()), saved, cfg, cbs).w &&
                          err == WifiModel.Init(old(m.Snap()), saved, cfg, cbs).err
  {
    if m == null {
      return InvalidArg;
    }
    err := m.Setup(saved, cfg, cbs);
  }

  /** `wfm_deinit`: nothing for a NULL context. */
  method Deinit(m: Manager?)
    modifies m
    ensures m != null ==> m.Snap() == WifiModel.Deinit(old(m.Snap()))
  {
    if m != null {
      m.Teardown();
    }
  }

  /** `wfm_is_connected`: false for a NULL context, otherwise the `connected` flag. */
  function IsConnected(m: Manager?): (b: bool)
    reads m
    ensures b <==> m != null && m.Snap().connected
  {
    m != null && m.connected
  }

  /** `w`, `ended` and `err` are how the methods report round result `rd`; one proof obligation, as `Reports` is not opened here. */
  ghost predicate RoundReported(rd: Round, w: Wfm, ended: bool, err: Err)
  {
    WifiModel.Reports(rd, w, ended, err)
  }

  /** The rounds of `wfm_reconnect` from round `attempt` on, started in `w`, end in `target`. */
  ghost predicate Leads(w: Wfm, attempt: nat, target: Step)
  {
    WifiModel.RoundsEndIn(w, attempt, target)
  }

  /** The candidate loop from candidate `i` on, started in `w`, ends in `target`. */
  ghost predicate Tries(w: Wfm, cands: seq<Cred>, i: nat, target: Round)
  {
    WifiModel.TriesEndIn(w, cands, i, target)
  }

  /** The candidate loop from candidate `i` on, started in `w`, ends where the model says. */
  lemma TriesFrom(w: Wfm, cands: seq<Cred>, i: nat)
    ensures Tries(w, cands, i, WifiModel.TryRound(w, cands, i))
  {
  }

  /** What candidate `k` of the loop, tried in `w`, leaves: the loop's end, or the state the next candidate is tried in. */
  lemma TryStep(w: Wfm, cands: seq<Cred>, k: nat, later: nat, target: Round)
    requires later == k + 1 && k < |cands| && Tries(w, cands, k, target)
    ensures !IsSsidAvailable(w.scan, Some(cands[k].ssid)) ==> Tries(w, cands, later, target)
    ensures IsSsidAvailable(w.scan, Some(cands[k].ssid)) ==>
              var s := RoundAttempt(w, cands[k]);
              (s.err != Ok ==> target == Aborted(s.w, s.err)) &&
              (s.err == Ok ==>
                 var a := AwaitConnection(s.w);
                 (a.joined ==> target == Joined(a.w.(mode := ModeSta, autoReconnect := true))) &&
                 (!a.joined ==> Tries(Notify(a.w, "Failed to reconnect", StNone, false), cands, later, target)))
  {
    assert WifiModel.Same(w, w);
  }

  /** Past the last candidate the loop ends with nothing joined. */
  lemma TriesExhausted(w: Wfm, cands: seq<Cred>, i: nat, target: Round)
    requires i >= |cands| && Tries(w, cands, i, target)
    ensures target == Exhausted(w)
  {
    assert WifiModel.Same(w, w);
  }

  /** `wfm_reconnect` before its first round: the rounds then end where the model's reconnect ends, in the invariant. */
  lemma ReconnectStart(w: Wfm, w1: Wfm)
    requires Inv(w) && w1 == WifiModel.Notify(w.(autoReconnect := false), "Auto-reconnect in progress", StNone, true)
    ensures Leads(w1, 0, WifiModel.Reconnect(w)) && Inv(WifiModel.Reconnect(w).w)
  {
    InvCarries(w, w1);
    RoundsKeepInv(w1, 0);
    LeadsFrom(w1, 0);
  }

  /** The rounds from `attempt` on, started in `w`, end where the model says. */
  lemma LeadsFrom(w: Wfm, attempt: nat)
    requires Inv(w) && attempt <= MaxReconnectAttempts
    ensures Leads(w, attempt, WifiModel.ReconnectRounds(w, attempt))
  {
  }

  /** How the round loop goes on after round `attempt`, started in `w`, left `w'`, as ReconnectRound states. */
  lemma RoundEnds(w: Wfm, attempt: nat, later: nat, target: Step, w': Wfm, ended: bool, err: Err)
    requires later == attempt + 1
    requires Inv(w) && attempt < MaxReconnectAttempts && WifiModel.ReconnectRounds(w, attempt) == target
    requires RoundReported(WifiModel.ReconnectRound(w), w', ended, err)
    ensures ended ==> Step(w', err) == target
    ensures !ended ==> Leads(w', later, target)
  {
    RoundsUnfold(w, attempt);
    if !ended {
      RoundKeepsInv(w);
    }
  }

  /** A name is listed at most once, so the entry found is the first one. */
  lemma FindEntryUnique(scan: seq<ScanEntry>, ssid: string, k: nat)
    requires k < |scan| && scan[k].ssid == ssid
    requires forall j :: 0 <= j < k ==> scan[j].ssid != ssid
    ensures FindEntry(scan, ssid) == Some(k)
  {
    var f := FindEntry(scan, ssid);
    assert f.Some?;
  }
}
