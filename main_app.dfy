/**
 * The start-up of main/main.c and its polling loop.
 *
 * `app_main` brings the system up step by step, keeping `init_success`
 * false once a step has failed, and then chooses between the access point
 * set-up (no stored credentials) and a station connection followed by MQTT.
 * The loop then acts on the two flags the button interrupt raises, but only
 * when start-up succeeded.
 *
 * The state main.c reads and writes itself is modelled by the objects it
 * drives: the LED driver, the GPIO registers, the button interrupt (whose
 * two flags are the globals main.c declares) and the credential store. Every
 * other call main.c makes is recorded, with its arguments, as an `Effect`
 * in order; the result of each such call is an input of the start-up
 * (`BootEnv`). `Main` is the joint state as a value; every method of `App`
 * is proved to move it as the function of the same step says.
 */
module MainApp {
  import opened Esp
  import opened NvsMemory
  import opened LedsDriver
  import opened HardwareLayer
  import Interrupts
  import LcdDriver
  import WifiModel
  import MqttModel
  import WebApplication
  import Topics
  import Util

  /* ------------------------------------------------------------ constants */

  /** `NVS_STORAGE_FOLDER` (main/config.h). */
  const StorageFolder: string := "storage"
  /** The LED and button pins (main/config.h). */
  const GreenLedPin: int := 1
  const YellowLedPin: int := 3
  const RedLedPin: int := 5
  const WifiResetPin: nat := 0
  /** The LCD wiring and size (main/config.h). */
  const MainLcd: LcdDriver.LcdContext := LcdDriver.LcdContext(18, 16, 9, 11, 12, 14, LcdDriver.Cols, LcdDriver.Rows)
  /** `WIFI_AP_SSID` and `WIFI_AP_PASSWORD` (main/credentials.h). */
  const ApSsid: string := "esp32_setup"
  const ApPass: string := "setup1234"
  /** `MQTT_BROKER_URI`, `MQTT_USERNAME` and `MQTT_PASSWORD` (main/credentials.h). */
  const BrokerUri: string := "mqtts://2a7e41fb3049421ba6af414adaf4f849.s1.eu.hivemq.cloud:8883"
  const MqttUser: string := "JekaDeGever"
  const MqttPass: string := "J1qwe321"
  /** The timeout `mqm_start` is given. */
  const MqttStartMs: nat := 15000
  /** The pause before "Online", the pause of each loop pass and the one while switching to the access point. */
  const OnlineDelayMs: nat := 3000
  const LoopDelayMs: nat := 200
  const ApSwitchDelayMs: nat := 1000

  /** `ver_msg`: "Program version " and `PROG_VERSION`, 21 characters of a 32-byte buffer. */
  const VersionText: string := "Program version " + WebApplication.ProgVersion
  const WifiInitFailedText: string := "Wi-Fi init failed!"
  const NoCredsText: string := "No Wi-Fi credentials"
  const StartingApText: string := "Starting AP setup mode..."
  const StartingHttpText: string := "Starting HTTP server..."
  const ConnectToApText: string := "connect to AP, insert wifi info"
  const MqttFailedText: string := "MQTT connect failed!"
  const NoWifiFoundText: string := "no available Wi-Fi found"
  const WifiErrorText: string := "Wi-Fi connection error"
  const OnlineText: string := "Online"
  const ResetPressedText: string := "Reset button pressed!"
  const ErasingText: string := "Erasing NVS..."
  const RestartingText: string := "Restarting..."
  const SwitchingApText: string := "Switching to AP mode..."
  const HttpStartingText: string := "HTTP server starting..."

  /** The Wi-Fi callbacks: both set. */
  const MainWifiCallbacks: WifiModel.WfmCallbacks := WifiModel.WfmCallbacks(true, true)
  /** The MQTT callbacks: all three set. */
  const MainMqttCallbacks: MqttModel.MqmCallbacks := MqttModel.MqmCallbacks(true, true, true)
  /** `mqtt_cfg`, in the fields the MQTT manager reads: keep-alive 20 s, a persistent session, reconnection after 4 s. */
  const MainMqttConfig: MqttModel.MqmConfig :=
    MqttModel.MqmConfig(Some(BrokerUri), Some(MqttUser), Some(MqttPass), 20, false, false, 4000)

  /** The handlers of `mqtt_topics`, each named by a number standing for its function. */
  const OtaUpdateHandler: nat := 1
  const LcdDisplayHandler: nat := 2
  const ScanNetsHandler: nat := 3
  const DeviceTestHandler: nat := 4
  const LedsToggleHandler: nat := 5
  const ChangeWifiHandler: nat := 6

  /** `mqtt_topics`: the six incoming topics and their handlers. */
  const TopicTable: seq<MqttModel.TopicEntry> := [
    MqttModel.TopicEntry(Some(Topics.InOtaUpdate), Some(OtaUpdateHandler)),
    MqttModel.TopicEntry(Some(Topics.InLcdDisplay), Some(LcdDisplayHandler)),
    MqttModel.TopicEntry(Some(Topics.InScanWifiNets), Some(ScanNetsHandler)),
    MqttModel.TopicEntry(Some(Topics.InDeviceConnection), Some(DeviceTestHandler)),
    MqttModel.TopicEntry(Some(Topics.InLedsToggle), Some(LedsToggleHandler)),
    MqttModel.TopicEntry(Some(Topics.InConnectNewWifi), Some(ChangeWifiHandler))
  ]

  /* ---------------------------------------------------------------- state */

  /** A call main.c makes into a module this model does not run, with its arguments. */
  datatype Effect =
    | FlashInit                      // nvs_flash_init
    | NetifSetup                     // esp_netif_init
    | EventLoopSetup                 // esp_event_loop_create_default
    | NvsOpen(folder: string)        // init_NVS_memory
    | LcdSetup(lcd: LcdDriver.LcdContext)
    | Lines(text: string)            // LCD_show_lines(0, text, LCD_context, true)
    | SpiffsSetup
    | MqttCallbacksSetup(lcd: LcdDriver.LcdContext)
    | WifiCallbacksSetup(lcd: LcdDriver.LcdContext)
    | HttpSetup(lcd: LcdDriver.LcdContext, nvs: int)
    | WifiSetup(saved: CredList, wifiCbs: WifiModel.WfmCallbacks)   // wfm_init with no configuration
    | ApStart(ssid: string, pass: string)
    | WebServerStart
    | StaFirstConnect
    | MqttSetup(cfg: MqttModel.MqmConfig, mqttCbs: MqttModel.MqmCallbacks, table: seq<MqttModel.TopicEntry>)
    | MqttLaunch(timeoutMs: nat)     // mqm_start
    | WebAppSetup(lcd: LcdDriver.LcdContext, nvs: int)
    | Delay(ms: nat)
    | FlashErase
    | LcdClear
    | DriverStop                     // wfm_full_driver_stop

  /** What the calls of the start-up return: ESP-IDF results, the handle opened, a failed read of the stored list, and the managers' results. */
  datatype BootEnv = BootEnv(
    flashInit: Err, netifInit: Err, eventLoop: Err, nvsOpen: Err, handle: int, readFault: bool,
    wifiInit: Err, apStart: Err, serverStarts: bool, firstConnect: Err, scanCount: nat,
    mqttInit: Err, mqttStart: Err)

  /** The state of main.c and of the objects it drives, as a value. */
  datatype Main = Main(
    initSuccess: bool, restarted: bool, nvsHandle: int, interruptsOn: bool, effects: seq<Effect>,
    ledsReady: bool, ledPins: seq<int>, queue: seq<LedCommand>, writes: seq<RegWrite>,
    pin: nat, button: Interrupts.Gesture, blob: Option<CredList>)

  /** Something the environment does while the loop runs: the button interrupt with its status and level words and the time, or one pass of the loop body. */
  datatype Tick = Irq(status: bv32, levelWord: bv32, now: int) | Pass

  /* ---------------------------------------------------------- primitives */

  /** The calls `es` made after those already made. */
  function Emit(s: Main, es: seq<Effect>): Main
  {
    s.(effects := s.effects + es)
  }

  /** `LCD_show_lines(0, text, LCD_context, true)`. */
  function Show(s: Main, text: string): Main
  {
    Emit(s, [Lines(text)])
  }

  /** One LED driver call: nothing before `all_leds_init`. */
  function Light(s: Main, a: LedAction): Main
  {
    s.(queue := s.queue + if s.ledsReady then Commands(a) else [])
  }

  /** `init_success = false`. */
  function Failed(s: Main): Main
  {
    s.(initSuccess := false)
  }

  /** The stores of `init_wifi_reset_button_GPIO`. */
  function ButtonWrites(pin: nat): seq<RegWrite>
  {
    [RegWrite(GpioBase + PinReg(pin), ConfigWord(true, true, BothEdges)),
     RegWrite(GpioBase + EnW1tc, Mask(pin)),
     RegWrite(GpioBase + IntW1tc, Mask(pin))]
  }

  /* ------------------------------------------------------------- start-up */

  /** The four guarded ESP-IDF and storage calls; the first failure stops the start-up. */
  function StartSystem(s: Main, env: BootEnv): Main
  {
    var s1 := Emit(s, [FlashInit]);
    if env.flashInit != Ok then Failed(s1)
    else
      var s2 := Emit(s1, [NetifSetup]);
      if env.netifInit != Ok then Failed(s2)
      else
        var s3 := Emit(s2, [EventLoopSetup]);
        if env.eventLoop != Ok then Failed(s3)
        else
          var s4 := Emit(s3, [NvsOpen(StorageFolder)]);
          if env.nvsOpen != Ok then Failed(s4) else s4.(nvsHandle := env.handle)
  }

  /** `all_leds_init` with the table's pins, `LCD_initialize` and the version on the screen. */
  function LedsAndLcd(s: Main): Main
  {
    var pins := [RedLedPin, GreenLedPin, YellowLedPin];
    s.(ledsReady := true, ledPins := pins, writes := s.writes + PinInits(pins, 3),
       effects := s.effects + [LcdSetup(MainLcd), Lines(VersionText)])
  }

  /** `enable_GPIO_interrupts` and `init_wifi_reset_button_GPIO` on the reset pin. */
  function ButtonSetup(s: Main): Main
  {
    s.(writes := s.writes + [RegWrite(Interrupts.MatrixBase + Interrupts.ProGpioMapReg, Interrupts.CpuGpioInterrupt)]
                          + ButtonWrites(WifiResetPin),
       pin := WifiResetPin, interruptsOn := true)
  }

  /** The file system, the two callback modules and the web server module. */
  function ModulesSetup(s: Main): Main
  {
    Emit(s, [SpiffsSetup, MqttCallbacksSetup(MainLcd), WifiCallbacksSetup(MainLcd), HttpSetup(MainLcd, s.nvsHandle)])
  }

  /** The peripherals and modules, in the order `app_main` sets them up. */
  function Peripherals(s: Main): Main
  {
    ModulesSetup(ButtonSetup(LedsAndLcd(s)))
  }

  /** `wfm_init` with the loaded list, no configuration and both callbacks; a failure is shown. */
  function InitWifi(s: Main, saved: CredList, env: BootEnv): Main
  {
    var s1 := Emit(s, [WifiSetup(saved, MainWifiCallbacks)]);
    if env.wifiInit != Ok then Failed(Show(s1, WifiInitFailedText)) else s1
  }

  /** No stored credentials: the access point, then the web server; either failing ends the start-up. */
  function ApSetup(s: Main, env: BootEnv): Main
  {
    var s1 := Light(Emit(s, [Lines(NoCredsText), Lines(StartingApText)]), Blink(Green, 1.0, true));
    var s2 := Emit(s1, [ApStart(ApSsid, ApPass)]);
    if env.apStart != Ok then Failed(s2)
    else
      var s3 := Emit(s2, [Lines(StartingHttpText), WebServerStart]);
      if !env.serverStarts then Failed(s3) else Show(s3, ConnectToApText)
  }

  /** Stored credentials: the first connection, then MQTT; a failed connection is only shown. */
  function StaConnect(s: Main, env: BootEnv): Main
  {
    var s1 := Emit(s, [StaFirstConnect]);
    if env.firstConnect == Ok then MqttStartup(s1, env)
    else Show(s1, if env.scanCount == 0 then NoWifiFoundText else WifiErrorText)
  }

  /** `mqm_init`, `mqm_start` only when it succeeded, then `init_web_app`, which refuses a zero handle. */
  function MqttStartup(s: Main, env: BootEnv): Main
  {
    var s1 := Emit(s, [MqttSetup(MainMqttConfig, MainMqttCallbacks, TopicTable)]);
    var s2 := Emit(s1, [MqttLaunch(MqttStartMs)]);
    if env.mqttInit != Ok then Failed(Show(s1, MqttFailedText))
    else if env.mqttStart != Ok then Failed(Show(s2, MqttFailedText))
    else
      var s3 := Emit(s2, [WebAppSetup(MainLcd, s.nvsHandle)]);
      if s.nvsHandle == 0 then Failed(s3) else s3
  }

  /** The branch on the number of stored credentials. */
  function Connect(s: Main, saved: CredList, env: BootEnv): Main
  {
    if saved.count == 0 then ApSetup(s, env) else StaConnect(s, env)
  }

  /** After the system calls: the peripherals, the stored list, the Wi-Fi manager and the branch. */
  function Bring(s: Main, env: BootEnv): Main
  {
    var s1 := Peripherals(s);
    if env.readFault then Failed(s1)
    else
      var saved := LoadedList(s1.blob, false);
      var s2 := InitWifi(s1, saved, env);
      if !s2.initSuccess then s2 else Connect(s2, saved, env)
  }

  /** Everything `app_main` does before the `initialize_failure` label. */
  function Steps(s: Main, env: BootEnv): Main
  {
    var s1 := StartSystem(s.(initSuccess := true), env);
    if !s1.initSuccess then s1 else Bring(s1, env)
  }

  /** The label: the red LED on its own after a failure, otherwise a pause and "Online". */
  function Finish(s: Main): Main
  {
    if !s.initSuccess then Light(s, On(Red, true)) else Emit(s, [Delay(OnlineDelayMs), Lines(OnlineText)])
  }

  /** The start-up of `app_main`. */
  function Boot(s: Main, env: BootEnv): Main
  {
    Finish(Steps(s, env))
  }

  /* ----------------------------------------------------------------- loop */

  /** The button interrupt, once it is attached: the gesture step and the clearing of its pending bit. */
  function Interrupted(s: Main, status: bv32, levelWord: bv32, now: int): Main
  {
    if !s.interruptsOn then s
    else
      s.(button := Interrupts.Handle(s.button, s.pin, status, levelWord, now),
         writes := s.writes + if Interrupts.Triggered(status, s.pin) then [RegWrite(GpioBase + IntW1tc, Mask(s.pin))] else [])
  }

  /** The reset: the flag cleared, the red LED blinking five times, storage erased, the screen cleared, and the restart. */
  function ResetAction(s: Main): Main
  {
    var s1 := Light(s.(button := s.button.(resetPressed := false)), BlinkTimes(Red, 0.5, 5, true));
    s1.(effects := s1.effects + [Lines(ResetPressedText), Lines(ErasingText), FlashErase, Lines(RestartingText), LcdClear],
        blob := None, restarted := true)
  }

  /** The triple press: the flag cleared, the driver stopped, the access point and the web server started, green blinking. */
  function ApSwitchAction(s: Main): Main
  {
    var s1 := Emit(s.(button := s.button.(triplePressed := false)),
                   [Lines(SwitchingApText), DriverStop, Delay(ApSwitchDelayMs), ApStart(ApSsid, ApPass),
                    Lines(HttpStartingText), WebServerStart, Lines(ConnectToApText)]);
    Light(s1, Blink(Green, 1.0, true))
  }

  /** One pass of the loop body: the flags only after a successful start-up, the reset first; then the pause. */
  function Cycle(s: Main): Main
  {
    if s.initSuccess && s.button.resetPressed then ResetAction(s)
    else if s.initSuccess && s.button.triplePressed then Emit(ApSwitchAction(s), [Delay(LoopDelayMs)])
    else Emit(s, [Delay(LoopDelayMs)])
  }

  function Step(s: Main, t: Tick): Main
  {
    match t
    case Irq(status, levelWord, now) => Interrupted(s, status, levelWord, now)
    case Pass => Cycle(s)
  }

  /** The loop over `ticks`; nothing runs after the restart. */
  function Loop(s: Main, ticks: seq<Tick>): Main
    decreases |ticks|
  {
    if ticks == [] || s.restarted then s else Loop(Step(s, ticks[0]), ticks[1..])
  }

  /** `app_main`: the start-up, then the loop. */
  function Run(s: Main, env: BootEnv, ticks: seq<Tick>): Main
  {
    Loop(Boot(s, env), ticks)
  }

  /* --------------------------------------------------------------- lemmas */

  /** The state `app_main` starts from: nothing called, the LED driver not initialised, no interrupt attached. */
  predicate Fresh(s: Main)
  {
    s.effects == [] && !s.ledsReady && !s.interruptsOn && !s.restarted
  }

  /** The four guarded system calls succeed. */
  predicate SystemUp(env: BootEnv)
  {
    env.flashInit == Ok && env.netifInit == Ok && env.eventLoop == Ok && env.nvsOpen == Ok
  }

  /** The calls before the branch succeed: the system, the read of the stored list and `wfm_init`. */
  predicate ReadyToConnect(env: BootEnv)
  {
    SystemUp(env) && !env.readFault && env.wifiInit == Ok
  }

  /**
   * When the start-up succeeds: every step up to `wfm_init`, then, without
   * credentials, the access point and the web server, and with credentials
   * and a first connection, MQTT's two calls and a non-zero handle. A failed
   * first connection is not a failure.
   */
  predicate Healthy(blob: Option<CredList>, env: BootEnv)
  {
    ReadyToConnect(env) &&
    (LoadedList(blob, false).count == 0 ==> env.apStart == Ok && env.serverStarts) &&
    (LoadedList(blob, false).count != 0 && env.firstConnect == Ok ==>
       env.mqttInit == Ok && env.mqttStart == Ok && env.handle != 0)
  }

  /** `a` occurs in `es` before `b`. */
  ghost predicate Before(es: seq<Effect>, a: Effect, b: Effect)
  {
    exists i, j :: 0 <= i < j < |es| && es[i] == a && es[j] == b
  }

  /** The steps before the branch leave the handle opened and the stored list alone. */
  lemma BringKeeps(s: Main, env: BootEnv)
    requires SystemUp(env)
    ensures StartSystem(s, env).initSuccess == s.initSuccess
    ensures StartSystem(s, env).nvsHandle == env.handle && StartSystem(s, env).blob == s.blob
    ensures Peripherals(StartSystem(s, env)).nvsHandle == env.handle
    ensures Peripherals(StartSystem(s, env)).blob == s.blob && Peripherals(StartSystem(s, env)).ledsReady
  {
  }

  /** `init_success` ends true exactly when the start-up is healthy; any failing step makes it false. */
  lemma BootVerdict(s: Main, env: BootEnv)
    ensures Boot(s, env).initSuccess <==> Healthy(s.blob, env)
  {
    if SystemUp(env) {
      BringKeeps(s.(initSuccess := true), env);
    }
  }

  /** The start-up does not restart the device. */
  lemma BootKeepsRunning(s: Main, env: BootEnv)
    ensures Boot(s, env).restarted == s.restarted
  {
    if SystemUp(env) {
      BringKeeps(s.(initSuccess := true), env);
    }
  }

  /** The start-up does not touch the stored list. */
  lemma BootKeepsStore(s: Main, env: BootEnv)
    ensures Boot(s, env).blob == s.blob
  {
    if SystemUp(env) {
      BringKeeps(s.(initSuccess := true), env);
    }
  }

  /** After a successful start-up the last two calls are the pause and "Online". */
  lemma HealthyBootIsOnline(s: Main, env: BootEnv)
    requires Healthy(s.blob, env)
    ensures |Boot(s, env).effects| >= 2
    ensures Boot(s, env).effects[|Boot(s, env).effects| - 2..] == [Delay(OnlineDelayMs), Lines(OnlineText)]
  {
    BootVerdict(s, env);
  }

  /**
   * A failure of one of the first four calls comes before `all_leds_init`:
   * the red LED call finds the driver uninitialised and nothing is lit, and
   * the button interrupt is never attached.
   */
  lemma EarlyFailureIsDark(s: Main, env: BootEnv)
    requires !s.ledsReady && !s.interruptsOn
    requires !SystemUp(env)
    ensures !Boot(s, env).initSuccess && Boot(s, env).queue == s.queue
    ensures !Boot(s, env).ledsReady && !Boot(s, env).interruptsOn
  {
  }

  /** A later failure leaves the red LED steadily on and the other two off. */
  lemma LateFailureLightsRed(s: Main, env: BootEnv, l: Led)
    requires SystemUp(env) && !Healthy(s.blob, env)
    ensures Latest(Boot(s, env).queue, l) == Some(if l == Red then LedCommand(Red, true, 0.0, 0) else OffCommand(l))
  {
    BootVerdict(s, env);
    BringKeeps(s.(initSuccess := true), env);
    var st := Steps(s, env);
    assert st.ledsReady;
    LatestAppend(st.queue, Commands(On(Red, true)), l);
    ActionMeaning(On(Red, true), l);
    assert Latest(Commands(On(Red, true)), l).Some?;
  }

  /* ------------------------------------------------------ the branch point */

  /** The state at the branch on the stored credentials. */
  function AtBranch(s: Main, env: BootEnv): Main
  {
    InitWifi(Peripherals(StartSystem(s.(initSuccess := true), env)), LoadedList(s.blob, false), env)
  }

  /** The calls made before the branch when all of them succeed. */
  function PreBranchCalls(handle: int, saved: CredList): seq<Effect>
  {
    [FlashInit, NetifSetup, EventLoopSetup, NvsOpen(StorageFolder), LcdSetup(MainLcd), Lines(VersionText),
     SpiffsSetup, MqttCallbacksSetup(MainLcd), WifiCallbacksSetup(MainLcd), HttpSetup(MainLcd, handle),
     WifiSetup(saved, MainWifiCallbacks)]
  }

  /** When every call before the branch succeeds, the start-up is the branch from `AtBranch`, followed by the label. */
  lemma ReachBranch(s: Main, env: BootEnv)
    requires ReadyToConnect(env)
    ensures Boot(s, env) == Finish(Connect(AtBranch(s, env), LoadedList(s.blob, false), env))
    ensures AtBranch(s, env).effects == s.effects + PreBranchCalls(env.handle, LoadedList(s.blob, false))
    ensures AtBranch(s, env).initSuccess && AtBranch(s, env).nvsHandle == env.handle && AtBranch(s, env).ledsReady
  {
    BringKeeps(s.(initSuccess := true), env);
  }

  /** None of the calls before the branch is one of the branch's own calls. */
  lemma PreBranchCallsDistinct(handle: int, saved: CredList)
    ensures forall e :: e in PreBranchCalls(handle, saved) ==>
              !e.ApStart? && !e.WebServerStart? && !e.StaFirstConnect? && !e.MqttSetup? && !e.MqttLaunch? && !e.WebAppSetup?
    ensures Lines(NoWifiFoundText) !in PreBranchCalls(handle, saved) && Lines(WifiErrorText) !in PreBranchCalls(handle, saved)
  {
  }

  /** The access point branch from a state at the branch point, with the label after it: the calls made for each outcome. */
  lemma ApBranch(w: Main, env: BootEnv)
    requires w.initSuccess
    ensures env.apStart != Ok ==>
              Finish(ApSetup(w, env)).effects == w.effects + [Lines(NoCredsText), Lines(StartingApText), ApStart(ApSsid, ApPass)]
    ensures env.apStart == Ok && !env.serverStarts ==>
              Finish(ApSetup(w, env)).effects == w.effects + [Lines(NoCredsText), Lines(StartingApText), ApStart(ApSsid, ApPass),
                                                             Lines(StartingHttpText), WebServerStart]
    ensures env.apStart == Ok && env.serverStarts ==>
              Finish(ApSetup(w, env)).effects == w.effects + [Lines(NoCredsText), Lines(StartingApText), ApStart(ApSsid, ApPass),
                                                             Lines(StartingHttpText), WebServerStart, Lines(ConnectToApText),
                                                             Delay(OnlineDelayMs), Lines(OnlineText)]
    ensures Finish(ApSetup(w, env)).initSuccess <==> env.apStart == Ok && env.serverStarts
  {
  }

  /** The station branch with a first connection, from a state at the branch point, with the label after it: the calls made for each outcome. */
  lemma MqttBranch(w: Main, env: BootEnv)
    requires w.initSuccess && env.firstConnect == Ok
    ensures env.mqttInit != Ok ==>
              Finish(StaConnect(w, env)).effects ==
                w.effects + [StaFirstConnect, MqttSetup(MainMqttConfig, MainMqttCallbacks, TopicTable), Lines(MqttFailedText)]
    ensures env.mqttInit == Ok && env.mqttStart != Ok ==>
              Finish(StaConnect(w, env)).effects ==
                w.effects + [StaFirstConnect, MqttSetup(MainMqttConfig, MainMqttCallbacks, TopicTable), MqttLaunch(MqttStartMs),
                             Lines(MqttFailedText)]
    ensures env.mqttInit == Ok && env.mqttStart == Ok ==>
              Finish(StaConnect(w, env)).effects ==
                w.effects + [StaFirstConnect, MqttSetup(MainMqttConfig, MainMqttCallbacks, TopicTable), MqttLaunch(MqttStartMs),
                             WebAppSetup(MainLcd, w.nvsHandle)]
                          + (if w.nvsHandle != 0 then [Delay(OnlineDelayMs), Lines(OnlineText)] else [])
  {
  }

  /** The station branch without a first connection, from a state at the branch point, with the label after it. */
  lemma NoConnectionBranch(w: Main, env: BootEnv)
    requires w.initSuccess && env.firstConnect != Ok
    ensures Finish(StaConnect(w, env)).initSuccess
    ensures Finish(StaConnect(w, env)).effects ==
              w.effects + [StaFirstConnect, Lines(if env.scanCount == 0 then NoWifiFoundText else WifiErrorText),
                           Delay(OnlineDelayMs), Lines(OnlineText)]
  {
  }

  /**
   * Without stored credentials the device starts the access point with
   * `WIFI_AP_SSID` and `WIFI_AP_PASSWORD` and then, only if that worked, the
   * web server.
   */
  lemma NoCredentialsStartsAp(s: Main, env: BootEnv)
    requires Fresh(s) && ReadyToConnect(env) && LoadedList(s.blob, false).count == 0
    ensures ApStart(ApSsid, ApPass) in Boot(s, env).effects
    ensures env.apStart == Ok ==> Before(Boot(s, env).effects, ApStart(ApSsid, ApPass), WebServerStart)
    ensures env.apStart != Ok ==> WebServerStart !in Boot(s, env).effects
  {
    ReachBranch(s, env);
    PreBranchCallsDistinct(env.handle, LoadedList(s.blob, false));
    ApBranch(AtBranch(s, env), env);
    var b := Boot(s, env).effects;
    assert b[13] == ApStart(ApSsid, ApPass);
    if env.apStart == Ok {
      assert b[15] == WebServerStart;
    }
  }

  /**
   * Without stored credentials the station connection and MQTT are never
   * tried, and the start-up succeeds exactly when the access point and the
   * web server both start.
   */
  lemma NoCredentialsSkipsStation(s: Main, env: BootEnv)
    requires Fresh(s) && ReadyToConnect(env) && LoadedList(s.blob, false).count == 0
    ensures StaFirstConnect !in Boot(s, env).effects
    ensures forall e :: e in Boot(s, env).effects ==> !e.MqttSetup?
    ensures Boot(s, env).initSuccess <==> env.apStart == Ok && env.serverStarts
  {
    ReachBranch(s, env);
    PreBranchCallsDistinct(env.handle, LoadedList(s.blob, false));
    ApBranch(AtBranch(s, env), env);
  }

  /**
   * With stored credentials and a first connection, `mqm_init` follows the
   * connection and gets the broker configuration, all three callbacks and
   * the six-topic table; `mqm_start(15000)` follows it when it succeeded.
   */
  lemma CredentialsStartMqtt(s: Main, env: BootEnv)
    requires Fresh(s) && ReadyToConnect(env) && LoadedList(s.blob, false).count != 0 && env.firstConnect == Ok
    ensures Before(Boot(s, env).effects, StaFirstConnect, MqttSetup(MainMqttConfig, MainMqttCallbacks, TopicTable))
    ensures env.mqttInit == Ok ==>
              Before(Boot(s, env).effects, MqttSetup(MainMqttConfig, MainMqttCallbacks, TopicTable), MqttLaunch(MqttStartMs))
  {
    ReachBranch(s, env);
    PreBranchCallsDistinct(env.handle, LoadedList(s.blob, false));
    MqttBranch(AtBranch(s, env), env);
    var b := Boot(s, env).effects;
    assert b[11] == StaFirstConnect && b[12] == MqttSetup(MainMqttConfig, MainMqttCallbacks, TopicTable);
    if env.mqttInit == Ok {
      assert b[13] == MqttLaunch(MqttStartMs);
    }
  }

  /** `mqm_start` is called exactly when `mqm_init` succeeded, `init_web_app` with the opened handle exactly when both did, and the access point is never started. */
  lemma MqttStepsGuarded(s: Main, env: BootEnv)
    requires Fresh(s) && ReadyToConnect(env) && LoadedList(s.blob, false).count != 0 && env.firstConnect == Ok
    ensures MqttLaunch(MqttStartMs) in Boot(s, env).effects <==> env.mqttInit == Ok
    ensures WebAppSetup(MainLcd, env.handle) in Boot(s, env).effects <==> env.mqttInit == Ok && env.mqttStart == Ok
    ensures ApStart(ApSsid, ApPass) !in Boot(s, env).effects
  {
    ReachBranch(s, env);
    PreBranchCallsDistinct(env.handle, LoadedList(s.blob, false));
    MqttBranch(AtBranch(s, env), env);
  }

  /**
   * A failed first connection is only reported: "no available Wi-Fi found"
   * exactly when the scan found nothing, "Wi-Fi connection error" otherwise;
   * no access point is started, MQTT is not set up, and the device still
   * goes online.
   */
  lemma FirstConnectFailureReported(s: Main, env: BootEnv)
    requires Fresh(s) && ReadyToConnect(env) && LoadedList(s.blob, false).count != 0 && env.firstConnect != Ok
    ensures Boot(s, env).initSuccess
    ensures Lines(NoWifiFoundText) in Boot(s, env).effects <==> env.scanCount == 0
    ensures Lines(WifiErrorText) in Boot(s, env).effects <==> env.scanCount != 0
    ensures ApStart(ApSsid, ApPass) !in Boot(s, env).effects
    ensures forall e :: e in Boot(s, env).effects ==> !e.MqttSetup?
    ensures Boot(s, env).effects[|Boot(s, env).effects| - 1] == Lines(OnlineText)
  {
    ReachBranch(s, env);
    var w := AtBranch(s, env);
    PreBranchCallsDistinct(env.handle, LoadedList(s.blob, false));
    NoConnectionBranch(w, env);
  }

  /* -------------------------------------------------------- the topic table */

  /** The first entry with topic `t` is at `k` when `k` has it and no earlier entry does. */
  lemma FirstMatch(table: seq<MqttModel.TopicEntry>, t: Util.CString, k: nat)
    requires k < |table| && table[k].topic == Some(t)
    requires forall j :: 0 <= j < k ==> table[j].topic != Some(t)
    ensures MqttModel.MatchFrom(table, t, 0) == Some(k)
  {
  }

  /** Each incoming topic is found at its own entry of the table, with its handler. */
  lemma TopicTableRoutes()
    ensures |TopicTable| == 6
    ensures MqttModel.MatchFrom(TopicTable, Topics.InOtaUpdate, 0) == Some(0) && TopicTable[0].handler == Some(OtaUpdateHandler)
    ensures MqttModel.MatchFrom(TopicTable, Topics.InLcdDisplay, 0) == Some(1) && TopicTable[1].handler == Some(LcdDisplayHandler)
    ensures MqttModel.MatchFrom(TopicTable, Topics.InScanWifiNets, 0) == Some(2) && TopicTable[2].handler == Some(ScanNetsHandler)
    ensures MqttModel.MatchFrom(TopicTable, Topics.InDeviceConnection, 0) == Some(3) && TopicTable[3].handler == Some(DeviceTestHandler)
    ensures MqttModel.MatchFrom(TopicTable, Topics.InLedsToggle, 0) == Some(4) && TopicTable[4].handler == Some(LedsToggleHandler)
    ensures MqttModel.MatchFrom(TopicTable, Topics.InConnectNewWifi, 0) == Some(5) && TopicTable[5].handler == Some(ChangeWifiHandler)
  {
    FirstMatch(TopicTable, Topics.InOtaUpdate, 0);
    FirstMatch(TopicTable, Topics.InLcdDisplay, 1);
    FirstMatch(TopicTable, Topics.InScanWifiNets, 2);
    FirstMatch(TopicTable, Topics.InDeviceConnection, 3);
    FirstMatch(TopicTable, Topics.InLedsToggle, 4);
    FirstMatch(TopicTable, Topics.InConnectNewWifi, 5);
  }

  /** Connecting subscribes to the six incoming topics with QoS 1, in the table's order. */
  lemma TopicTableSubscriptions()
    ensures MqttModel.Subscriptions(TopicTable) ==
              [MqttModel.OpSubscribe(Topics.InOtaUpdate, 1), MqttModel.OpSubscribe(Topics.InLcdDisplay, 1),
               MqttModel.OpSubscribe(Topics.InScanWifiNets, 1), MqttModel.OpSubscribe(Topics.InDeviceConnection, 1),
               MqttModel.OpSubscribe(Topics.InLedsToggle, 1), MqttModel.OpSubscribe(Topics.InConnectNewWifi, 1)]
  {
    var t := TopicTable;
    assert t[5..][1..] == [];
    assert t[4..][1..] == t[5..];
    assert t[3..][1..] == t[4..];
    assert t[2..][1..] == t[3..];
    assert t[1..][1..] == t[2..];
    assert MqttModel.Subscriptions(t[5..]) == [MqttModel.OpSubscribe(Topics.InConnectNewWifi, 1)];
    assert MqttModel.Subscriptions(t[4..]) == [MqttModel.OpSubscribe(Topics.InLedsToggle, 1)] + MqttModel.Subscriptions(t[5..]);
    assert MqttModel.Subscriptions(t[3..]) == [MqttModel.OpSubscribe(Topics.InDeviceConnection, 1)] + MqttModel.Subscriptions(t[4..]);
    assert MqttModel.Subscriptions(t[2..]) == [MqttModel.OpSubscribe(Topics.InScanWifiNets, 1)] + MqttModel.Subscriptions(t[3..]);
    assert MqttModel.Subscriptions(t[1..]) == [MqttModel.OpSubscribe(Topics.InLcdDisplay, 1)] + MqttModel.Subscriptions(t[2..]);
  }

  /* ---------------------------------------------------------- loop lemmas */

  /** After a failed start-up the loop only pauses: no flag is acted on, storage is kept, no LED changes, no restart. */
  lemma {:induction false} FailedBootIgnoresButtons(s: Main, ticks: seq<Tick>)
    requires !s.initSuccess && !s.restarted
    ensures !Loop(s, ticks).initSuccess && !Loop(s, ticks).restarted
    ensures Loop(s, ticks).blob == s.blob && Loop(s, ticks).queue == s.queue
    ensures s.effects <= Loop(s, ticks).effects
    ensures forall i :: |s.effects| <= i < |Loop(s, ticks).effects| ==> Loop(s, ticks).effects[i] == Delay(LoopDelayMs)
    decreases |ticks|
  {
    if ticks != [] {
      var s1 := Step(s, ticks[0]);
      FailedBootIgnoresButtons(s1, ticks[1..]);
    }
  }

  /** A failed start-up disables the button recovery for good. */
  lemma FailedBootNeverResets(s: Main, env: BootEnv, ticks: seq<Tick>)
    requires !Healthy(s.blob, env) && !s.restarted
    ensures !Run(s, env, ticks).restarted && Run(s, env, ticks).blob == s.blob
  {
    var b := Boot(s, env);
    BootVerdict(s, env);
    BootKeepsRunning(s, env);
    BootKeepsStore(s, env);
    FailedBootIgnoresButtons(b, ticks);
  }

  /**
   * The reset flag wins over the triple-press flag of the same pass: only
   * the reset flag is cleared, the red LED blinks five times with the
   * others off, storage is erased, and the device restarts.
   */
  lemma ResetComesFirst(s: Main, l: Led)
    requires s.initSuccess && s.button.resetPressed && s.ledsReady
    ensures Cycle(s).restarted && Cycle(s).blob.None?
    ensures !Cycle(s).button.resetPressed && Cycle(s).button.triplePressed == s.button.triplePressed
    ensures Before(Cycle(s).effects, FlashErase, LcdClear)
    ensures Latest(Cycle(s).queue, l) == Some(if l == Red then LedCommand(Red, true, 0.5, 5) else OffCommand(l))
  {
    var c := Cycle(s);
    assert c.effects[|s.effects| + 2] == FlashErase && c.effects[|s.effects| + 4] == LcdClear;
    LatestAppend(s.queue, Commands(BlinkTimes(Red, 0.5, 5, true)), l);
    ActionMeaning(BlinkTimes(Red, 0.5, 5, true), l);
  }

  /**
   * The triple press, without a reset: the flag cleared, then the driver
   * stopped before the access point starts with `WIFI_AP_SSID` and
   * `WIFI_AP_PASSWORD`, before the web server starts; storage is kept and
   * the loop goes on.
   */
  lemma TriplePressStartsAp(s: Main)
    requires s.initSuccess && !s.button.resetPressed && s.button.triplePressed
    ensures Cycle(s).restarted == s.restarted && !Cycle(s).button.triplePressed && Cycle(s).blob == s.blob
    ensures Before(Cycle(s).effects, DriverStop, ApStart(ApSsid, ApPass))
    ensures Before(Cycle(s).effects, ApStart(ApSsid, ApPass), WebServerStart)
    ensures Cycle(s).effects[|Cycle(s).effects| - 1] == Delay(LoopDelayMs)
  {
    var c := Cycle(s);
    var n := |s.effects|;
    assert c.effects[n + 1] == DriverStop && c.effects[n + 3] == ApStart(ApSsid, ApPass) && c.effects[n + 5] == WebServerStart;
  }

  /** With neither flag raised, or after a failed start-up, a pass is only the pause. */
  lemma QuietPass(s: Main)
    requires !s.initSuccess || (!s.button.resetPressed && !s.button.triplePressed)
    ensures Cycle(s) == s.(effects := s.effects + [Delay(LoopDelayMs)])
  {
  }

  /** The button interrupt never lowers a flag and changes nothing but the gesture state and the registers. */
  lemma InterruptOnlyRaises(s: Main, status: bv32, levelWord: bv32, now: int)
    ensures s.button.resetPressed ==> Interrupted(s, status, levelWord, now).button.resetPressed
    ensures s.button.triplePressed ==> Interrupted(s, status, levelWord, now).button.triplePressed
    ensures Interrupted(s, status, levelWord, now).(button := s.button, writes := s.writes) == s
  {
  }

  /** Splitting the ticks splits the loop. */
  lemma {:induction false} LoopAppend(s: Main, a: seq<Tick>, b: seq<Tick>)
    ensures Loop(s, a + b) == Loop(Loop(s, a), b)
    decreases |a|
  {
    if a == [] {
      assert a + b == b;
    } else if !s.restarted {
      assert (a + b)[1..] == a[1..] + b;
      LoopAppend(Step(s, a[0]), a[1..], b);
    }
  }

  /**
   * End to end: after a successful start-up, a press of the reset button
   * held five seconds, then a pass of the loop, erase the stored
   * credentials and restart the device.
   */
  lemma LongPressErases(s: Main, t: int)
    requires s.initSuccess && s.interruptsOn && s.pin == WifiResetPin && s.button.lastLevel == 1 && !s.restarted
    ensures Loop(s, [Irq(1, 0, t), Irq(1, 1, t + 5000000), Pass]).blob.None?
    ensures Loop(s, [Irq(1, 0, t), Irq(1, 1, t + 5000000), Pass]).restarted
  {
    assert Interrupts.Triggered(1, WifiResetPin);
    assert Interrupts.LevelBit(0, WifiResetPin) == 0 && Interrupts.LevelBit(1, WifiResetPin) == 1;
    var s1 := Interrupted(s, 1, 0, t);
    Interrupts.PressRecordsStart(s.button, t);
    assert s1.button.pressStart == t && s1.button.lastLevel == 0;
    assert Interrupts.PressMs(s1.button, t + 5000000) == 5000;
    Interrupts.LongPressResets(s1.button, t + 5000000);
    var s2 := Interrupted(s1, 1, 1, t + 5000000);
    assert s2.button.resetPressed && s2.initSuccess && !s2.restarted;
    var ticks := [Irq(1, 0, t), Irq(1, 1, t + 5000000), Pass];
    assert ticks[1..] == [Irq(1, 1, t + 5000000), Pass] && ticks[1..][1..] == [Pass] && [Pass][1..] == [];
    assert Loop(s, ticks) == Loop(s1, ticks[1..]);
    assert Loop(s1, ticks[1..]) == Loop(s2, [Pass]);
    assert Loop(s2, [Pass]) == Loop(Cycle(s2), []);
  }

  /* ------------------------------------------------------------- the task */

  /** main.c's globals and the objects `app_main` drives. */
  class App {
    var initSuccess: bool
    var restarted: bool
    var nvsHandle: int
    var interruptsOn: bool
    var effects: seq<Effect>
    const leds: Leds
    const regs: Registers
    const isr: Interrupts.ButtonIsr
    const store: NvsStore

    /** The joint state of main.c and the objects. */
    function Now(): Main
      reads this, leds, regs, isr, store
    {
      Main(initSuccess, restarted, nvsHandle, interruptsOn, effects, leds.initialized, leds.pins, leds.queue,
           regs.writes, isr.pin, isr.Snap(), store.blob)
    }

    /** The state before `app_main`: no handle, no interrupt attached, nothing called. */
    constructor (leds: Leds, regs: Registers, isr: Interrupts.ButtonIsr, store: NvsStore)
      ensures !initSuccess && !restarted && nvsHandle == 0 && !interruptsOn && effects == []
      ensures this.leds == leds && this.regs == regs && this.isr == isr && this.store == store
    {
      initSuccess, restarted, nvsHandle, interruptsOn, effects := false, false, 0, false, [];
      this.leds, this.regs, this.isr, this.store := leds, regs, isr, store;
    }

    /* ---------------------------------------------------- one step each */

    /** Calls made one after the other. */
    method Record(es: seq<Effect>)
      modifies this
      ensures Now() == Emit(old(Now()), es)
    {
      effects := effects + es;
    }

    method LedCall(a: LedAction)
      modifies leds
      ensures Now() == Light(old(Now()), a)
    {
      leds.Apply(a);
    }

    /* ------------------------------------------------------------ start-up */

    /** `app_main` from its first line to the loop. */
    method StartUp(env: BootEnv)
      requires store.Valid()
      modifies this, leds, regs, isr
      ensures Now() == Boot(old(Now()), env)
    {
      initSuccess := true;
      InitSystem(env);
      if initSuccess {
        BringUp(env);
      }
      ReportBoot();
    }

    /** The `END_IF_ERROR` steps before the peripherals. */
    method InitSystem(env: BootEnv)
      modifies this
      ensures Now() == StartSystem(old(Now()), env)
    {
      Record([FlashInit]);
      if env.flashInit != Ok {
        initSuccess := false;
        return;
      }
      Record([NetifSetup]);
      if env.netifInit != Ok {
        initSuccess := false;
        return;
      }
      Record([EventLoopSetup]);
      if env.eventLoop != Ok {
        initSuccess := false;
        return;
      }
      Record([NvsOpen(StorageFolder)]);
      if env.nvsOpen != Ok {
        initSuccess := false;
        return;
      }
      nvsHandle := env.handle;
    }

    /** From the peripherals to the end of the branch on the stored credentials. */
    method BringUp(env: BootEnv)
      requires store.Valid()
      modifies this, leds, regs, isr
      ensures Now() == Bring(old(Now()), env)
    {
      InitPeripherals();
      var err, out := store.Load(true, env.readFault);
      if err != Ok {
        initSuccess := false;
        return;
      }
      var saved := out.value;
      InitWifiManager(saved, env);
      if initSuccess {
        if saved.count == 0 {
          StartApMode(env);
        } else {
          ConnectSta(env);
        }
      }
    }

    /** The peripherals, in the order `app_main` sets them up. */
    method InitPeripherals()
      modifies this, leds, regs, isr
      ensures Now() == Peripherals(old(Now()))
    {
      InitLedsAndLcd();
      InitButton();
      Record([SpiffsSetup, MqttCallbacksSetup(MainLcd), WifiCallbacksSetup(MainLcd), HttpSetup(MainLcd, nvsHandle)]);
    }

    method InitLedsAndLcd()
      modifies this, leds, regs
      ensures Now() == LedsAndLcd(old(Now()))
    {
      leds.AllLedsInit(GreenLedPin, RedLedPin, YellowLedPin, regs);
      Record([LcdSetup(MainLcd), Lines(VersionText)]);
    }

    method InitButton()
      modifies this, regs, isr
      ensures Now() == ButtonSetup(old(Now()))
    {
      isr.EnableInterrupts(WifiResetPin, regs);
      interruptsOn := true;
      regs.InitWifiResetButton(WifiResetPin);
    }

    /** `wfm_init(&wfm, &saved_creds, NULL, &wifi_cbs)`. */
    method InitWifiManager(saved: CredList, env: BootEnv)
      modifies this
      ensures Now() == InitWifi(old(Now()), saved, env)
    {
      if env.wifiInit != Ok {
        Record([WifiSetup(saved, MainWifiCallbacks), Lines(WifiInitFailedText)]);
        initSuccess := false;
      } else {
        Record([WifiSetup(saved, MainWifiCallbacks)]);
      }
    }

    /** The access point branch. */
    method StartApMode(env: BootEnv)
      modifies this, leds
      ensures Now() == ApSetup(old(Now()), env)
    {
      Record([Lines(NoCredsText), Lines(StartingApText)]);
      LedCall(Blink(Green, 1.0, true));
      Record([ApStart(ApSsid, ApPass)]);
      if env.apStart != Ok {
        initSuccess := false;
        return;
      }
      Record([Lines(StartingHttpText), WebServerStart]);
      if !env.serverStarts {
        initSuccess := false;
        return;
      }
      Record([Lines(ConnectToApText)]);
    }

    /** The station branch. */
    method ConnectSta(env: BootEnv)
      modifies this
      ensures Now() == StaConnect(old(Now()), env)
    {
      Record([StaFirstConnect]);
      if env.firstConnect == Ok {
        StartMqtt(env);
      } else if env.scanCount == 0 {
        Record([Lines(NoWifiFoundText)]);
      } else {
        Record([Lines(WifiErrorText)]);
      }
    }

    /** `mqm_init && mqm_start`, then `init_web_app`. */
    method StartMqtt(env: BootEnv)
      modifies this
      ensures Now() == MqttStartup(old(Now()), env)
    {
      Record([MqttSetup(MainMqttConfig, MainMqttCallbacks, TopicTable)]);
      if env.mqttInit == Ok {
        Record([MqttLaunch(MqttStartMs)]);
      }
      if env.mqttInit == Ok && env.mqttStart == Ok {
        Record([WebAppSetup(MainLcd, nvsHandle)]);
        if nvsHandle == 0 {
          initSuccess := false;
        }
      } else {
        Record([Lines(MqttFailedText)]);
        initSuccess := false;
      }
    }

    /** The `initialize_failure` label. */
    method ReportBoot()
      modifies this, leds
      ensures Now() == Finish(old(Now()))
    {
      if !initSuccess {
        LedCall(On(Red, true));
      } else {
        Record([Delay(OnlineDelayMs), Lines(OnlineText)]);
      }
    }

    /* ---------------------------------------------------------------- loop */

    /** The button interrupt, once `enable_GPIO_interrupts` attached it. */
    method Interrupt(status: bv32, levelWord: bv32, now: int)
      modifies isr, regs
      ensures Now() == Interrupted(old(Now()), status, levelWord, now)
    {
      if interruptsOn {
        isr.Handler(status, levelWord, now, regs);
      }
    }

    /** One pass of the `while (1)` body. */
    method PassOnce()
      modifies this, leds, isr, store
      ensures Now() == Cycle(old(Now()))
    {
      if initSuccess {
        if isr.resetPressed {
          OnReset();
          return;
        } else if isr.triplePressed {
          OnTriplePress();
        }
      }
      Record([Delay(LoopDelayMs)]);
    }

    /** The reset branch; `esp_restart` does not return. */
    method OnReset()
      modifies this, leds, isr, store
      ensures Now() == ResetAction(old(Now()))
    {
      isr.resetPressed := false;
      LedCall(BlinkTimes(Red, 0.5, 5, true));
      Record([Lines(ResetPressedText), Lines(ErasingText), FlashErase]);
      store.blob := None;
      Record([Lines(RestartingText), LcdClear]);
      restarted := true;
    }

    /** The triple-press branch. */
    method OnTriplePress()
      modifies this, leds, isr
      ensures Now() == ApSwitchAction(old(Now()))
    {
      isr.triplePressed := false;
      Record([Lines(SwitchingApText), DriverStop, Delay(ApSwitchDelayMs), ApStart(ApSsid, ApPass),
              Lines(HttpStartingText), WebServerStart, Lines(ConnectToApText)]);
      LedCall(Blink(Green, 1.0, true));
    }

    /** The loop, over the interrupts and passes of `ticks`, until the restart. */
    method MainLoop(ticks: seq<Tick>)
      modifies this, leds, regs, isr, store
      ensures Now() == Loop(old(Now()), ticks)
    {
      var i := 0;
      while i < |ticks| && !restarted
        invariant 0 <= i <= |ticks|
        invariant Loop(Now(), ticks[i..]) == Loop(old(Now()), ticks)
      {
        assert ticks[i..] == [ticks[i]] + ticks[i + 1..];
        match ticks[i] {
          case Irq(status, levelWord, now) => Interrupt(status, levelWord, now);
          case Pass => PassOnce();
        }
        i := i + 1;
      }
    }

    /** `app_main`. */
    method AppMain(env: BootEnv, ticks: seq<Tick>)
      requires store.Valid()
      modifies this, leds, regs, isr, store
      ensures Now() == Run(old(Now()), env, ticks)
    {
      StartUp(env);
      MainLoop(ticks);
    }
  }
}
