/**
 * The MQTT manager of main/mqtt_manager.c as a state machine over a context (`mqm_t`) with three
 * life-cycle flags, driven by the application (init, start, stop, deinit,
 * publish) and by the client's event handler (connected, disconnected, data).
 *
 * The esp-mqtt client and the FreeRTOS event group are an environment: the
 * client calls are recorded in order in `broker.log`, `failing` names the
 * checked calls that fail, each blocking wait takes the next `Outcome` (the
 * event that arrives while it waits, or none), and each publish takes the
 * next message id. An event that arrives during a wait is handled by the
 * event core before the wait looks at the event bits.
 */
module MqttModel {
  import opened Esp
  import opened Util

  const TopicMax: nat := 128          // MQM_MAX_TOPIC
  const PayloadMax: nat := 256        // MQM_MAX_PAYLOAD
  const DefaultKeepalive: int := 20
  const StartTimeoutMs: nat := 15000  // `mqm_start` with a timeout of 0
  const StopTimeoutMs: nat := 3000    // `mqm_stop` with a timeout of 0
  const DeinitStopMs: nat := 2000     // the stop `mqm_deinit` performs
  const SubscribeQos: int := 1

  /** `mqm_status_t`. */
  datatype MqmStatus = MqmConnecting | MqmConnected | MqmDisconnecting | MqmDisconnected | MqmError | MqmNone

  /** `mqm_config_t`: the fields the manager reads or passes on to the client. */
  datatype MqmConfig = MqmConfig(
    uri: Option<string>, username: Option<string>, password: Option<string>,
    keepaliveSec: int, cleanSession: bool, disableAutoReconnect: bool, reconnectTimeoutMs: int)

  const ZeroConfig := MqmConfig(None, None, None, 0, false, false, 0)

  /** The client configuration `mqm_init` builds from an `mqm_config_t`. */
  datatype ClientConfig = ClientConfig(
    uri: string, username: Option<string>, password: Option<string>,
    keepalive: int, disableCleanSession: bool, disableAutoReconnect: bool, reconnectTimeoutMs: int)

  /** `mqm_callbacks_t`: which callbacks are set. */
  datatype MqmCallbacks = MqmCallbacks(onStatus: bool, onMessage: bool, onConnected: bool)

  const NoCallbacks := MqmCallbacks(false, false, false)

  /** `mqm_topic_entry_t`; a handler is named by a number standing for its function pointer. */
  datatype TopicEntry = TopicEntry(topic: Option<CString>, handler: Option<nat>)

  /** The client calls the manager makes, and its waits on the event group, in order. */
  datatype ClientOp =
    | OpClientInit(conf: ClientConfig) | OpRegister | OpStart | OpStop | OpDestroy
    | OpSubscribe(topic: string, qos: int)
    | OpPublish(topic: string, msg: string, qos: int, retain: int)
    | OpWait(withConnected: bool, ms: nat)  // awaits FAIL, and CONNECTED too when `withConnected`

  /** The client event that arrives during a wait, if any. */
  datatype Outcome = Connects | Drops | Silent

  /** The client event the handler is given. */
  datatype MqttEvent = EvConnected | EvDisconnected | EvData(topic: seq<char>, data: seq<char>) | EvOther

  /** The environment: failing calls, the outcome of each wait, the id each publish returns, and the calls made. */
  datatype Broker = Broker(failing: set<Call>, waits: seq<Outcome>, mids: seq<int>, log: seq<ClientOp>)

  /** What the manager hands to its callbacks and to the topic handlers. */
  datatype Note =
    | Status(msg: string, status: MqmStatus)
    | Message(topic: string, payload: string)
    | Handled(handler: nat, payload: string)
    | ConnectedHook

  /** `mqm_t`, with the client environment beside it. */
  datatype Mqm = Mqm(
    client: bool, hasEventGroup: bool, bitConnected: bool, bitFail: bool,
    connected: bool, started: bool, initialized: bool,
    cfg: MqmConfig, cbs: MqmCallbacks, table: Option<seq<TopicEntry>>,
    broker: Broker, notes: seq<Note>)

  datatype Step = Step(m: Mqm, err: Err)
  /** The context after a wait, and the event bits the wait returned. */
  datatype Waited = Waited(m: Mqm, connectedBit: bool, failBit: bool)

  /* ----------------------------------------------------------------- helpers */

  /** `mqm_status`: the status callback runs only when it is set and the message is for the device. */
  function Report(m: Mqm, msg: string, st: MqmStatus, update: bool): Mqm
  {
    m.(notes := m.notes + if m.cbs.onStatus && update then [Status(msg, st)] else [])
  }

  /** The client calls `ops` recorded after those already made. */
  function Log(m: Mqm, ops: seq<ClientOp>): Mqm
  {
    m.(broker := m.broker.(log := m.broker.log + ops))
  }

  /** `memset(mqm, 0, sizeof(*mqm))`; the client environment and what the callbacks heard are not part of the context. */
  function Zero(m: Mqm): Mqm
  {
    Mqm(false, false, false, false, false, false, false, ZeroConfig, NoCallbacks, None, m.broker, m.notes)
  }

  /** The session keepalive handed to the client: the configured one when positive, otherwise 20 seconds. */
  function Keepalive(sec: int): (k: int)
    ensures k > 0
    ensures sec > 0 ==> k == sec
    ensures sec <= 0 ==> k == DefaultKeepalive
  {
    if sec > 0 then sec else DefaultKeepalive
  }

  /** The client configuration of `mqm_init`. */
  function ClientConf(cfg: MqmConfig): ClientConfig
    requires cfg.uri.Some?
  {
    ClientConfig(cfg.uri.value, cfg.username, cfg.password, Keepalive(cfg.keepaliveSec),
                 !cfg.cleanSession, cfg.disableAutoReconnect, cfg.reconnectTimeoutMs)
  }

  /** The text an inbound field keeps in a buffer of `size` bytes: at most `size - 1` characters, up to the first NUL. */
  function Inbound(s: seq<char>, size: nat): (r: CString)
    requires size > 0
    ensures |r| < size && |r| <= |s| && '\0' !in r
    ensures r == s[..|r|]
  {
    CStr(Bounded(s, size - 1))
  }

  /** The subscriptions `mqm_subscribe_all` makes for `table`: one per entry with a topic, in table order, at QoS 1. */
  function Subscriptions(table: seq<TopicEntry>): seq<ClientOp>
  {
    if table == [] then []
    else (if table[0].topic.Some? then [OpSubscribe(table[0].topic.value, SubscribeQos)] else []) + Subscriptions(table[1..])
  }

  /** The first entry of `table`, from `i` on, whose topic is exactly `t`. */
  function MatchFrom(table: seq<TopicEntry>, t: CString, i: nat): (r: Option<nat>)
    requires i <= |table|
    ensures r.Some? ==> i <= r.value < |table| && table[r.value].topic == Some(t) &&
                        forall j :: i <= j < r.value ==> table[j].topic != Some(t)
    ensures r.None? ==> forall j :: i <= j < |table| ==> table[j].topic != Some(t)
    decreases |table| - i
  {
    if i == |table| then None
    else if table[i].topic == Some(t) then Some(i)
    else MatchFrom(table, t, i + 1)
  }

  /** The table the event core walks: none when the pointer is NULL. */
  function Entries(m: Mqm): seq<TopicEntry>
  {
    if m.table.Some? then m.table.value else []
  }

  /* ---------------------------------------------------------------- events */

  /** `mqm_subscribe_all`; the per-topic results are ignored. */
  function SubscribeAll(m: Mqm): Step
  {
    if m.table.None? || m.table.value == [] then Step(m, InvalidArg)
    else Step(Log(m, Subscriptions(m.table.value)), Ok)
  }

  /** MQTT_EVENT_CONNECTED: the flags, then the subscriptions, then the connected hook. */
  function OnConnected(m: Mqm): Mqm
  {
    Hooked(Subscribed(Connect(m)))
  }

  /** The CONNECTED bit and `connected` set, and the status reported. */
  function Connect(m: Mqm): Mqm
  {
    Report(m.(bitConnected := true, connected := true), "MQTT connected", MqmConnected, true)
  }

  /** The table subscribed to; a refused table is reported. */
  function Subscribed(m: Mqm): Mqm
  {
    var s := SubscribeAll(m);
    if s.err != Ok then Report(s.m, "Subscription failed", MqmError, true) else s.m
  }

  /** The connected hook, when it is set. */
  function Hooked(m: Mqm): Mqm
  {
    m.(notes := m.notes + if m.cbs.onConnected then [ConnectedHook] else [])
  }

  /** MQTT_EVENT_DISCONNECTED. */
  function OnDisconnected(m: Mqm): Mqm
  {
    Report(m.(bitFail := true, connected := false), "MQTT DISCONNECTED", MqmDisconnected, true)
  }

  /** The notes the topic table adds for topic `t`: the handler of the first exact match, if it has one. */
  function Dispatched(table: seq<TopicEntry>, t: CString, p: string): seq<Note>
  {
    match MatchFrom(table, t, 0)
    case Some(i) => if table[i].handler.Some? then [Handled(table[i].handler.value, p)] else []
    case None => []
  }

  /** MQTT_EVENT_DATA: the topic and payload are cut to their buffers, heard by `on_message`, then dispatched. */
  function OnData(m: Mqm, topic: seq<char>, data: seq<char>): Mqm
  {
    var t := Inbound(topic, TopicMax);
    var p := Inbound(data, PayloadMax);
    var heard := if m.cbs.onMessage then [Message(t, p)] else [];
    m.(notes := m.notes + heard + Dispatched(Entries(m), t, p))
  }

  /** `mqm_event_core`. */
  function EventCore(m: Mqm, ev: MqttEvent): Mqm
  {
    match ev
    case EvConnected => OnConnected(m)
    case EvDisconnected => OnDisconnected(m)
    case EvData(topic, data) => OnData(m, topic, data)
    case EvOther => m
  }

  /** The next outcome of the environment taken, and the event it stands for handled. */
  function Arrive(m: Mqm): Mqm
    requires |m.broker.waits| > 0
  {
    var m1 := m.(broker := m.broker.(waits := m.broker.waits[1..]));
    match m.broker.waits[0]
    case Connects => OnConnected(m1)
    case Drops => OnDisconnected(m1)
    case Silent => m1
  }

  /** Whether an awaited bit is set: FAIL, or CONNECTED when it is awaited too. */
  function Awaited(m: Mqm, withConnected: bool): bool
  {
    m.bitFail || (withConnected && m.bitConnected)
  }

  /**
   * What the wait returns on context `m`: the event bits as they are, and,
   * when an awaited bit is set, the awaited bits cleared (clear on exit).
   */
  function Returned(m: Mqm, withConnected: bool): Waited
  {
    if Awaited(m, withConnected) then
      Waited(m.(bitFail := false, bitConnected := m.bitConnected && !withConnected), m.bitConnected, m.bitFail)
    else Waited(m, m.bitConnected, m.bitFail)
  }

  /**
   * `xEventGroupWaitBits` for any awaited bit, with clear on exit: an awaited
   * bit already set returns at once; otherwise the next outcome's event is
   * handled first (a timeout when there is none).
   */
  function Wait(m: Mqm, withConnected: bool, ms: nat): Waited
  {
    var m0 := Log(m, [OpWait(withConnected, ms)]);
    if Awaited(m0, withConnected) || |m0.broker.waits| == 0 then Returned(m0, withConnected)
    else Returned(Arrive(m0), withConnected)
  }

  /* ------------------------------------------------------------ operations */

  /** `mqm_init` on a context. */
  function Init(m: Mqm, cfg: Option<MqmConfig>, cbs: Option<MqmCallbacks>, table: Option<seq<TopicEntry>>): Step
  {
    if cfg.None? || cfg.value.uri.None? then Step(m, InvalidArg)
    else
      Create(Zero(m).(cfg := cfg.value, cbs := if cbs.Some? then cbs.value else NoCallbacks, table := table), ClientConf(cfg.value))
  }

  /** The event group, then the client with configuration `conf` and its event handler; either may run out of memory. */
  function Create(z: Mqm, conf: ClientConfig): Step
  {
    if EventGroupCreate in z.broker.failing then Step(z, NoMem)
    else
      var z1 := Log(z.(hasEventGroup := true), [OpClientInit(conf)]);
      if MqttClientInit in z1.broker.failing then Step(z1, NoMem)
      else Step(Log(z1.(client := true), [OpRegister]).(initialized := true), Ok)
  }

  /** The timeout a wait of `mqm_start` uses. */
  function StartMs(timeoutMs: nat): nat { if timeoutMs == 0 then StartTimeoutMs else timeoutMs }

  /** The timeout a wait of `mqm_stop` uses. */
  function StopMs(timeoutMs: nat): nat { if timeoutMs == 0 then StopTimeoutMs else timeoutMs }

  /** `mqm_start` on a context. */
  function Start(m: Mqm, timeoutMs: nat): Step
  {
    if !m.initialized then Step(m, InvalidState)
    else
      Started(Wait(Launch(m), true, StartMs(timeoutMs)))
  }

  /** Both bits cleared, the client started, and `started` set. */
  function Launch(m: Mqm): Mqm
  {
    Log(m.(bitConnected := false, bitFail := false), [OpStart]).(started := true)
  }

  /** The end of `mqm_start`: connected on the CONNECTED bit, otherwise a timeout or failure. */
  function Started(r: Waited): Step
  {
    if r.connectedBit then Step(r.m.(connected := true), Ok)
    else Step(Report(r.m, "MQTT connect timeout/fail", MqmError, true), Fail)
  }

  /** `mqm_stop` on a context. */
  function Stop(m: Mqm, timeoutMs: nat): Step
  {
    if !m.started then Step(m, Ok)
    else
      Stopped(Wait(Log(Report(m, "Stopping MQTT...", MqmDisconnecting, true), [OpStop]), false, StopMs(timeoutMs)))
  }

  /** The end of `mqm_stop`: stopped on the FAIL bit, otherwise a stop error. */
  function Stopped(r: Waited): Step
  {
    if r.failBit then Step(Report(r.m.(connected := false, started := false), "MQTT stopped", MqmDisconnected, true), Ok)
    else Step(Report(r.m, "MQTT stop error", MqmError, true), Fail)
  }

  /** `mqm_deinit` on a context: stop if started, destroy the client, zero the context. */
  function Deinit(m: Mqm): Mqm
  {
    var m1 := if m.started then Stop(m, DeinitStopMs).m else m;
    var m2 := if m1.client then Log(m1, [OpDestroy]) else m1;
    Report(Zero(m2), "MQTT uninitialized", MqmDisconnected, true)
  }

  /** The message id the next publish returns (0 once the environment's list is used up). */
  function NextMid(b: Broker): int
  {
    if |b.mids| == 0 then 0 else b.mids[0]
  }

  /** `mqm_publish_ex` on a context. */
  function Publish(m: Mqm, topic: Option<string>, msg: Option<string>, qos: int, retain: int): Step
  {
    if !m.client || topic.None? || msg.None? then Step(m, InvalidArg)
    else if !m.connected then Step(m, InvalidState)
    else
      var mid := NextMid(m.broker);
      var b := m.broker.(mids := if |m.broker.mids| == 0 then [] else m.broker.mids[1..]);
      var m1 := Log(m.(broker := b), [OpPublish(topic.value, msg.value, qos, retain)]);
      Step(m1, if mid < 0 then Fail else Ok)
  }

  /* ---------------------------------------------------------------- lemmas */

  /**
   * `mqm_init` refuses a missing configuration or URI before zeroing; otherwise
   * the configuration, callbacks and table are copied, and the context is
   * initialised exactly when the event group and the client are created.
   */
  lemma InitOutcome(m: Mqm, cfg: Option<MqmConfig>, cbs: Option<MqmCallbacks>, table: Option<seq<TopicEntry>>)
    ensures var r := Init(m, cfg, cbs, table);
            (cfg.None? || cfg.value.uri.None? ==> r == Step(m, InvalidArg)) &&
            (cfg.Some? && cfg.value.uri.Some? ==>
               r.m.cfg == cfg.value && r.m.table == table &&
               r.m.cbs == (if cbs.Some? then cbs.value else NoCallbacks) &&
               !r.m.connected && !r.m.started && r.m.notes == m.notes &&
               (r.m.initialized <==> r.err == Ok) &&
               (r.err == Ok <==> EventGroupCreate !in m.broker.failing && MqttClientInit !in m.broker.failing) &&
               (r.err != Ok ==> r.err == NoMem) &&
               (EventGroupCreate !in m.broker.failing ==>
                  r.m.broker.log[|m.broker.log|] == OpClientInit(ClientConf(cfg.value)) &&
                  ClientConf(cfg.value).keepalive == Keepalive(cfg.value.keepaliveSec)))
  {
  }

  /** The subscriptions of two tables one after the other. */
  lemma {:induction false} SubscriptionsAppend(a: seq<TopicEntry>, b: seq<TopicEntry>)
    ensures Subscriptions(a + b) == Subscriptions(a) + Subscriptions(b)
    decreases |a|
  {
    if a == [] {
      assert a + b == b;
    } else {
      assert (a + b)[1..] == a[1..] + b;
      SubscriptionsAppend(a[1..], b);
    }
  }

  /** Every subscription is at QoS 1 to a topic of the table, and every topic of the table is subscribed to. */
  lemma {:induction false} SubscriptionsCover(table: seq<TopicEntry>)
    ensures |Subscriptions(table)| <= |table|
    ensures forall op :: op in Subscriptions(table) ==>
              op.OpSubscribe? && op.qos == SubscribeQos && exists e :: e in table && e.topic.Some? && e.topic.value == op.topic
    ensures forall e :: e in table && e.topic.Some? ==> OpSubscribe(e.topic.value, SubscribeQos) in Subscriptions(table)
    decreases |table|
  {
    if table != [] {
      SubscriptionsCover(table[1..]);
      forall op | op in Subscriptions(table)
        ensures op.OpSubscribe? && op.qos == SubscribeQos && exists e :: e in table && e.topic.Some? && e.topic.value == op.topic
      {
        if op !in Subscriptions(table[1..]) {
          assert table[0].topic.Some? && op.topic == table[0].topic.value;
        } else {
          assert exists e :: e in table[1..] && e.topic.Some? && e.topic.value == op.topic;
        }
      }
      forall e | e in table && e.topic.Some?
        ensures OpSubscribe(e.topic.value, SubscribeQos) in Subscriptions(table)
      {
        if e != table[0] {
          assert e in table[1..];
        }
      }
    }
  }

  /** `mqm_subscribe_all` refuses only a NULL or empty table and otherwise reports success. */
  lemma SubscribeAllOutcome(m: Mqm)
    ensures var r := SubscribeAll(m);
            (r.err == InvalidArg <==> m.table.None? || m.table.value == []) &&
            (r.err != InvalidArg ==> r.err == Ok && r.m == Log(m, Subscriptions(m.table.value))) &&
            (r.err == InvalidArg ==> r.m == m)
  {
  }

  /** MQTT_EVENT_CONNECTED sets `connected` and the CONNECTED bit and leaves the other flags alone. */
  lemma ConnectedFlags(m: Mqm)
    ensures var c := OnConnected(m);
            c.connected && c.bitConnected && c.bitFail == m.bitFail && c.started == m.started &&
            c.initialized == m.initialized && c.broker.waits == m.broker.waits && c.broker.mids == m.broker.mids
  {
    var m2 := Subscribed(Connect(m));
    assert m2.connected && m2.bitConnected && m2.bitFail == m.bitFail && m2.started == m.started;
  }

  /** MQTT_EVENT_CONNECTED subscribes to every topic of the table, in order, and makes no other client call. */
  lemma ConnectedSubscribes(m: Mqm)
    ensures OnConnected(m).broker.log == m.broker.log + (if m.table.Some? then Subscriptions(m.table.value) else [])
  {
    var m1 := Connect(m);
    assert m1.broker == m.broker && m1.table == m.table;
    if m.table.Some? && m.table.value == [] {
      assert Subscriptions([]) == [];
    }
    assert Subscribed(m1).broker.log == m.broker.log + (if m.table.Some? then Subscriptions(m.table.value) else []);
  }

  /** The subscriptions and the report of MQTT_EVENT_CONNECTED only add status messages. */
  lemma ConnectedReportsOnly(m: Mqm)
    ensures var m2 := Subscribed(Connect(m));
            |m.notes| <= |m2.notes| && m2.notes[..|m.notes|] == m.notes &&
            (forall n :: n in m2.notes[|m.notes|..] ==> n.Status?) && m2.cbs == m.cbs
  {
  }

  /** After MQTT_EVENT_CONNECTED the connected hook runs last, and only when it is set. */
  lemma ConnectedHookLast(m: Mqm)
    ensures var c := OnConnected(m);
            |m.notes| <= |c.notes| && c.notes[..|m.notes|] == m.notes &&
            (m.cbs.onConnected ==> |m.notes| < |c.notes| && c.notes[|c.notes| - 1] == ConnectedHook) &&
            (!m.cbs.onConnected ==> ConnectedHook !in c.notes[|m.notes|..])
  {
    var m2 := Subscribed(Connect(m));
    ConnectedReportsOnly(m);
    if m.cbs.onConnected {
      assert OnConnected(m).notes[..|m.notes|] == m2.notes[..|m.notes|];
    } else {
      assert OnConnected(m) == m2;
    }
  }

  /** MQTT_EVENT_DISCONNECTED clears `connected` and sets the FAIL bit. */
  lemma DisconnectedOutcome(m: Mqm)
    ensures var d := OnDisconnected(m);
            !d.connected && d.bitFail && d.bitConnected == m.bitConnected && d.started == m.started && d.broker == m.broker
  {
  }

  /**
   * MQTT_EVENT_DATA: `on_message` hears the cut topic and payload first; then
   * only the first entry whose topic equals the topic exactly is consulted,
   * even when it has no handler, and its handler gets the payload alone.
   */
  lemma DataDispatch(m: Mqm, topic: seq<char>, data: seq<char>)
    ensures var t := Inbound(topic, TopicMax);
            var p := Inbound(data, PayloadMax);
            var d := OnData(m, topic, data);
            var added := d.notes[|m.notes|..];
            |t| <= TopicMax - 1 && |p| <= PayloadMax - 1 &&
            d.notes[..|m.notes|] == m.notes && d.broker == m.broker && d.connected == m.connected &&
            (m.cbs.onMessage ==> added[0] == Message(t, p)) &&
            (forall n :: n in added && n.Handled? ==>
               exists i :: 0 <= i < |Entries(m)| && Entries(m)[i].topic == Some(t) &&
                           (forall j :: 0 <= j < i ==> Entries(m)[j].topic != Some(t)) &&
                           Entries(m)[i].handler == Some(n.handler) && n.payload == p) &&
            |added| <= 2
  {
  }

  /** A topic no entry names reaches only `on_message`. */
  lemma DataUnmatched(m: Mqm, topic: seq<char>, data: seq<char>)
    requires forall i :: 0 <= i < |Entries(m)| ==> Entries(m)[i].topic != Some(Inbound(topic, TopicMax))
    ensures OnData(m, topic, data).notes ==
              m.notes + (if m.cbs.onMessage then [Message(Inbound(topic, TopicMax), Inbound(data, PayloadMax))] else [])
  {
  }

  /** A wait never changes `started` or `initialized`, and is recorded. */
  lemma WaitFrame(m: Mqm, withConnected: bool, ms: nat)
    ensures var r := Wait(m, withConnected, ms);
            r.m.started == m.started && r.m.initialized == m.initialized &&
            m.broker.log + [OpWait(withConnected, ms)] <= r.m.broker.log
  {
    var m0 := Log(m, [OpWait(withConnected, ms)]);
    if !Awaited(m0, withConnected) && |m0.broker.waits| > 0 {
      var m1 := m0.(broker := m0.broker.(waits := m0.broker.waits[1..]));
      if m.broker.waits[0] == Connects {
        ConnectedFlags(m1);
        ConnectedSubscribes(m1);
      }
    }
  }

  /** An awaited bit that is already set is returned at once, without taking an outcome, and is cleared. */
  lemma WaitPending(m: Mqm, withConnected: bool, ms: nat)
    requires Awaited(m, withConnected)
    ensures var r := Wait(m, withConnected, ms);
            r.connectedBit == m.bitConnected && r.failBit == m.bitFail && r.m.connected == m.connected &&
            !Awaited(r.m, withConnected) && r.m.broker.waits == m.broker.waits
  {
  }

  /**
   * Otherwise the wait returns what the arriving event sets: CONNECTED for a
   * connect, FAIL for a disconnect, and the bits unchanged when none arrives.
   */
  lemma WaitArrives(m: Mqm, withConnected: bool, ms: nat)
    requires !Awaited(m, withConnected)
    ensures var r := Wait(m, withConnected, ms);
            var none := |m.broker.waits| == 0 || m.broker.waits[0] == Silent;
            (none ==> !r.failBit && r.connectedBit == m.bitConnected && r.m.connected == m.connected) &&
            (!none && m.broker.waits[0] == Connects ==> r.connectedBit && !r.failBit && r.m.connected) &&
            (!none && m.broker.waits[0] == Drops ==> r.failBit && r.connectedBit == m.bitConnected && !r.m.connected)
  {
    var m0 := Log(m, [OpWait(withConnected, ms)]);
    if |m0.broker.waits| > 0 {
      var m1 := m0.(broker := m0.broker.(waits := m0.broker.waits[1..]));
      if m.broker.waits[0] == Connects {
        ConnectedFlags(m1);
      }
    }
  }

  /**
   * `mqm_start`: an uninitialised context is refused unchanged; otherwise the
   * client is started, `started` is set and stays set, the wait is bounded by
   * the given timeout (15000 ms for 0), and OK with `connected` results
   * exactly when the CONNECTED event arrives during the wait.
   */
  lemma StartOutcome(m: Mqm, timeoutMs: nat)
    ensures var r := Start(m, timeoutMs);
            (!m.initialized ==> r == Step(m, InvalidState)) &&
            (m.initialized ==>
               r.m.started && (r.err == Ok || r.err == Fail) &&
               (r.err == Ok <==> |m.broker.waits| > 0 && m.broker.waits[0] == Connects) &&
               (r.err == Ok ==> r.m.connected) &&
               m.broker.log + [OpStart, OpWait(true, StartMs(timeoutMs))] <= r.m.broker.log)
  {
    if m.initialized {
      var m1 := Log(m.(bitConnected := false, bitFail := false), [OpStart]).(started := true);
      WaitFrame(m1, true, StartMs(timeoutMs));
      WaitArrives(m1, true, StartMs(timeoutMs));
      assert m1.broker.log + [OpWait(true, StartMs(timeoutMs))] ==
             m.broker.log + [OpStart, OpWait(true, StartMs(timeoutMs))];
    }
  }

  /** A timeout of 0 stands for the documented defaults. */
  lemma DefaultTimeouts()
    ensures StartMs(0) == 15000 && StopMs(0) == 3000
    ensures forall t: nat :: t > 0 ==> StartMs(t) == t && StopMs(t) == t
  {
  }

  /**
   * `mqm_stop`: a context that is not started is left alone with OK; the FAIL
   * bit (already set, or set by the disconnect that arrives) clears both flags
   * and gives OK; otherwise it is FAIL with `started` still set, and with
   * `connected` unchanged when no event arrives.
   */
  lemma StopOutcome(m: Mqm, timeoutMs: nat)
    ensures var r := Stop(m, timeoutMs);
            (!m.started ==> r == Step(m, Ok)) &&
            (m.started ==>
               (r.err == Ok || r.err == Fail) &&
               (r.err == Ok <==> m.bitFail || (|m.broker.waits| > 0 && m.broker.waits[0] == Drops)) &&
               (r.err == Ok ==> !r.m.connected && !r.m.started) &&
               (r.err == Fail ==> r.m.started && r.m.initialized == m.initialized) &&
               (r.err == Fail && (|m.broker.waits| == 0 || m.broker.waits[0] == Silent) ==> r.m.connected == m.connected) &&
               m.broker.log + [OpStop, OpWait(false, StopMs(timeoutMs))] <= r.m.broker.log)
  {
    if m.started {
      var m1 := Log(Report(m, "Stopping MQTT...", MqmDisconnecting, true), [OpStop]);
      WaitFrame(m1, false, StopMs(timeoutMs));
      if m.bitFail {
        WaitPending(m1, false, StopMs(timeoutMs));
      } else {
        WaitArrives(m1, false, StopMs(timeoutMs));
      }
      assert m1.broker.log + [OpWait(false, StopMs(timeoutMs))] ==
             m.broker.log + [OpStop, OpWait(false, StopMs(timeoutMs))];
    }
  }

  /**
   * `mqm_deinit` leaves a zeroed context, and the status message it sends
   * after zeroing reaches no callback: the callbacks hear only what the stop
   * before it says. The client is destroyed last.
   */
  lemma DeinitOutcome(m: Mqm)
    ensures var d := Deinit(m);
            var s := if m.started then Stop(m, DeinitStopMs).m else m;
            !d.client && !d.hasEventGroup && !d.initialized && !d.started && !d.connected && !d.bitConnected && !d.bitFail &&
            d.table.None? && d.cbs == NoCallbacks && d.notes == s.notes &&
            d.broker.log == s.broker.log + (if s.client then [OpDestroy] else [])
  {
    var s := if m.started then Stop(m, DeinitStopMs).m else m;
    var s2 := if s.client then Log(s, [OpDestroy]) else s;
    assert Deinit(m) == Zero(s2);
  }

  /** `mqm_deinit` on a context that is already zeroed changes nothing and says nothing. */
  lemma DeinitZeroed(m: Mqm)
    ensures Deinit(Zero(m)) == Zero(m)
  {
  }

  /**
   * `mqm_publish_ex`: a missing client, topic or message is refused, a
   * disconnected context is refused without touching the client, and
   * otherwise the message is handed to the client and the result is FAIL
   * exactly when it returns a negative message id.
   */
  lemma PublishOutcome(m: Mqm, topic: Option<string>, msg: Option<string>, qos: int, retain: int)
    ensures var r := Publish(m, topic, msg, qos, retain);
            (!m.client || topic.None? || msg.None? ==> r == Step(m, InvalidArg)) &&
            (m.client && topic.Some? && msg.Some? && !m.connected ==> r == Step(m, InvalidState)) &&
            (r.err == Ok || r.err == Fail ==>
               m.client && m.connected &&
               r.m.broker.log == m.broker.log + [OpPublish(topic.value, msg.value, qos, retain)] &&
               (r.err == Fail <==> NextMid(m.broker) < 0)) &&
            r.m.notes == m.notes && r.m.connected == m.connected
  {
  }
}
