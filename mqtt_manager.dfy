/**
 * The MQTT manager of main/mqtt_manager.c as an object whose fields are those
 * of `mqm_t` (plus the client environment). Every method is proved to leave
 * exactly the state the matching function of MqttModel describes; the
 * properties of the manager are the lemmas proved there.
 */
module MqttManager {
  import opened Esp
  import opened Util
  import opened MqttModel

  /* --------------------------------------------------------------- the context */

  class Manager {
    var client: bool
    var hasEventGroup: bool
    var bitConnected: bool
    var bitFail: bool
    var connected: bool
    var started: bool
    var initialized: bool
    var cfg: MqmConfig
    var cbs: MqmCallbacks
    var table: Option<seq<TopicEntry>>
    var broker: Broker
    var notes: seq<Note>

    /** The context as a value. */
    function Snap(): Mqm
      reads this
    {
      Mqm(client, hasEventGroup, bitConnected, bitFail, connected, started, initialized, cfg, cbs, table, broker, notes)
    }

    /** A zeroed context beside client environment `b`. */
    constructor (b: Broker)
      ensures Snap() == Zero(Snap()) && broker == b && notes == []
    {
      client, hasEventGroup, bitConnected, bitFail := false, false, false, false;
      connected, started, initialized := false, false, false;
      cfg, cbs, table := ZeroConfig, NoCallbacks, None;
      broker, notes := b, [];
    }

    /** `mqm_status`. */
    method Report(msg: string, st: MqmStatus, update: bool)
      modifies this
      ensures Snap() == MqttModel.Report(old(Snap()), msg, st, update)
    {
      if cbs.onStatus && update {
        notes := notes + [Status(msg, st)];
      }
    }

    method Log(op: ClientOp)
      modifies this
      ensures Snap() == MqttModel.Log(old(Snap()), [op])
    {
      broker := broker.(log := broker.log + [op]);
    }

    /** `memset(mqm, 0, sizeof(*mqm))`. */
    method Clear()
      modifies this
      ensures Snap() == Zero(old(Snap()))
    {
      client, hasEventGroup, bitConnected, bitFail := false, false, false, false;
      connected, started, initialized := false, false, false;
      cfg, cbs, table := ZeroConfig, NoCallbacks, None;
    }

    /** `mqm_subscribe_all`: one subscription per entry with a topic, in table order. */
    method SubscribeAll() returns (err: Err)
      modifies this
      ensures Snap() == MqttModel.SubscribeAll(old(Snap())).m && err == MqttModel.SubscribeAll(old(Snap())).err
    {
      if table.None? || |table.value| == 0 {
        return InvalidArg;
      }
      var t := table.value;
      ghost var m0 := Snap();
      for i := 0 to |t|
        invariant Snap() == MqttModel.Log(m0, Subscriptions(t[..i]))
      {
        assert t[..i + 1] == t[..i] + [t[i]];
        SubscriptionsAppend(t[..i], [t[i]]);
        if t[i].topic.Some? {
          Log(OpSubscribe(t[i].topic.value, SubscribeQos));
        }
      }
      assert t[..|t|] == t;
      return Ok;
    }

    /** MQTT_EVENT_CONNECTED. */
    method OnConnected()
      modifies this
      ensures Snap() == MqttModel.OnConnected(old(Snap()))
    {
      Connect();
      Subscribed();
      Hooked();
    }

    method Connect()
      modifies this
      ensures Snap() == MqttModel.Connect(old(Snap()))
    {
      bitConnected := true;
      connected := true;
      Report("MQTT connected", MqmConnected, true);
    }

    method Subscribed()
      modifies this
      ensures Snap() == MqttModel.Subscribed(old(Snap()))
    {
      var err := SubscribeAll();
      if err != Ok {
        Report("Subscription failed", MqmError, true);
      }
    }

    method Hooked()
      modifies this
      ensures Snap() == MqttModel.Hooked(old(Snap()))
    {
      if cbs.onConnected {
        notes := notes + [ConnectedHook];
      }
    }

    /** MQTT_EVENT_DISCONNECTED. */
    method OnDisconnected()
      modifies this
      ensures Snap() == MqttModel.OnDisconnected(old(Snap()))
    {
      bitFail := true;
      connected := false;
      Report("MQTT DISCONNECTED", MqmDisconnected, true);
    }

    /** The dispatch loop of MQTT_EVENT_DATA: the first entry whose topic is `t` runs its handler, if any, and ends the search. */
    method Dispatch(t: CString, p: string)
      modifies this
      ensures Snap() == old(Snap()).(notes := old(notes) + Dispatched(Entries(old(Snap())), t, p))
    {
      var tbl := if table.Some? then table.value else [];
      var i := 0;
      while i < |tbl|
        invariant 0 <= i <= |tbl|
        invariant forall j :: 0 <= j < i ==> tbl[j].topic != Some(t)
        invariant Snap() == old(Snap())
      {
        if tbl[i].topic.Some? && tbl[i].topic.value == t {
          assert MatchFrom(tbl, t, 0) == Some(i);
          if tbl[i].handler.Some? {
            notes := notes + [Handled(tbl[i].handler.value, p)];
          }
          return;
        }
        i := i + 1;
      }
      assert MatchFrom(tbl, t, 0).None?;
    }

    /** MQTT_EVENT_DATA. */
    method OnData(topic: seq<char>, data: seq<char>)
      modifies this
      ensures Snap() == MqttModel.OnData(old(Snap()), topic, data)
    {
      var t := Inbound(topic, TopicMax);
      var p := Inbound(data, PayloadMax);
      if cbs.onMessage {
        notes := notes + [Message(t, p)];
      }
      Dispatch(t, p);
    }

    /** `mqm_event_core`. */
    method EventCore(ev: MqttEvent) returns (err: Err)
      modifies this
      ensures Snap() == MqttModel.EventCore(old(Snap()), ev) && err == Ok
    {
      match ev {
        case EvConnected => OnConnected();
        case EvDisconnected => OnDisconnected();
        case EvData(topic, data) => OnData(topic, data);
        case EvOther =>
      }
      return Ok;
    }

    /** `xEventGroupWaitBits` with clear on exit, for FAIL and, when `withConnected`, CONNECTED. */
    method Wait(withConnected: bool, ms: nat) returns (connectedBit: bool, failBit: bool)
      modifies this
      ensures var r := MqttModel.Wait(old(Snap()), withConnected, ms);
              Snap() == r.m && connectedBit == r.connectedBit && failBit == r.failBit
    {
      Log(OpWait(withConnected, ms));
      if !(bitFail || (withConnected && bitConnected)) && |broker.waits| > 0 {
        Arrive();
      }
      connectedBit, failBit := bitConnected, bitFail;
      if bitFail || (withConnected && bitConnected) {
        bitFail := false;
        if withConnected {
          bitConnected := false;
        }
      }
    }

    /** The next outcome of the environment taken, and its event handled. */
    method Arrive()
      requires |broker.waits| > 0
      modifies this
      ensures Snap() == MqttModel.Arrive(old(Snap()))
    {
      var o := broker.waits[0];
      broker := broker.(waits := broker.waits[1..]);
      match o {
        case Connects => OnConnected();
        case Drops => OnDisconnected();
        case Silent =>
      }
    }

    /** `mqm_init` on a context. */
    method Setup(cfg: Option<MqmConfig>, cbs: Option<MqmCallbacks>, table: Option<seq<TopicEntry>>) returns (err: Err)
      modifies this
      ensures Snap() == MqttModel.Init(old(Snap()), cfg, cbs, table).m && err == MqttModel.Init(old(Snap()), cfg, cbs, table).err
    {
      if cfg.None? || cfg.value.uri.None? {
        return InvalidArg;
      }
      Clear();
      this.cfg := cfg.value;
      if cbs.Some? {
        this.cbs := cbs.value;
      }
      if table.Some? {
        this.table := table;
      }
      err := Create(ClientConf(cfg.value));
    }

    /** The event group, then the client and its event handler. */
    method Create(conf: ClientConfig) returns (err: Err)
      modifies this
      ensures Snap() == MqttModel.Create(old(Snap()), conf).m && err == MqttModel.Create(old(Snap()), conf).err
    {
      if EventGroupCreate in broker.failing {
        return NoMem;
      }
      hasEventGroup := true;
      Log(OpClientInit(conf));
      if MqttClientInit in broker.failing {
        return NoMem;
      }
      client := true;
      Log(OpRegister);
      initialized := true;
      Report("MQTT manager initialized", MqmNone, false);
      return Ok;
    }

    /** `mqm_start` on a context. */
    method StartClient(timeoutMs: nat) returns (err: Err)
      modifies this
      ensures Snap() == MqttModel.Start(old(Snap()), timeoutMs).m && err == MqttModel.Start(old(Snap()), timeoutMs).err
    {
      if !initialized {
        return InvalidState;
      }
      Launch();
      var gotConnected, gotFail := Wait(true, if timeoutMs == 0 then StartTimeoutMs else timeoutMs);
      err := Started(gotConnected, gotFail);
    }

    method Launch()
      modifies this
      ensures Snap() == MqttModel.Launch(old(Snap()))
    {
      bitConnected, bitFail := false, false;
      Log(OpStart);
      started := true;
    }

    /** The end of `mqm_start`, given the bits the wait returned. */
    method Started(gotConnected: bool, gotFail: bool) returns (err: Err)
      modifies this
      ensures var r := MqttModel.Started(Waited(old(Snap()), gotConnected, gotFail));
              Snap() == r.m && err == r.err
    {
      if gotConnected {
        connected := true;
        return Ok;
      }
      Report("MQTT connect timeout/fail", MqmError, true);
      return Fail;
    }

    /** `mqm_stop` on a context. */
    method StopClient(timeoutMs: nat) returns (err: Err)
      modifies this
      ensures Snap() == MqttModel.Stop(old(Snap()), timeoutMs).m && err == MqttModel.Stop(old(Snap()), timeoutMs).err
    {
      if !started {
        return Ok;
      }
      Report("Stopping MQTT...", MqmDisconnecting, true);
      Log(OpStop);
      var gotConnected, gotFail := Wait(false, if timeoutMs == 0 then StopTimeoutMs else timeoutMs);
      err := Stopped(gotConnected, gotFail);
    }

    /** The end of `mqm_stop`, given the bits the wait returned. */
    method Stopped(gotConnected: bool, gotFail: bool) returns (err: Err)
      modifies this
      ensures var r := MqttModel.Stopped(Waited(old(Snap()), gotConnected, gotFail));
              Snap() == r.m && err == r.err
    {
      if gotFail {
        connected := false;
        started := false;
        Report("MQTT stopped", MqmDisconnected, true);
        return Ok;
      }
      Report("MQTT stop error", MqmError, true);
      return Fail;
    }

    /** `mqm_deinit` on a context. */
    method Teardown()
      modifies this
      ensures Snap() == MqttModel.Deinit(old(Snap()))
    {
      if started {
        var _ := StopClient(DeinitStopMs);
      }
      if client {
        Log(OpDestroy);
      }
      Clear();
      Report("MQTT uninitialized", MqmDisconnected, true);
    }

    /** `mqm_publish_ex` on a context. */
    method PublishEx(topic: Option<string>, msg: Option<string>, qos: int, retain: int) returns (err: Err)
      modifies this
      ensures Snap() == MqttModel.Publish(old(Snap()), topic, msg, qos, retain).m && err == MqttModel.Publish(old(Snap()), topic, msg, qos, retain).err
    {
      if !client || topic.None? || msg.None? {
        return InvalidArg;
      }
      if !connected {
        return InvalidState;
      }
      var mid := NextMid(broker);
      broker := broker.(mids := if |broker.mids| == 0 then [] else broker.mids[1..]);
      Log(OpPublish(topic.value, msg.value, qos, retain));
      return if mid < 0 then Fail else Ok;
    }
  }

  /* ------------------------------------------------- the API on nullable contexts */

  /** `mqm_init`: a NULL context is refused like a missing configuration. */
  method Init(m: Manager?, cfg: Option<MqmConfig>, cbs: Option<MqmCallbacks>, table: Option<seq<TopicEntry>>) returns (err: Err)
    modifies m
    ensures m == null ==> err == InvalidArg
    ensures m != null ==> m.Snap() == MqttModel.Init(old(m.Snap()), cfg, cbs, table).m &&
                          err == MqttModel.Init(old(m.Snap()), cfg, cbs, table).err
  {
    if m == null {
      return InvalidArg;
    }
    err := m.Setup(cfg, cbs, table);
  }

  /** `mqm_start`: a NULL context is in the wrong state. */
  method Start(m: Manager?, timeoutMs: nat) returns (err: Err)
    modifies m
    ensures m == null ==> err == InvalidState
    ensures m != null ==> m.Snap() == MqttModel.Start(old(m.Snap()), timeoutMs).m &&
                          err == MqttModel.Start(old(m.Snap()), timeoutMs).err
  {
    if m == null {
      return InvalidState;
    }
    err := m.StartClient(timeoutMs);
  }

  /** `mqm_stop`: nothing to stop for a NULL context. */
  method Stop(m: Manager?, timeoutMs: nat) returns (err: Err)
    modifies m
    ensures m == null ==> err == Ok
    ensures m != null ==> m.Snap() == MqttModel.Stop(old(m.Snap()), timeoutMs).m &&
                          err == MqttModel.Stop(old(m.Snap()), timeoutMs).err
  {
    if m == null {
      return Ok;
    }
    err := m.StopClient(timeoutMs);
  }

  /** `mqm_deinit`: nothing for a NULL context. */
  method Deinit(m: Manager?)
    modifies m
    ensures m != null ==> m.Snap() == MqttModel.Deinit(old(m.Snap()))
  {
    if m != null {
      m.Teardown();
    }
  }

  /** `mqm_publish_ex`: a NULL context is an invalid argument. */
  method Publish(m: Manager?, topic: Option<string>, msg: Option<string>, qos: int, retain: int) returns (err: Err)
    modifies m
    ensures m == null ==> err == InvalidArg
    ensures m != null ==> m.Snap() == MqttModel.Publish(old(m.Snap()), topic, msg, qos, retain).m &&
                          err == MqttModel.Publish(old(m.Snap()), topic, msg, qos, retain).err
  {
    if m == null {
      return InvalidArg;
    }
    err := m.PublishEx(topic, msg, qos, retain);
  }

  /** `mqm_is_connected`: false for a NULL context, otherwise the `connected` flag. */
  function IsConnected(m: Manager?): (b: bool)
    reads m
    ensures b <==> m != null && m.Snap().connected
  {
    m != null && m.connected
  }
}
