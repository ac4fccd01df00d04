/**
 * `ActionRequestReceiver`: the start gate, the authentication payload sent
 * when a relay connection opens, and the `active` flag that keeps
 * `run_forever` reconnecting until `stop` clears it. A relay connection is
 * modelled as the finite sequence of events it delivers before it closes.
 */
module Receiver {
  import opened Wrappers
  import opened Json
  import opened Requests
  import opened Routing

  /** The module-level settings read from the environment when the receiver module loads. */
  datatype Settings = Settings(
    relayAddress: string,     // WEBSOCKET_RELAY_ADDRESS
    receiverEnabled: string,  // INCOMING_RECEIVER_ENABLED
    targetId: string,         // TARGET_ID
    requestWindow: int)       // INCOMING_REQUEST_TIME_WINDOW_SECONDS

  const DefaultRelayAddress: string := "wss://relay.robusta.dev"
  const DefaultReceiverEnabled: string := "True"

  /** `os.environ.get(name, default)` for the two settings the start gate reads. */
  function SettingsFromEnvironment(env: map<string, string>, targetId: string, requestWindow: int): (s: Settings)
    ensures "WEBSOCKET_RELAY_ADDRESS" !in env ==> s.relayAddress == DefaultRelayAddress
    ensures "WEBSOCKET_RELAY_ADDRESS" in env ==> s.relayAddress == env["WEBSOCKET_RELAY_ADDRESS"]
    ensures "INCOMING_RECEIVER_ENABLED" !in env ==> s.receiverEnabled == DefaultReceiverEnabled
    ensures "INCOMING_RECEIVER_ENABLED" in env ==> s.receiverEnabled == env["INCOMING_RECEIVER_ENABLED"]
    ensures s.targetId == targetId && s.requestWindow == requestWindow
  {
    Settings(
      if "WEBSOCKET_RELAY_ADDRESS" in env then env["WEBSOCKET_RELAY_ADDRESS"] else DefaultRelayAddress,
      if "INCOMING_RECEIVER_ENABLED" in env then env["INCOMING_RECEIVER_ENABLED"] else DefaultReceiverEnabled,
      targetId,
      requestWindow)
  }

  /** How `start_incoming_receiver` ends. */
  datatype StartOutcome = OutgoingOnly | RelayAddressEmpty | ReceiverStarted

  /**
   * `start_incoming_receiver`: the receiver loop starts only when incoming
   * processing is enabled with exactly the text "True" and the relay address
   * is not empty; the enable flag is checked first.
   */
  function StartGate(settings: Settings): (outcome: StartOutcome)
    ensures outcome == ReceiverStarted <==> settings.receiverEnabled == "True" && settings.relayAddress != ""
    ensures settings.receiverEnabled != "True" ==> outcome == OutgoingOnly
    ensures outcome == RelayAddressEmpty <==> settings.receiverEnabled == "True" && settings.relayAddress == ""
  {
    if settings.receiverEnabled != "True" then OutgoingOnly
    else if settings.relayAddress == "" then RelayAddressEmpty
    else ReceiverStarted
  }

  /** With nothing set in the environment the receiver starts, towards the default relay. */
  lemma DefaultsStartReceiver(targetId: string, requestWindow: int)
    ensures StartGate(SettingsFromEnvironment(map[], targetId, requestWindow)) == ReceiverStarted
    ensures SettingsFromEnvironment(map[], targetId, requestWindow).relayAddress == DefaultRelayAddress
  {
  }

  /** Only the exact text "True" enables the receiver; "true" or "1" do not. */
  lemma EnableFlagIsExact(env: map<string, string>, targetId: string, requestWindow: int)
    requires "INCOMING_RECEIVER_ENABLED" in env && env["INCOMING_RECEIVER_ENABLED"] != "True"
    ensures StartGate(SettingsFromEnvironment(env, targetId, requestWindow)) == OutgoingOnly
  {
  }

  type Payload = seq<(string, string)>

  /**
   * The payload `on_open` sends, in insertion order: the fixed `auth`
   * members, then the account and cluster only when both are truthy.
   */
  function OpenPayload(targetId: string, config: Config): (payload: Payload)
    ensures |payload| == 3 || |payload| == 5
    ensures payload[..3] == [("action", "auth"), ("key", "dummy key"), ("target_id", targetId)]
  {
    var accountId := Lookup(config, "account_id");
    var clusterName := Lookup(config, "cluster_name");
    [("action", "auth"), ("key", "dummy key"), ("target_id", targetId)]
    + if TruthyText(accountId) && TruthyText(clusterName)
      then [("account_id", accountId.value), ("cluster_name", clusterName.value)]
      else []
  }

  /**
   * The account and cluster travel together: each is in the payload exactly
   * when both are set and non-empty in the configuration, and then with the
   * configured value.
   */
  lemma OpenPayloadClaims(targetId: string, config: Config)
    ensures var p := OpenPayload(targetId, config);
            var both := TruthyText(Lookup(config, "account_id")) && TruthyText(Lookup(config, "cluster_name"));
            && (HasKey(p, "account_id") <==> both)
            && (HasKey(p, "cluster_name") <==> both)
            && (both ==> ("account_id", config["account_id"]) in p && ("cluster_name", config["cluster_name"]) in p)
  {
    var p := OpenPayload(targetId, config);
    if |p| == 5 {
      assert p[3].0 == "account_id" && p[4].0 == "cluster_name";
    }
  }

  /** What reaches the receiver while one relay connection is open. */
  datatype Event =
    | Opened(config: Config)                           // on_open, reading the configuration at that moment
    | Received(message: Option<Json>, config: Config, now: real) // on_message: the text as `json.loads` reads it (`None` if it is not JSON), with the configuration and clock at that moment
    | Errored                                          // on_error: logged only
    | StopRequested                                    // another thread calls stop()

  /** The receiver's observable state. */
  datatype Trace = Trace(
    active: bool,
    connections: nat,                        // relay connections opened so far
    sent: seq<Payload>,                      // auth payloads sent
    dispatched: seq<ExternalActionRequest>)  // requests handed to dispatch, in order

  /** One callback: only a stop request touches `active`, and the logs only grow. */
  function Step(settings: Settings, prims: Primitives, t: Trace, e: Event): (r: Trace)
    ensures r.active == (t.active && !e.StopRequested?)
    ensures r.connections == t.connections
    ensures !e.Received? ==> r.dispatched == t.dispatched
    ensures !e.Opened? ==> r.sent == t.sent
    ensures t.sent <= r.sent && |r.sent| <= |t.sent| + 1
    ensures t.dispatched <= r.dispatched
  {
    match e
    case Opened(config) => t.(sent := t.sent + [OpenPayload(settings.targetId, config)])
    case Received(message, config, now) =>
      t.(dispatched := t.dispatched + Dispatches(Route(message, config, now, settings.requestWindow, prims), prims))
    case Errored => t
    case StopRequested => t.(active := false)
  }

  /** One connection's events, handled in the order the transport delivers them. */
  function RunSession(settings: Settings, prims: Primitives, t: Trace, events: seq<Event>): (r: Trace)
    ensures r.connections == t.connections
    ensures t.sent <= r.sent && |r.sent| <= |t.sent| + |events|
    ensures t.dispatched <= r.dispatched
  {
    if events == [] then t
    else Step(settings, prims, RunSession(settings, prims, t, events[..|events| - 1]), events[|events| - 1])
  }

  /**
   * `run_forever` over the connections the relay would give it: each turn of
   * `while self.active` opens one connection and runs it until it closes.
   */
  function RunLoop(settings: Settings, prims: Primitives, t: Trace, sessions: seq<seq<Event>>): (r: Trace)
    ensures !t.active ==> r == t
    ensures t.connections <= r.connections <= t.connections + |sessions|
    ensures t.sent <= r.sent && t.dispatched <= r.dispatched
    decreases |sessions|
  {
    if !t.active || sessions == [] then t
    else RunLoop(settings, prims, RunSession(settings, prims, t.(connections := t.connections + 1), sessions[0]), sessions[1..])
  }

  /** The index of the first connection during which `stop` is called, or the number of connections. */
  function FirstStop(sessions: seq<seq<Event>>): (k: nat)
    ensures k <= |sessions|
    ensures forall j | 0 <= j < k :: StopRequested !in sessions[j]
    ensures k < |sessions| ==> StopRequested in sessions[k]
  {
    if sessions == [] || StopRequested in sessions[0] then 0 else 1 + FirstStop(sessions[1..])
  }

  /**
   * Within one connection only a stop request clears `active`; `stop` does not
   * cut the connection short and opens or counts no connection.
   */
  lemma {:induction false} SessionKeepsActive(settings: Settings, prims: Primitives, t: Trace, events: seq<Event>)
    ensures RunSession(settings, prims, t, events).active == (t.active && StopRequested !in events)
    decreases |events|
  {
    if events != [] {
      var n := |events| - 1;
      var mid := RunSession(settings, prims, t, events[..n]);
      SessionKeepsActive(settings, prims, t, events[..n]);
      assert RunSession(settings, prims, t, events) == Step(settings, prims, mid, events[n]);
      assert events == events[..n] + [events[n]];
      assert (StopRequested in events) <==> (StopRequested in events[..n] || events[n] == StopRequested);
    }
  }

  /**
   * `stop` is cooperative: what a connection dispatches and sends does not
   * depend on `active`, so messages that arrive after a stop request on the
   * same connection are still handled.
   */
  lemma {:induction false} StopIsSoft(settings: Settings, prims: Primitives, t: Trace, events: seq<Event>, wasActive: bool)
    ensures RunSession(settings, prims, t.(active := wasActive), events).dispatched == RunSession(settings, prims, t, events).dispatched
    ensures RunSession(settings, prims, t.(active := wasActive), events).sent == RunSession(settings, prims, t, events).sent
    decreases |events|
  {
    if events != [] {
      StopIsSoft(settings, prims, t, events[..|events| - 1], wasActive);
    }
  }

  /**
   * A receiver that is still active opens connections up to and including
   * the one during which `stop` is called, and none after it; a stopped
   * receiver opens none at all.
   */
  lemma {:induction false} ConnectionsUntilStop(settings: Settings, prims: Primitives, t: Trace, sessions: seq<seq<Event>>)
    ensures var r := RunLoop(settings, prims, t, sessions);
            var k := FirstStop(sessions);
            && r.connections == t.connections + (if !t.active then 0 else if k < |sessions| then k + 1 else |sessions|)
            && r.active == (t.active && k == |sessions|)
    decreases |sessions|
  {
    if t.active && sessions != [] {
      var t' := RunSession(settings, prims, t.(connections := t.connections + 1), sessions[0]);
      SessionKeepsActive(settings, prims, t.(connections := t.connections + 1), sessions[0]);
      assert RunLoop(settings, prims, t, sessions) == RunLoop(settings, prims, t', sessions[1..]);
      ConnectionsUntilStop(settings, prims, t', sessions[1..]);
      if StopRequested !in sessions[0] {
        assert FirstStop(sessions) == 1 + FirstStop(sessions[1..]);
      }
    }
  }

  class ActionRequestReceiver {
    const settings: Settings
    var active: bool
    var receiverStarted: bool
    var connections: nat
    var sent: seq<Payload>
    var dispatched: seq<ExternalActionRequest>

    function Snapshot(): Trace
      reads this
    {
      Trace(active, connections, sent, dispatched)
    }

    /** `__init__`: active from the start, then the start gate. */
    constructor (settings: Settings)
      ensures this.settings == settings
      ensures active && connections == 0 && sent == [] && dispatched == []
      ensures receiverStarted <==> StartGate(settings) == ReceiverStarted
    {
      this.settings := settings;
      active := true;
      receiverStarted := false;
      connections := 0;
      sent := [];
      dispatched := [];
      new;
      var _ := StartIncomingReceiver();
    }

    /** `start_incoming_receiver`: marks the receiver loop as launched when the gate lets it through. */
    method StartIncomingReceiver() returns (outcome: StartOutcome)
      modifies this`receiverStarted
      ensures outcome == StartGate(settings)
      ensures receiverStarted == (old(receiverStarted) || outcome == ReceiverStarted)
    {
      if settings.receiverEnabled != "True" {
        return OutgoingOnly;
      }
      if settings.relayAddress == "" {
        return RelayAddressEmpty;
      }
      receiverStarted := true;
      outcome := ReceiverStarted;
    }

    /** `stop`: clears `active` and nothing else. */
    method Stop()
      modifies this`active
      ensures !active
      ensures Snapshot() == old(Snapshot()).(active := false)
    {
      active := false;
    }

    /** `on_open`: sends the authentication payload for the current configuration. */
    method OnOpen(config: Config)
      modifies this`sent
      ensures sent == old(sent) + [OpenPayload(settings.targetId, config)]
    {
      var payload := [("action", "auth"), ("key", "dummy key"), ("target_id", settings.targetId)];
      var accountId := Lookup(config, "account_id");
      var clusterName := Lookup(config, "cluster_name");
      if TruthyText(accountId) && TruthyText(clusterName) {
        payload := payload + [("account_id", accountId.value), ("cluster_name", clusterName.value)];
      } else {
        assert payload + [] == payload;
      }
      sent := sent + [payload];
    }

    /**
     * `on_message`: appends what the message dispatches to the log. `escaped`
     * says an exception left the method; `failures` counts the legacy entries
     * that were logged as failed and skipped.
     */
    method OnMessage(message: Option<Json>, config: Config, now: real, prims: Primitives) returns (escaped: bool, failures: nat)
      modifies this`dispatched
      ensures var outcome := Route(message, config, now, settings.requestWindow, prims);
              && dispatched == old(dispatched) + Dispatches(outcome, prims)
              && escaped == Escapes(outcome)
              && failures == (if outcome.Legacy? then |outcome.entries| - |LegacyDispatches(outcome.entries, prims)| else 0)
    {
      var outcome := Route(message, config, now, settings.requestWindow, prims);
      escaped, failures := false, 0;
      match outcome {
        case InvalidJson => escaped := true;
        case NotAnObject => escaped := true;
        case ActionsNotIterable => escaped := true;
        case Direct(result) =>
          if result.Dispatched? {
            dispatched := dispatched + [result.request];
          }
        case Legacy(entries) =>
          for i := 0 to |entries|
            invariant dispatched == old(dispatched) + LegacyDispatches(entries[..i], prims)
            invariant failures + |LegacyDispatches(entries[..i], prims)| == i
          {
            assert entries[..i + 1][..i] == entries[..i];
            var request := EntryRequest(entries[i], prims);
            if request.Some? {
              dispatched := dispatched + [request.value];
            } else {
              failures := failures + 1;
            }
          }
          assert entries[..|entries|] == entries;
      }
    }

    /** Handles one event of an open connection. */
    method Handle(e: Event, prims: Primitives)
      modifies this`active, this`sent, this`dispatched
      ensures Snapshot() == Step(settings, prims, old(Snapshot()), e)
    {
      match e {
        case Opened(config) => OnOpen(config);
        case Received(message, config, now) => var _, _ := OnMessage(message, config, now, prims);
        case Errored =>
        case StopRequested => Stop();
      }
    }

    /** `ws.run_forever()` for one connection: its callbacks, in delivery order, until it closes. */
    method RunConnection(events: seq<Event>, prims: Primitives)
      modifies this`active, this`sent, this`dispatched
      ensures Snapshot() == RunSession(settings, prims, old(Snapshot()), events)
    {
      for j := 0 to |events|
        invariant Snapshot() == RunSession(settings, prims, old(Snapshot()), events[..j])
      {
        assert events[..j + 1][..j] == events[..j];
        Handle(events[j], prims);
      }
      assert events[..|events|] == events;
    }

    /**
     * `run_forever`: while `active` holds at the head of the loop, opens the
     * next connection and handles its events until it closes.
     */
    method RunForever(sessions: seq<seq<Event>>, prims: Primitives)
      modifies this`active, this`connections, this`sent, this`dispatched
      ensures Snapshot() == RunLoop(settings, prims, old(Snapshot()), sessions)
    {
      var i := 0;
      while active && i < |sessions|
        invariant i <= |sessions|
        invariant RunLoop(settings, prims, old(Snapshot()), sessions) == RunLoop(settings, prims, Snapshot(), sessions[i..])
      {
        ghost var before := Snapshot();
        connections := connections + 1;
        RunConnection(sessions[i], prims);
        assert RunLoop(settings, prims, before, sessions[i..])
               == RunLoop(settings, prims, Snapshot(), sessions[i..][1..]);
        assert sessions[i..][1..] == sessions[i + 1..];
        i := i + 1;
      }
    }
  }
}
