/**
 * `on_message` as a decision on one message: whether its text is JSON, which
 * format it is read as, which requests it dispatches, and whether an
 * exception escapes it.
 */
module Routing {
  import opened Wrappers
  import opened Json
  import opened Requests
  import opened Validation

  /** How the direct branch ends. */
  datatype DirectResult =
    | Unparsed                                    // `ActionRequest(**incoming_event)` raised; caught and logged
    | Refused(verdict: Verdict)                   // validation refused or raised; logged, nothing dispatched
    | Dispatched(request: ExternalActionRequest)  // validated and dispatched once

  /** How one message is read. */
  datatype MessageOutcome =
    | InvalidJson                  // `json.loads` raises outside any `try`
    | NotAnObject                  // `.get` on a non-object raises outside any `try`
    | ActionsNotIterable           // iterating a truthy non-iterable `actions` raises outside the per-entry `try`
    | Legacy(entries: seq<Json>)   // the callback format: one entry per item of `actions`
    | Direct(result: DirectResult) // the signed `ActionRequest` format

  /** The request the direct branch dispatches: addressed to this node, every other field copied. */
  function Resolve(body: ActionRequestBody): (req: ExternalActionRequest)
    ensures req.targetId == ""
    ensures req.actionName == body.actionName && req.actionParams == body.actionParams
    ensures req.sinks == body.sinks && req.origin == body.origin
  {
    ExternalActionRequest("", body.actionName, body.actionParams, body.sinks, body.origin)
  }

  /** The `else` branch of `on_message`, inside its `try`. */
  function DirectBranch(event: seq<(string, Json)>, config: Config, now: real, window: int, prims: Primitives): (r: DirectResult)
    ensures r.Unparsed? <==> prims.parseActionRequest(event).None?
    ensures var parsed := prims.parseActionRequest(event);
            && (r.Dispatched? <==>
                  parsed.Some? && Validate(parsed.value, Lookup(config, "signing_key"), now, window, prims) == Accepted)
            && (r.Dispatched? ==> r.request == Resolve(parsed.value.body))
            && (r.Refused? ==> r.verdict != Accepted
                               && r.verdict == Validate(parsed.value, Lookup(config, "signing_key"), now, window, prims))
  {
    match prims.parseActionRequest(event)
    case None => Unparsed
    case Some(req) =>
      var verdict := Validate(req, Lookup(config, "signing_key"), now, window, prims);
      if verdict == Accepted then Dispatched(Resolve(req.body)) else Refused(verdict)
  }

  /**
   * One legacy entry inside its own `try`: `action["value"]` must exist and
   * be a string (anything else raises), and the envelope must parse.
   */
  function EntryRequest(entry: Json, prims: Primitives): (r: Option<ExternalActionRequest>)
    ensures r.Some? ==> entry.JObj? && Get(entry.fields, "value").Some? && Get(entry.fields, "value").value.JStr?
    ensures entry.JObj? && Get(entry.fields, "value").Some? && Get(entry.fields, "value").value.JStr? ==>
              r == prims.parseIncomingRequest(Get(entry.fields, "value").value.s)
  {
    if !entry.JObj? then None
    else match Get(entry.fields, "value")
      case Some(JStr(text)) => prims.parseIncomingRequest(text)
      case _ => None
  }

  /** The requests a legacy message dispatches, in entry order. */
  function LegacyDispatches(entries: seq<Json>, prims: Primitives): (r: seq<ExternalActionRequest>)
    ensures |r| <= |entries|
  {
    if entries == [] then []
    else
      var last := EntryRequest(entries[|entries| - 1], prims);
      LegacyDispatches(entries[..|entries| - 1], prims) + (if last.Some? then [last.value] else [])
  }

  /**
   * `on_message` on the result of `json.loads` (`None` when the text is not
   * JSON): the branch on a truthy `actions` member.
   */
  function Route(parsed: Option<Json>, config: Config, now: real, window: int, prims: Primitives): (r: MessageOutcome)
    ensures r.InvalidJson? <==> parsed.None?
    ensures r.NotAnObject? <==> parsed.Some? && !parsed.value.JObj?
    ensures r.Direct? <==> parsed.Some? && parsed.value.JObj?
                           && (Get(parsed.value.fields, "actions").None? || !Truthy(Get(parsed.value.fields, "actions").value))
    ensures r.Legacy? ==> parsed.Some? && parsed.value.JObj?
                          && Get(parsed.value.fields, "actions").Some?
                          && Truthy(Get(parsed.value.fields, "actions").value)
                          && Iterate(Get(parsed.value.fields, "actions").value) == Some(r.entries)
    ensures r.ActionsNotIterable? ==> Truthy(Get(parsed.value.fields, "actions").value)
                                      && Iterate(Get(parsed.value.fields, "actions").value).None?
  {
    if parsed.None? then InvalidJson
    else if !parsed.value.JObj? then NotAnObject
    else
      var message := parsed.value;
      var actions := Get(message.fields, "actions");
      if actions.Some? && Truthy(actions.value) then
        match Iterate(actions.value)
        case None => ActionsNotIterable
        case Some(entries) => Legacy(entries)
      else Direct(DirectBranch(message.fields, config, now, window, prims))
  }

  function Dispatches(outcome: MessageOutcome, prims: Primitives): seq<ExternalActionRequest> {
    match outcome
    case Legacy(entries) => LegacyDispatches(entries, prims)
    case Direct(Dispatched(req)) => [req]
    case _ => []
  }

  /** Whether an exception leaves `on_message` for the transport library. */
  predicate Escapes(outcome: MessageOutcome) {
    outcome.InvalidJson? || outcome.NotAnObject? || outcome.ActionsNotIterable?
  }

  /**
   * The direct format dispatches exactly once when the request parses and
   * validates, and then the dispatch is addressed to this node with the
   * body's fields copied; otherwise it dispatches nothing. Nothing escapes.
   */
  lemma DirectDispatchIffValid(message: Json, config: Config, now: real, window: int, prims: Primitives)
    requires message.JObj?
    requires Get(message.fields, "actions").None? || !Truthy(Get(message.fields, "actions").value)
    ensures var outcome := Route(Some(message), config, now, window, prims);
            var parsed := prims.parseActionRequest(message.fields);
            && !Escapes(outcome)
            && |Dispatches(outcome, prims)| <= 1
            && (Dispatches(outcome, prims) != [] <==>
                  parsed.Some? && Validate(parsed.value, Lookup(config, "signing_key"), now, window, prims) == Accepted)
            && (Dispatches(outcome, prims) != [] ==>
                  Dispatches(outcome, prims)[0] == ExternalActionRequest("", parsed.value.body.actionName,
                                                     parsed.value.body.actionParams, parsed.value.body.sinks,
                                                     parsed.value.body.origin))
  {
  }

  /**
   * A direct request signed with the configured key is dispatched while
   * fresh, and refused once stale. A timestamp too large for a `float` makes
   * the age computation raise inside the `try`: nothing is dispatched and
   * nothing escapes.
   */
  lemma DirectSignedRequestDispatched(message: Json, config: Config, now: real, window: int, prims: Primitives, body: ActionRequestBody)
    requires message.JObj? && Get(message.fields, "actions").None?
    requires Lookup(config, "signing_key").Some? && Lookup(config, "signing_key").value != ""
    requires prims.parseActionRequest(message.fields) == Some(Sign(config["signing_key"], body, prims))
    ensures FloatOverflows(body.timestamp) ==>
              Route(Some(message), config, now, window, prims) == Direct(Refused(TimestampOverflow))
    ensures !FloatOverflows(body.timestamp) && now - body.timestamp as real <= window as real ==>
              Dispatches(Route(Some(message), config, now, window, prims), prims) == [Resolve(body)]
    ensures !FloatOverflows(body.timestamp) && now - body.timestamp as real > window as real ==>
              Route(Some(message), config, now, window, prims) == Direct(Refused(TooOld))
  {
  }

  /**
   * What the action engine receives for a validated direct request: the
   * body's sinks, action name and parameters.
   */
  lemma DirectInvocation(message: Json, config: Config, now: real, window: int, prims: Primitives, req: ActionRequest)
    requires message.JObj? && Get(message.fields, "actions").None?
    requires prims.parseActionRequest(message.fields) == Some(req)
    requires Validate(req, Lookup(config, "signing_key"), now, window, prims) == Accepted
    ensures var d := Dispatches(Route(Some(message), config, now, window, prims), prims);
            |d| == 1 && ToInvocation(d[0]) == Invocation(req.body.sinks, req.body.actionName, req.body.actionParams)
  {
  }

  /** An `actions` list that is empty is falsy, so the message is read as a signed request. */
  lemma EmptyActionsFallThrough(message: Json, config: Config, now: real, window: int, prims: Primitives)
    requires message.JObj? && Get(message.fields, "actions") == Some(JArr([]))
    ensures Route(Some(message), config, now, window, prims) == Direct(DirectBranch(message.fields, config, now, window, prims))
  {
  }

  lemma {:induction false} LegacyAppend(a: seq<Json>, b: seq<Json>, prims: Primitives)
    ensures LegacyDispatches(a + b, prims) == LegacyDispatches(a, prims) + LegacyDispatches(b, prims)
    decreases |b|
  {
    if b == [] {
      assert a + b == a;
    } else {
      var n := |b| - 1;
      assert (a + b)[..|a + b| - 1] == a + b[..n];
      assert (a + b)[|a + b| - 1] == b[n];
      LegacyAppend(a, b[..n], prims);
    }
  }

  /** Every legacy dispatch is the request of some entry whose envelope parses. */
  lemma {:induction false} LegacyDispatchesFromEntries(entries: seq<Json>, prims: Primitives)
    ensures forall k | 0 <= k < |LegacyDispatches(entries, prims)| ::
              exists i | 0 <= i < |entries| :: EntryRequest(entries[i], prims) == Some(LegacyDispatches(entries, prims)[k])
    decreases |entries|
  {
    if entries != [] {
      var n := |entries| - 1;
      var front := entries[..n];
      LegacyDispatchesFromEntries(front, prims);
      var d, df := LegacyDispatches(entries, prims), LegacyDispatches(front, prims);
      var last := EntryRequest(entries[n], prims);
      assert d == df + (if last.Some? then [last.value] else []);
      forall k | 0 <= k < |d|
        ensures exists i | 0 <= i < |entries| :: EntryRequest(entries[i], prims) == Some(d[k])
      {
        if k < |df| {
          var i :| 0 <= i < |front| && EntryRequest(front[i], prims) == Some(df[k]);
          assert entries[i] == front[i];
        } else {
          assert last.Some? && d[k] == last.value;
          assert EntryRequest(entries[n], prims) == Some(d[k]);
        }
      }
    } else {
      assert LegacyDispatches(entries, prims) == [];
    }
  }

  /**
   * Per-entry isolation: each entry contributes its own request if it parses
   * and nothing otherwise, whatever its neighbours do.
   */
  lemma LegacyEntryIsolation(entries: seq<Json>, i: nat, prims: Primitives)
    requires i < |entries|
    ensures var own := EntryRequest(entries[i], prims);
            LegacyDispatches(entries, prims)
            == LegacyDispatches(entries[..i], prims)
               + (if own.Some? then [own.value] else [])
               + LegacyDispatches(entries[i + 1..], prims)
  {
    assert entries == entries[..i] + [entries[i]] + entries[i + 1..];
    LegacyAppend(entries[..i], [entries[i]], prims);
    LegacyAppend(entries[..i] + [entries[i]], entries[i + 1..], prims);
    assert LegacyDispatches([entries[i]], prims) == LegacyDispatches([], prims) + (if EntryRequest(entries[i], prims).Some? then [EntryRequest(entries[i], prims).value] else []);
  }

  /** The positions of the entries whose envelope parses. */
  ghost function GoodEntries(entries: seq<Json>, prims: Primitives): set<int> {
    set i | 0 <= i < |entries| && EntryRequest(entries[i], prims).Some?
  }

  lemma GoodEntriesSnoc(entries: seq<Json>, prims: Primitives)
    requires entries != []
    ensures var n := |entries| - 1;
            GoodEntries(entries, prims)
            == GoodEntries(entries[..n], prims) + (if EntryRequest(entries[n], prims).Some? then {n} else {})
  {
    var n := |entries| - 1;
    var front := entries[..n];
    forall i | 0 <= i < n ensures front[i] == entries[i] { }
  }

  /**
   * The number of dispatches is the number of entries that parse: every
   * entry that parses is dispatched and no other.
   */
  lemma {:induction false} LegacyDispatchCount(entries: seq<Json>, prims: Primitives)
    ensures |LegacyDispatches(entries, prims)| == |GoodEntries(entries, prims)|
    decreases |entries|
  {
    if entries != [] {
      var n := |entries| - 1;
      LegacyDispatchCount(entries[..n], prims);
      GoodEntriesSnoc(entries, prims);
      assert n !in GoodEntries(entries[..n], prims);
    }
  }

  /**
   * The legacy format is not checked against the signing key: what it
   * dispatches is the same whatever the configuration, the clock and the window.
   */
  lemma LegacyIgnoresSigning(message: Json, c1: Config, n1: real, w1: int, c2: Config, n2: real, w2: int, prims: Primitives)
    requires Route(Some(message), c1, n1, w1, prims).Legacy?
    ensures Route(Some(message), c2, n2, w2, prims) == Route(Some(message), c1, n1, w1, prims)
  {
  }

  /**
   * Three entries where the middle one's `value` is not a parsable envelope:
   * the first and the third are dispatched, in order.
   */
  lemma ThreeEntriesOneMalformed(r1: ExternalActionRequest, r3: ExternalActionRequest,
                                 config: Config, now: real, window: int, prims: Primitives)
    requires prims.parseIncomingRequest("first") == Some(r1)
    requires prims.parseIncomingRequest("{") == None
    requires prims.parseIncomingRequest("third") == Some(r3)
    ensures var message := JObj([("actions", JArr([JObj([("value", JStr("first"))]),
                                                   JObj([("value", JStr("{"))]),
                                                   JObj([("value", JStr("third"))])]))]);
            Dispatches(Route(Some(message), config, now, window, prims), prims) == [r1, r3]
  {
    var e1, e2, e3 := JObj([("value", JStr("first"))]), JObj([("value", JStr("{"))]), JObj([("value", JStr("third"))]);
    assert EntryRequest(e1, prims) == Some(r1);
    assert EntryRequest(e2, prims) == None;
    assert EntryRequest(e3, prims) == Some(r3);
    assert [e1, e2, e3][..2] == [e1, e2];
    assert [e1, e2][..1] == [e1];
    assert [e1][..0] == [];
    var message := JObj([("actions", JArr([e1, e2, e3]))]);
    assert Get(message.fields, "actions") == Some(JArr([e1, e2, e3]));
    assert Route(Some(message), config, now, window, prims) == Legacy([e1, e2, e3]);
    assert LegacyDispatches([e1], prims) == [r1];
    assert LegacyDispatches([e1, e2], prims) == [r1];
    assert LegacyDispatches([e1, e2, e3], prims) == [r1] + [r3];
  }
}
