/**
 * The request shapes of the receiver: the signed `ActionRequest` of the direct
 * format, its `ActionRequestBody`, the resolved `ExternalActionRequest` that is
 * dispatched, and what `run_actions` is finally handed. Also the canonical
 * field list the signature covers, and the foreign primitives (HMAC, JSON
 * rendering, schema parsing) the model takes as parameters.
 */
module Requests {
  import opened Wrappers
  import opened Json

  type byte = x: int | 0 <= x < 256

  type Params = seq<(string, Json)>

  /** The global configuration as `get_global_config()` returns it. */
  type Config = map<string, string>

  /** `get_global_config().get(key)`. */
  function Lookup(config: Config, key: string): (r: Option<string>)
    ensures r.Some? <==> key in config
    ensures r.Some? ==> r.value == config[key]
  {
    if key in config then Some(config[key]) else None
  }

  /** `ActionRequestBody`: fields declared with a `None` default are optional. */
  datatype ActionRequestBody = ActionRequestBody(
    accountId: string,
    clusterName: string,
    actionName: string,
    timestamp: int,
    actionParams: Option<Params>,
    sinks: Option<seq<string>>,
    origin: Option<string>)

  /** `ActionRequest`: a body and the signature that is claimed to cover it. */
  datatype ActionRequest = ActionRequest(signature: string, body: ActionRequestBody)

  /** `ExternalActionRequest`: an action cleared for dispatch. */
  datatype ExternalActionRequest = ExternalActionRequest(
    targetId: string,
    actionName: string,
    actionParams: Option<Params>,
    sinks: Option<seq<string>>,
    origin: Option<string>)

  /**
   * What one dispatch hands to `run_actions`: an execution event carrying the
   * named sinks, and a single playbook action made of a name and parameters.
   */
  datatype Invocation = Invocation(namedSinks: Option<seq<string>>, actionName: string, actionParams: Option<Params>)

  /**
   * The foreign calls of the receiver, which the model does not open:
   * `hmacSha256` is the HMAC-SHA256 digest of a message under a key (both
   * UTF-8 encoded by the caller); `renderJson` is the JSON text pydantic
   * writes for a list of fields; `parseActionRequest` is `ActionRequest(**event)`
   * on the dict `json.loads` builds from a JSON object's members, so where a
   * key repeats it reads the last value, as `Get` does; `parseIncomingRequest` is
   * `IncomingRequest.parse_raw(text).incoming_request`.
   */
  datatype Primitives = Primitives(
    hmacSha256: (string, string) -> seq<byte>,
    renderJson: seq<(string, Json)> -> string,
    parseActionRequest: seq<(string, Json)> -> Option<ActionRequest>,
    parseIncomingRequest: string -> Option<ExternalActionRequest>)

  function OptionalField<T>(name: string, v: Option<T>, encode: T -> Json): seq<(string, Json)> {
    if v.Some? then [(name, encode(v.value))] else []
  }

  function SinksJson(sinks: seq<string>): Json {
    JArr(seq(|sinks|, i requires 0 <= i < |sinks| => JStr(sinks[i])))
  }

  /**
   * `body.json(exclude_none=True)` before rendering: the fields in the order
   * the schema declares them, with every optional field that holds `None`
   * left out.
   */
  function Canonical(body: ActionRequestBody): (fields: seq<(string, Json)>)
    ensures 4 <= |fields| <= 7
    ensures fields[..4] == [("account_id", JStr(body.accountId)), ("cluster_name", JStr(body.clusterName)),
                            ("action_name", JStr(body.actionName)), ("timestamp", JInt(body.timestamp))]
  {
    [("account_id", JStr(body.accountId)), ("cluster_name", JStr(body.clusterName)),
                   ("action_name", JStr(body.actionName)), ("timestamp", JInt(body.timestamp))]
                  + OptionalField("action_params", body.actionParams, (p: Params) => JObj(p))
                  + OptionalField("sinks", body.sinks, SinksJson)
                  + OptionalField("origin", body.origin, (o: string) => JStr(o))
  }

  lemma OptionalFieldKey<T>(name: string, v: Option<T>, encode: T -> Json, key: string)
    ensures HasKey(OptionalField(name, v, encode), key) <==> v.Some? && key == name
  {
    if v.Some? && key == name {
      assert OptionalField(name, v, encode)[0].0 == key;
    }
  }

  /**
   * `exclude_none=True`: an optional field is present in the signed form
   * exactly when it holds a value, and then with that value.
   */
  lemma CanonicalOmitsNone(body: ActionRequestBody)
    ensures HasKey(Canonical(body), "action_params") <==> body.actionParams.Some?
    ensures HasKey(Canonical(body), "sinks") <==> body.sinks.Some?
    ensures HasKey(Canonical(body), "origin") <==> body.origin.Some?
    ensures body.actionParams.Some? ==> ("action_params", JObj(body.actionParams.value)) in Canonical(body)
    ensures body.sinks.Some? ==> ("sinks", SinksJson(body.sinks.value)) in Canonical(body)
    ensures body.origin.Some? ==> ("origin", JStr(body.origin.value)) in Canonical(body)
  {
    var req := [("account_id", JStr(body.accountId)), ("cluster_name", JStr(body.clusterName)),
                ("action_name", JStr(body.actionName)), ("timestamp", JInt(body.timestamp))];
    var p := OptionalField("action_params", body.actionParams, (p: Params) => JObj(p));
    var sk := OptionalField("sinks", body.sinks, SinksJson);
    var o := OptionalField("origin", body.origin, (o: string) => JStr(o));
    assert Canonical(body) == req + p + sk + o;
    forall key | key in {"action_params", "sinks", "origin"}
      ensures HasKey(Canonical(body), key) <==> HasKey(req, key) || HasKey(p, key) || HasKey(sk, key) || HasKey(o, key)
    {
      HasKeyAppend(req, p, key);
      HasKeyAppend(req + p, sk, key);
      HasKeyAppend(req + p + sk, o, key);
    }
    OptionalFieldKey("action_params", body.actionParams, (p: Params) => JObj(p), "action_params");
    OptionalFieldKey("action_params", body.actionParams, (p: Params) => JObj(p), "sinks");
    OptionalFieldKey("action_params", body.actionParams, (p: Params) => JObj(p), "origin");
    OptionalFieldKey("sinks", body.sinks, SinksJson, "action_params");
    OptionalFieldKey("sinks", body.sinks, SinksJson, "sinks");
    OptionalFieldKey("sinks", body.sinks, SinksJson, "origin");
    OptionalFieldKey("origin", body.origin, (o: string) => JStr(o), "action_params");
    OptionalFieldKey("origin", body.origin, (o: string) => JStr(o), "sinks");
    OptionalFieldKey("origin", body.origin, (o: string) => JStr(o), "origin");
  }

  /** Reads back the sink names of a `sinks` value; `None` unless every item is a string. */
  function SinksFromJson(j: Json): (r: Option<seq<string>>)
    ensures j.JArr? && (forall k | 0 <= k < |j.items| :: j.items[k].JStr?) ==> r.Some?
  {
    if j.JArr? && forall k | 0 <= k < |j.items| :: j.items[k].JStr? then
      Some(seq(|j.items|, k requires 0 <= k < |j.items| => j.items[k].s))
    else None
  }

  /** Takes the field named `name` off the front of `fields` if it is there and `decode` accepts it. */
  function TakeOptional<T>(fields: seq<(string, Json)>, name: string, decode: Json -> Option<T>): (Option<T>, seq<(string, Json)>) {
    if fields != [] && fields[0].0 == name && decode(fields[0].1).Some? then (decode(fields[0].1), fields[1..])
    else (None, fields)
  }

  /**
   * The inverse of `Canonical`: recovers the body from its signed field list,
   * or `None` for a list `Canonical` cannot produce.
   */
  function FromCanonical(fields: seq<(string, Json)>): Option<ActionRequestBody> {
    if |fields| < 4
       || fields[0].0 != "account_id" || !fields[0].1.JStr?
       || fields[1].0 != "cluster_name" || !fields[1].1.JStr?
       || fields[2].0 != "action_name" || !fields[2].1.JStr?
       || fields[3].0 != "timestamp" || !fields[3].1.JInt?
    then None
    else
      var (params, rest1) := TakeOptional(fields[4..], "action_params", (j: Json) => if j.JObj? then Some(j.fields) else None);
      var (sinks, rest2) := TakeOptional(rest1, "sinks", SinksFromJson);
      var (origin, rest3) := TakeOptional(rest2, "origin", (j: Json) => if j.JStr? then Some(j.s) else None);
      if rest3 != [] then None
      else Some(ActionRequestBody(fields[0].1.s, fields[1].1.s, fields[2].1.s, fields[3].1.i, params, sinks, origin))
  }

  /** Every field of the body can be read back from what is signed. */
  lemma CanonicalRoundTrip(body: ActionRequestBody)
    ensures FromCanonical(Canonical(body)) == Some(body)
  {
    var fields := Canonical(body);
    var p := OptionalField("action_params", body.actionParams, (p: Params) => JObj(p));
    var sk := OptionalField("sinks", body.sinks, SinksJson);
    var o := OptionalField("origin", body.origin, (o: string) => JStr(o));
    assert fields[4..] == p + sk + o;
    var (params, rest1) := TakeOptional(fields[4..], "action_params", (j: Json) => if j.JObj? then Some(j.fields) else None);
    assert params == body.actionParams && rest1 == sk + o;
    if body.sinks.Some? {
      var j := SinksJson(body.sinks.value);
      assert SinksFromJson(j).Some?;
      assert SinksFromJson(j).value == body.sinks.value;
    }
    var (sinks, rest2) := TakeOptional(rest1, "sinks", SinksFromJson);
    assert sinks == body.sinks && rest2 == o;
  }

  /** Two bodies with the same signed field list are the same body. */
  lemma CanonicalInjective(a: ActionRequestBody, b: ActionRequestBody)
    requires Canonical(a) == Canonical(b)
    ensures a == b
  {
    CanonicalRoundTrip(a);
    CanonicalRoundTrip(b);
  }

  /**
   * What `__run_external_action_request` passes on to `run_actions`. The
   * dispatch log keeps the whole `ExternalActionRequest`; this is the part of
   * each logged request that the action engine receives.
   */
  function ToInvocation(req: ExternalActionRequest): (inv: Invocation)
    ensures inv.namedSinks == req.sinks && inv.actionName == req.actionName && inv.actionParams == req.actionParams
  {
    Invocation(req.sinks, req.actionName, req.actionParams)
  }

  /** The target id and the origin of a request never reach `run_actions`. */
  lemma InvocationIgnoresAddressing(req: ExternalActionRequest, targetId: string, origin: Option<string>)
    ensures ToInvocation(req.(targetId := targetId, origin := origin)) == ToInvocation(req)
  {
  }
}
