# Relay action-request receiver, modelled in Dafny

This project models the request-acceptance logic of robusta's
`ActionRequestReceiver` (`src/robusta/integrations/receiver.py`). The receiver
keeps a websocket connection to a relay open, authenticates with an `auth`
payload when the connection opens, and reads each inbound message in one of
two formats:

- the legacy (callback) format, a truthy `actions` list whose entries each
  carry an already-trusted request envelope;
- the direct format, a signed `ActionRequest` whose HMAC-SHA256 signature and
  timestamp are checked before the request is dispatched.

`stop` clears an `active` flag that `run_forever` reads before each reconnect.

Modules:

- `Wrappers`: `Option`, standing for Python's `None`.
- `Json`: JSON values as `json.loads` returns them. It gives Python's
  truthiness, `dict.get` and iteration over them, including how a dict built
  from an object with a repeated key behaves.
- `Requests`: the shapes `ActionRequestBody`, `ActionRequest`,
  `ExternalActionRequest` and the invocation `run_actions` receives. It also
  holds the canonical field list the signature covers
  (`exclude_none=True`) and its inverse.
- `Validation`: `__validate_request` as a `Verdict`. Hex encoding of the
  digest is modelled exactly and proved to round-trip. HMAC-SHA256 itself is
  a parameter.
- `Routing`: `on_message` as a decision. It gives the branch taken, the
  requests dispatched, and whether an exception escapes.
- `Receiver`: the start gate, the `on_open` payload, and a specification of
  the reconnect loop over a finite script of connections. It also holds the
  class `ActionRequestReceiver`, whose fields are `active`, the connections
  opened, the payloads sent and the dispatch log. The class's methods are
  proved against those specifications.

The foreign calls are fields of the datatype `Requests.Primitives`. They are
the HMAC-SHA256 digest, pydantic's JSON rendering of the canonical fields,
`ActionRequest(**event)` and `IncomingRequest.parse_raw(...).incoming_request`.
A received message is given as the result of `json.loads` on its text:
`None` when the text is not JSON, otherwise the parsed value.
The clock (`time.time()`) is the parameter `now`, a real number of seconds. The
global configuration is a `map<string, string>` passed at each use. The
environment settings are a `Settings` value.

Places where the code's behaviour is easy to misread, and which the model
follows as written:

- Invalid JSON is not recovered inside `on_message`: `json.loads` (line 99)
  runs outside any `try`.
- A message that parses to something other than an object also lets its
  exception escape (`.get` on line 100). So does a truthy `actions` value that
  cannot be iterated (line 102, outside the per-entry `try`). The model reports
  these three cases (`InvalidJson`, `NotAnObject`, `ActionsNotIterable`) as
  escaping.
- A truthy `actions` string or object is iterated: each character, or each
  distinct key of the dict, becomes one entry, and each such entry fails and
  is logged.
- The legacy branch is chosen by the truthiness of `actions`, not by its mere
  presence. An empty list, `null`, `0` or `""` falls through to the direct
  format.
- `time.time() - timestamp` (line 156) converts the integer timestamp to
  `float`, and raises `OverflowError` once its magnitude reaches
  2^1024 - 2^970. Such a request, however well signed, ends in the `except`
  of `on_message` (lines 128-132) and is not dispatched.
- `hmac.compare_digest` on `str` arguments raises `TypeError` when a string is
  not ASCII. A non-ASCII signature therefore ends in the `except` of
  `on_message` and not in the "failed to validate" path. Either way nothing is
  dispatched.
- The dispatch hands `run_actions` only the sinks, the action name and the
  parameters. `target_id` and `origin` of the resolved request are dropped
  (lines 51-62).

## Model

| member | source | states |
|---|---|---|
| Json.Get | src/robusta/integrations/receiver.py:100 | `dict.get` finds a value exactly when some member has that key, and the value found is that of the last member with the key |
| Json.Iterate | src/robusta/integrations/receiver.py:102 | `for action in actions` visits an array's items, a string's characters or the dict's distinct keys in first-occurrence order; any other value is not iterable |
| Json.Truthy | src/robusta/integrations/receiver.py:101 | `if actions:` is false for exactly seven values: `null`, `false`, `0`, `0.0`, `""`, `[]` and `{}` |
| Json.TruthyText | src/robusta/integrations/receiver.py:150 | a string read with `.get` (the signing key here, and the account and cluster on line 142) is truthy iff present and non-empty |
| Json.DictKeys | src/robusta/integrations/receiver.py:102 | the keys of the dict `json.loads` builds are distinct, are exactly the keys in the text, and are no more than its members |
| Json.DictKeysFirstOccurrenceOrder | src/robusta/integrations/receiver.py:102 | the dict's keys are in first-occurrence order: each key first appears in the text after exactly the keys listed before it |
| Json.RepeatedKeyVisitedOnce | src/robusta/integrations/receiver.py:102 | iterating a dict whose text repeats a key visits that key once |
| Requests.Lookup | src/robusta/integrations/receiver.py:139-149 | a configuration read is present exactly when the key is configured, and then holds the configured value |
| Requests.Canonical | src/robusta/integrations/receiver.py:148 | the signed field list always starts with the four required fields in schema order and has between four and seven fields |
| Requests.CanonicalOmitsNone | src/robusta/integrations/receiver.py:148 | `exclude_none=True`: each of `action_params`, `sinks` and `origin` is in the signed form exactly when it is not `None`, and then with its value |
| Requests.CanonicalRoundTrip | src/robusta/integrations/receiver.py:30-37 | every field of the body can be recovered from the signed field list |
| Requests.CanonicalInjective | src/robusta/integrations/receiver.py:148 | two bodies with the same signed field list are equal |
| Requests.ToInvocation | src/robusta/integrations/receiver.py:51-62 | `run_actions` receives the request's sinks as the event's named sinks, and one action with the request's name and parameters |
| Requests.InvocationIgnoresAddressing | src/robusta/integrations/receiver.py:51-62 | changing a request's target id or origin does not change what `run_actions` receives |
| Validation.Hex | src/robusta/integrations/receiver.py:166 | `hexdigest` writes two lower-case hex digits per digest byte |
| Validation.UnhexHex | src/robusta/integrations/receiver.py:166 | reading the hex text back gives the original digest |
| Validation.HexInjective | src/robusta/integrations/receiver.py:166 | distinct digests have distinct hex text |
| Validation.SignedMessage | src/robusta/integrations/receiver.py:148 | the signed message starts with `v0:` |
| Validation.ExpectedSignature | src/robusta/integrations/receiver.py:165-167 | the expected signature starts with `v0=` and is pure ASCII |
| Validation.SignedMessageBindsBody | src/robusta/integrations/receiver.py:148 | if the JSON renderer writes distinct field lists as distinct text, two bodies with the same signed message are equal |
| Validation.Validate | src/robusta/integrations/receiver.py:147-168 | accepted iff the key is non-empty, the timestamp converts to `float`, `now - timestamp <= window`, and the signature equals `v0=` + hex HMAC of `v0:` + canonical body; in the source's order of checks, a missing key gives exactly `NoSigningKey`, an unconvertible timestamp `TimestampOverflow`, a stale request `TooOld`, and a non-ASCII signature `NonAsciiSignature` |
| Validation.Sign | src/robusta/integrations/receiver.py:165-167 | the signer's side builds a request over the given body whose signature is the expected signature for that key and body |
| Validation.SignedAcceptedWhileFresh | src/robusta/integrations/receiver.py:156-168 | a correctly signed request is accepted when `now - timestamp == window` exactly and for any future timestamp a `float` can hold; beyond that range it is refused as `TimestampOverflow` |
| Validation.StaleRejected | src/robusta/integrations/receiver.py:156-163 | any request older than the window is refused whatever its signature: as `TooOld`, or as `TimestampOverflow` when its timestamp cannot be converted to `float` |
| Validation.FailsClosedWithoutKey | src/robusta/integrations/receiver.py:149-154 | a missing or empty signing key refuses every request, whatever the signature and timestamp |
| Validation.ForgedDigestRejected | src/robusta/integrations/receiver.py:165-168 | a signature that is `v0=` + hex of any other digest, a one-bit change for instance, is never accepted |
| Routing.Resolve | src/robusta/integrations/receiver.py:120-126 | the resolved request has an empty target id and copies name, parameters, sinks and origin from the body |
| Routing.Route | src/robusta/integrations/receiver.py:99-115 | unparsable text and non-objects escape; the legacy branch is taken iff `actions` is truthy and iterable, with its iteration as entries; the direct branch iff `actions` is absent or falsy |
| Routing.DirectBranch | src/robusta/integrations/receiver.py:113-132 | the direct branch is unparsed iff the schema parse fails, dispatches iff the parsed request validates and then the resolved body, and otherwise records the refusing verdict |
| Routing.EntryRequest | src/robusta/integrations/receiver.py:103-107 | an entry yields a request only if it is an object whose `value` is a string, and then exactly what the envelope parse gives |
| Routing.LegacyDispatches | src/robusta/integrations/receiver.py:102-112 | a legacy message dispatches at most one request per entry |
| Routing.LegacyDispatchesFromEntries | src/robusta/integrations/receiver.py:102-112 | every legacy dispatch is the request of some entry whose envelope parses |
| Routing.DirectInvocation | src/robusta/integrations/receiver.py:51-62 | for a validated direct request, the action engine receives the body's sinks, action name and parameters |
| Routing.DirectDispatchIffValid | src/robusta/integrations/receiver.py:113-132 | in the direct format, one dispatch happens iff the request parses and validates, and it carries `target_id == ""` and the body's fields; otherwise none happens; nothing escapes |
| Routing.DirectSignedRequestDispatched | src/robusta/integrations/receiver.py:113-127 | a direct request signed with the configured key is dispatched once while fresh, is refused as `TooOld` once stale, and is refused without escaping as `TimestampOverflow` when its timestamp cannot be converted to `float` |
| Routing.EmptyActionsFallThrough | src/robusta/integrations/receiver.py:100-115 | an empty `actions` list is falsy, so the message is read as a signed request |
| Routing.LegacyAppend | src/robusta/integrations/receiver.py:102-112 | the dispatches of two runs of entries are the dispatches of each run, in order |
| Routing.LegacyEntryIsolation | src/robusta/integrations/receiver.py:102-112 | each legacy entry contributes its own request if it parses and nothing otherwise, independently of its neighbours |
| Routing.LegacyDispatchCount | src/robusta/integrations/receiver.py:102-112 | the number of legacy dispatches equals the number of entries whose envelope parses |
| Routing.LegacyIgnoresSigning | src/robusta/integrations/receiver.py:101-107 | the legacy format is not checked against the signing key: its outcome does not depend on configuration, clock or window |
| Routing.ThreeEntriesOneMalformed | src/robusta/integrations/receiver.py:102-112 | three entries with a malformed middle one dispatch the first and the third, in order |
| Receiver.StartGate | src/robusta/integrations/receiver.py:64-73 | the loop starts iff the enable flag is exactly "True" and the relay address is non-empty; the enable flag is checked first |
| Receiver.SettingsFromEnvironment | src/robusta/integrations/receiver.py:18-21 | each setting is the environment's value when set and otherwise its default, `wss://relay.robusta.dev` and "True" |
| Receiver.DefaultsStartReceiver | src/robusta/integrations/receiver.py:18-21 | with an empty environment the receiver starts, towards `wss://relay.robusta.dev` |
| Receiver.EnableFlagIsExact | src/robusta/integrations/receiver.py:21-69 | any enable value other than the exact text "True" gives outgoing-only mode |
| Receiver.OpenPayload | src/robusta/integrations/receiver.py:137-145 | the auth payload always begins `action="auth"`, `key="dummy key"`, `target_id=TARGET_ID`, and has three or five members |
| Receiver.OpenPayloadClaims | src/robusta/integrations/receiver.py:141-144 | `account_id` and `cluster_name` are each present iff both are configured and non-empty, and then carry the configured values |
| Receiver.Step | src/robusta/integrations/receiver.py:82-94 | one callback: only a stop request clears `active`, no connection is counted, and the sent and dispatch logs only grow, each only on its own callback |
| Receiver.RunSession | src/robusta/integrations/receiver.py:88 | one connection's callbacks count no connection, send at most one payload each, and only extend the dispatch log |
| Receiver.RunLoop | src/robusta/integrations/receiver.py:79-91 | a stopped receiver changes nothing; otherwise at most one connection is opened per turn and the logs only grow |
| Receiver.SessionKeepsActive | src/robusta/integrations/receiver.py:81-94 | during one connection only a stop request clears `active`; the connection count does not change |
| Receiver.StopIsSoft | src/robusta/integrations/receiver.py:88-94 | what a connection dispatches and sends does not depend on `active`; events after a stop on the same connection are still handled |
| Receiver.ConnectionsUntilStop | src/robusta/integrations/receiver.py:79-94 | an active receiver opens connections up to and including the one during which `stop` is called, and no later one; a stopped receiver opens none |
| Receiver.ActionRequestReceiver.constructor | src/robusta/integrations/receiver.py:46-49 | the receiver starts active, with empty logs, and is marked started iff the start gate lets it through |
| Receiver.ActionRequestReceiver.StartIncomingReceiver | src/robusta/integrations/receiver.py:64-77 | returns the start gate's outcome and launches the loop only on `ReceiverStarted` |
| Receiver.ActionRequestReceiver.Stop | src/robusta/integrations/receiver.py:92-94 | clears `active` and leaves every other part of the state unchanged |
| Receiver.ActionRequestReceiver.OnOpen | src/robusta/integrations/receiver.py:137-145 | appends the auth payload for the current configuration to the sent frames |
| Receiver.ActionRequestReceiver.OnMessage | src/robusta/integrations/receiver.py:96-132 | appends exactly the routed dispatches to the log, reports whether an exception escapes, and counts legacy entries that fail to parse |
| Receiver.ActionRequestReceiver.Handle | src/robusta/integrations/receiver.py:82-88 | one callback of an open connection changes the state as the specification step says |
| Receiver.ActionRequestReceiver.RunConnection | src/robusta/integrations/receiver.py:88 | handling one connection's callbacks in order changes the state as the session specification says |
| Receiver.ActionRequestReceiver.RunForever | src/robusta/integrations/receiver.py:79-90 | the loop's final state is the reconnect-loop specification applied to the connections it is given |

## Left out

- Websocket transport: `WebSocketApp`, `ws.run_forever`, `ws.send` and `enableTrace` are not modelled. A connection is the finite sequence of callbacks it delivers. A sent frame is the payload's member list, not its JSON text.
- Receiver.ActionRequestReceiver.RunForever: it runs over a finite script of connections. While `active` stays true the real loop reconnects forever, and the model stops when the script ends.
- Threads and the reconnect sleep (`Thread`, `time.sleep`, `INCOMING_WEBSOCKET_RECONNECT_DELAY_SEC`, default 3) are timing and concurrency, not decisions. `stop` is modelled as an event that happens during a connection.
- HMAC-SHA256 (RFC 2104 over FIPS 180-4) is the `hmacSha256` parameter. The UTF-8 encoding of key and message is taken to be part of it.
- Validation.Validate: the constant-time property of `hmac.compare_digest` cannot be expressed over values, so the model uses string equality.
- JSON text and pydantic: the JSON parser behind `json.loads` is not modelled; a message arrives as its result, `None` for text that is not JSON. The JSON text that `body.json()` renders, `ActionRequest(**event)` and `IncomingRequest.parse_raw` are parameters, and their coercion rules are not modelled. Only the top-level `None` omission of the canonical body is.
- Requests.CanonicalInjective: binds the signed field list, not the signed text. That the text binds the body needs an injective JSON renderer, which `Validation.SignedMessageBindsBody` takes as a requirement. That distinct messages give distinct HMACs is a property of HMAC, not of this code.
- An exception that escapes `on_message` is reported as `escaped`. What the websocket library then does with it is not part of this model, and the model goes on with the connection's next event.
- A `run_actions` call that raises does so after the call is made. The dispatch log is a log of calls, so it still records that call. The source logs the raise as a failed entry (legacy format) or a failed event (direct format), but the model does not. Receiver.ActionRequestReceiver.OnMessage: `failures` counts only entries that fail to parse, not dispatches whose handler raised.
- Logging, `traceback` and `on_error` logging are not modelled. `on_error` is an event that changes nothing.
- The configuration is taken to hold string values. A non-string `signing_key` would make `str.encode` raise, and that is not modelled.
- `time.time()` is a real number and the window an integer. Floating-point rounding of `time.time() - timestamp` is not modelled. Its overflow is.
- JSON numbers: `json.loads` also accepts `NaN`, `Infinity` and `-Infinity`, which `Json` cannot represent. Only finite floats are modelled. Such a value as `actions` is truthy and not iterable, so it would escape like `ActionsNotIterable`.
