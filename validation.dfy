/**
 * `__validate_request`: the fail-closed decision on a signed direct-format
 * request. The expected signature is `"v0="` followed by the lower-case hex
 * digest of HMAC-SHA256 under the signing key over `"v0:"` and the request
 * body rendered without its `None` fields.
 */
module Validation {
  import opened Wrappers
  import opened Json
  import opened Requests

  const SignaturePrefix: string := "v0="
  const MessagePrefix: string := "v0:"

  /**
   * The outcome of one validation. Two of them are exceptions that leave
   * `__validate_request` instead of a verdict: `TimestampOverflow` is the
   * `OverflowError` of converting a huge integer timestamp to `float` for the
   * age, and `NonAsciiSignature` the `TypeError` that `hmac.compare_digest`
   * raises for a non-ASCII string.
   */
  datatype Verdict = Accepted | NoSigningKey | TimestampOverflow | TooOld | NonAsciiSignature | SignatureMismatch

  /**
   * 2^1024 - 2^970, the smallest integer magnitude that an IEEE 754 double
   * cannot hold: from here on round-to-nearest-even gives 2^1024, and
   * Python's int-to-float conversion raises `OverflowError`.
   */
  const FloatOverflowBound: int := 0xfffffffffffffc00000000000000000000000000000000000000000000000000000000000000000000000000000000000000000000000000000000000000000000000000000000000000000000000000000000000000000000000000000000000000000000000000000000000000000000000000000000000000000000000000

  /** Whether `float(n)` raises, as `time.time() - n` does for an `int` `n`. */
  predicate FloatOverflows(n: int) {
    n >= FloatOverflowBound || n <= -FloatOverflowBound
  }

  predicate IsAscii(s: string) {
    forall i | 0 <= i < |s| :: s[i] as int < 128
  }

  predicate IsHexDigit(c: char) {
    '0' <= c <= '9' || 'a' <= c <= 'f'
  }

  /** The lower-case hex digit of a nibble. */
  function HexDigit(n: int): (c: char)
    requires 0 <= n < 16
    ensures IsHexDigit(c)
  {
    if n < 10 then ('0' as int + n) as char else ('a' as int + n - 10) as char
  }

  /** `hexdigest()`: two lower-case hex digits per byte, high nibble first. */
  function Hex(digest: seq<byte>): (s: string)
    ensures |s| == 2 * |digest|
    ensures forall i | 0 <= i < |s| :: IsHexDigit(s[i])
  {
    if digest == [] then []
    else [HexDigit(digest[0] / 16), HexDigit(digest[0] % 16)] + Hex(digest[1..])
  }

  function DigitValue(c: char): (v: Option<int>)
    ensures v.Some? ==> 0 <= v.value < 16 && HexDigit(v.value) == c
  {
    if '0' <= c <= '9' then Some(c as int - '0' as int)
    else if 'a' <= c <= 'f' then Some(c as int - 'a' as int + 10)
    else None
  }

  /** Reads lower-case hex text back into bytes; the partner of `Hex`. */
  function Unhex(s: string): Option<seq<byte>>
    decreases |s|
  {
    if |s| < 2 then (if s == [] then Some([]) else None)
    else
      var hi, lo, rest := DigitValue(s[0]), DigitValue(s[1]), Unhex(s[2..]);
      if hi.None? || lo.None? || rest.None? then None
      else Some([hi.value * 16 + lo.value] + rest.value)
  }

  lemma DigitValueOfHexDigit(n: int)
    requires 0 <= n < 16
    ensures DigitValue(HexDigit(n)) == Some(n)
  {
  }

  lemma NibblesOfByte(b: byte)
    ensures 0 <= b / 16 < 16 && 0 <= b % 16 < 16 && (b / 16) * 16 + b % 16 == b
  {
  }

  lemma UnhexPair(hi: int, lo: int, rest: string)
    requires 0 <= hi < 16 && 0 <= lo < 16
    ensures Unhex([HexDigit(hi), HexDigit(lo)] + rest)
            == if Unhex(rest).Some? then Some([hi * 16 + lo] + Unhex(rest).value) else None
  {
    var s := [HexDigit(hi), HexDigit(lo)] + rest;
    DigitValueOfHexDigit(hi);
    DigitValueOfHexDigit(lo);
    assert s[2..] == rest;
  }

  lemma {:induction false} UnhexHex(digest: seq<byte>)
    ensures Unhex(Hex(digest)) == Some(digest)
  {
    if digest != [] {
      var hi, lo := digest[0] / 16, digest[0] % 16;
      NibblesOfByte(digest[0]);
      UnhexPair(hi, lo, Hex(digest[1..]));
      UnhexHex(digest[1..]);
      assert [digest[0]] + digest[1..] == digest;
    }
  }

  /** Distinct digests never print as the same hex text. */
  lemma HexInjective(d1: seq<byte>, d2: seq<byte>)
    requires Hex(d1) == Hex(d2)
    ensures d1 == d2
  {
    UnhexHex(d1);
    UnhexHex(d2);
  }

  /** The bytes the signature covers: `f"v0:{body.json(exclude_none=True)}"`. */
  function SignedMessage(body: ActionRequestBody, prims: Primitives): (m: string)
    ensures |m| >= 3 && m[..3] == MessagePrefix
  {
    MessagePrefix + prims.renderJson(Canonical(body))
  }

  /** `f"v0={request_hash}"`, which is always ASCII. */
  function ExpectedSignature(key: string, body: ActionRequestBody, prims: Primitives): (sig: string)
    ensures |sig| >= 3 && sig[..3] == SignaturePrefix
    ensures IsAscii(sig)
  {
    SignaturePrefix + Hex(prims.hmacSha256(key, SignedMessage(body, prims)))
  }

  /**
   * `__validate_request`, with `time.time()` given as `now`. The checks run in
   * the source's order: the key, then the age, then the comparison.
   */
  function Validate(req: ActionRequest, signingKey: Option<string>, now: real, window: int, prims: Primitives): (v: Verdict)
    ensures v == Accepted <==>
              TruthyText(signingKey)
              && !FloatOverflows(req.body.timestamp)
              && now - req.body.timestamp as real <= window as real
              && req.signature == ExpectedSignature(signingKey.value, req.body, prims)
    ensures !TruthyText(signingKey) <==> v == NoSigningKey
    ensures v == TimestampOverflow <==> TruthyText(signingKey) && FloatOverflows(req.body.timestamp)
    ensures v == TooOld <==>
              TruthyText(signingKey) && !FloatOverflows(req.body.timestamp)
              && now - req.body.timestamp as real > window as real
    ensures v == NonAsciiSignature <==>
              TruthyText(signingKey) && !FloatOverflows(req.body.timestamp)
              && now - req.body.timestamp as real <= window as real
              && !IsAscii(req.signature)
  {
    if !TruthyText(signingKey) then NoSigningKey
    else if FloatOverflows(req.body.timestamp) then TimestampOverflow
    else if now - req.body.timestamp as real > window as real then TooOld
    else if !IsAscii(req.signature) then NonAsciiSignature
    else if ExpectedSignature(signingKey.value, req.body, prims) == req.signature then Accepted
    else SignatureMismatch
  }

  /** The signer's side: the request a holder of `key` sends for `body`. */
  function Sign(key: string, body: ActionRequestBody, prims: Primitives): (req: ActionRequest)
    ensures req.body == body
    ensures req.signature == ExpectedSignature(key, body, prims)
  {
    ActionRequest(ExpectedSignature(key, body, prims), body)
  }

  /**
   * A properly signed request is accepted up to and including the window
   * edge, and at any future timestamp a `float` can hold; beyond that the
   * age computation raises.
   */
  lemma SignedAcceptedWhileFresh(key: string, body: ActionRequestBody, now: real, window: int, prims: Primitives)
    requires key != ""
    requires now - body.timestamp as real <= window as real
    ensures Validate(Sign(key, body, prims), Some(key), now, window, prims)
            == if FloatOverflows(body.timestamp) then TimestampOverflow else Accepted
  {
  }

  /**
   * Once the request is older than the window it is refused however it is
   * signed: as `TooOld`, or by the overflow when its timestamp is below
   * what a `float` can hold.
   */
  lemma StaleRejected(req: ActionRequest, key: string, now: real, window: int, prims: Primitives)
    requires key != ""
    requires now - req.body.timestamp as real > window as real
    ensures Validate(req, Some(key), now, window, prims)
            == if FloatOverflows(req.body.timestamp) then TimestampOverflow else TooOld
  {
  }

  /** Without a signing key nothing is accepted, not even a correctly signed fresh request. */
  lemma FailsClosedWithoutKey(req: ActionRequest, signingKey: Option<string>, now: real, window: int, prims: Primitives)
    requires signingKey == None || signingKey == Some("")
    ensures Validate(req, signingKey, now, window, prims) == NoSigningKey
  {
  }

  /**
   * A signature that is well-formed hex of some other digest, for instance a
   * valid signature with one bit flipped, is never accepted.
   */
  lemma ForgedDigestRejected(req: ActionRequest, key: string, forged: seq<byte>, now: real, window: int, prims: Primitives)
    requires req.signature == SignaturePrefix + Hex(forged)
    requires forged != prims.hmacSha256(key, SignedMessage(req.body, prims))
    ensures Validate(req, Some(key), now, window, prims) != Accepted
  {
    if Validate(req, Some(key), now, window, prims) == Accepted {
      var genuine := prims.hmacSha256(key, SignedMessage(req.body, prims));
      assert Hex(forged) == (SignaturePrefix + Hex(forged))[3..];
      assert Hex(genuine) == (SignaturePrefix + Hex(genuine))[3..];
      HexInjective(forged, genuine);
    }
  }

  /**
   * The signed message binds every body field, provided the JSON rendering
   * writes distinct field lists as distinct text (which the model takes as a
   * property of the renderer, not of this code).
   */
  lemma SignedMessageBindsBody(a: ActionRequestBody, b: ActionRequestBody, prims: Primitives)
    requires forall f, g :: prims.renderJson(f) == prims.renderJson(g) ==> f == g
    requires SignedMessage(a, prims) == SignedMessage(b, prims)
    ensures a == b
  {
    var ra, rb := prims.renderJson(Canonical(a)), prims.renderJson(Canonical(b));
    assert ra == SignedMessage(a, prims)[|MessagePrefix|..];
    assert rb == SignedMessage(b, prims)[|MessagePrefix|..];
    CanonicalInjective(a, b);
  }
}
