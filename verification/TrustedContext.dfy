/**
 The trusted upstream context: the gateway signs the request line and the
 identity headers it emits, and the upstream verifies signature and freshness.
 */
module TrustedContext {
  import opened Foundation
  import opened Text
  import Encoding

  datatype HttpMethod = Get | Head | Post | Put | Patch | Delete | Options

  function MethodName(method_: HttpMethod): string {
    match method_
    case Get => "GET"
    case Head => "HEAD"
    case Post => "POST"
    case Put => "PUT"
    case Patch => "PATCH"
    case Delete => "DELETE"
    case Options => "OPTIONS"
  }

  const ISSUED_AT := "x-openproof-context-issued-at"
  const SIGNATURE := "x-openproof-context-signature"

  /** The headers under the signature, in the order it covers them. */
  const SIGNED_HEADERS := [
    "x-openproof-request-id", "x-openproof-identity", "x-openproof-organization", "x-openproof-provider",
    "x-openproof-assurance", "x-openproof-client-id", "x-openproof-scopes", ISSUED_AT]

  type Headers = map<string, string>

  function Header(headers: Headers, name: string): string {
    if name in headers then headers[name] else ""
  }

  function PayloadTexts(method_: HttpMethod, target: string, headers: Headers): seq<string> {
    [MethodName(method_), target]
    + seq(|SIGNED_HEADERS|, i requires 0 <= i < |SIGNED_HEADERS| => Header(headers, SIGNED_HEADERS[i]))
  }

  function Payload(method_: HttpMethod, target: string, headers: Headers): string {
    Parts(PayloadTexts(method_, target, headers))
  }

  /** What the upstream demands of a request at `now`. */
  predicate Trusted(hmac: Hmac, key: string, maximumAge: int, method_: HttpMethod, target: string, headers: Headers, now: int) {
    && ISSUED_AT in headers && SIGNATURE in headers && |headers[SIGNATURE]| == 64
    && ParseSigned(headers[ISSUED_AT]).Some?
    && -maximumAge <= now - ParseSigned(headers[ISSUED_AT]).value <= maximumAge
    && Encoding.HexBytes(headers[SIGNATURE]).Some?
    && hmac(key, Payload(method_, target, headers)).Some?
    && hmac(key, Payload(method_, target, headers)).value == Encoding.HexBytes(headers[SIGNATURE]).value
  }

  lemma {:induction false} MethodNameInjective(a: HttpMethod, b: HttpMethod)
    requires MethodName(a) == MethodName(b)
    ensures a == b
  {
    assert MethodName(a)[..1] == MethodName(b)[..1] && |MethodName(a)| == |MethodName(b)|;
    assert |MethodName(a)| == 3 || MethodName(a)[1] == MethodName(b)[1];
  }

  /** The payload determines the method, the target and every covered header; an absent header counts as an empty one. */
  lemma {:induction false} PayloadInjective(m: HttpMethod, t: string, h: Headers, m': HttpMethod, t': string, h': Headers)
    requires Payload(m, t, h) == Payload(m', t', h')
    ensures m == m' && t == t'
    ensures forall i :: 0 <= i < |SIGNED_HEADERS| ==> Header(h, SIGNED_HEADERS[i]) == Header(h', SIGNED_HEADERS[i])
  {
    var x, y := PayloadTexts(m, t, h), PayloadTexts(m', t', h');
    PartsInjective(x, y);
    assert x[0] == y[0] && x[1] == y[1];
    MethodNameInjective(m, m');
    forall i | 0 <= i < |SIGNED_HEADERS| ensures Header(h, SIGNED_HEADERS[i]) == Header(h', SIGNED_HEADERS[i]) {
      assert x[i + 2] == y[i + 2];
    }
  }

  /** Two trusted requests whose signatures spell the same digest, in either case, are the same request, as far as the signature covers it, or the keyed hash collided. */
  lemma {:induction false} SignatureBindsContext(hmac: Hmac, key: string, age: int, m: HttpMethod, t: string, h: Headers, now: int,
                              m': HttpMethod, t': string, h': Headers, now': int)
    requires Trusted(hmac, key, age, m, t, h, now) && Trusted(hmac, key, age, m', t', h', now')
    requires Encoding.HexBytes(h[SIGNATURE]) == Encoding.HexBytes(h'[SIGNATURE])
    ensures (m == m' && t == t' && forall i :: 0 <= i < |SIGNED_HEADERS| ==> Header(h, SIGNED_HEADERS[i]) == Header(h', SIGNED_HEADERS[i]))
         || (Payload(m, t, h) != Payload(m', t', h') && hmac(key, Payload(m, t, h)) == hmac(key, Payload(m', t', h')))
  {
    hide Payload;
    if Payload(m, t, h) == Payload(m', t', h') {
      PayloadInjective(m, t, h, m', t', h');
    }
  }

  function Sealed(hmac: Hmac, key: string, method_: HttpMethod, target: string, headers: Headers, now: int): Option<Headers> {
    var issued := headers[ISSUED_AT := SignedDecimal(now)];
    var digest := hmac(key, Payload(method_, target, issued));
    if digest.None? then None else Some(issued[SIGNATURE := Encoding.HexText(digest.value)])
  }

  lemma {:induction false} PayloadIgnoresSignature(m: HttpMethod, t: string, h: Headers, value: string)
    ensures Payload(m, t, h[SIGNATURE := value]) == Payload(m, t, h)
  {
    var h' := h[SIGNATURE := value];
    forall i | 0 <= i < |SIGNED_HEADERS| ensures Header(h', SIGNED_HEADERS[i]) == Header(h, SIGNED_HEADERS[i]) {
      assert SIGNED_HEADERS[i] != SIGNATURE by {
        assert SIGNATURE[20] == 's';
        assert SIGNED_HEADERS[i] == ISSUED_AT ==> SIGNED_HEADERS[i][20] == 'i';
        assert |SIGNED_HEADERS[i]| == |SIGNATURE| ==> SIGNED_HEADERS[i] == ISSUED_AT;
      }
    }
    assert PayloadTexts(m, t, h') == PayloadTexts(m, t, h);
  }

  /** A sealed request is trusted exactly while it is fresh. */
  lemma {:induction false} SealedIsTrusted(hmac: Hmac, key: string, age: int, m: HttpMethod, t: string, h: Headers, issued: int, now: int)
    requires -(TWO_64 / 2) <= issued < TWO_64 / 2
    requires Sealed(hmac, key, m, t, h, issued).Some?
    ensures Trusted(hmac, key, age, m, t, Sealed(hmac, key, m, t, h, issued).value, now) <==> -age <= now - issued <= age
  {
    var stamped := h[ISSUED_AT := SignedDecimal(issued)];
    var digest := hmac(key, Payload(m, t, stamped)).value;
    PayloadIgnoresSignature(m, t, stamped, Encoding.HexText(digest));
    hide Payload;
    SignedRoundTrip(issued);
    Encoding.HexRoundTrip(digest);
    assert |ISSUED_AT| == |SIGNATURE| && ISSUED_AT[20] != SIGNATURE[20];
  }

  /** Sealing fails only if the keyed hash does, and touches no header but its own two. */
  lemma {:induction false} SealedKeepsHeaders(hmac: Hmac, key: string, m: HttpMethod, t: string, h: Headers, issued: int, name: string)
    ensures (forall message :: hmac(key, message).Some?) ==> Sealed(hmac, key, m, t, h, issued).Some?
    ensures var r := Sealed(hmac, key, m, t, h, issued);
      r.Some? && name != ISSUED_AT && name != SIGNATURE ==> (name in r.value <==> name in h) && (name in h ==> r.value[name] == h[name])
  {
    hide Payload, Encoding.HexText, SignedDecimal;
  }

  class HttpRequest {
    const method_: HttpMethod
    const target: string
    var headers: Headers

    constructor (method_: HttpMethod, target: string, headers: Headers)
      ensures this.method_ == method_ && this.target == target && this.headers == headers
    {
      this.method_, this.target, this.headers := method_, target, headers;
    }

    method BuildPayload() returns (output: string)
      ensures output == Payload(method_, target, headers)
    {
      ghost var texts := PayloadTexts(method_, target, headers);
      output := AppendParts("", [MethodName(method_), target], []);
      assert [] + [MethodName(method_), target] == texts[..2];
      for i := 0 to |SIGNED_HEADERS|
        invariant output == Parts(texts[..i + 2])
      {
        output := AppendPart(output, Header(headers, SIGNED_HEADERS[i]), texts[..i + 2]);
        assert texts[..i + 2] + [Header(headers, SIGNED_HEADERS[i])] == texts[..i + 3];
      }
      assert texts[..|texts|] == texts;
    }
  }

  class TrustedContextSigner {
    const key: string
    const maximumAge: int

    constructor (key: string, maximumAge: int)
      ensures this.key == key && this.maximumAge == maximumAge
    {
      this.key, this.maximumAge := key, maximumAge;
    }

    /** Stamps and signs; a failed hash leaves only the stamp. */
    method Seal(hmac: Hmac, request: HttpRequest, now: int) returns (status: Status)
      modifies request
      ensures status.Ok? <==> old(Sealed(hmac, key, request.method_, request.target, request.headers, now)).Some?
      ensures status.Ok? ==> Some(request.headers) == old(Sealed(hmac, key, request.method_, request.target, request.headers, now))
      ensures status.Failed? ==> request.headers == old(request.headers)[ISSUED_AT := SignedDecimal(now)]
    {
      request.headers := request.headers[ISSUED_AT := SignedDecimal(now)];
      var payload := request.BuildPayload();
      var digest := hmac(key, payload);
      if digest.None? {
        return Failed;
      }
      var text := Encoding.ToHex(digest.value);
      request.headers := request.headers[SIGNATURE := text];
      return Ok;
    }

    method Verify(hmac: Hmac, request: HttpRequest, now: int) returns (ok: bool)
      ensures ok <==> Trusted(hmac, key, maximumAge, request.method_, request.target, request.headers, now)
    {
      if ISSUED_AT !in request.headers || SIGNATURE !in request.headers || |request.headers[SIGNATURE]| != 64 {
        return false;
      }
      var issued := ParseSigned(request.headers[ISSUED_AT]);
      if issued.None? {
        return false;
      }
      if issued.value > now + maximumAge || now > issued.value + maximumAge {
        return false;
      }
      var payload := request.BuildPayload();
      var expected := hmac(key, payload);
      var supplied := Encoding.FromHex(request.headers[SIGNATURE]);
      return expected.Some? && supplied.Some? && |supplied.value| == |expected.value| && expected.value == supplied.value;
    }
  }
}
