// Signed email-link tokens: base64url of a JSON payload, a dot, and the
// base64url of its HMAC. JSON and HMAC are parameters.
module EmailTokens {
  import opened Wrappers
  import Base64Url
  import Texts
  import Utf8

  type byte = Base64Url.byte

  // ---- crypto.ts -----------------------------------------------------------

  // The key and the data are taken as UTF-8.
  type Mac = (seq<byte>, seq<byte>) -> seq<byte>

  // Standard base64 made URL-safe, the trailing padding cut off.
  function HmacBase64url(mac: Mac, key: string, data: string): string {
    Base64Url.TrimEnd(Base64Url.UrlSafe(Base64Url.Btoa(mac(Utf8.Encode(key), Utf8.Encode(data)))), '=')
  }

  // The length of a JavaScript string.
  function Utf16Length(s: string): nat {
    if s == "" then 0 else (if s[0] as int >= 0x1_0000 then 2 else 1) + Utf16Length(s[1..])
  }

  // The bitwise operators on non-negative numbers.
  function Xor(x: nat, y: nat): nat {
    if x == 0 then y else if y == 0 then x else (x + y) % 2 + 2 * Xor(x / 2, y / 2)
  }

  function Or(x: nat, y: nat): nat {
    if x == 0 then y else if y == 0 then x else (if x % 2 == 1 || y % 2 == 1 then 1 else 0) + 2 * Or(x / 2, y / 2)
  }

  lemma {:induction false} XorIsZero(x: nat, y: nat)
    ensures Xor(x, y) == 0 <==> x == y
  {
    if x != 0 && y != 0 {
      XorIsZero(x / 2, y / 2);
    }
  }

  lemma {:induction false} OrIsZero(x: nat, y: nat)
    ensures Or(x, y) == 0 <==> x == 0 && y == 0
  {
    if x != 0 && y != 0 {
      OrIsZero(x / 2, y / 2);
    }
  }

  // The accumulator loop: zero at the end exactly for equal bytes.
  method Difference(a: seq<byte>, b: seq<byte>) returns (diff: nat)
    requires |a| == |b|
    ensures diff == 0 <==> a == b
  {
    diff := 0;
    for i := 0 to |a|
      invariant diff == 0 <==> forall j | 0 <= j < i :: a[j] == b[j]
    {
      var x: nat, y: nat := a[i] as int, b[i] as int;
      XorIsZero(x, y);
      OrIsZero(diff, Xor(x, y));
      diff := Or(diff, Xor(x, y));
    }
  }

  // Equality of the texts themselves, because UTF-8 is injective.
  method ConstantTimeEqual(a: string, b: string) returns (equal: bool)
    ensures equal <==> a == b
  {
    if Utf16Length(a) != Utf16Length(b) { return false; }
    var aBytes, bBytes := Utf8.Encode(a), Utf8.Encode(b);
    if |aBytes| != |bBytes| { return false; }
    var diff := Difference(aBytes, bBytes);
    if diff == 0 { Utf8.EncodeInjective(a, b); }
    equal := diff == 0;
  }

  // ---- email-tokens.ts -----------------------------------------------------

  datatype Purpose = VerifyEmail | ResetPassword | DigestUnsubscribe | SlackOauthState

  // organization: absent, null, or an id.
  datatype Payload = Payload(
    reviewerId: string, email: string, purpose: Purpose, exp: int, organization: Option<Option<string>>)

  // JSON text of payloads; Buffer.from(_, "base64url"); toString("utf8").
  datatype Codec = Codec(
    stringify: Payload -> string,
    parse: string -> Option<Payload>,
    fromBase64url: string -> seq<byte>,
    toText: seq<byte> -> string)

  ghost predicate Faithful(codec: Codec) {
    && (forall p :: codec.parse(codec.stringify(p)) == Some(p))
    && (forall bytes :: codec.fromBase64url(Base64Url.Encode(bytes)) == bytes)
    && (forall s :: codec.toText(Utf8.Encode(s)) == s)
  }

  function Encoded(codec: Codec, payload: Payload): string {
    Base64Url.Encode(Utf8.Encode(codec.stringify(payload)))
  }

  function Generate(codec: Codec, mac: Mac, secret: string, payload: Payload, ttl: int, now: int): string {
    var encoded := Encoded(codec, payload.(exp := now + ttl));
    encoded + "." + HmacBase64url(mac, secret, encoded)
  }

  // What verifyEmailToken answers once the signature matches.
  function Opened(codec: Codec, encoded: string, expected: Purpose, now: int): Option<Payload> {
    var payload := codec.parse(codec.toText(codec.fromBase64url(encoded)));
    if payload.None? || payload.value.purpose != expected || payload.value.exp < now then None else payload
  }

  // The tokens that are let through: an encoded part without a dot, followed by
  // its own signature.
  predicate Signed(mac: Mac, secret: string, token: string, encoded: string) {
    '.' !in encoded && token == encoded + "." + HmacBase64url(mac, secret, encoded)
  }

  function Verified(codec: Codec, mac: Mac, secret: string, token: string, expected: Purpose, now: int)
    : Option<Payload>
  {
    var dot := Texts.IndexOf(token, ".");
    if dot.Some? && Signed(mac, secret, token, token[..dot.value])
    then Opened(codec, token[..dot.value], expected, now) else None
  }

  // Base64url text holds no dot, so neither half of a token does.
  lemma NoDot(mac: Mac, key: string, data: string)
    ensures '.' !in HmacBase64url(mac, key, data)
  {
    var bytes := mac(Utf8.Encode(key), Utf8.Encode(data));
    Base64Url.PipelineEncodes(bytes);
    Base64Url.EncodeAlphabet(bytes);
  }

  lemma SignedIs(mac: Mac, secret: string, token: string, encoded: string)
    requires Signed(mac, secret, token, encoded)
    ensures Texts.IndexOf(token, ".") == Some(|encoded|) && token[..|encoded|] == encoded
    ensures Texts.Split(token, ".") == [encoded, HmacBase64url(mac, secret, encoded)]
  {
    var signature := HmacBase64url(mac, secret, encoded);
    NoDot(mac, secret, encoded);
    Texts.SplitFirstChar(encoded, signature, '.');
    Texts.SplitFirstChar(signature, "", '.');
    forall i | 0 <= i < |encoded| ensures !Texts.At(token, ".", i) {
      assert token[i..i + 1] == [encoded[i]];
    }
    assert token[|encoded|..|encoded| + 1] == ".";
    Texts.IndexOfIs(token, ".", |encoded|);
  }

  lemma TwoParts(token: string)
    requires |Texts.Split(token, ".")| == 2
    ensures var parts := Texts.Split(token, ".");
            '.' !in parts[0] && token == parts[0] + "." + parts[1]
  {
    var parts := Texts.Split(token, ".");
    Texts.PiecesLackChar(token, '.');
    Texts.JoinSplit(token, '.');
    assert parts[1..] == [parts[1]];
    assert parts[0] in parts;
  }

  method VerifyEmailToken(codec: Codec, mac: Mac, secret: string, token: string, expected: Purpose, now: int)
    returns (payload: Option<Payload>)
    ensures payload == Verified(codec, mac, secret, token, expected, now)
  {
    var dot := Texts.IndexOf(token, ".");
    if dot.Some? && Signed(mac, secret, token, token[..dot.value]) { SignedIs(mac, secret, token, token[..dot.value]); }
    var parts := Texts.Split(token, ".");
    if |parts| != 2 { return None; }
    TwoParts(token);
    var encoded, signature := parts[0], parts[1];
    var authentic := ConstantTimeEqual(signature, HmacBase64url(mac, secret, encoded));
    if !authentic { return None; }
    SignedIs(mac, secret, token, encoded);
    payload := Opened(codec, encoded, expected, now);
  }

  // ---- the two directions --------------------------------------------------

  // Verifying undoes generating for every payload: it comes back, with its
  // expiry, exactly up to that expiry and for the matching purpose.
  lemma VerifyUndoesGenerate(codec: Codec, mac: Mac, secret: string, payload: Payload,
                             ttl: int, made: int, expected: Purpose, now: int)
    requires Faithful(codec)
    ensures Verified(codec, mac, secret, Generate(codec, mac, secret, payload, ttl, made), expected, now)
         == if expected == payload.purpose && now <= made + ttl then Some(payload.(exp := made + ttl)) else None
  {
    var bytes := Utf8.Encode(codec.stringify(payload.(exp := made + ttl)));
    var encoded := Base64Url.Encode(bytes);
    Base64Url.EncodeAlphabet(bytes);
    SignedIs(mac, secret, Generate(codec, mac, secret, payload, ttl, made), encoded);
    assert codec.fromBase64url(encoded) == bytes;
  }

  // Any accepted token carries the MAC of its own encoded part, and what is
  // returned is what that part says, for the purpose asked and not expired.
  lemma AcceptedIsSigned(codec: Codec, mac: Mac, secret: string, token: string, expected: Purpose, now: int)
    returns (encoded: string)
    requires Verified(codec, mac, secret, token, expected, now).Some?
    ensures Signed(mac, secret, token, encoded)
    ensures var parts := Texts.Split(token, ".");
            && |parts| == 2 && parts[0] == encoded
            && Base64Url.Decode(parts[1]) == Some(mac(Utf8.Encode(secret), Utf8.Encode(encoded)))
    ensures var payload := Verified(codec, mac, secret, token, expected, now).value;
            && codec.parse(codec.toText(codec.fromBase64url(encoded))) == Some(payload)
            && payload.purpose == expected && now <= payload.exp
  {
    encoded := token[..Texts.IndexOf(token, ".").value];
    SignedIs(mac, secret, token, encoded);
    SignatureIs(mac, secret, encoded);
  }

  // What is signed, and with which key: a token is accepted exactly when it has
  // two parts, the second being the base64url of the MAC, under the bytes of the
  // secret, of the bytes of the first, and the first says what is returned.
  lemma AcceptsExactlyWhen(codec: Codec, mac: Mac, secret: string, token: string, expected: Purpose, now: int,
                           payload: Payload)
    ensures Verified(codec, mac, secret, token, expected, now) == Some(payload) <==>
            var parts := Texts.Split(token, ".");
            && |parts| == 2
            && parts[1] == Base64Url.Encode(mac(Utf8.Encode(secret), Utf8.Encode(parts[0])))
            && codec.parse(codec.toText(codec.fromBase64url(parts[0]))) == Some(payload)
            && payload.purpose == expected && now <= payload.exp
  {
    var dot, parts := Texts.IndexOf(token, "."), Texts.Split(token, ".");
    if dot.Some? && Signed(mac, secret, token, token[..dot.value]) {
      SignedIs(mac, secret, token, token[..dot.value]);
      SignatureIs(mac, secret, token[..dot.value]);
    }
    if |parts| == 2 {
      TwoParts(token);
      SignatureIs(mac, secret, parts[0]);
      if Signed(mac, secret, token, parts[0]) { SignedIs(mac, secret, token, parts[0]); }
    }
  }

  lemma SignatureIs(mac: Mac, key: string, data: string)
    ensures HmacBase64url(mac, key, data) == Base64Url.Encode(mac(Utf8.Encode(key), Utf8.Encode(data)))
    ensures Base64Url.Decode(HmacBase64url(mac, key, data)) == Some(mac(Utf8.Encode(key), Utf8.Encode(data)))
  {
    Base64Url.PipelineEncodes(mac(Utf8.Encode(key), Utf8.Encode(data)));
    Base64Url.DecodeEncode(mac(Utf8.Encode(key), Utf8.Encode(data)));
  }

  // Every generated token has that shape: its first part decodes to the text of the
  // payload with its expiry set, its second to the MAC of the first.
  lemma GeneratedIs(codec: Codec, mac: Mac, secret: string, payload: Payload, ttl: int, now: int)
    ensures var parts := Texts.Split(Generate(codec, mac, secret, payload, ttl, now), ".");
            && |parts| == 2
            && Base64Url.Decode(parts[0]) == Some(Utf8.Encode(codec.stringify(payload.(exp := now + ttl))))
            && Base64Url.Decode(parts[1]) == Some(mac(Utf8.Encode(secret), Utf8.Encode(parts[0])))
  {
    var bytes := Utf8.Encode(codec.stringify(payload.(exp := now + ttl)));
    Base64Url.EncodeAlphabet(bytes);
    Base64Url.DecodeEncode(bytes);
    SignedIs(mac, secret, Generate(codec, mac, secret, payload, ttl, now), Base64Url.Encode(bytes));
    SignatureIs(mac, secret, Base64Url.Encode(bytes));
  }

  // Decoders that are faithful exist: those of this project.
  lemma CodecExists(stringify: Payload -> string, parse: string -> Option<Payload>) returns (codec: Codec)
    requires forall p :: parse(stringify(p)) == Some(p)
    ensures Faithful(codec)
  {
    codec := Codec(
      stringify,
      parse,
      s => if Base64Url.Decode(s).Some? then Base64Url.Decode(s).value else [],
      bytes => if Utf8.Decode(bytes).Some? then Utf8.Decode(bytes).value else "");
    forall bytes ensures codec.fromBase64url(Base64Url.Encode(bytes)) == bytes {
      Base64Url.DecodeEncode(bytes);
    }
    forall s ensures codec.toText(Utf8.Encode(s)) == s {
      Utf8.DecodeEncode(s);
    }
  }
}
