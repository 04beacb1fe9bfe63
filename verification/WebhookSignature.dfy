// The webhook signature headers: what the sender writes and what the n8n node
// accepts. HMAC, as lower-case hex, is a parameter.
module WebhookSignature {
  import opened Numbers
  import opened Wrappers
  import opened Texts

  type Mac = (string, string) -> string

  // ---- numbers as text -----------------------------------------------------

  predicate IsDigit(c: char) {
    '0' <= c <= '9'
  }

  function Digits(n: nat): string {
    (if n < 10 then "" else Digits(n / 10)) + [('0' as int + n % 10) as char]
  }

  // `${n}`
  function Decimal(n: int): string {
    if n < 0 then "-" + Digits(-n) else Digits(n)
  }

  function DigitRun(s: string): (k: nat)
    ensures k <= |s|
  {
    if s != "" && IsDigit(s[0]) then 1 + DigitRun(s[1..]) else 0
  }

  function NatOf(s: string): int {
    if s == "" then 0 else NatOf(Front(s)) * 10 + (Last(s) as int - '0' as int)
  }

  function ParseDigits(s: string): Option<int> {
    var k := DigitRun(s);
    if k == 0 then None else Some(NatOf(s[..k]))
  }

  // parseInt(_, 10): leading space, a sign, the digits that follow; None is NaN.
  function ParseInt(s: string): Option<int> {
    var t := TrimStart(s);
    if t != "" && t[0] == '-' then
      var n := ParseDigits(t[1..]);
      if n.None? then None else Some(-n.value)
    else if t != "" && t[0] == '+' then ParseDigits(t[1..])
    else ParseDigits(t)
  }

  lemma {:induction false} DigitsRoundTrip(n: nat)
    ensures NatOf(Digits(n)) == n && Digits(n) != "" && forall c | c in Digits(n) :: IsDigit(c)
  {
    var last := ('0' as int + n % 10) as char;
    if n < 10 {
      assert Digits(n) == [last] && NatOf([]) == 0;
    } else {
      DigitsRoundTrip(n / 10);
      assert Front(Digits(n)) == Digits(n / 10) && Last(Digits(n)) == last;
    }
  }

  lemma {:induction false} RunOfDigits(s: string, rest: string)
    requires (forall c | c in s :: IsDigit(c)) && (rest == "" || !IsDigit(rest[0]))
    ensures DigitRun(s + rest) == |s|
  {
    if s == "" {
      assert s + rest == rest;
    } else {
      assert s[0] in s && (s + rest)[1..] == s[1..] + rest;
      RunOfDigits(s[1..], rest);
    }
  }

  lemma ParseDigitsBack(n: nat, rest: string)
    requires rest == "" || !IsDigit(rest[0])
    ensures ParseDigits(Digits(n) + rest) == Some(n)
  {
    DigitsRoundTrip(n);
    RunOfDigits(Digits(n), rest);
    assert (Digits(n) + rest)[..|Digits(n)|] == Digits(n);
  }

  lemma ParseSigned(s: string, n: int)
    requires s != "" && IsDigit(s[0]) && ParseDigits(s) == Some(n)
    ensures ParseInt(s) == Some(n) && ParseInt("-" + s) == Some(-n)
  {
  }

  lemma DigitsThen(m: nat, rest: string)
    requires rest == "" || !IsDigit(rest[0])
    ensures var text := Digits(m) + rest;
            text != "" && IsDigit(text[0]) && ParseDigits(text) == Some(m)
  {
    DigitsRoundTrip(m);
    ParseDigitsBack(m, rest);
    assert Digits(m)[0] in Digits(m) && (Digits(m) + rest)[0] == Digits(m)[0];
  }

  // The text of a number reads back as that number, whatever non-digit follows.
  lemma ParseDecimal(n: int, rest: string)
    requires rest == "" || !IsDigit(rest[0])
    ensures ParseInt(Decimal(n) + rest) == Some(n)
  {
    if n < 0 {
      DigitsThen(-n, rest);
      ParseSigned(Digits(-n) + rest, -n);
      assert Decimal(n) + rest == "-" + (Digits(-n) + rest);
    } else {
      DigitsThen(n, rest);
      ParseSigned(Digits(n) + rest, n);
    }
  }

  // ---- the verifier --------------------------------------------------------

  datatype Header = Absent | One(text: string) | Many(texts: seq<string>)

  function PickHeader(header: Header): Option<string> {
    match header
    case Absent => None
    case One(text) => Some(text)
    case Many(texts) => if texts == [] then None else Some(texts[0])
  }

  // An empty string counts as no header.
  function Present(header: Header): Option<string> {
    if PickHeader(header) == Some("") then None else PickHeader(header)
  }

  datatype Reason =
    | MissingHeader | MalformedV2 | OutsideTolerance | MismatchV2 | MalformedV1 | MismatchV1

  datatype Verdict = OkV1 | OkV2 | Refused(reason: Reason)

  function TrimAll(parts: seq<string>): seq<string> {
    if parts == [] then [] else [Trim(parts[0])] + TrimAll(parts[1..])
  }

  function Parts(header: string): seq<string> {
    TrimAll(Split(header, ","))
  }

  // key=value, up to the first "=".
  function Key(part: string): Option<string> {
    var eq := IndexOf(part, "=");
    if eq.None? then None else Some(part[..eq.value])
  }

  function Value(part: string): string {
    var eq := IndexOf(part, "=");
    if eq.None? then "" else part[eq.value + 1..]
  }

  // The value of the last part with this key.
  function LastValue(parts: seq<string>, key: string): Option<string> {
    if parts == [] then None
    else if Key(Last(parts)) == Some(key) then Some(Value(Last(parts)))
    else LastValue(Front(parts), key)
  }

  function Timestamp(parts: seq<string>): Option<int> {
    var text := LastValue(parts, "t");
    if text.None? then None else ParseInt(text.value)
  }

  // The loop over the parts: a later field overwrites an earlier one.
  method ReadFields(parts: seq<string>) returns (ts: Option<int>, hex: Option<string>)
    ensures ts == Timestamp(parts) && hex == LastValue(parts, "v1")
  {
    ts, hex := None, None;
    for i := 0 to |parts|
      invariant ts == Timestamp(parts[..i]) && hex == LastValue(parts[..i], "v1")
    {
      var part := parts[i];
      assert Front(parts[..i + 1]) == parts[..i];
      var eq := IndexOf(part, "=");
      if eq.None? { continue; }
      var key, value := part[..eq.value], part[eq.value + 1..];
      if key == "t" { ts := ParseInt(value); }
      else if key == "v1" { hex := Some(value); }
    }
    assert parts[..|parts|] == parts;
  }

  method VerifySignature(mac: Mac, secret: string, body: string, v1Header: Header, v2Header: Header,
                         tolerance: int, nowMs: int)
    returns (verdict: Verdict)
    ensures verdict == Verified(mac, secret, body, v1Header, v2Header, tolerance, nowMs)
  {
    var v1, v2 := PickHeader(v1Header), PickHeader(v2Header);
    if (v1.None? || v1.value == "") && (v2.None? || v2.value == "") { return Refused(MissingHeader); }
    if v2.Some? && v2.value != "" {
      var parts := Parts(v2.value);
      var ts, hex := ReadFields(parts);
      if ts.None? || ts.value == 0 || hex.None? || hex.value == "" { return Refused(MalformedV2); }
      if Abs(nowMs / 1000 - ts.value) > tolerance { return Refused(OutsideTolerance); }
      var expected := mac(secret, Decimal(ts.value) + "." + body);
      if expected == hex.value { return OkV2; }
      return Refused(MismatchV2);
    }
    var trimmed := Trim(v1.value);
    var prefix := "sha256=";
    if !(prefix <= trimmed) { return Refused(MalformedV1); }
    if mac(secret, body) == trimmed[|prefix|..] { return OkV1; }
    return Refused(MismatchV1);
  }

  // What the v2 header comes down to: a timestamp text and a hex text.
  function Judge(mac: Mac, secret: string, body: string, ts: Option<int>, hex: Option<string>,
                 tolerance: int, nowMs: int): Verdict
  {
    if ts.None? || ts.value == 0 || hex.None? || hex.value == "" then Refused(MalformedV2)
    else if Abs(nowMs / 1000 - ts.value) > tolerance then Refused(OutsideTolerance)
    else if mac(secret, Decimal(ts.value) + "." + body) == hex.value then OkV2
    else Refused(MismatchV2)
  }

  function Verified(mac: Mac, secret: string, body: string, v1Header: Header, v2Header: Header,
                    tolerance: int, nowMs: int): Verdict
  {
    var v1, v2 := Present(v1Header), Present(v2Header);
    if v2.Some? then
      var parts := Parts(v2.value);
      Judge(mac, secret, body, Timestamp(parts), LastValue(parts, "v1"), tolerance, nowMs)
    else if v1.Some? then
      var trimmed := Trim(v1.value);
      if !("sha256=" <= trimmed) then Refused(MalformedV1)
      else if mac(secret, body) == trimmed[7..] then OkV1
      else Refused(MismatchV1)
    else Refused(MissingHeader)
  }

  // ---- what the formatting may be ------------------------------------------

  // A field as it may stand between two commas.
  predicate Field(f: string) {
    Tight(f) && ',' !in f
  }

  datatype Padded = Padded(before: string, field: string, after: string)

  predicate Plain(p: Padded) {
    Field(p.field) && Blank(p.before) && Blank(p.after)
  }

  function Written(ps: seq<Padded>): seq<string> {
    if ps == [] then [] else [ps[0].before + ps[0].field + ps[0].after] + Written(ps[1..])
  }

  function Fields(ps: seq<Padded>): seq<string> {
    if ps == [] then [] else [ps[0].field] + Fields(ps[1..])
  }

  lemma {:induction false} WrittenTrims(ps: seq<Padded>)
    requires forall p | p in ps :: Plain(p)
    ensures TrimAll(Written(ps)) == Fields(ps) && |Written(ps)| == |ps|
    ensures forall w | w in Written(ps) :: ',' !in w
  {
    if ps != [] {
      assert ps[0] in ps;
      TrimPadded(ps[0].before, ps[0].field, ps[0].after);
      NoComma(ps[0].before);
      NoComma(ps[0].after);
      WrittenTrims(ps[1..]);
    }
  }

  lemma NoComma(blank: string)
    requires Blank(blank)
    ensures ',' !in blank
  {
  }

  // The parts of a header are its fields, however much space is around them.
  lemma PartsAreFields(ps: seq<Padded>)
    requires ps != [] && forall p | p in ps :: Plain(p)
    ensures Parts(Join(Written(ps), ",")) == Fields(ps)
  {
    WrittenTrims(ps);
    SplitJoin(Written(ps), ',');
  }

  // One field of the key, the others of other keys: its value counts wherever it
  // stands.
  lemma {:induction false} OnlyValue(parts: seq<string>, key: string, i: nat)
    requires i < |parts| && Key(parts[i]) == Some(key)
    requires forall j | 0 <= j < |parts| && j != i :: Key(parts[j]) != Some(key)
    ensures LastValue(parts, key) == Some(Value(parts[i]))
  {
    if i < |parts| - 1 {
      OnlyValue(Front(parts), key, i);
    }
  }

  lemma KeyValue(key: string, value: string)
    requires '=' !in key
    ensures Key(key + "=" + value) == Some(key) && Value(key + "=" + value) == value
  {
    var part := key + "=" + value;
    forall j | 0 <= j < |key| ensures !At(part, "=", j) {
      assert part[j..j + 1] == [key[j]];
    }
    assert part[|key|..|key| + 1] == "=";
    IndexOfIs(part, "=", |key|);
    assert part[..|key|] == key && part[|key| + 1..] == value;
  }

  lemma OneOfEach(parts: seq<string>, i: nat, j: nat)
    requires i < |parts| && j < |parts| && Key(parts[i]) == Some("t") && Key(parts[j]) == Some("v1")
    requires forall k | 0 <= k < |parts| && k != i :: Key(parts[k]) != Some("t")
    requires forall k | 0 <= k < |parts| && k != j :: Key(parts[k]) != Some("v1")
    ensures Timestamp(parts) == ParseInt(Value(parts[i])) && LastValue(parts, "v1") == Some(Value(parts[j]))
  {
    OnlyValue(parts, "t", i);
    OnlyValue(parts, "v1", j);
  }

  // Whitespace around fields, the order of fields and unknown fields make no
  // difference: with one t field and one v1 field anywhere among fields of other
  // keys, the verdict is that of those two values.
  lemma FormattingIrrelevant(mac: Mac, secret: string, body: string, v1Header: Header, tolerance: int, nowMs: int,
                             ps: seq<Padded>, i: nat, j: nat)
    requires forall p | p in ps :: Plain(p)
    requires i < |ps| && j < |ps| && Key(ps[i].field) == Some("t") && Key(ps[j].field) == Some("v1")
    requires forall k | 0 <= k < |ps| && k != i :: Key(ps[k].field) != Some("t")
    requires forall k | 0 <= k < |ps| && k != j :: Key(ps[k].field) != Some("v1")
    ensures Verified(mac, secret, body, v1Header, One(Join(Written(ps), ",")), tolerance, nowMs)
         == Judge(mac, secret, body, ParseInt(Value(ps[i].field)), Some(Value(ps[j].field)), tolerance, nowMs)
  {
    PartsAreFields(ps);
    FieldsAt(ps);
    OneOfEach(Fields(ps), i, j);
    PartsNonEmpty(ps);
    V2Decides(mac, secret, body, v1Header, Join(Written(ps), ","), Fields(ps), tolerance, nowMs);
  }

  lemma V2Decides(mac: Mac, secret: string, body: string, v1Header: Header, header: string, parts: seq<string>,
                  tolerance: int, nowMs: int)
    requires header != "" && Parts(header) == parts
    ensures Verified(mac, secret, body, v1Header, One(header), tolerance, nowMs)
         == Judge(mac, secret, body, Timestamp(parts), LastValue(parts, "v1"), tolerance, nowMs)
  {
  }

  lemma {:induction false} FieldsAt(ps: seq<Padded>)
    ensures |Fields(ps)| == |ps| && forall k | 0 <= k < |ps| :: Fields(ps)[k] == ps[k].field
  {
    if ps != [] {
      FieldsAt(ps[1..]);
    }
  }

  lemma PartsNonEmpty(ps: seq<Padded>)
    requires ps != [] && forall p | p in ps :: Plain(p)
    ensures Join(Written(ps), ",") != ""
  {
    assert Plain(ps[0]);
  }

  // ---- the sender ----------------------------------------------------------

  function SentV1(mac: Mac, secret: string, body: string): string {
    "sha256=" + mac(secret, body)
  }

  function SentV2(mac: Mac, secret: string, body: string, ts: int): string {
    "t=" + Decimal(ts) + ",v1=" + mac(secret, Decimal(ts) + "." + body)
  }

  // Hex text.
  ghost predicate Hex(mac: Mac) {
    forall key, data :: mac(key, data) != "" && forall c | c in mac(key, data) :: IsDigit(c) || 'a' <= c <= 'f'
  }

  predicate PlainChar(c: char) {
    IsDigit(c) || 'a' <= c <= 'f' || c == '-'
  }

  lemma DecimalPlain(n: int)
    ensures Decimal(n) != "" && forall c | c in Decimal(n) :: PlainChar(c)
  {
    DigitsRoundTrip(if n < 0 then -n else n);
  }

  // A key and a plain text make a field.
  lemma PlainField(prefix: string, text: string)
    requires prefix == "t=" || prefix == "v1="
    requires text != "" && forall c | c in text :: PlainChar(c)
    ensures Field(prefix + text)
  {
    assert PlainChar(Last(text)) && Last(prefix + text) == Last(text);
    assert (prefix + text)[0] == prefix[0];
    forall c | c in prefix + text ensures c != ',' {
      assert c in prefix || c in text;
    }
  }

  // Every v2 header the sender writes is accepted exactly within the tolerance,
  // a timestamp of zero apart.
  lemma SentV2Accepted(mac: Mac, secret: string, body: string, ts: int, v1Header: Header, tolerance: int, nowMs: int)
    requires Hex(mac)
    ensures Verified(mac, secret, body, v1Header, One(SentV2(mac, secret, body, ts)), tolerance, nowMs)
         == if ts == 0 then Refused(MalformedV2)
            else if Abs(nowMs / 1000 - ts) > tolerance then Refused(OutsideTolerance)
            else OkV2
  {
    var hex := mac(secret, Decimal(ts) + "." + body);
    var parts := SentFields(ts, hex);
    V2Decides(mac, secret, body, v1Header, SentV2(mac, secret, body, ts), parts, tolerance, nowMs);
  }

  lemma SentFields(ts: int, hex: string) returns (parts: seq<string>)
    requires hex != "" && forall c | c in hex :: IsDigit(c) || 'a' <= c <= 'f'
    ensures var header := "t=" + Decimal(ts) + ",v1=" + hex;
            header != "" && Parts(header) == parts
    ensures Timestamp(parts) == Some(ts) && LastValue(parts, "v1") == Some(hex)
  {
    var t, v := "t=" + Decimal(ts), "v1=" + hex;
    parts := [t, v];
    DecimalPlain(ts);
    PlainField("t=", Decimal(ts));
    PlainField("v1=", hex);
    TwoParts(t, v);
    TwoKeys(Decimal(ts), hex);
    TwoValues(t, v);
    ParseDecimal(ts, "");
    assert Decimal(ts) + "" == Decimal(ts);
    SentText(Decimal(ts), hex);
  }

  lemma SentText(t: string, hex: string)
    ensures "t=" + t + ",v1=" + hex == ("t=" + t) + "," + ("v1=" + hex)
  {
  }

  lemma TwoValues(t: string, v: string)
    requires Key(t) == Some("t") && Key(v) == Some("v1")
    ensures Timestamp([t, v]) == ParseInt(Value(t)) && LastValue([t, v], "v1") == Some(Value(v))
  {
    assert [t, v][0] == t && [t, v][1] == v;
    OneOfEach([t, v], 0, 1);
  }

  lemma TwoKeys(t: string, hex: string)
    ensures Key("t=" + t) == Some("t") && Value("t=" + t) == t
    ensures Key("v1=" + hex) == Some("v1") && Value("v1=" + hex) == hex
  {
    KeyValue("t", t);
    KeyValue("v1", hex);
    assert "t" + "=" + t == "t=" + t && "v1" + "=" + hex == "v1=" + hex;
  }

  lemma TwoParts(t: string, v: string)
    requires Field(t) && Field(v)
    ensures Parts(t + "," + v) == [t, v]
  {
    SplitFirstChar(t, v, ',');
    SplitFirstChar(v, "", ',');
    TrimTight(t);
    TrimTight(v);
    assert [t, v][1..] == [v] && [v][1..] == [];
    assert TrimAll([v]) == [v];
  }

  // Every v1 header the sender writes is accepted where there is no v2 header.
  lemma SentV1Accepted(mac: Mac, secret: string, body: string, v2Header: Header, tolerance: int, nowMs: int)
    requires Hex(mac) && Present(v2Header).None?
    ensures Verified(mac, secret, body, One(SentV1(mac, secret, body)), v2Header, tolerance, nowMs) == OkV1
  {
    var sent := SentV1(mac, secret, body);
    assert Last(mac(secret, body)) in mac(secret, body);
    TrimTight(sent);
    assert sent[7..] == mac(secret, body);
  }

  // ---- soundness -----------------------------------------------------------

  // The last part with this key stands at i.
  ghost predicate IsLast(parts: seq<string>, key: string, i: int) {
    && 0 <= i < |parts| && Key(parts[i]) == Some(key)
    && forall k | i < k < |parts| :: Key(parts[k]) != Some(key)
  }

  lemma {:induction false} LastValueIs(parts: seq<string>, key: string) returns (i: int)
    ensures LastValue(parts, key).Some? <==> IsLast(parts, key, i)
    ensures LastValue(parts, key).Some? ==> LastValue(parts, key).value == Value(parts[i])
    ensures forall j :: IsLast(parts, key, j) ==> j == i
  {
    i := |parts| - 1;
    if parts != [] && Key(Last(parts)) != Some(key) {
      i := LastValueIs(Front(parts), key);
      forall j | IsLast(parts, key, j) ensures IsLast(Front(parts), key, j) {
      }
    }
  }

  // What a v2 header must hold: its last t field, at i, reads as a timestamp
  // other than zero within the tolerance, and its last v1 field, at j, is the
  // MAC of "t.body".
  ghost predicate Authentic(mac: Mac, secret: string, body: string, parts: seq<string>,
                            tolerance: int, nowMs: int, i: int, j: int)
  {
    && IsLast(parts, "t", i) && IsLast(parts, "v1", j)
    && var ts := ParseInt(Value(parts[i]));
       && ts.Some? && ts.value != 0
       && Abs(nowMs / 1000 - ts.value) <= tolerance
       && Value(parts[j]) == mac(secret, Decimal(ts.value) + "." + body)
  }

  lemma AcceptsV2ExactlyWhen(mac: Mac, secret: string, body: string, v1Header: Header, v2Header: Header,
                             tolerance: int, nowMs: int)
    requires Hex(mac)
    ensures Verified(mac, secret, body, v1Header, v2Header, tolerance, nowMs) == OkV2 <==>
            Present(v2Header).Some?
            && exists i, j :: Authentic(mac, secret, body, Parts(Present(v2Header).value), tolerance, nowMs, i, j)
  {
    if Present(v2Header).Some? {
      var parts := Parts(Present(v2Header).value);
      var i := LastValueIs(parts, "t");
      var j := LastValueIs(parts, "v1");
      JudgeIsAuthentic(mac, secret, body, parts, tolerance, nowMs, i, j);
    }
  }

  lemma JudgeIsAuthentic(mac: Mac, secret: string, body: string, parts: seq<string>,
                         tolerance: int, nowMs: int, i: int, j: int)
    requires Hex(mac)
    requires LastValue(parts, "t").Some? <==> IsLast(parts, "t", i)
    requires LastValue(parts, "v1").Some? <==> IsLast(parts, "v1", j)
    requires LastValue(parts, "t").Some? ==> LastValue(parts, "t").value == Value(parts[i])
    requires LastValue(parts, "v1").Some? ==> LastValue(parts, "v1").value == Value(parts[j])
    ensures Judge(mac, secret, body, Timestamp(parts), LastValue(parts, "v1"), tolerance, nowMs) == OkV2 <==>
            Authentic(mac, secret, body, parts, tolerance, nowMs, i, j)
  {
  }

  // v1 is accepted only where no v2 header is present, and then exactly for the
  // MAC of the body: a v2 header that fails is never made good by a v1 header.
  lemma AcceptsV1ExactlyWhen(mac: Mac, secret: string, body: string, v1Header: Header, v2Header: Header,
                             tolerance: int, nowMs: int)
    ensures (Verified(mac, secret, body, v1Header, v2Header, tolerance, nowMs) == OkV1) <==>
            (Present(v2Header).None? && Present(v1Header).Some?
             && Trim(Present(v1Header).value) == SentV1(mac, secret, body))
  {
  }

  // ---- refusals ------------------------------------------------------------

  // A header counts by its first text, where that is not empty.
  lemma PresentIs(header: Header, text: string)
    ensures Present(header) == Some(text) <==>
            text != "" && (header == One(text) || (header.Many? && header.texts != [] && header.texts[0] == text))
  {
  }

  // The reasons of a v2 header: no readable timestamp other than zero or no v1
  // value, a timestamp too far from the clock's seconds either way, another MAC.
  lemma JudgementsAre(mac: Mac, secret: string, body: string, ts: Option<int>, hex: Option<string>,
                      tolerance: int, nowMs: int)
    ensures var verdict := Judge(mac, secret, body, ts, hex, tolerance, nowMs);
            if ts == None || ts == Some(0) || hex == None || hex == Some("") then verdict == Refused(MalformedV2)
            else if ts.value - nowMs / 1000 > tolerance || nowMs / 1000 - ts.value > tolerance
            then verdict == Refused(OutsideTolerance)
            else verdict == if hex.value == mac(secret, Decimal(ts.value) + "." + body) then OkV2
                            else Refused(MismatchV2)
  {
  }

  // Which header decides, and the reasons of a v1 header: no "sha256=" in front, or
  // another MAC.
  lemma RefusalsAre(mac: Mac, secret: string, body: string, v1Header: Header, v2Header: Header,
                    tolerance: int, nowMs: int)
    ensures var verdict := Verified(mac, secret, body, v1Header, v2Header, tolerance, nowMs);
            match Present(v2Header)
            case Some(v2) =>
              verdict == Judge(mac, secret, body, Timestamp(Parts(v2)), LastValue(Parts(v2), "v1"), tolerance, nowMs)
            case None =>
              match Present(v1Header)
              case None => verdict == Refused(MissingHeader)
              case Some(v1) =>
                verdict == if !("sha256=" <= Trim(v1)) then Refused(MalformedV1)
                           else if Trim(v1) == "sha256=" + mac(secret, body) then OkV1
                           else Refused(MismatchV1)
  {
    if Present(v1Header).Some? { AfterPrefix(Trim(Present(v1Header).value), mac(secret, body)); }
  }

  lemma AfterPrefix(trimmed: string, hex: string)
    ensures "sha256=" <= trimmed ==> (trimmed[7..] == hex <==> trimmed == "sha256=" + hex)
  {
    assert "sha256=" <= trimmed ==> trimmed == "sha256=" + trimmed[7..];
    assert ("sha256=" + hex)[7..] == hex;
  }

  // Space, a sign, digits and whatever follows; and nothing else is a number.
  lemma ParseIntIs(space: string, n: int, rest: string)
    requires n >= 0 && Blank(space) && (rest == "" || !IsDigit(rest[0]))
    ensures ParseInt(space + (Digits(n) + rest)) == Some(n)
    ensures ParseInt(space + ("+" + (Digits(n) + rest))) == Some(n)
    ensures ParseInt(space + ("-" + (Digits(n) + rest))) == Some(-n)
    ensures rest == "" || (rest[0] !in {'+', '-'} && !IsSpace(rest[0])) ==> ParseInt(space + rest) == None
  {
    var text := Digits(n) + rest;
    DigitsThen(n, rest);
    ParseSigned(text, n);
    ParsePlus(text, n);
    ParsePadded(space, text);
    ParsePadded(space, "+" + text);
    ParsePadded(space, "-" + text);
    ParsePadded(space, rest);
  }

  lemma ParsePlus(s: string, n: int)
    requires s != "" && IsDigit(s[0]) && ParseDigits(s) == Some(n)
    ensures ParseInt("+" + s) == Some(n)
  {
    assert ("+" + s)[1..] == s;
  }

  lemma ParsePadded(space: string, text: string)
    requires Blank(space)
    ensures ParseInt(space + text) == ParseInt(text)
  {
    TrimStartPad(space, text);
  }
}
