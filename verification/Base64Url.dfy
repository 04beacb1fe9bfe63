// Base64url text as section 5 of RFC 4648 defines it, reached the way the
// programs reach it: standard base64, two replacements, padding removed.
module Base64Url {
  import opened Wrappers

  newtype byte = x: int | 0 <= x < 256

  // ---- standard base64 -----------------------------------------------------

  function Digit(i: int): char
    requires 0 <= i < 64
  {
    if i < 26 then ('A' as int + i) as char
    else if i < 52 then ('a' as int + i - 26) as char
    else if i < 62 then ('0' as int + i - 52) as char
    else if i == 62 then '+'
    else '/'
  }

  function Btoa(bytes: seq<byte>): string {
    if |bytes| == 0 then ""
    else if |bytes| == 1 then
      var a := bytes[0] as int;
      [Digit(a / 4), Digit(a % 4 * 16), '=', '=']
    else if |bytes| == 2 then
      var a, b := bytes[0] as int, bytes[1] as int;
      [Digit(a / 4), Digit(a % 4 * 16 + b / 16), Digit(b % 16 * 4), '=']
    else
      var a, b, c := bytes[0] as int, bytes[1] as int, bytes[2] as int;
      [Digit(a / 4), Digit(a % 4 * 16 + b / 16), Digit(b % 16 * 4 + c / 64), Digit(c % 64)] + Btoa(bytes[3..])
  }

  // Test vectors of section 10 of RFC 4648.
  lemma TestVectors()
    ensures Btoa([102]) == "Zg==" && Btoa([102, 111]) == "Zm8=" && Btoa([102, 111, 111]) == "Zm9v"
    ensures Btoa([102, 111, 111, 98, 97, 114]) == "Zm9vYmFy"
  {
    var foobar: seq<byte> := [102, 111, 111, 98, 97, 114];
    assert foobar[3..] == [98, 97, 114];
    assert Btoa([98, 97, 114]) == "YmFy";
  }

  // ---- the string operations -----------------------------------------------

  function Replace(s: string, from: char, to: char): string {
    seq(|s|, i requires 0 <= i < |s| => if s[i] == from then to else s[i])
  }

  function Remove(s: string, c: char): string {
    if s == "" then "" else (if s[0] == c then "" else [s[0]]) + Remove(s[1..], c)
  }

  function TrimEnd(s: string, c: char): string {
    if s != "" && s[|s| - 1] == c then TrimEnd(s[..|s| - 1], c) else s
  }

  lemma {:induction false} RemoveAppend(s: string, t: string, c: char)
    ensures Remove(s + t, c) == Remove(s, c) + Remove(t, c)
  {
    if s == "" {
      assert s + t == t;
    } else {
      assert (s + t)[1..] == s[1..] + t;
      RemoveAppend(s[1..], t, c);
    }
  }

  // .replace(/\+/g, "-").replace(/\//g, "_")
  function UrlSafe(s: string): string {
    Replace(Replace(s, '+', '-'), '/', '_')
  }

  // ---- base64url without padding -------------------------------------------

  function UrlDigit(i: int): char
    requires 0 <= i < 64
  {
    if i == 62 then '-' else if i == 63 then '_' else Digit(i)
  }

  function Encode(bytes: seq<byte>): string {
    if |bytes| == 0 then ""
    else if |bytes| == 1 then
      var a := bytes[0] as int;
      [UrlDigit(a / 4), UrlDigit(a % 4 * 16)]
    else if |bytes| == 2 then
      var a, b := bytes[0] as int, bytes[1] as int;
      [UrlDigit(a / 4), UrlDigit(a % 4 * 16 + b / 16), UrlDigit(b % 16 * 4)]
    else
      var a, b, c := bytes[0] as int, bytes[1] as int, bytes[2] as int;
      [UrlDigit(a / 4), UrlDigit(a % 4 * 16 + b / 16), UrlDigit(b % 16 * 4 + c / 64), UrlDigit(c % 64)]
      + Encode(bytes[3..])
  }

  predicate InAlphabet(c: char) {
    'A' <= c <= 'Z' || 'a' <= c <= 'z' || '0' <= c <= '9' || c == '-' || c == '_'
  }

  lemma UrlSafeAppend(s: string, t: string)
    ensures UrlSafe(s + t) == UrlSafe(s) + UrlSafe(t)
  {
  }

  function Padding(bytes: seq<byte>): string {
    if |bytes| % 3 == 0 then "" else if |bytes| % 3 == 1 then "==" else "="
  }

  lemma SafeQuad(i: int, j: int, k: int, l: int)
    requires 0 <= i < 64 && 0 <= j < 64 && 0 <= k < 64 && 0 <= l < 64
    ensures UrlSafe([Digit(i), Digit(j), Digit(k), Digit(l)]) == [UrlDigit(i), UrlDigit(j), UrlDigit(k), UrlDigit(l)]
  {
  }

  lemma SafeGroup(i: int, j: int, k: int, l: int, rest: string, encoded: string, padding: string)
    requires 0 <= i < 64 && 0 <= j < 64 && 0 <= k < 64 && 0 <= l < 64
    requires UrlSafe(rest) == encoded + padding
    ensures UrlSafe([Digit(i), Digit(j), Digit(k), Digit(l)] + rest)
         == ([UrlDigit(i), UrlDigit(j), UrlDigit(k), UrlDigit(l)] + encoded) + padding
  {
    SafeQuad(i, j, k, l);
    UrlSafeAppend([Digit(i), Digit(j), Digit(k), Digit(l)], rest);
  }

  // The padded text, made URL-safe.
  lemma {:induction false} UrlSafeBtoa(bytes: seq<byte>)
    ensures UrlSafe(Btoa(bytes)) == Encode(bytes) + Padding(bytes)
  {
    if |bytes| == 1 {
      UrlSafeOne(bytes[0] as int);
      assert bytes == [bytes[0]];
    } else if |bytes| == 2 {
      UrlSafeTwo(bytes[0] as int, bytes[1] as int);
      assert bytes == [bytes[0], bytes[1]];
    } else if |bytes| >= 3 {
      UrlSafeBtoa(bytes[3..]);
      UrlSafeThree(bytes);
    }
  }

  lemma FirstGroup(bytes: seq<byte>) returns (i: int, j: int, k: int, l: int)
    requires |bytes| >= 3
    ensures 0 <= i < 64 && 0 <= j < 64 && 0 <= k < 64 && 0 <= l < 64
    ensures Btoa(bytes) == [Digit(i), Digit(j), Digit(k), Digit(l)] + Btoa(bytes[3..])
    ensures Encode(bytes) == [UrlDigit(i), UrlDigit(j), UrlDigit(k), UrlDigit(l)] + Encode(bytes[3..])
    ensures Padding(bytes) == Padding(bytes[3..])
  {
    var a, b, c := bytes[0] as int, bytes[1] as int, bytes[2] as int;
    i, j, k, l := a / 4, a % 4 * 16 + b / 16, b % 16 * 4 + c / 64, c % 64;
    SamePadding(bytes);
  }

  lemma SamePadding(bytes: seq<byte>)
    requires |bytes| >= 3
    ensures Padding(bytes) == Padding(bytes[3..])
  {
  }

  lemma UrlSafeThree(bytes: seq<byte>)
    requires |bytes| >= 3 && UrlSafe(Btoa(bytes[3..])) == Encode(bytes[3..]) + Padding(bytes[3..])
    ensures UrlSafe(Btoa(bytes)) == Encode(bytes) + Padding(bytes)
  {
    var i, j, k, l := FirstGroup(bytes);
    SafeGroup(i, j, k, l, Btoa(bytes[3..]), Encode(bytes[3..]), Padding(bytes[3..]));
  }

  lemma UrlSafeOne(a: int)
    requires 0 <= a < 256
    ensures UrlSafe(Btoa([a as byte])) == Encode([a as byte]) + "=="
  {
  }

  lemma UrlSafeTwo(a: int, b: int)
    requires 0 <= a < 256 && 0 <= b < 256
    ensures UrlSafe(Btoa([a as byte, b as byte])) == Encode([a as byte, b as byte]) + "="
  {
  }

  lemma {:induction false} EncodeAlphabet(bytes: seq<byte>)
    ensures forall c | c in Encode(bytes) :: InAlphabet(c)
    ensures |Encode(bytes)| == (4 * |bytes| + 2) / 3
  {
    if |bytes| >= 3 {
      EncodeAlphabet(bytes[3..]);
    }
  }

  lemma {:induction false} RemoveAbsent(s: string, c: char)
    requires c !in s
    ensures Remove(s, c) == s
  {
    if s != "" {
      RemoveAbsent(s[1..], c);
    }
  }

  lemma RemovePadding()
    ensures Remove("", '=') == Remove("=", '=') == Remove("==", '=') == ""
  {
  }

  lemma TrimPadding(e: string)
    requires '=' !in e
    ensures TrimEnd(e, '=') == TrimEnd(e + "=", '=') == TrimEnd(e + "==", '=') == e
  {
    assert (e + "=")[..|e|] == e && (e + "==")[..|e| + 1] == e + "=";
    assert TrimEnd(e, '=') == e;
  }

  // Both ways of dropping the padding leave exactly the unpadded encoding.
  lemma PipelineEncodes(bytes: seq<byte>)
    ensures Remove(UrlSafe(Btoa(bytes)), '=') == Encode(bytes)
    ensures TrimEnd(UrlSafe(Btoa(bytes)), '=') == Encode(bytes)
  {
    UrlSafeBtoa(bytes);
    EncodeAlphabet(bytes);
    var e, p := Encode(bytes), Padding(bytes);
    RemoveAppend(e, p, '=');
    RemoveAbsent(e, '=');
    RemovePadding();
    assert e + "" == e;
    TrimPadding(e);
  }

  // ---- decoding ------------------------------------------------------------

  function Value(c: char): Option<int> {
    if 'A' <= c <= 'Z' then Some(c as int - 'A' as int)
    else if 'a' <= c <= 'z' then Some(c as int - 'a' as int + 26)
    else if '0' <= c <= '9' then Some(c as int - '0' as int + 52)
    else if c == '-' then Some(62)
    else if c == '_' then Some(63)
    else None
  }

  lemma ValueOfDigit(i: int)
    requires 0 <= i < 64
    ensures Value(UrlDigit(i)) == Some(i)
  {
  }

  // None for a character outside the alphabet or a lone last character.
  function Decode(s: string): Option<seq<byte>> {
    if |s| == 0 then Some([])
    else if |s| == 1 || Value(s[0]).None? || Value(s[1]).None? then None
    else
      var i, j := Value(s[0]).value, Value(s[1]).value;
      var first := Byte(i * 4 + j / 16);
      if |s| == 2 then Some([first])
      else if Value(s[2]).None? then None
      else
        var k := Value(s[2]).value;
        var second := Byte(j * 16 + k / 4);
        if |s| == 3 then Some([first, second])
        else if Value(s[3]).None? || Decode(s[4..]).None? then None
        else Some([first, second, Byte(k * 64 + Value(s[3]).value)] + Decode(s[4..]).value)
  }

  // The low eight bits.
  function Byte(n: int): byte {
    (n % 256) as byte
  }

  // The first, second and third byte come back out of their sextets.
  lemma FirstByte(a: int, s: int)
    requires 0 <= a < 256 && 0 <= s < 16
    ensures Byte(a / 4 * 4 + (a % 4 * 16 + s) / 16) as int == a
  {
  }

  lemma SecondByte(r: int, b: int, u: int)
    requires 0 <= b < 256 && 0 <= u < 4
    ensures Byte((r * 16 + b / 16) * 16 + (b % 16 * 4 + u) / 4) as int == b
  {
    assert (b % 16 * 4 + u) / 4 == b % 16;
    assert (r * 256 + b) % 256 == b;
  }

  lemma ThirdByte(t: int, c: int)
    requires 0 <= c < 256
    ensures Byte((t * 4 + c / 64) * 64 + c % 64) as int == c
  {
  }

  lemma DecodeOne(a: int)
    requires 0 <= a < 256
    ensures Decode([UrlDigit(a / 4), UrlDigit(a % 4 * 16)]) == Some([a as byte])
  {
    ValueOfDigit(a / 4);
    ValueOfDigit(a % 4 * 16);
    FirstByte(a, 0);
  }

  lemma DecodeTwo(a: int, b: int)
    requires 0 <= a < 256 && 0 <= b < 256
    ensures Decode([UrlDigit(a / 4), UrlDigit(a % 4 * 16 + b / 16), UrlDigit(b % 16 * 4)])
         == Some([a as byte, b as byte])
  {
    ValueOfDigit(a / 4);
    ValueOfDigit(a % 4 * 16 + b / 16);
    ValueOfDigit(b % 16 * 4);
    FirstByte(a, b / 16);
    SecondByte(a % 4, b, 0);
  }

  lemma DecodeGroup(a: int, b: int, c: int, rest: string)
    requires 0 <= a < 256 && 0 <= b < 256 && 0 <= c < 256 && Decode(rest).Some?
    ensures var group := [UrlDigit(a / 4), UrlDigit(a % 4 * 16 + b / 16),
                          UrlDigit(b % 16 * 4 + c / 64), UrlDigit(c % 64)];
            Decode(group + rest) == Some([a as byte, b as byte, c as byte] + Decode(rest).value)
  {
    ValueOfDigit(a / 4);
    ValueOfDigit(a % 4 * 16 + b / 16);
    ValueOfDigit(b % 16 * 4 + c / 64);
    ValueOfDigit(c % 64);
    FirstByte(a, b / 16);
    SecondByte(a % 4, b, c / 64);
    ThirdByte(b % 16, c);
    var group := [UrlDigit(a / 4), UrlDigit(a % 4 * 16 + b / 16), UrlDigit(b % 16 * 4 + c / 64), UrlDigit(c % 64)];
    assert (group + rest)[4..] == rest;
  }

  lemma EncodeGroups(bytes: seq<byte>)
    requires |bytes| >= 3
    ensures var a, b, c := bytes[0] as int, bytes[1] as int, bytes[2] as int;
            var group := [UrlDigit(a / 4), UrlDigit(a % 4 * 16 + b / 16),
                          UrlDigit(b % 16 * 4 + c / 64), UrlDigit(c % 64)];
            Encode(bytes) == group + Encode(bytes[3..])
  {
  }

  lemma EncodeOne(bytes: seq<byte>)
    requires |bytes| == 1
    ensures Encode(bytes) == [UrlDigit(bytes[0] as int / 4), UrlDigit(bytes[0] as int % 4 * 16)]
    ensures bytes == [bytes[0]]
  {
  }

  lemma EncodeTwo(bytes: seq<byte>)
    requires |bytes| == 2
    ensures var a, b := bytes[0] as int, bytes[1] as int;
            Encode(bytes) == [UrlDigit(a / 4), UrlDigit(a % 4 * 16 + b / 16), UrlDigit(b % 16 * 4)]
    ensures bytes == [bytes[0], bytes[1]]
  {
  }

  lemma {:induction false} DecodeEncode(bytes: seq<byte>)
    ensures Decode(Encode(bytes)) == Some(bytes)
  {
    if |bytes| == 1 {
      EncodeOne(bytes);
      DecodeOne(bytes[0] as int);
    } else if |bytes| == 2 {
      EncodeTwo(bytes);
      DecodeTwo(bytes[0] as int, bytes[1] as int);
    } else if |bytes| >= 3 {
      EncodeGroups(bytes);
      DecodeEncode(bytes[3..]);
      DecodeGroup(bytes[0] as int, bytes[1] as int, bytes[2] as int, Encode(bytes[3..]));
      assert bytes == [bytes[0], bytes[1], bytes[2]] + bytes[3..];
    }
  }

  lemma EncodeInjective(x: seq<byte>, y: seq<byte>)
    requires Encode(x) == Encode(y)
    ensures x == y
  {
    DecodeEncode(x);
    DecodeEncode(y);
  }
}
