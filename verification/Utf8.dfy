// UTF-8 text. A char is a Unicode scalar value here, so lone surrogates do not
// occur.
module Utf8 {
  import opened Wrappers
  import opened Base64Url

  function EncodeChar(c: char): seq<byte> {
    var n := c as int;
    if n < 0x80 then [n as byte]
    else if n < 0x800 then [(0xC0 + n / 64) as byte, (0x80 + n % 64) as byte]
    else if n < 0x1_0000 then [(0xE0 + n / 64 / 64) as byte, (0x80 + n / 64 % 64) as byte, (0x80 + n % 64) as byte]
    else
      [(0xF0 + n / 64 / 64 / 64) as byte, (0x80 + n / 64 / 64 % 64) as byte,
       (0x80 + n / 64 % 64) as byte, (0x80 + n % 64) as byte]
  }

  function Encode(s: string): seq<byte> {
    if s == "" then [] else EncodeChar(s[0]) + Encode(s[1..])
  }

  // The last and the first characters of each length.
  lemma TestVectors()
    ensures EncodeChar('\U{7F}') == [0x7F] && EncodeChar('\U{80}') == [0xC2, 0x80]
    ensures EncodeChar('\U{7FF}') == [0xDF, 0xBF] && EncodeChar('\U{800}') == [0xE0, 0xA0, 0x80]
    ensures EncodeChar('\U{FFFF}') == [0xEF, 0xBF, 0xBF] && EncodeChar('\U{10000}') == [0xF0, 0x90, 0x80, 0x80]
    ensures EncodeChar('\U{10FFFF}') == [0xF4, 0x8F, 0xBF, 0xBF]
  {
  }

  function Scalar(n: int): Option<char> {
    if 0 <= n < 0xD800 || 0xE000 <= n < 0x11_0000 then Some(n as char) else None
  }

  // The first character and the number of bytes it takes.
  function First(bytes: seq<byte>): Option<(char, nat)>
    requires bytes != []
  {
    var a := bytes[0] as int;
    var length := if a < 0xC0 then 1 else if a < 0xE0 then 2 else if a < 0xF0 then 3 else 4;
    if |bytes| < length then None
    else
      var n := if length == 1 then a
               else if length == 2 then (a - 0xC0) * 64 + Low(bytes[1])
               else if length == 3 then ((a - 0xE0) * 64 + Low(bytes[1])) * 64 + Low(bytes[2])
               else (((a - 0xF0) * 64 + Low(bytes[1])) * 64 + Low(bytes[2])) * 64 + Low(bytes[3]);
      if Scalar(n).Some? then Some((Scalar(n).value, length)) else None
  }

  // The six payload bits of a continuation byte.
  function Low(b: byte): int {
    b as int - 0x80
  }

  function Decode(bytes: seq<byte>): Option<string> {
    if bytes == [] then Some("")
    else
      match First(bytes)
      case None => None
      case Some((c, length)) =>
        if 0 < length <= |bytes| && Decode(bytes[length..]).Some?
        then Some([c] + Decode(bytes[length..]).value) else None
  }

  lemma FirstOfChar(c: char, rest: seq<byte>)
    ensures First(EncodeChar(c) + rest) == Some((c, |EncodeChar(c)|))
  {
  }

  lemma {:induction false} DecodeEncode(s: string)
    ensures Decode(Encode(s)) == Some(s)
  {
    if s != "" {
      FirstOfChar(s[0], Encode(s[1..]));
      DecodeEncode(s[1..]);
      var length := |EncodeChar(s[0])|;
      assert Encode(s) == EncodeChar(s[0]) + Encode(s[1..]) && Encode(s)[length..] == Encode(s[1..]);
      assert s == [s[0]] + s[1..];
    }
  }

  lemma EncodeInjective(s: string, t: string)
    requires Encode(s) == Encode(t)
    ensures s == t
  {
    DecodeEncode(s);
    DecodeEncode(t);
  }
}
