// The string operations of the JavaScript library that the parsers rest on:
// indexOf, split, join, trim and startsWith.
module Texts {
  import opened Wrappers

  predicate At(t: string, sep: string, i: int) {
    0 <= i && i + |sep| <= |t| && t[i..i + |sep|] == sep
  }

  function IndexFrom(t: string, sep: string, k: nat): (r: Option<nat>)
    ensures r.Some? ==> k <= r.value && At(t, sep, r.value) && forall j :: k <= j < r.value ==> !At(t, sep, j)
    ensures r.None? ==> forall j :: k <= j ==> !At(t, sep, j)
    decreases |t| - k
  {
    if k + |sep| > |t| then None
    else if At(t, sep, k) then Some(k)
    else if k < |t| then IndexFrom(t, sep, k + 1)
    else None
  }

  function IndexOf(t: string, sep: string): (r: Option<nat>)
    ensures r.Some? ==> At(t, sep, r.value) && forall j :: 0 <= j < r.value ==> !At(t, sep, j)
    ensures r.None? ==> forall j :: !At(t, sep, j)
  {
    IndexFrom(t, sep, 0)
  }

  lemma IndexOfIs(t: string, sep: string, i: nat)
    requires At(t, sep, i) && forall j :: 0 <= j < i ==> !At(t, sep, j)
    ensures IndexOf(t, sep) == Some(i)
  {
  }

  // The pieces between successive occurrences of sep, left to right.
  function Split(t: string, sep: string): (r: seq<string>)
    requires sep != []
    ensures |r| >= 1
    decreases |t|
  {
    var i := IndexOf(t, sep);
    if i.None? then [t] else [t[..i.value]] + Split(t[i.value + |sep|..], sep)
  }

  function Last<T>(s: seq<T>): T
    requires s != []
  {
    s[|s| - 1]
  }

  function Front<T>(s: seq<T>): seq<T>
    requires s != []
  {
    s[..|s| - 1]
  }

  lemma IndexOfGrows(a: string, b: string, sep: string)
    requires sep != [] && IndexOf(a, sep).Some?
    ensures IndexOf(a + b, sep) == IndexOf(a, sep)
  {
    var i := IndexOf(a, sep).value;
    assert (a + b)[i..i + |sep|] == a[i..i + |sep|];
    forall j | 0 <= j < i ensures !At(a + b, sep, j) {
      assert (a + b)[j..j + |sep|] == a[j..j + |sep|];
      assert !At(a, sep, j);
    }
    IndexOfIs(a + b, sep, i);
  }

  lemma SplitAt(t: string, sep: string, p: string, rest: string)
    requires sep != [] && t == p + sep + rest && IndexOf(t, sep) == Some(|p|)
    ensures Split(t, sep) == [p] + Split(rest, sep)
  {
    assert t[..|p|] == p && t[|p| + |sep|..] == rest;
  }

  // Splitting a longer text splits the shorter one and then goes on from its
  // unterminated tail.
  lemma {:induction false} SplitAppend(a: string, b: string, sep: string)
    requires sep != []
    ensures Split(a + b, sep) == Front(Split(a, sep)) + Split(Last(Split(a, sep)) + b, sep)
    decreases |a|
  {
    var i := IndexOf(a, sep);
    if i.Some? {
      var p, rest := a[..i.value], a[i.value + |sep|..];
      assert a == p + sep + rest && a + b == p + sep + (rest + b);
      IndexOfGrows(a, b, sep);
      SplitAt(a, sep, p, rest);
      SplitAt(a + b, sep, p, rest + b);
      SplitAppend(rest, b, sep);
      assert Front([p] + Split(rest, sep)) == [p] + Front(Split(rest, sep));
    } else {
      assert Split(a, sep) == [a];
      assert Front([a]) == [];
    }
  }

  lemma SplitFirst(p: string, t: string, sep: string)
    requires sep != [] && IndexOf(p + sep, sep) == Some(|p|)
    ensures Split(p + sep + t, sep) == [p] + Split(t, sep)
  {
    var whole := p + sep + t;
    IndexOfGrows(p + sep, t, sep);
    assert whole[..|p|] == p && whole[|p| + |sep|..] == t;
  }

  // For a one-character separator, any piece without it.
  lemma SplitFirstChar(p: string, t: string, c: char)
    requires c !in p
    ensures Split(p + [c] + t, [c]) == [p] + Split(t, [c])
    ensures Split(p, [c]) == [p]
  {
    forall j | 0 <= j < |p| ensures !At(p + [c], [c], j) && !At(p, [c], j) {
      assert (p + [c])[j..j + 1] == [p[j]] && p[j..j + 1] == [p[j]];
      assert p[j] in p;
    }
    assert At(p + [c], [c], |p|);
    IndexOfIs(p + [c], [c], |p|);
    SplitFirst(p, t, [c]);
  }

  lemma {:induction false} PiecesLackChar(t: string, c: char)
    ensures forall p | p in Split(t, [c]) :: c !in p
    decreases |t|
  {
    var i := IndexOf(t, [c]);
    if i.Some? {
      PiecesLackChar(t[i.value + 1..], c);
      var p := t[..i.value];
      forall k | 0 <= k < |p| ensures p[k] != c {
        assert !At(t, [c], k);
        assert t[k..k + 1] == [t[k]];
      }
    } else {
      forall k | 0 <= k < |t| ensures t[k] != c {
        assert !At(t, [c], k);
        assert t[k..k + 1] == [t[k]];
      }
    }
  }

  function Join(parts: seq<string>, sep: string): string {
    if parts == [] then ""
    else if |parts| == 1 then parts[0]
    else parts[0] + sep + Join(parts[1..], sep)
  }

  lemma {:induction false} SplitJoin(parts: seq<string>, c: char)
    requires parts != [] && forall p | p in parts :: c !in p
    ensures Split(Join(parts, [c]), [c]) == parts
  {
    if |parts| == 1 {
      SplitFirstChar(parts[0], "", c);
    } else {
      assert parts == [parts[0]] + parts[1..];
      SplitJoin(parts[1..], c);
      SplitFirstChar(parts[0], Join(parts[1..], [c]), c);
    }
  }

  lemma {:induction false} JoinSplit(t: string, c: char)
    ensures Join(Split(t, [c]), [c]) == t
    decreases |t|
  {
    var i := IndexOf(t, [c]);
    if i.Some? {
      JoinSplit(t[i.value + 1..], c);
      var rest := Split(t[i.value + 1..], [c]);
      assert ([t[..i.value]] + rest)[1..] == rest;
      assert t[i.value..i.value + 1] == [c];
      assert t == t[..i.value] + [c] + t[i.value + 1..];
    }
  }

  function Concat(parts: seq<string>): string {
    if parts == [] then "" else parts[0] + Concat(parts[1..])
  }

  lemma {:induction false} ConcatSnoc(parts: seq<string>, p: string)
    ensures Concat(parts + [p]) == Concat(parts) + p
  {
    if parts == [] {
      assert [p][1..] == [];
    } else {
      assert (parts + [p])[1..] == parts[1..] + [p];
      ConcatSnoc(parts[1..], p);
    }
  }

  // WhiteSpace and LineTerminator of ECMAScript.
  predicate IsSpace(c: char) {
    || c == ' ' || '\t' <= c <= '\r' || c == '\U{00A0}' || c == '\U{1680}'
    || '\U{2000}' <= c <= '\U{200A}' || c == '\U{2028}' || c == '\U{2029}'
    || c == '\U{202F}' || c == '\U{205F}' || c == '\U{3000}' || c == '\U{FEFF}'
  }

  // One by one: tab to carriage return, the space, the no-break spaces, the spaces of
  // typography, the two separators, the ideographic space, the byte order mark.
  lemma SpacesAre(c: char)
    ensures IsSpace(c) <==>
            c as int in {0x09, 0x0A, 0x0B, 0x0C, 0x0D, 0x20, 0xA0, 0x1680,
                         0x2000, 0x2001, 0x2002, 0x2003, 0x2004, 0x2005, 0x2006, 0x2007, 0x2008, 0x2009, 0x200A,
                         0x2028, 0x2029, 0x202F, 0x205F, 0x3000, 0xFEFF}
  {
  }

  predicate Blank(t: string) {
    forall c | c in t :: IsSpace(c)
  }

  // Non-empty, with no space at either end.
  predicate Tight(t: string) {
    t != [] && !IsSpace(t[0]) && !IsSpace(t[|t| - 1])
  }

  function TrimStart(t: string): string {
    if t != [] && IsSpace(t[0]) then TrimStart(t[1..]) else t
  }

  function TrimEnd(t: string): string {
    if t != [] && IsSpace(t[|t| - 1]) then TrimEnd(t[..|t| - 1]) else t
  }

  function Trim(t: string): string {
    TrimEnd(TrimStart(t))
  }

  lemma {:induction false} TrimStartPad(pad: string, t: string)
    requires Blank(pad)
    ensures TrimStart(pad + t) == TrimStart(t)
  {
    if pad == [] {
      assert pad + t == t;
    } else {
      assert pad[0] in pad;
      assert (pad + t)[1..] == pad[1..] + t;
      TrimStartPad(pad[1..], t);
    }
  }

  lemma {:induction false} TrimEndPad(t: string, pad: string)
    requires Blank(pad)
    ensures TrimEnd(t + pad) == TrimEnd(t)
  {
    if pad == [] {
      assert t + pad == t;
    } else {
      var n := |pad| - 1;
      assert pad[n] in pad;
      assert (t + pad)[..|t + pad| - 1] == t + pad[..n];
      TrimEndPad(t, pad[..n]);
    }
  }

  lemma TrimPadded(before: string, t: string, after: string)
    requires Blank(before) && Blank(after) && Tight(t)
    ensures Trim(before + t + after) == t
  {
    assert before + t + after == before + (t + after);
    TrimStartPad(before, t + after);
    assert TrimStart(t + after) == t + after;
    TrimEndPad(t, after);
  }

  lemma TrimTight(t: string)
    requires Tight(t)
    ensures Trim(t) == t && Trim(" " + t) == t
  {
  }

  lemma {:induction false} TrimBlank(t: string)
    ensures Trim(t) == "" <==> Blank(t)
  {
    if Blank(t) {
      TrimStartPad(t, "");
      assert t + "" == t;
    } else {
      var k :| 0 <= k < |t| && !IsSpace(t[k]);
      TrimStartKeeps(t, k);
      var u := TrimStart(t);
      TrimEndKeeps(u);
    }
  }

  lemma {:induction false} TrimStartKeeps(t: string, k: nat)
    requires k < |t| && !IsSpace(t[k])
    ensures TrimStart(t) != "" && !IsSpace(TrimStart(t)[0])
    decreases k
  {
    if IsSpace(t[0]) { TrimStartKeeps(t[1..], k - 1); }
  }

  lemma {:induction false} TrimEndKeeps(t: string)
    requires t != "" && !IsSpace(t[0])
    ensures TrimEnd(t) != ""
  {
    if IsSpace(t[|t| - 1]) { TrimEndKeeps(t[..|t| - 1]); }
  }
}
