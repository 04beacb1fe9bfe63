// Resource ids: a prefix naming the type and 18 random bytes as base64url.
module Ids {
  import opened Wrappers
  import opened Base64Url

  datatype ResourceType =
    | Review | Template | Project | ApiKey | Webhook | Event | User | Version | Delivery | Token
    | Invite | Note | Organization | OrgMember | ChainRun | ChainStep | Pin | Session | ChainSubscriber
    | StationEvent | UsageEvent | UserRole | Tombstone | Passkey | MeterQueue | Notification
    | Suppression | EmailSend | ProductFeedback

  const RANDOM_BYTES: nat := 18

  // The part of the prefix between "gw_" and the last underscore.
  function Word(t: ResourceType): string {
    match t
    case Review => "rev"
    case Template => "tpl"
    case Project => "prj"
    case ApiKey => "key"
    case Webhook => "wh"
    case Event => "evt"
    case User => "usr"
    case Version => "ver"
    case Delivery => "del"
    case Token => "tok"
    case Invite => "inv"
    case Note => "nt"
    case Organization => "org"
    case OrgMember => "omem"
    case ChainRun => "chain"
    case ChainStep => "step"
    case Pin => "pin"
    case Session => "sess"
    case ChainSubscriber => "csub"
    case StationEvent => "swevt"
    case UsageEvent => "uevt"
    case UserRole => "urol"
    case Tombstone => "tomb"
    case Passkey => "pkey"
    case MeterQueue => "meterq"
    case Notification => "notif"
    case Suppression => "supp"
    case EmailSend => "esnd"
    case ProductFeedback => "pfb"
  }

  function Prefix(t: ResourceType): string {
    "gw_" + Word(t) + "_"
  }

  // ID_PREFIXES turned around, in the order of the table.
  const TYPES: seq<ResourceType> := [
    Review, Template, Project, ApiKey, Webhook, Event, User, Version, Delivery, Token,
    Invite, Note, Organization, OrgMember, ChainRun, ChainStep, Pin, Session, ChainSubscriber,
    StationEvent, UsageEvent, UserRole, Tombstone, Passkey, MeterQueue, Notification,
    Suppression, EmailSend, ProductFeedback]

  datatype Parsed = Parsed(resource: ResourceType, prefix: string, random: string)

  function Take(s: string, n: nat): string {
    if |s| <= n then s else s[..n]
  }

  // btoa, two replacements, "=" removed, cut at 24 characters.
  function Text(bytes: seq<byte>): string {
    Take(Remove(UrlSafe(Btoa(bytes)), '='), 24)
  }

  // The text is the start of the encoding. For 18 bytes there is no padding to
  // remove and nothing to cut off: it is the whole encoding, 24 characters of
  // the alphabet.
  lemma TextIsEncoding(bytes: seq<byte>)
    ensures Text(bytes) == Take(Encode(bytes), 24)
    ensures |bytes| == RANDOM_BYTES ==> Text(bytes) == Encode(bytes) == UrlSafe(Btoa(bytes)) && |Text(bytes)| == 24
    ensures forall c | c in Text(bytes) :: InAlphabet(c)
  {
    PipelineEncodes(bytes);
    NothingDropped(bytes);
    TakeElements(Encode(bytes), 24);
  }

  lemma TakeElements(s: string, n: nat)
    ensures forall c | c in Take(s, n) :: c in s
  {
  }

  lemma NothingDropped(bytes: seq<byte>)
    ensures forall c | c in Encode(bytes) :: InAlphabet(c)
    ensures |bytes| == RANDOM_BYTES ==> |Encode(bytes)| == 24 && UrlSafe(Btoa(bytes)) == Encode(bytes)
  {
    EncodeAlphabet(bytes);
    UrlSafeBtoa(bytes);
    assert |bytes| == RANDOM_BYTES ==> Padding(bytes) == "";
    assert Encode(bytes) + "" == Encode(bytes);
  }

  // Bytes to a binary string, one by one, and that to text: 18 bytes come out as
  // 24 characters that give the bytes back.
  method ToBase64Url(bytes: seq<byte>) returns (text: string)
    ensures text == Take(Encode(bytes), 24)
    ensures |bytes| == RANDOM_BYTES ==> text == Encode(bytes) && |text| == 24 && Decode(text) == Some(bytes)
  {
    var binary: seq<byte> := [];
    for i := 0 to |bytes|
      invariant binary == bytes[..i]
    {
      binary := binary + [bytes[i]];
    }
    assert binary == bytes;
    text := Take(Remove(UrlSafe(Btoa(binary)), '='), 24);
    TextIsEncoding(bytes);
    DecodeEncode(bytes);
  }

  // No two types share a word, and no word holds an underscore.
  lemma WordsDiffer(t: ResourceType, u: ResourceType)
    ensures Word(t) == Word(u) ==> t == u
  {
  }

  lemma NoUnderscore(t: ResourceType)
    ensures '_' !in Word(t)
  {
  }

  // A word without underscores ends at the first underscore.
  lemma NotLonger(v: string, w: string, x: string)
    requires '_' !in v && v + "_" <= x && w + "_" <= x
    ensures |v| <= |w|
  {
    assert x[|w|] == (w + "_")[|w|] == '_';
    assert forall i | 0 <= i < |v| :: x[i] == (v + "_")[i] == v[i] && v[i] in v;
  }

  // No prefix starts another, so at most one starts an id.
  lemma PrefixFree(t: ResourceType, u: ResourceType, id: string)
    requires Prefix(t) <= id && Prefix(u) <= id
    ensures t == u
  {
    WordsDiffer(t, u);
    NoUnderscore(t);
    NoUnderscore(u);
    var v, w, x := Word(t), Word(u), id[3..];
    assert Prefix(t)[3..] == v + "_" && Prefix(u)[3..] == w + "_";
    assert v + "_" <= x && w + "_" <= x;
    NotLonger(v, w, x);
    NotLonger(w, v, x);
    assert v == x[..|v|] && w == x[..|w|];
  }

  lemma AllTypesListed(t: ResourceType)
    ensures t in TYPES
  {
  }

  // What parseId answers: the one type whose prefix starts the id, provided
  // something follows it.
  ghost predicate Parses(id: string, p: Option<Parsed>) {
    match p
    case Some(Parsed(t, prefix, random)) => prefix == Prefix(t) && random != "" && id == prefix + random
    case None => forall t :: Prefix(t) <= id ==> Prefix(t) == id
  }

  lemma ParsesUnique(id: string, p: Option<Parsed>, q: Option<Parsed>)
    requires Parses(id, p) && Parses(id, q)
    ensures p == q
  {
    assert p.Some? ==> Prefix(p.value.resource) < id && id[|p.value.prefix|..] == p.value.random;
    assert q.Some? ==> Prefix(q.value.resource) < id && id[|q.value.prefix|..] == q.value.random;
    if p.Some? && q.Some? {
      PrefixFree(p.value.resource, q.value.resource, id);
    }
  }

  // The loop of parseId over a table of prefixes.
  method FindPrefix(id: string, types: seq<ResourceType>) returns (parsed: Option<Parsed>)
    ensures parsed.Some? ==> Parses(id, parsed)
    ensures parsed.None? ==> forall t | t in types :: Prefix(t) <= id ==> Prefix(t) == id
  {
    for i := 0 to |types|
      invariant forall j | 0 <= j < i :: Prefix(types[j]) <= id ==> Prefix(types[j]) == id
    {
      var prefix := Prefix(types[i]);
      if prefix <= id {
        var random := id[|prefix|..];
        if |random| > 0 {
          return Some(Parsed(types[i], prefix, random));
        }
      }
    }
    parsed := None;
  }

  // The order of the table makes no difference to what is found.
  method ParseId(id: string) returns (parsed: Option<Parsed>)
    ensures Parses(id, parsed)
  {
    if id == "" { return None; }
    parsed := FindPrefix(id, TYPES);
    forall t ensures t in TYPES {
      AllTypesListed(t);
    }
  }

  method IsValidId(id: string, expected: ResourceType) returns (valid: bool)
    ensures valid <==> Prefix(expected) < id
  {
    var parsed := ParseId(id);
    valid := parsed.Some? && parsed.value.resource == expected;
    if parsed.Some? && Prefix(expected) <= id {
      PrefixFree(expected, parsed.value.resource, id);
    }
  }

  // The table itself: the word of each type, and the prefix around it.
  lemma PrefixIs(t: ResourceType, word: string)
    requires (t == Review && word == "rev") || (t == Template && word == "tpl") ||
             (t == Project && word == "prj") || (t == ApiKey && word == "key") || (t == Webhook && word == "wh") ||
             (t == Event && word == "evt") || (t == User && word == "usr") || (t == Version && word == "ver") ||
             (t == Delivery && word == "del") || (t == Token && word == "tok") || (t == Invite && word == "inv") ||
             (t == Note && word == "nt") || (t == Organization && word == "org") ||
             (t == OrgMember && word == "omem") || (t == ChainRun && word == "chain") ||
             (t == ChainStep && word == "step") || (t == Pin && word == "pin") ||
             (t == Session && word == "sess") || (t == ChainSubscriber && word == "csub") ||
             (t == StationEvent && word == "swevt") || (t == UsageEvent && word == "uevt") ||
             (t == UserRole && word == "urol") || (t == Tombstone && word == "tomb") ||
             (t == Passkey && word == "pkey") || (t == MeterQueue && word == "meterq") ||
             (t == Notification && word == "notif") || (t == Suppression && word == "supp") ||
             (t == EmailSend && word == "esnd") || (t == ProductFeedback && word == "pfb")
    ensures Prefix(t) == "gw_" + word + "_"
  {
  }

  // A generated id is one that parseId takes apart into the type, its prefix and
  // the encoded bytes.
  method GenerateId(t: ResourceType, random: seq<byte>) returns (id: string)
    requires |random| == RANDOM_BYTES
    ensures Parses(id, Some(Parsed(t, Prefix(t), Encode(random)))) && |id| == |Prefix(t)| + 24
  {
    var text := ToBase64Url(random);
    id := Prefix(t) + text;
  }

  // Parsing undoes generating: exactly the type and the random part come back.
  lemma GeneratedParses(t: ResourceType, random: seq<byte>, parsed: Option<Parsed>)
    requires |random| == RANDOM_BYTES && Parses(Prefix(t) + Text(random), parsed)
    ensures parsed == Some(Parsed(t, Prefix(t), Encode(random)))
    ensures Decode(parsed.value.random) == Some(random)
  {
    TextIsEncoding(random);
    DecodeEncode(random);
    ParsesUnique(Prefix(t) + Text(random), parsed, Some(Parsed(t, Prefix(t), Encode(random))));
  }

  // Two ids are equal only for equal types and equal bytes.
  lemma IdsDiffer(t: ResourceType, x: seq<byte>, u: ResourceType, y: seq<byte>)
    requires |x| == |y| == RANDOM_BYTES
    requires Prefix(t) + Text(x) == Prefix(u) + Text(y)
    ensures t == u && x == y
  {
    var id := Prefix(t) + Text(x);
    assert Prefix(t) <= id && Prefix(u) <= id;
    PrefixFree(t, u, id);
    assert id[|Prefix(t)|..] == Text(x) == Text(y);
    TextIsEncoding(x);
    TextIsEncoding(y);
    EncodeInjective(x, y);
  }
}
