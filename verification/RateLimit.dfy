// The fixed-window request limiter of an API key and the janitor that sweeps
// stale windows.
module RateLimit {
  import opened Numbers
  import opened Wrappers

  type Key = string
  const HOUR: int := 3_600_000   // milliseconds

  datatype Window = Window(count: int, resetAt: int)

  datatype Verdict = Pass | Limited(retryAfterSeconds: int)

  // The window a request at `now` is counted in.
  function Current(w: Option<Window>, now: int): Window {
    if w.None? || w.value.resetAt < now then Window(0, now + HOUR) else w.value
  }

  function Counted(w: Option<Window>, now: int): Window {
    Current(w, now).(count := Current(w, now).count + 1)
  }

  function Judge(w: Option<Window>, limit: int, now: int): Verdict {
    var c := Counted(w, now);
    if c.count > limit then Limited(CeilDiv(c.resetAt - now, 1000)) else Pass
  }

  function Get(windows: map<Key, Window>, key: Key): Option<Window> {
    if key in windows then Some(windows[key]) else None
  }

  predicate Limits(key: Option<Key>, limit: Option<int>) {
    key.Some? && key.value != "" && limit.Some? && limit.value != 0
  }

  class Limiter {
    var windows: map<Key, Window>

    constructor ()
      ensures windows == map[]
    {
      windows := map[];
    }

    // rateLimitByKey: a missing limit, a limit of 0 and a missing or empty key
    // all pass uncounted.
    method Request(key: Option<Key>, limit: Option<int>, now: int) returns (verdict: Verdict)
      modifies this
      ensures key in {None, Some("")} || limit in {None, Some(0)} ==> verdict == Pass && windows == old(windows)
      ensures key !in {None, Some("")} && limit !in {None, Some(0)} ==>
                && verdict == Judge(Get(old(windows), key.value), limit.value, now)
                && windows == Next(old(windows), Hit(key.value, limit.value, now))
    {
      if limit.None? || limit.value == 0 || key.None? || key.value == "" { return Pass; }
      var window;
      if key.value !in windows || windows[key.value].resetAt < now {
        window := Window(0, now + HOUR);
        windows := windows[key.value := window];
      } else {
        window := windows[key.value];
      }
      window := window.(count := window.count + 1);
      windows := windows[key.value := window];
      if window.count > limit.value {
        return Limited(CeilDiv(window.resetAt - now, 1000));
      }
      return Pass;
    }

    // The five-minute sweep.
    method Sweep(now: int)
      modifies this
      ensures windows == Next(old(windows), Event.Sweep(now))
      ensures forall k :: k in windows <==> k in old(windows) && now <= old(windows)[k].resetAt
      ensures forall k | k in windows :: windows[k] == old(windows)[k]
    {
      var keys := windows.Keys;
      while keys != {}
        invariant keys <= old(windows).Keys
        invariant forall k :: k in windows <==> k in old(windows) && (k in keys || !(old(windows)[k].resetAt < now))
        invariant forall k :: k in windows ==> windows[k] == old(windows)[k]
        decreases keys
      {
        var k :| k in keys;
        if windows[k].resetAt < now { windows := map j | j in windows && j != k :: windows[j]; }
        keys := keys - {k};
      }
    }
  }

  function Swept(windows: map<Key, Window>, now: int): map<Key, Window> {
    map k | k in windows && !(windows[k].resetAt < now) :: windows[k]
  }

  // ---- runs ----------------------------------------------------------------

  datatype Event = Hit(key: Key, limit: int, at: int) | Sweep(at: int)

  ghost predicate Ordered(es: seq<Event>) {
    forall i, j :: 0 <= i < j < |es| ==> es[i].at <= es[j].at
  }

  function Next(windows: map<Key, Window>, e: Event): map<Key, Window> {
    match e
    case Hit(k, limit, at) =>
      if Limits(Some(k), Some(limit)) then windows[k := Counted(Get(windows, k), at)] else windows
    case Sweep(at) => Swept(windows, at)
  }

  function Verdicts(windows: map<Key, Window>, es: seq<Event>): seq<Verdict>
    decreases |es|
  {
    if es == [] then []
    else
      (match es[0]
       case Hit(k, limit, at) => [if Limits(Some(k), Some(limit)) then Judge(Get(windows, k), limit, at) else Pass]
       case Sweep(_) => [])
      + Verdicts(Next(windows, es[0]), es[1..])
  }

  function WithoutSweeps(es: seq<Event>): seq<Event> {
    if es == [] then []
    else (if es[0].Sweep? then [] else [es[0]]) + WithoutSweeps(es[1..])
  }

  lemma AfterFirst(es: seq<Event>)
    requires Ordered(es) && es != []
    ensures es[0] in es && Ordered(es[1..]) && forall f | f in es[1..] :: f in es && es[0].at <= f.at
  {
  }

  // The two tables differ at most by windows that are stale from `now` on.
  ghost predicate SameLive(swept: map<Key, Window>, kept: map<Key, Window>, now: int) {
    && (forall k | k in swept :: k in kept && kept[k] == swept[k])
    && (forall k | k in kept :: k in swept || kept[k].resetAt < now)
  }

  lemma {:induction false} SweepsAgree(swept: map<Key, Window>, kept: map<Key, Window>, es: seq<Event>, now: int)
    requires Ordered(es) && SameLive(swept, kept, now) && forall e | e in es :: now <= e.at
    ensures Verdicts(swept, es) == Verdicts(kept, WithoutSweeps(es))
    decreases |es|
  {
    if es != [] {
      var e, rest := es[0], es[1..];
      AfterFirst(es);
      if e.Hit? {
        assert Counted(Get(swept, e.key), e.at) == Counted(Get(kept, e.key), e.at);
        SweepsAgree(Next(swept, e), Next(kept, e), rest, e.at);
        assert ([e] + WithoutSweeps(rest))[1..] == WithoutSweeps(rest);
      } else {
        SweepsAgree(Next(swept, e), kept, rest, e.at);
        assert [] + WithoutSweeps(rest) == WithoutSweeps(rest);
      }
    }
  }

  // The janitor never changes a decision: over any run with a non-decreasing
  // clock the verdicts are those of a limiter that never deletes.
  lemma JanitorChangesNothing(es: seq<Event>)
    requires Ordered(es)
    ensures Verdicts(map[], es) == Verdicts(map[], WithoutSweeps(es))
  {
    if es != [] {
      forall e | e in es ensures es[0].at <= e.at {
        var i :| 0 <= i < |es| && es[i] == e;
      }
      SweepsAgree(map[], map[], es, es[0].at);
    }
  }

  // ---- one key -------------------------------------------------------------

  // A passed request and the opening instant of its window.
  datatype Passed = Passed(at: int, start: int)

  // The request of key at `at`, when its window w lets it pass.
  function Granted(w: Option<Window>, at: int, limit: int): seq<Passed> {
    if Judge(w, limit, at).Pass? then [Passed(at, Counted(w, at).resetAt - HOUR)] else []
  }

  function GrantedBy(windows: map<Key, Window>, e: Event, key: Key): seq<Passed> {
    if e.Hit? && e.key == key && Limits(Some(key), Some(e.limit)) then Granted(Get(windows, key), e.at, e.limit) else []
  }

  // The passed requests of key among all events of the run.
  function PassedOf(windows: map<Key, Window>, es: seq<Event>, key: Key): seq<Passed>
    decreases |es|
  {
    if es == [] then [] else GrantedBy(windows, es[0], key) + PassedOf(Next(windows, es[0]), es[1..], key)
  }

  // The hits of the key, served by its own window alone.
  function Serve(w: Option<Window>, times: seq<int>, limit: int): seq<Passed>
    decreases |times|
  {
    if times == [] then [] else Granted(w, times[0], limit) + Serve(Some(Counted(w, times[0])), times[1..], limit)
  }

  function TimesOf(es: seq<Event>, key: Key): seq<int> {
    if es == [] then []
    else (if es[0].Hit? && es[0].key == key then [es[0].at] else []) + TimesOf(es[1..], key)
  }

  ghost predicate SameWindow(a: Option<Window>, b: Option<Window>, now: int) {
    a == b || ((a.None? || a.value.resetAt < now) && (b.None? || b.value.resetAt < now))
  }

  lemma ElsewhereSame(windows: map<Key, Window>, e: Event, key: Key)
    requires !(e.Hit? && e.key == key)
    ensures var after := Get(Next(windows, e), key);
            after == Get(windows, key) || (after.None? && windows[key].resetAt < e.at)
  {
  }

  // A hit of the key counts in any window that is as good.
  lemma KeyHit(windows: map<Key, Window>, w: Option<Window>, e: Event, key: Key)
    requires e.Hit? && e.key == key && Limits(Some(key), Some(e.limit)) && SameWindow(Get(windows, key), w, e.at)
    ensures GrantedBy(windows, e, key) == Granted(w, e.at, e.limit)
    ensures Get(Next(windows, e), key) == Some(Counted(w, e.at))
  {
  }

  lemma ServeCons(w: Option<Window>, at: int, later: seq<int>, limit: int)
    ensures Serve(w, [at] + later, limit) == Granted(w, at, limit) + Serve(Some(Counted(w, at)), later, limit)
  {
    assert ([at] + later)[1..] == later;
  }

  // Other keys and sweeps in between make no difference to a key.
  lemma {:induction false} KeysAreIndependent(windows: map<Key, Window>, w: Option<Window>, es: seq<Event>,
                                              key: Key, limit: int, now: int)
    requires key != "" && limit != 0 && Ordered(es) && forall e | e in es :: now <= e.at
    requires forall e | e in es :: e.Hit? && e.key == key ==> e.limit == limit
    requires SameWindow(Get(windows, key), w, now)
    ensures PassedOf(windows, es, key) == Serve(w, TimesOf(es, key), limit)
    decreases |es|
  {
    if es != [] {
      var e, rest := es[0], es[1..];
      AfterFirst(es);
      if e.Hit? && e.key == key {
        KeyHit(windows, w, e, key);
        KeysAreIndependent(Next(windows, e), Some(Counted(w, e.at)), rest, key, limit, e.at);
        ServeCons(w, e.at, TimesOf(rest, key), limit);
      } else {
        ElsewhereSame(windows, e, key);
        KeysAreIndependent(Next(windows, e), w, rest, key, limit, e.at);
        assert [] + TimesOf(rest, key) == TimesOf(rest, key);
      }
    }
  }

  function CountStart(ps: seq<Passed>, start: int): nat {
    if ps == [] then 0 else (if ps[0].start == start then 1 else 0) + CountStart(ps[1..], start)
  }

  // How many passed in the closed interval [from, from + HOUR].
  function CountHour(ps: seq<Passed>, from: int): nat {
    if ps == [] then 0 else (if from <= ps[0].at <= from + HOUR then 1 else 0) + CountHour(ps[1..], from)
  }

  // Windows are more than an hour apart and hold the requests counted in them.
  ghost predicate Shaped(ps: seq<Passed>) {
    && (forall p | p in ps :: p.start <= p.at <= p.start + HOUR)
    && (forall i, j :: 0 <= i < j < |ps| ==>
          ps[i].at <= ps[j].at && (ps[i].start == ps[j].start || ps[i].start + HOUR < ps[j].start))
  }

  ghost predicate OrderedTimes(times: seq<int>) {
    forall i, j :: 0 <= i < j < |times| ==> times[i] <= times[j]
  }

  // What a window w known before the hits contributes.
  function Left(w: Option<Window>, start: int, limit: int): nat {
    if w.Some? && w.value.resetAt - HOUR == start && w.value.count >= 0
    then if limit > w.value.count then limit - w.value.count else 0
    else if limit > 0 then limit else 0
  }

  // The window before the hits is not from the future and counts no less than 0.
  ghost predicate Before(w: Option<Window>, times: seq<int>) {
    w.Some? ==> w.value.count >= 0 && (times != [] ==> w.value.resetAt - HOUR <= times[0])
  }

  lemma {:induction false} ServeWindows(w: Option<Window>, times: seq<int>, limit: int, p: Passed)
    requires OrderedTimes(times) && Before(w, times) && p in Serve(w, times, limit)
    ensures times[0] <= p.at && p.start <= p.at <= p.start + HOUR
    ensures w.Some? ==> p.start == w.value.resetAt - HOUR || w.value.resetAt < p.start
    decreases |times|
  {
    var t, rest := times[0], times[1..];
    var c := Counted(w, t);
    var first := Passed(t, c.resetAt - HOUR);
    if p != first {
      assert p in Serve(Some(c), rest, limit);
      assert rest != [] ==> times[1] == rest[0];
      ServeWindows(Some(c), rest, limit, p);
    }
  }

  lemma ShapedCons(p: Passed, later: seq<Passed>)
    requires Shaped(later) && p.start <= p.at <= p.start + HOUR
    requires forall q | q in later :: p.at <= q.at && (q.start == p.start || p.start + HOUR < q.start)
    ensures Shaped([p] + later)
  {
  }

  // Whatever passes after the first hit is in its window or in a later one.
  lemma LaterWindows(w: Option<Window>, times: seq<int>, limit: int)
    requires OrderedTimes(times) && Before(w, times) && times != []
    ensures var c := Counted(w, times[0]);
            && OrderedTimes(times[1..]) && Before(Some(c), times[1..])
            && c.resetAt - HOUR <= times[0] <= c.resetAt
            && forall p | p in Serve(Some(c), times[1..], limit) ::
                 times[0] <= p.at && (p.start == c.resetAt - HOUR || c.resetAt < p.start)
  {
    var c, rest := Counted(w, times[0]), times[1..];
    assert rest != [] ==> times[1] == rest[0];
    forall p | p in Serve(Some(c), rest, limit)
      ensures times[0] <= p.at && (p.start == c.resetAt - HOUR || c.resetAt < p.start)
    {
      ServeWindows(Some(c), rest, limit, p);
    }
  }

  lemma {:induction false} ServeShaped(w: Option<Window>, times: seq<int>, limit: int)
    requires OrderedTimes(times) && Before(w, times)
    ensures Shaped(Serve(w, times, limit))
    decreases |times|
  {
    if times != [] {
      var t, rest := times[0], times[1..];
      var c := Counted(w, t);
      LaterWindows(w, times, limit);
      ServeShaped(Some(c), rest, limit);
      var later := Serve(Some(c), rest, limit);
      if Judge(w, limit, t).Pass? {
        ShapedCons(Passed(t, c.resetAt - HOUR), later);
        assert Serve(w, times, limit) == [Passed(t, c.resetAt - HOUR)] + later;
      } else {
        assert Serve(w, times, limit) == later;
      }
    }
  }

  lemma {:induction false} ServeCounts(w: Option<Window>, times: seq<int>, limit: int, start: int)
    requires limit > 0 && OrderedTimes(times) && Before(w, times)
    ensures CountStart(Serve(w, times, limit), start) <= Left(w, start, limit)
    decreases |times|
  {
    if times != [] {
      var t, rest := times[0], times[1..];
      var c := Counted(w, t);
      assert rest != [] ==> times[1] == rest[0];
      ServeCounts(Some(c), rest, limit, start);
      var later := Serve(Some(c), rest, limit);
      if Judge(w, limit, t).Pass? {
        assert ([Passed(t, c.resetAt - HOUR)] + later)[1..] == later;
      } else {
        assert [] + later == later;
      }
      if w.Some? && Current(w, t) != w.value && start == w.value.resetAt - HOUR {
        NoneOf(Some(c), rest, limit, start);
      }
    }
  }

  // A window that has been replaced counts nothing further.
  lemma NoneOf(w: Option<Window>, times: seq<int>, limit: int, start: int)
    requires OrderedTimes(times) && Before(w, times)
    requires w.Some? && start < w.value.resetAt - HOUR
    ensures CountStart(Serve(w, times, limit), start) == 0
  {
    var ps := Serve(w, times, limit);
    forall p | p in ps ensures p.start != start {
      ServeWindows(w, times, limit, p);
    }
    NoStart(ps, start);
  }

  lemma {:induction false} NoStart(ps: seq<Passed>, start: int)
    requires forall p | p in ps :: p.start != start
    ensures CountStart(ps, start) == 0
  {
    if ps != [] {
      NoStart(ps[1..], start);
    }
  }

  // The request that opens a window is itself passed.
  lemma {:induction false} ServeOpens(w: Option<Window>, times: seq<int>, limit: int, p: Passed)
    requires limit > 0 && p in Serve(w, times, limit)
    ensures (w.Some? && p.start == w.value.resetAt - HOUR) || Passed(p.start, p.start) in Serve(w, times, limit)
    decreases |times|
  {
    var t, rest := times[0], times[1..];
    var c := Counted(w, t);
    if p != Passed(t, c.resetAt - HOUR) {
      assert p in Serve(Some(c), rest, limit);
      ServeOpens(Some(c), rest, limit, p);
    }
  }

  // Of the requests in the hour, those of window a (less one when an opening
  // request of a lies outside) and those of window b.
  lemma {:induction false} HourWithinTwoWindows(ps: seq<Passed>, from: int, a: int, b: int)
    requires forall p | p in ps :: from <= p.at <= from + HOUR ==> p.start == a || p.start == b
    ensures CountHour(ps, from) + (if Passed(a, a) in ps && a < from && a != b then 1 else 0)
         <= CountStart(ps, a) + (if a == b then 0 else CountStart(ps, b))
  {
    if ps != [] {
      assert ps[0] in ps;
      assert forall p | p in ps[1..] :: p in ps;
      HourWithinTwoWindows(ps[1..], from, a, b);
    }
  }

  lemma FirstInHour(ps: seq<Passed>, from: int) returns (i: nat)
    requires CountHour(ps, from) > 0
    ensures i < |ps| && from <= ps[i].at <= from + HOUR
    ensures forall j :: 0 <= j < i ==> !(from <= ps[j].at <= from + HOUR)
  {
    if from <= ps[0].at <= from + HOUR {
      i := 0;
    } else {
      i := FirstInHour(ps[1..], from);
      assert ps[1..][i] == ps[i + 1];
      forall j | 0 <= j < i + 1 ensures !(from <= ps[j].at <= from + HOUR) {
        if j > 0 { assert ps[1..][j - 1] == ps[j]; }
      }
      i := i + 1;
    }
  }

  // Passed requests of one hour come from at most two windows, the first of
  // which opened before the hour when there are two.
  lemma TwoWindows(ps: seq<Passed>, from: int, i: nat) returns (b: int)
    requires Shaped(ps) && i < |ps| && from <= ps[i].at <= from + HOUR
    requires forall j :: 0 <= j < i ==> !(from <= ps[j].at <= from + HOUR)
    ensures b == ps[i].start || ps[i].start < from
    ensures forall k :: 0 <= k < |ps| && from <= ps[k].at <= from + HOUR ==>
              ps[k].start == ps[i].start || ps[k].start == b
  {
    var a := ps[i].start;
    b := a;
    if j: nat :| j < |ps| && from <= ps[j].at <= from + HOUR && ps[j].start != a {
      b := ps[j].start;
      assert ps[j] in ps && i < j;
      forall k | 0 <= k < |ps| && from <= ps[k].at <= from + HOUR
        ensures ps[k].start == a || ps[k].start == b
      {
        var start := ps[k].start;
        assert ps[k] in ps && i <= k;
        assert start == a || a + HOUR < start;
        assert start == b || start + HOUR < b || b + HOUR < start;
      }
    }
  }

  lemma HourBound(ps: seq<Passed>, from: int, limit: nat)
    requires limit > 0 && Shaped(ps)
    requires forall start :: CountStart(ps, start) <= limit
    requires forall p | p in ps :: Passed(p.start, p.start) in ps
    ensures CountHour(ps, from) <= 2 * limit - 1
  {
    if CountHour(ps, from) > 0 {
      var i := FirstInHour(ps, from);
      var a := ps[i].start;
      var b := TwoWindows(ps, from, i);
      forall p | p in ps && from <= p.at <= from + HOUR ensures p.start == a || p.start == b {
        var k :| 0 <= k < |ps| && ps[k] == p;
      }
      assert ps[i] in ps && Passed(a, a) in ps;
      HourWithinTwoWindows(ps, from, a, b);
      assert CountStart(ps, a) <= limit && CountStart(ps, b) <= limit;
    }
  }

  // A negative limit lets nothing through.
  lemma {:induction false} NothingUnderNegativeLimit(w: Option<Window>, times: seq<int>, limit: int)
    requires limit < 0 && (w.Some? ==> w.value.count >= 0)
    ensures Serve(w, times, limit) == []
    decreases |times|
  {
    if times != [] {
      NothingUnderNegativeLimit(Some(Counted(w, times[0])), times[1..], limit);
    }
  }

  // Every closed hour of every run from an empty limiter holds at most
  // 2 * limit - 1 passed requests of a key with a positive limit, and none at
  // all with a negative one.
  lemma AtMostTwiceTheLimitPerHour(es: seq<Event>, key: Key, limit: int, from: int)
    requires Ordered(es) && key != "" && limit != 0
    requires forall e | e in es :: e.Hit? && e.key == key ==> e.limit == limit
    ensures CountHour(PassedOf(map[], es, key), from) <= if limit > 0 then 2 * limit - 1 else 0
  {
    if es != [] {
      forall e | e in es ensures es[0].at <= e.at {
        var i :| 0 <= i < |es| && es[i] == e;
      }
      KeysAreIndependent(map[], None, es, key, limit, es[0].at);
      TimesOrdered(es, key);
      var times := TimesOf(es, key);
      if limit > 0 {
        var ps := Serve(None, times, limit);
        ServeShaped(None, times, limit);
        forall start ensures CountStart(ps, start) <= limit {
          ServeCounts(None, times, limit, start);
        }
        forall p | p in ps ensures Passed(p.start, p.start) in ps {
          ServeOpens(None, times, limit, p);
        }
        HourBound(ps, from, limit);
      } else {
        NothingUnderNegativeLimit(None, times, limit);
      }
    }
  }

  lemma {:induction false} TimesOrdered(es: seq<Event>, key: Key)
    requires Ordered(es)
    ensures OrderedTimes(TimesOf(es, key))
    ensures es != [] ==> forall t | t in TimesOf(es, key) :: es[0].at <= t
  {
    if es != [] {
      var rest := es[1..];
      TimesOrdered(rest, key);
      var later := TimesOf(rest, key);
      forall t | t in later ensures es[0].at <= t {
        if rest != [] { assert rest[0] == es[1]; }
      }
      var times := (if es[0].Hit? && es[0].key == key then [es[0].at] else []) + later;
      if es[0].Hit? && es[0].key == key {
        forall i, j | 0 <= i < j < |times| ensures times[i] <= times[j] {
          assert times[j] == later[j - 1] && times[j] in later;
          assert i > 0 ==> times[i] == later[i - 1];
        }
      } else {
        assert times == later;
      }
    }
  }

  // One request at each of these times.
  function Hits(key: Key, limit: int, times: seq<int>): seq<Event> {
    seq(|times|, i requires 0 <= i < |times| => Hit(key, limit, times[i]))
  }

  lemma {:induction false} TimesOfHits(key: Key, limit: int, times: seq<int>)
    ensures TimesOf(Hits(key, limit, times), key) == times
    decreases |times|
  {
    if times != [] {
      assert Hits(key, limit, times)[1..] == Hits(key, limit, times[1..]);
      TimesOfHits(key, limit, times[1..]);
      assert [times[0]] + times[1..] == times;
    }
  }

  function Repeat(at: int, n: nat): seq<int> {
    if n == 0 then [] else [at] + Repeat(at, n - 1)
  }

  lemma {:induction false} RepeatIs(at: int, n: nat)
    ensures |Repeat(at, n)| == n && forall t | t in Repeat(at, n) :: t == at
  {
    if n > 0 {
      RepeatIs(at, n - 1);
    }
  }

  lemma RepeatCons(at: int, n: nat, later: seq<int>)
    ensures Repeat(at, 0) + later == later
    ensures n > 0 ==> Repeat(at, n) + later == [at] + (Repeat(at, n - 1) + later)
  {
  }

  // The passed requests of the hour, counted as they come.
  function InHour(w: Option<Window>, times: seq<int>, limit: int, from: int): nat
    decreases |times|
  {
    if times == [] then 0
    else
      (if Judge(w, limit, times[0]).Pass? && from <= times[0] <= from + HOUR then 1 else 0)
      + InHour(Some(Counted(w, times[0])), times[1..], limit, from)
  }

  lemma {:induction false} InHourIs(w: Option<Window>, times: seq<int>, limit: int, from: int)
    ensures InHour(w, times, limit, from) == CountHour(Serve(w, times, limit), from)
    decreases |times|
  {
    if times != [] {
      var ps := Serve(Some(Counted(w, times[0])), times[1..], limit);
      InHourIs(Some(Counted(w, times[0])), times[1..], limit, from);
      if Judge(w, limit, times[0]).Pass? {
        var p := Passed(times[0], Counted(w, times[0]).resetAt - HOUR);
        assert Serve(w, times, limit) == [p] + ps && ([p] + ps)[1..] == ps;
      } else {
        assert Serve(w, times, limit) == [] + ps == ps;
      }
    }
  }

  // A request that passes, before others.
  lemma OneMore(w: Option<Window>, at: int, later: seq<int>, limit: int, from: int)
    requires Judge(w, limit, at).Pass?
    ensures InHour(w, [at] + later, limit, from)
         == (if from <= at <= from + HOUR then 1 else 0) + InHour(Some(Counted(w, at)), later, limit, from)
  {
    assert ([at] + later)[1..] == later;
  }

  // n requests that fit into the open window all pass, in the hour looked at.
  lemma {:induction false} TheyFit(count: int, reset: int, at: int, n: nat, later: seq<int>, limit: int, from: int)
    requires at <= reset && count + n <= limit && from <= at <= from + HOUR
    ensures InHour(Some(Window(count, reset)), Repeat(at, n) + later, limit, from)
         == n + InHour(Some(Window(count + n, reset)), later, limit, from)
    decreases n
  {
    RepeatCons(at, n, later);
    if n > 0 {
      OneMore(Some(Window(count, reset)), at, Repeat(at, n - 1) + later, limit, from);
      TheyFit(count + 1, reset, at, n - 1, later, limit, from);
    }
  }

  // One request opens a window, the others it allows come at its last instant,
  // and as many as the limit a moment later.
  function Rush(limit: nat): seq<int>
    requires limit > 0
  {
    [0] + (Repeat(HOUR, limit - 1) + ([HOUR + 1] + (Repeat(HOUR + 1, limit - 1) + [])))
  }

  lemma RushOrdered(key: Key, limit: nat)
    requires limit > 0
    ensures Ordered(Hits(key, limit, Rush(limit)))
    ensures forall e | e in Hits(key, limit, Rush(limit)) :: 0 <= e.at
  {
    RepeatIs(HOUR, limit - 1);
    RepeatIs(HOUR + 1, limit - 1);
    var a, b, times := Repeat(HOUR, limit - 1), Repeat(HOUR + 1, limit - 1), Rush(limit);
    forall i | 0 <= i < |times|
      ensures times[i] == if i == 0 then 0 else if i < limit then HOUR else HOUR + 1
    {
      if 0 < i < limit { assert times[i] == a[i - 1] && a[i - 1] in a; }
      if i > limit { assert times[i] == b[i - limit - 1] && b[i - limit - 1] in b; }
    }
  }

  // The bound is attained for every positive limit.
  lemma BoundIsAttained(key: Key, limit: nat)
    requires key != "" && limit > 0
    ensures var es := Hits(key, limit, Rush(limit));
            Ordered(es) && CountHour(PassedOf(map[], es, key), HOUR) == 2 * limit - 1
  {
    RushOrdered(key, limit);
    KeysAreIndependent(map[], None, Hits(key, limit, Rush(limit)), key, limit, 0);
    TimesOfHits(key, limit, Rush(limit));
    InHourIs(None, Rush(limit), limit, HOUR);
    RushPasses(limit);
  }

  lemma RushPasses(limit: nat)
    requires limit > 0
    ensures InHour(None, Rush(limit), limit, HOUR) == 2 * limit - 1
  {
    var last := Repeat(HOUR + 1, limit - 1) + [];
    OneMore(None, 0, Repeat(HOUR, limit - 1) + ([HOUR + 1] + last), limit, HOUR);
    TheyFit(1, HOUR, HOUR, limit - 1, [HOUR + 1] + last, limit, HOUR);
    OneMore(Some(Window(limit, HOUR)), HOUR + 1, last, limit, HOUR);
    TheyFit(1, 2 * HOUR + 1, HOUR + 1, limit - 1, [], limit, HOUR);
  }

  lemma VerdictsCons(windows: map<Key, Window>, key: Key, limit: int, times: seq<int>)
    requires key != "" && limit != 0 && times != []
    ensures Verdicts(windows, Hits(key, limit, times))
         == [Judge(Get(windows, key), limit, times[0])]
            + Verdicts(windows[key := Counted(Get(windows, key), times[0])], Hits(key, limit, times[1..]))
  {
    assert Hits(key, limit, times)[1..] == Hits(key, limit, times[1..]);
  }

  // In an open window requests are let through up to the limit, whenever they come.
  lemma {:induction false} InOpenWindow(windows: map<Key, Window>, key: Key, limit: int, times: seq<int>, i: nat)
    requires key != "" && limit != 0 && key in windows && i < |times|
    requires forall t | t in times :: t <= windows[key].resetAt
    ensures var verdicts, w := Verdicts(windows, Hits(key, limit, times)), windows[key];
            && |verdicts| == |times|
            && verdicts[i] == if w.count + i < limit then Pass else Limited(CeilDiv(w.resetAt - times[i], 1000))
    decreases |times|
  {
    var w := windows[key];
    var later := windows[key := Window(w.count + 1, w.resetAt)];
    assert times[0] in times && forall t | t in times[1..] :: t in times;
    VerdictsCons(windows, key, limit, times);
    if |times| > 1 {
      InOpenWindow(later, key, limit, times[1..], if i > 0 then i - 1 else 0);
    } else {
      assert Hits(key, limit, times[1..]) == [] && Verdicts(later, []) == [];
    }
  }

  // A new limiter, or a key whose hour is over: of the requests in the 3,600,000
  // milliseconds from the first one on, that instant included, the first `limit`
  // pass, and each of the others is told the least number of whole seconds to the
  // end of that hour.
  lemma HourFromTheFirst(windows: map<Key, Window>, key: Key, limit: int, times: seq<int>, i: nat)
    requires key != "" && limit != 0 && i < |times| && (key in windows ==> windows[key].resetAt < times[0])
    requires forall t | t in times :: times[0] <= t <= times[0] + 3_600_000
    ensures var verdicts := Verdicts(windows, Hits(key, limit, times));
            && |verdicts| == |times|
            && (verdicts[i] == Pass <==> i < limit)
            && (verdicts[i] != Pass ==>
                  var left, wait := times[0] + 3_600_000 - times[i], verdicts[i].retryAfterSeconds;
                  1000 * (wait - 1) < left <= 1000 * wait)
  {
    var one := windows[key := Window(1, times[0] + 3_600_000)];
    VerdictsCons(windows, key, limit, times);
    assert forall t | t in times[1..] :: t in times;
    if |times| > 1 {
      InOpenWindow(one, key, limit, times[1..], if i > 0 then i - 1 else 0);
    } else {
      assert Hits(key, limit, times[1..]) == [] && Verdicts(one, []) == [];
    }
  }

  // Requests without a key or under no limit pass and leave nothing behind.
  lemma Uncounted(windows: map<Key, Window>, e: Event, later: seq<Event>)
    requires e.Hit? && (e.key == "" || e.limit == 0)
    ensures Next(windows, e) == windows && Verdicts(windows, [e] + later) == [Pass] + Verdicts(windows, later)
  {
    assert ([e] + later)[1..] == later;
  }

  // A client that waits exactly the advertised Retry-After gets a new window
  // exactly when the remaining time was not a whole number of seconds.
  lemma RetryAfterSufficesExactlyWhen(w: Option<Window>, limit: int, now: int)
    requires limit > 0 && Judge(w, limit, now).Limited?
    ensures var wait := Judge(w, limit, now).retryAfterSeconds;
            (Judge(Some(Counted(w, now)), limit, now + wait * 1000).Pass? <==>
             (Counted(w, now).resetAt - now) % 1000 != 0)
  {
  }

  // Limit 1: the second request is told to wait one second, waits one second and
  // is told to wait none.
  lemma RetryAfterFallsShort(key: Key)
    requires key != ""
    ensures Verdicts(map[], [Hit(key, 1, 0), Hit(key, 1, HOUR - 1000), Hit(key, 1, HOUR)])
         == [Pass, Limited(1), Limited(0)]
  {
    var a, b, c := Hit(key, 1, 0), Hit(key, 1, HOUR - 1000), Hit(key, 1, HOUR);
    var one, two := map[key := Window(1, HOUR)], map[key := Window(2, HOUR)];
    assert Next(map[], a) == one && Next(one, b) == two;
    VerdictsOf(two, c, []);
    VerdictsOf(one, b, [c]);
    VerdictsOf(map[], a, [b, c]);
    assert [c] + [] == [c] && [b] + [c] == [b, c] && [a] + [b, c] == [a, b, c];
  }

  lemma VerdictsOf(windows: map<Key, Window>, e: Event, later: seq<Event>)
    requires e.Hit? && Limits(Some(e.key), Some(e.limit))
    ensures Verdicts(windows, [e] + later)
         == [Judge(Get(windows, e.key), e.limit, e.at)] + Verdicts(Next(windows, e), later)
  {
    assert ([e] + later)[1..] == later;
  }
}
