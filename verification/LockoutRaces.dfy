// The login lockout when attempts of one account overlap: each reads the row,
// perhaps clears an expired lock, checks the password, and only then writes the
// count it read plus one.
module LockoutRaces {
  import opened Lockout
  import opened Wrappers

  // An attempt that has read the row: it found a lock that has run out, or is
  // checking the password with this count in hand.
  datatype Attempt = Expiring | Checking(count: int)

  datatype State = State(row: Account, flight: map<nat, Attempt>)

  datatype Step =
    | Read(k: nat, now: int)
    | Clear(k: nat)
    | Finish(k: nat, valid: bool, end: int)
    | Reset

  const START := State(CLEAR, map[])

  // A wrong password's write: locked_until stays as it is where there is no lock
  // to set.
  function Write(row: Account, count: int, end: int): Account {
    var n := count + 1;
    Account(n, if LockDuration(n).Some? then Some(end + LockDuration(n).value) else row.lockedUntil)
  }

  function Apply(s: State, e: Step): State {
    match e
    case Read(k, now) =>
      if k in s.flight || LockedAt(s.row, now) then s
      else s.(flight := s.flight[k := if s.row.lockedUntil.Some? then Expiring else Checking(s.row.failed)])
    case Clear(k) =>
      if k in s.flight && s.flight[k].Expiring? then State(CLEAR, s.flight[k := Checking(0)]) else s
    case Finish(k, valid, end) =>
      if !(k in s.flight && s.flight[k].Checking?) then s
      else if valid then s.(flight := s.flight - {k})
      else State(Write(s.row, s.flight[k].count, end), s.flight - {k})
    case Reset => s.(row := CLEAR)
  }

  function RunSteps(s: State, es: seq<Step>): State
    decreases |es|
  {
    if es == [] then s else RunSteps(Apply(s, es[0]), es[1..])
  }

  // ---- attempts one after another ------------------------------------------

  // The steps of one attempt on a row.
  function StepsOf(row: Account, k: nat, now: int, valid: bool, end: int): seq<Step> {
    if LockedAt(row, now) then [Read(k, now)]
    else if row.lockedUntil.Some? then [Read(k, now), Clear(k), Finish(k, valid, end)]
    else [Read(k, now), Finish(k, valid, end)]
  }

  // Undisturbed, an attempt does to the row what one step of the serial account
  // does.
  lemma UndisturbedIsSerial(s: State, k: nat, now: int, valid: bool, end: int)
    requires k !in s.flight
    ensures RunSteps(s, StepsOf(s.row, k, now, valid, end)) == State(After(s.row, Try(now, valid, end)), s.flight)
  {
    var es := StepsOf(s.row, k, now, valid, end);
    var s1 := Apply(s, es[0]);
    assert s.flight[k := Expiring][k := Checking(0)] - {k} == s.flight;
    assert s.flight[k := Checking(s.row.failed)] - {k} == s.flight;
    if LockedAt(s.row, now) {
      assert es[1..] == [];
    } else if s.row.lockedUntil.Some? {
      assert es[1..] == [Clear(k), Finish(k, valid, end)] && es[1..][1..] == [Finish(k, valid, end)];
      var s2 := Apply(s1, Clear(k));
      assert RunSteps(s2, [Finish(k, valid, end)]) == Apply(s2, Finish(k, valid, end));
    } else {
      assert es[1..] == [Finish(k, valid, end)];
      assert RunSteps(s1, es[1..]) == Apply(s1, Finish(k, valid, end));
    }
  }

  // ---- what every interleaving keeps ---------------------------------------

  ghost predicate RaceInv(s: State) {
    && 0 <= s.row.failed <= 5 && (s.row.failed == 5 ==> s.row.lockedUntil.Some?)
    && forall k | k in s.flight && s.flight[k].Checking? :: 0 <= s.flight[k].count <= 4
  }

  lemma {:induction false} RunRaceInv(s: State, es: seq<Step>)
    requires RaceInv(s)
    ensures RaceInv(RunSteps(s, es))
    decreases |es|
  {
    if es != [] {
      RunRaceInv(Apply(s, es[0]), es[1..]);
    }
  }

  // However attempts overlap, the count never passes five, so that every lock
  // set lasts 15 minutes: the higher tiers are out of reach of any interleaving.
  lemma NoInterleavingReachesHigherTiers(es: seq<Step>, k: nat, end: int)
    requires var s := RunSteps(START, es); k in s.flight && s.flight[k].Checking?
    ensures var s := RunSteps(START, es);
            && s.row.failed <= 5
            && Write(s.row, s.flight[k].count, end).lockedUntil
               == (if s.flight[k].count == 4 then Some(end + LOCK) else s.row.lockedUntil)
  {
    RunRaceInv(START, es);
  }

  // ---- when the counter counts ---------------------------------------------

  // What the step does to the failures counted so far.
  function EntriesOf(s: State, e: Step): seq<Entry> {
    match e
    case Clear(k) => if k in s.flight && s.flight[k].Expiring? then [Cleared] else []
    case Finish(k, valid, _) => if k in s.flight && s.flight[k].Checking? && !valid then [Failure] else []
    case Reset => [Cleared]
    case Read(_, _) => []
  }

  // A wrong password's write finds the count it has read.
  predicate Stale(s: State, e: Step) {
    e.Finish? && !e.valid && e.k in s.flight && s.flight[e.k].Checking? && s.flight[e.k].count != s.row.failed
  }

  predicate NoneStale(s: State, es: seq<Step>)
    decreases |es|
  {
    es == [] || (!Stale(s, es[0]) && NoneStale(Apply(s, es[0]), es[1..]))
  }

  // At every point the counter is the number of failures since the last clearing.
  predicate AlwaysCounts(s: State, log: seq<Entry>, es: seq<Step>)
    decreases |es|
  {
    s.row.failed == Trailing(log) && (es == [] || AlwaysCounts(Apply(s, es[0]), log + EntriesOf(s, es[0]), es[1..]))
  }

  lemma CountStep(s: State, log: seq<Entry>, e: Step)
    requires s.row.failed == Trailing(log)
    ensures Apply(s, e).row.failed == Trailing(log + EntriesOf(s, e)) <==> !Stale(s, e)
  {
    assert log + [] == log;
    TrailingSnoc(log);
  }

  lemma {:induction false} CountsFrom(s: State, log: seq<Entry>, es: seq<Step>)
    requires s.row.failed == Trailing(log)
    ensures AlwaysCounts(s, log, es) <==> NoneStale(s, es)
    decreases |es|
  {
    if es != [] {
      CountStep(s, log, es[0]);
      if !Stale(s, es[0]) { CountsFrom(Apply(s, es[0]), log + EntriesOf(s, es[0]), es[1..]); }
    }
  }

  // Over every interleaving: the counter is the failures since the last clearing
  // all along exactly when each wrong password's write finds the count its
  // attempt has read.
  lemma CountsExactlyWhen(es: seq<Step>)
    ensures AlwaysCounts(START, [], es) <==> NoneStale(START, es)
  {
    CountsFrom(START, [], es);
  }

  // ---- and when it does not ------------------------------------------------

  function LogOf(s: State, es: seq<Step>): seq<Entry>
    decreases |es|
  {
    if es == [] then [] else EntriesOf(s, es[0]) + LogOf(Apply(s, es[0]), es[1..])
  }

  lemma {:induction false} Split(s: State, es: seq<Step>, fs: seq<Step>)
    ensures RunSteps(s, es + fs) == RunSteps(RunSteps(s, es), fs)
    ensures LogOf(s, es + fs) == LogOf(s, es) + LogOf(RunSteps(s, es), fs)
    ensures NoneStale(s, es + fs) <==> NoneStale(s, es) && NoneStale(RunSteps(s, es), fs)
    decreases |es|
  {
    if es == [] {
      assert es + fs == fs;
    } else {
      assert (es + fs)[1..] == es[1..] + fs;
      Split(Apply(s, es[0]), es[1..], fs);
    }
  }

  lemma Snoc(s: State, es: seq<Step>, e: Step)
    ensures var t := RunSteps(s, es);
            && RunSteps(s, es + [e]) == Apply(t, e)
            && LogOf(s, es + [e]) == LogOf(s, es) + EntriesOf(t, e)
            && (NoneStale(s, es + [e]) <==> NoneStale(s, es) && !Stale(t, e))
  {
    var t := RunSteps(s, es);
    Split(s, es, [e]);
    assert [e][1..] == [];
    assert RunSteps(t, [e]) == RunSteps(Apply(t, e), []);
    assert LogOf(t, [e]) == EntriesOf(t, e) + LogOf(Apply(t, e), []);
    assert NoneStale(Apply(t, e), []);
  }

  function Reads(n: nat): seq<Step> {
    if n == 0 then [] else Reads(n - 1) + [Read(n - 1, 0)]
  }

  function Failures(n: nat, end: int): seq<Step> {
    if n == 0 then [] else Failures(n - 1, end) + [Finish(n - 1, false, end)]
  }

  lemma {:induction false} AllRead(n: nat)
    ensures var s := RunSteps(START, Reads(n));
            && s.row == CLEAR && LogOf(START, Reads(n)) == [] && NoneStale(START, Reads(n))
            && (forall k: nat :: k in s.flight <==> k < n) && forall k | k in s.flight :: s.flight[k] == Checking(0)
  {
    if n > 0 {
      AllRead(n - 1);
      Snoc(START, Reads(n - 1), Read(n - 1, 0));
    }
  }

  lemma OneFails(s: State, k: nat, end: int)
    requires k in s.flight && s.flight[k] == Checking(0) && s.row.lockedUntil.None?
    ensures Apply(s, Finish(k, false, end)) == State(Account(1, None), s.flight - {k})
    ensures EntriesOf(s, Finish(k, false, end)) == [Failure]
    ensures Stale(s, Finish(k, false, end)) <==> s.row.failed != 0
  {
  }

  // The first n attempts are checking with a count of 0.
  ghost predicate AllChecking(s: State, n: nat) {
    forall k: nat | k < n :: k in s.flight && s.flight[k] == Checking(0)
  }

  lemma {:induction false} AllFail(s: State, n: nat, end: int)
    requires s.row == CLEAR && AllChecking(s, n)
    ensures var t := RunSteps(s, Failures(n, end));
            && t.row == Account(if n == 0 then 0 else 1, None)
            && forall k: nat | k >= n && k in s.flight :: k in t.flight && t.flight[k] == s.flight[k]
  {
    if n > 0 {
      AllFail(s, n - 1, end);
      OneFails(RunSteps(s, Failures(n - 1, end)), n - 1, end);
      Snoc(s, Failures(n - 1, end), Finish(n - 1, false, end));
    }
  }

  lemma {:induction false} AllLogged(s: State, n: nat, end: int)
    requires s.row == CLEAR && AllChecking(s, n)
    ensures Trailing(LogOf(s, Failures(n, end))) == n
    ensures NoneStale(s, Failures(n, end)) <==> n < 2
  {
    if n > 0 {
      AllLogged(s, n - 1, end);
      AllFail(s, n - 1, end);
      OneFails(RunSteps(s, Failures(n - 1, end)), n - 1, end);
      Snoc(s, Failures(n - 1, end), Finish(n - 1, false, end));
      TrailingSnoc(LogOf(s, Failures(n - 1, end)));
    }
  }

  // Any number of wrong passwords that overlap count as one, and set no lock.
  lemma OverlappingFailuresCountOnce(n: nat, end: int)
    requires n > 0
    ensures var es := Reads(n) + Failures(n, end);
            && Trailing(LogOf(START, es)) == n
            && RunSteps(START, es).row == Account(1, None)
            && (NoneStale(START, es) <==> n == 1)
  {
    AllRead(n);
    var s := RunSteps(START, Reads(n));
    Split(START, Reads(n), Failures(n, end));
    AllFail(s, n, end);
    AllLogged(s, n, end);
    assert [] + LogOf(s, Failures(n, end)) == LogOf(s, Failures(n, end));
  }
}
