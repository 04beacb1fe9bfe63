// The account lockout of POST /login: a failure counter and a lock, for one
// account whose attempts are handled one after another.
module Lockout {
  import opened Numbers
  import opened Wrappers

  const MINUTE: int := 60_000   // milliseconds
  const HOUR: int := 60 * MINUTE
  const LOCK: int := 15 * MINUTE

  datatype Outcome = Locked(retryAfterSeconds: int) | Rejected | Accepted

  function LockDuration(failedCount: int): Option<int> {
    if failedCount >= 20 then Some(24 * HOUR)
    else if failedCount >= 10 then Some(HOUR)
    else if failedCount >= 5 then Some(LOCK)
    else None
  }

  datatype Account = Account(failed: int, lockedUntil: Option<int>)

  const CLEAR := Account(0, None)

  predicate LockedAt(a: Account, now: int) {
    a.lockedUntil.Some? && a.lockedUntil.value > now
  }

  // A lock that has run out is cleared before the password is looked at.
  function Expire(a: Account): Account {
    if a.lockedUntil.Some? then CLEAR else a
  }

  function Failed(a: Account, end: int): Account {
    var n := Expire(a).failed + 1;
    Account(n, if LockDuration(n).Some? then Some(end + LockDuration(n).value) else None)
  }

  class Reviewer {
    var failed: int
    var lockedUntil: Option<int>

    ghost function Abs(): Account
      reads this
    {
      Account(failed, lockedUntil)
    }

    constructor ()
      ensures Abs() == CLEAR
    {
      failed := 0;
      lockedUntil := None;
    }

    // One attempt, from the lockout check at `now` to the write after a wrong
    // password at `end`. On success the reset is sent off without waiting.
    method Login(now: int, valid: bool, end: int) returns (outcome: Outcome)
      modifies this
      ensures Abs() == After(old(Abs()), Try(now, valid, end))
      ensures outcome == Answer(old(Abs()), now, valid)
    {
      if lockedUntil.Some? {
        if lockedUntil.value > now {
          return Locked(CeilDiv(lockedUntil.value - now, 1000));
        }
        failed := 0;
        lockedUntil := None;
      }
      if !valid {
        var newCount := failed + 1;
        var duration := LockDuration(newCount);
        failed := newCount;
        if duration.Some? { lockedUntil := Some(end + duration.value); }
        return Rejected;
      }
      return Accepted;
    }

    // The reset of an earlier success reaches the row.
    method ResetLands(now: int)
      modifies this
      ensures Abs() == After(old(Abs()), Event.ResetLands(now))
    {
      failed := 0;
      lockedUntil := None;
    }
  }

  // ---- runs ----------------------------------------------------------------

  datatype Event = Try(at: int, valid: bool, end: int) | ResetLands(at: int)

  function End(e: Event): int {
    if e.Try? then e.end else e.at
  }

  function Answer(a: Account, now: int, valid: bool): Outcome {
    if LockedAt(a, now) then Locked(CeilDiv(a.lockedUntil.value - now, 1000))
    else if valid then Accepted
    else Rejected
  }

  function After(a: Account, e: Event): Account {
    match e
    case ResetLands(_) => CLEAR
    case Try(now, valid, end) => if LockedAt(a, now) then a else if valid then Expire(a) else Failed(a, end)
  }

  function Run(a: Account, es: seq<Event>): Account
    decreases |es|
  {
    if es == [] then a else Run(After(a, es[0]), es[1..])
  }

  // One after another, from time t.
  ghost predicate Serial(es: seq<Event>, t: int)
    decreases |es|
  {
    es == [] || (t <= es[0].at <= End(es[0]) && Serial(es[1..], End(es[0])))
  }

  // In every reachable account the lock and the full count go together, which
  // leaves the one-hour and one-day tiers without any use.
  ghost predicate Inv(a: Account) {
    0 <= a.failed <= 5 && (a.lockedUntil.Some? <==> a.failed == 5)
  }

  lemma {:induction false} ReachableInv(a: Account, es: seq<Event>)
    requires Inv(a)
    ensures Inv(Run(a, es))
    decreases |es|
  {
    if es != [] {
      ReachableInv(After(a, es[0]), es[1..]);
    }
  }

  lemma HigherTiersUnreachable(es: seq<Event>, now: int, end: int)
    ensures var a := Run(CLEAR, es);
            && a.failed <= 5
            && (!LockedAt(a, now) ==>
                  Failed(a, end).lockedUntil
                  == (if Failed(a, end).failed == 5 then Some(end + 15 * 60 * 1000) else None))
  {
    ReachableInv(CLEAR, es);
  }

  // ---- the counter is the failures since the last reset ---------------------

  datatype Entry = Failure | Cleared

  function Entries(a: Account, e: Event): seq<Entry> {
    match e
    case ResetLands(_) => [Cleared]
    case Try(now, valid, _) =>
      if LockedAt(a, now) then []
      else (if a.lockedUntil.Some? then [Cleared] else []) + (if valid then [] else [Failure])
  }

  // What happened to the counter: failing checks, and resets by a success or by
  // an expired lock.
  function Log(a: Account, es: seq<Event>): seq<Entry>
    decreases |es|
  {
    if es == [] then [] else Entries(a, es[0]) + Log(After(a, es[0]), es[1..])
  }

  // The number of failures after the last clearing.
  function Trailing(log: seq<Entry>): nat {
    if log == [] || log[|log| - 1].Cleared? then 0 else 1 + Trailing(log[..|log| - 1])
  }

  lemma StepCounts(a: Account, e: Event, past: seq<Entry>)
    requires Inv(a) && a.failed == Trailing(past)
    ensures After(a, e).failed == Trailing(past + Entries(a, e))
  {
    TrailingSnoc(past);
    TrailingSnoc(past + [Cleared]);
    assert past + [] == past && past + [Cleared, Failure] == past + [Cleared] + [Failure];
  }

  lemma {:induction false} CounterCounts(a: Account, es: seq<Event>, past: seq<Entry>)
    requires Inv(a) && a.failed == Trailing(past)
    ensures Run(a, es).failed == Trailing(past + Log(a, es))
    decreases |es|
  {
    if es == [] {
      assert past + [] == past;
    } else {
      StepCounts(a, es[0], past);
      CounterCounts(After(a, es[0]), es[1..], past + Entries(a, es[0]));
      Regroup(past, Entries(a, es[0]), Log(After(a, es[0]), es[1..]));
    }
  }

  lemma Regroup(a: seq<Entry>, b: seq<Entry>, c: seq<Entry>)
    ensures a + (b + c) == (a + b) + c
  {
  }

  lemma TrailingSnoc(log: seq<Entry>)
    ensures Trailing(log + [Failure]) == Trailing(log) + 1 && Trailing(log + [Cleared]) == 0
  {
  }

  lemma CounterIsFailuresSinceReset(es: seq<Event>)
    ensures Run(CLEAR, es).failed == Trailing(Log(CLEAR, es)) <= 5
  {
    CounterCounts(CLEAR, es, []);
    ReachableInv(CLEAR, es);
    assert [] + Log(CLEAR, es) == Log(CLEAR, es);
  }

  // ---- no password is checked while a lock is live --------------------------

  function Answers(a: Account, es: seq<Event>): seq<Outcome>
    decreases |es|
  {
    if es == [] then []
    else (if es[0].Try? then [Answer(a, es[0].at, es[0].valid)] else []) + Answers(After(a, es[0]), es[1..])
  }

  // Until the lock runs out, or a reset lands, nothing but Locked is answered:
  // the password makes no difference and the row does not change.
  lemma {:induction false} NoCheckWhileLocked(a: Account, es: seq<Event>)
    requires a.lockedUntil.Some?
    requires forall e | e in es :: e.Try? && e.at < a.lockedUntil.value
    ensures Run(a, es) == a && forall o | o in Answers(a, es) :: o.Locked?
    decreases |es|
  {
    if es != [] {
      assert es[0] in es;
      NoCheckWhileLocked(a, es[1..]);
    }
  }

  // Retry-After is the least whole number of seconds after which the password
  // is looked at again.
  lemma RetryAfterIsLeast(a: Account, now: int, valid: bool, seconds: nat)
    requires LockedAt(a, now)
    ensures Answer(a, now + 1000 * seconds, valid).Locked? <==> seconds < Answer(a, now, valid).retryAfterSeconds
  {
  }

  // ---- how many wrong passwords fit into an interval ------------------------

  function FailingChecks(a: Account, es: seq<Event>, from: int, to: int): nat
    decreases |es|
  {
    if es == [] then 0
    else
      (if es[0].Try? && from <= es[0].at <= to && Answer(a, es[0].at, es[0].valid).Rejected? then 1 else 0)
      + FailingChecks(After(a, es[0]), es[1..], from, to)
  }

  function Resets(es: seq<Event>, from: int, to: int): nat {
    if es == [] then 0
    else (if es[0].ResetLands? && from <= es[0].at <= to then 1 else 0) + Resets(es[1..], from, to)
  }

  // An upper bound of the failing checks still to come between t and `to`.
  function Budget(a: Account, t: int, to: int): int {
    if t > to then 0
    else if a.lockedUntil.None? then 5 - a.failed + 5 * ((to - t) / LOCK)
    else if a.lockedUntil.value > to then 0
    else 5 * ((to - (if a.lockedUntil.value > t then a.lockedUntil.value else t)) / LOCK + 1)
  }

  // A lock reaches at most 15 minutes past time t.
  ghost predicate Recent(a: Account, t: int) {
    a.lockedUntil.Some? ==> a.lockedUntil.value <= t + LOCK
  }

  lemma BudgetFalls(a: Account, t: int, u: int, to: int)
    requires Inv(a) && t <= u
    ensures 0 <= Budget(a, u, to) <= Budget(a, t, to)
  {
  }

  // A failing check is paid for by the budget.
  lemma FailureCost(a: Account, t: int, end: int, to: int)
    requires Inv(a) && Recent(a, t) && !LockedAt(a, t) && t <= end && t <= to
    ensures Budget(Failed(a, end), t, to) + 1 <= Budget(a, t, to)
  {
  }

  lemma StepCost(a: Account, e: Event, to: int)
    requires Inv(a) && Recent(a, e.at) && e.at <= End(e) && e.at <= to
    ensures Budget(After(a, e), End(e), to)
              + (if e.Try? && Answer(a, e.at, e.valid).Rejected? then 1 else 0)
         <= Budget(a, e.at, to) + (if e.ResetLands? then 5 else 0)
  {
    BudgetFalls(After(a, e), e.at, End(e), to);
    if e.Try? && !LockedAt(a, e.at) && !e.valid { FailureCost(a, e.at, e.end, to); }
  }

  lemma {:induction false} WithinBudget(a: Account, es: seq<Event>, t: int, from: int, to: int)
    requires Inv(a) && Recent(a, t) && Serial(es, t) && from <= t
    ensures FailingChecks(a, es, from, to) <= Budget(a, t, to) + 5 * Resets(es, from, to)
    decreases |es|
  {
    BudgetFalls(a, t, t, to);
    if es != [] {
      var e := es[0];
      WithinBudget(After(a, e), es[1..], End(e), from, to);
      BudgetFalls(a, t, e.at, to);
      if e.at <= to { StepCost(a, e, to); }
    }
  }

  lemma {:induction false} FromAnyPoint(a: Account, es: seq<Event>, t: int, from: int, to: int)
    requires Inv(a) && Recent(a, t) && Serial(es, t) && from <= to
    ensures FailingChecks(a, es, from, to) <= 5 * ((to - from) / LOCK + 1 + Resets(es, from, to))
    decreases |es|
  {
    if es != [] {
      if es[0].at < from {
        FromAnyPoint(After(a, es[0]), es[1..], End(es[0]), from, to);
      } else {
        WithinBudget(a, es, es[0].at, from, to);
        BudgetFalls(a, from, es[0].at, to);
      }
    }
  }

  // Over every serial run from a zero counter, the failing checks of the closed
  // interval [from, to] are at most five for every quarter of an hour begun and
  // five for every reset that lands in it.
  lemma FailingChecksBounded(es: seq<Event>, start: int, from: int, to: int)
    requires Serial(es, start) && from <= to
    ensures FailingChecks(CLEAR, es, from, to) <= 5 * ((to - from) / LOCK + 1 + Resets(es, from, to))
  {
    FromAnyPoint(CLEAR, es, start, from, to);
  }

  lemma OneMoreFailure(a: Account, t: int, later: seq<Event>, from: int, to: int)
    requires !LockedAt(a, t) && from <= t <= to
    ensures FailingChecks(a, [Try(t, false, t)] + later, from, to) == 1 + FailingChecks(Failed(a, t), later, from, to)
    ensures Serial([Try(t, false, t)] + later, t) <==> Serial(later, t)
  {
    assert ([Try(t, false, t)] + later)[1..] == later;
  }

  function FiveFailures(t: int, later: seq<Event>): seq<Event> {
    var e := Try(t, false, t);
    [e] + ([e] + ([e] + ([e] + ([e] + later))))
  }

  // A client who fails five times as soon as each lock has run out reaches the
  // bound in every interval of whole quarters of an hour.
  function Persistent(t: int, rounds: nat): seq<Event>
    decreases rounds
  {
    if rounds == 0 then [] else FiveFailures(t, Persistent(t + LOCK, rounds - 1))
  }

  lemma OneRound(a: Account, t: int, later: seq<Event>, from: int, to: int)
    requires Inv(a) && (a == CLEAR || a.lockedUntil == Some(t)) && from <= t <= to
    ensures FailingChecks(a, FiveFailures(t, later), from, to)
         == 5 + FailingChecks(Account(5, Some(t + LOCK)), later, from, to)
    ensures Serial(FiveFailures(t, later), t) <==> Serial(later, t)
  {
    var e := Try(t, false, t);
    OneMoreFailure(a, t, [e] + ([e] + ([e] + ([e] + later))), from, to);
    OneMoreFailure(Account(1, None), t, [e] + ([e] + ([e] + later)), from, to);
    OneMoreFailure(Account(2, None), t, [e] + ([e] + later), from, to);
    OneMoreFailure(Account(3, None), t, [e] + later, from, to);
    OneMoreFailure(Account(4, None), t, later, from, to);
  }

  lemma {:induction false} BoundIsAttained(a: Account, t: int, rounds: nat, from: int, to: int)
    requires Inv(a) && (a == CLEAR || a.lockedUntil == Some(t)) && from <= t && to >= t + LOCK * (rounds - 1)
    ensures Serial(Persistent(t, rounds), t) && FailingChecks(a, Persistent(t, rounds), from, to) == 5 * rounds
    decreases rounds
  {
    if rounds > 0 {
      var later := Persistent(t + LOCK, rounds - 1);
      BoundIsAttained(Account(5, Some(t + LOCK)), t + LOCK, rounds - 1, from, to);
      SerialFrom(later, t, t + LOCK);
      OneRound(a, t, later, from, to);
    }
  }

  lemma SerialFrom(es: seq<Event>, t: int, u: int)
    requires Serial(es, u) && t <= u
    ensures Serial(es, t)
  {
  }
}
