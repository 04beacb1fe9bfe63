// evaluateEmailPause as it is written: one query, then a loop over its rows with
// an awaited read and two awaited writes each. Whatever the rest of the system
// does at each await, it is a run of Breaker; left alone it pauses exactly the
// tenants in breach.
module BreakerEvaluator {
  import opened Wrappers
  import opened Breaker

  // The n-th step of run k comes after others[n]: first the query, then a call
  // that succeeds or fails with oks[n].
  function StepEvent(k: nat, order: seq<Org>, n: nat, ok: bool): Event {
    if n == 0 then Query(k, order) else Advance(k, ok)
  }

  function Woven(k: nat, order: seq<Org>, others: seq<seq<Event>>, oks: seq<bool>, n: nat): seq<Event>
    requires n <= |others| == |oks|
  {
    if n == 0 then []
    else Woven(k, order, others, oks, n - 1) + (others[n - 1] + [StepEvent(k, order, n - 1, oks[n - 1])])
  }

  lemma {:induction false} RunSplit(s: State, es: seq<Event>, fs: seq<Event>)
    ensures Run(s, es + fs) == Run(Run(s, es), fs)
    decreases |es|
  {
    if es == [] {
      assert es + fs == fs;
    } else {
      assert (es + fs)[1..] == es[1..] + fs;
      RunSplit(Apply(s, es[0]), es[1..], fs);
    }
  }

  lemma RunSnoc(s: State, es: seq<Event>, e: Event)
    ensures Run(s, es + [e]) == Apply(Run(s, es), e)
  {
    RunSplit(s, es, [e]);
    assert [e][1..] == [];
    assert Run(Apply(Run(s, es), e), []) == Apply(Run(s, es), e);
  }

  lemma WovenStep(s: State, k: nat, order: seq<Org>, others: seq<seq<Event>>, oks: seq<bool>, n: nat)
    requires 0 < n < |others| == |oks|
    ensures Run(s, Woven(k, order, others, oks, n + 1))
         == Run(Run(s, Woven(k, order, others, oks, n)), others[n] + [Advance(k, oks[n])])
  {
    RunSplit(s, Woven(k, order, others, oks, n), others[n] + [Advance(k, oks[n])]);
  }

  predicate ActsFor(e: Event, k: nat) {
    (e.Query? || e.Advance?) && e.k == k
  }

  ghost predicate NotFor(k: nat, es: seq<Event>) {
    forall e | e in es :: !ActsFor(e, k)
  }

  lemma {:induction false} OthersLeaveEval(s: State, es: seq<Event>, k: nat)
    requires NotFor(k, es)
    ensures k in Run(s, es).evals <==> k in s.evals
    ensures k in s.evals ==> Run(s, es).evals[k] == s.evals[k]
    decreases |es|
  {
    if es != [] {
      assert es[0] in es;
      OthersLeaveEval(Apply(s, es[0]), es[1..], k);
    }
  }

  class Server {
    var now: int
    var sends: seq<Send>
    var tenants: map<Org, Tenant>
    var evals: map<nat, Eval>
    var log: seq<Entry>

    ghost function Abs(): State
      reads this
    {
      State(now, sends, tenants, evals, log)
    }

    constructor (s: State)
      ensures Abs() == s
    {
      now, sends, tenants, evals, log := s.now, s.sends, s.tenants, s.evals, s.log;
    }

    // Whatever else runs while the evaluator awaits.
    method Await(others: seq<Event>)
      modifies this
      ensures Abs() == Run(old(Abs()), others)
    {
      var i := 0;
      while i < |others|
        invariant 0 <= i <= |others|
        invariant Run(Abs(), others[i..]) == Run(old(Abs()), others)
      {
        assert others[i..][0] == others[i] && others[i..][1..] == others[i + 1..];
        var s := Apply(State(now, sends, tenants, evals, log), others[i]);
        now, sends, tenants, evals, log := s.now, s.sends, s.tenants, s.evals, s.log;
        i := i + 1;
      }
    }

    method Select(k: nat, order: seq<Org>) returns (rows: seq<Row>)
      requires k !in evals
      modifies this`evals, this`log
      ensures Abs() == Apply(old(Abs()), Query(k, order)) && rows == RowsOf(old(Abs()), order)
    {
      rows := RowsOf(State(now, sends, tenants, evals, log), order);
      evals := evals[k := Eval(|log|, rows, Looking)];
      log := log + [Queried(now)];
    }

    method IsTenantPaused(org: Org) returns (paused: bool)
      ensures paused <==> org in tenants && tenants[org].paused
    {
      paused := org in tenants && tenants[org].paused;
    }

    // audit.log: the row's position, or a throw.
    method LogAudit(row: Row, metric: Metric, query: nat, ok: bool) returns (position: Option<nat>)
      modifies this`log
      ensures ok ==> position == Some(|old(log)|) && log == old(log) + [Audited(row, metric, query)]
      ensures !ok ==> position == None && log == old(log)
    {
      if !ok { return None; }
      position := Some(|log|);
      log := log + [Audited(row, metric, query)];
    }

    method PauseTenant(org: Org, audit: nat)
      modifies this`tenants, this`log
      ensures Abs() == Pause(old(Abs()), org, audit)
    {
      if org in tenants {
        tenants := tenants[org := tenants[org].(paused := true)];
        log := log + [Paused(org, audit)];
      }
    }

    // Where run k now stands.
    method Note(k: nat, e: Eval)
      modifies this`evals
      ensures Abs() == SetEval(old(Abs()), k, e)
    {
      evals := evals[k := e];
    }

    // The sample and rate tests and the isTenantPaused read of one row.
    method Look(k: nat, row: Row, others: seq<Event>, ok: bool) returns (breach: Option<Metric>)
      requires k in evals && evals[k].pc.Looking? && evals[k].rows != [] && evals[k].rows[0] == row
      requires NotFor(k, others)
      modifies this
      ensures Abs() == Run(old(Abs()), others + [Advance(k, ok)]) && k in evals
      ensures breach.Some? ==> breach == Breach(row)
      ensures evals[k] == if !ok then old(evals[k]).(pc := Stopped)
                          else if breach.Some? then old(evals[k]).(pc := Auditing)
                          else old(evals[k]).(rows := old(evals[k]).rows[1..])
    {
      OthersLeaveEval(Abs(), others, k);
      RunSnoc(Abs(), others, Advance(k, ok));
      Await(others);
      var e := evals[k];
      if !ok {
        Note(k, e.(pc := Stopped));
        return None;
      }
      breach := Breach(row);
      var paused := IsTenantPaused(row.org);
      if breach.Some? && !paused && row.org in tenants {
        Note(k, e.(pc := Auditing));
      } else {
        Note(k, e.(rows := e.rows[1..]));
        breach := None;
      }
    }

    method Audit(k: nat, row: Row, metric: Metric, others: seq<Event>, ok: bool) returns (audit: Option<nat>)
      requires k in evals && evals[k].pc.Auditing? && evals[k].rows != [] && evals[k].rows[0] == row
      requires Breach(row) == Some(metric) && NotFor(k, others)
      modifies this
      ensures Abs() == Run(old(Abs()), others + [Advance(k, ok)]) && k in evals
      ensures audit.Some? <==> ok
      ensures evals[k] == old(evals[k]).(pc := if ok then Pausing(audit.value) else Stopped)
    {
      OthersLeaveEval(Abs(), others, k);
      RunSnoc(Abs(), others, Advance(k, ok));
      Await(others);
      var e := evals[k];
      audit := LogAudit(row, metric, e.query, ok);
      Note(k, e.(pc := if audit.Some? then Pausing(audit.value) else Stopped));
    }

    method PauseStep(k: nat, row: Row, audit: nat, others: seq<Event>, ok: bool)
      requires k in evals && evals[k].pc == Pausing(audit) && evals[k].rows != [] && evals[k].rows[0] == row
      requires NotFor(k, others)
      modifies this
      ensures Abs() == Run(old(Abs()), others + [Advance(k, ok)]) && k in evals
      ensures evals[k] == if ok then old(evals[k]).(rows := old(evals[k]).rows[1..], pc := Looking)
                          else old(evals[k]).(pc := Stopped)
    {
      OthersLeaveEval(Abs(), others, k);
      RunSnoc(Abs(), others, Advance(k, ok));
      Await(others);
      var e := evals[k];
      if ok {
        PauseTenant(row.org, audit);
        Note(k, e.(rows := e.rows[1..], pc := Looking));
      } else {
        Note(k, e.(pc := Stopped));
      }
    }

    // The query, from no row to all of them.
    method Begin(k: nat, order: seq<Org>, others: seq<Event>) returns (rows: seq<Row>)
      requires k !in evals && NotFor(k, others)
      modifies this
      ensures Abs() == Run(old(Abs()), others + [Query(k, order)]) && |rows| <= |order|
      ensures k in evals && evals[k].pc.Looking? && evals[k].rows == rows
    {
      OthersLeaveEval(Abs(), others, k);
      RunSnoc(Abs(), others, Query(k, order));
      RowsBound(Run(Abs(), others), order);
      Await(others);
      rows := Select(k, order);
    }

    // The body of the loop, from step n on. s is the state the job began in.
    method Consider(k: nat, row: Row, order: seq<Org>, others: seq<seq<Event>>, oks: seq<bool>, n: nat, ghost s: State)
      returns (steps: nat, thrown: bool)
      requires k in evals && evals[k].pc.Looking? && evals[k].rows != [] && evals[k].rows[0] == row
      requires 0 < n && n + 3 <= |others| == |oks| && forall i | 0 <= i < |others| :: NotFor(k, others[i])
      requires Abs() == Run(s, Woven(k, order, others, oks, n))
      modifies this
      ensures n < steps <= n + 3 && k in evals && Abs() == Run(s, Woven(k, order, others, oks, steps))
      ensures thrown ==> evals[k].pc.Stopped? && !oks[steps - 1]
      ensures !thrown ==> evals[k] == old(evals[k]).(rows := old(evals[k]).rows[1..])
    {
      WovenStep(s, k, order, others, oks, n);
      var breach := Look(k, row, others[n], oks[n]);
      if !oks[n] { return n + 1, true; }
      if breach.None? { return n + 1, false; }
      WovenStep(s, k, order, others, oks, n + 1);
      var audit := Audit(k, row, breach.value, others[n + 1], oks[n + 1]);
      if audit.None? { return n + 2, true; }
      WovenStep(s, k, order, others, oks, n + 2);
      PauseStep(k, row, audit.value, others[n + 2], oks[n + 2]);
      return n + 3, !oks[n + 2];
    }

    // The whole job: after `steps` steps it has either thrown or looked at every
    // row of its query.
    method EvaluateEmailPause(k: nat, order: seq<Org>, others: seq<seq<Event>>, oks: seq<bool>)
      returns (steps: nat, completed: bool)
      requires k !in evals
      requires |others| == |oks| == 1 + 3 * |order|
      requires forall n | 0 <= n < |others| :: NotFor(k, others[n])
      modifies this
      ensures steps <= |others| && Abs() == Run(old(Abs()), Woven(k, order, others, oks, steps))
      ensures k in evals
      ensures completed ==> evals[k].rows == [] && evals[k].pc.Looking?
      ensures !completed ==> evals[k].pc.Stopped? && steps > 0 && !oks[steps - 1]
    {
      ghost var s := Abs();
      assert Woven(k, order, others, oks, 1) == others[0] + [Query(k, order)];
      var rows := Begin(k, order, others[0]);
      steps := 1;
      for i := 0 to |rows|
        invariant |rows| <= |order| && 1 <= steps <= 1 + 3 * i
        invariant k in evals && evals[k].pc.Looking? && evals[k].rows == rows[i..]
        invariant Abs() == Run(s, Woven(k, order, others, oks, steps))
      {
        var thrown;
        steps, thrown := Consider(k, rows[i], order, others, oks, steps, s);
        if thrown { return steps, false; }
      }
      completed := true;
    }
  }

  lemma {:induction false} RowsBound(s: State, order: seq<Org>)
    ensures |RowsOf(s, order)| <= |order|
  {
    if order != [] {
      RowsBound(s, order[1..]);
    }
  }

  // ---- left alone ----------------------------------------------------------

  ghost function Alone(s: State, k: nat, n: nat): State
    decreases n
  {
    if n == 0 then s else Alone(Apply(s, Advance(k, true)), k, n - 1)
  }

  ghost predicate Tripped(rows: seq<Row>, org: Org) {
    exists row :: row in rows && row.org == org && Breach(row).Some?
  }

  lemma {:induction false} DoneStays(s: State, k: nat, n: nat)
    requires k in s.evals && s.evals[k].rows == []
    ensures Alone(s, k, n) == s
    decreases n
  {
    if n > 0 {
      DoneStays(s, k, n - 1);
    }
  }

  lemma TrippedSplit(rows: seq<Row>, o: Org)
    requires rows != []
    ensures Tripped(rows, o) <==> (rows[0].org == o && Breach(rows[0]).Some?) || Tripped(rows[1..], o)
  {
  }

  // Paused for the first row, then for the others.
  lemma TrippedInTurn(a: map<Org, Tenant>, b: map<Org, Tenant>, c: map<Org, Tenant>, rows: seq<Row>)
    requires rows != [] && a.Keys == b.Keys == c.Keys
    requires forall o | o in a ::
               b[o] == a[o].(paused := a[o].paused || (o == rows[0].org && Breach(rows[0]).Some?))
    requires forall o | o in b :: c[o] == b[o].(paused := b[o].paused || Tripped(rows[1..], o))
    ensures forall o | o in a :: c[o] == a[o].(paused := a[o].paused || Tripped(rows, o))
  {
    forall o | o in a ensures c[o] == a[o].(paused := a[o].paused || Tripped(rows, o)) {
      TrippedSplit(rows, o);
    }
  }

  // A row in breach, of a tenant that is not paused, takes three calls and leaves
  // an audit row and then the pause behind; any other takes one and leaves
  // nothing. A call that throws ends the run and changes nothing else.
  lemma OneRowIs(s: State, k: nat)
    requires k in s.evals && s.evals[k].pc.Looking? && s.evals[k].rows != []
    requires s.evals[k].rows[0].org in s.tenants
    ensures var e, row := s.evals[k], s.evals[k].rows[0];
            var tenant, breach := s.tenants[row.org], Breach(row);
            var one := Apply(s, Advance(k, true));
            if breach.Some? && !tenant.paused then
              Apply(Apply(one, Advance(k, true)), Advance(k, true))
              == s.(tenants := s.tenants[row.org := tenant.(paused := true)],
                    log := s.log + [Audited(row, breach.value, e.query), Paused(row.org, |s.log|)],
                    evals := s.evals[k := e.(rows := e.rows[1..])])
            else one == s.(evals := s.evals[k := e.(rows := e.rows[1..])])
  {
    var e, row := s.evals[k], s.evals[k].rows[0];
    if Breach(row).Some? && !s.tenants[row.org].paused {
      var audited := Audited(row, Breach(row).value, e.query);
      var two := Apply(Apply(s, Advance(k, true)), Advance(k, true));
      assert two == s.(log := s.log + [audited], evals := s.evals[k := e.(pc := Pausing(|s.log|))]);
      assert s.log + [audited] + [Paused(row.org, |s.log|)] == s.log + [audited, Paused(row.org, |s.log|)];
    }
  }

  lemma ThrowChangesNothing(s: State, k: nat)
    requires k in s.evals
    ensures Apply(s, Advance(k, false))
         == if s.evals[k].rows == [] then s else s.(evals := s.evals[k := s.evals[k].(pc := Stopped)])
  {
    assert s.evals[k := s.evals[k]] == s.evals;
  }

  // One row takes one step or three.
  lemma OneRow(s: State, k: nat, n: nat) returns (t: State, m: nat)
    requires n >= 3 && k in s.evals && s.evals[k].pc.Looking? && s.evals[k].rows != []
    requires s.evals[k].rows[0].org in s.tenants
    ensures m <= 3 && m <= n
    ensures var e := s.evals[k];
            var org := e.rows[0].org;
            && Alone(s, k, n) == Alone(t, k, n - m)
            && k in t.evals && t.evals[k] == e.(rows := e.rows[1..])
            && t.sends == s.sends && t.tenants.Keys == s.tenants.Keys
            && forall o | o in s.tenants ::
                 t.tenants[o] == s.tenants[o].(paused := s.tenants[o].paused || (o == org && Breach(e.rows[0]).Some?))
  {
    var row := s.evals[k].rows[0];
    t, m := Apply(s, Advance(k, true)), 1;
    if Breach(row).Some? && !s.tenants[row.org].paused {
      var s2 := Apply(t, Advance(k, true));
      assert Alone(t, k, n - 1) == Alone(s2, k, n - 2) == Alone(Apply(s2, Advance(k, true)), k, n - 3);
      t, m := Apply(s2, Advance(k, true)), 3;
    }
  }

  lemma {:induction false} AlonePauses(s: State, k: nat, n: nat)
    requires k in s.evals && s.evals[k].pc.Looking? && n >= 3 * |s.evals[k].rows|
    requires forall row | row in s.evals[k].rows :: row.org in s.tenants
    ensures var t := Alone(s, k, n);
            && k in t.evals && t.evals[k].rows == [] && t.evals[k].pc.Looking?
            && t.sends == s.sends && t.tenants.Keys == s.tenants.Keys
            && forall o | o in s.tenants ::
                 t.tenants[o] == s.tenants[o].(paused := s.tenants[o].paused || Tripped(s.evals[k].rows, o))
    decreases |s.evals[k].rows|
  {
    var rows := s.evals[k].rows;
    if rows == [] {
      DoneStays(s, k, n);
    } else {
      assert rows[0] in rows;
      var s1, m := OneRow(s, k, n);
      AlonePauses(s1, k, n - m);
      TrippedInTurn(s.tenants, s1.tenants, Alone(s, k, n).tenants, rows);
    }
  }

  lemma {:induction false} RowsAreGroups(s: State, order: seq<Org>, row: Row)
    ensures row in RowsOf(s, order) <==>
            row.org in order && row.org in s.tenants && row == RowOf(s, row.org) && row.sample != []
  {
    if order != [] {
      RowsAreGroups(s, order[1..], row);
    }
  }

  // The sends of an organization that its query looks at, by their places from k
  // on: of the last 24 hours, and not from before its resume.
  function Recent(s: State, org: Org, k: nat): set<nat>
    requires org in s.tenants
  {
    var resumed := s.tenants[org].resumedAt;
    set i: nat | k <= i < |s.sends| && s.sends[i].org == Some(org) && s.now - 86_400_000 <= s.sends[i].at
                 && (resumed.Some? ==> resumed.value <= s.sends[i].at)
  }

  function Bounces(s: State, places: set<nat>): set<nat> {
    set i | i in places && i < |s.sends| && s.sends[i].bounced
  }

  function Complaints(s: State, places: set<nat>): set<nat> {
    set i | i in places && i < |s.sends| && s.sends[i].complained
  }

  lemma RecentFrom(s: State, org: Org, k: nat)
    requires org in s.tenants && k < |s.sends|
    ensures var m, later := s.sends[k], Recent(s, org, k + 1);
            && k !in later
            && Recent(s, org, k)
               == if m.org == Some(org) && WindowStart(s.tenants[org], s.now) <= m.at then later + {k} else later
  {
    MaxIs(s.now - 86_400_000, s.tenants[org].resumedAt, s.sends[k].at, WindowStart(s.tenants[org], s.now));
  }

  lemma OneMore(some: set<nat>, more: set<nat>, k: nat)
    requires k !in some && (more == some || more == some + {k})
    ensures |more| == |some| + if more == some then 0 else 1
  {
  }

  lemma OneMorePlace(s: State, places: set<nat>, k: nat)
    requires k < |s.sends| && k !in places
    ensures |places + {k}| == |places| + 1
    ensures |Bounces(s, places + {k})| == |Bounces(s, places)| + if s.sends[k].bounced then 1 else 0
    ensures |Complaints(s, places + {k})| == |Complaints(s, places)| + if s.sends[k].complained then 1 else 0
  {
    MarkedPlaces(s, places, k);
    OneMore(Bounces(s, places), Bounces(s, places + {k}), k);
    OneMore(Complaints(s, places), Complaints(s, places + {k}), k);
  }

  lemma MarkedPlaces(s: State, places: set<nat>, k: nat)
    requires k < |s.sends| && k !in places
    ensures var b, c := Bounces(s, places), Complaints(s, places);
            && k !in b && Bounces(s, places + {k}) == (if s.sends[k].bounced then b + {k} else b)
            && k !in c && Complaints(s, places + {k}) == (if s.sends[k].complained then c + {k} else c)
  {
  }

  lemma SinceCons(m: Send, later: seq<Send>, org: Org, from: int)
    ensures var sample, rest := Since([m] + later, org, from), Since(later, org, from);
            if m.org == Some(org) && from <= m.at then
              && |sample| == |rest| + 1
              && Bounced(sample) == Bounced(rest) + (if m.bounced then 1 else 0)
              && Complained(sample) == Complained(rest) + (if m.complained then 1 else 0)
            else sample == rest
  {
    assert ([m] + later)[1..] == later;
    var rest := Since(later, org, from);
    assert ([m] + rest)[1..] == rest && [] + rest == rest;
  }

  // One send more or the same places.
  lemma PlacesFrom(s: State, org: Org, k: nat)
    requires org in s.tenants && k < |s.sends|
    ensures var m, places, later := s.sends[k], Recent(s, org, k), Recent(s, org, k + 1);
            if m.org == Some(org) && WindowStart(s.tenants[org], s.now) <= m.at then
              && |places| == |later| + 1
              && |Bounces(s, places)| == |Bounces(s, later)| + (if m.bounced then 1 else 0)
              && |Complaints(s, places)| == |Complaints(s, later)| + (if m.complained then 1 else 0)
            else places == later
  {
    RecentFrom(s, org, k);
    OneMorePlace(s, Recent(s, org, k + 1), k);
  }

  // Length and counts of a sample are those of the places from k on.
  ghost predicate SameCounts(s: State, org: Org, k: nat, sample: seq<Send>)
    requires org in s.tenants
  {
    var places := Recent(s, org, k);
    && |sample| == |places|
    && Bounced(sample) == |Bounces(s, places)| && Complained(sample) == |Complaints(s, places)|
  }

  lemma NoPlaces(s: State, org: Org)
    requires org in s.tenants
    ensures SameCounts(s, org, |s.sends|, [])
  {
    assert Recent(s, org, |s.sends|) == {} && Bounces(s, {}) == {} && Complaints(s, {}) == {};
  }

  lemma OneMoreSend(s: State, org: Org, k: nat, later: seq<Send>)
    requires org in s.tenants && k < |s.sends|
    requires SameCounts(s, org, k + 1, Since(later, org, WindowStart(s.tenants[org], s.now)))
    ensures SameCounts(s, org, k, Since([s.sends[k]] + later, org, WindowStart(s.tenants[org], s.now)))
  {
    PlacesFrom(s, org, k);
    SinceCons(s.sends[k], later, org, WindowStart(s.tenants[org], s.now));
  }

  lemma {:induction false} SampleCounts(s: State, org: Org, k: nat)
    requires org in s.tenants && k <= |s.sends|
    ensures SameCounts(s, org, k, Since(s.sends[k..], org, WindowStart(s.tenants[org], s.now)))
    decreases |s.sends| - k
  {
    if k == |s.sends| {
      NoPlaces(s, org);
      assert s.sends[k..] == [];
    } else {
      SampleCounts(s, org, k + 1);
      OneMoreSend(s, org, k, s.sends[k + 1..]);
      assert s.sends[k..] == [s.sends[k]] + s.sends[k + 1..];
    }
  }

  // The sends of an organization in the table, counted one by one: those of the
  // last 24 hours that are not from before its resume are 20 or more, and over 5%
  // of them bounced or over 0.1% were complained about.
  ghost predicate OverTheLimits(s: State, org: Org)
    requires org in s.tenants
  {
    var resumed := s.tenants[org].resumedAt;
    var recent := set i: nat | i < |s.sends| && s.sends[i].org == Some(org)
                               && s.now - 86_400_000 <= s.sends[i].at
                               && (resumed.Some? ==> resumed.value <= s.sends[i].at);
    var bounced := set i | i in recent && s.sends[i].bounced;
    var complained := set i | i in recent && s.sends[i].complained;
    |recent| >= 20 && (|bounced| as real / |recent| as real > 0.05
                       || |complained| as real / |recent| as real > 0.001)
  }

  lemma PlacesOfTable(s: State, org: Org)
    requires org in s.tenants
    ensures var places := Recent(s, org, 0);
            OverTheLimits(s, org) <==>
              |places| >= 20 && (|Bounces(s, places)| as real / |places| as real > 0.05
                                 || |Complaints(s, places)| as real / |places| as real > 0.001)
  {
    var places, resumed := Recent(s, org, 0), s.tenants[org].resumedAt;
    assert places == set i: nat | i < |s.sends| && s.sends[i].org == Some(org)
                                  && s.now - 86_400_000 <= s.sends[i].at
                                  && (resumed.Some? ==> resumed.value <= s.sends[i].at);
    assert Bounces(s, places) == set i | i in places && s.sends[i].bounced;
    assert Complaints(s, places) == set i | i in places && s.sends[i].complained;
  }

  lemma BreachOfTable(s: State, org: Org)
    requires org in s.tenants
    ensures Breach(RowOf(s, org)).Some? <==> OverTheLimits(s, org)
  {
    SampleCounts(s, org, 0);
    BreachIsRate(RowOf(s, org));
    assert s.sends[0..] == s.sends;
    PlacesOfTable(s, org);
  }

  // Paused are those paused before and those whose sends in the table are over
  // the limits.
  ghost predicate Evaluated(s: State, u: State) {
    && u.tenants.Keys == s.tenants.Keys && u.sends == s.sends
    && forall o | o in s.tenants ::
         && u.tenants[o].resumedAt == s.tenants[o].resumedAt
         && (u.tenants[o].paused <==> s.tenants[o].paused || OverTheLimits(s, o))
  }

  // So ends a run over all tenants that is neither interrupted nor fails.
  lemma CompletedRunPausesExactly(s: State, k: nat, order: seq<Org>, n: nat)
    requires k !in s.evals && (forall o :: o in s.tenants <==> o in order) && n >= 3 * |order|
    ensures var t := Alone(Apply(s, Query(k, order)), k, n);
            k in t.evals && t.evals[k].rows == [] && Evaluated(s, t)
  {
    RunPausesBreaches(s, k, order, n);
    forall o | o in s.tenants {
      BreachOfTable(s, o);
    }
  }

  lemma RunPausesBreaches(s: State, k: nat, order: seq<Org>, n: nat)
    requires k !in s.evals && (forall o :: o in s.tenants <==> o in order) && n >= 3 * |order|
    ensures var t := Alone(Apply(s, Query(k, order)), k, n);
            && k in t.evals && t.evals[k].rows == [] && t.tenants.Keys == s.tenants.Keys && t.sends == s.sends
            && forall o | o in s.tenants ::
                 && t.tenants[o].resumedAt == s.tenants[o].resumedAt
                 && (t.tenants[o].paused <==> s.tenants[o].paused || Breach(RowOf(s, o)).Some?)
  {
    var q := Apply(s, Query(k, order));
    var rows := RowsOf(s, order);
    RowsBound(s, order);
    forall row | row in rows ensures row.org in s.tenants {
      RowsAreGroups(s, order, row);
    }
    AlonePauses(q, k, n);
    forall o | o in s.tenants ensures Tripped(rows, o) <==> Breach(RowOf(s, o)).Some? {
      RowsAreGroups(s, order, RowOf(s, o));
      if Tripped(rows, o) {
        var row :| row in rows && row.org == o && Breach(row).Some?;
        RowsAreGroups(s, order, row);
      }
    }
  }

  lemma {:induction false} AloneSplit(s: State, k: nat, m: nat, n: nat)
    ensures Alone(s, k, m + n) == Alone(Alone(s, k, m), k, n)
    decreases m
  {
    if m > 0 {
      AloneSplit(Apply(s, Advance(k, true)), k, m - 1, n);
    }
  }

  lemma AloneOne(s: State, k: nat)
    ensures Alone(s, k, 1) == Apply(s, Advance(k, true))
  {
    assert Alone(Apply(s, Advance(k, true)), k, 0) == Apply(s, Advance(k, true));
  }

  // Nothing at any await, and no call fails.
  ghost predicate Quiet(others: seq<seq<Event>>, oks: seq<bool>) {
    |others| == |oks| && forall i | 0 <= i < |others| :: others[i] == [] && oks[i]
  }

  lemma {:induction false} QuietWoven(s: State, k: nat, order: seq<Org>, others: seq<seq<Event>>, oks: seq<bool>,
                                      n: nat)
    requires Quiet(others, oks) && n < |others|
    ensures Run(s, Woven(k, order, others, oks, n + 1)) == Alone(Apply(s, Query(k, order)), k, n)
    decreases n
  {
    if n == 0 {
      assert Woven(k, order, others, oks, 1) == [] + [Query(k, order)];
      RunSnoc(s, [], Query(k, order));
    } else {
      var t := Apply(s, Query(k, order));
      QuietWoven(s, k, order, others, oks, n - 1);
      WovenStep(s, k, order, others, oks, n);
      assert [] + [Advance(k, true)] == [Advance(k, true)];
      RunSnoc(Alone(t, k, n - 1), [], Advance(k, true));
      AloneSplit(t, k, n - 1, 1);
      AloneOne(Alone(t, k, n - 1), k);
    }
  }

  lemma CompletedAlone(s: State, k: nat, order: seq<Org>, others: seq<seq<Event>>, oks: seq<bool>, steps: nat, u: State)
    requires Quiet(others, oks) && 1 <= steps <= |others| && u == Run(s, Woven(k, order, others, oks, steps))
    requires k in u.evals && u.evals[k].rows == []
    ensures u == Alone(Apply(s, Query(k, order)), k, |others| - 1)
  {
    QuietWoven(s, k, order, others, oks, steps - 1);
    AloneSplit(Apply(s, Query(k, order)), k, steps - 1, |others| - steps);
    DoneStays(u, k, |others| - steps);
  }

  lemma Concludes(s: State, k: nat, order: seq<Org>, n: nat, u: State)
    requires k !in s.evals && (forall o :: o in s.tenants <==> o in order) && n >= 3 * |order|
    requires u == Alone(Apply(s, Query(k, order)), k, n)
    ensures Evaluated(s, u)
  {
    CompletedRunPausesExactly(s, k, order, n);
  }

  method QuietAwaits(n: nat) returns (others: seq<seq<Event>>, oks: seq<bool>)
    ensures Quiet(others, oks) && |others| == n
  {
    others, oks := seq(n, _ => []), seq(n, _ => true);
  }

  // The job itself, run like that over all tenants.
  method EvaluateAlone(server: Server, k: nat, order: seq<Org>)
    requires k !in server.evals && forall o :: o in server.tenants <==> o in order
    modifies server
    ensures Evaluated(old(server.Abs()), server.Abs())
  {
    ghost var s := server.Abs();
    var others, oks := QuietAwaits(1 + 3 * |order|);
    var steps, completed := server.EvaluateEmailPause(k, order, others, oks);
    CompletedAlone(s, k, order, others, oks, steps, server.Abs());
    Concludes(s, k, order, |others| - 1, server.Abs());
  }
}
