// The deliverability circuit breaker: any number of evaluator runs, sends,
// bounces and complaints, and the operator's resumes, interleaved one database
// call at a time.
module Breaker {
  import opened Numbers
  import opened Wrappers

  type Org = string

  const WINDOW: int := 24 * 3_600_000   // milliseconds
  const MIN_SAMPLE: int := 20

  datatype Send = Send(org: Option<Org>, at: int, bounced: bool, complained: bool)

  datatype Tenant = Tenant(paused: bool, resumedAt: Option<int>)

  // One group of the evaluator's query, with the sends it counts.
  datatype Row = Row(org: Org, sample: seq<Send>)

  datatype Metric = Bounce | Complaint

  // The audit trail and the writes it speaks about, in the order of their
  // commits. query and audit are positions of earlier entries.
  datatype Entry =
    | Queried(at: int)
    | Audited(row: Row, metric: Metric, query: nat)
    | Paused(org: Org, audit: nat)
    | Resumed(org: Org, at: int)

  datatype Pc = Looking | Auditing | Pausing(audit: nat) | Stopped

  // rows: those still to be looked at, the current one first.
  datatype Eval = Eval(query: nat, rows: seq<Row>, pc: Pc)

  datatype State = State(
    now: int,
    sends: seq<Send>,
    tenants: map<Org, Tenant>,
    evals: map<nat, Eval>,
    log: seq<Entry>)

  datatype Event =
    | SendMail(sender: Option<Org>)
    | Mark(i: nat, bounced: bool, complained: bool)
    | Query(k: nat, order: seq<Org>)
    | Advance(k: nat, ok: bool)
    | Resume(org: Org, elapsed: nat)
    | Tick(elapsed: nat)

  // ---- the query -----------------------------------------------------------

  function Since(sends: seq<Send>, org: Org, from: int): (sample: seq<Send>)
    ensures forall m | m in sample :: m in sends && m.org == Some(org) && from <= m.at
  {
    if sends == [] then []
    else (if sends[0].org == Some(org) && from <= sends[0].at then [sends[0]] else []) + Since(sends[1..], org, from)
  }

  // The sample keeps each send of the organization since that instant, as often
  // as it was sent, and no other.
  lemma {:induction false} SinceIsWindow(sends: seq<Send>, org: Org, from: int, m: Send)
    ensures multiset(Since(sends, org, from))[m]
         == if m.org == Some(org) && from <= m.at then multiset(sends)[m] else 0
  {
    if sends != [] {
      SinceIsWindow(sends[1..], org, from, m);
      assert sends == [sends[0]] + sends[1..];
    }
  }

  // greatest(windowStart, coalesce(email_resumed_at, windowStart))
  function WindowStart(tenant: Tenant, now: int): int {
    if tenant.resumedAt.Some? then Max(now - WINDOW, tenant.resumedAt.value) else now - WINDOW
  }

  function RowOf(s: State, org: Org): Row
    requires org in s.tenants
  {
    Row(org, Since(s.sends, org, WindowStart(s.tenants[org], s.now)))
  }

  // The sample of an organization holds its sends of the last 24 hours that are
  // not from before its resume, each as often as it was sent, and no other.
  lemma SampleIs(s: State, org: Org, m: Send)
    requires org in s.tenants
    ensures var sample, resumed := RowOf(s, org).sample, s.tenants[org].resumedAt;
            multiset(sample)[m]
            == if m.org == Some(org) && s.now - 86_400_000 <= m.at && (resumed.Some? ==> resumed.value <= m.at)
               then multiset(s.sends)[m] else 0
    ensures RowOf(s, org).org == org
  {
    var from := WindowStart(s.tenants[org], s.now);
    SinceIsWindow(s.sends, org, from, m);
    MaxIs(s.now - 86_400_000, s.tenants[org].resumedAt, m.at, from);
  }

  // From the later one of two instants on.
  lemma MaxIs(start: int, resumed: Option<int>, at: int, from: int)
    requires from == if resumed.Some? then Max(start, resumed.value) else start
    ensures from <= at <==> start <= at && (resumed.Some? ==> resumed.value <= at)
  {
  }

  // GROUP BY yields a row for every organization with a send in its window, in
  // no particular order.
  function RowsOf(s: State, order: seq<Org>): seq<Row> {
    if order == [] then []
    else
      (if order[0] in s.tenants && RowOf(s, order[0]).sample != [] then [RowOf(s, order[0])] else [])
      + RowsOf(s, order[1..])
  }

  function Bounced(sample: seq<Send>): nat {
    if sample == [] then 0 else (if sample[0].bounced then 1 else 0) + Bounced(sample[1..])
  }

  function Complained(sample: seq<Send>): nat {
    if sample == [] then 0 else (if sample[0].complained then 1 else 0) + Complained(sample[1..])
  }

  // More than 5% bounced, or else more than 0.1% complained, of 20 or more.
  function Breach(row: Row): Option<Metric> {
    var total := |row.sample|;
    if total < MIN_SAMPLE then None
    else if 20 * Bounced(row.sample) > total then Some(Bounce)
    else if 1000 * Complained(row.sample) > total then Some(Complaint)
    else None
  }

  // The same in the rates the job divides out.
  lemma BreachIsRate(row: Row)
    ensures var total := |row.sample|;
            (Breach(row).Some? <==>
               total >= MIN_SAMPLE
               && (Bounced(row.sample) as real / total as real > 0.05
                   || Complained(row.sample) as real / total as real > 0.001))
    ensures Breach(row) == Some(Bounce) <==>
            |row.sample| >= MIN_SAMPLE && Bounced(row.sample) as real / |row.sample| as real > 0.05
  {
    if |row.sample| >= MIN_SAMPLE {
      RateAbove(Bounced(row.sample), |row.sample|, 20);
      RateAbove(Complained(row.sample), |row.sample|, 1000);
    }
  }

  lemma RateAbove(count: nat, total: nat, n: nat)
    requires total > 0 && n > 0
    ensures n * count > total <==> count as real / total as real > 1.0 / n as real
  {
  }

  // ---- one step of evaluator run k -----------------------------------------

  function SetEval(s: State, k: nat, e: Eval): State {
    s.(evals := s.evals[k := e])
  }

  // ok: whether the awaited call succeeds; when it does not, the run throws.
  function Step(s: State, k: nat, ok: bool): State
    requires k in s.evals
  {
    var e := s.evals[k];
    if e.pc.Stopped? || e.rows == [] then s
    else if !ok then SetEval(s, k, e.(pc := Stopped))
    else
      var row := e.rows[0];
      match e.pc
      case Stopped => s
      case Looking =>
        if Breach(row).None? || row.org !in s.tenants || s.tenants[row.org].paused
        then SetEval(s, k, e.(rows := e.rows[1..]))
        else SetEval(s, k, e.(pc := Auditing))
      case Auditing =>
        if Breach(row).None? then s
        else
          SetEval(s, k, e.(pc := Pausing(|s.log|)))
            .(log := s.log + [Audited(row, Breach(row).value, e.query)])
      case Pausing(audit) =>
        SetEval(Pause(s, row.org, audit), k, e.(rows := e.rows[1..], pc := Looking))
  }

  function Pause(s: State, org: Org, audit: nat): State {
    if org in s.tenants
    then s.(tenants := s.tenants[org := s.tenants[org].(paused := true)], log := s.log + [Paused(org, audit)])
    else s
  }

  function Apply(s: State, e: Event): State {
    match e
    case SendMail(sender) => s.(sends := s.sends + [Send(sender, s.now, false, false)])
    case Mark(i, bounced, complained) =>
      if i < |s.sends|
      then s.(sends := s.sends[i := s.sends[i].(bounced := s.sends[i].bounced || bounced,
                                                complained := s.sends[i].complained || complained)])
      else s
    case Query(k, order) =>
      if k in s.evals then s
      else SetEval(s, k, Eval(|s.log|, RowsOf(s, order), Looking)).(log := s.log + [Queried(s.now)])
    case Advance(k, ok) => if k in s.evals then Step(s, k, ok) else s
    case Resume(org, elapsed) =>
      // resumed strictly later than everything before it
      var at := s.now + 1 + elapsed;
      if org in s.tenants
      then State(at, s.sends, s.tenants[org := Tenant(false, Some(at))], s.evals, s.log + [Resumed(org, at)])
      else s
    case Tick(elapsed) => s.(now := s.now + elapsed)
  }

  function Run(s: State, es: seq<Event>): State
    decreases |es|
  {
    if es == [] then s else Run(Apply(s, es[0]), es[1..])
  }

  ghost predicate Init(s: State) {
    && s.evals == map[]
    && s.log == []
    && (forall o | o in s.tenants :: s.tenants[o] == Tenant(false, None))
    && (forall m | m in s.sends :: m.at <= s.now)
  }

  // ---- reading the log -----------------------------------------------------

  function LastResume(log: seq<Entry>, org: Org): Option<int> {
    if log == [] then None else ResumedBy(log[|log| - 1], org, LastResume(log[..|log| - 1], org))
  }

  function ResumedBy(last: Entry, org: Org, before: Option<int>): Option<int> {
    if last.Resumed? && last.org == org then Some(last.at) else before
  }

  // Paused after the last resume.
  predicate InEffect(log: seq<Entry>, org: Org) {
    log != [] && PausedBy(log[|log| - 1], org, InEffect(log[..|log| - 1], org))
  }

  predicate PausedBy(last: Entry, org: Org, before: bool) {
    (last.Paused? && last.org == org) || (before && !(last.Resumed? && last.org == org))
  }

  // No resume of org strictly between positions i and j.
  ghost predicate NoResume(log: seq<Entry>, org: Org, i: nat, j: nat) {
    forall k :: i < k < j && k < |log| ==> !(log[k].Resumed? && log[k].org == org)
  }

  // The sends of a row as the query at position q saw them.
  ghost predicate SampleOk(log: seq<Entry>, row: Row, q: nat) {
    && q < |log| && log[q].Queried?
    && forall m | m in row.sample ::
         && m.org == Some(row.org)
         && log[q].at - WINDOW <= m.at <= log[q].at
         && (LastResume(log[..q], row.org).Some? ==> LastResume(log[..q], row.org).value <= m.at)
  }

  ghost predicate EntryOk(log: seq<Entry>, i: nat)
    requires i < |log|
  {
    match log[i]
    case Queried(_) => true
    case Audited(row, metric, query) =>
      query < i && SampleOk(log, row, query) && Breach(row) == Some(metric)
    case Paused(org, audit) =>
      audit < i && log[audit].Audited? && log[audit].row.org == org
    case Resumed(org, at) =>
      forall q :: 0 <= q < i && log[q].Queried? ==> log[q].at < at
  }

  ghost predicate EvalOk(log: seq<Entry>, e: Eval) {
    && (forall row | row in e.rows :: SampleOk(log, row, e.query))
    && (e.pc.Auditing? ==> e.rows != [] && Breach(e.rows[0]).Some?)
    && (e.pc.Pausing? ==>
          && e.rows != [] && e.pc.audit < |log|
          && log[e.pc.audit].Audited? && log[e.pc.audit].row == e.rows[0])
  }

  ghost predicate Inv(s: State) {
    && (forall m | m in s.sends :: m.at <= s.now)
    && (forall o | o in s.tenants ::
          s.tenants[o].resumedAt == LastResume(s.log, o) && (s.tenants[o].paused <==> InEffect(s.log, o)))
    && (forall i | 0 <= i < |s.log| :: EntryOk(s.log, i))
    && (forall i | 0 <= i < |s.log| && s.log[i].Queried? :: s.log[i].at <= s.now)
    && (forall k | k in s.evals :: EvalOk(s.log, s.evals[k]))
  }

  // ---- the invariant -------------------------------------------------------

  lemma InitInv(s: State)
    requires Init(s)
    ensures Inv(s)
  {
  }

  // A longer log says the same about its older part.
  lemma LogGrows(log: seq<Entry>, entry: Entry)
    requires forall i | 0 <= i < |log| :: EntryOk(log, i)
    ensures forall i | 0 <= i < |log| :: EntryOk(log + [entry], i)
    ensures forall row, q: nat | SampleOk(log, row, q) :: SampleOk(log + [entry], row, q)
    ensures forall e | EvalOk(log, e) :: EvalOk(log + [entry], e)
  {
    var longer := log + [entry];
    forall row, q: nat | SampleOk(log, row, q) ensures SampleOk(longer, row, q) {
      assert longer[..q] == log[..q];
    }
    forall i | 0 <= i < |log| ensures EntryOk(longer, i) {
      assert EntryOk(log, i);
    }
  }

  lemma LastEntry(log: seq<Entry>, entry: Entry)
    ensures forall org :: LastResume(log + [entry], org) == ResumedBy(entry, org, LastResume(log, org))
    ensures forall org :: InEffect(log + [entry], org) == PausedBy(entry, org, InEffect(log, org))
  {
  }

  lemma {:induction false} RowsOk(s: State, order: seq<Org>)
    requires Inv(s)
    ensures forall row | row in RowsOf(s, order) :: SampleOk(s.log + [Queried(s.now)], row, |s.log|)
  {
    if order != [] {
      RowsOk(s, order[1..]);
      assert (s.log + [Queried(s.now)])[..|s.log|] == s.log;
    }
  }

  lemma QueryInv(s: State, k: nat, order: seq<Org>)
    requires Inv(s)
    ensures Inv(Apply(s, Query(k, order)))
  {
    if k !in s.evals {
      var entry := Queried(s.now);
      LogGrows(s.log, entry);
      LastEntry(s.log, entry);
      RowsOk(s, order);
    }
  }

  lemma ResumeInv(s: State, org: Org, elapsed: nat)
    requires Inv(s)
    ensures Inv(Apply(s, Resume(org, elapsed)))
  {
    if org in s.tenants {
      var entry := Resumed(org, s.now + 1 + elapsed);
      LogGrows(s.log, entry);
      LastEntry(s.log, entry);
    }
  }

  lemma AuditInv(s: State, k: nat)
    requires Inv(s) && k in s.evals && s.evals[k].pc.Auditing?
    ensures Inv(Step(s, k, true))
  {
    var e := s.evals[k];
    assert EvalOk(s.log, e) && e.rows[0] in e.rows;
    var entry := Audited(e.rows[0], Breach(e.rows[0]).value, e.query);
    LogGrows(s.log, entry);
    LastEntry(s.log, entry);
  }

  lemma PauseInv(s: State, k: nat)
    requires Inv(s) && k in s.evals && s.evals[k].pc.Pausing? && s.evals[k].rows != []
    ensures Inv(Step(s, k, true))
  {
    var e := s.evals[k];
    assert EvalOk(s.log, e);
    var entry := Paused(e.rows[0].org, e.pc.audit);
    LogGrows(s.log, entry);
    LastEntry(s.log, entry);
  }

  lemma ApplyInv(s: State, e: Event)
    requires Inv(s)
    ensures Inv(Apply(s, e))
  {
    match e
    case Query(k, order) => QueryInv(s, k, order);
    case Resume(org, elapsed) => ResumeInv(s, org, elapsed);
    case Advance(k, ok) =>
      if k in s.evals && ok && s.evals[k].rows != [] {
        if s.evals[k].pc.Auditing? { AuditInv(s, k); }
        if s.evals[k].pc.Pausing? { PauseInv(s, k); }
      }
    case Mark(i, bounced, complained) =>
    case _ =>
  }

  lemma {:induction false} RunInv(s: State, es: seq<Event>)
    requires Inv(s)
    ensures Inv(Run(s, es))
    decreases |es|
  {
    if es != [] {
      ApplyInv(s, es[0]);
      RunInv(Apply(s, es[0]), es[1..]);
    }
  }

  // ---- main results --------------------------------------------------------

  // What a pause rests on: an audit row written since the last resume, whose
  // sends, 20 or more and in breach, are all dated at or after that resume.
  ghost predicate Grounded(log: seq<Entry>, i: nat)
    requires i < |log| && log[i].Paused? && log[i].audit < i && log[log[i].audit].Audited?
  {
    var org, a := log[i].org, log[i].audit;
    && NoResume(log, org, a, i)
    && (LastResume(log[..i], org).Some? ==>
          forall m | m in log[a].row.sample :: LastResume(log[..i], org).value <= m.at)
  }

  lemma {:induction false} LastResumeIsLast(log: seq<Entry>, org: Org, q: nat)
    requires q <= |log|
    ensures NoResume(log, org, q, |log|) && q < |log| && log[q].Queried? ==>
              LastResume(log, org) == LastResume(log[..q], org)
    ensures !NoResume(log, org, q, |log|) ==>
              exists k :: q < k < |log| && log[k].Resumed? && LastResume(log, org) == Some(log[k].at)
  {
    if q < |log| {
      var n := |log| - 1;
      var front := log[..n];
      if log[n].Resumed? && log[n].org == org {
        assert n == q || !NoResume(log, org, q, |log|);
      } else if q < n {
        LastResumeIsLast(front, org, q);
        assert front[..q] == log[..q];
        assert NoResume(front, org, q, |front|) == NoResume(log, org, q, |log|);
      }
    }
  }

  // Every pause of every run follows an audit row of the same tenant, which
  // records 20 or more sends of it, in breach, dated within the 24 hours before
  // the query and since the last resume before the query. The pause is grounded
  // exactly when no resume of the tenant landed between that query and it.
  lemma PausesGroundedExactlyWhen(init: State, es: seq<Event>, i: nat)
    requires Init(init)
    requires var log := Run(init, es).log; i < |log| && log[i].Paused?
    ensures var log := Run(init, es).log;
            var a := log[i].audit;
            && a < i && log[a].Audited? && log[a].row.org == log[i].org
            && Breach(log[a].row) == Some(log[a].metric) && |log[a].row.sample| >= MIN_SAMPLE
            && log[a].query < a && SampleOk(log, log[a].row, log[a].query)
            && (Grounded(log, i) <==> NoResume(log, log[i].org, log[a].query, i))
  {
    InitInv(init);
    RunInv(init, es);
    var log := Run(init, es).log;
    assert EntryOk(log, i);
    var org, a := log[i].org, log[i].audit;
    assert EntryOk(log, a);
    var row, q := log[a].row, log[a].query;
    var before := log[..i];
    LastResumeIsLast(before, org, q);
    assert before[..q] == log[..q];
    assert NoResume(before, org, q, |before|) == NoResume(log, org, q, i);
    if !NoResume(log, org, q, i) {
      var k :| q < k < |before| && before[k].Resumed? && LastResume(before, org) == Some(before[k].at);
      assert EntryOk(log, k) && log[q].at < log[k].at;
      assert row.sample[0] in row.sample;
    }
  }

  // The tenant row is paused exactly when the log holds a pause later than
  // every resume, and nothing but a resume of that tenant ends a pause.
  lemma OnlyResumeUnpauses(init: State, es: seq<Event>, e: Event, org: Org)
    requires Init(init) && org in Run(init, es).tenants
    ensures var s := Run(init, es);
            && (s.tenants[org].paused <==> InEffect(s.log, org))
            && org in Apply(s, e).tenants
            && (s.tenants[org].paused && !Apply(s, e).tenants[org].paused ==> e.Resume? && e.org == org)
  {
    InitInv(init);
    RunInv(init, es);
  }

  // The table of sends grows by one clean send at a time and is otherwise only
  // marked, send by send; a resume, and nothing else but an evaluator's pause,
  // touches a tenant, and dates it by the clock it moves.
  lemma SendsAndResumes(s: State, e: Event, i: nat)
    ensures var t := Apply(s, e);
            && (e.SendMail? ==> t.sends == s.sends + [Send(e.sender, s.now, false, false)])
            && (!e.SendMail? ==> |t.sends| == |s.sends|)
            && (i < |s.sends| ==>
                  i < |t.sends|
                  && t.sends[i].org == s.sends[i].org && t.sends[i].at == s.sends[i].at
                  && (t.sends[i].bounced <==> s.sends[i].bounced || (e.Mark? && e.i == i && e.bounced))
                  && (t.sends[i].complained <==> s.sends[i].complained || (e.Mark? && e.i == i && e.complained)))
            && (e.Resume? && e.org in s.tenants ==>
                  t.now == s.now + 1 + e.elapsed && t.tenants == s.tenants[e.org := Tenant(false, Some(t.now))]
                  && t.evals == s.evals && t.log == s.log + [Resumed(e.org, t.now)])
            && (!e.Resume? && !e.Advance? ==> t.tenants == s.tenants)
            && (!e.Resume? ==> t.now == s.now + if e.Tick? then e.elapsed else 0)
  {
  }

  // Whenever an evaluator run is about to pause, a resume that lands first is
  // undone by it: the tenant ends up paused with no audit row since the resume.
  lemma ResumeOverridden(s: State, k: nat, elapsed: nat)
    requires Inv(s) && k in s.evals && s.evals[k].pc.Pausing?
    requires s.evals[k].rows[0].org in s.tenants
    ensures var org := s.evals[k].rows[0].org;
            var after := Apply(Apply(s, Resume(org, elapsed)), Advance(k, true));
            var i := |after.log| - 1;
            && Inv(after) && after.tenants[org].paused
            && i >= 0 && after.log[i].Paused? && after.log[i].org == org
            && after.log[i].audit < i && after.log[after.log[i].audit].Audited? && !Grounded(after.log, i)
  {
    var org := s.evals[k].rows[0].org;
    assert EvalOk(s.log, s.evals[k]);
    var mid := Apply(s, Resume(org, elapsed));
    ApplyInv(s, Resume(org, elapsed));
    ApplyInv(mid, Advance(k, true));
    var after := Apply(mid, Advance(k, true));
    var i := |after.log| - 1;
    assert EntryOk(after.log, i);
    assert after.log[i - 1] == Resumed(org, s.now + 1 + elapsed);
  }

  function Copies(m: Send, n: nat): seq<Send> {
    if n == 0 then [] else [m] + Copies(m, n - 1)
  }

  lemma {:induction false} CopiesBounce(m: Send, n: nat, org: Org, from: int)
    requires m.org == Some(org) && from <= m.at && m.bounced
    ensures var c := Copies(m, n);
            |c| == n && Bounced(c) == n && Since(c, org, from) == c && forall x | x in c :: x == m
    decreases n
  {
    if n > 0 {
      CopiesBounce(m, n - 1, org, from);
      assert Copies(m, n)[1..] == Copies(m, n - 1);
    }
  }

  // Such a moment is reached from twenty bounced sends.
  lemma AboutToPause() returns (init: State, es: seq<Event>)
    ensures Init(init)
    ensures var s := Run(init, es);
            && 0 in s.evals && s.evals[0].pc.Pausing? && s.evals[0].rows != []
            && s.evals[0].rows[0].org in s.tenants
  {
    var m := Send(Some("a"), 0, true, false);
    CopiesBounce(m, 20, "a", -WINDOW);
    init := State(0, Copies(m, 20), map["a" := Tenant(false, None)], map[], []);
    es := [Query(0, ["a"]), Advance(0, true), Advance(0, true)];
    RunThree(init, es);
    var row := RowOf(init, "a");
    assert RowsOf(init, ["a"]) == [row] + RowsOf(init, ["a"][1..]) == [row];
    TwoSteps(Apply(init, es[0]), row);
  }

  lemma RunThree(s: State, es: seq<Event>)
    requires |es| == 3
    ensures Run(s, es) == Apply(Apply(Apply(s, es[0]), es[1]), es[2])
  {
    var one := Apply(s, es[0]);
    assert es[1..] == [es[1], es[2]] && es[1..][1..] == [es[2]] && [es[2]][1..] == [];
    assert Run(one, [es[1], es[2]]) == Run(Apply(one, es[1]), [es[2]]);
  }

  lemma TwoSteps(s: State, row: Row)
    requires 0 in s.evals && s.evals[0].rows == [row] && s.evals[0].pc.Looking?
    requires Breach(row).Some? && row.org in s.tenants && !s.tenants[row.org].paused
    ensures var t := Apply(Apply(s, Advance(0, true)), Advance(0, true));
            0 in t.evals && t.evals[0].pc.Pausing? && t.evals[0].rows == [row] && t.tenants == s.tenants
  {
  }
}
