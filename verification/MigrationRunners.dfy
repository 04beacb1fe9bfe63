// Any number of migration containers started against one database, interleaved
// statement by statement, each with the files of its own release, any of them
// killed or failing at any point of its apply loop.
module MigrationRunners {
  import opened Wrappers
  import opened TextOrder
  import opened Migrations

  type RunnerId = nat

  datatype Pc =
    | Waiting
    | Locked                                  // holds the advisory lock
    | Applying(i: nat, known: set<string>)    // about to look at corpus[i]
    | MidSql(i: nat, known: set<string>)      // CONCURRENTLY sql done, id not yet recorded
    | Releasing
    | Finished
    | Dead

  // covered: the ids baseline.sql of this release is marked through.
  datatype Runner = Runner(corpus: seq<string>, covered: seq<string>, pc: Pc)

  // effects: the migrations whose SQL is fully in the schema; executed: every
  // completed execution by an apply loop, in order.
  datatype State = State(
    lock: Option<RunnerId>,
    tracked: bool,
    sentinel: bool,
    recorded: set<string>,
    effects: set<string>,
    executed: seq<string>,
    concurrent: set<string>,
    runners: map<RunnerId, Runner>)

  datatype Event =
    | Acquire(r: RunnerId)
    | Boot(r: RunnerId)
    | BootStops(r: RunnerId, ran: bool, marked: nat)
    | Next(r: RunnerId)
    | SqlThrows(r: RunnerId)
    | Unlock(r: RunnerId)
    | Die(r: RunnerId)

  predicate Inside(pc: Pc) {
    pc.Locked? || pc.Applying? || pc.MidSql? || pc.Releasing?
  }

  function SetPc(s: State, r: RunnerId, pc: Pc): State
    requires r in s.runners
  {
    s.(runners := s.runners[r := s.runners[r].(pc := pc)])
  }

  // The bootstrap branch as one statement: backfill, baseline, or neither;
  // then the snapshot of the recorded ids.
  function Bootstrap(s: State, r: RunnerId): State
    requires r in s.runners
  {
    var me := s.runners[r];
    if s.tracked then SetPc(s, r, Applying(0, s.recorded))
    else if s.sentinel then
      SetPc(s.(tracked := true, recorded := Elements(me.corpus)), r, Releasing)
    else
      var ids := Elements(me.covered);
      SetPc(s.(tracked := true, sentinel := true, recorded := ids, effects := s.effects + ids), r, Applying(0, ids))
  }

  // The bootstrap branch cut short, by a kill or an error: the table exists,
  // the baseline may have run, the first few ids may be marked.
  function StopBootstrap(s: State, r: RunnerId, ran: bool, marked: nat): State
    requires r in s.runners
  {
    var me := s.runners[r];
    var ids := if s.sentinel then me.corpus else me.covered;
    var some := if marked <= |ids| then ids[..marked] else ids;
    var s1 :=
      if s.tracked then s
      else if s.sentinel then s.(tracked := true, recorded := Elements(some))
      else if ran then
        s.(tracked := true, sentinel := true, recorded := Elements(some), effects := s.effects + Elements(ids))
      else s.(tracked := true);
    SetPc(s1.(lock := None), r, Dead)
  }

  function Advance(s: State, r: RunnerId): State
    requires r in s.runners
  {
    var me := s.runners[r];
    match me.pc
    case Applying(i, known) =>
      if i >= |me.corpus| then SetPc(s, r, Releasing)
      else
        var id := me.corpus[i];
        if id in known then SetPc(s, r, Applying(i + 1, known))
        else if id in s.concurrent then
          SetPc(s.(effects := s.effects + {id}, executed := s.executed + [id]), r, MidSql(i, known))
        else
          SetPc(s.(effects := s.effects + {id}, executed := s.executed + [id], recorded := s.recorded + {id}),
                r, Applying(i + 1, known))
    case MidSql(i, known) =>
      if i >= |me.corpus| then s
      else SetPc(s.(recorded := s.recorded + {me.corpus[i]}), r, Applying(i + 1, known))
    case _ => s
  }

  function Apply(s: State, e: Event): State {
    if e.r !in s.runners then s
    else
      var pc := s.runners[e.r].pc;
      match e
      case Acquire(r) => if pc.Waiting? && s.lock.None? then SetPc(s.(lock := Some(r)), r, Locked) else s
      case Boot(r) => if pc.Locked? then Bootstrap(s, r) else s
      case BootStops(r, ran, marked) => if pc.Locked? then StopBootstrap(s, r, ran, marked) else s
      case Next(r) => Advance(s, r)
      case SqlThrows(r) => if pc.Applying? || pc.MidSql? then SetPc(s, r, Releasing) else s
      case Unlock(r) => if pc.Releasing? then SetPc(s.(lock := None), r, Finished) else s
      case Die(r) =>
        // the session ends and with it the session-level lock
        if pc.Finished? then s
        else SetPc(if s.lock == Some(r) then s.(lock := None) else s, r, Dead)
  }

  function Run(s: State, es: seq<Event>): State
    decreases |es|
  {
    if es == [] then s else Run(Apply(s, es[0]), es[1..])
  }

  // Any database, and runners that have not begun. Nothing is recorded before
  // the table exists.
  ghost predicate Init(s: State) {
    && s.lock.None? && s.executed == []
    && (!s.tracked ==> s.recorded == {})
    && forall r | r in s.runners :: s.runners[r].pc.Waiting? && Distinct(s.runners[r].corpus)
  }

  // ---- what every run keeps, wherever runners are stopped ------------------

  ghost predicate RunnerOk(s: State, r: RunnerId)
    requires r in s.runners
  {
    var me := s.runners[r];
    && Distinct(me.corpus)
    && (Inside(me.pc) <==> s.lock == Some(r))
    && (me.pc.Applying? ==>
          s.tracked && me.pc.i <= |me.corpus| && s.recorded == me.pc.known + Elements(me.corpus[..me.pc.i]))
    && (me.pc.MidSql? ==>
          && s.tracked && me.pc.i < |me.corpus| && s.recorded == me.pc.known + Elements(me.corpus[..me.pc.i])
          && me.corpus[me.pc.i] in s.concurrent && me.corpus[me.pc.i] !in me.pc.known && me.corpus[me.pc.i] in s.effects
          && s.executed != [] && s.executed[|s.executed| - 1] == me.corpus[me.pc.i])
  }

  // No transactional migration is ever executed a second time, and one that has
  // been executed is recorded.
  ghost predicate TransactionalOnce(s: State) {
    && (forall i, j :: 0 <= i < j < |s.executed| && s.executed[i] !in s.concurrent ==> s.executed[i] != s.executed[j])
    && (forall id | id in s.executed && id !in s.concurrent :: id in s.recorded)
  }

  ghost predicate Inv(s: State) {
    && (!s.tracked ==> s.recorded == {} && s.executed == [])
    && (forall r | r in s.runners :: RunnerOk(s, r))
    && TransactionalOnce(s)
  }

  lemma InitInv(s: State)
    requires Init(s)
    ensures Inv(s)
  {
  }

  lemma NotYetRecorded(s: State, r: RunnerId)
    requires Inv(s) && r in s.runners && (s.runners[r].pc.Applying? || s.runners[r].pc.MidSql?)
    requires s.runners[r].pc.i < |s.runners[r].corpus|
    requires s.runners[r].corpus[s.runners[r].pc.i] !in s.runners[r].pc.known
    ensures s.runners[r].corpus[s.runners[r].pc.i] !in s.recorded
  {
    assert RunnerOk(s, r);
  }

  lemma NextElement(ids: seq<string>, i: nat)
    requires i < |ids|
    ensures Elements(ids[..i + 1]) == Elements(ids[..i]) + {ids[i]}
  {
  }

  // Only the lock holder moved; the others keep what they had.
  lemma OthersOk(s: State, s': State, r: RunnerId)
    requires Inv(s) && r in s.runners && s'.runners.Keys == s.runners.Keys
    requires s'.concurrent == s.concurrent
    requires forall q | q in s.runners && q != r :: s'.runners[q] == s.runners[q]
    requires s.lock == Some(r) && (s'.lock == Some(r) || s'.lock.None?)
    ensures forall q | q in s'.runners && q != r :: RunnerOk(s', q)
  {
    assert RunnerOk(s, r);
    forall q | q in s'.runners && q != r ensures RunnerOk(s', q) {
      assert RunnerOk(s, q);
    }
  }

  lemma BootInv(s: State, r: RunnerId)
    requires Inv(s) && r in s.runners && s.runners[r].pc.Locked?
    ensures Inv(Bootstrap(s, r))
  {
    assert RunnerOk(s, r);
    OthersOk(s, Bootstrap(s, r), r);
    assert s.runners[r].corpus[..0] == [];
  }

  lemma StopInv(s: State, r: RunnerId, ran: bool, marked: nat)
    requires Inv(s) && r in s.runners && s.runners[r].pc.Locked?
    ensures Inv(StopBootstrap(s, r, ran, marked))
  {
    assert RunnerOk(s, r);
    OthersOk(s, StopBootstrap(s, r, ran, marked), r);
  }

  // A migration that is not recorded has not been executed as a transaction.
  lemma OneMoreExecution(s: State, s': State, id: string)
    requires TransactionalOnce(s) && id !in s.recorded && s'.concurrent == s.concurrent
    requires s'.executed == s.executed + [id]
    requires s'.recorded == if id in s.concurrent then s.recorded else s.recorded + {id}
    ensures TransactionalOnce(s')
  {
    forall i, j | 0 <= i < j < |s'.executed| && s'.executed[i] !in s.concurrent
      ensures s'.executed[i] != s'.executed[j]
    {
      assert s'.executed[i] == s.executed[i] && s.executed[i] in s.executed;
    }
  }

  lemma AdvanceOnce(s: State, r: RunnerId)
    requires Inv(s) && r in s.runners && (s.runners[r].pc.Applying? || s.runners[r].pc.MidSql?)
    ensures TransactionalOnce(Advance(s, r))
  {
    var me := s.runners[r];
    if me.pc.Applying? && me.pc.i < |me.corpus| && me.corpus[me.pc.i] !in me.pc.known {
      NotYetRecorded(s, r);
      OneMoreExecution(s, Advance(s, r), me.corpus[me.pc.i]);
    }
  }

  lemma AdvanceRunner(s: State, r: RunnerId)
    requires Inv(s) && r in s.runners && (s.runners[r].pc.Applying? || s.runners[r].pc.MidSql?)
    ensures RunnerOk(Advance(s, r), r)
  {
    var me := s.runners[r];
    assert RunnerOk(s, r);
    if me.pc.i < |me.corpus| { NextElement(me.corpus, me.pc.i); }
  }

  lemma AdvanceInv(s: State, r: RunnerId)
    requires Inv(s) && r in s.runners && (s.runners[r].pc.Applying? || s.runners[r].pc.MidSql?)
    ensures Inv(Advance(s, r))
  {
    assert RunnerOk(s, r);
    AdvanceRunner(s, r);
    AdvanceOnce(s, r);
    AdvanceFrame(s, r);
    OthersOk(s, Advance(s, r), r);
  }

  lemma AdvanceFrame(s: State, r: RunnerId)
    requires r in s.runners
    ensures var s' := Advance(s, r);
            && s'.runners.Keys == s.runners.Keys && s'.concurrent == s.concurrent && s'.tracked == s.tracked
            && s'.lock == s.lock
            && forall q | q in s.runners && q != r :: s'.runners[q] == s.runners[q]
  {
  }

  // A step that changes nothing but the lock and a program counter.
  lemma LockInv(s: State, r: RunnerId, lock: Option<RunnerId>, pc: Pc)
    requires Inv(s) && r in s.runners && !pc.Applying? && !pc.MidSql?
    requires Inside(pc) <==> lock == Some(r)
    requires lock == s.lock || (s.lock == Some(r) && lock.None?) || (s.lock.None? && lock == Some(r))
    ensures Inv(SetPc(s.(lock := lock), r, pc))
  {
    var s' := SetPc(s.(lock := lock), r, pc);
    forall q | q in s'.runners ensures RunnerOk(s', q) {
      assert RunnerOk(s, q);
    }
  }

  lemma ApplyInv(s: State, e: Event)
    requires Inv(s)
    ensures Inv(Apply(s, e))
  {
    if e.r in s.runners {
      var r := e.r;
      var pc := s.runners[r].pc;
      assert RunnerOk(s, r) && s.(lock := s.lock) == s;
      match e
      case Boot(_) => if pc.Locked? { BootInv(s, r); }
      case BootStops(_, ran, marked) => if pc.Locked? { StopInv(s, r, ran, marked); }
      case Next(_) => if pc.Applying? || pc.MidSql? { AdvanceInv(s, r); }
      case Acquire(_) => if pc.Waiting? && s.lock.None? { LockInv(s, r, Some(r), Locked); }
      case Die(_) => if !pc.Finished? { LockInv(s, r, if s.lock == Some(r) then None else s.lock, Dead); }
      case SqlThrows(_) => if pc.Applying? || pc.MidSql? { LockInv(s, r, s.lock, Releasing); }
      case Unlock(_) => if pc.Releasing? { LockInv(s, r, None, Finished); }
    }
  }

  lemma {:induction false} RunInv(s: State, es: seq<Event>)
    requires Inv(s)
    ensures Inv(Run(s, es))
    decreases |es|
  {
    if es != [] {
      ApplyInv(s, es[0]);
      RunInv(Apply(s, es[0]), es[1..]);
    }
  }

  // At most one runner is ever between lock and unlock.
  lemma MutualExclusion(init: State, es: seq<Event>, q: RunnerId, r: RunnerId)
    requires Init(init)
    requires var s := Run(init, es);
             q in s.runners && r in s.runners && Inside(s.runners[q].pc) && Inside(s.runners[r].pc)
    ensures q == r && Run(init, es).lock == Some(r)
  {
    InitInv(init);
    RunInv(init, es);
    assert RunnerOk(Run(init, es), q) && RunnerOk(Run(init, es), r);
  }

  // The marker INSERT of the apply loop never meets a row that is already there.
  lemma InsertNeverConflicts(init: State, es: seq<Event>, r: RunnerId)
    requires Init(init)
    requires var s := Run(init, es);
             r in s.runners && (s.runners[r].pc.Applying? || s.runners[r].pc.MidSql?)
             && s.runners[r].pc.i < |s.runners[r].corpus|
    ensures var s := Run(init, es);
            var id := s.runners[r].corpus[s.runners[r].pc.i];
            id !in s.runners[r].pc.known ==> id !in s.recorded
  {
    InitInv(init);
    RunInv(init, es);
    var s := Run(init, es);
    if s.runners[r].corpus[s.runners[r].pc.i] !in s.runners[r].pc.known { NotYetRecorded(s, r); }
  }

  // No transactional migration is executed twice by apply loops.
  lemma NothingTransactionalTwice(init: State, es: seq<Event>)
    requires Init(init)
    ensures TransactionalOnce(Run(init, es))
  {
    InitInv(init);
    RunInv(init, es);
  }

  // ---- effects and records agree, exactly when -----------------------------

  // A tracked database has its base schema, nothing is recorded that is not in
  // effect, and a transactional migration is in effect exactly when recorded.
  ghost predicate EffectsMatchRecords(s: State) {
    && (s.tracked ==>
          && s.sentinel
          && s.recorded <= s.effects
          && forall id | id in s.effects && id !in s.concurrent :: id in s.recorded)
    && (!s.tracked ==> s.recorded == {} && (!s.sentinel ==> s.effects == {}))
  }

  // The ids a bootstrap that is stopped has marked by then.
  function MarkedBy(s: State, r: RunnerId, marked: nat): set<string>
    requires r in s.runners
  {
    var ids := if s.sentinel then s.runners[r].corpus else s.runners[r].covered;
    Elements(if marked <= |ids| then ids[..marked] else ids)
  }

  // Marks are true of a schema: what they name is in effect, and no
  // transactional effect goes unnamed.
  predicate TrueMarks(marks: set<string>, effects: set<string>, concurrent: set<string>) {
    marks <= effects && forall id | id in effects && id !in concurrent :: id in marks
  }

  // A backfill marks what its database holds; a bootstrap that is stopped has
  // its base schema and has marked every transactional id by then.
  ghost predicate SoundBoot(s: State, e: Event) {
    e.r in s.runners && s.runners[e.r].pc.Locked? && !s.tracked ==>
      match e
      case Boot(r) => s.sentinel ==> TrueMarks(Elements(s.runners[r].corpus), s.effects, s.concurrent)
      case BootStops(r, ran, marked) =>
        if s.sentinel then TrueMarks(MarkedBy(s, r, marked), s.effects, s.concurrent)
        else ran && TrueMarks(MarkedBy(s, r, marked), Elements(s.runners[r].covered), s.concurrent)
      case _ => true
  }

  ghost predicate SoundBoots(s: State, es: seq<Event>)
    decreases |es|
  {
    es == [] || (SoundBoot(s, es[0]) && SoundBoots(Apply(s, es[0]), es[1..]))
  }

  // At every point of the run.
  ghost predicate AlwaysMatch(s: State, es: seq<Event>)
    decreases |es|
  {
    EffectsMatchRecords(s) && (es == [] || AlwaysMatch(Apply(s, es[0]), es[1..]))
  }

  lemma BootMatches(s: State, r: RunnerId)
    requires Inv(s) && EffectsMatchRecords(s) && r in s.runners && s.runners[r].pc.Locked?
    ensures EffectsMatchRecords(Bootstrap(s, r)) <==> SoundBoot(s, Boot(r))
  {
  }

  lemma StopMatches(s: State, r: RunnerId, ran: bool, marked: nat)
    requires Inv(s) && EffectsMatchRecords(s) && r in s.runners && s.runners[r].pc.Locked?
    ensures EffectsMatchRecords(StopBootstrap(s, r, ran, marked)) <==> SoundBoot(s, BootStops(r, ran, marked))
  {
  }

  lemma StepMatches(s: State, e: Event)
    requires Inv(s) && EffectsMatchRecords(s)
    ensures EffectsMatchRecords(Apply(s, e)) <==> SoundBoot(s, e)
  {
    if e.r in s.runners {
      assert RunnerOk(s, e.r);
      if s.runners[e.r].pc.Locked? {
        if e.Boot? { BootMatches(s, e.r); }
        if e.BootStops? { StopMatches(s, e.r, e.ran, e.marked); }
      }
    }
  }

  lemma {:induction false} AlwaysMatchExactlyWhen(s: State, es: seq<Event>)
    requires Inv(s) && EffectsMatchRecords(s)
    ensures AlwaysMatch(s, es) <==> SoundBoots(s, es)
    ensures SoundBoots(s, es) ==> EffectsMatchRecords(Run(s, es))
    decreases |es|
  {
    if es != [] {
      StepMatches(s, es[0]);
      ApplyInv(s, es[0]);
      if SoundBoot(s, es[0]) { AlwaysMatchExactlyWhen(Apply(s, es[0]), es[1..]); }
    }
  }

  // Over every interleaving, kill and error, effects and records agree at every
  // point exactly when each backfill, and each bootstrap stopped on the way, left
  // true marks.
  lemma EffectsFollowRecords(init: State, es: seq<Event>)
    requires Init(init) && EffectsMatchRecords(init)
    ensures AlwaysMatch(init, es) <==> SoundBoots(init, es)
    ensures SoundBoots(init, es) ==> EffectsMatchRecords(Run(init, es))
  {
    InitInv(init);
    AlwaysMatchExactlyWhen(init, es);
  }

  // Where the script knows its database, a bootstrap that stops early leaves true
  // marks exactly when every id still to be marked is CONCURRENTLY and, on an
  // empty database, the baseline had run. The table it leaves behind hides the
  // branch from every later run.
  lemma StoppedBootstrapExactlyWhen(s: State, r: RunnerId, ran: bool, marked: nat)
    requires Inv(s) && r in s.runners && s.runners[r].pc.Locked? && !s.tracked
    requires Distinct(s.runners[r].covered)
    requires s.effects == if s.sentinel then Elements(s.runners[r].corpus) else {}
    ensures var ids := if s.sentinel then s.runners[r].corpus else s.runners[r].covered;
            && (EffectsMatchRecords(StopBootstrap(s, r, ran, marked)) <==>
                  (s.sentinel || ran) && forall i :: marked <= i < |ids| ==> ids[i] in s.concurrent)
  {
    assert RunnerOk(s, r);
    var ids := if s.sentinel then s.runners[r].corpus else s.runners[r].covered;
    StopMatches(s, r, ran, marked);
    MarksOfPrefix(ids, marked, s.concurrent);
  }

  lemma MarksOfPrefix(ids: seq<string>, marked: nat, concurrent: set<string>)
    requires Distinct(ids)
    ensures TrueMarks(Elements(if marked <= |ids| then ids[..marked] else ids), Elements(ids), concurrent) <==>
            forall i :: marked <= i < |ids| ==> ids[i] in concurrent
  {
    if marked <= |ids| {
      forall i | 0 <= i < |ids| ensures ids[i] in Elements(ids[..marked]) <==> i < marked {
        ElementOfPrefix(ids, i, marked);
      }
    }
  }

  // A backfill killed after the first of two ids: the second is in effect and
  // unrecorded, and the next runner executes it again.
  lemma StoppedBackfillRepeats() returns (init: State, es: seq<Event>)
    ensures Init(init) && EffectsMatchRecords(init) && init.effects == {"a", "b"} && init.concurrent == {}
    ensures var s := Run(init, es); s.executed == ["b"] && !SoundBoots(init, es)
  {
    var idle := Runner(["a", "b"], [], Waiting);
    init := State(None, false, true, {}, {"a", "b"}, [], {}, map[0 := idle, 1 := idle]);
    es := [Acquire(0), BootStops(0, false, 1), Acquire(1), Boot(1), Next(1), Next(1)];
    HalfMarkedUnsound(init, es);
    RunSix(init, es);
    var s2 := HalfMarked(init);
    SecondRunner(s2);
  }

  lemma HalfMarkedUnsound(init: State, es: seq<Event>)
    requires 0 in init.runners && init.runners[0] == Runner(["a", "b"], [], Waiting) && "b" in init.effects
    requires init.lock.None? && init.sentinel && !init.tracked && init.concurrent == {}
    requires |es| > 1 && es[0] == Acquire(0) && es[1] == BootStops(0, false, 1)
    ensures !SoundBoots(init, es)
  {
    var s1 := Apply(init, es[0]);
    assert MarkedBy(s1, 0, 1) == {"a"};
    assert es[1..][0] == es[1] && !SoundBoot(s1, es[1]);
  }

  lemma RunSix(s: State, es: seq<Event>)
    requires |es| == 6
    ensures Run(s, es) == Apply(Apply(Apply(Apply(Apply(Apply(s, es[0]), es[1]), es[2]), es[3]), es[4]), es[5])
  {
    var s1 := RunFrom(s, es, 0);
    var s2 := RunFrom(s1, es, 1);
    var s3 := RunFrom(s2, es, 2);
    var s4 := RunFrom(s3, es, 3);
    var s5 := RunFrom(s4, es, 4);
    var s6 := RunFrom(s5, es, 5);
    assert es[0..] == es && es[6..] == [];
  }

  lemma RunFrom(s: State, es: seq<Event>, i: nat) returns (t: State)
    requires i < |es|
    ensures t == Apply(s, es[i]) && Run(s, es[i..]) == Run(t, es[i + 1..])
  {
    t := Apply(s, es[i]);
    assert es[i..][1..] == es[i + 1..];
  }

  lemma HalfMarked(init: State) returns (s: State)
    requires 0 in init.runners && 1 in init.runners
    requires init.runners[0] == init.runners[1] == Runner(["a", "b"], [], Waiting)
    requires init.lock.None? && init.sentinel && !init.tracked && init.executed == [] && init.concurrent == {}
    ensures s == Apply(Apply(init, Acquire(0)), BootStops(0, false, 1))
    ensures s.lock.None? && s.tracked && s.recorded == {"a"} && s.executed == [] && s.concurrent == {}
    ensures 1 in s.runners && s.runners[1] == init.runners[1]
  {
    s := Apply(Apply(init, Acquire(0)), BootStops(0, false, 1));
    assert ["a", "b"][..1] == ["a"] && Elements(["a"]) == {"a"};
  }

  lemma SecondRunner(s: State)
    requires s.lock.None? && s.tracked && s.recorded == {"a"} && s.executed == [] && s.concurrent == {}
    requires 1 in s.runners && s.runners[1] == Runner(["a", "b"], [], Waiting)
    ensures Apply(Apply(Apply(Apply(s, Acquire(1)), Boot(1)), Next(1)), Next(1)).executed == ["b"]
  {
    var s2 := Apply(Apply(s, Acquire(1)), Boot(1));
    assert s2.runners[1].pc == Applying(0, {"a"});
    var s3 := Apply(s2, Next(1));
    assert s3.runners[1].pc == Applying(1, {"a"}) && s3.executed == [];
  }

  // ---- corpora that only grow at the end ----------------------------------

  // Every release's corpus is a leading part of one growing list, and so is
  // what its baseline covers.
  ghost predicate Growing(s: State, all: seq<string>) {
    && Distinct(all)
    && forall r | r in s.runners :: s.runners[r].corpus <= all && s.runners[r].covered <= s.runners[r].corpus
  }

  // The recorded ids are the first k.
  ghost predicate PrefixAt(s: State, all: seq<string>, k: nat) {
    k <= |all| && s.recorded == Elements(all[..k])
  }

  // Executions went through the list in order; only a CONCURRENTLY migration
  // is ever repeated, and only directly after itself.
  ghost predicate InOrder(executed: seq<string>, all: seq<string>, concurrent: set<string>) {
    forall j :: 0 < j < |executed| ==>
      exists m ::
        && 0 <= m < |all| && executed[j] == all[m]
        && ((m > 0 && executed[j - 1] == all[m - 1]) || (executed[j - 1] == all[m] && all[m] in concurrent))
  }

  // The last execution is that of the last recorded id, or of the next one when
  // that is CONCURRENTLY.
  ghost predicate LastIsNewest(s: State, all: seq<string>, k: nat) {
    s.executed != [] ==>
      var last := s.executed[|s.executed| - 1];
      (0 < k <= |all| && last == all[k - 1]) || (k < |all| && last == all[k] && last in s.concurrent)
  }

  ghost predicate GrownTo(s: State, all: seq<string>, k: nat) {
    PrefixAt(s, all, k) && LastIsNewest(s, all, k) && InOrder(s.executed, all, s.concurrent)
  }

  ghost predicate GrowInv(s: State, all: seq<string>) {
    && Growing(s, all)
    && (s.tracked ==> exists k: nat :: GrownTo(s, all, k))
  }

  lemma ElementOfPrefix(all: seq<string>, i: nat, k: nat)
    requires Distinct(all) && i < |all| && k <= |all|
    ensures all[i] in Elements(all[..k]) <==> i < k
  {
  }

  // The holder is about to execute corpus[i]: then i is the first unrecorded place.
  lemma FirstUnrecorded(s: State, all: seq<string>, r: RunnerId, k: nat)
    requires Inv(s) && Growing(s, all) && PrefixAt(s, all, k) && r in s.runners
    requires s.runners[r].pc.Applying? || s.runners[r].pc.MidSql?
    requires s.runners[r].pc.i < |s.runners[r].corpus|
    requires s.runners[r].corpus[s.runners[r].pc.i] !in s.runners[r].pc.known
    ensures s.runners[r].pc.i == k && k < |all| && s.runners[r].corpus[s.runners[r].pc.i] == all[k]
  {
    var me := s.runners[r];
    var i := me.pc.i;
    assert RunnerOk(s, r);
    NotYetRecorded(s, r);
    assert me.corpus[i] == all[i];
    ElementOfPrefix(all, i, k);
    if i > k {
      assert me.corpus[..i][k] == all[k];
      assert all[k] in s.recorded;
      ElementOfPrefix(all, k, k);
    }
  }

  lemma ExecutedGrows(executed: seq<string>, all: seq<string>, concurrent: set<string>, m: nat)
    requires InOrder(executed, all, concurrent) && m < |all|
    requires executed != [] ==>
               var last := executed[|executed| - 1];
               (m > 0 && last == all[m - 1]) || (last == all[m] && all[m] in concurrent)
    ensures InOrder(executed + [all[m]], all, concurrent)
  {
    var longer := executed + [all[m]];
    forall j | 0 < j < |longer|
      ensures exists n ::
        && 0 <= n < |all| && longer[j] == all[n]
        && ((n > 0 && longer[j - 1] == all[n - 1]) || (longer[j - 1] == all[n] && all[n] in concurrent))
    {
      if j == |executed| {
        assert longer[j] == all[m] && longer[j - 1] == executed[|executed| - 1];
      } else {
        assert longer[j] == executed[j] && longer[j - 1] == executed[j - 1];
      }
    }
  }

  lemma ExecuteGrown(s: State, s': State, all: seq<string>, k: nat)
    requires GrownTo(s, all, k) && k < |all|
    requires s'.concurrent == s.concurrent && s'.executed == s.executed + [all[k]]
    requires s'.recorded == if all[k] in s.concurrent then s.recorded else s.recorded + {all[k]}
    ensures GrownTo(s', all, if all[k] in s.concurrent then k else k + 1)
  {
    NextElement(all, k);
    ExecutedGrows(s.executed, all, s.concurrent, k);
  }

  lemma RecordGrown(s: State, s': State, all: seq<string>, k: nat)
    requires GrownTo(s, all, k) && k < |all|
    requires s.executed != [] && s.executed[|s.executed| - 1] == all[k]
    requires s'.concurrent == s.concurrent && s'.executed == s.executed && s'.recorded == s.recorded + {all[k]}
    ensures GrownTo(s', all, k + 1)
  {
    NextElement(all, k);
  }

  lemma ExecuteGrow(s: State, all: seq<string>, r: RunnerId)
    requires Inv(s) && GrowInv(s, all) && r in s.runners
    requires s.runners[r].pc.Applying? || s.runners[r].pc.MidSql?
    requires s.runners[r].pc.i < |s.runners[r].corpus|
    requires s.runners[r].corpus[s.runners[r].pc.i] !in s.runners[r].pc.known
    ensures GrowInv(Advance(s, r), all)
  {
    assert RunnerOk(s, r);
    var k: nat :| GrownTo(s, all, k);
    FirstUnrecorded(s, all, r, k);
    var s' := Advance(s, r);
    AdvanceKeepsFiles(s, r);
    assert Growing(s', all);
    if s.runners[r].pc.Applying? {
      ExecuteGrown(s, s', all, k);
    } else {
      RecordGrown(s, s', all, k);
    }
  }

  // A bootstrap on an untracked database, complete or not, records a leading part.
  lemma FirstMarksGrow(s: State, s': State, all: seq<string>, ids: seq<string>)
    requires Inv(s) && Growing(s, all) && !s.tracked && ids <= all
    requires s'.recorded == Elements(ids) && s'.executed == s.executed && s'.concurrent == s.concurrent
    requires Growing(s', all)
    ensures GrowInv(s', all)
  {
    assert ids == all[..|ids|];
    assert GrownTo(s', all, |ids|);
  }

  lemma UntouchedGrow(s: State, s': State, all: seq<string>)
    requires GrowInv(s, all) && Growing(s', all)
    requires s'.recorded == s.recorded && s'.executed == s.executed
    requires s'.concurrent == s.concurrent && s'.tracked == s.tracked
    ensures GrowInv(s', all)
  {
    if s.tracked {
      var k: nat :| GrownTo(s, all, k);
      assert GrownTo(s', all, k);
    }
  }

  // No event changes the files of a runner.
  ghost predicate SameFiles(s: State, s': State) {
    && s'.runners.Keys == s.runners.Keys
    && forall r | r in s.runners ::
         s'.runners[r].corpus == s.runners[r].corpus && s'.runners[r].covered == s.runners[r].covered
  }

  lemma AdvanceKeepsFiles(s: State, r: RunnerId)
    requires r in s.runners
    ensures SameFiles(s, Advance(s, r))
  {
  }

  lemma StaysGrowing(s: State, all: seq<string>, e: Event)
    requires Growing(s, all)
    ensures Growing(Apply(s, e), all)
  {
    if e.Next? && e.r in s.runners { AdvanceKeepsFiles(s, e.r); }
    assert SameFiles(s, Apply(s, e));
  }

  lemma BootGrow(s: State, all: seq<string>, e: Event)
    requires Inv(s) && GrowInv(s, all) && (e.Boot? || e.BootStops?)
    requires e.r in s.runners && s.runners[e.r].pc.Locked? && !s.tracked
    ensures GrowInv(Apply(s, e), all)
  {
    var me := s.runners[e.r];
    var ids := if s.sentinel then me.corpus else me.covered;
    StaysGrowing(s, all, e);
    if e.Boot? {
      FirstMarksGrow(s, Apply(s, e), all, ids);
    } else {
      var some := if !s.sentinel && !e.ran then [] else if e.marked <= |ids| then ids[..e.marked] else ids;
      assert some <= all;
      FirstMarksGrow(s, Apply(s, e), all, some);
    }
  }

  lemma ApplyGrow(s: State, all: seq<string>, e: Event)
    requires Inv(s) && GrowInv(s, all)
    ensures GrowInv(Apply(s, e), all)
  {
    StaysGrowing(s, all, e);
    if e.r !in s.runners {
    } else if (e.Boot? || e.BootStops?) && s.runners[e.r].pc.Locked? && !s.tracked {
      BootGrow(s, all, e);
    } else {
      var me := s.runners[e.r];
      assert RunnerOk(s, e.r);
      if e.Next? && (me.pc.Applying? || me.pc.MidSql?) && me.pc.i < |me.corpus| && me.corpus[me.pc.i] !in me.pc.known {
        ExecuteGrow(s, all, e.r);
      } else {
        UntouchedGrow(s, Apply(s, e), all);
      }
    }
  }

  lemma {:induction false} RunGrow(s: State, all: seq<string>, es: seq<Event>)
    requires Inv(s) && GrowInv(s, all)
    ensures GrowInv(Run(s, es), all)
    decreases |es|
  {
    if es != [] {
      ApplyInv(s, es[0]);
      ApplyGrow(s, all, es[0]);
      RunGrow(Apply(s, es[0]), all, es[1..]);
    }
  }

  // The recorded ids are always a leading part of the corpus, whatever the
  // releases, the interleaving and the kills, inside bootstrap too; executions
  // follow its order.
  lemma RecordedIsAPrefix(init: State, all: seq<string>, es: seq<Event>)
    requires Init(init) && Growing(init, all)
    requires init.tracked ==> exists k: nat :: PrefixAt(init, all, k)
    ensures var s := Run(init, es);
            && (s.tracked ==> exists k: nat :: PrefixAt(s, all, k))
            && InOrder(s.executed, all, s.concurrent)
  {
    InitInv(init);
    if init.tracked {
      var k: nat :| PrefixAt(init, all, k);
      assert GrownTo(init, all, k);
    }
    RunGrow(init, all, es);
    RunInv(init, es);
    if Run(init, es).tracked {
      var k: nat :| GrownTo(Run(init, es), all, k);
    }
  }

  // ---- one runner left alone -----------------------------------------------

  ghost function Alone(s: State, r: RunnerId, n: nat): State
    decreases n
  {
    if n == 0 then s else Alone(Apply(s, Next(r)), r, n - 1)
  }

  lemma {:induction false} AloneIdles(s: State, r: RunnerId, n: nat)
    requires r in s.runners && s.runners[r].pc.Releasing?
    ensures Alone(s, r, n) == s
    decreases n
  {
    if n > 0 {
      AloneIdles(s, r, n - 1);
    }
  }

  // The pending ids in effect, recorded and executed.
  function Caught(s: State, pending: seq<string>): State {
    s.(effects := s.effects + Elements(pending),
       recorded := s.recorded + Elements(pending),
       executed := s.executed + pending)
  }

  // The pending part of one id.
  function PendingOf(id: string, known: set<string>): seq<string> {
    if id in known then [] else [id]
  }

  // One id takes one step, or two when it is CONCURRENTLY.
  lemma OneId(s: State, r: RunnerId, i: nat, known: set<string>)
    requires r in s.runners && s.runners[r].pc == Applying(i, known) && i < |s.runners[r].corpus|
    ensures var id := s.runners[r].corpus[i];
            var s1 := Apply(s, Next(r));
            var t := SetPc(Caught(s, PendingOf(id, known)), r, Applying(i + 1, known));
            if id !in known && id in s.concurrent then Apply(s1, Next(r)) == t else s1 == t
  {
    assert Caught(s, []) == s;
  }

  // What is left to catch up with from place i on, all of it done.
  function AllDone(s: State, r: RunnerId, i: nat, known: set<string>): State
    requires r in s.runners && i <= |s.runners[r].corpus|
  {
    SetPc(Caught(s, Pending(s.runners[r].corpus[i..], known)), r, Releasing)
  }

  lemma CaughtTwice(s: State, r: RunnerId, pc: Pc, end: Pc, xs: seq<string>, ys: seq<string>)
    requires r in s.runners
    ensures SetPc(Caught(SetPc(Caught(s, xs), r, pc), ys), r, end) == SetPc(Caught(s, xs + ys), r, end)
  {
    assert Elements(xs + ys) == Elements(xs) + Elements(ys);
  }

  lemma PendingFrom(corpus: seq<string>, i: nat, known: set<string>)
    requires i < |corpus|
    ensures Pending(corpus[i..], known) == PendingOf(corpus[i], known) + Pending(corpus[i + 1..], known)
  {
    assert corpus[i..][1..] == corpus[i + 1..];
  }

  // After one id the same is left to be done.
  lemma AfterOneId(s: State, r: RunnerId, i: nat, known: set<string>, t: State)
    requires r in s.runners && i < |s.runners[r].corpus|
    requires t == SetPc(Caught(s, PendingOf(s.runners[r].corpus[i], known)), r, Applying(i + 1, known))
    ensures r in t.runners && t.runners[r].corpus == s.runners[r].corpus && t.runners[r].pc == Applying(i + 1, known)
    ensures AllDone(t, r, i + 1, known) == AllDone(s, r, i, known)
  {
    var corpus, first := s.runners[r].corpus, PendingOf(s.runners[r].corpus[i], known);
    CaughtTwice(s, r, Applying(i + 1, known), Releasing, first, Pending(corpus[i + 1..], known));
    PendingFrom(corpus, i, known);
  }

  lemma AloneOneId(s: State, r: RunnerId, n: nat, i: nat, known: set<string>) returns (t: State, m: nat)
    requires n >= 2 && r in s.runners && s.runners[r].pc == Applying(i, known) && i < |s.runners[r].corpus|
    ensures m <= 2 && Alone(s, r, n) == Alone(t, r, n - m)
    ensures r in t.runners && t.runners[r].corpus == s.runners[r].corpus && t.runners[r].pc == Applying(i + 1, known)
    ensures AllDone(t, r, i + 1, known) == AllDone(s, r, i, known)
  {
    var id := s.runners[r].corpus[i];
    OneId(s, r, i, known);
    t := SetPc(Caught(s, PendingOf(id, known)), r, Applying(i + 1, known));
    AfterOneId(s, r, i, known, t);
    m := if id !in known && id in s.concurrent then 2 else 1;
    AloneSteps(s, r, n, t, m);
  }

  lemma AloneSteps(s: State, r: RunnerId, n: nat, t: State, m: nat)
    requires 1 <= m <= 2 <= n
    requires t == if m == 2 then Apply(Apply(s, Next(r)), Next(r)) else Apply(s, Next(r))
    ensures Alone(s, r, n) == Alone(t, r, n - m)
  {
    var s1 := Apply(s, Next(r));
    assert Alone(s, r, n) == Alone(s1, r, n - 1);
    assert Alone(s1, r, n - 1) == Alone(Apply(s1, Next(r)), r, n - 2);
  }

  lemma AloneAtEnd(s: State, r: RunnerId, n: nat, i: nat, known: set<string>)
    requires n > 0 && r in s.runners && s.runners[r].pc == Applying(i, known) && i == |s.runners[r].corpus|
    ensures Alone(s, r, n) == AllDone(s, r, i, known)
  {
    assert s.runners[r].corpus[i..] == [] && Caught(s, []) == s;
    AloneIdles(SetPc(s, r, Releasing), r, n - 1);
  }

  lemma {:induction false} AloneCatchesUp(s: State, r: RunnerId, n: nat, i: nat, known: set<string>)
    requires r in s.runners && s.runners[r].pc == Applying(i, known) && i <= |s.runners[r].corpus|
    requires n > 2 * (|s.runners[r].corpus| - i)
    ensures Alone(s, r, n) == AllDone(s, r, i, known)
    decreases |s.runners[r].corpus| - i
  {
    if i == |s.runners[r].corpus| {
      AloneAtEnd(s, r, n, i, known);
    } else {
      var t, m := AloneOneId(s, r, n, i, known);
      AloneCatchesUp(t, r, n - m, i + 1, known);
    }
  }

  // A runner left alone does what the script does: it executes, in order, and
  // records exactly the pending ids of its corpus, and then gives up the lock.
  lemma AloneAppliesPending(s: State, r: RunnerId, n: nat, i: nat, known: set<string>)
    requires r in s.runners && s.runners[r].pc == Applying(i, known) && i <= |s.runners[r].corpus|
    requires n > 2 * (|s.runners[r].corpus| - i)
    ensures var t, pending := Apply(Alone(s, r, n), Unlock(r)), Pending(s.runners[r].corpus[i..], known);
            t == s.(lock := None,
                    effects := s.effects + Elements(pending),
                    recorded := s.recorded + Elements(pending),
                    executed := s.executed + pending,
                    runners := s.runners[r := s.runners[r].(pc := Finished)])
  {
    AloneCatchesUp(s, r, n, i, known);
  }

  // With the lock, and through the bootstrap branch.
  function Booted(s: State, r: RunnerId): State {
    Apply(Apply(s, Acquire(r)), Boot(r))
  }

  lemma BootedIs(s: State, r: RunnerId)
    requires r in s.runners && s.runners[r].pc.Waiting? && s.lock.None?
    ensures var me, t := s.runners[r], Booted(s, r);
            if s.tracked then
              t == s.(lock := Some(r), runners := s.runners[r := me.(pc := Applying(0, s.recorded))])
            else if s.sentinel then
              t == s.(lock := Some(r), tracked := true, recorded := Elements(me.corpus),
                      runners := s.runners[r := me.(pc := Releasing)])
            else
              t == s.(lock := Some(r), tracked := true, sentinel := true,
                      recorded := Elements(me.covered), effects := s.effects + Elements(me.covered),
                      runners := s.runners[r := me.(pc := Applying(0, Elements(me.covered)))])
  {
    assert Apply(s, Acquire(r)) == s.(lock := Some(r), runners := s.runners[r := s.runners[r].(pc := Locked)]);
  }

  lemma TrackedLife(s: State, r: RunnerId, n: nat)
    requires r in s.runners && s.runners[r].pc.Waiting? && s.lock.None? && n > 2 * |s.runners[r].corpus| && s.tracked
    ensures var me, pending := s.runners[r], Pending(s.runners[r].corpus, s.recorded);
            Apply(Alone(Booted(s, r), r, n), Unlock(r))
            == s.(effects := s.effects + Elements(pending),
                  recorded := s.recorded + Elements(me.corpus),
                  executed := s.executed + pending,
                  runners := s.runners[r := me.(pc := Finished)])
  {
    var corpus := s.runners[r].corpus;
    BootedIs(s, r);
    AloneAppliesPending(Booted(s, r), r, n, 0, s.recorded);
    AllRecorded(corpus, s.recorded);
  }

  lemma AllRecorded(corpus: seq<string>, known: set<string>)
    ensures known + Elements(Pending(corpus, known)) == known + Elements(corpus)
    ensures corpus[0..] == corpus
  {
    PendingPartitions(corpus, known);
  }

  lemma BackfillLife(s: State, r: RunnerId, n: nat)
    requires r in s.runners && s.runners[r].pc.Waiting? && s.lock.None? && !s.tracked && s.sentinel
    ensures var me := s.runners[r];
            Apply(Alone(Booted(s, r), r, n), Unlock(r))
            == s.(tracked := true,
                  recorded := Elements(me.corpus),
                  runners := s.runners[r := me.(pc := Finished)])
  {
    BootedIs(s, r);
    AloneIdles(Booted(s, r), r, n);
  }

  lemma FreshLife(s: State, r: RunnerId, n: nat)
    requires r in s.runners && s.runners[r].pc.Waiting? && s.lock.None? && n > 2 * |s.runners[r].corpus|
    requires !s.tracked && !s.sentinel
    ensures var me, covered := s.runners[r], Elements(s.runners[r].covered);
            var pending := Pending(me.corpus, covered);
            Apply(Alone(Booted(s, r), r, n), Unlock(r))
            == s.(tracked := true, sentinel := true,
                  effects := s.effects + covered + Elements(pending),
                  recorded := covered + Elements(me.corpus),
                  executed := s.executed + pending,
                  runners := s.runners[r := me.(pc := Finished)])
  {
    var corpus, covered := s.runners[r].corpus, Elements(s.runners[r].covered);
    BootedIs(s, r);
    AloneAppliesPending(Booted(s, r), r, n, 0, covered);
    AllRecorded(corpus, covered);
  }

  // From lock to unlock, in the three cases of the script. A tracked database gets
  // what is not recorded yet; one with a schema but no table is marked and nothing
  // is executed; an empty one gets the baseline and what that does not cover.
  lemma LifeOfARunner(s: State, r: RunnerId, n: nat)
    requires r in s.runners && s.runners[r].pc.Waiting? && s.lock.None? && n > 2 * |s.runners[r].corpus|
    ensures var me, t := s.runners[r], Apply(Alone(Booted(s, r), r, n), Unlock(r));
            var covered := if s.sentinel then {} else Elements(me.covered);
            var pending := if s.tracked then Pending(me.corpus, s.recorded)
                           else if s.sentinel then [] else Pending(me.corpus, covered);
            && t.lock.None? && t.tracked && t.concurrent == s.concurrent
            && t.runners == s.runners[r := me.(pc := Finished)]
            && t.executed == s.executed + pending
            && (s.tracked ==>
                  && t.recorded == s.recorded + Elements(me.corpus)
                  && t.effects == s.effects + Elements(pending) && t.sentinel == s.sentinel)
            && (!s.tracked ==>
                  && t.recorded == covered + Elements(me.corpus)
                  && t.effects == s.effects + covered + Elements(pending) && t.sentinel)
  {
    if s.tracked {
      TrackedLife(s, r, n);
    } else if s.sentinel {
      BackfillLife(s, r, n);
      assert s.executed + [] == s.executed;
    } else {
      FreshLife(s, r, n);
    }
  }

  // What a bootstrap leaves that is stopped, by a kill or an error, once it has the
  // lock: the table in any case; marks of the first few ids, of the corpus where
  // there was a schema, of the covered ones where the baseline has run.
  lemma StoppedBootstrapIs(s: State, r: RunnerId, ran: bool, marked: nat)
    requires r in s.runners && s.runners[r].pc.Locked?
    ensures var me, t := s.runners[r], Apply(s, BootStops(r, ran, marked));
            && t.lock.None? && t.tracked && t.runners == s.runners[r := me.(pc := Dead)]
            && t.executed == s.executed && t.concurrent == s.concurrent
            && (s.tracked ==> t.recorded == s.recorded && t.effects == s.effects && t.sentinel == s.sentinel)
            && (!s.tracked ==>
                  var ids := if s.sentinel then me.corpus else me.covered;
                  && (t.sentinel <==> s.sentinel || ran)
                  && t.effects == (if ran && !s.sentinel then s.effects + (set id | id in me.covered) else s.effects)
                  && (s.sentinel || ran ==> t.recorded == set i | 0 <= i < |ids| && i < marked :: ids[i])
                  && (!s.sentinel && !ran ==> t.recorded == s.recorded))
  {
    if !s.tracked && (s.sentinel || ran) {
      FirstIds(if s.sentinel then s.runners[r].corpus else s.runners[r].covered, marked);
    }
  }

  lemma FirstIds(ids: seq<string>, n: nat)
    ensures Elements(if n <= |ids| then ids[..n] else ids) == set i | 0 <= i < |ids| && i < n :: ids[i]
  {
    var some := if n <= |ids| then ids[..n] else ids;
    forall id | id in some ensures exists i :: 0 <= i < |ids| && i < n && ids[i] == id {
      var i :| 0 <= i < |some| && some[i] == id;
      assert ids[i] == id;
    }
    forall i | 0 <= i < |ids| && i < n ensures ids[i] in some {
      assert some[i] == ids[i];
    }
  }

  // The lock changes hands only through a release: it is taken where it is free,
  // by one that waits, and given up by the one that holds it.
  lemma LockMoves(s: State, e: Event, r: RunnerId)
    requires Inv(s) && r in s.runners
    ensures Apply(s, e).lock == Some(r) && s.lock != Some(r) <==>
            e == Acquire(r) && s.lock.None? && s.runners[r].pc.Waiting?
    ensures Apply(s, e).lock != Some(r) && s.lock == Some(r) <==>
            e.r == r && s.lock == Some(r) && ((e.Unlock? && s.runners[r].pc.Releasing?) || e.Die?
                                              || (e.BootStops? && s.runners[r].pc.Locked?))
    ensures e == Die(r) && !s.runners[r].pc.Finished? ==>
              Apply(s, e) == s.(lock := if s.lock == Some(r) then None else s.lock,
                                runners := s.runners[r := s.runners[r].(pc := Dead)])
    ensures e == SqlThrows(r) && (s.runners[r].pc.Applying? || s.runners[r].pc.MidSql?) ==>
              Apply(s, e) == s.(runners := s.runners[r := s.runners[r].(pc := Releasing)])
  {
    assert RunnerOk(s, r);
  }
}
