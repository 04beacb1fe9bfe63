// The assignment ladder: validation, the first rung, promotion rung by rung,
// and the sweep whose workers claim a due review, promote it and write it back.
module Ladder {
  import opened Wrappers

  const MIN_TRIGGER: int := 60            // seconds
  const CLAIM_TIMEOUT: int := 300_000     // milliseconds

  datatype Status = Pending | Active | Promoted

  datatype Step = Step(actor: string, trigger: int, status: Status)

  // ---- validateLadder ------------------------------------------------------

  // A client value: actor is None when not a string, trigger when not an integer.
  datatype RawStep = NotAnObject | Raw(actor: Option<string>, trigger: Option<int>)

  datatype Error =
    | InvalidLadder | InvalidStep | InvalidActor | InvalidTrigger | InvalidMonotonicity
    | NoLadder | InvalidIndex | LadderExhausted

  predicate WellFormedStep(step: RawStep) {
    && step.Raw?
    && step.actor.Some? && step.actor.value != ""
    && step.trigger.Some? && step.trigger.value >= MIN_TRIGGER
  }

  function Trigger(step: RawStep): int {
    if step.Raw? && step.trigger.Some? then step.trigger.value else 0
  }

  // What a ladder may look like.
  ghost predicate Valid(ladder: Option<seq<RawStep>>) {
    && ladder.Some? && ladder.value != []
    && (forall i | 0 <= i < |ladder.value| :: WellFormedStep(ladder.value[i]))
    && (forall i, j | 0 <= i < j < |ladder.value| :: Trigger(ladder.value[i]) < Trigger(ladder.value[j]))
  }

  // The error a step is refused with, all before it being in order.
  function StepError(steps: seq<RawStep>, i: nat): Option<Error>
    requires i < |steps|
  {
    var step := steps[i];
    if step.NotAnObject? then Some(InvalidStep)
    else if step.actor.None? || step.actor.value == "" then Some(InvalidActor)
    else if step.trigger.None? || step.trigger.value < MIN_TRIGGER then Some(InvalidTrigger)
    else if i > 0 && Trigger(step) <= Trigger(steps[i - 1]) then Some(InvalidMonotonicity)
    else None
  }

  // A ladder is valid when every step names an actor and a trigger of at least 60
  // seconds, and the triggers rise.
  lemma ValidIs(steps: seq<RawStep>)
    requires steps != []
    ensures Valid(Some(steps)) <==>
            && (forall i | 0 <= i < |steps| ::
                  && steps[i].Raw? && steps[i].actor.Some? && steps[i].actor.value != ""
                  && steps[i].trigger.Some? && steps[i].trigger.value >= 60)
            && (forall i, j | 0 <= i < j < |steps| ::
                  steps[i].Raw? && steps[j].Raw? && steps[i].trigger.Some? && steps[j].trigger.Some? ==>
                    steps[i].trigger.value < steps[j].trigger.value)
  {
    if Valid(Some(steps)) {
      assert forall i | 0 <= i < |steps| :: WellFormedStep(steps[i]);
      forall i, j | 0 <= i < j < |steps| ensures steps[i].trigger.value < steps[j].trigger.value {
        assert Trigger(steps[i]) < Trigger(steps[j]);
      }
    } else if forall i | 0 <= i < |steps| :: WellFormedStep(steps[i]) {
      var i, j :| 0 <= i < j < |steps| && !(Trigger(steps[i]) < Trigger(steps[j]));
      assert steps[i].trigger.value >= steps[j].trigger.value;
    }
  }

  // Errors step by step come down to a ladder that is not valid.
  lemma ValidExactlyWhen(steps: seq<RawStep>)
    requires steps != []
    ensures Valid(Some(steps)) <==> forall i: nat | i < |steps| :: StepError(steps, i) == None
  {
    if forall i: nat | i < |steps| :: StepError(steps, i) == None {
      forall i, j | 0 <= i < j < |steps| ensures Trigger(steps[i]) < Trigger(steps[j]) {
        TriggersRise(steps, i, j);
      }
      forall i | 0 <= i < |steps| ensures WellFormedStep(steps[i]) {
        assert StepError(steps, i) == None;
      }
    }
  }

  // Which error a step is refused with: the first of its rules that it breaks.
  lemma ErrorsAre(steps: seq<RawStep>, i: nat)
    requires i < |steps| && (i > 0 ==> steps[i - 1].Raw? && steps[i - 1].trigger.Some?)
    ensures var step, error := steps[i], StepError(steps, i);
            && (error == Some(InvalidStep) <==> step.NotAnObject?)
            && (error == Some(InvalidActor) <==> step.Raw? && step.actor in {None, Some("")})
            && (error == Some(InvalidTrigger) <==>
                  step.Raw? && step.actor !in {None, Some("")} && (step.trigger.None? || step.trigger.value < 60))
            && (error == Some(InvalidMonotonicity) <==>
                  step.Raw? && step.actor !in {None, Some("")} && step.trigger.Some? && step.trigger.value >= 60
                  && i > 0 && step.trigger.value <= steps[i - 1].trigger.value)
            && error in {None, Some(InvalidStep), Some(InvalidActor), Some(InvalidTrigger), Some(InvalidMonotonicity)}
  {
  }

  lemma {:induction false} TriggersRise(steps: seq<RawStep>, i: nat, j: nat)
    requires i < j < |steps| && forall k: nat | k < |steps| :: StepError(steps, k) == None
    ensures Trigger(steps[i]) < Trigger(steps[j])
    decreases j
  {
    assert StepError(steps, j) == None;
    if i < j - 1 { TriggersRise(steps, i, j - 1); }
  }

  // Accepts exactly the valid ladders; otherwise names the first bad step and
  // the first rule it breaks.
  method ValidateLadder(ladder: Option<seq<RawStep>>) returns (result: Result<(), (nat, Error)>)
    ensures result.Ok? <==> Valid(ladder)
    ensures ladder.None? || ladder.value == [] ==> result == Err((0, InvalidLadder))
    ensures ladder.Some? && ladder.value != [] && result.Err? ==>
              var (i, error) := result.error;
              && i < |ladder.value| && StepError(ladder.value, i) == Some(error)
              && forall j: nat | j < i :: StepError(ladder.value, j) == None
  {
    if ladder.None? || |ladder.value| == 0 { return Err((0, InvalidLadder)); }
    var steps := ladder.value;
    ValidExactlyWhen(steps);
    for i := 0 to |steps|
      invariant forall j: nat | j < i :: StepError(steps, j) == None
    {
      var step := steps[i];
      if step.NotAnObject? { return Err((i, InvalidStep)); }
      if step.actor.None? || |step.actor.value| == 0 { return Err((i, InvalidActor)); }
      if step.trigger.None? || step.trigger.value < MIN_TRIGGER { return Err((i, InvalidTrigger)); }
      if i > 0 {
        assert StepError(steps, i - 1) == None;
        var prev := steps[i - 1].trigger.value;
        if step.trigger.value <= prev { return Err((i, InvalidMonotonicity)); }
      }
    }
    result := Ok(());
  }

  // ---- the first rung and the next -----------------------------------------

  // What a validated ladder says of each rung.
  datatype Rung = Rung(actor: string, trigger: int)

  ghost predicate ValidSpec(spec: seq<Rung>) {
    && spec != []
    && forall i, j :: 0 <= i < j < |spec| ==> spec[i].trigger < spec[j].trigger
  }

  // The ladder columns of a review.
  datatype Row = Row(ladder: seq<Step>, index: int, nextAt: Option<int>, assignee: string)

  function InitLadder(spec: seq<Rung>, created: int): Row
    requires spec != []
  {
    Row(seq(|spec|, i requires 0 <= i < |spec| =>
          Step(spec[i].actor, spec[i].trigger, if i == 0 then Active else Pending)),
        0,
        if |spec| > 1 then Some(created + spec[1].trigger * 1000) else None,
        spec[0].actor)
  }

  function StatusOf(i: int, active: int): Status {
    if i < active then Promoted else if i == active then Active else Pending
  }

  // The same rungs, with rung `active` active: the map over the steps.
  function Marked(steps: seq<Step>, active: int): seq<Step> {
    seq(|steps|, i requires 0 <= i < |steps| => Step(steps[i].actor, steps[i].trigger, StatusOf(i, active)))
  }

  datatype Promotion = Promotion(row: Row, previous: string)

  function PromoteLadder(ladder: Option<seq<Step>>, index: int, created: int): Result<Promotion, Error> {
    if ladder.None? || ladder.value == [] then Err(NoLadder)
    else
      var steps := ladder.value;
      if index < 0 || index >= |steps| then Err(InvalidIndex)
      else if index >= |steps| - 1 then Err(LadderExhausted)
      else
        var next := index + 1;
        var updated := Marked(steps, next);
        var nextAt := if next + 1 < |steps| then Some(created + steps[next + 1].trigger * 1000) else None;
        Ok(Promotion(Row(updated, next, nextAt, steps[next].actor), steps[index].actor))
  }

  // The row after k promotions, in closed form: k promoted rungs, one active,
  // the rest pending; the timer of rung k + 1; the actor of rung k.
  function RowAt(spec: seq<Rung>, created: int, k: nat): Row
    requires k < |spec|
  {
    Row(seq(|spec|, i requires 0 <= i < |spec| => Step(spec[i].actor, spec[i].trigger, StatusOf(i, k))),
        k,
        if k + 1 < |spec| then Some(created + spec[k + 1].trigger * 1000) else None,
        spec[k].actor)
  }

  ghost predicate OnRung(row: Row, spec: seq<Rung>, created: int, k: int) {
    0 <= k < |spec| && row == RowAt(spec, created, k)
  }

  // Promotion goes from one rung's actor to the next one's, or ends.
  lemma PromotionClimbs(spec: seq<Rung>, created: int, k: nat)
    requires k < |spec|
    ensures PromoteLadder(Some(RowAt(spec, created, k).ladder), k, created)
         == if k + 1 < |spec| then Ok(Promotion(RowAt(spec, created, k + 1), spec[k].actor)) else Err(LadderExhausted)
  {
    if k + 1 < |spec| {
      assert Marked(RowAt(spec, created, k).ladder, k + 1) == RowAt(spec, created, k + 1).ladder;
    }
  }

  // What a promotion without a next rung is refused with.
  lemma PromotionErrors(ladder: Option<seq<Step>>, index: int, created: int)
    ensures var p := PromoteLadder(ladder, index, created);
            && (p == Err(NoLadder) <==> ladder in {None, Some([])})
            && (p == Err(InvalidIndex) <==>
                  ladder !in {None, Some([])} && !(0 <= index < |ladder.value|))
            && (p == Err(LadderExhausted) <==> ladder !in {None, Some([])} && index == |ladder.value| - 1)
            && (p.Ok? <==> ladder !in {None, Some([])} && 0 <= index < |ladder.value| - 1)
  {
  }

  lemma InitIsRungZero(spec: seq<Rung>, created: int)
    requires spec != []
    ensures InitLadder(spec, created) == RowAt(spec, created, 0)
  {
  }

  function Climb(row: Row, created: int, n: nat): Result<Row, Error>
    decreases n
  {
    if n == 0 then Ok(row)
    else
      match PromoteLadder(Some(row.ladder), row.index, created)
      case Ok(p) => Climb(p.row, created, n - 1)
      case Err(e) => Err(e)
  }

  lemma {:induction false} ClimbFrom(spec: seq<Rung>, created: int, k: nat, n: nat)
    requires k < |spec|
    ensures Climb(RowAt(spec, created, k), created, n)
         == if k + n < |spec| then Ok(RowAt(spec, created, k + n)) else Err(LadderExhausted)
    decreases n
  {
    if n > 0 {
      PromotionClimbs(spec, created, k);
      if k + 1 < |spec| {
        ClimbFrom(spec, created, k + 1, n - 1);
      }
    }
  }

  // Any number of promotions from the first rung lands on that rung, or runs out
  // of ladder exactly when there are no more rungs.
  lemma ClimbClosedForm(spec: seq<Rung>, created: int, n: nat)
    requires spec != []
    ensures Climb(InitLadder(spec, created), created, n)
         == if n < |spec| then Ok(RowAt(spec, created, n)) else Err(LadderExhausted)
  {
    InitIsRungZero(spec, created);
    ClimbFrom(spec, created, 0, n);
  }

  function SpecOf(steps: seq<RawStep>): seq<Rung>
    requires forall i | 0 <= i < |steps| :: WellFormedStep(steps[i])
  {
    seq(|steps|, i requires 0 <= i < |steps| && WellFormedStep(steps[i]) =>
      Rung(steps[i].actor.value, steps[i].trigger.value))
  }

  // A review is created with a ladder exactly when the ladder is valid, and then
  // stands on its first rung.
  method Create(ladder: Option<seq<RawStep>>, created: int) returns (row: Result<Row, (nat, Error)>)
    ensures row.Ok? <==> Valid(ladder)
    ensures row.Ok? ==> ValidSpec(SpecOf(ladder.value)) && row.value == RowAt(SpecOf(ladder.value), created, 0)
  {
    var valid := ValidateLadder(ladder);
    if valid.Err? { return Err(valid.error); }
    InitIsRungZero(SpecOf(ladder.value), created);
    row := Ok(InitLadder(SpecOf(ladder.value), created));
  }

  // ---- the sweep -----------------------------------------------------------

  datatype Claim = Claim(holder: nat, at: int)

  datatype Escalation = Escalation(previous: string, assignee: string, index: int)

  // held: the rows workers got back from their claims.
  datatype State = State(
    now: int, row: Row, claim: Option<Claim>, held: map<nat, Row>, used: set<nat>, log: seq<Escalation>)

  // The other columns a sweep looks at, as they stand then: whether the status is
  // one of the open ones, and the two deadlines.
  datatype Columns = Columns(open: bool, expiresAt: Option<int>, snoozedUntil: Option<int>)

  const OPEN := Columns(true, None, None)

  // Expiry wins over promotion, and a snooze has to be over.
  predicate Eligible(c: Columns, now: int) {
    && c.open
    && (c.expiresAt.None? || c.expiresAt.value > now)
    && (c.snoozedUntil.None? || c.snoozedUntil.value <= now)
  }

  // Each sweep has a new worker id.
  // ClaimElsewhere and Free are the timeout path, which shares the claim column;
  // its max-iterations close frees the claim by review id, whoever holds it.
  datatype Event =
    | ClaimDue(worker: nat, columns: Columns)
    | Write(worker: nat)
    | Release(worker: nat)
    | ClaimElsewhere(worker: nat)
    | Free
    | Tick(elapsed: nat)

  predicate Claimable(s: State, worker: nat) {
    worker !in s.used && (s.claim.None? || s.claim.value.at < s.now - CLAIM_TIMEOUT)
  }

  function Freed(s: State, worker: nat): State {
    if s.claim.Some? && s.claim.value.holder == worker then s.(claim := None) else s
  }

  function Land(s: State, p: Promotion): State {
    s.(row := p.row, claim := None, log := s.log + [Escalation(p.previous, p.row.assignee, p.row.index)])
  }

  function Apply(s: State, created: int, e: Event): State {
    match e
    case ClaimDue(worker, columns) =>
      if Eligible(columns, s.now) && s.row.nextAt.Some? && s.row.nextAt.value <= s.now && Claimable(s, worker)
      then s.(claim := Some(Claim(worker, s.now)), held := s.held[worker := s.row], used := s.used + {worker})
      else s
    case Write(worker) =>
      if worker !in s.held then s
      else
        var held := s.held[worker];
        var promotion := PromoteLadder(Some(held.ladder), held.index, created);
        if promotion.Err? then Freed(s, worker)
        else if s.claim.None? || s.claim.value.holder != worker then s
        else Land(s, promotion.value)
    case Release(worker) => Freed(s, worker)
    case ClaimElsewhere(worker) =>
      if Claimable(s, worker) then s.(claim := Some(Claim(worker, s.now)), used := s.used + {worker}) else s
    case Free => s.(claim := None)
    case Tick(elapsed) => s.(now := s.now + elapsed)
  }

  function Run(s: State, created: int, es: seq<Event>): State
    decreases |es|
  {
    if es == [] then s else Run(Apply(s, created, es[0]), created, es[1..])
  }

  function Created(spec: seq<Rung>, created: int): State
    requires spec != []
  {
    State(created, InitLadder(spec, created), None, map[], {}, [])
  }

  // Rung k is due: the first always, the others by the clock.
  predicate Due(spec: seq<Rung>, created: int, now: int, k: nat)
    requires k < |spec|
  {
    k == 0 || created + spec[k].trigger * 1000 <= now
  }

  // One escalation for each rung climbed, from its predecessor's actor.
  ghost predicate Chained(log: seq<Escalation>, spec: seq<Rung>) {
    && |log| < |spec|
    && forall i :: 0 <= i < |log| ==> log[i] == Escalation(spec[i].actor, spec[i + 1].actor, i + 1)
  }

  ghost predicate Inv(s: State, spec: seq<Rung>, created: int) {
    && ValidSpec(spec) && Chained(s.log, spec)
    && OnRung(s.row, spec, created, |s.log|)
    && Due(spec, created, s.now, |s.log|)
    && s.held.Keys <= s.used && (s.claim.Some? ==> s.claim.value.holder in s.used)
    && (s.claim.Some? && s.claim.value.holder in s.held ==>
          s.held[s.claim.value.holder] == s.row && s.row.nextAt.Some? && s.row.nextAt.value <= s.now)
    && (forall w | w in s.held :: OnRung(s.held[w], spec, created, s.held[w].index))
  }

  lemma LandInv(s: State, spec: seq<Rung>, created: int, p: Promotion)
    requires Inv(s, spec, created) && |s.log| + 1 < |spec| && Due(spec, created, s.now, |s.log| + 1)
    requires OnRung(p.row, spec, created, |s.log| + 1) && p.previous == spec[|s.log|].actor
    ensures Inv(Land(s, p), spec, created)
  {
  }

  lemma WriteInv(s: State, spec: seq<Rung>, created: int, worker: nat)
    requires Inv(s, spec, created) && worker in s.held
    ensures Inv(Apply(s, created, Write(worker)), spec, created)
  {
    var held := s.held[worker];
    PromotionClimbs(spec, created, held.index);
    var promotion := PromoteLadder(Some(held.ladder), held.index, created);
    if promotion.Ok? && s.claim.Some? && s.claim.value.holder == worker {
      LandInv(s, spec, created, promotion.value);
    }
  }

  lemma ClaimInv(s: State, spec: seq<Rung>, created: int, worker: nat, columns: Columns)
    requires Inv(s, spec, created)
    ensures Inv(Apply(s, created, ClaimDue(worker, columns)), spec, created)
  {
  }

  lemma ApplyInv(s: State, spec: seq<Rung>, created: int, e: Event)
    requires Inv(s, spec, created)
    ensures Inv(Apply(s, created, e), spec, created)
  {
    match e
    case Write(worker) => if worker in s.held { WriteInv(s, spec, created, worker); }
    case ClaimDue(worker, columns) => ClaimInv(s, spec, created, worker, columns);
    case _ =>
  }

  lemma {:induction false} RunInv(s: State, spec: seq<Rung>, created: int, es: seq<Event>)
    requires Inv(s, spec, created)
    ensures Inv(Run(s, created, es), spec, created)
    decreases |es|
  {
    if es != [] {
      ApplyInv(s, spec, created, es[0]);
      RunInv(Apply(s, created, es[0]), spec, created, es[1..]);
    }
  }

  // Over every run of any number of workers, claims going stale and the timeout
  // path taking claims in between: the row is the closed form of its rung, that
  // rung is due, every rung below was escalated once, in order, actor to actor,
  // and when the timer says nothing is due the rung is the last one due.
  lemma ClimbsOnSchedule(spec: seq<Rung>, created: int, es: seq<Event>)
    requires ValidSpec(spec)
    ensures var s := Run(Created(spec, created), created, es);
            var k := |s.log|;
            && Chained(s.log, spec) && OnRung(s.row, spec, created, k)
            && (forall j :: 0 <= j <= k ==> Due(spec, created, s.now, j))
            && (s.row.nextAt.None? || s.now < s.row.nextAt.value <==>
                forall j :: k < j < |spec| ==> !Due(spec, created, s.now, j))
  {
    InitIsRungZero(spec, created);
    RunInv(Created(spec, created), spec, created, es);
    var s := Run(Created(spec, created), created, es);
    var k := |s.log|;
    assert k + 1 < |spec| ==> Due(spec, created, s.now, k + 1) == (s.row.nextAt.value <= s.now);
  }

  // So over every run exactly one rung is active, that of the number of
  // escalations; those before it are promoted, those after it pending; and actors
  // and triggers are those of the ladder.
  lemma OneRungActive(spec: seq<Rung>, created: int, es: seq<Event>, i: nat)
    requires ValidSpec(spec) && i < |spec|
    ensures var s := Run(Created(spec, created), created, es);
            var ladder := s.row.ladder;
            && |ladder| == |spec| && ladder[i].actor == spec[i].actor && ladder[i].trigger == spec[i].trigger
            && (ladder[i].status == Active <==> i == |s.log|)
            && (ladder[i].status == Promoted <==> i < |s.log|)
  {
    ClimbsOnSchedule(spec, created, es);
  }

  // A worker's write changes nothing, or it holds the claim and moves the row as
  // it now stands up one rung that is due: a claim taken over after it went
  // stale neither loses a promotion nor repeats one.
  lemma WritesOneRungOrNothing(spec: seq<Rung>, created: int, es: seq<Event>, worker: nat)
    requires ValidSpec(spec)
    ensures var s := Run(Created(spec, created), created, es);
            var t := Apply(s, created, Write(worker));
            var k := |s.log|;
            || (t.row == s.row && t.log == s.log)
            || (&& s.claim.Some? && s.claim.value.holder == worker && t.claim.None?
                && k + 1 < |spec| && s.row == RowAt(spec, created, k) && t.row == RowAt(spec, created, k + 1)
                && Due(spec, created, s.now, k + 1)
                && t.log == s.log + [Escalation(spec[k].actor, spec[k + 1].actor, k + 1)])
  {
    var s := Run(Created(spec, created), created, es);
    InitIsRungZero(spec, created);
    RunInv(Created(spec, created), spec, created, es);
    if worker in s.held {
      PromotionClimbs(spec, created, s.held[worker].index);
    }
  }

  // A sweep claims the row exactly when the review is open, neither past its expiry
  // nor snoozed, its timer has run out, and nobody holds it or whoever does has
  // held it for over five minutes; the timeout path claims by the last of these
  // alone. What a sweep holds is the row as it found it.
  lemma ClaimsExactlyWhen(s: State, created: int, worker: nat, columns: Columns)
    requires worker !in s.used
    ensures var t, u := Apply(s, created, ClaimDue(worker, columns)), Apply(s, created, ClaimElsewhere(worker));
            var eligible := columns.open && !(columns.expiresAt.Some? && columns.expiresAt.value <= s.now)
                            && !(columns.snoozedUntil.Some? && s.now < columns.snoozedUntil.value);
            var open := s.claim.None? || s.now - s.claim.value.at > 5 * 60 * 1000;
            var due := s.row.nextAt.Some? && s.row.nextAt.value <= s.now;
            && (t.claim == Some(Claim(worker, s.now)) && worker in t.used && worker in t.held && t.held[worker] == s.row
                <==> eligible && due && open)
            && (t == s <==> !(eligible && due && open))
            && (u.claim == Some(Claim(worker, s.now)) && worker in u.used <==> open)
            && (u == s <==> !open) && u.held == s.held
            && t.row == u.row == s.row && t.log == u.log == s.log
  {
  }

  // A worker gives up its own claim and nobody else's; the timeout path's close
  // gives up whosever it is.
  lemma FreesExactlyWhen(s: State, created: int, worker: nat)
    ensures Apply(s, created, Release(worker))
         == if s.claim.Some? && s.claim.value.holder == worker then s.(claim := None) else s
    ensures Apply(s, created, Free) == s.(claim := None)
    ensures worker in s.held && !(0 <= s.held[worker].index < |s.held[worker].ladder| - 1) ==>
              Apply(s, created, Write(worker)) == Apply(s, created, Release(worker))
    ensures worker !in s.held ==> Apply(s, created, Write(worker)) == s
  {
  }

  // For five minutes a claim keeps the row from everyone else, whatever the
  // others do, exactly when nobody frees it by review id alone.
  lemma {:induction false} ClaimHoldsExactlyWhen(s: State, created: int, es: seq<Event>, worker: nat, since: int)
    requires s.claim == Some(Claim(worker, since)) && worker in s.used
    requires forall e | e in es :: e != Write(worker) && e != Release(worker)
    requires Run(s, created, es).now <= since + 5 * 60 * 1000
    ensures Run(s, created, es).claim == s.claim <==> Free !in es
    ensures Free !in es ==> Run(s, created, es).row == s.row
    decreases |es|
  {
    if es != [] {
      var t := Apply(s, created, es[0]);
      assert es[0] in es && forall e | e in es[1..] :: e in es;
      assert Free in es <==> es[0] == Free || Free in es[1..];
      TimePasses(t, created, es[1..]);
      if es[0] == Free {
        LostClaimStaysLost(t, created, es[1..], worker);
      } else {
        ClaimHoldsExactlyWhen(t, created, es[1..], worker, since);
      }
    }
  }

  predicate Holds(s: State, worker: nat) {
    s.claim.Some? && s.claim.value.holder == worker
  }

  lemma {:induction false} LostClaimStaysLost(s: State, created: int, es: seq<Event>, worker: nat)
    requires worker in s.used && !Holds(s, worker)
    ensures !Holds(Run(s, created, es), worker)
    decreases |es|
  {
    if es != [] {
      LostClaimStaysLost(Apply(s, created, es[0]), created, es[1..], worker);
    }
  }

  // A max-iterations worker stalls past five minutes, a sweep takes the row over,
  // and the first worker's failure frees the new claim at once: another sweep
  // claims the row and the claimant's write is lost.
  lemma StaleFailureFreesNewClaim(spec: seq<Rung>, created: int) returns (es: seq<Event>)
    requires ValidSpec(spec) && |spec| > 1 && spec[1].trigger >= 0
    ensures var s := Run(Created(spec, created), created, es);
            && Holds(s, 2) && !Holds(s, 1) && 1 in s.held && s.log == []
            && Apply(s, created, Write(1)).row == s.row
  {
    var wait: nat := spec[1].trigger * 1000 + CLAIM_TIMEOUT + 1;
    es := [ClaimElsewhere(0), Tick(wait), ClaimDue(1, OPEN), Free, ClaimDue(2, OPEN)];
    var s0 := Created(spec, created);
    var s2 := Apply(Apply(s0, created, es[0]), created, es[1]);
    var s5 := Apply(Apply(Apply(s2, created, es[2]), created, es[3]), created, es[4]);
    assert es[1..] == [es[1], es[2], es[3], es[4]] && es[1..][1..] == [es[2], es[3], es[4]];
    assert es[1..][1..][1..] == [es[3], es[4]] && es[1..][1..][1..][1..] == [es[4]];
    assert Run(s2, created, [es[2], es[3], es[4]]) == s5 by {
      RunThree(s2, created, es[2], es[3], es[4]);
    }
    assert Run(Apply(s0, created, es[0]), created, es[1..]) == Run(s2, created, es[1..][1..]);
    InitIsRungZero(spec, created);
    PromotionClimbs(spec, created, 0);
  }

  lemma RunThree(s: State, created: int, a: Event, b: Event, c: Event)
    ensures Run(s, created, [a, b, c]) == Apply(Apply(Apply(s, created, a), created, b), created, c)
  {
    assert [a, b, c][1..] == [b, c] && [b, c][1..] == [c] && [c][1..] == [];
    assert Run(Apply(s, created, a), created, [b, c]) == Run(Apply(Apply(s, created, a), created, b), created, [c]);
  }

  lemma {:induction false} TimePasses(s: State, created: int, es: seq<Event>)
    ensures s.now <= Run(s, created, es).now
    decreases |es|
  {
    if es != [] {
      TimePasses(Apply(s, created, es[0]), created, es[1..]);
    }
  }

  // A worker that dies with the claim costs five minutes and no more: once they
  // have passed, one sweep of another worker climbs the due rung, and the dead
  // worker's write, should it still come, changes nothing.
  lemma CrashRecovered(spec: seq<Rung>, created: int, es: seq<Event>, dead: nat, next: nat, columns: Columns)
    requires ValidSpec(spec)
    requires var s := Run(Created(spec, created), created, es);
             && Holds(s, dead) && s.claim.value.at + 5 * 60 * 1000 < s.now && next !in s.used
             && s.row.nextAt.Some? && s.row.nextAt.value <= s.now && Eligible(columns, s.now)
    ensures var s := Run(Created(spec, created), created, es);
            var t := Run(s, created, [ClaimDue(next, columns), Write(next), Write(dead)]);
            && |t.log| == |s.log| + 1 < |spec| && t.row == RowAt(spec, created, |s.log| + 1)
  {
    var s := Run(Created(spec, created), created, es);
    InitIsRungZero(spec, created);
    RunInv(Created(spec, created), spec, created, es);
    PromotionClimbs(spec, created, |s.log|);
    RunThree(s, created, ClaimDue(next, columns), Write(next), Write(dead));
    if dead in s.held { PromotionClimbs(spec, created, s.held[dead].index); }
  }

  // With a free row and nothing in the way, as many sweeps as there are rungs
  // climb to the last one due.
  function Sweeps(n: nat, first: nat): seq<Event> {
    if n == 0 then [] else [ClaimDue(first, OPEN), Write(first)] + Sweeps(n - 1, first + 1)
  }

  lemma OneSweep(s: State, spec: seq<Rung>, created: int, first: nat) returns (t: State)
    requires Inv(s, spec, created) && s.claim.None? && first !in s.used
    requires s.row.nextAt.Some? && s.row.nextAt.value <= s.now
    ensures t == Run(s, created, Sweeps(1, first))
    ensures Inv(t, spec, created) && t.claim.None? && t.now == s.now
    ensures t.used == s.used + {first} && |t.log| == |s.log| + 1
  {
    var claim, write := ClaimDue(first, OPEN), Write(first);
    var claimed := Apply(s, created, claim);
    ApplyInv(s, spec, created, claim);
    PromotionClimbs(spec, created, |s.log|);
    var p := PromoteLadder(Some(s.row.ladder), s.row.index, created).value;
    LandInv(claimed, spec, created, p);
    t := Land(claimed, p);
    assert t == Apply(claimed, created, write);
    SweepOne(s, created, first);
  }

  lemma SweepOne(s: State, created: int, first: nat)
    ensures Run(s, created, Sweeps(1, first)) == Apply(Apply(s, created, ClaimDue(first, OPEN)), created, Write(first))
  {
    var claim, write := ClaimDue(first, OPEN), Write(first);
    assert Sweeps(1, first) == [claim, write] && [claim, write][1..] == [write] && [write][1..] == [];
    assert Run(Apply(s, created, claim), created, [write]) == Apply(Apply(s, created, claim), created, write);
  }

  lemma SweepThen(s: State, created: int, n: nat, first: nat)
    requires n > 0
    ensures Run(s, created, Sweeps(n, first))
         == Run(Run(s, created, Sweeps(1, first)), created, Sweeps(n - 1, first + 1))
  {
    var claim, write, rest := ClaimDue(first, OPEN), Write(first), Sweeps(n - 1, first + 1);
    assert ([claim, write] + rest)[1..] == [write] + rest && ([write] + rest)[1..] == rest;
    SweepOne(s, created, first);
    var s1 := Apply(s, created, claim);
    assert Run(s1, created, [write] + rest) == Run(Apply(s1, created, write), created, rest);
  }

  lemma {:induction false} SweepsCatchUp(s: State, spec: seq<Rung>, created: int, n: nat, first: nat)
    requires Inv(s, spec, created) && s.claim.None? && n >= |spec| - 1 - |s.log|
    requires forall w | w in s.used :: w < first
    ensures var t := Run(s, created, Sweeps(n, first));
            && Inv(t, spec, created) && t.now == s.now
            && (t.row.nextAt.None? || t.now < t.row.nextAt.value)
    decreases n
  {
    if s.row.nextAt.None? || s.now < s.row.nextAt.value {
      NothingDueStays(s, created, n, first);
    } else {
      var t := OneSweep(s, spec, created, first);
      SweepThen(s, created, n, first);
      SweepsCatchUp(t, spec, created, n - 1, first + 1);
    }
  }

  lemma {:induction false} NothingDueStays(s: State, created: int, n: nat, first: nat)
    requires s.claim.None? && (s.row.nextAt.None? || s.now < s.row.nextAt.value)
    requires forall w | w in s.used :: w < first
    requires forall w | w in s.held :: w in s.used
    ensures Run(s, created, Sweeps(n, first)) == s
    decreases n
  {
    if n > 0 {
      SweepOne(s, created, first);
      SweepThen(s, created, n, first);
      NothingDueStays(s, created, n - 1, first + 1);
    }
  }
}
