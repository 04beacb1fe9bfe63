// What every run of the review-link protocol keeps, and exactly when a review
// that has closed stays closed.
module TokenProtocolProofs {
  import opened Wrappers
  import opened TokenProtocol

  lemma InitInv(s: State)
    requires Init(s)
    ensures Inv(s)
  {
  }

  // A step that only moves r's program counter, between counters that agree on
  // whether the stamp is held and that claim nothing about a decision.
  lemma SetPcInv(s: State, r: RequestId, pc: Pc)
    requires Inv(s) && r in s.requests
    requires s.requests[r].token.Some? ==> Holds(pc) == Holds(s.requests[r].pc)
    requires RequestOk(SetPc(s, r, pc), r)
    ensures Inv(SetPc(s, r, pc))
  {
  }

  lemma ConsumeInv(s: State, r: RequestId)
    requires Inv(s) && r in s.requests && s.requests[r].pc == Preflighted
    ensures Inv(Step(s, r))
  {
    var q := s.requests[r];
    assert RequestOk(s, r);
    if q.token.Some? && Consumable(s, q.token.value) {
      var s' := Step(s, r);
      forall p | p in s'.requests ensures RequestOk(s', p) {
        assert RequestOk(s, p);
      }
      forall t | t in s'.tokens ensures StampOk(s', t) {
        assert StampOk(s, t);
      }
    } else {
      SetPcInv(s, r, Done(Refused));
    }
  }

  lemma LandRequests(s: State, r: RequestId, p: RequestId)
    requires Inv(s) && r in s.requests && p in s.requests
    requires s.requests[r].pc.Loaded? && s.review.version == s.requests[r].pc.version
    ensures RequestOk(Land(s, r), p)
  {
    assert RequestOk(s, r) && RequestOk(s, p);
  }

  lemma LandStamps(s: State, r: RequestId, t: TokenId)
    requires Inv(s) && r in s.requests && t in s.tokens
    requires s.requests[r].pc.Loaded? && s.review.version == s.requests[r].pc.version
    ensures StampOk(Land(s, r), t)
  {
    assert StampOk(s, t);
  }

  lemma LandDecisions(s: State, r: RequestId)
    requires Inv(s) && r in s.requests
    requires s.requests[r].pc.Loaded? && s.review.version == s.requests[r].pc.version
    ensures Unrepeated(Land(s, r).decisions)
    ensures forall d | d in Land(s, r).decisions :: d.ByRequest? ==> d.id in s.requests
    ensures Land(s, r).review.claimed ==> Land(s, r).review.status != Expired
  {
    assert RequestOk(s, r) && ByRequest(r) !in s.decisions;
  }

  lemma LandInv(s: State, r: RequestId)
    requires Inv(s) && r in s.requests && s.requests[r].pc.Loaded?
    ensures Inv(Step(s, r))
  {
    if s.review.version != s.requests[r].pc.version {
      assert RequestOk(s, r);
      SetPcInv(s, r, Failing);
    } else {
      var s' := Land(s, r);
      forall p | p in s'.requests ensures RequestOk(s', p) {
        LandRequests(s, r, p);
      }
      forall t | t in s'.tokens ensures StampOk(s', t) {
        LandStamps(s, r, t);
      }
      LandDecisions(s, r);
    }
  }

  lemma RevertInv(s: State, r: RequestId)
    requires Inv(s) && r in s.requests && s.requests[r].pc.Failing?
    ensures Inv(Step(s, r))
  {
    var s' := Step(s, r);
    assert RequestOk(s, r);
    forall p | p in s'.requests ensures RequestOk(s', p) {
      assert RequestOk(s, p);
    }
    forall t | t in s'.tokens ensures StampOk(s', t) {
      assert StampOk(s, t);
    }
  }

  // The steps before the link is consumed.
  lemma GateInv(s: State, r: RequestId)
    requires Inv(s) && r in s.requests
    requires s.requests[r].pc.Start? || s.requests[r].pc.RowRead? || s.requests[r].pc.Validated?
    ensures Inv(Step(s, r))
  {
    var q := s.requests[r];
    assert RequestOk(s, r);
    match q.pc
    case Start =>
      SetPcInv(s, r, if q.token.None? then Executing
                     else if q.token.value in s.tokens then RowRead(s.tokens[q.token.value])
                     else Done(Refused));
    case RowRead(row) =>
      SetPcInv(s, r, if Admits(row, s.review.status, s.now, q) then Validated else Done(Refused));
    case Validated =>
      SetPcInv(s, r, if Accepting(s.review.status) then Preflighted else Done(Refused));
  }

  lemma LoadInv(s: State, r: RequestId)
    requires Inv(s) && r in s.requests && s.requests[r].pc.Executing?
    ensures Inv(Step(s, r))
  {
    assert RequestOk(s, r);
    SetPcInv(s, r,
             if ActionAllowed(s.requests[r], s.review.status, s.review.version)
             then Loaded(s.review.status, s.review.version) else Failing);
  }

  lemma StepInv(s: State, r: RequestId)
    requires Inv(s) && r in s.requests
    ensures Inv(Step(s, r))
  {
    match s.requests[r].pc
    case Preflighted => ConsumeInv(s, r);
    case Executing => LoadInv(s, r);
    case Loaded(_, _) => LandInv(s, r);
    case Failing => RevertInv(s, r);
    case Landed =>
      assert RequestOk(s, r);
      SetPcInv(s, r, Done(Accepted));
    case Done(_) =>
    case _ => GateInv(s, r);
  }

  lemma FaultInv(s: State, r: RequestId, pc: Pc)
    requires Inv(s) && r in s.requests
    requires Holds(pc) == Holds(s.requests[r].pc)
    requires RequestOk(Fault(s, r, pc), r)
    ensures Inv(Fault(s, r, pc))
  {
  }

  // Token commands touch rows no request holds.
  lemma TokenRowInv(s: State, t: TokenId, row: Token, review: Review)
    requires Inv(s)
    requires t in s.tokens ==> !s.tokens[t].stamp.UsedBy?
    requires !row.stamp.UsedBy?
    requires review.claimed ==> review.status != Expired
    ensures Inv(s.(tokens := s.tokens[t := row], review := review))
  {
  }

  lemma ReviewInv(s: State, review: Review)
    requires Inv(s)
    requires review.claimed ==> review.status != Expired
    ensures Inv(s.(review := review))
  {
  }

  lemma TimeoutInv(s: State, decides: bool)
    requires Inv(s)
    ensures Inv(Apply(s, WorkerWrite(decides)))
  {
  }

  lemma CloseInv(s: State)
    requires Inv(s)
    ensures Inv(Apply(s, CloseIterations))
  {
  }

  lemma RequestEventInv(s: State, e: Event)
    requires Inv(s) && (e.Advance? || e.FailAfterLanding? || e.LoseRevert? || e.Kill?)
    ensures Inv(Apply(s, e))
  {
    var r := e.r;
    if r in s.requests {
      assert RequestOk(s, r);
      var pc := s.requests[r].pc;
      match e
      case Advance(_) => StepInv(s, r);
      case FailAfterLanding(_) => if pc.Landed? { FaultInv(s, r, Failing); }
      case LoseRevert(_) => if pc.Failing? { FaultInv(s, r, Done(RevertLost)); }
      case Kill(_) => if !pc.Done? { FaultInv(s, r, Done(Killed(Holds(pc)))); }
    }
  }

  lemma TokenCommandInv(s: State, e: Event)
    requires Inv(s) && (e.Issue? || e.IssuePreview? || e.Extend? || e.Revoke? || e.RecipientReply?)
    ensures Inv(Apply(s, e))
  {
    match e
    case Issue(t, expiresAt) =>
      if s.review.status == Pending && t !in s.tokens {
        TokenRowInv(s, t, Token(Unused, false, expiresAt, false), s.review.(status := AwaitingExternal));
      }
    case IssuePreview(t, expiresAt) =>
      if Accepting(s.review.status) && t !in s.tokens {
        TokenRowInv(s, t, Token(Unused, false, expiresAt, true), s.review);
      }
    case Extend(t, hours) =>
      if ActiveToken(s, t) {
        TokenRowInv(s, t, s.tokens[t].(expiresAt := s.tokens[t].expiresAt + hours * 3_600_000), s.review);
      }
    case Revoke(t) =>
      if ActiveToken(s, t) {
        TokenRowInv(s, t, s.tokens[t].(revoked := true), s.review.(status := Pending));
      }
    case RecipientReply(t) =>
      if Consumable(s, t) && !s.tokens[t].preview && Accepting(s.review.status) {
        TokenRowInv(s, t, s.tokens[t].(stamp := UsedElsewhere),
                    s.review.(status := Pending, version := s.review.version + 1));
      }
  }

  lemma TickInv(s: State, elapsed: nat)
    requires Inv(s)
    ensures Inv(Apply(s, Tick(elapsed)))
  {
    var s' := Apply(s, Tick(elapsed));
    forall q | q in s'.requests ensures RequestOk(s', q) {
      assert RequestOk(s, q);
    }
    forall u | u in s'.tokens ensures StampOk(s', u) {
      assert StampOk(s, u);
    }
  }

  lemma ApplyInv(s: State, e: Event)
    requires Inv(s)
    ensures Inv(Apply(s, e))
  {
    match e
    case WorkerClaim => if !Closed(s.review.status) { ReviewInv(s, s.review.(claimed := true)); }
    case WorkerWrite(decides) => TimeoutInv(s, decides);
    case WorkerRelease => ReviewInv(s, s.review.(claimed := false));
    case CloseIterations => CloseInv(s);
    case ChangesLapse => ReviewInv(s, s.review.(status := Pending));
    case Resubmit => ReviewInv(s, s.review.(status := Pending, version := s.review.version + 1));
    case Reclaim => ReviewInv(s, s.review.(status := Pending));
    case Tick(elapsed) => TickInv(s, elapsed);
    case Issue(_, _) => TokenCommandInv(s, e);
    case IssuePreview(_, _) => TokenCommandInv(s, e);
    case Extend(_, _) => TokenCommandInv(s, e);
    case Revoke(_) => TokenCommandInv(s, e);
    case RecipientReply(_) => TokenCommandInv(s, e);
    case _ => RequestEventInv(s, e);
  }

  lemma {:induction false} RunInv(s: State, es: seq<Event>)
    requires Inv(s)
    ensures Inv(Run(s, es))
    decreases |es|
  {
    if es != [] {
      ApplyInv(s, es[0]);
      RunInv(Apply(s, es[0]), es[1..]);
    }
  }

  // ---- main results on stamps ---------------------------------------------

  // Once a request has finished without a fault, a token carries its stamp
  // exactly when it was this request's token and this request decided.
  lemma StampedExactlyWhenDecided(init: State, es: seq<Event>, r: RequestId, t: TokenId)
    requires Init(init)
    requires var s := Run(init, es);
             t in s.tokens && r in s.requests
             && s.requests[r].token.Some? && s.requests[r].pc.Done? && !s.requests[r].faulted
    ensures var s := Run(init, es);
            s.tokens[t].stamp == UsedBy(r) <==> s.requests[r].token == Some(t) && ByRequest(r) in s.decisions
  {
    InitInv(init);
    RunInv(init, es);
    var s := Run(init, es);
    assert RequestOk(s, r) && StampOk(s, t);
  }

  // With faults allowed, the two halves come apart in exactly two ways: the
  // action threw after its update had landed and the revert went through, or
  // the stamp outlived a lost revert or a kill.
  lemma StampOutcomes(init: State, es: seq<Event>, r: RequestId)
    requires Init(init)
    requires var s := Run(init, es); r in s.requests && s.requests[r].token.Some? && s.requests[r].pc.Done?
    ensures var s := Run(init, es);
            var q := s.requests[r];
            var stamped := q.token.value in s.tokens && s.tokens[q.token.value].stamp == UsedBy(r);
            && (stamped && ByRequest(r) !in s.decisions ==>
                  q.pc.outcome == RevertLost || q.pc.outcome == Killed(true))
            && (!stamped && ByRequest(r) in s.decisions ==> q.pc.outcome == RolledBack && q.faulted)
            && (stamped <==> Holds(q.pc))
  {
    InitInv(init);
    RunInv(init, es);
    var s := Run(init, es);
    var q := s.requests[r];
    assert RequestOk(s, r);
    if q.token.value in s.tokens { assert StampOk(s, q.token.value); }
  }

  // At any point of any run, the compensating update finds its own stamp,
  // clears that one row and touches nothing else of the token table or the review.
  lemma RevertClearsItsOwnStamp(init: State, es: seq<Event>, r: RequestId)
    requires Init(init)
    requires var s := Run(init, es); r in s.requests && s.requests[r].pc.Failing? && s.requests[r].token.Some?
    ensures var s := Run(init, es);
            var s' := Apply(s, Advance(r));
            var t := s.requests[r].token.value;
            && t in s.tokens && s.tokens[t].stamp == UsedBy(r)
            && s'.tokens == s.tokens[t := s.tokens[t].(stamp := Unused)]
            && s'.review == s.review && s'.decisions == s.decisions
  {
    InitInv(init);
    RunInv(init, es);
    assert RequestOk(Run(init, es), r);
  }

  // No two requests ever succeed over the same link, and no request decides twice.
  lemma OneSuccessPerLink(init: State, es: seq<Event>, q: RequestId, r: RequestId)
    requires Init(init)
    requires var s := Run(init, es);
             && q in s.requests && r in s.requests
             && s.requests[q].token.Some? && s.requests[q].token == s.requests[r].token
             && s.requests[q].pc == Done(Accepted) && s.requests[r].pc == Done(Accepted)
    ensures q == r
    ensures Unrepeated(Run(init, es).decisions)
  {
    InitInv(init);
    RunInv(init, es);
    assert RequestOk(Run(init, es), q) && RequestOk(Run(init, es), r);
  }

  // ---- closing is final, exactly when -------------------------------------

  // The event writes the review row although the row it finds is closed: an
  // action whose version still matches, the timeout worker's write, a revoke.
  predicate LandsOnClosed(s: State, e: Event) {
    && Closed(s.review.status)
    && match e
       case Advance(r) =>
         r in s.requests && s.requests[r].pc.Loaded? && s.requests[r].pc.version == s.review.version
       case WorkerWrite(_) => s.review.claimed
       case Revoke(t) => ActiveToken(s, t)
       case _ => false
  }

  ghost predicate NeverLandsOnClosed(s: State, es: seq<Event>)
    decreases |es|
  {
    es == [] || (!LandsOnClosed(s, es[0]) && NeverLandsOnClosed(Apply(s, es[0]), es[1..]))
  }

  // From the first closed state on, neither the status nor the decisions move.
  ghost predicate ClosingIsFinal(s: State, es: seq<Event>)
    decreases |es|
  {
    es == [] || (
      && var s' := Apply(s, es[0]);
      && (Closed(s.review.status) ==>
            s'.review.status == s.review.status && s'.decisions == s.decisions)
      && ClosingIsFinal(s', es[1..]))
  }

  lemma ClosedStepUnchanged(s: State, e: Event)
    requires Inv(s) && Closed(s.review.status)
    ensures !LandsOnClosed(s, e) <==>
              Apply(s, e).review.status == s.review.status && Apply(s, e).decisions == s.decisions
  {
    match e
    case Advance(r) => if r in s.requests { assert RequestOk(s, r); }
    case _ =>
  }

  // The documented guard (version and status) is what the code lacks: closing
  // is final in a run exactly when no write lands on a closed row.
  lemma {:induction false} ClosingIsFinalExactlyWhen(s: State, es: seq<Event>)
    requires Inv(s)
    ensures ClosingIsFinal(s, es) <==> NeverLandsOnClosed(s, es)
    decreases |es|
  {
    if es != [] {
      ApplyInv(s, es[0]);
      if Closed(s.review.status) { ClosedStepUnchanged(s, es[0]); }
      ClosingIsFinalExactlyWhen(Apply(s, es[0]), es[1..]);
    }
  }

  // ---- decided at most once, exactly when ----------------------------------

  // The event's write lands and decides: an action whose version still matches,
  // the timeout worker's decision, the close of an exhausted iteration.
  predicate Decides(s: State, e: Event) {
    match e
    case Advance(r) =>
      r in s.requests && s.requests[r].pc.Loaded? && s.requests[r].kind == Decision
      && s.requests[r].pc.version == s.review.version
    case WorkerWrite(decides) => s.review.claimed && decides
    case CloseIterations => s.review.status == AwaitingIteration
    case _ => false
  }

  // The event's write takes a decided review out of that status.
  predicate Reopens(s: State, e: Event) {
    s.review.status == Decided && Apply(s, e).review.status != Decided
  }

  // No deciding write finds the review decided, and none follows a write that
  // has reopened it.
  ghost predicate DecidesOnOpen(s: State, reopened: bool, es: seq<Event>)
    decreases |es|
  {
    es == [] || (
      && (Decides(s, es[0]) ==> s.review.status != Decided && !reopened)
      && DecidesOnOpen(Apply(s, es[0]), reopened || Reopens(s, es[0]), es[1..]))
  }

  ghost predicate DecidedSoFar(s: State, reopened: bool) {
    |s.decisions| <= 1 && (s.decisions != [] <==> s.review.status == Decided || reopened)
  }

  lemma DecidingStep(s: State, e: Event)
    requires Inv(s)
    ensures |Apply(s, e).decisions| == |s.decisions| + if Decides(s, e) then 1 else 0
    ensures Decides(s, e) ==> Apply(s, e).review.status == Decided
    ensures !Decides(s, e) && Apply(s, e).review.status == Decided ==> s.review.status == Decided
  {
    match e
    case Advance(r) => if r in s.requests { assert RequestOk(s, r); }
    case _ =>
  }

  lemma {:induction false} DecisionsStay(s: State, es: seq<Event>)
    requires Inv(s)
    ensures |s.decisions| <= |Run(s, es).decisions|
    decreases |es|
  {
    if es != [] {
      ApplyInv(s, es[0]);
      DecidingStep(s, es[0]);
      DecisionsStay(Apply(s, es[0]), es[1..]);
    }
  }

  lemma {:induction false} DecidedOnceFrom(s: State, reopened: bool, es: seq<Event>)
    requires Inv(s) && DecidedSoFar(s, reopened)
    ensures |Run(s, es).decisions| <= 1 <==> DecidesOnOpen(s, reopened, es)
    decreases |es|
  {
    if es != [] {
      var t := Apply(s, es[0]);
      ApplyInv(s, es[0]);
      DecidingStep(s, es[0]);
      if |t.decisions| <= 1 {
        DecidedOnceFrom(t, reopened || Reopens(s, es[0]), es[1..]);
      } else {
        DecisionsStay(t, es[1..]);
      }
    }
  }

  // Over every run from an undecided review: it is decided at most once, whoever
  // decides, exactly when each deciding write finds it undecided and never
  // reopened. The status test is the one the comment on the UPDATE promises.
  lemma DecidedAtMostOnce(init: State, es: seq<Event>)
    requires Init(init) && init.review.status != Decided
    ensures |Run(init, es).decisions| <= 1 <==> DecidesOnOpen(init, false, es)
  {
    InitInv(init);
    DecidedOnceFrom(init, false, es);
  }

  // ---- what atomic actions would give --------------------------------------

  lemma {:induction false} OpenWritesDecideOnOpen(s: State, es: seq<Event>)
    requires Inv(s) && NeverLandsOnClosed(s, es)
    ensures DecidesOnOpen(s, false, es)
    decreases |es|
  {
    if es != [] {
      ApplyInv(s, es[0]);
      if Closed(s.review.status) { ClosedStepUnchanged(s, es[0]); }
      OpenWritesDecideOnOpen(Apply(s, es[0]), es[1..]);
    }
  }

  // The load of an action that passed its guards: its update comes next.
  predicate LoadsAction(s: State, e: Event) {
    && e.Advance? && e.r in s.requests && s.requests[e.r].pc.Executing?
    && ActionAllowed(s.requests[e.r], s.review.status, s.review.version)
  }

  predicate WorkersTurn(e: Event) {
    e.WorkerWrite? || e.WorkerRelease?
  }

  // The load and the update of each action are one step, and so are a timeout
  // worker's claim and its write or release; a revoke finds the review open.
  ghost predicate ActionsAtomic(s: State, es: seq<Event>)
    decreases |es|
  {
    es == [] || (
      && (LoadsAction(s, es[0]) && |es| > 1 ==> es[1] == es[0])
      && (Apply(s, es[0]).review.claimed && |es| > 1 ==> WorkersTurn(es[1]))
      && (es[0].Revoke? ==> !Closed(s.review.status))
      && ActionsAtomic(Apply(s, es[0]), es[1..]))
  }

  // Between two such steps nothing is loaded or claimed; inside one, its owner
  // comes next and the review is open.
  ghost predicate InTurn(s: State, es: seq<Event>) {
    && (s.review.claimed ==> !Closed(s.review.status) && (es == [] || WorkersTurn(es[0])))
    && (NoneLoaded(s) || (exists r :: OnlyLoaded(s, r) && (es == [] || es[0] == Advance(r))))
  }

  ghost predicate NoneLoaded(s: State) {
    forall r | r in s.requests :: !s.requests[r].pc.Loaded?
  }

  ghost predicate OnlyLoaded(s: State, r: RequestId) {
    r in s.requests && s.requests[r].pc.Loaded? && !Closed(s.review.status)
    && forall q | q in s.requests && q != r :: !s.requests[q].pc.Loaded?
  }

  predicate ActsFor(e: Event, r: RequestId) {
    (e.Advance? || e.FailAfterLanding? || e.LoseRevert? || e.Kill?) && e.r == r
  }

  lemma OthersUntouched(s: State, e: Event, q: RequestId)
    requires q in s.requests && !ActsFor(e, q)
    ensures q in Apply(s, e).requests && Apply(s, e).requests[q] == s.requests[q]
  {
  }

  lemma SameRequests(s: State, e: Event)
    ensures Apply(s, e).requests.Keys == s.requests.Keys
  {
  }

  lemma OnlyALoadLoads(s: State, e: Event, r: RequestId)
    requires r in s.requests && ActsFor(e, r) && !s.requests[r].pc.Loaded?
    ensures r in Apply(s, e).requests && (Apply(s, e).requests[r].pc.Loaded? <==> LoadsAction(s, e))
  {
    if e.Advance? { OnlyExecutingLoads(s, r); }
  }

  lemma OnlyExecutingLoads(s: State, r: RequestId)
    requires r in s.requests && !s.requests[r].pc.Loaded?
    ensures var q, t := s.requests[r], Step(s, r);
            && r in t.requests
            && (t.requests[r].pc.Loaded? <==> q.pc.Executing? && ActionAllowed(q, s.review.status, s.review.version))
  {
    if !s.requests[r].pc.Executing? { OthersLoadNothing(s, r); }
  }

  lemma OthersLoadNothing(s: State, r: RequestId)
    requires r in s.requests && !s.requests[r].pc.Loaded? && !s.requests[r].pc.Executing?
    ensures r in Step(s, r).requests && !Step(s, r).requests[r].pc.Loaded?
  {
    var pc := s.requests[r].pc;
    if pc.Preflighted? {
      assert Step(s, r).requests[r].pc.Executing? || Step(s, r).requests[r].pc.Done?;
    } else if pc.Failing? {
      assert Revert(s, r).requests[r].pc.Done?;
    }
  }

  lemma LoadLeavesOneLoaded(s: State, e: Event)
    requires Inv(s) && NoneLoaded(s)
    ensures if LoadsAction(s, e) then OnlyLoaded(Apply(s, e), e.r) else NoneLoaded(Apply(s, e))
  {
    SameRequests(s, e);
    forall q | q in s.requests
      ensures Apply(s, e).requests[q].pc.Loaded? <==> LoadsAction(s, e) && e.r == q
    {
      if ActsFor(e, q) { OnlyALoadLoads(s, e, q); } else { OthersUntouched(s, e, q); }
    }
    ApplyInv(s, e);
    if LoadsAction(s, e) { assert RequestOk(Apply(s, e), e.r); }
  }

  lemma UpdateLeavesNoneLoaded(s: State, r: RequestId)
    requires OnlyLoaded(s, r)
    ensures NoneLoaded(Apply(s, Advance(r)))
  {
  }

  lemma TurnPasses(s: State, es: seq<Event>)
    requires Inv(s) && InTurn(s, es) && es != [] && ActionsAtomic(s, es)
    ensures !LandsOnClosed(s, es[0]) && InTurn(Apply(s, es[0]), es[1..])
  {
    var e := es[0];
    var t := Apply(s, e);
    assert es[1..] != [] ==> es[1..][0] == es[1];
    if NoneLoaded(s) {
      LoadLeavesOneLoaded(s, e);
      if LoadsAction(s, e) { assert OnlyLoaded(t, e.r); }
    } else {
      var r :| OnlyLoaded(s, r) && e == Advance(r);
      UpdateLeavesNoneLoaded(s, r);
    }
    ClaimNeedsOpen(s, e);
  }

  lemma ClaimNeedsOpen(s: State, e: Event)
    requires Inv(s) && (s.review.claimed ==> WorkersTurn(e))
    ensures Apply(s, e).review.claimed ==> !Closed(Apply(s, e).review.status)
  {
  }

  lemma {:induction false} AtomicActionsNeverLandOnClosed(s: State, es: seq<Event>)
    requires Inv(s) && InTurn(s, es) && ActionsAtomic(s, es)
    ensures NeverLandsOnClosed(s, es)
    decreases |es|
  {
    if es != [] {
      ApplyInv(s, es[0]);
      TurnPasses(s, es);
      AtomicActionsNeverLandOnClosed(Apply(s, es[0]), es[1..]);
    }
  }

  // When every action and every worker's claim-to-write window is one step and
  // no revoke meets a closed review, the review is decided at most once and
  // closing is final.
  lemma AtomicActionsDecideOnce(init: State, es: seq<Event>)
    requires Init(init) && !Closed(init.review.status)
    requires ActionsAtomic(init, es)
    ensures |Run(init, es).decisions| <= 1
    ensures ClosingIsFinal(init, es)
  {
    InitInv(init);
    AtomicActionsNeverLandOnClosed(init, es);
    ClosingIsFinalExactlyWhen(init, es);
    OpenWritesDecideOnOpen(init, es);
    DecidedAtMostOnce(init, es);
  }

  // ---- and the code as shipped does not meet it ---------------------------

  // A decision over link t, or from the main app.
  function Decider(t: Option<TokenId>): Request {
    Request(t, Decision, true, {Pending, AwaitingExternal}, None, true, true, Start, false, false)
  }

  // One active link, a request over it, and two main-app decisions.
  function OneLink(): State {
    State(0, map[0 := Token(Unused, false, 10, false)], Review(AwaitingExternal, 1, false),
          map[0 := Decider(Some(0)), 1 := Decider(None), 2 := Decider(None)], [])
  }

  lemma RunSplit(s: State, es: seq<Event>, fs: seq<Event>)
    ensures Run(s, es + fs) == Run(Run(s, es), fs)
    decreases |es|
  {
    if es == [] {
      assert es + fs == fs;
    } else {
      assert (es + fs)[0] == es[0] && (es + fs)[1..] == es[1..] + fs;
      RunSplit(Apply(s, es[0]), es[1..], fs);
    }
  }

  function Times(e: Event, n: nat): seq<Event> {
    if n == 0 then [] else [e] + Times(e, n - 1)
  }

  ghost function After(s: State, e: Event, n: nat): State
    decreases n
  {
    if n == 0 then s else After(Apply(s, e), e, n - 1)
  }

  lemma {:induction false} RunTimes(s: State, e: Event, n: nat, es: seq<Event>)
    ensures Run(s, Times(e, n) + es) == Run(After(s, e, n), es)
    decreases n
  {
    if n == 0 {
      assert Times(e, n) + es == es;
    } else {
      assert Times(e, n) + es == [e] + (Times(e, n - 1) + es);
      assert ([e] + (Times(e, n - 1) + es))[1..] == Times(e, n - 1) + es;
      RunTimes(Apply(s, e), e, n - 1, es);
    }
  }

  lemma RunCons(s: State, e: Event, es: seq<Event>)
    ensures Run(s, [e] + es) == Run(Apply(s, e), es)
  {
    assert ([e] + es)[1..] == es;
  }

  // A main-app decision alone: two steps to its load, two more to its answer.
  lemma MainAppLoads(s: State, r: RequestId)
    requires r in s.requests && s.requests[r] == Decider(None) && Accepting(s.review.status)
    ensures After(s, Advance(r), 2) == SetPc(s, r, Loaded(s.review.status, s.review.version))
  {
    var s1 := Apply(s, Advance(r));
    assert s1 == SetPc(s, r, Executing);
    assert Apply(s1, Advance(r)) == SetPc(s1, r, Loaded(s.review.status, s.review.version));
    assert After(s1, Advance(r), 1) == After(Apply(s1, Advance(r)), Advance(r), 0);
  }

  lemma UpdateLands(s: State, r: RequestId, status: Status, q: Request)
    requires r in s.requests && s.requests[r] == q.(pc := Loaded(status, s.review.version)) && q.kind == Decision
    ensures var t := Apply(s, Advance(r));
            && t.decisions == s.decisions + [ByRequest(r)] && t.review == s.review.(status := Decided)
            && t.tokens == s.tokens && t.now == s.now && r in t.requests && t.requests[r].pc == Landed
            && forall p | p in s.requests && p != r :: p in t.requests && t.requests[p] == s.requests[p]
  {
  }

  lemma MainAppDecides(s: State, r: RequestId)
    requires r in s.requests && s.requests[r] == Decider(None) && Accepting(s.review.status)
    ensures var t := After(s, Advance(r), 4);
            && t.decisions == s.decisions + [ByRequest(r)] && t.review == s.review.(status := Decided)
            && t.tokens == s.tokens && t.now == s.now
            && forall p | p in s.requests && p != r :: p in t.requests && t.requests[p] == s.requests[p]
  {
    var e := Advance(r);
    MainAppLoads(s, r);
    AfterSplit(s, e, 2, 2);
    var s2 := After(s, e, 2);
    UpdateLands(s2, r, s.review.status, Decider(None));
    var s3 := Apply(s2, e);
    assert After(s2, e, 2) == After(s3, e, 1) == Apply(s3, e);
    assert Apply(s3, e) == SetPc(s3, r, Done(Accepted));
  }

  lemma {:induction false} AfterSplit(s: State, e: Event, m: nat, n: nat)
    ensures After(s, e, m + n) == After(After(s, e, m), e, n)
    decreases m
  {
    if m > 0 {
      AfterSplit(Apply(s, e), e, m - 1, n);
    }
  }

  // The recipient's request up to its load.
  lemma RecipientLoads() returns (s: State)
    ensures s == After(OneLink(), Advance(0), 5)
    ensures s.review == OneLink().review && s.decisions == []
    ensures 0 in s.requests && s.requests[0] == Decider(Some(0)).(pc := Loaded(AwaitingExternal, 1))
    ensures 1 in s.requests && s.requests[1] == Decider(None)
  {
    s := After(OneLink(), Advance(0), 5);
  }

  // The recipient's request and a main-app request load the open review before
  // either update lands; the version is the same for both, so both land.
  lemma OverlappingActionsDecideTwice() returns (es: seq<Event>)
    ensures Init(OneLink())
    ensures Run(OneLink(), es).decisions == [ByRequest(0), ByRequest(1)]
    ensures !DecidesOnOpen(OneLink(), false, es) && !ClosingIsFinal(OneLink(), es)
  {
    var s0, a, b := OneLink(), Advance(0), Advance(1);
    var last := [b] + [];
    es := Times(a, 5) + (Times(b, 2) + ([a] + last));
    var s1 := RecipientLoads();
    var s2 := After(s1, b, 2);
    RunTimes(s0, a, 5, Times(b, 2) + ([a] + last));
    RunTimes(s1, b, 2, [a] + last);
    RunCons(s2, a, last);
    RunCons(Apply(s2, a), b, []);
    MainAppLoads(s1, 1);
    UpdateLands(s2, 0, AwaitingExternal, Decider(Some(0)));
    UpdateLands(Apply(s2, a), 1, AwaitingExternal, Decider(None));
    TwiceDecided(s0, es);
  }

  // A run with two decisions breaks both conditions.
  lemma TwiceDecided(init: State, es: seq<Event>)
    requires Init(init) && !Closed(init.review.status) && |Run(init, es).decisions| > 1
    ensures !DecidesOnOpen(init, false, es) && !ClosingIsFinal(init, es)
  {
    InitInv(init);
    DecidedAtMostOnce(init, es);
    ClosingIsFinalExactlyWhen(init, es);
    if NeverLandsOnClosed(init, es) { OpenWritesDecideOnOpen(init, es); }
  }

  // A worker that has claimed the review decides it again after an action has.
  lemma LateWorkerDecidesAgain() returns (es: seq<Event>)
    ensures Run(OneLink(), es).decisions == [ByRequest(1), ByTimeout]
    ensures !DecidesOnOpen(OneLink(), false, es)
  {
    var s0, b := OneLink(), Advance(1);
    var last := [WorkerWrite(true)] + [];
    es := [WorkerClaim] + (Times(b, 4) + last);
    var s1 := Apply(s0, WorkerClaim);
    var s2 := After(s1, b, 4);
    RunCons(s0, WorkerClaim, Times(b, 4) + last);
    RunTimes(s1, b, 4, last);
    RunCons(s2, WorkerWrite(true), []);
    MainAppDecides(s1, 1);
    TwiceDecided(s0, es);
  }

  lemma RevokeSetsPending(s: State, t: TokenId)
    requires ActiveToken(s, t)
    ensures var u := Apply(s, Revoke(t));
            u.review == s.review.(status := Pending) && u.requests == s.requests && u.decisions == s.decisions
  {
  }

  // Without any overlap at all: a revoke of the link that is still active sets
  // the decided review back to pending, and the next action decides it again.
  lemma RevokeReopens() returns (es: seq<Event>)
    ensures Run(OneLink(), es).decisions == [ByRequest(1), ByRequest(2)]
    ensures !DecidesOnOpen(OneLink(), false, es)
  {
    var s0, b, c := OneLink(), Advance(1), Advance(2);
    var last := Times(c, 4) + [];
    es := Times(b, 4) + ([Revoke(0)] + last);
    var s1 := After(s0, b, 4);
    var s2 := Apply(s1, Revoke(0));
    RunTimes(s0, b, 4, [Revoke(0)] + last);
    RunCons(s1, Revoke(0), last);
    RunTimes(s2, c, 4, []);
    MainAppDecides(s0, 1);
    RevokeSetsPending(s1, 0);
    MainAppDecides(s2, 2);
    TwiceDecided(s0, es);
  }
}
