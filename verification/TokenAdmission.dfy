// Which requests the review-link protocol lets through and what each of its
// events does to a link, written out in the fields of the rows.
module TokenAdmission {
  import opened Wrappers
  import opened TokenProtocol
  import opened TokenProtocolProofs
  import opened TokenHandler

  // Not past the gates: not asked yet, refused, or killed before the link was taken.
  predicate Outside(pc: Pc) {
    pc.Start? || pc.RowRead? || pc == Done(Refused) || pc == Done(Killed(false))
  }

  // ---- over every run ------------------------------------------------------

  // The row a request has read is of its link's kind; one past the gates was
  // authorized, over a link that is no preview.
  ghost predicate Vouched(s: State, r: RequestId)
    requires r in s.requests
  {
    var q := s.requests[r];
    q.token.Some? ==>
      && (q.pc.RowRead? || !Outside(q.pc) ==> q.token.value in s.tokens)
      && (q.pc.RowRead? ==> s.tokens[q.token.value].preview == q.pc.row.preview)
      && (!Outside(q.pc) ==> !s.tokens[q.token.value].preview && q.authorized)
  }

  lemma LinkKept(s: State, e: Event, t: TokenId)
    requires t in s.tokens
    ensures t in Apply(s, e).tokens
    ensures Apply(s, e).tokens[t].preview == s.tokens[t].preview
  {
  }

  lemma GateVouched(s: State, r: RequestId)
    requires r in s.requests && Vouched(s, r) && (s.requests[r].pc.Start? || s.requests[r].pc.RowRead?)
    ensures r in Step(s, r).requests && Vouched(Step(s, r), r)
  {
  }

  lemma UpdateVouched(s: State, r: RequestId)
    requires r in s.requests && Vouched(s, r) && (s.requests[r].pc.Loaded? || s.requests[r].pc.Failing?)
    ensures r in Step(s, r).requests && Vouched(Step(s, r), r)
  {
  }

  lemma StepVouched(s: State, r: RequestId)
    requires r in s.requests && Vouched(s, r)
    ensures r in Step(s, r).requests && Vouched(Step(s, r), r)
  {
    var pc := s.requests[r].pc;
    if pc.Start? || pc.RowRead? {
      GateVouched(s, r);
    } else if pc.Loaded? || pc.Failing? {
      UpdateVouched(s, r);
    }
  }

  lemma ApplyVouched(s: State, e: Event, r: RequestId)
    requires r in s.requests && Vouched(s, r)
    ensures r in Apply(s, e).requests && Vouched(Apply(s, e), r)
  {
    var q := s.requests[r];
    if q.token.Some? && q.token.value in s.tokens { LinkKept(s, e, q.token.value); }
    if e == Advance(r) { StepVouched(s, r); } else if !ActsFor(e, r) { OthersUntouched(s, e, r); }
  }

  lemma {:induction false} RunVouched(s: State, es: seq<Event>, r: RequestId)
    requires r in s.requests && Vouched(s, r)
    ensures r in Run(s, es).requests && Vouched(Run(s, es), r)
    decreases |es|
  {
    if es != [] {
      ApplyVouched(s, es[0], r);
      RunVouched(Apply(s, es[0]), es[1..], r);
    }
  }

  // Over every run, a request that took its link or decided was authorized, over
  // a link that is there and no preview.
  lemma LetThrough(init: State, es: seq<Event>, r: RequestId)
    requires Init(init)
    requires var s := Run(init, es);
             && r in s.requests && s.requests[r].token.Some?
             && (ByRequest(r) in s.decisions
                 || !(s.requests[r].pc.Start? || s.requests[r].pc.RowRead?
                      || s.requests[r].pc == Done(Refused) || s.requests[r].pc == Done(Killed(false))))
    ensures var s := Run(init, es);
            && s.requests[r].authorized
            && s.requests[r].token.value in s.tokens && !s.tokens[s.requests[r].token.value].preview
  {
    RequestsStay(init, es, r);
    RunVouched(init, es, r);
    InitInv(init);
    RunInv(init, es);
    assert RequestOk(Run(init, es), r);
  }

  lemma {:induction false} RequestsStay(s: State, es: seq<Event>, r: RequestId)
    ensures r in Run(s, es).requests <==> r in s.requests
    decreases |es|
  {
    if es != [] {
      SameRequests(s, es[0]);
      RequestsStay(Apply(s, es[0]), es[1..], r);
    }
  }

  // The stamp of r on link t.
  predicate Stamped(s: State, t: TokenId, r: RequestId) {
    t in s.tokens && s.tokens[t].stamp == UsedBy(r)
  }

  lemma ConsumeStamps(s: State, p: RequestId, t: TokenId, r: RequestId)
    requires p in s.requests && s.requests[p].pc.Preflighted? && Vouched(s, p)
    ensures Stamped(s, t, r) ==> Stamped(Step(s, p), t, r)
    ensures !Stamped(s, t, r) && Stamped(Step(s, p), t, r) ==>
              && p == r && s.requests[r].token == Some(t) && s.requests[r].authorized
              && t in s.tokens && !s.tokens[t].revoked && s.tokens[t].stamp == Unused
              && s.now < s.tokens[t].expiresAt && !s.tokens[t].preview
  {
  }

  lemma RevertStamps(s: State, p: RequestId, t: TokenId, r: RequestId)
    requires p in s.requests && s.requests[p].pc.Failing? && RequestOk(s, p)
    ensures Stamped(Step(s, p), t, r) ==> Stamped(s, t, r)
    ensures Stamped(s, t, r) && !Stamped(Step(s, p), t, r) ==>
              p == r && s.requests[r].token == Some(t) && Step(s, p).tokens[t].stamp == Unused
  {
  }

  lemma OtherStepsStampNothing(s: State, r: RequestId)
    requires r in s.requests && !s.requests[r].pc.Preflighted? && !s.requests[r].pc.Failing?
    ensures Step(s, r).tokens == s.tokens
  {
  }

  lemma OthersStampNothing(s: State, e: Event, t: TokenId, r: RequestId)
    requires e.Advance? ==> e.r !in s.requests
    ensures Stamped(Apply(s, e), t, r) <==> Stamped(s, t, r)
  {
  }

  // The one event of a run that puts a request's stamp on a link is that
  // request's own step; then the link is unrevoked, unused, unexpired and no
  // preview, and the request authorized for it. The one event that takes it off
  // is the request's compensating update.
  lemma StampComesAndGoes(init: State, es: seq<Event>, e: Event, t: TokenId, r: RequestId)
    requires Init(init)
    ensures var s := Run(init, es);
            && (!Stamped(s, t, r) && Stamped(Apply(s, e), t, r) ==>
                  && e == Advance(r) && r in s.requests && s.requests[r].token == Some(t) && s.requests[r].authorized
                  && t in s.tokens && !s.tokens[t].revoked && s.tokens[t].stamp == Unused
                  && s.now < s.tokens[t].expiresAt && !s.tokens[t].preview)
            && (Stamped(s, t, r) && !Stamped(Apply(s, e), t, r) ==>
                  && e == Advance(r) && r in s.requests && s.requests[r].token == Some(t)
                  && s.requests[r].pc == Failing && Apply(s, e).tokens[t].stamp == Unused)
  {
    InitInv(init);
    RunInv(init, es);
    var s := Run(init, es);
    if e.Advance? && e.r in s.requests {
      var q := s.requests[e.r];
      assert RequestOk(s, e.r);
      RequestsStay(init, es, e.r);
      RunVouched(init, es, e.r);
      if q.pc.Preflighted? { ConsumeStamps(s, e.r, t, r); }
      else if q.pc.Failing? { RevertStamps(s, e.r, t, r); }
      else { OtherStepsStampNothing(s, e.r); }
    } else {
      OthersStampNothing(s, e, t, r);
    }
  }

  // ---- gate by gate --------------------------------------------------------

  // Whatever ran in between: a request goes on from its second read exactly when
  // the row read first was live and the review is open now, from the preflight
  // exactly when the review still is, and from consume exactly when the row is
  // live now.
  lemma PassesExactlyWhen(s: State, r: RequestId, t: TokenId)
    requires r in s.requests && s.requests[r].token == Some(t)
    ensures var q := s.requests[r];
            var next := Apply(s, Advance(r)).requests[r].pc;
            && (q.pc.RowRead? ==>
                  (next == Validated <==>
                     && !q.pc.row.revoked && q.pc.row.stamp == Unused && s.now < q.pc.row.expiresAt
                     && !q.pc.row.preview && q.authorized
                     && (s.review.status == Pending || s.review.status == AwaitingExternal))
                  && (next != Validated ==> next == Done(Refused)))
            && (q.pc == Validated ==>
                  next == if s.review.status in {Pending, AwaitingExternal} then Preflighted else Done(Refused))
            && (q.pc == Preflighted ==>
                  (next == Executing <==>
                     && t in s.tokens && !s.tokens[t].revoked && s.tokens[t].stamp == Unused
                     && s.now < s.tokens[t].expiresAt)
                  && (next != Executing ==> next == Done(Refused) && Apply(s, Advance(r)).tokens == s.tokens))
  {
  }

  // An update that meets another version than the one loaded changes nothing, and
  // the request ends with its stamp cleared.
  lemma StaleVersionRollsBack(s: State, r: RequestId)
    requires Inv(s) && r in s.requests && s.requests[r].pc.Loaded? && s.requests[r].pc.version != s.review.version
    ensures var u := Apply(Apply(s, Advance(r)), Advance(r));
            && u.review == s.review && u.decisions == s.decisions
            && r in u.requests && u.requests[r] == s.requests[r].(pc := Done(RolledBack))
            && u.tokens == match s.requests[r].token
                           case Some(t) => s.tokens[t := s.tokens[t].(stamp := Unused)]
                           case None => s.tokens
  {
    assert RequestOk(s, r);
    assert Apply(s, Advance(r)) == SetPc(s, r, Failing);
  }

  // ---- a request left alone ------------------------------------------------

  lemma {:induction false} DoneStays(s: State, r: RequestId, n: nat)
    requires r in s.requests && s.requests[r].pc.Done?
    ensures After(s, Advance(r), n) == s
    decreases n
  {
    if n > 0 {
      DoneStays(s, r, n - 1);
    }
  }

  lemma NextAfter(s: State, r: RequestId, n: nat, t: State)
    requires n > 0 && r in s.requests && Step(s, r) == t
    ensures After(s, Advance(r), n) == After(t, Advance(r), n - 1)
  {
  }

  // What the action does to the rows as they stand when it loads the review.
  predicate Allowed(q: Request, review: Review) {
    && (review.status == Decided || review.status == Expired ==> q.kind == Cancel)
    && (review.status == AwaitingIteration && q.plain ==> q.kind == Cancel)
    && review.status in q.enabledFor
    && (q.expectedVersion == None || q.expectedVersion == Some(review.version))
    && q.valid
  }

  function Written(kind: Kind, status: Status): Status {
    match kind
    case Decision => Decided
    case Iteration => AwaitingIteration
    case SideEffect => status
    case Cancel => if status == AwaitingIteration then Pending else status
  }

  function Executed(s: State, r: RequestId): State
    requires r in s.requests
  {
    var q := s.requests[r];
    s.(review := s.review.(status := Written(q.kind, s.review.status)),
       requests := s.requests[r := q.(pc := Done(Accepted), decided := q.kind == Decision)],
       decisions := s.decisions + if q.kind == Decision then [ByRequest(r)] else [])
  }

  function Compensated(s: State, r: RequestId): State
    requires r in s.requests
  {
    var q := s.requests[r];
    s.(tokens := if q.token.Some? && q.token.value in s.tokens
                 then s.tokens[q.token.value := s.tokens[q.token.value].(stamp := Unused)] else s.tokens,
       requests := s.requests[r := q.(pc := Done(RolledBack))])
  }

  lemma ExecutedAlone(s: State, r: RequestId, n: nat)
    requires r in s.requests && s.requests[r].pc == Executing && Allowed(s.requests[r], s.review) && n >= 3
    ensures After(s, Advance(r), n) == Executed(s, r)
  {
    var s1, s3 := SetPc(s, r, Loaded(s.review.status, s.review.version)), Executed(s, r);
    var s2 := SetPc(s3, r, Landed);
    NextAfter(s, r, n, s1);
    LandsAlone(s, r);
    NextAfter(s1, r, n - 1, s2);
    RespondsAlone(s3, r);
    NextAfter(s2, r, n - 2, s3);
    DoneStays(s3, r, n - 3);
  }

  lemma RespondsAlone(s: State, r: RequestId)
    requires r in s.requests && s.requests[r].pc == Done(Accepted)
    ensures Step(SetPc(s, r, Landed), r) == s
  {
    assert s.requests[r := s.requests[r]] == s.requests;
  }

  lemma LandsAlone(s: State, r: RequestId)
    requires r in s.requests
    ensures Step(SetPc(s, r, Loaded(s.review.status, s.review.version)), r) == SetPc(Executed(s, r), r, Landed)
  {
    assert s.decisions + [] == s.decisions;
  }

  lemma CompensatedAlone(s: State, r: RequestId, n: nat)
    requires r in s.requests && s.requests[r].pc == Executing && !Allowed(s.requests[r], s.review) && n >= 2
    ensures After(s, Advance(r), n) == Compensated(s, r)
  {
    var s1 := SetPc(s, r, Failing);
    NextAfter(s, r, n, s1);
    RevertsAlone(s, r);
    NextAfter(s1, r, n - 1, Compensated(s, r));
    DoneStays(Compensated(s, r), r, n - 2);
  }

  lemma RevertsAlone(s: State, r: RequestId)
    requires r in s.requests
    ensures Step(SetPc(s, r, Failing), r) == Compensated(s, r)
  {
  }

  // A main-app action that nothing interrupts, after its four steps.
  lemma MainAppAlone(s: State, r: RequestId, n: nat)
    requires n >= 4 && r in s.requests && s.requests[r].pc == Start && s.requests[r].token == None
    ensures var q, u, status := s.requests[r], After(s, Advance(r), n), s.review.status;
            var allowed :=
              && (status == Decided || status == Expired ==> q.kind == Cancel)
              && (status == AwaitingIteration && q.plain ==> q.kind == Cancel)
              && status in q.enabledFor
              && (q.expectedVersion == None || q.expectedVersion == Some(s.review.version))
              && q.valid;
            && r in u.requests && u.requests[r].pc == Done(if allowed then Accepted else RolledBack)
            && u.tokens == s.tokens && u.review.version == s.review.version
            && u.review.status == (if !allowed then status
                                   else if q.kind == Decision then Decided
                                   else if q.kind == Iteration then AwaitingIteration
                                   else if q.kind == Cancel && status == AwaitingIteration then Pending
                                   else status)
            && u.decisions == s.decisions + (if allowed && q.kind == Decision then [ByRequest(r)] else [])
  {
    var s1 := SetPc(s, r, Executing);
    NextAfter(s, r, n, s1);
    if Allowed(s.requests[r], s.review) { ExecutedAlone(s1, r, n - 1); } else { CompensatedAlone(s1, r, n - 1); }
  }

  predicate Admitted(s: State, q: Request, t: TokenId) {
    && t in s.tokens && !s.tokens[t].revoked && s.tokens[t].stamp == Unused
    && s.now < s.tokens[t].expiresAt && !s.tokens[t].preview && q.authorized
    && (s.review.status == Pending || s.review.status == AwaitingExternal)
  }

  // The row with the link taken by r.
  function Taken(s: State, r: RequestId, t: TokenId): State
    requires r in s.requests && t in s.tokens
  {
    s.(tokens := s.tokens[t := s.tokens[t].(stamp := UsedBy(r))],
       requests := s.requests[r := s.requests[r].(pc := Executing)])
  }

  lemma JudgedAlone(s: State, r: RequestId, t: TokenId)
    requires r in s.requests && s.requests[r].token == Some(t) && t in s.tokens
    ensures Step(SetPc(s, r, RowRead(s.tokens[t])), r)
         == SetPc(s, r, if Admitted(s, s.requests[r], t) then Validated else Done(Refused))
  {
  }

  lemma ReadAlone(s: State, r: RequestId, t: TokenId, n: nat)
    requires n >= 7 && r in s.requests && s.requests[r].pc == Start && s.requests[r].token == Some(t) && t in s.tokens
    ensures After(s, Advance(r), n)
         == After(SetPc(s, r, if Admitted(s, s.requests[r], t) then Validated else Done(Refused)), Advance(r), n - 2)
  {
    var s1 := SetPc(s, r, RowRead(s.tokens[t]));
    JudgedAlone(s, r, t);
    NextAfter(s, r, n, s1);
    NextAfter(s1, r, n - 1, Step(s1, r));
  }

  lemma RefusedAlone(s: State, r: RequestId, t: TokenId, n: nat)
    requires n >= 7 && r in s.requests && s.requests[r].pc == Start && s.requests[r].token == Some(t)
    requires !Admitted(s, s.requests[r], t)
    ensures After(s, Advance(r), n) == SetPc(s, r, Done(Refused))
  {
    var refused := SetPc(s, r, Done(Refused));
    if t in s.tokens {
      ReadAlone(s, r, t, n);
      DoneStays(refused, r, n - 2);
    } else {
      NextAfter(s, r, n, refused);
      DoneStays(refused, r, n - 1);
    }
  }

  lemma TakenAlone(s: State, r: RequestId, t: TokenId, n: nat)
    requires n >= 7 && r in s.requests && s.requests[r].token == Some(t) && Admitted(s, s.requests[r], t)
    ensures After(SetPc(s, r, Validated), Advance(r), n - 2) == After(Taken(s, r, t), Advance(r), n - 4)
  {
    var s3 := SetPc(s, r, Preflighted);
    NextAfter(SetPc(s, r, Validated), r, n - 2, s3);
    NextAfter(s3, r, n - 3, Taken(s, r, t));
  }

  lemma AcceptedAlone(s: State, r: RequestId, t: TokenId, n: nat)
    requires n >= 7 && r in s.requests && s.requests[r].pc == Start && s.requests[r].token == Some(t)
    requires Admitted(s, s.requests[r], t) && Allowed(s.requests[r], s.review)
    ensures After(s, Advance(r), n) == Executed(Taken(s, r, t), r)
  {
    ReadAlone(s, r, t, n);
    TakenAlone(s, r, t, n);
    ExecutedAlone(Taken(s, r, t), r, n - 4);
  }

  lemma TakenAndCleared(s: State, r: RequestId, t: TokenId)
    requires r in s.requests && s.requests[r].token == Some(t) && t in s.tokens && s.tokens[t].stamp == Unused
    ensures Compensated(Taken(s, r, t), r) == SetPc(s, r, Done(RolledBack))
  {
    var taken := Taken(s, r, t).tokens;
    assert taken[t := taken[t].(stamp := Unused)] == s.tokens;
  }

  lemma RolledBackAlone(s: State, r: RequestId, t: TokenId, n: nat)
    requires n >= 7 && r in s.requests && s.requests[r].pc == Start && s.requests[r].token == Some(t)
    requires Admitted(s, s.requests[r], t) && !Allowed(s.requests[r], s.review)
    ensures After(s, Advance(r), n) == SetPc(s, r, Done(RolledBack))
  {
    ReadAlone(s, r, t, n);
    TakenAlone(s, r, t, n);
    CompensatedAlone(Taken(s, r, t), r, n - 4);
    TakenAndCleared(s, r, t);
  }

  // A recipient's decision that nothing interrupts, after its seven steps, is accepted, refused or rolled
  // back by what the two rows say; only when it is accepted is anything left
  // behind.
  lemma LinkAlone(s: State, r: RequestId, t: TokenId, n: nat)
    requires n >= 7 && r in s.requests && s.requests[r].pc == Start && s.requests[r].token == Some(t)
    requires s.requests[r].kind == Decision
    ensures var q, u := s.requests[r], After(s, Advance(r), n);
            var admitted :=
              && t in s.tokens && !s.tokens[t].revoked && s.tokens[t].stamp == Unused
              && s.now < s.tokens[t].expiresAt && !s.tokens[t].preview && q.authorized
              && (s.review.status == Pending || s.review.status == AwaitingExternal);
            var allowed :=
              && s.review.status in q.enabledFor
              && (q.expectedVersion == None || q.expectedVersion == Some(s.review.version))
              && q.valid;
            && r in u.requests
            && u.requests[r].pc == Done(if !admitted then Refused else if allowed then Accepted else RolledBack)
            && u.tokens == (if admitted && allowed then s.tokens[t := s.tokens[t].(stamp := UsedBy(r))] else s.tokens)
            && u.review == (if admitted && allowed then s.review.(status := Decided) else s.review)
            && u.decisions == (if admitted && allowed then s.decisions + [ByRequest(r)] else s.decisions)
  {
    if !Admitted(s, s.requests[r], t) {
      RefusedAlone(s, r, t, n);
    } else if Allowed(s.requests[r], s.review) {
      AcceptedAlone(s, r, t, n);
    } else {
      RolledBackAlone(s, r, t, n);
    }
  }

  // Nothing else runs at any of n awaits.
  function Quiet(n: nat): seq<seq<Event>> {
    if n == 0 then [] else Quiet(n - 1) + [[]]
  }

  lemma {:induction false} QuietIs(n: nat)
    ensures |Quiet(n)| == n && forall k | 0 <= k < n :: Quiet(n)[k] == []
  {
    if n > 0 {
      QuietIs(n - 1);
    }
  }

  // One more step after awaits at which nothing ran.
  lemma QuietStep(s: State, r: RequestId, before: seq<seq<Event>>, n: nat)
    requires Run(s, Weave(r, before)) == After(s, Advance(r), n)
    ensures Run(s, Weave(r, before + [[]])) == After(s, Advance(r), n + 1)
  {
    var t := Run(s, Weave(r, before));
    WeaveConcat(r, before, [[]]);
    RunSplit(s, Weave(r, before), Weave(r, [[]]));
    WeaveOne(t, r, []);
    AfterSplit(s, Advance(r), n, 1);
    assert After(Apply(t, Advance(r)), Advance(r), 0) == Apply(t, Advance(r));
  }

  lemma {:induction false} QuietRun(s: State, r: RequestId, n: nat)
    ensures Run(s, Weave(r, Quiet(n))) == After(s, Advance(r), n)
  {
    if n > 0 {
      QuietRun(s, r, n - 1);
      QuietStep(s, r, Quiet(n - 1), n - 1);
    }
  }

  // The handler itself on a system where nothing else runs.
  method HandleAlone(store: Store, r: RequestId) returns (outcome: Outcome)
    requires r in store.requests && store.requests[r].pc == Start && store.requests[r].kind == Decision
    requires store.requests[r].token.Some?
    modifies store
    ensures var q, t := old(store.requests[r]), old(store.requests[r].token.value);
            var tokens, review := old(store.tokens), old(store.review);
            var admitted :=
              && t in tokens && !tokens[t].revoked && tokens[t].stamp == Unused
              && old(store.now) < tokens[t].expiresAt && !tokens[t].preview && q.authorized
              && (review.status == Pending || review.status == AwaitingExternal);
            var allowed :=
              && review.status in q.enabledFor
              && (q.expectedVersion == None || q.expectedVersion == Some(review.version))
              && q.valid;
            && outcome == (if !admitted then Refused else if allowed then Accepted else RolledBack)
            && store.tokens == (if outcome == Accepted then tokens[t := tokens[t].(stamp := UsedBy(r))] else tokens)
            && store.review == (if outcome == Accepted then review.(status := Decided) else review)
            && store.decisions == old(store.decisions) + (if outcome == Accepted then [ByRequest(r)] else [])
  {
    ghost var s, t := store.Abs(), store.requests[r].token.value;
    var others := Awaits();
    var steps;
    outcome, steps := store.Serve(r, others);
    ServedAlone(s, r, others, steps, store.Abs());
    LinkAlone(s, r, t, |others|);
  }

  method Awaits() returns (others: seq<seq<Event>>)
    ensures |others| == 7 && others == Quiet(|others|) && forall k | 0 <= k < 7 :: others[k] == []
  {
    others := Quiet(7);
    QuietIs(7);
  }

  lemma ServedAlone(s: State, r: RequestId, others: seq<seq<Event>>, steps: nat, u: State)
    requires others == Quiet(|others|) && steps <= |others| && u == Run(s, Weave(r, others[..steps]))
    requires r in u.requests && u.requests[r].pc.Done?
    ensures u == After(s, Advance(r), |others|)
  {
    QuietPart(|others|, steps);
    QuietRun(s, r, steps);
    DoneBy(s, r, steps, |others|);
  }

  lemma DoneBy(s: State, r: RequestId, m: nat, n: nat)
    requires m <= n
    requires var u := After(s, Advance(r), m); r in u.requests && u.requests[r].pc.Done?
    ensures After(s, Advance(r), n) == After(s, Advance(r), m)
  {
    AfterSplit(s, Advance(r), m, n - m);
    DoneStays(After(s, Advance(r), m), r, n - m);
  }

  lemma {:induction false} QuietPart(n: nat, m: nat)
    requires m <= n
    ensures |Quiet(n)| == n && Quiet(n)[..m] == Quiet(m)
  {
    QuietIs(n);
    if m < n {
      QuietPart(n - 1, m);
      assert Quiet(n)[..m] == Quiet(n - 1)[..m];
    }
  }

  // ---- what becomes of a link and of the review ----------------------------

  // A link appears when the pending review is sent out, a preview beside it; only
  // an active link is extended or revoked, only a live one replied to, and nothing
  // but these and the stamps above changes its row.
  lemma LinkMoves(s: State, e: Event, t: TokenId)
    requires Inv(s)
    ensures var u := Apply(s, e);
            var issued := e.Issue? && e.t == t && s.review.status == Pending;
            var previewed := e.IssuePreview? && e.t == t && s.review.status in {Pending, AwaitingExternal};
            && (t in u.tokens <==> t in s.tokens || issued || previewed)
            && (t !in s.tokens && t in u.tokens ==> u.tokens[t] == Token(Unused, false, e.expiresAt, previewed))
            && (t in s.tokens ==>
                  var row, next := s.tokens[t], u.tokens[t];
                  var live := !row.revoked && row.stamp == Unused && s.now < row.expiresAt;
                  && next.preview == row.preview
                  && next.expiresAt == row.expiresAt + (if e.Extend? && e.t == t && live && !row.preview
                                                        then e.hours * 3_600_000 else 0)
                  && (next.revoked <==> row.revoked || (e == Revoke(t) && live && !row.preview))
                  && (next.stamp == UsedElsewhere <==>
                        row.stamp == UsedElsewhere
                        || (e == RecipientReply(t) && live && !row.preview
                            && s.review.status in {Pending, AwaitingExternal})))
  {
    if e.Advance? && e.r in s.requests { assert RequestOk(s, e.r); }
  }

  // What the others write to the review. The version counts the resubmissions
  // and the recipients' replies and nothing else.
  lemma ReviewMoves(s: State, e: Event)
    requires !ActsForSomeone(e)
    ensures var was, u := s.review, Apply(s, e);
            var replied := e.RecipientReply? && e.t in s.tokens && !s.tokens[e.t].revoked
                           && s.tokens[e.t].stamp == Unused && s.now < s.tokens[e.t].expiresAt
                           && !s.tokens[e.t].preview && was.status in {Pending, AwaitingExternal};
            var revoked := e.Revoke? && e.t in s.tokens && !s.tokens[e.t].revoked
                           && s.tokens[e.t].stamp == Unused && s.now < s.tokens[e.t].expiresAt
                           && !s.tokens[e.t].preview;
            var reclaimed := e == Reclaim && was.status == AwaitingExternal
                             && forall t | t in s.tokens ::
                                  s.tokens[t].revoked || s.tokens[t].stamp != Unused || s.tokens[t].preview
                                  || s.tokens[t].expiresAt <= s.now;
            var resumed := was.status == AwaitingIteration && (e == ChangesLapse || e == Resubmit);
            var closed := was.status == AwaitingIteration && e == CloseIterations;
            var timedOut := e.WorkerWrite? && was.claimed;
            && u.review.status == (if replied || revoked || reclaimed || resumed then Pending
                                   else if closed || (timedOut && e.decides) then Decided
                                   else if timedOut then Expired
                                   else if e.Issue? && was.status == Pending && e.t !in s.tokens then AwaitingExternal
                                   else was.status)
            && u.review.version == was.version + (if replied || (resumed && e == Resubmit) then 1 else 0)
            && (u.review.claimed <==>
                  if e == WorkerClaim then was.claimed || was.status !in {Decided, Expired}
                  else was.claimed && !closed && !timedOut && e != WorkerRelease)
            && u.decisions == (if closed || (timedOut && e.decides) then s.decisions + [ByTimeout] else s.decisions)
            && u.requests == s.requests && u.now == s.now + (if e.Tick? then e.elapsed else 0)
  {
  }

  // A request's steps write to the review with its update only and to the link with
  // consume and revert only; a fault writes nothing and is recorded in the request.
  lemma RequestMoves(s: State, e: Event)
    requires ActsForSomeone(e) && e.r in s.requests
    ensures var q, u := s.requests[e.r], Apply(s, e);
            var lands := e.Advance? && q.pc.Loaded? && q.pc.version == s.review.version;
            && u.now == s.now
            && (!lands ==> u.review == s.review && u.decisions == s.decisions)
            && (lands ==>
                  && u.review.version == s.review.version && u.review.claimed == s.review.claimed
                  && u.decisions == if q.kind == Decision then s.decisions + [ByRequest(e.r)] else s.decisions)
            && (!(e.Advance? && (q.pc.Preflighted? || q.pc.Failing?)) ==> u.tokens == s.tokens)
            && (e.FailAfterLanding? ==>
                  u.requests == if q.pc.Landed? then s.requests[e.r := q.(pc := Failing, faulted := true)]
                                else s.requests)
            && (e.LoseRevert? ==>
                  u.requests == if q.pc.Failing? then s.requests[e.r := q.(pc := Done(RevertLost), faulted := true)]
                                else s.requests)
            && (e.Kill? ==>
                  var held := q.pc.Executing? || q.pc.Loaded? || q.pc.Landed? || q.pc.Failing?;
                  u.requests == if q.pc.Done? then s.requests
                                else s.requests[e.r := q.(pc := Done(Killed(held)), faulted := true)])
  {
    if e.Advance? { StepMoves(s, e.r); }
  }

  lemma StepMoves(s: State, r: RequestId)
    requires r in s.requests
    ensures var q, u := s.requests[r], Step(s, r);
            && u.now == s.now
            && (!(q.pc.Loaded? && q.pc.version == s.review.version) ==>
                  u.review == s.review && u.decisions == s.decisions)
            && (!q.pc.Preflighted? && !q.pc.Failing? ==> u.tokens == s.tokens)
  {
  }

  predicate ActsForSomeone(e: Event) {
    e.Advance? || e.FailAfterLanding? || e.LoseRevert? || e.Kill?
  }
}
