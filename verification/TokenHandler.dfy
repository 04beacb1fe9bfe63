// The handler of POST /:token/decide and POST /:token/action as it is written:
// one awaited database call after another, an error response at each check, and
// the compensating update when the action throws. Whatever the rest of the
// system does at each await, the handler is a run of TokenProtocol.
module TokenHandler {
  import opened Wrappers
  import opened TokenProtocol
  import opened TokenProtocolProofs

  datatype ConsumeError = Invalid | Revoked | AlreadyUsed | LinkExpired

  ghost predicate NotFor(r: RequestId, es: seq<Event>) {
    forall e | e in es :: !ActsFor(e, r)
  }

  lemma {:induction false} OthersLeaveRequest(s: State, es: seq<Event>, r: RequestId)
    requires NotFor(r, es) && r in s.requests
    ensures r in Run(s, es).requests && Run(s, es).requests[r] == s.requests[r]
    decreases |es|
  {
    if es != [] {
      OthersUntouched(s, es[0], r);
      OthersLeaveRequest(Apply(s, es[0]), es[1..], r);
    }
  }

  // The schedule in which others[k] runs before the k-th step of request r.
  function Weave(r: RequestId, others: seq<seq<Event>>): seq<Event> {
    if others == [] then []
    else Weave(r, others[..|others| - 1]) + others[|others| - 1] + [Advance(r)]
  }

  lemma WeaveOne(s: State, r: RequestId, others: seq<Event>)
    ensures Run(s, Weave(r, [others])) == Apply(Run(s, others), Advance(r))
  {
    assert [others][..0] == [];
    assert Weave(r, [others]) == others + [Advance(r)];
    RunSplit(s, others, [Advance(r)]);
    assert [Advance(r)] == [Advance(r)] + [];
    RunCons(Run(s, others), Advance(r), []);
  }

  lemma {:induction false} WeaveConcat(r: RequestId, xs: seq<seq<Event>>, ys: seq<seq<Event>>)
    ensures Weave(r, xs + ys) == Weave(r, xs) + Weave(r, ys)
    decreases |ys|
  {
    if ys == [] {
      assert xs + ys == xs;
    } else {
      var n := |ys| - 1;
      assert (xs + ys)[..|xs + ys| - 1] == xs + ys[..n];
      WeaveConcat(r, xs, ys[..n]);
    }
  }

  // Two stretches of the handler make one.
  lemma Sequence(s: State, r: RequestId, others: seq<seq<Event>>, m: nat, n: nat)
    requires m <= n <= |others|
    ensures Run(s, Weave(r, others[..n])) == Run(Run(s, Weave(r, others[..m])), Weave(r, others[m..n]))
  {
    assert others[..n] == others[..m] + others[m..n];
    WeaveConcat(r, others[..m], others[m..n]);
    RunSplit(s, Weave(r, others[..m]), Weave(r, others[m..n]));
  }

  lemma Slice<T>(xs: seq<T>, a: nat, b: nat, n: nat)
    requires a + n <= b <= |xs|
    ensures xs[a..b][..n] == xs[a..a + n] && |xs[a..b]| == b - a
    ensures forall k | 0 <= k < b - a :: xs[a..b][k] == xs[a + k]
    ensures xs[0..n] == xs[..n]
  {
  }

  class Store {
    var now: int
    var tokens: map<TokenId, Token>
    var review: Review
    var requests: map<RequestId, Request>
    var decisions: seq<Decider>

    ghost function Abs(): State
      reads this
    {
      State(now, tokens, review, requests, decisions)
    }

    constructor (s: State)
      ensures Abs() == s
    {
      now, tokens, review, requests, decisions := s.now, s.tokens, s.review, s.requests, s.decisions;
    }

    // Whatever else runs while a handler awaits.
    method Await(others: seq<Event>)
      modifies this
      ensures Abs() == Run(old(Abs()), others)
    {
      var i := 0;
      while i < |others|
        invariant 0 <= i <= |others|
        invariant Run(Abs(), others[i..]) == Run(old(Abs()), others)
      {
        assert others[i..][0] == others[i] && others[i..][1..] == others[i + 1..];
        var s := Apply(State(now, tokens, review, requests, decisions), others[i]);
        now, tokens, review, requests, decisions := s.now, s.tokens, s.review, s.requests, s.decisions;
        i := i + 1;
      }
    }

    // Where request r now stands.
    method Note(r: RequestId, pc: Pc)
      requires r in requests
      modifies this`requests
      ensures Abs() == SetPc(old(Abs()), r, pc)
    {
      requests := requests[r := requests[r].(pc := pc)];
    }

    // One transaction: SELECT ... FOR UPDATE, the checks, the stamp.
    method Consume(t: TokenId, r: RequestId) returns (result: Result<(), ConsumeError>)
      modifies this`tokens
      ensures result == if t !in old(tokens) then Err(Invalid)
                        else if old(tokens)[t].revoked then Err(Revoked)
                        else if old(tokens)[t].stamp != Unused then Err(AlreadyUsed)
                        else if old(tokens)[t].expiresAt <= now then Err(LinkExpired)
                        else Ok(())
      ensures result.Ok? ==> Abs() == SetStamp(old(Abs()), t, UsedBy(r))
      ensures result.Err? ==> Abs() == old(Abs())
    {
      if t !in tokens {
        return Err(Invalid);
      } else if tokens[t].revoked {
        return Err(Revoked);
      } else if tokens[t].stamp != Unused {
        return Err(AlreadyUsed);
      } else if tokens[t].expiresAt <= now {
        return Err(LinkExpired);
      }
      tokens := tokens[t := tokens[t].(stamp := UsedBy(r))];
      return Ok(());
    }

    // UPDATE reviews SET ... WHERE current_version = loaded.version RETURNING *
    method UpdateReview(r: RequestId, kind: Kind, loaded: Review) returns (landed: bool)
      modifies this`review, this`decisions
      ensures landed <==> old(review).version == loaded.version
      ensures !landed ==> review == old(review) && decisions == old(decisions)
      ensures landed ==>
                && review == old(review).(status := NextStatus(kind, loaded.status))
                && decisions == (if kind == Decision then old(decisions) + [ByRequest(r)] else old(decisions))
    {
      landed := review.version == loaded.version;
      if landed {
        review := review.(status := NextStatus(kind, loaded.status));
        if kind == Decision { decisions := decisions + [ByRequest(r)]; }
      }
    }

    method ClearStamp(t: TokenId)
      modifies this`tokens
      ensures Abs() == if t in old(tokens) then SetStamp(old(Abs()), t, Unused) else old(Abs())
    {
      if t in tokens { tokens := tokens[t := tokens[t].(stamp := Unused)]; }
    }

    // tokenService.validate, first read.
    method ReadToken(r: RequestId, others: seq<Event>) returns (row: Option<Token>)
      requires r in requests && requests[r].pc == Start && requests[r].token.Some? && NotFor(r, others)
      modifies this
      ensures Abs() == Run(old(Abs()), Weave(r, [others])) && r in requests
      ensures requests[r] == old(requests[r]).(pc := if row.Some? then RowRead(row.value) else Done(Refused))
    {
      OthersLeaveRequest(Abs(), others, r);
      WeaveOne(Abs(), r, others);
      Await(others);
      var t := requests[r].token.value;
      row := if t in tokens then Some(tokens[t]) else None;
      Note(r, if row.Some? then RowRead(row.value) else Done(Refused));
    }

    // tokenService.validate, second read and its verdict; then the preview and
    // identity gates.
    method Validate(r: RequestId, row: Token, others: seq<Event>) returns (valid: bool)
      requires r in requests && requests[r].pc == RowRead(row) && NotFor(r, others)
      modifies this
      ensures Abs() == Run(old(Abs()), Weave(r, [others])) && r in requests
      ensures requests[r] == old(requests[r]).(pc := if valid then Validated else Done(Refused))
      ensures valid <==>
                && !row.revoked && row.stamp == Unused && now < row.expiresAt
                && (review.status == Pending || review.status == AwaitingExternal)
                && !row.preview && requests[r].authorized
    {
      OthersLeaveRequest(Abs(), others, r);
      WeaveOne(Abs(), r, others);
      Await(others);
      var status := review.status;
      valid := true;
      if row.revoked || row.stamp != Unused || row.expiresAt <= now || !Accepting(status) { valid := false; }
      if row.preview { valid := false; }
      if !requests[r].authorized { valid := false; }
      Note(r, if valid then Validated else Done(Refused));
    }

    method Preflight(r: RequestId, others: seq<Event>) returns (open: bool)
      requires r in requests && requests[r].pc == Validated && NotFor(r, others)
      modifies this
      ensures Abs() == Run(old(Abs()), Weave(r, [others])) && r in requests
      ensures requests[r] == old(requests[r]).(pc := if open then Preflighted else Done(Refused))
      ensures open <==> review.status == Pending || review.status == AwaitingExternal
    {
      OthersLeaveRequest(Abs(), others, r);
      WeaveOne(Abs(), r, others);
      Await(others);
      var status := review.status;
      open := !(status != Pending && status != AwaitingExternal);
      Note(r, if open then Preflighted else Done(Refused));
    }

    method ConsumeStep(r: RequestId, others: seq<Event>) returns (consumed: bool)
      requires r in requests && requests[r].pc == Preflighted && requests[r].token.Some? && NotFor(r, others)
      modifies this
      ensures Abs() == Run(old(Abs()), Weave(r, [others])) && r in requests
      ensures requests[r] == old(requests[r]).(pc := if consumed then Executing else Done(Refused))
    {
      OthersLeaveRequest(Abs(), others, r);
      WeaveOne(Abs(), r, others);
      Await(others);
      var result := Consume(requests[r].token.value, r);
      consumed := result.Ok?;
      Note(r, if consumed then Executing else Done(Refused));
    }

    // tokenService.validate and the two gates behind it.
    method ValidateLink(r: RequestId, others: seq<seq<Event>>) returns (valid: bool, steps: nat)
      requires r in requests && requests[r].pc == Start && requests[r].token.Some?
      requires |others| == 2 && NotFor(r, others[0]) && NotFor(r, others[1])
      modifies this
      ensures steps <= 2 && (valid ==> steps == 2) && r in requests
      ensures Abs() == Run(old(Abs()), Weave(r, others[..steps]))
      ensures requests[r] == old(requests[r]).(pc := if valid then Validated else Done(Refused))
    {
      ghost var s := Abs();
      assert others[..1] == [others[0]] && others[1..2] == [others[1]];
      var row := ReadToken(r, others[0]);
      if row.None? { return false, 1; }
      valid := Validate(r, row.value, others[1]);
      Sequence(s, r, others, 1, 2);
      steps := 2;
    }

    method ClaimLink(r: RequestId, others: seq<seq<Event>>) returns (claimed: bool, steps: nat)
      requires r in requests && requests[r].pc == Validated && requests[r].token.Some?
      requires |others| == 2 && NotFor(r, others[0]) && NotFor(r, others[1])
      modifies this
      ensures steps <= 2 && (claimed ==> steps == 2) && r in requests
      ensures Abs() == Run(old(Abs()), Weave(r, others[..steps]))
      ensures requests[r] == old(requests[r]).(pc := if claimed then Executing else Done(Refused))
    {
      ghost var s := Abs();
      assert others[..1] == [others[0]] && others[1..2] == [others[1]];
      var open := Preflight(r, others[0]);
      if !open { return false, 1; }
      claimed := ConsumeStep(r, others[1]);
      Sequence(s, r, others, 1, 2);
      steps := 2;
    }

    // executeReviewAction: SELECT the review, run the guards of the action.
    method LoadReview(r: RequestId, others: seq<Event>) returns (loaded: Option<Review>)
      requires r in requests && requests[r].pc == Executing && NotFor(r, others)
      modifies this
      ensures Abs() == Run(old(Abs()), Weave(r, [others])) && r in requests
      ensures requests[r] == old(requests[r]).(
                pc := if loaded.Some? then Loaded(loaded.value.status, loaded.value.version) else Failing)
      ensures var q := requests[r];
              loaded == if && (review.status == Decided || review.status == Expired ==> q.kind == Cancel)
                           && (review.status == AwaitingIteration && q.plain ==> q.kind == Cancel)
                           && review.status in q.enabledFor
                           && (q.expectedVersion == None || q.expectedVersion == Some(review.version))
                           && q.valid
                        then Some(review) else None
    {
      OthersLeaveRequest(Abs(), others, r);
      WeaveOne(Abs(), r, others);
      Await(others);
      loaded := if ActionAllowed(requests[r], review.status, review.version) then Some(review) else None;
      Note(r, if loaded.Some? then Loaded(review.status, review.version) else Failing);
    }

    method Update(r: RequestId, loaded: Review, others: seq<Event>) returns (landed: bool)
      requires r in requests && requests[r].pc == Loaded(loaded.status, loaded.version) && NotFor(r, others)
      modifies this
      ensures Abs() == Run(old(Abs()), Weave(r, [others])) && r in requests
      ensures requests[r] == old(requests[r]).(
                pc := if landed then Landed else Failing,
                decided := if landed then requests[r].kind == Decision else old(requests[r].decided))
    {
      OthersLeaveRequest(Abs(), others, r);
      WeaveOne(Abs(), r, others);
      Await(others);
      ghost var at := Abs();
      var q := requests[r];
      landed := UpdateReview(r, q.kind, loaded);
      requests := requests[r := if landed then q.(pc := Landed, decided := q.kind == Decision) else q.(pc := Failing)];
      assert Abs() == Land(at, r);
    }

    // The catch block: clear the stamp by token id and rethrow.
    method Compensate(r: RequestId, others: seq<Event>)
      requires r in requests && requests[r].pc == Failing && requests[r].token.Some? && NotFor(r, others)
      modifies this
      ensures Abs() == Run(old(Abs()), Weave(r, [others])) && r in requests
      ensures requests[r] == old(requests[r]).(pc := Done(RolledBack))
    {
      OthersLeaveRequest(Abs(), others, r);
      WeaveOne(Abs(), r, others);
      Await(others);
      ClearStamp(requests[r].token.value);
      Note(r, Done(RolledBack));
    }

    method Respond(r: RequestId, others: seq<Event>)
      requires r in requests && requests[r].pc == Landed && NotFor(r, others)
      modifies this
      ensures Abs() == Run(old(Abs()), Weave(r, [others])) && r in requests
      ensures requests[r] == old(requests[r]).(pc := Done(Accepted))
    {
      OthersLeaveRequest(Abs(), others, r);
      WeaveOne(Abs(), r, others);
      Await(others);
      Note(r, Done(Accepted));
    }

    // The update, and the catch block when it affects no row.
    method Commit(r: RequestId, loaded: Review, others: seq<seq<Event>>) returns (outcome: Outcome)
      requires r in requests && requests[r].pc == Loaded(loaded.status, loaded.version) && requests[r].token.Some?
      requires |others| == 2 && NotFor(r, others[0]) && NotFor(r, others[1])
      modifies this
      ensures r in requests && (outcome == Accepted || outcome == RolledBack)
      ensures Abs() == Run(old(Abs()), Weave(r, others))
      ensures requests[r] == old(requests[r]).(pc := Done(outcome), decided := requests[r].decided)
    {
      ghost var s := Abs();
      assert others[..1] == [others[0]] && others[1..2] == [others[1]] && others[..2] == others;
      Sequence(s, r, others, 1, 2);
      var landed := Update(r, loaded, others[0]);
      if landed {
        Respond(r, others[1]);
        return Accepted;
      }
      Compensate(r, others[1]);
      return RolledBack;
    }

    // executeReviewAction and the catch block around it.
    method Execute(r: RequestId, others: seq<seq<Event>>) returns (outcome: Outcome, steps: nat)
      requires r in requests && requests[r].pc == Executing && requests[r].token.Some?
      requires |others| == 3 && forall k | 0 <= k < 3 :: NotFor(r, others[k])
      modifies this
      ensures steps <= 3 && r in requests && (outcome == Accepted || outcome == RolledBack)
      ensures Abs() == Run(old(Abs()), Weave(r, others[..steps]))
      ensures requests[r] == old(requests[r]).(pc := Done(outcome), decided := requests[r].decided)
    {
      ghost var s := Abs();
      assert others[..1] == [others[0]] && others[1..2] == [others[1]];
      var loaded := LoadReview(r, others[0]);
      if loaded.None? {
        Compensate(r, others[1]);
        Sequence(s, r, others, 1, 2);
        return RolledBack, 2;
      }
      outcome := Commit(r, loaded.value, others[1..3]);
      Sequence(s, r, others, 1, 3);
      steps := 3;
    }

    // Preflight, consume and action of a link that has been validated.
    method Act(r: RequestId, others: seq<seq<Event>>) returns (outcome: Outcome, steps: nat)
      requires r in requests && requests[r].pc == Validated && requests[r].token.Some?
      requires |others| == 5 && forall k | 0 <= k < 5 :: NotFor(r, others[k])
      modifies this
      ensures steps <= 5 && r in requests
      ensures Abs() == Run(old(Abs()), Weave(r, others[..steps]))
      ensures requests[r] == old(requests[r]).(pc := Done(outcome), decided := requests[r].decided)
    {
      ghost var s := Abs();
      var claimed, n := ClaimLink(r, others[0..2]);
      Slice(others, 0, 2, n);
      if !claimed { return Refused, n; }
      outcome, n := Execute(r, others[2..5]);
      Slice(others, 2, 5, n);
      Sequence(s, r, others, 2, 2 + n);
      steps := 2 + n;
    }

    // The whole handler, at most seven steps.
    method Serve(r: RequestId, others: seq<seq<Event>>) returns (outcome: Outcome, steps: nat)
      requires r in requests && requests[r].pc == Start && requests[r].token.Some?
      requires |others| == 7 && forall k | 0 <= k < 7 :: NotFor(r, others[k])
      modifies this
      ensures steps <= 7 && r in requests
      ensures Abs() == Run(old(Abs()), Weave(r, others[..steps]))
      ensures requests[r] == old(requests[r]).(pc := Done(outcome), decided := requests[r].decided)
    {
      ghost var s := Abs();
      var valid, n := ValidateLink(r, others[0..2]);
      Slice(others, 0, 2, n);
      if !valid { return Refused, n; }
      outcome, n := Act(r, others[2..7]);
      Slice(others, 2, 7, n);
      Sequence(s, r, others, 2, 2 + n);
      steps := 2 + n;
    }

    // From any initial state: the response says "accepted" exactly when the
    // link is left stamped by this request.
    method Handle(r: RequestId, others: seq<seq<Event>>) returns (outcome: Outcome, steps: nat)
      requires Init(Abs())
      requires r in requests && requests[r].pc == Start && requests[r].token.Some?
      requires |others| == 7 && forall k | 0 <= k < 7 :: NotFor(r, others[k])
      modifies this
      ensures steps <= 7 && Abs() == Run(old(Abs()), Weave(r, others[..steps]))
      ensures r in requests && requests[r].pc == Done(outcome)
      ensures var t := old(requests[r].token).value;
              outcome == Accepted <==> t in tokens && tokens[t].stamp == UsedBy(r)
      ensures outcome == Accepted ==> ByRequest(r) in decisions
    {
      ghost var s := Abs();
      outcome, steps := Serve(r, others);
      InitInv(s);
      RunInv(s, Weave(r, others[..steps]));
      assert RequestOk(Abs(), r);
      StampOutcomes(s, Weave(r, others[..steps]), r);
    }
  }
}
