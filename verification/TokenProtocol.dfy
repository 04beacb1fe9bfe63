// The review-link decision protocol: any number of POST /:token/decide and
// POST /:token/action requests, main-app actions, the timeout worker and the
// operator's token commands, interleaved one database statement at a time over
// the token rows and the row of one review.
module TokenProtocol {
  import opened Wrappers

  type TokenId = nat
  type RequestId = nat

  datatype Status = Pending | AwaitingExternal | AwaitingIteration | Decided | Expired

  predicate Accepting(s: Status) {
    s == Pending || s == AwaitingExternal
  }

  predicate Closed(s: Status) {
    s == Decided || s == Expired
  }

  // used_at together with the writer of the stamp. UsedElsewhere is the stamp
  // of a recipient reply (decline, questions), which carries no decision.
  datatype Stamp = Unused | UsedBy(request: RequestId) | UsedElsewhere

  datatype Token = Token(stamp: Stamp, revoked: bool, expiresAt: int, preview: bool)

  // claimed: the timeout worker holds the row (claimed_by is set).
  datatype Review = Review(status: Status, version: nat, claimed: bool)

  datatype Kind = Decision | Iteration | SideEffect | Cancel

  datatype Outcome =
    | Refused          // an error response before anything was written
    | Accepted
    | RolledBack       // the action threw; the stamp was cleared
    | RevertLost       // the action threw and so did the compensating update
    | Killed(held: bool)

  datatype Pc =
    | Start
    | RowRead(row: Token)
    | Validated
    | Preflighted
    | Executing
    | Loaded(status: Status, version: nat)
    | Landed
    | Failing
    | Done(outcome: Outcome)

  // token is None for a main-app action, which enters executeReviewAction
  // directly. authorized folds the identity gate and the recipient-exposed
  // action lookup; valid folds the feedback, field and flag guards of the
  // action service. decided and faulted are history: whether this request's
  // update landed as a decision, and whether a fault hit it.
  datatype Request = Request(
    token: Option<TokenId>,
    kind: Kind,
    plain: bool,
    enabledFor: set<Status>,
    expectedVersion: Option<nat>,
    authorized: bool,
    valid: bool,
    pc: Pc,
    decided: bool,
    faulted: bool)

  datatype Decider = ByRequest(id: RequestId) | ByTimeout

  datatype State = State(
    now: int,
    tokens: map<TokenId, Token>,
    review: Review,
    requests: map<RequestId, Request>,
    decisions: seq<Decider>)

  datatype Event =
    | Advance(r: RequestId)
    | FailAfterLanding(r: RequestId)
    | LoseRevert(r: RequestId)
    | Kill(r: RequestId)
    | WorkerClaim
    | WorkerWrite(decides: bool)
    | WorkerRelease
    | CloseIterations
    | ChangesLapse
    | Issue(t: TokenId, expiresAt: int)
    | IssuePreview(t: TokenId, expiresAt: int)
    | Extend(t: TokenId, hours: int)
    | Revoke(t: TokenId)
    | RecipientReply(t: TokenId)
    | Resubmit
    | Reclaim
    | Tick(elapsed: nat)

  // ---- the steps of one request -------------------------------------------

  function SetPc(s: State, r: RequestId, pc: Pc): State
    requires r in s.requests
  {
    s.(requests := s.requests[r := s.requests[r].(pc := pc)])
  }

  function SetStamp(s: State, t: TokenId, stamp: Stamp): State
    requires t in s.tokens
  {
    s.(tokens := s.tokens[t := s.tokens[t].(stamp := stamp)])
  }

  // tokenService.validate after both of its reads: revoked, used and expired
  // rows are refused, and so is a review that no longer accepts decisions.
  // The two gates that follow it (preview links, identity) end in a refusal too.
  predicate Admits(row: Token, status: Status, now: int, q: Request) {
    && !row.revoked
    && row.stamp == Unused
    && now < row.expiresAt
    && Accepting(status)
    && !row.preview
    && q.authorized
  }

  // tokenService.consume under its row lock.
  predicate Consumable(s: State, t: TokenId) {
    && t in s.tokens
    && !s.tokens[t].revoked
    && s.tokens[t].stamp == Unused
    && s.now < s.tokens[t].expiresAt
  }

  // The guards executeReviewAction evaluates on the row it has loaded.
  predicate ActionAllowed(q: Request, status: Status, version: nat) {
    && (q.kind != Cancel ==> !Closed(status))
    && !(q.kind != Cancel && q.plain && status == AwaitingIteration)
    && status in q.enabledFor
    && (q.expectedVersion.Some? ==> q.expectedVersion.value == version)
    && q.valid
  }

  function NextStatus(kind: Kind, loaded: Status): Status {
    match kind
    case Decision => Decided
    case Iteration => AwaitingIteration
    case SideEffect => loaded
    case Cancel => if loaded == AwaitingIteration then Pending else loaded
  }

  // The UPDATE of executeReviewAction. Its WHERE clause compares the version
  // only, and a landed action leaves the version as it was.
  function Land(s: State, r: RequestId): State
    requires r in s.requests && s.requests[r].pc.Loaded?
  {
    var q := s.requests[r];
    if s.review.version != q.pc.version then
      SetPc(s, r, Failing)
    else
      var decides := q.kind == Decision;
      s.(review := s.review.(status := NextStatus(q.kind, q.pc.status)),
         requests := s.requests[r := q.(pc := Landed, decided := decides)],
         decisions := if decides then s.decisions + [ByRequest(r)] else s.decisions)
  }

  // The compensating update: by token id, whatever the row now holds.
  function Revert(s: State, r: RequestId): State
    requires r in s.requests
  {
    var q := s.requests[r];
    var cleared := if q.token.Some? && q.token.value in s.tokens then SetStamp(s, q.token.value, Unused) else s;
    SetPc(cleared, r, Done(RolledBack))
  }

  function Step(s: State, r: RequestId): State
    requires r in s.requests
  {
    var q := s.requests[r];
    match q.pc
    case Start =>
      if q.token.None? then SetPc(s, r, Executing)
      else if q.token.value in s.tokens then SetPc(s, r, RowRead(s.tokens[q.token.value]))
      else SetPc(s, r, Done(Refused))
    case RowRead(row) =>
      SetPc(s, r, if Admits(row, s.review.status, s.now, q) then Validated else Done(Refused))
    case Validated =>
      SetPc(s, r, if Accepting(s.review.status) then Preflighted else Done(Refused))
    case Preflighted =>
      if q.token.Some? && Consumable(s, q.token.value) then
        SetPc(SetStamp(s, q.token.value, UsedBy(r)), r, Executing)
      else SetPc(s, r, Done(Refused))
    case Executing =>
      SetPc(s, r,
            if ActionAllowed(q, s.review.status, s.review.version)
            then Loaded(s.review.status, s.review.version) else Failing)
    case Loaded(_, _) => Land(s, r)
    case Landed => SetPc(s, r, Done(Accepted))
    case Failing => Revert(s, r)
    case Done(_) => s
  }

  // ---- faults and the environment -----------------------------------------

  predicate Holds(pc: Pc) {
    || pc.Executing? || pc.Loaded? || pc.Landed? || pc.Failing?
    || (pc.Done? && (pc.outcome.Accepted? || pc.outcome.RevertLost? || (pc.outcome.Killed? && pc.outcome.held)))
  }

  function Fault(s: State, r: RequestId, pc: Pc): State
    requires r in s.requests
  {
    s.(requests := s.requests[r := s.requests[r].(pc := pc, faulted := true)])
  }

  // The selection shared by extend, revoke and the reclaim sweep.
  predicate ActiveToken(s: State, t: TokenId) {
    && t in s.tokens
    && s.tokens[t].stamp == Unused
    && !s.tokens[t].revoked
    && !s.tokens[t].preview
    && s.now < s.tokens[t].expiresAt
  }

  function Apply(s: State, e: Event): State {
    match e
    case Advance(r) => if r in s.requests then Step(s, r) else s
    case FailAfterLanding(r) =>
      if r in s.requests && s.requests[r].pc.Landed? then Fault(s, r, Failing) else s
    case LoseRevert(r) =>
      if r in s.requests && s.requests[r].pc.Failing? then Fault(s, r, Done(RevertLost)) else s
    case Kill(r) =>
      if r in s.requests && !s.requests[r].pc.Done?
      then Fault(s, r, Done(Killed(Holds(s.requests[r].pc)))) else s
    case WorkerClaim =>
      if Closed(s.review.status) then s else s.(review := s.review.(claimed := true))
    case WorkerWrite(decides) =>
      // processOne: WHERE id = ? AND claimed_by = ?, no status in the guard
      if !s.review.claimed then s
      else if decides then
        s.(review := s.review.(status := Decided, claimed := false), decisions := s.decisions + [ByTimeout])
      else s.(review := s.review.(status := Expired, claimed := false))
    case WorkerRelease => s.(review := s.review.(claimed := false))
    case CloseIterations =>
      // closeMaxIterations re-asserts the status in its guard
      if s.review.status == AwaitingIteration then
        s.(review := s.review.(status := Decided, claimed := false), decisions := s.decisions + [ByTimeout])
      else s
    case ChangesLapse =>
      if s.review.status == AwaitingIteration then s.(review := s.review.(status := Pending)) else s
    case Issue(t, expiresAt) =>
      if s.review.status == Pending && t !in s.tokens then
        s.(tokens := s.tokens[t := Token(Unused, false, expiresAt, false)],
           review := s.review.(status := AwaitingExternal))
      else s
    case IssuePreview(t, expiresAt) =>
      if Accepting(s.review.status) && t !in s.tokens
      then s.(tokens := s.tokens[t := Token(Unused, false, expiresAt, true)]) else s
    case Extend(t, hours) =>
      if ActiveToken(s, t)
      then s.(tokens := s.tokens[t := s.tokens[t].(expiresAt := s.tokens[t].expiresAt + hours * 3_600_000)]) else s
    case Revoke(t) =>
      if ActiveToken(s, t) then
        s.(tokens := s.tokens[t := s.tokens[t].(revoked := true)], review := s.review.(status := Pending))
      else s
    case RecipientReply(t) =>
      if Consumable(s, t) && !s.tokens[t].preview && Accepting(s.review.status) then
        SetStamp(s, t, UsedElsewhere).(review := s.review.(status := Pending, version := s.review.version + 1))
      else s
    case Resubmit =>
      if s.review.status == AwaitingIteration
      then s.(review := s.review.(status := Pending, version := s.review.version + 1)) else s
    case Reclaim =>
      if s.review.status == AwaitingExternal && forall t | t in s.tokens :: !ActiveToken(s, t)
      then s.(review := s.review.(status := Pending)) else s
    case Tick(elapsed) => s.(now := s.now + elapsed)
  }

  function Run(s: State, es: seq<Event>): State
    decreases |es|
  {
    if es == [] then s else Run(Apply(s, es[0]), es[1..])
  }

  // Any token rows not yet stamped by these handlers, any review, any requests
  // that have not begun. A recipient can only invoke decision actions, and the
  // cancel preset is enabled while the review awaits an iteration.
  ghost predicate Init(s: State) {
    && s.decisions == []
    && (forall t | t in s.tokens :: !s.tokens[t].stamp.UsedBy?)
    && (forall r | r in s.requests :: Fresh(s.requests[r]))
    && !s.review.claimed
  }

  predicate Fresh(q: Request) {
    && q.pc == Start && !q.decided && !q.faulted
    && (q.token.Some? ==> q.kind == Decision)
    && (q.kind == Cancel ==> q.enabledFor == {AwaitingIteration})
  }

  // ---- stamps follow their requests ---------------------------------------

  ghost predicate RequestOk(s: State, r: RequestId)
    requires r in s.requests
  {
    var q := s.requests[r];
    && (q.token.Some? ==> q.kind == Decision)
    && (q.kind == Cancel ==> q.enabledFor == {AwaitingIteration})
    && (q.token.Some? && Holds(q.pc) ==>
          q.token.value in s.tokens && s.tokens[q.token.value].stamp == UsedBy(r))
    && (q.decided <==> ByRequest(r) in s.decisions)
    && (q.decided ==> q.kind == Decision && (q.pc.Landed? || q.pc.Failing? || q.pc.Done?))
    && (q.pc.Landed? && q.kind == Decision ==> q.decided)
    && (q.pc == Done(Accepted) && q.kind == Decision ==> q.decided)
    && (q.pc == Done(Refused) || q.pc == Done(Killed(false)) ==> !q.decided)
    && (q.decided && !q.pc.Landed? && q.pc != Done(Accepted) ==> q.faulted)
    && (q.pc.Done? && (q.pc.outcome.Killed? || q.pc.outcome.RevertLost?) ==> q.faulted)
    && (q.pc.Loaded? ==> !Closed(q.pc.status))
  }

  ghost predicate StampOk(s: State, t: TokenId)
    requires t in s.tokens
  {
    s.tokens[t].stamp.UsedBy? ==>
      var r := s.tokens[t].stamp.request;
      r in s.requests && s.requests[r].token == Some(t) && Holds(s.requests[r].pc)
  }

  ghost predicate Unrepeated(ds: seq<Decider>) {
    forall i, j :: 0 <= i < j < |ds| && ds[i].ByRequest? ==> ds[i] != ds[j]
  }

  ghost predicate Inv(s: State) {
    && (forall r | r in s.requests :: RequestOk(s, r))
    && (forall t | t in s.tokens :: StampOk(s, t))
    && (forall d | d in s.decisions :: d.ByRequest? ==> d.id in s.requests)
    && Unrepeated(s.decisions)
    && (s.review.claimed ==> s.review.status != Expired)
  }
}
