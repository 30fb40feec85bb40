/** Requests, claims, scopes and leases of one project's ledger
    (crates/baley-store-sqlite/src/transact.rs and claim.rs, and the request
    and claim_scope projectors of crates/baley-store). Times are whole seconds.
    The fences and the readability check are other modules'. */
module Claims {
  import opened Wrappers

  datatype Id = Id(kind: string, requestId: string)

  datatype Owner = Owner(process: string, session: string, startedAt: int)

  /** A collision-free hash of the chain up to an event: it is that chain. */
  datatype Hash = Hash(chain: seq<Event>)

  /** What a claim intends: to anchor a head at a remote, or anything else. */
  datatype Intent = Anchoring(sequence: nat, head: Hash, remote: string) | OtherIntent(text: string)

  /** A domain event's payload. */
  datatype Payload =
    | AnchorPushed(tag: string, sequence: nat, head: Hash, remote: string, observedAt: int)
    | AnchorFailed(tag: string, sequence: nat, head: Hash, remote: string, observedAt: int, reason: string)
    | OtherPayload(text: string)

  /** The fields a claim keeps in its request document. */
  datatype ClaimDoc = ClaimDoc(id: Id, digest: string, sequence: nat, claimedAt: int, scope: seq<string>, owner: Owner, intent: Intent)

  datatype Answer = Inline(text: string) | Stored(hash: string) | Tombstone(hash: string)

  datatype Outcome = Outcome(done: bool, answer: Answer)

  /** A `request` document. */
  datatype Request =
    | Claimed(doc: ClaimDoc)
    | AwaitingOwner(doc: ClaimDoc, held: nat)
    | Completed(digest: string, outcome: Outcome, producedSeq: nat)

  /** A `claim_scope` document. */
  datatype Holder = Holder(id: Id, sequence: nat)

  datatype Lease = Lease(sequence: nat, renewedAt: int)

  datatype Event =
    | CommandClaimed(id: Id, digest: string, scope: seq<string>, owner: Owner, intent: Intent, recordedAt: int)
    | CommandCompleted(id: Id, digest: string, scope: seq<string>, outcome: Outcome)
    | CommandReconciled(id: Id, claimSeq: nat, resolved: bool)
    | Domain(payload: Payload)

  /** One project's ledger; `gone` holds the stored answers whose own reference
      was released or whose body is no longer present. */
  datatype Ledger = Ledger(
    chain: seq<Event>, requests: map<Id, Request>, scopes: map<string, Holder>, leases: map<Id, Lease>,
    gone: set<(nat, string)>)

  datatype Command = Command(id: Id, digest: string, scope: seq<string>, recordedAt: int, byOwner: bool, hasCaller: bool)

  datatype ClaimState = Active | Interrupted | HeldForOwner

  datatype Refusal =
    | DigestMismatch | AwaitsOwner(id: Id) | NotClaimOwner(id: Id) | ScopeMismatch(id: Id) | UnknownClaim(id: Id)
    | Blocked(id: Id, state: ClaimState) | NotOwner | CallerGiven | StaleClaim(id: Id) | StillActive(id: Id)
    | LeaseTime(id: Id) | DecisionFailed | Corrupt

  datatype Entry = Ordinary | Claiming | Completing(owner: Owner) | Reconciling(claim: Id)

  const LEASE_EXPIRY_SECONDS := 60

  // ----- projectors -----

  /** `RequestProjector::apply`; `None` where the projector fails. */
  function ProjectRequest(requests: map<Id, Request>, event: Event, sequence: nat): Option<map<Id, Request>> {
    match event
    case CommandClaimed(id, digest, scope, owner, intent, recordedAt) =>
      Some(requests[id := Claimed(ClaimDoc(id, digest, sequence, recordedAt, scope, owner, intent))])
    case CommandCompleted(id, digest, scope, outcome) => Some(requests[id := Completed(digest, outcome, sequence)])
    case CommandReconciled(id, claimSeq, resolved) =>
      if resolved then Some(requests)
      else if id !in requests || requests[id].Completed? || requests[id].doc.sequence != claimSeq then None
      else Some(requests[id := AwaitingOwner(requests[id].doc, sequence)])
    case Domain(_) => Some(requests)
  }

  function PutTokens(scopes: map<string, Holder>, tokens: seq<string>, holder: Holder): map<string, Holder> {
    map token | token in scopes.Keys + (set t | t in tokens) :: if token in tokens then holder else scopes[token]
  }

  /** A completion deletes only the tokens its own request holds. */
  function DropTokens(scopes: map<string, Holder>, tokens: seq<string>, id: Id): map<string, Holder> {
    map token | token in scopes && !(token in tokens && scopes[token].id == id) :: scopes[token]
  }

  /** `ClaimScopeProjector::apply`. */
  function ProjectScopes(scopes: map<string, Holder>, event: Event, sequence: nat): map<string, Holder> {
    match event
    case CommandClaimed(id, digest, scope, owner, intent, recordedAt) => PutTokens(scopes, scope, Holder(id, sequence))
    case CommandCompleted(id, digest, scope, outcome) => DropTokens(scopes, scope, id)
    case _ => scopes
  }

  /** `push`: the event is sealed after the head and projected. */
  function Pushed(ledger: Ledger, event: Event): Result<Ledger, Refusal> {
    var sequence := |ledger.chain| + 1;
    match ProjectRequest(ledger.requests, event, sequence)
    case None => Err(DecisionFailed)
    case Some(requests) =>
      Ok(ledger.(chain := ledger.chain + [event], requests := requests,
                 scopes := ProjectScopes(ledger.scopes, event, sequence)))
  }

  // ----- judgements -----

  predicate Open(request: Request) {
    !request.Completed?
  }

  /** `claim_state` over the document and its matching lease row. */
  function StateOf(ledger: Ledger, request: Request, now: int): ClaimState
    requires Open(request)
  {
    if request.AwaitingOwner? then HeldForOwner
    else
      var doc := request.doc;
      if doc.id in ledger.leases && ledger.leases[doc.id].sequence == doc.sequence
         && now < ledger.leases[doc.id].renewedAt + LEASE_EXPIRY_SECONDS then Active
      else Interrupted
  }

  /** The open claim holding a token, unless it is the excluded one. */
  function HolderOf(ledger: Ledger, token: string, excluded: Option<Id>): Result<Option<ClaimDoc>, Refusal> {
    if token !in ledger.scopes then Ok(None)
    else
      var named := ledger.scopes[token];
      if named.id !in ledger.requests || !Open(ledger.requests[named.id]) then Err(Corrupt)
      else
        var doc := ledger.requests[named.id].doc;
        if doc.id != named.id || doc.sequence != named.sequence || token !in doc.scope then Err(Corrupt)
        else if excluded == Some(doc.id) then Ok(None)
        else Ok(Some(doc))
  }

  function Earlier(a: Option<ClaimDoc>, b: Option<ClaimDoc>): Option<ClaimDoc> {
    if a.None? then b else if b.None? then a
    else if b.value.sequence < a.value.sequence then b else a
  }

  /** The lowest-sequence holder of the scope's tokens. */
  function LowestHolder(ledger: Ledger, scope: seq<string>, excluded: Option<Id>): Result<Option<ClaimDoc>, Refusal> {
    if scope == [] then Ok(None)
    else
      var last := |scope| - 1;
      var before :- LowestHolder(ledger, scope[..last], excluded);
      var here :- HolderOf(ledger, scope[last], excluded);
      Ok(Earlier(before, here))
  }

  /** `check_scope`: the block it reports, if any. */
  function ScopeBlock(ledger: Ledger, scope: seq<string>, excluded: Option<Id>, now: int): Option<Refusal> {
    match LowestHolder(ledger, scope, excluded)
    case Err(refusal) => Some(refusal)
    case Ok(None) => None
    case Ok(Some(doc)) =>
      if doc.id in ledger.requests && Open(ledger.requests[doc.id])
      then Some(Blocked(doc.id, StateOf(ledger, ledger.requests[doc.id], now)))
      else Some(Corrupt)
  }

  /** A completed request's outcome as a retry receives it. */
  function Replayable(ledger: Ledger, request: Request): Outcome
    requires request.Completed?
  {
    var outcome := request.outcome;
    if outcome.answer.Stored? && (request.producedSeq, outcome.answer.hash) in ledger.gone
    then outcome.(answer := Tombstone(outcome.answer.hash)) else outcome
  }

  datatype Turn = Answered(outcome: Outcome) | Running(request: Request) | Refused(refusal: Refusal) | Proceed

  function Excluded(entry: Entry, command: Command): Option<Id> {
    match entry
    case Completing(_) => Some(command.id)
    case Reconciling(claim) => Some(claim)
    case _ => None
  }

  /** `command_turn` up to the decision. */
  function TurnOf(ledger: Ledger, command: Command, entry: Entry): Turn {
    if command.id in ledger.requests && Digest(ledger.requests[command.id]) != command.digest then Refused(DigestMismatch)
    else if command.id in ledger.requests && ledger.requests[command.id].Completed? then
      Answered(Replayable(ledger, ledger.requests[command.id]))
    else if command.id in ledger.requests && entry.Completing? && ledger.requests[command.id].AwaitingOwner? then
      Refused(AwaitsOwner(command.id))
    else if command.id in ledger.requests && entry.Completing? && ledger.requests[command.id].doc.owner != entry.owner then
      Refused(NotClaimOwner(command.id))
    else if command.id in ledger.requests && entry.Completing? && ledger.requests[command.id].doc.scope != command.scope then
      Refused(ScopeMismatch(command.id))
    else if command.id in ledger.requests && entry.Claiming? then Running(ledger.requests[command.id])
    else if command.id in ledger.requests && !entry.Completing? then
      Refused(Blocked(command.id, StateOf(ledger, ledger.requests[command.id], command.recordedAt)))
    else if command.id !in ledger.requests && entry.Completing? then Refused(UnknownClaim(command.id))
    else
      match ScopeBlock(ledger, command.scope, Excluded(entry, command), command.recordedAt)
      case Some(refusal) => Refused(refusal)
      case None => Proceed
  }

  function Digest(request: Request): string {
    if request.Completed? then request.digest else request.doc.digest
  }

  // ----- operations -----

  /** What a decision did: the domain events it appended and its outcome, or
      that it failed. */
  datatype Decision = Decided(events: seq<Payload>, outcome: Outcome) | Fails

  datatype ClaimDecision =
    | Take(events: seq<Payload>, intent: Intent, owner: Owner)
    | Refuse(events: seq<Payload>, outcome: Outcome)
    | ClaimFails

  datatype Resolution =
    | Resolved(events: seq<Payload>, outcome: Outcome)
    | ForOwner(events: seq<Payload>)
    | ReconcileFails

  datatype Reply =
    | Replayed(outcome: Outcome)
    | InProgress(request: Request)
    | Recorded(outcome: Outcome)
    | ClaimTaken(sequence: nat)
    | Error(refusal: Refusal)

  function WithDomain(ledger: Ledger, events: seq<Payload>): Ledger {
    ledger.(chain := ledger.chain + seq(|events|, at requires 0 <= at < |events| => Domain(events[at])))
  }

  function TurnReply(turn: Turn): Reply
    requires !turn.Proceed?
  {
    match turn
    case Answered(outcome) => Replayed(outcome)
    case Running(request) => InProgress(request)
    case Refused(refusal) => Error(refusal)
  }

  /** `finish` or `complete_for`: one `command.completed` event. */
  function CompletedBy(ledger: Ledger, id: Id, digest: string, scope: seq<string>, outcome: Outcome): Ledger {
    var sequence := |ledger.chain| + 1;
    ledger.(chain := ledger.chain + [CommandCompleted(id, digest, scope, outcome)],
            requests := ledger.requests[id := Completed(digest, outcome, sequence)],
            scopes := DropTokens(ledger.scopes, scope, id))
  }

  /** `transact`. */
  function Transact(ledger: Ledger, command: Command, decision: Decision): (Ledger, Reply) {
    var turn := TurnOf(ledger, command, Ordinary);
    if !turn.Proceed? then (ledger, TurnReply(turn))
    else if decision.Fails? then (ledger, Error(DecisionFailed))
    else (CompletedBy(WithDomain(ledger, decision.events), command.id, command.digest, [], decision.outcome), Recorded(decision.outcome))
  }

  /** `claim`. */
  function TakeClaim(ledger: Ledger, command: Command, decision: ClaimDecision): (Ledger, Reply) {
    var turn := TurnOf(ledger, command, Claiming);
    if !turn.Proceed? then (ledger, TurnReply(turn))
    else
      match decision
      case ClaimFails => (ledger, Error(DecisionFailed))
      case Refuse(events, outcome) =>
        (CompletedBy(WithDomain(ledger, events), command.id, command.digest, [], outcome), Recorded(outcome))
      case Take(events, intent, owner) =>
        var appended := WithDomain(ledger, events);
        (ClaimedBy(appended, command, intent, owner), ClaimTaken(|appended.chain| + 1))
  }

  /** One `command.claimed` event and its lease. */
  function ClaimedBy(ledger: Ledger, command: Command, intent: Intent, owner: Owner): Ledger {
    var sequence := |ledger.chain| + 1;
    Ledger(ledger.chain + [CommandClaimed(command.id, command.digest, command.scope, owner, intent, command.recordedAt)],
           ledger.requests[command.id := Claimed(ClaimDoc(command.id, command.digest, sequence, command.recordedAt,
                                                          command.scope, owner, intent))],
           PutTokens(ledger.scopes, command.scope, Holder(command.id, sequence)),
           ledger.leases[command.id := Lease(sequence, command.recordedAt)],
           ledger.gone)
  }

  /** `renew_lease`. */
  function Renew(ledger: Ledger, id: Id, owner: Owner, at: int): (Ledger, Option<Refusal>) {
    if id !in ledger.requests then (ledger, Some(UnknownClaim(id)))
    else if !ledger.requests[id].Claimed? then (ledger, Some(StaleClaim(id)))
    else
      var doc := ledger.requests[id].doc;
      if doc.id != id then (ledger, Some(Corrupt))
      else if doc.owner != owner then (ledger, Some(NotClaimOwner(id)))
      else
        var floor := if id in ledger.leases && ledger.leases[id].sequence == doc.sequence
                     then ledger.leases[id].renewedAt else doc.claimedAt;
        if at < floor then (ledger, Some(LeaseTime(id)))
        else (ledger.(leases := ledger.leases[id := Lease(doc.sequence, at)]), None)
  }

  /** `complete`: the owner's record step. */
  function Complete(ledger: Ledger, command: Command, owner: Owner, decision: Decision): (Ledger, Reply) {
    var turn := TurnOf(ledger, command, Completing(owner));
    if !turn.Proceed? then (ledger, TurnReply(turn))
    else if decision.Fails? then (ledger, Error(DecisionFailed))
    else
      (CompletedBy(WithDomain(ledger, decision.events), command.id, command.digest, command.scope, decision.outcome)
         .(leases := ledger.leases - {command.id}),
       Recorded(decision.outcome))
  }

  /** The claim a reconciliation may decide about, or why it may not. */
  function Reconcilable(ledger: Ledger, command: Command, claim: Id): Option<Refusal> {
    if claim !in ledger.requests then Some(UnknownClaim(claim))
    else if ledger.requests[claim].Completed? then Some(StaleClaim(claim))
    else if ledger.requests[claim].doc.id != claim then Some(Corrupt)
    else
      match StateOf(ledger, ledger.requests[claim], command.recordedAt)
      case Active => Some(StillActive(claim))
      case _ => None
  }

  const RECONCILED := Outcome(true, Inline("reconciled"))

  /** `reconcile`. */
  function Reconcile(ledger: Ledger, command: Command, claim: Id, asOwner: bool, resolution: Resolution): (Ledger, Reply) {
    if asOwner && !command.byOwner then (ledger, Error(NotOwner))
    else if command.hasCaller then (ledger, Error(CallerGiven))
    else
      var turn := TurnOf(ledger, command, Reconciling(claim));
      if !turn.Proceed? then (ledger, TurnReply(turn))
      else
        match Reconcilable(ledger, command, claim)
        case Some(refusal) => (ledger, Error(refusal))
        case None =>
          if ledger.requests[claim].AwaitingOwner? && !asOwner then (ledger, Error(AwaitsOwner(claim)))
          else if resolution.ReconcileFails? then (ledger, Error(DecisionFailed))
          else
            (Resolve(ledger, command, claim, resolution), Recorded(RECONCILED))
  }

  /** The events of a reconciliation that goes through: the decision's own, the
      finding, the claim's completion if it is resolved, and the command's. */
  function Resolve(ledger: Ledger, command: Command, claim: Id, resolution: Resolution): Ledger
    requires claim in ledger.requests && Open(ledger.requests[claim]) && !resolution.ReconcileFails?
  {
    var noted := Noted(WithDomain(ledger, resolution.events), claim, resolution.Resolved?);
    var doc := ledger.requests[claim].doc;
    var settled := if resolution.Resolved? then Settled(noted, claim, doc, resolution.outcome) else noted;
    CompletedBy(settled, command.id, command.digest, [], RECONCILED)
  }

  /** One `command.reconciled` event. */
  function Noted(ledger: Ledger, claim: Id, resolved: bool): Ledger
    requires claim in ledger.requests && Open(ledger.requests[claim])
  {
    var doc := ledger.requests[claim].doc;
    ledger.(chain := ledger.chain + [CommandReconciled(claim, doc.sequence, resolved)],
            requests := if resolved then ledger.requests
                        else ledger.requests[claim := AwaitingOwner(doc, |ledger.chain| + 1)])
  }

  /** The claim's own completion, and its lease removed. */
  function Settled(ledger: Ledger, claim: Id, doc: ClaimDoc, outcome: Outcome): Ledger {
    var completed := CompletedBy(ledger, claim, doc.digest, doc.scope, outcome);
    completed.(leases := completed.leases - {claim})
  }
}
