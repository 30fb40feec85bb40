/** What each ledger operation answers and what it records, case by case and
    event by event (crates/baley-store-sqlite/src/transact.rs and claim.rs). */
module ClaimAnswers {
  import opened Wrappers
  import opened Claims
  import opened ClaimRuns

  /** The chain grew by these payloads, in order, as domain events, and then by
      these events. */
  predicate Appends(before: seq<Event>, after: seq<Event>, payloads: seq<Payload>, events: seq<Event>) {
    && |after| == |before| + |payloads| + |events| && before <= after
    && (forall at :: 0 <= at < |payloads| ==> after[|before| + at] == Domain(payloads[at]))
    && (forall at :: 0 <= at < |events| ==> after[|before| + |payloads| + at] == events[at])
  }

  lemma DomainAppends(ledger: Ledger, payloads: seq<Payload>, next: seq<Event>, events: seq<Event>)
    requires next == WithDomain(ledger, payloads).chain + events
    ensures Appends(ledger.chain, next, payloads, events)
  {
  }

  /** Nobody else's open claim shares a token with the scope. */
  ghost predicate Unrivalled(ledger: Ledger, scope: seq<string>, own: Option<Id>) {
    forall id, token :: id in ledger.requests && Open(ledger.requests[id]) && Some(id) != own && token in scope ==>
      token !in ledger.requests[id].doc.scope
  }

  /** The refusal names a rival and whether its lease still runs. */
  ghost predicate BlockedByRival(ledger: Ledger, scope: seq<string>, own: Option<Id>, now: int, refusal: Refusal) {
    && refusal.Blocked? && IsOpen(ledger, refusal.id) && Some(refusal.id) != own
    && (exists token :: token in scope && token in ledger.requests[refusal.id].doc.scope)
    && refusal.state == StateOf(ledger, ledger.requests[refusal.id], now)
  }

  lemma ScopeIsJudged(ledger: Ledger, scope: seq<string>, own: Option<Id>, now: int)
    requires Inv(ledger)
    ensures ScopeBlock(ledger, scope, own, now).None? <==> Unrivalled(ledger, scope, own)
    ensures ScopeBlock(ledger, scope, own, now).Some? ==> BlockedByRival(ledger, scope, own, now, ScopeBlock(ledger, scope, own, now).value)
  {
    ScopesExclude(ledger, scope, own, now);
    hide Inv, ScopeBlock, StateOf;
    if Unrivalled(ledger, scope, own) {
      forall id ensures !Rivals(ledger, scope, own, id) {
      }
    }
    if forall id :: !Rivals(ledger, scope, own, id) {
      forall id, token | id in ledger.requests && Open(ledger.requests[id]) && Some(id) != own && token in scope
        ensures token !in ledger.requests[id].doc.scope
      {
        assert !Rivals(ledger, scope, own, id);
      }
    }
  }

  /** A request the ledger knows: another digest is refused, a completed one
      answers its outcome, and an open one as the operation says. */
  ghost predicate Retried(ledger: Ledger, command: Command, reply: Reply, whileOpen: bool)
    requires command.id in ledger.requests
  {
    var request := ledger.requests[command.id];
    if (if request.Completed? then request.digest else request.doc.digest) != command.digest then reply == Error(DigestMismatch)
    else if request.Completed? then reply == Replayed(Replayable(ledger, request))
    else whileOpen
  }

  // ----- transact -----

  lemma NoScope(scopes: map<string, Holder>, id: Id)
    ensures DropTokens(scopes, [], id) == scopes
  {
  }

  /** A known request is replayed, refused or reported running; a new one is
      blocked by a rival, fails or is recorded. */
  lemma TransactAnswers(ledger: Ledger, command: Command, decision: Decision)
    requires Inv(ledger)
    ensures var (next, reply) := Transact(ledger, command, decision);
            && (!reply.Recorded? ==> next == ledger)
            && (command.id in ledger.requests ==>
                  Retried(ledger, command, reply,
                          Open(ledger.requests[command.id]) ==>
                            reply == Error(Blocked(command.id, StateOf(ledger, ledger.requests[command.id], command.recordedAt)))))
            && (command.id !in ledger.requests ==>
                  if !Unrivalled(ledger, command.scope, None) then
                    reply.Error? && BlockedByRival(ledger, command.scope, None, command.recordedAt, reply.refusal)
                  else if decision.Fails? then reply == Error(DecisionFailed)
                  else reply == Recorded(decision.outcome))
  {
    ScopeIsJudged(ledger, command.scope, None, command.recordedAt);
    hide Inv, ScopeBlock, StateOf, Replayable, DropTokens, Unrivalled, BlockedByRival, LowestHolder;
  }

  /** A recorded command leaves exactly the decision's events, in order, and one
      completion after them that holds its outcome. */
  lemma TransactRecords(ledger: Ledger, command: Command, decision: Decision)
    ensures var (next, reply) := Transact(ledger, command, decision);
            reply.Recorded? ==>
              && decision.Decided? && reply.outcome == decision.outcome
              && Appends(ledger.chain, next.chain, decision.events,
                         [CommandCompleted(command.id, command.digest, [], decision.outcome)])
              && next.requests == ledger.requests[command.id := Completed(command.digest, decision.outcome, |next.chain|)]
              && next.scopes == ledger.scopes && next.leases == ledger.leases && next.gone == ledger.gone
  {
    NoScope(ledger.scopes, command.id);
    hide TurnOf, DropTokens, Appends;
    var (next, reply) := Transact(ledger, command, decision);
    if reply.Recorded? {
      DomainAppends(ledger, decision.events, next.chain, [CommandCompleted(command.id, command.digest, [], decision.outcome)]);
    }
  }

  // ----- claim -----

  /** The tokens of a scope put under one holder, the others as they were. */
  ghost predicate Takes(before: map<string, Holder>, after: map<string, Holder>, scope: seq<string>, holder: Holder) {
    forall token ::
      (token in after <==> token in scope || token in before)
      && (token in scope ==> after[token] == holder)
      && (token !in scope && token in before ==> after[token] == before[token])
  }

  lemma PutTakes(scopes: map<string, Holder>, scope: seq<string>, holder: Holder)
    ensures Takes(scopes, PutTokens(scopes, scope, holder), scope, holder)
  {
  }

  /** A claim answers as a command does, except that an open request is reported
      in progress. */
  lemma TakeClaimAnswers(ledger: Ledger, command: Command, claiming: ClaimDecision)
    requires Inv(ledger)
    ensures var (next, reply) := TakeClaim(ledger, command, claiming);
            && (!reply.Recorded? && !reply.ClaimTaken? ==> next == ledger)
            && (command.id in ledger.requests ==>
                  Retried(ledger, command, reply, reply == InProgress(ledger.requests[command.id])))
            && (command.id !in ledger.requests ==>
                  if !Unrivalled(ledger, command.scope, None) then
                    reply.Error? && BlockedByRival(ledger, command.scope, None, command.recordedAt, reply.refusal)
                  else match claiming
                       case ClaimFails => reply == Error(DecisionFailed)
                       case Refuse(_, outcome) => reply == Recorded(outcome)
                       case Take(_, _, _) => reply == ClaimTaken(|next.chain|))
  {
    ScopeIsJudged(ledger, command.scope, None, command.recordedAt);
    hide Inv, ScopeBlock, StateOf, Replayable, DropTokens, PutTokens, Unrivalled, BlockedByRival, LowestHolder;
  }

  /** A claim that is taken leaves the decision's events and one claim event,
      its tokens under that event and a new lease; one refused on the merits
      leaves a completion instead. */
  lemma TakeClaimRecords(ledger: Ledger, command: Command, claiming: ClaimDecision)
    ensures var (next, reply) := TakeClaim(ledger, command, claiming);
            reply.Recorded? ==>
              && claiming.Refuse?
              && Appends(ledger.chain, next.chain, claiming.events,
                         [CommandCompleted(command.id, command.digest, [], claiming.outcome)])
              && next.requests == ledger.requests[command.id := Completed(command.digest, claiming.outcome, |next.chain|)]
              && next.scopes == ledger.scopes && next.leases == ledger.leases && next.gone == ledger.gone
    ensures var (next, reply) := TakeClaim(ledger, command, claiming);
            reply.ClaimTaken? ==>
              && claiming.Take?
              && Appends(ledger.chain, next.chain, claiming.events,
                         [CommandClaimed(command.id, command.digest, command.scope, claiming.owner, claiming.intent, command.recordedAt)])
              && next.requests == ledger.requests[command.id := Claimed(ClaimDoc(command.id, command.digest, |next.chain|,
                   command.recordedAt, command.scope, claiming.owner, claiming.intent))]
              && Takes(ledger.scopes, next.scopes, command.scope, Holder(command.id, |next.chain|))
              && next.leases == ledger.leases[command.id := Lease(|next.chain|, command.recordedAt)] && next.gone == ledger.gone
  {
    NoScope(ledger.scopes, command.id);
    hide TurnOf, DropTokens, PutTokens, Appends, Takes;
    var (next, reply) := TakeClaim(ledger, command, claiming);
    if reply.Recorded? {
      DomainAppends(ledger, claiming.events, next.chain, [CommandCompleted(command.id, command.digest, [], claiming.outcome)]);
    }
    if reply.ClaimTaken? {
      PutTakes(ledger.scopes, command.scope, Holder(command.id, |next.chain|));
      DomainAppends(ledger, claiming.events, next.chain,
        [CommandClaimed(command.id, command.digest, command.scope, claiming.owner, claiming.intent, command.recordedAt)]);
    }
  }

  /** A claim just taken is active for its first minute and interrupted after
      it, until somebody renews it. */
  lemma NewClaimsLastAMinute(ledger: Ledger, command: Command, claiming: ClaimDecision, now: int)
    requires TakeClaim(ledger, command, claiming).1.ClaimTaken?
    ensures var next := TakeClaim(ledger, command, claiming).0;
            IsOpen(next, command.id)
            && StateOf(next, next.requests[command.id], now) == if now < command.recordedAt + 60 then Active else Interrupted
  {
    TakeClaimRecords(ledger, command, claiming);
    hide TakeClaim, Inv, Unrivalled, BlockedByRival, Appends, Takes, Retried;
  }

  // ----- complete -----

  /** A scope's tokens gone from under one request, the others as they were. */
  ghost predicate Frees(before: map<string, Holder>, after: map<string, Holder>, scope: seq<string>, id: Id) {
    forall token ::
      (token in after <==> token in before && !(token in scope && before[token].id == id))
      && (token in after ==> after[token] == before[token])
  }

  lemma DropFrees(scopes: map<string, Holder>, scope: seq<string>, id: Id)
    ensures Frees(scopes, DropTokens(scopes, scope, id), scope, id)
  {
  }

  /** An open claim's own scope has no rival: it holds every token of it. */
  lemma OwnScopeIsFree(ledger: Ledger, id: Id)
    requires Inv(ledger) && IsOpen(ledger, id)
    ensures Unrivalled(ledger, ledger.requests[id].doc.scope, Some(id))
  {
    forall other, token | other in ledger.requests && Open(ledger.requests[other]) && Some(other) != Some(id)
                          && token in ledger.requests[id].doc.scope
      ensures token !in ledger.requests[other].doc.scope
    {
      assert IsOpen(ledger, other) && IsOpen(ledger, id);
    }
  }

  /** A record step is refused to an unknown claim, one held for the owner, any
      other owner and any other scope, in that order; only then does the
      decision count. */
  lemma CompleteAnswers(ledger: Ledger, command: Command, owner: Owner, decision: Decision)
    requires Inv(ledger)
    ensures var (next, reply) := Complete(ledger, command, owner, decision);
            && (!reply.Recorded? ==> next == ledger)
            && (command.id !in ledger.requests ==> reply == Error(UnknownClaim(command.id)))
            && (command.id in ledger.requests ==>
                  var request := ledger.requests[command.id];
                  Retried(ledger, command, reply, Open(request) ==>
                    reply == if request.AwaitingOwner? then Error(AwaitsOwner(command.id))
                             else if request.doc.owner != owner then Error(NotClaimOwner(command.id))
                             else if request.doc.scope != command.scope then Error(ScopeMismatch(command.id))
                             else if decision.Fails? then Error(DecisionFailed)
                             else Recorded(decision.outcome)))
  {
    ScopeIsJudged(ledger, command.scope, Some(command.id), command.recordedAt);
    if IsOpen(ledger, command.id) {
      OwnScopeIsFree(ledger, command.id);
    }
    hide Inv, ScopeBlock, StateOf, Replayable, DropTokens, Unrivalled, BlockedByRival, LowestHolder;
  }

  /** A record step leaves the decision's events and one completion with the
      claim's scope, frees its tokens and ends its lease. */
  lemma CompleteRecords(ledger: Ledger, command: Command, owner: Owner, decision: Decision)
    ensures var (next, reply) := Complete(ledger, command, owner, decision);
            reply.Recorded? ==>
              && decision.Decided?
              && Appends(ledger.chain, next.chain, decision.events,
                         [CommandCompleted(command.id, command.digest, command.scope, decision.outcome)])
              && next.requests == ledger.requests[command.id := Completed(command.digest, decision.outcome, |next.chain|)]
              && Frees(ledger.scopes, next.scopes, command.scope, command.id)
              && next.leases == ledger.leases - {command.id} && next.gone == ledger.gone
  {
    DropFrees(ledger.scopes, command.scope, command.id);
    hide TurnOf, DropTokens, Appends, Frees;
    var (next, reply) := Complete(ledger, command, owner, decision);
    if reply.Recorded? {
      DomainAppends(ledger, decision.events, next.chain,
                    [CommandCompleted(command.id, command.digest, command.scope, decision.outcome)]);
    }
  }

  // ----- reconcile -----

  /** Why a claim may not be reconciled yet, if it may not. */
  function Unreconcilable(ledger: Ledger, claim: Id, asOwner: bool, now: int): Option<Refusal> {
    if claim !in ledger.requests then Some(UnknownClaim(claim))
    else if ledger.requests[claim].Completed? then Some(StaleClaim(claim))
    else if ledger.requests[claim].AwaitingOwner? && !asOwner then Some(AwaitsOwner(claim))
    else if ledger.requests[claim].Claimed? && LeaseRuns(ledger, claim, now) then Some(StillActive(claim))
    else None
  }

  /** Less than a minute has passed since the claim's own lease was renewed. */
  predicate LeaseRuns(ledger: Ledger, claim: Id, now: int)
    requires claim in ledger.requests && Open(ledger.requests[claim])
  {
    claim in ledger.leases && ledger.leases[claim].sequence == ledger.requests[claim].doc.sequence
    && now < ledger.leases[claim].renewedAt + 60
  }

  lemma StatesAreTheLeases(ledger: Ledger, claim: Id, now: int)
    requires Inv(ledger) && IsOpen(ledger, claim)
    ensures ledger.requests[claim].doc.id == claim
    ensures StateOf(ledger, ledger.requests[claim], now)
            == if ledger.requests[claim].AwaitingOwner? then HeldForOwner
               else if LeaseRuns(ledger, claim, now) then Active else Interrupted
  {
  }

  /** What a reconciliation's own request decides before its claim is looked at. */
  lemma ReconcilingTurns(ledger: Ledger, command: Command, claim: Id)
    requires Inv(ledger)
    ensures var turn := TurnOf(ledger, command, Reconciling(claim));
            if command.id in ledger.requests then
              && !turn.Proceed?
              && Retried(ledger, command, TurnReply(turn), Open(ledger.requests[command.id]) ==>
                   TurnReply(turn) == Error(Blocked(command.id, StateOf(ledger, ledger.requests[command.id], command.recordedAt))))
            else if Unrivalled(ledger, command.scope, Some(claim)) then turn.Proceed?
            else turn.Refused? && BlockedByRival(ledger, command.scope, Some(claim), command.recordedAt, turn.refusal)
  {
    ScopeIsJudged(ledger, command.scope, Some(claim), command.recordedAt);
    hide Inv, ScopeBlock, StateOf, Replayable, Unrivalled, BlockedByRival;
  }

  /** The two judgements of a claim agree. */
  lemma ClaimsAreJudged(ledger: Ledger, command: Command, claim: Id, asOwner: bool)
    requires Inv(ledger)
    ensures Reconcilable(ledger, command, claim).None? ==> IsOpen(ledger, claim)
    ensures Unreconcilable(ledger, claim, asOwner, command.recordedAt)
            == if Reconcilable(ledger, command, claim).None? && ledger.requests[claim].AwaitingOwner? && !asOwner then Some(AwaitsOwner(claim))
               else Reconcilable(ledger, command, claim)
  {
    if IsOpen(ledger, claim) {
      StatesAreTheLeases(ledger, claim, command.recordedAt);
    }
    hide Inv, StateOf, LeaseRuns;
  }

  /** A reconciliation answers by its authority, its caller, its own request, its
      scope and then the claim's state, in that order; one that goes through
      records the decision's events, the finding, the claim's completion if it
      is resolved, and its own completion. */
  lemma ReconcileAnswers(ledger: Ledger, command: Command, claim: Id, asOwner: bool, resolution: Resolution)
    requires Inv(ledger)
    ensures var (next, reply) := Reconcile(ledger, command, claim, asOwner, resolution);
            && (!reply.Recorded? ==> next == ledger)
            && (if asOwner && !command.byOwner then reply == Error(NotOwner)
                else if command.hasCaller then reply == Error(CallerGiven)
                else if command.id in ledger.requests then
                  Retried(ledger, command, reply, Open(ledger.requests[command.id]) ==>
                    reply == Error(Blocked(command.id, StateOf(ledger, ledger.requests[command.id], command.recordedAt))))
                else if !Unrivalled(ledger, command.scope, Some(claim)) then
                  reply.Error? && BlockedByRival(ledger, command.scope, Some(claim), command.recordedAt, reply.refusal)
                else
                  var refusal := Unreconcilable(ledger, claim, asOwner, command.recordedAt);
                  reply == if refusal.Some? then Error(refusal.value)
                           else if resolution.ReconcileFails? then Error(DecisionFailed) else Recorded(RECONCILED))
  {
    ReconcilingTurns(ledger, command, claim);
    ClaimsAreJudged(ledger, command, claim, asOwner);
    hide Inv, TurnOf, StateOf, Retried, Unrivalled, BlockedByRival, Resolve, Reconcilable, Unreconcilable;
  }

  /** The events of a reconciliation that goes through. */
  function ReconciledEvents(command: Command, claim: Id, doc: ClaimDoc, resolution: Resolution): seq<Event>
    requires !resolution.ReconcileFails?
  {
    [CommandReconciled(claim, doc.sequence, resolution.Resolved?)]
    + (if resolution.Resolved? then [CommandCompleted(claim, doc.digest, doc.scope, resolution.outcome)] else [])
    + [CommandCompleted(command.id, command.digest, [], RECONCILED)]
  }

  lemma ReconcileRecords(ledger: Ledger, command: Command, claim: Id, asOwner: bool, resolution: Resolution)
    requires Inv(ledger) && Reconcile(ledger, command, claim, asOwner, resolution).1.Recorded?
    ensures IsOpen(ledger, claim) && claim != command.id && !resolution.ReconcileFails?
    ensures var next := Reconcile(ledger, command, claim, asOwner, resolution).0;
            var doc := ledger.requests[claim].doc;
            && Appends(ledger.chain, next.chain, resolution.events, ReconciledEvents(command, claim, doc, resolution))
            && next.requests
               == ledger.requests[claim := if resolution.Resolved? then Completed(doc.digest, resolution.outcome, |next.chain| - 1)
                                           else AwaitingOwner(doc, |next.chain| - 1)]
                                 [command.id := Completed(command.digest, RECONCILED, |next.chain|)]
            && (if resolution.Resolved? then Frees(ledger.scopes, next.scopes, doc.scope, claim) else next.scopes == ledger.scopes)
            && next.leases == (if resolution.Resolved? then ledger.leases - {claim} else ledger.leases) && next.gone == ledger.gone
  {
    hide Inv, ScopeBlock, StateOf, Replayable, DropTokens, Appends, Frees, LowestHolder;
    var next := Reconcile(ledger, command, claim, asOwner, resolution).0;
    var doc := ledger.requests[claim].doc;
    DropFrees(ledger.scopes, doc.scope, claim);
    NoScope(ledger.scopes, command.id);
    NoScope(DropTokens(ledger.scopes, doc.scope, claim), command.id);
    ResolveAppends(ledger, command, claim, resolution);
  }

  lemma ResolveAppends(ledger: Ledger, command: Command, claim: Id, resolution: Resolution)
    requires IsOpen(ledger, claim) && !resolution.ReconcileFails?
    ensures Appends(ledger.chain, Resolve(ledger, command, claim, resolution).chain, resolution.events,
                    ReconciledEvents(command, claim, ledger.requests[claim].doc, resolution))
  {
    hide DropTokens, WithDomain;
    var doc := ledger.requests[claim].doc;
    var events := ReconciledEvents(command, claim, doc, resolution);
    var chain := WithDomain(ledger, resolution.events).chain;
    assert WithDomain(ledger, resolution.events).requests == ledger.requests by {
      DomainKeepsRequests(ledger, resolution.events);
    }
    assert Resolve(ledger, command, claim, resolution).chain == chain + events;
    DomainAppends(ledger, resolution.events, Resolve(ledger, command, claim, resolution).chain, events);
  }

  lemma DomainKeepsRequests(ledger: Ledger, events: seq<Payload>)
    ensures WithDomain(ledger, events).requests == ledger.requests
  {
  }

  // ----- renew -----

  /** A renewal is refused to an unknown, closed or held claim, to any other
      owner, and before the lease's last renewal, or the claim itself where
      there is no lease; otherwise the lease starts anew and nothing else
      moves. */
  lemma RenewAnswers(ledger: Ledger, id: Id, owner: Owner, at: int)
    requires Inv(ledger)
    ensures var (next, refused) := Renew(ledger, id, owner, at);
            if id !in ledger.requests then refused == Some(UnknownClaim(id)) && next == ledger
            else if !ledger.requests[id].Claimed? then refused == Some(StaleClaim(id)) && next == ledger
            else
              var doc := ledger.requests[id].doc;
              var leased := id in ledger.leases && ledger.leases[id].sequence == doc.sequence;
              if doc.owner != owner then refused == Some(NotClaimOwner(id)) && next == ledger
              else if (if leased then at < ledger.leases[id].renewedAt else at < doc.claimedAt) then
                refused == Some(LeaseTime(id)) && next == ledger
              else refused == None && next == ledger.(leases := ledger.leases[id := Lease(doc.sequence, at)])
  {
    if id in ledger.requests && ledger.requests[id].Claimed? {
      assert IsOpen(ledger, id);
    }
  }
}
