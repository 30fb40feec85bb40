/** What every run of commands, claims, renewals, record steps and
    reconciliations keeps, whatever the clocks and leases say
    (crates/baley-store-sqlite/src/transact.rs and claim.rs). */
module ClaimRuns {
  import opened Wrappers
  import opened Claims

  datatype Step =
    | DoTransact(command: Command, decision: Decision)
    | DoClaim(command: Command, claiming: ClaimDecision)
    | DoRenew(id: Id, owner: Owner, at: int)
    | DoComplete(command: Command, owner: Owner, decision: Decision)
    | DoReconcile(command: Command, claim: Id, asOwner: bool, resolution: Resolution)
    | LoseLeases(leases: map<Id, Lease>)
    | ReleaseAnswer(sequence: nat, hash: string)

  function After(ledger: Ledger, step: Step): Ledger {
    match step
    case DoTransact(command, decision) => Transact(ledger, command, decision).0
    case DoClaim(command, claiming) => TakeClaim(ledger, command, claiming).0
    case DoRenew(id, owner, at) => Renew(ledger, id, owner, at).0
    case DoComplete(command, owner, decision) => Complete(ledger, command, owner, decision).0
    case DoReconcile(command, claim, asOwner, resolution) => Reconcile(ledger, command, claim, asOwner, resolution).0
    case LoseLeases(leases) => ledger.(leases := leases)
    case ReleaseAnswer(sequence, hash) => ledger.(gone := ledger.gone + {(sequence, hash)})
  }

  function Run(ledger: Ledger, steps: seq<Step>): Ledger
    decreases |steps|
  {
    if steps == [] then ledger else Run(After(ledger, steps[0]), steps[1..])
  }

  const EMPTY := Ledger([], map[], map[], map[], {})

  /** A run ends with its last step, taken where the steps before it ended. */
  lemma {:induction false} RunAppends(ledger: Ledger, steps: seq<Step>, step: Step)
    ensures Run(ledger, steps + [step]) == After(Run(ledger, steps), step)
    decreases |steps|
  {
    hide After;
    if steps == [] {
      assert [step][1..] == [] && [] + [step] == [step];
    } else {
      assert (steps + [step])[1..] == steps[1..] + [step];
      RunAppends(After(ledger, steps[0]), steps[1..], step);
    }
  }

  // ----- the invariant -----

  predicate IsOpen(ledger: Ledger, id: Id) {
    id in ledger.requests && Open(ledger.requests[id])
  }

  /** Every token names an open claim whose scope has it. */
  ghost predicate TokensAreHeld(ledger: Ledger) {
    forall token :: token in ledger.scopes ==>
      var named := ledger.scopes[token];
      && IsOpen(ledger, named.id)
      && ledger.requests[named.id].doc.id == named.id && ledger.requests[named.id].doc.sequence == named.sequence
      && token in ledger.requests[named.id].doc.scope
  }

  /** Every open claim holds its whole scope. */
  ghost predicate ClaimsHoldTheirScope(ledger: Ledger) {
    forall id :: IsOpen(ledger, id) ==>
      && ledger.requests[id].doc.id == id
      && forall token :: token in ledger.requests[id].doc.scope ==> token in ledger.scopes && ledger.scopes[token].id == id
  }

  /** An open claim's document is its `command.claimed` event. */
  ghost predicate ClaimsAreRecorded(ledger: Ledger) {
    forall id :: IsOpen(ledger, id) ==>
      var doc := ledger.requests[id].doc;
      && 0 < doc.sequence <= |ledger.chain|
      && ledger.chain[doc.sequence - 1] == CommandClaimed(id, doc.digest, doc.scope, doc.owner, doc.intent, doc.claimedAt)
  }

  /** The chain's completions and the completed requests are the same. */
  ghost predicate CompletionsAreRequests(ledger: Ledger) {
    && (forall at :: 0 <= at < |ledger.chain| && ledger.chain[at].CommandCompleted? ==>
          var event := ledger.chain[at];
          event.id in ledger.requests && ledger.requests[event.id] == Completed(event.digest, event.outcome, at + 1))
    && (forall id :: id in ledger.requests && ledger.requests[id].Completed? ==>
          var request := ledger.requests[id];
          && 0 < request.producedSeq <= |ledger.chain|
          && var event := ledger.chain[request.producedSeq - 1];
             event.CommandCompleted? && event.id == id)
  }

  ghost predicate Inv(ledger: Ledger) {
    && TokensAreHeld(ledger) && ClaimsHoldTheirScope(ledger) && ClaimsAreRecorded(ledger)
    && CompletionsAreRequests(ledger) && ClaimedOnce(ledger)
  }

  /** A request is claimed at most once, and a claimed one stays known. */
  ghost predicate ClaimedOnce(ledger: Ledger) {
    && (forall at :: 0 <= at < |ledger.chain| && ledger.chain[at].CommandClaimed? ==> ledger.chain[at].id in ledger.requests)
    && (forall i, j :: 0 <= i < j < |ledger.chain| && ledger.chain[i].CommandClaimed? && ledger.chain[j].CommandClaimed?
          ==> ledger.chain[i].id != ledger.chain[j].id)
  }

  /** Events that claim nothing keep it. */
  lemma NothingClaimed(ledger: Ledger, next: Ledger)
    requires ClaimedOnce(ledger)
    requires ledger.chain <= next.chain && ledger.requests.Keys <= next.requests.Keys
    requires forall at :: |ledger.chain| <= at < |next.chain| ==> !next.chain[at].CommandClaimed?
    ensures ClaimedOnce(next)
  {
    forall at | 0 <= at < |next.chain| && next.chain[at].CommandClaimed? ensures at < |ledger.chain| && next.chain[at] == ledger.chain[at] {
    }
  }

  // ----- the pieces of a step -----

  lemma DomainKeeps(ledger: Ledger, events: seq<Payload>)
    requires Inv(ledger)
    ensures Inv(WithDomain(ledger, events))
  {
    var next := WithDomain(ledger, events);
    NothingClaimed(ledger, next);
    hide ClaimedOnce;
    forall at | 0 <= at < |next.chain| && next.chain[at].CommandCompleted? ensures at < |ledger.chain| {
    }
  }

  /** Completing a request that has not been completed, with the scope it holds
      or none if it holds none. */
  lemma CompletionKeeps(ledger: Ledger, id: Id, digest: string, scope: seq<string>, outcome: Outcome)
    requires Inv(ledger)
    requires id in ledger.requests ==> Open(ledger.requests[id]) && ledger.requests[id].doc.scope == scope
    ensures Inv(CompletedBy(ledger, id, digest, scope, outcome))
  {
    hide Inv, TokensAreHeld, ClaimsHoldTheirScope, ClaimsAreRecorded, CompletionsAreRequests, ClaimedOnce;
    InvParts(ledger);
    CompletionFreesTokens(ledger, id, digest, scope, outcome);
    CompletionKeepsClaims(ledger, id, digest, scope, outcome);
    CompletionIsRecorded(ledger, id, digest, scope, outcome);
    NothingClaimed(ledger, CompletedBy(ledger, id, digest, scope, outcome));
    InvParts(CompletedBy(ledger, id, digest, scope, outcome));
  }

  lemma InvParts(ledger: Ledger)
    ensures Inv(ledger) <==> TokensAreHeld(ledger) && ClaimsHoldTheirScope(ledger) && ClaimsAreRecorded(ledger)
                             && CompletionsAreRequests(ledger) && ClaimedOnce(ledger)
  {
  }

  lemma CompletionFreesTokens(ledger: Ledger, id: Id, digest: string, scope: seq<string>, outcome: Outcome)
    requires TokensAreHeld(ledger)
    requires id in ledger.requests ==> Open(ledger.requests[id]) && ledger.requests[id].doc.scope == scope
    ensures TokensAreHeld(CompletedBy(ledger, id, digest, scope, outcome))
  {
    var next := CompletedBy(ledger, id, digest, scope, outcome);
    forall token | token in next.scopes ensures next.scopes[token].id != id && token in ledger.scopes {
    }
  }

  lemma CompletionKeepsClaims(ledger: Ledger, id: Id, digest: string, scope: seq<string>, outcome: Outcome)
    requires ClaimsHoldTheirScope(ledger) && ClaimsAreRecorded(ledger)
    ensures ClaimsHoldTheirScope(CompletedBy(ledger, id, digest, scope, outcome))
    ensures ClaimsAreRecorded(CompletedBy(ledger, id, digest, scope, outcome))
  {
    var next := CompletedBy(ledger, id, digest, scope, outcome);
    forall other | IsOpen(next, other) ensures IsOpen(ledger, other) && other != id && next.requests[other] == ledger.requests[other] {
    }
  }

  lemma CompletionIsRecorded(ledger: Ledger, id: Id, digest: string, scope: seq<string>, outcome: Outcome)
    requires CompletionsAreRequests(ledger)
    requires id in ledger.requests ==> Open(ledger.requests[id])
    ensures CompletionsAreRequests(CompletedBy(ledger, id, digest, scope, outcome))
  {
    hide DropTokens;
    var next := CompletedBy(ledger, id, digest, scope, outcome);
    var event := CommandCompleted(id, digest, scope, outcome);
    assert next.chain == ledger.chain + [event] && next.requests == ledger.requests[id := Completed(digest, outcome, |ledger.chain| + 1)];
    hide CompletedBy;
    forall at | 0 <= at < |next.chain| && next.chain[at].CommandCompleted?
      ensures next.chain[at].id in next.requests
      ensures next.requests[next.chain[at].id] == Completed(next.chain[at].digest, next.chain[at].outcome, at + 1)
    {
      if at < |ledger.chain| {
        assert next.chain[at] == ledger.chain[at];
      }
    }
    forall other | other in next.requests && next.requests[other].Completed?
      ensures 0 < next.requests[other].producedSeq <= |next.chain|
      ensures var made := next.chain[next.requests[other].producedSeq - 1];
              made.CommandCompleted? && made.id == other
    {
      if other != id {
        assert next.requests[other] == ledger.requests[other];
      }
    }
  }

  /** No token of the scope is held by an open claim. */
  ghost predicate ScopeIsFree(ledger: Ledger, scope: seq<string>) {
    forall token :: token in scope ==> token !in ledger.scopes
  }

  lemma ClaimKeeps(ledger: Ledger, command: Command, intent: Intent, owner: Owner)
    requires Inv(ledger)
    requires command.id !in ledger.requests && ScopeIsFree(ledger, command.scope)
    ensures Inv(ClaimedBy(ledger, command, intent, owner))
  {
    hide Inv, TokensAreHeld, ClaimsHoldTheirScope, ClaimsAreRecorded, CompletionsAreRequests, ClaimedOnce;
    InvParts(ledger);
    ClaimTakesTokens(ledger, command, intent, owner);
    ClaimKeepsClaims(ledger, command, intent, owner);
    ClaimKeepsCompletions(ledger, command, intent, owner);
    OneClaimMore(ledger, command, intent, owner);
    InvParts(ClaimedBy(ledger, command, intent, owner));
  }

  lemma OneClaimMore(ledger: Ledger, command: Command, intent: Intent, owner: Owner)
    requires ClaimedOnce(ledger) && command.id !in ledger.requests
    ensures ClaimedOnce(ClaimedBy(ledger, command, intent, owner))
  {
    hide PutTokens;
    var next := ClaimedBy(ledger, command, intent, owner);
    forall at | 0 <= at < |ledger.chain| ensures next.chain[at] == ledger.chain[at] {
    }
  }

  lemma ClaimTakesTokens(ledger: Ledger, command: Command, intent: Intent, owner: Owner)
    requires TokensAreHeld(ledger) && command.id !in ledger.requests
    ensures TokensAreHeld(ClaimedBy(ledger, command, intent, owner))
  {
    var next := ClaimedBy(ledger, command, intent, owner);
    forall token | token in next.scopes && token !in command.scope
      ensures token in ledger.scopes && next.scopes[token] == ledger.scopes[token]
    {
    }
  }

  lemma ClaimKeepsClaims(ledger: Ledger, command: Command, intent: Intent, owner: Owner)
    requires ClaimsHoldTheirScope(ledger) && ClaimsAreRecorded(ledger)
    requires command.id !in ledger.requests && ScopeIsFree(ledger, command.scope)
    ensures ClaimsHoldTheirScope(ClaimedBy(ledger, command, intent, owner))
    ensures ClaimsAreRecorded(ClaimedBy(ledger, command, intent, owner))
  {
    var next := ClaimedBy(ledger, command, intent, owner);
    forall other | IsOpen(next, other) && other != command.id
      ensures IsOpen(ledger, other) && next.requests[other] == ledger.requests[other]
    {
    }
  }

  lemma ClaimKeepsCompletions(ledger: Ledger, command: Command, intent: Intent, owner: Owner)
    requires CompletionsAreRequests(ledger) && command.id !in ledger.requests
    ensures CompletionsAreRequests(ClaimedBy(ledger, command, intent, owner))
  {
    var next := ClaimedBy(ledger, command, intent, owner);
    forall at | 0 <= at < |next.chain| && next.chain[at].CommandCompleted? ensures at < |ledger.chain| {
    }
  }

  lemma NoteKeeps(ledger: Ledger, claim: Id, resolved: bool)
    requires Inv(ledger) && IsOpen(ledger, claim)
    ensures Inv(Noted(ledger, claim, resolved))
  {
    hide Inv, TokensAreHeld, ClaimsHoldTheirScope, ClaimsAreRecorded, CompletionsAreRequests, ClaimedOnce;
    InvParts(ledger);
    NoteKeepsTokens(ledger, claim, resolved);
    NoteKeepsClaims(ledger, claim, resolved);
    NoteKeepsCompletions(ledger, claim, resolved);
    NothingClaimed(ledger, Noted(ledger, claim, resolved));
    InvParts(Noted(ledger, claim, resolved));
  }

  lemma NoteKeepsDocs(ledger: Ledger, claim: Id, resolved: bool)
    requires IsOpen(ledger, claim)
    ensures var next := Noted(ledger, claim, resolved);
            && next.scopes == ledger.scopes && ledger.chain <= next.chain
            && forall id :: (IsOpen(next, id) <==> IsOpen(ledger, id))
                            && (IsOpen(ledger, id) ==> next.requests[id].doc == ledger.requests[id].doc)
  {
  }

  lemma NoteKeepsTokens(ledger: Ledger, claim: Id, resolved: bool)
    requires TokensAreHeld(ledger) && IsOpen(ledger, claim)
    ensures TokensAreHeld(Noted(ledger, claim, resolved))
  {
    NoteKeepsDocs(ledger, claim, resolved);
    hide Noted, IsOpen;
  }

  lemma NoteKeepsClaims(ledger: Ledger, claim: Id, resolved: bool)
    requires ClaimsHoldTheirScope(ledger) && ClaimsAreRecorded(ledger) && IsOpen(ledger, claim)
    ensures ClaimsHoldTheirScope(Noted(ledger, claim, resolved)) && ClaimsAreRecorded(Noted(ledger, claim, resolved))
  {
    NoteKeepsDocs(ledger, claim, resolved);
    hide Noted;
  }

  lemma NoteKeepsCompletions(ledger: Ledger, claim: Id, resolved: bool)
    requires CompletionsAreRequests(ledger) && IsOpen(ledger, claim)
    ensures CompletionsAreRequests(Noted(ledger, claim, resolved))
  {
    var next := Noted(ledger, claim, resolved);
    forall at | 0 <= at < |next.chain| && next.chain[at].CommandCompleted? ensures at < |ledger.chain| {
    }
  }

  lemma LeasesDoNotMatter(ledger: Ledger, leases: map<Id, Lease>)
    requires Inv(ledger)
    ensures Inv(ledger.(leases := leases))
  {
    var next := ledger.(leases := leases);
    assert forall id :: IsOpen(next, id) <==> IsOpen(ledger, id);
  }

  // ----- scopes -----

  /** No token document points at a claim without that token, so the scope
      check is never corrupt. */
  lemma HoldersAreFound(ledger: Ledger, token: string, excluded: Option<Id>)
    requires Inv(ledger)
    ensures HolderOf(ledger, token, excluded).Ok?
    ensures var found := HolderOf(ledger, token, excluded).value;
            && (found.Some? ==> IsOpen(ledger, found.value.id) && ledger.requests[found.value.id].doc == found.value
                                && token in found.value.scope && Some(found.value.id) != excluded)
            && (found.None? <==> token !in ledger.scopes || Some(ledger.scopes[token].id) == excluded)
  {
  }

  /** An open claim other than the excluded one that shares a token. */
  ghost predicate Rivals(ledger: Ledger, scope: seq<string>, excluded: Option<Id>, id: Id) {
    IsOpen(ledger, id) && Some(id) != excluded && exists token :: token in scope && token in ledger.requests[id].doc.scope
  }

  lemma {:induction false} LowestHolderIsExact(ledger: Ledger, scope: seq<string>, excluded: Option<Id>)
    requires Inv(ledger)
    ensures LowestHolder(ledger, scope, excluded).Ok?
    ensures var found := LowestHolder(ledger, scope, excluded).value;
            && (found.Some? ==> Rivals(ledger, scope, excluded, found.value.id)
                                && ledger.requests[found.value.id].doc == found.value)
            && (forall id :: Rivals(ledger, scope, excluded, id) ==>
                  found.Some? && found.value.sequence <= ledger.requests[id].doc.sequence)
  {
    if scope != [] {
      var last := |scope| - 1;
      var shorter, token := scope[..last], scope[last];
      LowestHolderIsExact(ledger, shorter, excluded);
      HoldersAreFound(ledger, token, excluded);
      assert scope == shorter + [token];
      forall id ensures Rivals(ledger, scope, excluded, id)
          <==> Rivals(ledger, shorter, excluded, id) || RivalsAt(ledger, token, excluded, id)
      {
        OneTokenMore(ledger, shorter, token, excluded, id);
      }
      OneRival(ledger, token, excluded);
      hide Rivals, RivalsAt, HolderOf, Inv;
    }
  }

  ghost predicate RivalsAt(ledger: Ledger, token: string, excluded: Option<Id>, id: Id) {
    IsOpen(ledger, id) && Some(id) != excluded && token in ledger.requests[id].doc.scope
  }

  lemma OneTokenMore(ledger: Ledger, scope: seq<string>, token: string, excluded: Option<Id>, id: Id)
    ensures Rivals(ledger, scope + [token], excluded, id)
            <==> Rivals(ledger, scope, excluded, id) || RivalsAt(ledger, token, excluded, id)
  {
    if Rivals(ledger, scope, excluded, id) {
      var shared :| shared in scope && shared in ledger.requests[id].doc.scope;
      assert shared in scope + [token];
    }
    if RivalsAt(ledger, token, excluded, id) {
      assert token in scope + [token];
    }
  }

  /** The rival at a token is the claim the token names. */
  lemma OneRival(ledger: Ledger, token: string, excluded: Option<Id>)
    requires Inv(ledger)
    ensures HolderOf(ledger, token, excluded).Ok?
    ensures var found := HolderOf(ledger, token, excluded).value;
            && (found.Some? ==> RivalsAt(ledger, token, excluded, found.value.id)
                                && ledger.requests[found.value.id].doc == found.value)
            && (forall id :: RivalsAt(ledger, token, excluded, id) ==> found.Some? && found.value.id == id)
  {
    HoldersAreFound(ledger, token, excluded);
  }

  /** A command is blocked exactly when an open claim other than its own shares
      a token with it, and then the earliest such claim is named. */
  lemma ScopesExclude(ledger: Ledger, scope: seq<string>, excluded: Option<Id>, now: int)
    requires Inv(ledger)
    ensures var block := ScopeBlock(ledger, scope, excluded, now);
            && (block.None? <==> forall id :: !Rivals(ledger, scope, excluded, id))
            && (block.Some? ==>
                  && block.value.Blocked? && Rivals(ledger, scope, excluded, block.value.id)
                  && block.value.state == StateOf(ledger, ledger.requests[block.value.id], now)
                  && forall id :: Rivals(ledger, scope, excluded, id) ==>
                       ledger.requests[block.value.id].doc.sequence <= ledger.requests[id].doc.sequence)
  {
    LowestHolderIsExact(ledger, scope, excluded);
  }

  lemma UnblockedIsFree(ledger: Ledger, scope: seq<string>, now: int)
    requires Inv(ledger) && ScopeBlock(ledger, scope, None, now).None?
    ensures ScopeIsFree(ledger, scope)
  {
    ScopesExclude(ledger, scope, None, now);
    forall token | token in scope ensures token !in ledger.scopes {
      if token in ledger.scopes {
        assert Rivals(ledger, scope, None, ledger.scopes[token].id);
      }
    }
  }

  // ----- every step -----

  lemma TransactKeeps(ledger: Ledger, command: Command, decision: Decision)
    requires Inv(ledger)
    ensures Inv(Transact(ledger, command, decision).0)
  {
    if TurnOf(ledger, command, Ordinary).Proceed? && decision.Decided? {
      DomainKeeps(ledger, decision.events);
      CompletionKeeps(WithDomain(ledger, decision.events), command.id, command.digest, [], decision.outcome);
    }
  }

  lemma TakeKeeps(ledger: Ledger, command: Command, claiming: ClaimDecision)
    requires Inv(ledger)
    ensures Inv(TakeClaim(ledger, command, claiming).0)
  {
    if TurnOf(ledger, command, Claiming).Proceed? && !claiming.ClaimFails? {
      DomainKeeps(ledger, claiming.events);
      if claiming.Refuse? {
        CompletionKeeps(WithDomain(ledger, claiming.events), command.id, command.digest, [], claiming.outcome);
      } else {
        UnblockedIsFree(ledger, command.scope, command.recordedAt);
        ClaimKeeps(WithDomain(ledger, claiming.events), command, claiming.intent, claiming.owner);
      }
    }
  }

  lemma CompleteKeeps(ledger: Ledger, command: Command, owner: Owner, decision: Decision)
    requires Inv(ledger)
    ensures Inv(Complete(ledger, command, owner, decision).0)
  {
    if TurnOf(ledger, command, Completing(owner)).Proceed? && decision.Decided? {
      DomainKeeps(ledger, decision.events);
      var next := CompletedBy(WithDomain(ledger, decision.events), command.id, command.digest, command.scope, decision.outcome);
      CompletionKeeps(WithDomain(ledger, decision.events), command.id, command.digest, command.scope, decision.outcome);
      LeasesDoNotMatter(next, ledger.leases - {command.id});
    }
  }

  lemma SettleKeeps(ledger: Ledger, claim: Id, doc: ClaimDoc, outcome: Outcome)
    requires Inv(ledger) && IsOpen(ledger, claim) && ledger.requests[claim].doc == doc
    ensures Inv(Settled(ledger, claim, doc, outcome))
  {
    CompletionKeeps(ledger, claim, doc.digest, doc.scope, outcome);
    LeasesDoNotMatter(CompletedBy(ledger, claim, doc.digest, doc.scope, outcome), ledger.leases - {claim});
  }

  lemma ReconcileKeeps(ledger: Ledger, command: Command, claim: Id, asOwner: bool, resolution: Resolution)
    requires Inv(ledger)
    ensures Inv(Reconcile(ledger, command, claim, asOwner, resolution).0)
  {
    if Reconcile(ledger, command, claim, asOwner, resolution).0 != ledger {
      assert IsOpen(ledger, claim) && command.id !in ledger.requests;
      var appended := WithDomain(ledger, resolution.events);
      DomainKeeps(ledger, resolution.events);
      NoteKeeps(appended, claim, resolution.Resolved?);
      var noted := Noted(appended, claim, resolution.Resolved?);
      var doc := ledger.requests[claim].doc;
      if resolution.Resolved? {
        SettleKeeps(noted, claim, doc, resolution.outcome);
        CompletionKeeps(Settled(noted, claim, doc, resolution.outcome), command.id, command.digest, [], RECONCILED);
      } else {
        CompletionKeeps(noted, command.id, command.digest, [], RECONCILED);
      }
    }
  }

  lemma StepKeeps(ledger: Ledger, step: Step)
    requires Inv(ledger)
    ensures Inv(After(ledger, step))
  {
    hide Inv, Transact, TakeClaim, Complete, Reconcile;
    match step
    case DoTransact(command, decision) => TransactKeeps(ledger, command, decision);
    case DoClaim(command, claiming) => TakeKeeps(ledger, command, claiming);
    case DoRenew(id, owner, at) => LeasesDoNotMatter(ledger, Renew(ledger, id, owner, at).0.leases);
    case DoComplete(command, owner, decision) => CompleteKeeps(ledger, command, owner, decision);
    case DoReconcile(command, claim, asOwner, resolution) => ReconcileKeeps(ledger, command, claim, asOwner, resolution);
    case LoseLeases(leases) => LeasesDoNotMatter(ledger, leases);
    case ReleaseAnswer(sequence, hash) => ReleasesDoNotMatter(ledger, ledger.gone + {(sequence, hash)});
  }

  lemma ReleasesDoNotMatter(ledger: Ledger, gone: set<(nat, string)>)
    requires Inv(ledger)
    ensures Inv(ledger.(gone := gone))
  {
    assert forall id :: IsOpen(ledger.(gone := gone), id) <==> IsOpen(ledger, id);
  }

  lemma {:induction false} RunKeeps(ledger: Ledger, steps: seq<Step>)
    requires Inv(ledger)
    ensures Inv(Run(ledger, steps))
    decreases |steps|
  {
    if steps != [] {
      StepKeeps(ledger, steps[0]);
      RunKeeps(After(ledger, steps[0]), steps[1..]);
    }
  }

  // ----- the main results -----

  lemma EmptyLedgerFits()
    ensures Inv(EMPTY)
  {
  }

  predicate HoldsToken(ledger: Ledger, id: Id, token: string) {
    IsOpen(ledger, id) && token in ledger.requests[id].doc.scope
  }

  /** In every run a token names a claim exactly while that request is open and
      its scope has the token, so no two open claims ever share one. */
  lemma ScopesExcludeInEveryRun(steps: seq<Step>)
    ensures var ledger := Run(EMPTY, steps);
            && (forall token, id :: HoldsToken(ledger, id, token) <==> token in ledger.scopes && ledger.scopes[token].id == id)
            && (forall a, b, token :: HoldsToken(ledger, a, token) && HoldsToken(ledger, b, token) ==> a == b)
  {
    EmptyLedgerFits();
    RunKeeps(EMPTY, steps);
    hide Run;
  }

  /** No run completes a request twice. */
  lemma CompletedAtMostOnce(steps: seq<Step>, i: nat, j: nat)
    requires var chain := Run(EMPTY, steps).chain;
             && i < |chain| && j < |chain| && chain[i].CommandCompleted? && chain[j].CommandCompleted?
             && chain[i].id == chain[j].id
    ensures i == j
  {
    EmptyLedgerFits();
    RunKeeps(EMPTY, steps);
    hide Run;
  }

  /** Nor claims one twice. */
  lemma ClaimedAtMostOnce(steps: seq<Step>, i: nat, j: nat)
    requires var chain := Run(EMPTY, steps).chain;
             && i < |chain| && j < |chain| && chain[i].CommandClaimed? && chain[j].CommandClaimed?
             && chain[i].id == chain[j].id
    ensures i == j
  {
    EmptyLedgerFits();
    RunKeeps(EMPTY, steps);
    hide Run;
  }

  /** A completed request answers every retry with its outcome, or refuses a
      retry of another digest, and changes nothing. */
  lemma CompletedRequestsReplay(ledger: Ledger, command: Command, decision: Decision, claiming: ClaimDecision, owner: Owner)
    requires command.id in ledger.requests && ledger.requests[command.id].Completed?
    ensures var request := ledger.requests[command.id];
            var reply := if request.digest == command.digest then Replayed(Replayable(ledger, request)) else Error(DigestMismatch);
            && Transact(ledger, command, decision) == (ledger, reply)
            && TakeClaim(ledger, command, claiming) == (ledger, reply)
            && Complete(ledger, command, owner, decision) == (ledger, reply)
  {
  }

  /** The answer a retry receives is the recorded one, as a tombstone once its
      reference is released. */
  lemma ReplaysAreTheRecordedOutcome(ledger: Ledger, id: Id)
    requires Inv(ledger) && id in ledger.requests && ledger.requests[id].Completed?
    ensures var request := ledger.requests[id];
            var event := ledger.chain[request.producedSeq - 1];
            && 0 < request.producedSeq <= |ledger.chain| && event.CommandCompleted? && event.id == id
            && Replayable(ledger, request)
               == if event.outcome.answer.Stored? && (request.producedSeq, event.outcome.answer.hash) in ledger.gone
                  then event.outcome.(answer := Tombstone(event.outcome.answer.hash)) else event.outcome
  {
    var request := ledger.requests[id];
    assert ledger.chain[request.producedSeq - 1].CommandCompleted?;
  }

  lemma StepKeepsCompletions(ledger: Ledger, step: Step, id: Id)
    requires id in ledger.requests && ledger.requests[id].Completed?
    ensures id in After(ledger, step).requests && After(ledger, step).requests[id] == ledger.requests[id]
  {
    hide LowestHolder, ScopeBlock, StateOf, Replayable, PutTokens, DropTokens;
    match step
    case DoReconcile(command, claim, asOwner, resolution) =>
      if Reconcile(ledger, command, claim, asOwner, resolution).0 != ledger {
        assert command.id != id && claim != id;
      }
    case DoTransact(command, decision) =>
      assert Transact(ledger, command, decision).0 != ledger ==> command.id != id;
    case DoClaim(command, claiming) =>
      assert TakeClaim(ledger, command, claiming).0 != ledger ==> command.id != id;
    case DoComplete(command, owner, decision) =>
      assert Complete(ledger, command, owner, decision).0 != ledger ==> command.id != id;
    case _ =>
  }

  /** Once completed, a request stays as it is for the rest of the run. */
  lemma {:induction false} CompletionsLast(ledger: Ledger, steps: seq<Step>, id: Id)
    requires id in ledger.requests && ledger.requests[id].Completed?
    ensures id in Run(ledger, steps).requests && Run(ledger, steps).requests[id] == ledger.requests[id]
    decreases |steps|
  {
    if steps != [] {
      hide After;
      StepKeepsCompletions(ledger, steps[0], id);
      CompletionsLast(After(ledger, steps[0]), steps[1..], id);
    }
  }

  /** The owner's record step arriving after a reconciliation resolved its
      claim, however much later: it gets the reconciliation's outcome and
      writes nothing. */
  lemma ALateRecordStepReplays(ledger: Ledger, command: Command, claim: Id, asOwner: bool, resolution: Resolution,
                               steps: seq<Step>, late: Command, owner: Owner, decision: Decision)
    requires Inv(ledger) && resolution.Resolved?
    requires Reconcile(ledger, command, claim, asOwner, resolution).1.Recorded?
    requires IsOpen(ledger, claim) && late.id == claim && late.digest == ledger.requests[claim].doc.digest
    ensures var later := Run(Reconcile(ledger, command, claim, asOwner, resolution).0, steps);
            && Complete(later, late, owner, decision).0 == later
            && Complete(later, late, owner, decision).1.Replayed?
            && var outcome := Complete(later, late, owner, decision).1.outcome;
               outcome == resolution.outcome
               || (resolution.outcome.answer.Stored?
                   && outcome == resolution.outcome.(answer := Tombstone(resolution.outcome.answer.hash)))
  {
    var reconciled := Reconcile(ledger, command, claim, asOwner, resolution).0;
    ReconcileKeeps(ledger, command, claim, asOwner, resolution);
    ReconcileCompletes(ledger, command, claim, asOwner, resolution);
    CompletionsLast(reconciled, steps, claim);
    var later := Run(reconciled, steps);
    CompletedRequestsReplay(later, late, decision, ClaimFails, owner);
    hide Run, Reconcile, Complete, Transact, TakeClaim;
  }

  lemma ReconcileCompletes(ledger: Ledger, command: Command, claim: Id, asOwner: bool, resolution: Resolution)
    requires Reconcile(ledger, command, claim, asOwner, resolution).1.Recorded? && resolution.Resolved?
    requires IsOpen(ledger, claim)
    ensures var next := Reconcile(ledger, command, claim, asOwner, resolution).0;
            && claim in next.requests && next.requests[claim].Completed?
            && next.requests[claim].digest == ledger.requests[claim].doc.digest
            && next.requests[claim].outcome == resolution.outcome
  {
    assert command.id != claim;
  }

  /** A claim is reconciled only when its lease is not live, and one held for
      the owner only by the owner. */
  lemma ReconciliationsWaitForTheLease(ledger: Ledger, command: Command, claim: Id, asOwner: bool, resolution: Resolution)
    requires Inv(ledger)
    requires Reconcile(ledger, command, claim, asOwner, resolution).1.Recorded?
    ensures IsOpen(ledger, claim) && StateOf(ledger, ledger.requests[claim], command.recordedAt) != Active
    ensures StateOf(ledger, ledger.requests[claim], command.recordedAt) == HeldForOwner ==> asOwner && command.byOwner
  {
  }

  /** A claim takes exactly its own tokens. */
  lemma ClaimsTakeTheirScope(ledger: Ledger, command: Command, claiming: ClaimDecision, id: Id, token: string)
    requires Inv(ledger) && TakeClaim(ledger, command, claiming).1.ClaimTaken?
    ensures HoldsToken(TakeClaim(ledger, command, claiming).0, id, token)
            <==> HoldsToken(ledger, id, token) || (id == command.id && token in command.scope)
    ensures command.id !in ledger.requests && forall other :: !Rivals(ledger, command.scope, None, other)
  {
    TakenUnfolds(ledger, command, claiming);
    ScopesExclude(ledger, command.scope, None, command.recordedAt);
    hide Inv, ScopeBlock, StateOf, Rivals, TakeClaim;
  }

  lemma TakenUnfolds(ledger: Ledger, command: Command, claiming: ClaimDecision)
    requires TakeClaim(ledger, command, claiming).1.ClaimTaken?
    ensures command.id !in ledger.requests && ScopeBlock(ledger, command.scope, None, command.recordedAt).None?
    ensures var requests := TakeClaim(ledger, command, claiming).0.requests;
            && requests.Keys == ledger.requests.Keys + {command.id}
            && (forall id :: id in ledger.requests ==> requests[id] == ledger.requests[id])
            && requests[command.id].Claimed? && requests[command.id].doc.scope == command.scope
  {
    hide ScopeBlock, StateOf, PutTokens;
  }

  /** A record step frees exactly its claim's tokens. */
  lemma RecordStepsFreeTheirScope(ledger: Ledger, command: Command, owner: Owner, decision: Decision, id: Id, token: string)
    requires Inv(ledger) && Complete(ledger, command, owner, decision).1.Recorded?
    ensures HoldsToken(Complete(ledger, command, owner, decision).0, id, token)
            <==> HoldsToken(ledger, id, token) && id != command.id
  {
    hide Inv, ScopeBlock, StateOf, DropTokens;
  }

  /** A reconciliation frees exactly the claim's tokens if it resolves it, and
      none if it leaves it to the owner. */
  lemma ReconciliationsFreeTheirScope(ledger: Ledger, command: Command, claim: Id, asOwner: bool, resolution: Resolution, id: Id,
                                      token: string)
    requires Inv(ledger) && Reconcile(ledger, command, claim, asOwner, resolution).1.Recorded?
    ensures HoldsToken(Reconcile(ledger, command, claim, asOwner, resolution).0, id, token)
            <==> HoldsToken(ledger, id, token) && !(resolution.Resolved? && id == claim)
  {
    hide Inv, ScopeBlock, StateOf, DropTokens;
  }

  /** An accepted renewal keeps the claim active for the next minute and no
      longer, never moves its lease back, and touches nothing else. */
  lemma RenewalsLastAMinute(ledger: Ledger, id: Id, owner: Owner, at: int, now: int)
    requires Inv(ledger) && Renew(ledger, id, owner, at).1.None?
    ensures var next := Renew(ledger, id, owner, at).0;
            && next == ledger.(leases := next.leases)
            && IsOpen(ledger, id) && ledger.requests[id].doc.owner == owner
            && (StateOf(next, next.requests[id], now) == Active <==> now < at + LEASE_EXPIRY_SECONDS)
            && (StateOf(ledger, ledger.requests[id], now) == Active ==> StateOf(next, next.requests[id], now) == Active)
  {
  }
}
