/** The request and claim_scope rows of a ledger are what its chain projects to,
    whatever operations wrote it (crates/baley-store-sqlite/src/transact.rs and
    the projectors of crates/baley-store/src/request.rs and claim.rs). */
module ClaimReplays {
  import opened Wrappers
  import opened Claims
  import opened ClaimRuns

  /** The ledger with these events pushed one by one. */
  function Replayed(ledger: Ledger, events: seq<Event>): Result<Ledger, Refusal>
    decreases |events|
  {
    if events == [] then Ok(ledger)
    else
      var before :- Replayed(ledger, events[..|events| - 1]);
      Pushed(before, events[|events| - 1])
  }

  /** A ledger without what its chain does not say. */
  function Bare(ledger: Ledger): Ledger {
    ledger.(leases := map[], gone := {})
  }

  predicate IsReplay(ledger: Ledger) {
    Replayed(EMPTY, ledger.chain) == Ok(Bare(ledger))
  }

  lemma PushKeeps(ledger: Ledger, event: Event, next: Ledger)
    requires IsReplay(ledger) && Pushed(ledger, event).Ok? && Bare(next) == Bare(Pushed(ledger, event).value)
    ensures IsReplay(next)
  {
    hide ProjectRequest, ProjectScopes;
    assert next.chain[..|next.chain| - 1] == ledger.chain;
    assert Pushed(Bare(ledger), event) == Ok(Bare(next));
  }

  lemma {:induction false} DomainKeepsReplay(ledger: Ledger, payloads: seq<Payload>)
    requires IsReplay(ledger)
    ensures IsReplay(WithDomain(ledger, payloads))
    decreases |payloads|
  {
    if payloads == [] {
      assert WithDomain(ledger, payloads).chain == ledger.chain;
    } else {
      var before := WithDomain(ledger, payloads[..|payloads| - 1]);
      DomainKeepsReplay(ledger, payloads[..|payloads| - 1]);
      assert WithDomain(ledger, payloads).chain == before.chain + [Domain(payloads[|payloads| - 1])];
      PushKeeps(before, Domain(payloads[|payloads| - 1]), WithDomain(ledger, payloads));
    }
  }

  lemma CompletionKeepsReplay(ledger: Ledger, id: Id, digest: string, scope: seq<string>, outcome: Outcome)
    requires IsReplay(ledger)
    ensures IsReplay(CompletedBy(ledger, id, digest, scope, outcome))
  {
    hide IsReplay, DropTokens;
    PushKeeps(ledger, CommandCompleted(id, digest, scope, outcome), CompletedBy(ledger, id, digest, scope, outcome));
  }

  lemma ClaimKeepsReplay(ledger: Ledger, command: Command, intent: Intent, owner: Owner)
    requires IsReplay(ledger)
    ensures IsReplay(ClaimedBy(ledger, command, intent, owner))
  {
    hide IsReplay, PutTokens;
    PushKeeps(ledger, CommandClaimed(command.id, command.digest, command.scope, owner, intent, command.recordedAt),
              ClaimedBy(ledger, command, intent, owner));
  }

  lemma NoteKeepsReplay(ledger: Ledger, claim: Id, resolved: bool)
    requires IsReplay(ledger) && IsOpen(ledger, claim)
    ensures IsReplay(Noted(ledger, claim, resolved))
  {
    hide IsReplay;
    PushKeeps(ledger, CommandReconciled(claim, ledger.requests[claim].doc.sequence, resolved), Noted(ledger, claim, resolved));
  }

  lemma SettleKeepsReplay(ledger: Ledger, command: Command, claim: Id, resolution: Resolution)
    requires IsReplay(ledger) && IsOpen(ledger, claim) && !resolution.ReconcileFails?
    ensures IsReplay(Resolve(ledger, command, claim, resolution))
  {
    hide Replayed, CompletedBy, Noted, DropTokens;
    var decided := WithDomain(ledger, resolution.events);
    DomainKeepsReplay(ledger, resolution.events);
    NoteKeepsReplay(decided, claim, resolution.Resolved?);
    var noted := Noted(decided, claim, resolution.Resolved?);
    var doc := ledger.requests[claim].doc;
    if resolution.Resolved? {
      CompletionKeepsReplay(noted, claim, doc.digest, doc.scope, resolution.outcome);
    }
    var settled := if resolution.Resolved? then Settled(noted, claim, doc, resolution.outcome) else noted;
    CompletionKeepsReplay(settled, command.id, command.digest, [], RECONCILED);
  }

  lemma StepKeepsReplay(ledger: Ledger, step: Step)
    requires IsReplay(ledger)
    ensures IsReplay(After(ledger, step))
  {
    hide Replayed, CompletedBy, ClaimedBy, WithDomain, Resolve, TurnOf, StateOf, Bare;
    match step
    case DoTransact(command, decision) =>
      if decision.Decided? {
        DomainKeepsReplay(ledger, decision.events);
        CompletionKeepsReplay(WithDomain(ledger, decision.events), command.id, command.digest, [], decision.outcome);
      }
    case DoClaim(command, claiming) =>
      if !claiming.ClaimFails? {
        DomainKeepsReplay(ledger, claiming.events);
      }
      match claiming {
        case Take(events, intent, owner) => ClaimKeepsReplay(WithDomain(ledger, events), command, intent, owner);
        case Refuse(events, outcome) => CompletionKeepsReplay(WithDomain(ledger, events), command.id, command.digest, [], outcome);
        case ClaimFails =>
      }
    case DoRenew(id, owner, at) => OnlyTheRowsMatter(ledger, After(ledger, step));
    case DoComplete(command, owner, decision) =>
      if decision.Decided? {
        DomainKeepsReplay(ledger, decision.events);
        var completed := CompletedBy(WithDomain(ledger, decision.events), command.id, command.digest, command.scope, decision.outcome);
        CompletionKeepsReplay(WithDomain(ledger, decision.events), command.id, command.digest, command.scope, decision.outcome);
        OnlyTheRowsMatter(completed, completed.(leases := ledger.leases - {command.id}));
      }
    case DoReconcile(command, claim, asOwner, resolution) =>
      if IsOpen(ledger, claim) && !resolution.ReconcileFails? {
        SettleKeepsReplay(ledger, command, claim, resolution);
      }
    case LoseLeases(_) => OnlyTheRowsMatter(ledger, After(ledger, step));
    case ReleaseAnswer(_, _) => OnlyTheRowsMatter(ledger, After(ledger, step));
  }

  lemma OnlyTheRowsMatter(ledger: Ledger, next: Ledger)
    requires IsReplay(ledger)
    requires next.chain == ledger.chain && next.requests == ledger.requests && next.scopes == ledger.scopes
    ensures IsReplay(next)
  {
  }

  lemma {:induction false} RunKeepsReplay(ledger: Ledger, steps: seq<Step>)
    requires IsReplay(ledger)
    ensures IsReplay(Run(ledger, steps))
    decreases |steps|
  {
    hide IsReplay, After;
    if steps != [] {
      StepKeepsReplay(ledger, steps[0]);
      RunKeepsReplay(After(ledger, steps[0]), steps[1..]);
    }
  }

  /** In every run the request and claim_scope rows are the projection of the
      chain, event by event, and no event of it is refused. */
  lemma RowsAreTheirReplay(steps: seq<Step>)
    ensures var ledger := Run(EMPTY, steps);
            && Replayed(EMPTY, ledger.chain).Ok?
            && Replayed(EMPTY, ledger.chain).value.requests == ledger.requests
            && Replayed(EMPTY, ledger.chain).value.scopes == ledger.scopes
  {
    RunKeepsReplay(EMPTY, steps);
  }
}
