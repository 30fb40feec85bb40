/** The claim operations as the store runs them: tables updated in place by
    loops over tokens and events (crates/baley-store-sqlite/src/transact.rs and
    claim.rs). */
module ClaimStore {
  import opened Wrappers
  import C = Claims

  class LedgerStore {
    var chain: seq<C.Event>
    var requests: map<C.Id, C.Request>
    var scopes: map<string, C.Holder>
    var leases: map<C.Id, C.Lease>
    var gone: set<(nat, string)>

    function Value(): C.Ledger
      reads this
    {
      C.Ledger(chain, requests, scopes, leases, gone)
    }

    constructor ()
      ensures Value() == C.Ledger([], map[], map[], map[], {})
    {
      chain, requests, scopes, leases, gone := [], map[], map[], map[], {};
    }

    // ----- the scope check -----

    /** `check_scope`: the holders of the command's tokens are gathered, then
        the earliest of them blocks. */
    method CheckScope(scope: seq<string>, excluded: Option<C.Id>, now: int) returns (block: Option<C.Refusal>)
      ensures block == C.ScopeBlock(Value(), scope, excluded, now)
    {
      var holders: seq<C.ClaimDoc> := [];
      assert scope[..0] == [];
      for at := 0 to |scope|
        invariant C.LowestHolder(Value(), scope[..at], excluded) == Ok(Lowest(holders))
      {
        assert scope[..at + 1][..at] == scope[..at];
        var found := C.HolderOf(Value(), scope[at], excluded);
        if found.Err? {
          LowestFails(Value(), scope, excluded, at + 1);
          return Some(found.error);
        }
        if found.value.Some? {
          LowestAppends(holders, found.value.value);
          holders := holders + [found.value.value];
        }
      }
      assert scope[..|scope|] == scope;
      var earliest := Blocking(holders);
      if earliest.None? {
        return None;
      }
      var doc := earliest.value;
      if doc.id !in requests || !C.Open(requests[doc.id]) {
        return Some(C.Corrupt);
      }
      block := Some(C.Blocked(doc.id, C.StateOf(Value(), requests[doc.id], now)));
    }

    /** `blocking`: the lowest-sequence holder, the first of equals. */
    method Blocking(holders: seq<C.ClaimDoc>) returns (earliest: Option<C.ClaimDoc>)
      ensures earliest == Lowest(holders)
    {
      earliest := None;
      assert holders[..0] == [];
      for at := 0 to |holders|
        invariant earliest == Lowest(holders[..at])
      {
        assert holders[..at + 1] == holders[..at] + [holders[at]];
        LowestAppends(holders[..at], holders[at]);
        if earliest.None? || holders[at].sequence < earliest.value.sequence {
          earliest := Some(holders[at]);
        }
      }
      assert holders[..|holders|] == holders;
    }

    /** `command_turn` up to the decision. */
    method Turn(command: C.Command, entry: C.Entry) returns (turn: C.Turn)
      ensures turn == C.TurnOf(Value(), command, entry)
    {
      if command.id in requests {
        var request := requests[command.id];
        if C.Digest(request) != command.digest {
          return C.Refused(C.DigestMismatch);
        }
        if request.Completed? {
          return C.Answered(C.Replayable(Value(), request));
        }
        if entry.Completing? {
          if request.AwaitingOwner? {
            return C.Refused(C.AwaitsOwner(command.id));
          }
          if request.doc.owner != entry.owner {
            return C.Refused(C.NotClaimOwner(command.id));
          }
          if request.doc.scope != command.scope {
            return C.Refused(C.ScopeMismatch(command.id));
          }
        } else if entry.Claiming? {
          return C.Running(request);
        } else {
          return C.Refused(C.Blocked(command.id, C.StateOf(Value(), request, command.recordedAt)));
        }
      } else if entry.Completing? {
        return C.Refused(C.UnknownClaim(command.id));
      }
      var block := CheckScope(command.scope, C.Excluded(entry, command), command.recordedAt);
      turn := if block.Some? then C.Refused(block.value) else C.Proceed;
    }

    // ----- events -----

    /** The claim_scope projector's puts. */
    method PutTokens(tokens: seq<string>, holder: C.Holder)
      modifies this`scopes
      ensures scopes == C.PutTokens(old(scopes), tokens, holder)
    {
      for at := 0 to |tokens|
        invariant scopes == C.PutTokens(old(scopes), tokens[..at], holder)
      {
        assert tokens[..at + 1] == tokens[..at] + [tokens[at]];
        PutOneMore(old(scopes), tokens[..at], tokens[at], holder);
        scopes := scopes[tokens[at] := holder];
      }
      assert tokens[..|tokens|] == tokens;
    }

    /** Its deletes: a token is dropped only if the completed request holds it. */
    method DropTokens(tokens: seq<string>, id: C.Id)
      modifies this`scopes
      ensures scopes == C.DropTokens(old(scopes), tokens, id)
    {
      for at := 0 to |tokens|
        invariant scopes == C.DropTokens(old(scopes), tokens[..at], id)
      {
        assert tokens[..at + 1] == tokens[..at] + [tokens[at]];
        DropOneMore(old(scopes), tokens[..at], tokens[at], id);
        if tokens[at] in scopes && scopes[tokens[at]].id == id {
          scopes := scopes - {tokens[at]};
        }
      }
      assert tokens[..|tokens|] == tokens;
    }

    /** `push`: the event at the next sequence, through both projectors. */
    method Push(event: C.Event) returns (refused: Option<C.Refusal>)
      modifies this`chain, this`requests, this`scopes
      ensures match C.Pushed(old(Value()), event)
              case Err(refusal) => refused == Some(refusal) && Value() == old(Value())
              case Ok(ledger) => refused == None && Value() == ledger
    {
      var sequence := |chain| + 1;
      var projected := C.ProjectRequest(requests, event, sequence);
      if projected.None? {
        return Some(C.DecisionFailed);
      }
      requests := projected.value;
      match event {
        case CommandClaimed(id, digest, scope, owner, intent, recordedAt) => PutTokens(scope, C.Holder(id, sequence));
        case CommandCompleted(id, digest, scope, outcome) => DropTokens(scope, id);
        case _ =>
      }
      chain := chain + [event];
      refused := None;
    }

    /** The decision's own events. */
    method AppendDomain(events: seq<C.Payload>)
      modifies this`chain, this`requests, this`scopes
      ensures Value() == C.WithDomain(old(Value()), events)
    {
      for at := 0 to |events|
        invariant Value() == C.WithDomain(old(Value()), events[..at])
      {
        assert events[..at + 1] == events[..at] + [events[at]];
        DomainOneMore(old(Value()), events[..at], events[at]);
        var refused := Push(C.Domain(events[at]));
      }
      assert events[..|events|] == events;
    }

    // ----- operations -----

    method Transact(command: C.Command, decision: C.Decision) returns (reply: C.Reply)
      modifies this
      ensures (Value(), reply) == C.Transact(old(Value()), command, decision)
    {
      var turn := Turn(command, C.Ordinary);
      if !turn.Proceed? {
        return C.TurnReply(turn);
      }
      if decision.Fails? {
        return C.Error(C.DecisionFailed);
      }
      AppendDomain(decision.events);
      var refused := Push(C.CommandCompleted(command.id, command.digest, [], decision.outcome));
      reply := C.Recorded(decision.outcome);
    }

    method Claim(command: C.Command, decision: C.ClaimDecision) returns (reply: C.Reply)
      modifies this
      ensures (Value(), reply) == C.TakeClaim(old(Value()), command, decision)
    {
      var turn := Turn(command, C.Claiming);
      if !turn.Proceed? {
        return C.TurnReply(turn);
      }
      match decision
      case ClaimFails => reply := C.Error(C.DecisionFailed);
      case Refuse(events, outcome) =>
        AppendDomain(events);
        var refused := Push(C.CommandCompleted(command.id, command.digest, [], outcome));
        reply := C.Recorded(outcome);
      case Take(events, intent, owner) =>
        AppendDomain(events);
        var sequence := |chain| + 1;
        var refused := Push(C.CommandClaimed(command.id, command.digest, command.scope, owner, intent, command.recordedAt));
        leases := leases[command.id := C.Lease(sequence, command.recordedAt)];
        reply := C.ClaimTaken(sequence);
    }

    method Renew(id: C.Id, owner: C.Owner, at: int) returns (refused: Option<C.Refusal>)
      modifies this`leases
      ensures (Value(), refused) == C.Renew(old(Value()), id, owner, at)
    {
      if id !in requests {
        return Some(C.UnknownClaim(id));
      }
      match requests[id]
      case Claimed(doc) =>
        if doc.id != id {
          return Some(C.Corrupt);
        }
        if doc.owner != owner {
          return Some(C.NotClaimOwner(id));
        }
        var floor := if id in leases && leases[id].sequence == doc.sequence then leases[id].renewedAt else doc.claimedAt;
        if at < floor {
          return Some(C.LeaseTime(id));
        }
        leases := leases[id := C.Lease(doc.sequence, at)];
        refused := None;
      case _ => refused := Some(C.StaleClaim(id));
    }

    method Complete(command: C.Command, owner: C.Owner, decision: C.Decision) returns (reply: C.Reply)
      modifies this
      ensures (Value(), reply) == C.Complete(old(Value()), command, owner, decision)
    {
      var turn := Turn(command, C.Completing(owner));
      if !turn.Proceed? {
        return C.TurnReply(turn);
      }
      if decision.Fails? {
        return C.Error(C.DecisionFailed);
      }
      AppendDomain(decision.events);
      var refused := Push(C.CommandCompleted(command.id, command.digest, command.scope, decision.outcome));
      leases := leases - {command.id};
      reply := C.Recorded(decision.outcome);
    }

    method Reconcile(command: C.Command, claim: C.Id, asOwner: bool, resolution: C.Resolution) returns (reply: C.Reply)
      modifies this
      ensures (Value(), reply) == C.Reconcile(old(Value()), command, claim, asOwner, resolution)
    {
      hide C.TurnOf, C.StateOf, C.DropTokens, C.Resolve;
      if asOwner && !command.byOwner {
        return C.Error(C.NotOwner);
      }
      if command.hasCaller {
        return C.Error(C.CallerGiven);
      }
      var turn := Turn(command, C.Reconciling(claim));
      if !turn.Proceed? {
        return C.TurnReply(turn);
      }
      if claim !in requests {
        return C.Error(C.UnknownClaim(claim));
      }
      if requests[claim].Completed? {
        return C.Error(C.StaleClaim(claim));
      }
      if requests[claim].doc.id != claim {
        return C.Error(C.Corrupt);
      }
      var state := C.StateOf(Value(), requests[claim], command.recordedAt);
      if state.Active? {
        return C.Error(C.StillActive(claim));
      }
      if requests[claim].AwaitingOwner? && !asOwner {
        return C.Error(C.AwaitsOwner(claim));
      }
      if resolution.ReconcileFails? {
        return C.Error(C.DecisionFailed);
      }
      Resolve(command, claim, resolution);
      reply := C.Recorded(C.RECONCILED);
    }

    /** The events of a reconciliation that goes through. */
    method Resolve(command: C.Command, claim: C.Id, resolution: C.Resolution)
      requires claim in requests && C.Open(requests[claim]) && !resolution.ReconcileFails?
      modifies this
      ensures Value() == C.Resolve(old(Value()), command, claim, resolution)
    {
      hide C.DropTokens;
      var doc := requests[claim].doc;
      AppendDomain(resolution.events);
      var refused := Push(C.CommandReconciled(claim, doc.sequence, resolution.Resolved?));
      if resolution.Resolved? {
        refused := Push(C.CommandCompleted(claim, doc.digest, doc.scope, resolution.outcome));
        leases := leases - {claim};
      }
      refused := Push(C.CommandCompleted(command.id, command.digest, [], C.RECONCILED));
    }
  }

  // ----- what the loops compute -----

  function Lowest(holders: seq<C.ClaimDoc>): Option<C.ClaimDoc> {
    if holders == [] then None
    else C.Earlier(Lowest(holders[..|holders| - 1]), Some(holders[|holders| - 1]))
  }

  lemma LowestAppends(holders: seq<C.ClaimDoc>, doc: C.ClaimDoc)
    ensures Lowest(holders + [doc]) == C.Earlier(Lowest(holders), Some(doc))
  {
    assert (holders + [doc])[..|holders|] == holders;
  }

  lemma {:induction false} LowestFails(ledger: C.Ledger, scope: seq<string>, excluded: Option<C.Id>, count: nat)
    requires count <= |scope| && C.LowestHolder(ledger, scope[..count], excluded).Err?
    ensures C.LowestHolder(ledger, scope, excluded) == C.LowestHolder(ledger, scope[..count], excluded)
    decreases |scope|
  {
    if count == |scope| {
      assert scope[..count] == scope;
    } else {
      var shorter := scope[..|scope| - 1];
      assert shorter[..count] == scope[..count];
      LowestFails(ledger, shorter, excluded, count);
    }
  }

  lemma PutOneMore(scopes: map<string, C.Holder>, tokens: seq<string>, token: string, holder: C.Holder)
    ensures C.PutTokens(scopes, tokens + [token], holder) == C.PutTokens(scopes, tokens, holder)[token := holder]
  {
  }

  lemma DropOneMore(scopes: map<string, C.Holder>, tokens: seq<string>, token: string, id: C.Id)
    ensures C.DropTokens(scopes, tokens + [token], id)
            == var dropped := C.DropTokens(scopes, tokens, id);
               if token in dropped && dropped[token].id == id then dropped - {token} else dropped
  {
  }

  lemma DomainOneMore(ledger: C.Ledger, events: seq<C.Payload>, event: C.Payload)
    ensures C.WithDomain(ledger, events + [event])
            == var before := C.WithDomain(ledger, events);
               before.(chain := before.chain + [C.Domain(event)])
  {
  }
}
