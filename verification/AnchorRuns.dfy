/** What every run of anchor claims, pushes that land early, late or never,
    record steps, reconciliations from an observation that may be stale,
    crashes and other commands keeps (crates/baley-core/src/anchor.rs). */
module AnchorRuns {
  import opened Wrappers
  import C = Claims
  import Decimal
  import A = ClaimAnswers
  import R = ClaimRuns
  import opened Anchors

  datatype Step =
    | Claim(request: Request, at: int)
    | StartPush(act: Act)
    | Land(push: Push)
    | ForeignTag(remote: string, tag: string, annotation: Annotation)
    | RecordPushed(act: Act, observedAt: int, at: int)
    | RecordFailed(act: Act, reason: string, observedAt: int, at: int)
    | Reconcile(command: C.Command, claim: C.Id, claimSeq: nat, target: Target, observation: Observation)
    | Other(step: R.Step)

  /** A claim read from the ledger at some time, with the anchor it intends. */
  predicate WasClaimed(chain: seq<C.Event>, claim: C.Id, claimSeq: nat, target: Target) {
    && claim.kind == ANCHOR_PUSH && 0 < claimSeq <= |chain|
    && chain[claimSeq - 1].CommandClaimed? && chain[claimSeq - 1].id == claim
    && chain[claimSeq - 1].intent == C.Anchoring(target.sequence, target.head, target.remote)
  }

  /** A tag reported present is there as reported, since tags never change. A
      reported absence may be old. */
  predicate Honest(world: World, target: Target, observation: Observation) {
    observation.Present? ==>
      (target.remote, observation.tag) in world.remotes && world.remotes[(target.remote, observation.tag)] == observation.annotation
  }

  predicate OtherEvents(events: seq<C.Payload>) {
    forall event :: event in events ==> event.OtherPayload?
  }

  /** Commands that are not anchor commands: they claim no anchor push and
      record no anchor event. */
  predicate IsOther(step: R.Step) {
    match step
    case DoTransact(command, decision) => decision.Decided? ==> OtherEvents(decision.events)
    case DoClaim(command, claiming) =>
      command.id.kind != ANCHOR_PUSH && (!claiming.ClaimFails? ==> OtherEvents(claiming.events))
    case DoComplete(command, owner, decision) => decision.Decided? ==> OtherEvents(decision.events)
    case DoReconcile(command, claim, asOwner, resolution) => !resolution.ReconcileFails? ==> OtherEvents(resolution.events)
    case _ => true
  }

  function After(project: string, world: World, step: Step): World {
    match step
    case Claim(request, at) => Claimed(world, request, at)
    case StartPush(act) => if act in world.acts then world.(inFlight := world.inFlight + {PushOf(project, act.target)}) else world
    case Land(push) => if push in world.inFlight then Landed(world, push) else world
    case ForeignTag(remote, tag, annotation) =>
      if (remote, tag) in world.remotes then world else world.(remotes := world.remotes[(remote, tag) := annotation])
    case RecordPushed(act, observedAt, at) =>
      if act in world.acts && Holds(world, PushOf(project, act.target))
      then Recorded(project, world, act, PushedPlan(project, act.target, observedAt), at).0 else world
    case RecordFailed(act, reason, observedAt, at) =>
      if act in world.acts then Recorded(project, world, act, FailedPlan(project, act.target, reason, observedAt), at).0 else world
    case Reconcile(command, claim, claimSeq, target, observation) =>
      if command.id.kind == ANCHOR_RECONCILE && WasClaimed(world.ledger.chain, claim, claimSeq, target)
         && Honest(world, target, observation)
      then Reconciled(project, world, command, claim, claimSeq, target, observation).0 else world
    case Other(step) => if IsOther(step) then world.(ledger := R.After(world.ledger, step)) else world
  }

  function Run(project: string, world: World, steps: seq<Step>): World
    decreases |steps|
  {
    if steps == [] then world else Run(project, After(project, world, steps[0]), steps[1..])
  }

  const EMPTY := World(R.EMPTY, map[], map[], {}, {})

  // ----- the invariant -----

  /** Every anchor claim intends the head right before it. */
  ghost predicate ClaimsIntendTheHead(chain: seq<C.Event>) {
    forall at :: 0 <= at < |chain| && chain[at].CommandClaimed? && chain[at].id.kind == ANCHOR_PUSH ==>
      chain[at].intent.Anchoring? && chain[at].intent.sequence == at && chain[at].intent.head == HashAt(chain, at)
  }

  ghost predicate ActsWereClaimed(world: World) {
    forall act :: act in world.acts ==> WasClaimed(world.ledger.chain, C.Id(ANCHOR_PUSH, act.request.id), act.claimSeq, act.target)
  }

  ghost predicate HeldSomewhere(remotes: map<(string, string), Annotation>, sequence: nat, stored: StoredAnchor) {
    exists remote :: (remote, stored.tag) in remotes && remotes[(remote, stored.tag)] == Names(Anchor(sequence, stored.hash))
  }

  predicate Done(ledger: C.Ledger, id: C.Id) {
    id in ledger.requests && ledger.requests[id].Completed?
  }

  /** An anchor row names the hash the chain has there, its tag is on a remote,
      and the claim that follows it is completed. */
  ghost predicate RowFits(project: string, ledger: C.Ledger, remotes: map<(string, string), Annotation>, sequence: nat, stored: StoredAnchor) {
    && sequence < |ledger.chain|
    && stored.hash == HashAt(ledger.chain, sequence)
    && stored.tag == AnchorTag(project, sequence)
    && HeldSomewhere(remotes, sequence, stored)
    && ledger.chain[sequence].CommandClaimed? && ledger.chain[sequence].id.kind == ANCHOR_PUSH
    && Done(ledger, ledger.chain[sequence].id)
  }

  ghost predicate RowsFit(project: string, world: World) {
    forall sequence :: sequence in world.anchors ==>
      RowFits(project, world.ledger, world.remotes, sequence, world.anchors[sequence])
  }

  /** Each `anchor.pushed` event has its row. */
  ghost predicate PushesHaveRows(world: World) {
    forall at :: 0 <= at < |world.ledger.chain| && world.ledger.chain[at].Domain? && world.ledger.chain[at].payload.AnchorPushed? ==>
      var event := world.ledger.chain[at].payload;
      event.sequence in world.anchors && world.anchors[event.sequence] == StoredAnchor(event.head, event.tag, event.observedAt)
  }

  ghost predicate Inv(project: string, world: World) {
    && R.Inv(world.ledger) && ClaimsIntendTheHead(world.ledger.chain) && ActsWereClaimed(world)
    && RowsFit(project, world) && PushesHaveRows(world)
  }

  // ----- a ledger that grows -----

  /** The chain grew, completions stayed, and nothing new claims an anchor. */
  ghost predicate Grew(ledger: C.Ledger, next: C.Ledger) {
    && ledger.chain <= next.chain
    && (forall id :: Done(ledger, id) ==> Done(next, id))
    && (forall at :: |ledger.chain| <= at < |next.chain| ==>
          !(next.chain[at].CommandClaimed? && next.chain[at].id.kind == ANCHOR_PUSH))
  }

  ghost predicate NoPushes(ledger: C.Ledger, next: C.Ledger) {
    forall at :: |ledger.chain| <= at < |next.chain| ==> !(next.chain[at].Domain? && next.chain[at].payload.AnchorPushed?)
  }

  lemma SamePrefix(chain: seq<C.Event>, next: seq<C.Event>, sequence: nat)
    requires chain <= next && sequence <= |chain|
    ensures HashAt(next, sequence) == HashAt(chain, sequence)
  {
    assert next[..sequence] == chain[..sequence];
  }

  lemma GrowthKeepsIntents(ledger: C.Ledger, next: C.Ledger)
    requires ClaimsIntendTheHead(ledger.chain) && Grew(ledger, next)
    ensures ClaimsIntendTheHead(next.chain)
  {
    forall at | 0 <= at < |next.chain| && next.chain[at].CommandClaimed? && next.chain[at].id.kind == ANCHOR_PUSH
      ensures next.chain[at].intent.Anchoring? && next.chain[at].intent.sequence == at && next.chain[at].intent.head == HashAt(next.chain, at)
    {
      assert at < |ledger.chain| && next.chain[at] == ledger.chain[at];
      SamePrefix(ledger.chain, next.chain, at);
    }
  }

  lemma GrowthKeepsActs(world: World, next: C.Ledger)
    requires ActsWereClaimed(world) && world.ledger.chain <= next.chain
    ensures ActsWereClaimed(world.(ledger := next))
  {
  }

  lemma GrowthKeepsRow(project: string, ledger: C.Ledger, next: C.Ledger, remotes: map<(string, string), Annotation>, sequence: nat,
                       stored: StoredAnchor)
    requires RowFits(project, ledger, remotes, sequence, stored)
    requires ledger.chain <= next.chain && forall id :: Done(ledger, id) ==> Done(next, id)
    ensures RowFits(project, next, remotes, sequence, stored)
  {
    SamePrefix(ledger.chain, next.chain, sequence);
  }

  lemma GrowthKeepsRows(project: string, world: World, next: C.Ledger)
    requires RowsFit(project, world)
    requires world.ledger.chain <= next.chain && forall id :: Done(world.ledger, id) ==> Done(next, id)
    ensures RowsFit(project, world.(ledger := next))
  {
    forall sequence | sequence in world.anchors ensures RowFits(project, next, world.remotes, sequence, world.anchors[sequence]) {
      GrowthKeepsRow(project, world.ledger, next, world.remotes, sequence, world.anchors[sequence]);
    }
  }

  lemma GrowthKeepsPushes(world: World, next: C.Ledger)
    requires PushesHaveRows(world) && world.ledger.chain <= next.chain && NoPushes(world.ledger, next)
    ensures PushesHaveRows(world.(ledger := next))
  {
    forall at | 0 <= at < |next.chain| && next.chain[at].Domain? && next.chain[at].payload.AnchorPushed?
      ensures at < |world.ledger.chain| && next.chain[at] == world.ledger.chain[at]
    {
    }
  }

  lemma GrowthKeeps(project: string, world: World, next: C.Ledger)
    requires Inv(project, world) && R.Inv(next) && Grew(world.ledger, next) && NoPushes(world.ledger, next)
    ensures Inv(project, world.(ledger := next))
  {
    hide R.Inv, ClaimsIntendTheHead, ActsWereClaimed, RowsFit, PushesHaveRows, NoPushes;
    GrowthKeepsIntents(world.ledger, next);
    GrowthKeepsActs(world, next);
    GrowthKeepsRows(project, world, next);
    GrowthKeepsPushes(world, next);
  }

  // ----- other commands -----

  /** What a step of the ledger appends, and that completions stay. */
  lemma OtherStepsGrow(ledger: C.Ledger, step: R.Step)
    requires IsOther(step)
    ensures Grew(ledger, R.After(ledger, step)) && NoPushes(ledger, R.After(ledger, step))
  {
    var next := R.After(ledger, step);
    forall id | Done(ledger, id) ensures Done(next, id) {
      R.StepKeepsCompletions(ledger, step, id);
    }
    hide C.Transact, C.TakeClaim, C.Complete, C.Reconcile, Done;
    match step
    case DoTransact(command, decision) => TransactAppends(ledger, command, decision);
    case DoClaim(command, claiming) => TakeAppends(ledger, command, claiming);
    case DoComplete(command, owner, decision) => CompletionAppends(ledger, command, owner, decision);
    case DoReconcile(command, claim, asOwner, resolution) => ReconciliationAppends(ledger, command, claim, asOwner, resolution);
    case DoRenew(id, owner, at) =>
    case _ =>
  }

  /** New events: other commands' own, and no anchor claim. */
  ghost predicate OthersAppended(ledger: C.Ledger, next: C.Ledger) {
    && ledger.chain <= next.chain
    && forall at :: |ledger.chain| <= at < |next.chain| ==>
         && !(next.chain[at].CommandClaimed? && next.chain[at].id.kind == ANCHOR_PUSH)
         && !(next.chain[at].Domain? && next.chain[at].payload.AnchorPushed?)
  }

  lemma TransactAppends(ledger: C.Ledger, command: C.Command, decision: C.Decision)
    requires decision.Decided? ==> OtherEvents(decision.events)
    ensures OthersAppended(ledger, C.Transact(ledger, command, decision).0)
  {
    hide C.TurnOf, C.DropTokens;
    if decision.Decided? {
      DomainAppends(ledger, decision.events);
    }
  }

  lemma TakeAppends(ledger: C.Ledger, command: C.Command, claiming: C.ClaimDecision)
    requires command.id.kind != ANCHOR_PUSH && (!claiming.ClaimFails? ==> OtherEvents(claiming.events))
    ensures OthersAppended(ledger, C.TakeClaim(ledger, command, claiming).0)
  {
    hide C.TurnOf, C.DropTokens, C.PutTokens;
    if !claiming.ClaimFails? {
      DomainAppends(ledger, claiming.events);
    }
  }

  lemma CompletionAppends(ledger: C.Ledger, command: C.Command, owner: C.Owner, decision: C.Decision)
    requires decision.Decided? ==> OtherEvents(decision.events)
    ensures OthersAppended(ledger, C.Complete(ledger, command, owner, decision).0)
  {
    hide C.TurnOf, C.DropTokens;
    if decision.Decided? {
      DomainAppends(ledger, decision.events);
    }
  }

  lemma ReconciliationAppends(ledger: C.Ledger, command: C.Command, claim: C.Id, asOwner: bool, resolution: C.Resolution)
    requires !resolution.ReconcileFails? ==> OtherEvents(resolution.events)
    ensures OthersAppended(ledger, C.Reconcile(ledger, command, claim, asOwner, resolution).0)
  {
    hide C.TurnOf, C.DropTokens, C.StateOf;
    if !resolution.ReconcileFails? {
      DomainAppends(ledger, resolution.events);
    }
  }

  lemma DomainAppends(ledger: C.Ledger, events: seq<C.Payload>)
    ensures ledger.chain <= C.WithDomain(ledger, events).chain
    ensures forall at :: |ledger.chain| <= at < |C.WithDomain(ledger, events).chain| ==>
              C.WithDomain(ledger, events).chain[at].Domain? && C.WithDomain(ledger, events).chain[at].payload in events
  {
  }

  lemma OtherKeeps(project: string, world: World, step: R.Step)
    requires Inv(project, world) && IsOther(step)
    ensures Inv(project, world.(ledger := R.After(world.ledger, step)))
  {
    hide Inv, IsOther, Grew, NoPushes;
    InvIsLedger(project, world);
    R.StepKeeps(world.ledger, step);
    OtherStepsGrow(world.ledger, step);
    GrowthKeeps(project, world, R.After(world.ledger, step));
  }

  lemma InvIsLedger(project: string, world: World)
    requires Inv(project, world)
    ensures R.Inv(world.ledger)
  {
  }

  // ----- claiming -----

  lemma NoEvents(ledger: C.Ledger)
    ensures C.WithDomain(ledger, []) == ledger
  {
    assert ledger.chain + [] == ledger.chain;
  }

  /** A new claim intends the head it was taken at. */
  lemma TakenKeeps(project: string, world: World, request: Request, at: int)
    requires Inv(project, world) && request.remote.Some? && world.ledger.chain != []
    requires C.TurnOf(world.ledger, PushCommand(request, at), C.Claiming).Proceed?
    ensures Inv(project, Claimed(world, request, at))
  {
    hide R.Inv, C.TurnOf, C.ClaimedBy, C.TakeClaim, Claimed, RowsFit, PushesHaveRows, ClaimsIntendTheHead, ActsWereClaimed, C.DropTokens;
    var chain := world.ledger.chain;
    var command := PushCommand(request, at);
    var intent := C.Anchoring(|chain|, HashAt(chain, |chain|), request.remote.value);
    TakenUnfolds(world, request, at);
    var next := C.ClaimedBy(world.ledger, command, intent, request.owner);
    R.TakeKeeps(world.ledger, command, ClaimDecisionOf(chain, request));
    TakenGrows(world.ledger, command, intent, request.owner);
    GrowthKeepsRows(project, world, next);
    GrowthKeepsPushes(world, next);
    GrowthKeepsActs(world, next);
    TakenIntendsTheHead(chain, next.chain, next.chain[|chain|]);
    OneRowsWorld(project, world, next, Claimed(world, request, at));
    OneActMore(world, next, Claimed(world, request, at), Act(request, |chain| + 1, Target(|chain|, HashAt(chain, |chain|), request.remote.value)));
  }

  lemma OneActMore(world: World, next: C.Ledger, after: World, act: Act)
    requires ActsWereClaimed(world.(ledger := next)) && after.ledger == next && after.acts == world.acts + {act}
    requires WasClaimed(next.chain, C.Id(ANCHOR_PUSH, act.request.id), act.claimSeq, act.target)
    ensures ActsWereClaimed(after)
  {
  }

  lemma OneRowsWorld(project: string, world: World, next: C.Ledger, after: World)
    requires RowsFit(project, world.(ledger := next)) && PushesHaveRows(world.(ledger := next))
    requires after.ledger == next && after.anchors == world.anchors && after.remotes == world.remotes
    ensures RowsFit(project, after) && PushesHaveRows(after)
  {
    hide RowFits;
  }

  lemma TakenUnfolds(world: World, request: Request, at: int)
    requires request.remote.Some? && world.ledger.chain != []
    requires C.TurnOf(world.ledger, PushCommand(request, at), C.Claiming).Proceed?
    ensures var chain := world.ledger.chain;
            var target := Target(|chain|, HashAt(chain, |chain|), request.remote.value);
            var next := C.ClaimedBy(world.ledger, PushCommand(request, at),
                                    C.Anchoring(target.sequence, target.head, target.remote), request.owner);
            && Claimed(world, request, at)
               == World(next, world.anchors, world.remotes, world.inFlight, world.acts + {Act(request, |chain| + 1, target)})
            && C.TakeClaim(world.ledger, PushCommand(request, at), ClaimDecisionOf(chain, request)).0 == next
  {
    hide C.TurnOf, C.ClaimedBy, C.WithDomain;
    NoEvents(world.ledger);
  }

  lemma TakenGrows(ledger: C.Ledger, command: C.Command, intent: C.Intent, owner: C.Owner)
    requires C.TurnOf(ledger, command, C.Claiming).Proceed?
    ensures var next := C.ClaimedBy(ledger, command, intent, owner);
            && next.chain == ledger.chain + [C.CommandClaimed(command.id, command.digest, command.scope, owner, intent, command.recordedAt)]
            && (forall id :: Done(ledger, id) ==> Done(next, id))
            && NoPushes(ledger, next)
  {
    hide C.PutTokens, C.ScopeBlock, C.StateOf;
  }

  lemma TakenIntendsTheHead(chain: seq<C.Event>, next: seq<C.Event>, event: C.Event)
    requires ClaimsIntendTheHead(chain) && next == chain + [event]
    requires event.CommandClaimed? && event.intent.Anchoring? && event.intent.sequence == |chain|
    requires event.intent.head == HashAt(chain, |chain|)
    ensures ClaimsIntendTheHead(next)
  {
    forall at | 0 <= at < |next| && next[at].CommandClaimed? && next[at].id.kind == ANCHOR_PUSH
      ensures next[at].intent.Anchoring? && next[at].intent.sequence == at && next[at].intent.head == HashAt(next, at)
    {
      SamePrefix(chain, next, at);
    }
  }

  lemma ClaimKeeps(project: string, world: World, request: Request, at: int)
    requires Inv(project, world)
    ensures Inv(project, Claimed(world, request, at))
  {
    var command := PushCommand(request, at);
    if C.TurnOf(world.ledger, command, C.Claiming).Proceed? {
      if request.remote.Some? && world.ledger.chain != [] {
        TakenKeeps(project, world, request, at);
      } else {
        RefusedClaimKeeps(project, world, request, at);
      }
    }
  }

  lemma RefusedClaimKeeps(project: string, world: World, request: Request, at: int)
    requires Inv(project, world) && (request.remote.None? || world.ledger.chain == [])
    requires C.TurnOf(world.ledger, PushCommand(request, at), C.Claiming).Proceed?
    ensures Inv(project, Claimed(world, request, at))
  {
    var command := PushCommand(request, at);
    var decision := ClaimDecisionOf(world.ledger.chain, request);
    R.TakeKeeps(world.ledger, command, decision);
    NoEvents(world.ledger);
    var next := C.CompletedBy(world.ledger, command.id, command.digest, [], decision.outcome);
    assert Claimed(world, request, at) == world.(ledger := next);
    hide R.Inv, C.TurnOf, C.DropTokens, Inv;
    assert Grew(world.ledger, next) && NoPushes(world.ledger, next);
    GrowthKeeps(project, world, next);
  }

  /** A claim step that is taken records one claim of the head just before it,
      under the anchor scope, and its owner then acts on that head; without a
      remote, or before the first event, it is completed instead; any other
      answer changes nothing. */
  lemma ClaimStepsIntendTheHead(world: World, request: Request, at: int)
    ensures var next := Claimed(world, request, at);
            var reply := C.TakeClaim(world.ledger, PushCommand(request, at), ClaimDecisionOf(world.ledger.chain, request)).1;
            var chain, id := world.ledger.chain, C.Id(ANCHOR_PUSH, request.id);
            && next.anchors == world.anchors && next.remotes == world.remotes && next.inFlight == world.inFlight
            && (reply.ClaimTaken? ==>
                  && request.remote.Some? && chain != []
                  && next.acts == world.acts + {Act(request, |chain| + 1, Target(|chain|, HashAt(chain, |chain|), request.remote.value))}
                  && next.ledger.chain
                     == chain + [C.CommandClaimed(id, request.digest, ["anchor"], request.owner,
                                                  C.Anchoring(|chain|, HashAt(chain, |chain|), request.remote.value), at)])
            && (reply.Recorded? ==>
                  && (request.remote.None? || chain == []) && next.acts == world.acts
                  && reply.outcome == C.Outcome(false, C.Inline(if request.remote.None? then "no-remote" else "empty-chain"))
                  && next.ledger.chain == chain + [C.CommandCompleted(id, request.digest, [], reply.outcome)])
            && (!reply.ClaimTaken? && !reply.Recorded? ==> next == world)
  {
    var claiming := ClaimDecisionOf(world.ledger.chain, request);
    A.TakeClaimRecords(world.ledger, PushCommand(request, at), claiming);
    UntakenChangesNothing(world.ledger, PushCommand(request, at), claiming);
    hide C.TakeClaim, HashAt, A.Takes;
  }

  lemma UntakenChangesNothing(ledger: C.Ledger, command: C.Command, claiming: C.ClaimDecision)
    ensures var (next, reply) := C.TakeClaim(ledger, command, claiming);
            && (!reply.ClaimTaken? && !reply.Recorded? ==> next == ledger)
            && (reply.ClaimTaken? ==> claiming.Take? && reply.sequence == |ledger.chain| + |claiming.events| + 1)
            && (reply.Recorded? ==> claiming.Refuse? && reply.outcome == claiming.outcome)
  {
    hide C.TurnOf, C.ClaimedBy, C.CompletedBy;
  }

  // ----- recording -----

  /** The only domain event appended. */
  ghost predicate OnlyEvent(ledger: C.Ledger, next: C.Ledger, event: C.Payload) {
    forall at :: |ledger.chain| <= at < |next.chain| && next.chain[at].Domain? ==> next.chain[at].payload == event
  }

  /** While a claim is open its sequence has no row: `stage_anchor` never
      refuses the row of a record step. */
  lemma NoRowWhileOpen(project: string, world: World, id: C.Id, claimSeq: nat, target: Target)
    requires Inv(project, world) && WasClaimed(world.ledger.chain, id, claimSeq, target) && R.IsOpen(world.ledger, id)
    ensures target.sequence == claimSeq - 1 && target.head == HashAt(world.ledger.chain, target.sequence)
    ensures target.sequence !in world.anchors
  {
    hide R.Inv, ActsWereClaimed, PushesHaveRows;
    RowsAreDone(project, world);
  }

  lemma RowsAreDone(project: string, world: World)
    requires RowsFit(project, world)
    ensures forall sequence :: sequence in world.anchors ==>
              && sequence < |world.ledger.chain| && world.ledger.chain[sequence].CommandClaimed?
              && Done(world.ledger, world.ledger.chain[sequence].id)
  {
    forall sequence | sequence in world.anchors
      ensures RowFits(project, world.ledger, world.remotes, sequence, world.anchors[sequence])
    {
    }
  }

  lemma StagingNeverRefuses(project: string, world: World, id: C.Id, claimSeq: nat, target: Target, at: int)
    requires Inv(project, world) && WasClaimed(world.ledger.chain, id, claimSeq, target) && R.IsOpen(world.ledger, id)
    ensures Staged(project, world.anchors, PushedPlan(project, target, at))
            == Some(world.anchors[target.sequence := StoredAnchor(target.head, AnchorTag(project, target.sequence), at)])
  {
    NoRowWhileOpen(project, world, id, claimSeq, target);
    hide AnchorTag, Inv;
  }

  /** A confirmed tag recorded: its row fits, and every other row still does. */
  lemma PushedKeeps(project: string, world: World, next: C.Ledger, id: C.Id, claimSeq: nat, target: Target, at: int)
    requires Inv(project, world) && R.Inv(next) && Grew(world.ledger, next)
    requires WasClaimed(world.ledger.chain, id, claimSeq, target) && R.IsOpen(world.ledger, id) && Done(next, id)
    requires OnlyEvent(world.ledger, next, PushedPlan(project, target, at).event)
    requires Holds(world, PushOf(project, target))
    ensures Inv(project, world.(ledger := next,
                                anchors := world.anchors[target.sequence := StoredAnchor(target.head, AnchorTag(project, target.sequence), at)]))
  {
    NoRowWhileOpen(project, world, id, claimSeq, target);
    var stored := StoredAnchor(target.head, AnchorTag(project, target.sequence), at);
    hide AnchorTag, R.Inv, ClaimsIntendTheHead;
    GrowthKeepsIntents(world.ledger, next);
    GrowthKeepsActs(world, next);
    GrowthKeepsRows(project, world, next);
    SamePrefix(world.ledger.chain, next.chain, target.sequence);
    assert HeldSomewhere(world.remotes, target.sequence, stored);
    assert RowFits(project, next, world.remotes, target.sequence, stored);
    OneRowMore(project, world.(ledger := next), target.sequence, stored);
    OnePushMore(world, next, PushedPlan(project, target, at).event, target.sequence, stored);
  }

  lemma OneRowMore(project: string, world: World, sequence: nat, stored: StoredAnchor)
    requires RowsFit(project, world) && RowFits(project, world.ledger, world.remotes, sequence, stored)
    ensures RowsFit(project, world.(anchors := world.anchors[sequence := stored]))
  {
    hide RowFits;
  }

  lemma OnePushMore(world: World, next: C.Ledger, event: C.Payload, sequence: nat, stored: StoredAnchor)
    requires PushesHaveRows(world) && world.ledger.chain <= next.chain && sequence !in world.anchors
    requires OnlyEvent(world.ledger, next, event) && event.AnchorPushed? && event.sequence == sequence
    requires stored == StoredAnchor(event.head, event.tag, event.observedAt)
    ensures PushesHaveRows(world.(ledger := next, anchors := world.anchors[sequence := stored]))
  {
    forall at | 0 <= at < |world.ledger.chain| ensures next.chain[at] == world.ledger.chain[at] {
    }
  }

  /** The ledger after a record step that went through. */
  lemma CompleteAppends(ledger: C.Ledger, command: C.Command, owner: C.Owner, event: C.Payload, outcome: C.Outcome)
    requires C.TurnOf(ledger, command, C.Completing(owner)).Proceed? && R.Inv(ledger)
    ensures var next := C.Complete(ledger, command, owner, C.Decided([event], outcome)).0;
            && R.IsOpen(ledger, command.id) && Done(next, command.id) && R.Inv(next)
            && Grew(ledger, next) && OnlyEvent(ledger, next, event)
            && C.Complete(ledger, command, owner, C.Decided([event], outcome)).1 == C.Recorded(outcome)
  {
    hide R.Inv, C.TurnOf, C.Complete, Grew, OnlyEvent;
    R.CompleteKeeps(ledger, command, owner, C.Decided([event], outcome));
    CompleteUnfolds(ledger, command, owner, event, outcome);
    var next := C.Complete(ledger, command, owner, C.Decided([event], outcome)).0;
    DoneStays(ledger, next, command.id, command.id);
    ClosesAppend(ledger, next, command.id, [C.Domain(event), C.CommandCompleted(command.id, command.digest, command.scope, outcome)], event);
  }

  lemma CompleteUnfolds(ledger: C.Ledger, command: C.Command, owner: C.Owner, event: C.Payload, outcome: C.Outcome)
    requires C.TurnOf(ledger, command, C.Completing(owner)).Proceed?
    ensures var (next, reply) := C.Complete(ledger, command, owner, C.Decided([event], outcome));
            && next.chain == ledger.chain + [C.Domain(event), C.CommandCompleted(command.id, command.digest, command.scope, outcome)]
            && next.requests == ledger.requests[command.id := C.Completed(command.digest, outcome, |ledger.chain| + 2)]
            && reply == C.Recorded(outcome)
            && R.IsOpen(ledger, command.id)
  {
    hide C.ScopeBlock, C.StateOf, C.DropTokens;
    OneDomain(ledger, event);
  }

  lemma OneDomain(ledger: C.Ledger, event: C.Payload)
    ensures C.WithDomain(ledger, [event]) == ledger.(chain := ledger.chain + [C.Domain(event)])
  {
  }

  /** Events that close a request, after one domain event. */
  lemma ClosesAppend(ledger: C.Ledger, next: C.Ledger, id: C.Id, events: seq<C.Event>, event: C.Payload)
    requires next.chain == ledger.chain + events
    requires forall other :: other in events ==> !other.CommandClaimed? && (other.Domain? ==> other.payload == event)
    requires Done(next, id) && forall other :: Done(ledger, other) ==> Done(next, other)
    ensures Grew(ledger, next) && OnlyEvent(ledger, next, event)
  {
    hide Done;
    forall at | |ledger.chain| <= at < |next.chain| ensures next.chain[at] in events {
      assert next.chain[at] == events[at - |ledger.chain|];
    }
  }

  lemma RecordKeeps(project: string, world: World, act: Act, plan: Plan, observedAt: int, reason: string, at: int)
    requires Inv(project, world) && act in world.acts
    requires (plan == PushedPlan(project, act.target, observedAt) && Holds(world, PushOf(project, act.target)))
             || plan == FailedPlan(project, act.target, reason, observedAt)
    ensures Inv(project, Recorded(project, world, act, plan, at).0)
  {
    var command := PushCommand(act.request, at);
    var id := command.id;
    if C.TurnOf(world.ledger, command, C.Completing(act.request.owner)).Proceed? {
      InvIsLedger(project, world);
      CompleteAppends(world.ledger, command, act.request.owner, plan.event, plan.outcome);
      var next := C.Complete(world.ledger, command, act.request.owner, C.Decided([plan.event], plan.outcome)).0;
      assert WasClaimed(world.ledger.chain, id, act.claimSeq, act.target);
      hide Inv, C.Complete, C.TurnOf, WasClaimed, R.Inv, AnchorTag;
      if plan.row.Some? {
        StagingNeverRefuses(project, world, id, act.claimSeq, act.target, observedAt);
        PushedKeeps(project, world, next, id, act.claimSeq, act.target, observedAt);
      } else {
        FailureIsNoPush(world.ledger, next, plan.event);
        GrowthKeeps(project, world, next);
      }
    } else {
      hide Inv;
      assert Recorded(project, world, act, plan, at).0 == world;
    }
  }

  lemma FailureIsNoPush(ledger: C.Ledger, next: C.Ledger, event: C.Payload)
    requires OnlyEvent(ledger, next, event) && !event.AnchorPushed?
    ensures NoPushes(ledger, next)
  {
  }

  // ----- reconciling -----

  /** An observed matching tag is on the claim's remote. */
  lemma AnchoredIsHeld(project: string, world: World, target: Target, observation: Observation)
    requires Honest(world, target, observation)
    requires JudgeAnchor(target, RemoteTagOf(project, AnchorTag(project, target.sequence), observation)).Anchored?
    ensures Holds(world, PushOf(project, target))
  {
  }

  lemma ReconcileAppends(ledger: C.Ledger, command: C.Command, claim: C.Id, event: C.Payload, outcome: C.Outcome)
    requires R.Inv(ledger)
    requires C.Reconcile(ledger, command, claim, false, C.Resolved([event], outcome)).1.Recorded?
    ensures var next := C.Reconcile(ledger, command, claim, false, C.Resolved([event], outcome)).0;
            && R.IsOpen(ledger, claim) && Done(next, claim) && R.Inv(next)
            && Grew(ledger, next) && OnlyEvent(ledger, next, event)
  {
    hide R.Inv, C.Reconcile, Grew, OnlyEvent;
    R.ReconcileKeeps(ledger, command, claim, false, C.Resolved([event], outcome));
    ReconcileUnfolds(ledger, command, claim, event, outcome);
    var next := C.Reconcile(ledger, command, claim, false, C.Resolved([event], outcome)).0;
    var doc := ledger.requests[claim].doc;
    var events := [C.Domain(event), C.CommandReconciled(claim, doc.sequence, true),
                   C.CommandCompleted(claim, doc.digest, doc.scope, outcome),
                   C.CommandCompleted(command.id, command.digest, [], C.RECONCILED)];
    DoneStays(ledger, next, claim, command.id);
    ClosesAppend(ledger, next, claim, events, event);
  }

  lemma DoneStays(ledger: C.Ledger, next: C.Ledger, claim: C.Id, command: C.Id)
    requires next.requests.Keys == ledger.requests.Keys + {claim, command}
    requires next.requests[claim].Completed? && next.requests[command].Completed?
    requires forall id :: id in ledger.requests && id != claim && id != command ==> next.requests[id] == ledger.requests[id]
    ensures Done(next, claim) && forall id :: Done(ledger, id) ==> Done(next, id)
  {
  }

  lemma ReconcileUnfolds(ledger: C.Ledger, command: C.Command, claim: C.Id, event: C.Payload, outcome: C.Outcome)
    requires C.Reconcile(ledger, command, claim, false, C.Resolved([event], outcome)).1.Recorded?
    ensures R.IsOpen(ledger, claim)
    ensures var next := C.Reconcile(ledger, command, claim, false, C.Resolved([event], outcome)).0;
            var doc := ledger.requests[claim].doc;
            && next.chain == ledger.chain
                 + [C.Domain(event), C.CommandReconciled(claim, doc.sequence, true),
                    C.CommandCompleted(claim, doc.digest, doc.scope, outcome),
                    C.CommandCompleted(command.id, command.digest, [], C.RECONCILED)]
            && next.requests == ledger.requests[claim := C.Completed(doc.digest, outcome, |ledger.chain| + 3)]
                                               [command.id := C.Completed(command.digest, C.RECONCILED, |ledger.chain| + 4)]
  {
    hide C.ScopeBlock, C.StateOf, C.DropTokens;
    OneDomain(ledger, event);
  }

  lemma RefusalChangesNothing(ledger: C.Ledger, command: C.Command, claim: C.Id, resolution: C.Resolution)
    ensures !C.Reconcile(ledger, command, claim, false, resolution).1.Recorded? ==>
              C.Reconcile(ledger, command, claim, false, resolution).0 == ledger
    ensures resolution.ReconcileFails? ==> !C.Reconcile(ledger, command, claim, false, resolution).1.Recorded?
  {
    hide C.ScopeBlock, C.StateOf, C.DropTokens;
  }

  lemma ReconcileKeeps(project: string, world: World, command: C.Command, claim: C.Id, claimSeq: nat, target: Target,
                       observation: Observation)
    requires Inv(project, world) && WasClaimed(world.ledger.chain, claim, claimSeq, target) && Honest(world, target, observation)
    ensures Inv(project, Reconciled(project, world, command, claim, claimSeq, target, observation).0)
  {
    hide Inv, C.Reconcile, R.Inv, AnchorTag, WasClaimed, Honest, JudgeAnchor, RemoteTagOf, StageAnchor;
    var planned := ReconcilePlan(project, target, observation, command.recordedAt);
    if planned.Some? {
      var plan := planned.value;
      var resolved := C.Resolved([plan.event], plan.outcome);
      RefusalChangesNothing(world.ledger, command, claim, resolved);
      RefusalChangesNothing(world.ledger, command, claim, C.ReconcileFails);
      if Reconciled(project, world, command, claim, claimSeq, target, observation).0 != world {
        InvIsLedger(project, world);
        ReconcileAppends(world.ledger, command, claim, plan.event, plan.outcome);
        PlanKeeps(project, world, C.Reconcile(world.ledger, command, claim, false, resolved).0, claim, claimSeq, target, observation,
                  command.recordedAt);
      }
    }
  }

  /** What a plan that went through leaves. */
  lemma PlanKeeps(project: string, world: World, next: C.Ledger, claim: C.Id, claimSeq: nat, target: Target,
                  observation: Observation, at: int)
    requires Inv(project, world) && WasClaimed(world.ledger.chain, claim, claimSeq, target) && Honest(world, target, observation)
    requires ReconcilePlan(project, target, observation, at).Some?
    requires R.Inv(next) && R.IsOpen(world.ledger, claim) && Done(next, claim) && Grew(world.ledger, next)
    requires OnlyEvent(world.ledger, next, ReconcilePlan(project, target, observation, at).value.event)
    ensures var staged := Staged(project, world.anchors, ReconcilePlan(project, target, observation, at).value);
            staged.Some? && Inv(project, world.(ledger := next, anchors := staged.value))
  {
    hide Inv, R.Inv, AnchorTag, WasClaimed, RemoteTagOf, Grew, OnlyEvent, Done, R.IsOpen;
    var plan := ReconcilePlan(project, target, observation, at).value;
    if plan.row.Some? {
      AnchoredIsHeld(project, world, target, observation);
      StagingNeverRefuses(project, world, claim, claimSeq, target, at);
      PushedKeeps(project, world, next, claim, claimSeq, target, at);
    } else {
      FailureIsNoPush(world.ledger, next, plan.event);
      GrowthKeeps(project, world, next);
      assert world.(ledger := next, anchors := world.anchors) == world.(ledger := next);
    }
  }

  // ----- what is recorded -----

  /** The world after one domain event and the events that close its claim; a
      row is written exactly for a recorded push. */
  ghost predicate RecordedEvents(project: string, world: World, next: World, target: Target, payload: C.Payload, at: int,
                                 closing: seq<C.Event>)
  {
    && next.ledger.chain == world.ledger.chain + [C.Domain(payload)] + closing
    && next.remotes == world.remotes && next.inFlight == world.inFlight && next.acts == world.acts
    && next.anchors == if payload.AnchorPushed? then
                         world.anchors[target.sequence := StoredAnchor(target.head, AnchorTag(project, target.sequence), at)]
                       else world.anchors
  }

  /** What a reconciliation writes for what its fetch showed. */
  function SeenPayload(project: string, target: Target, observation: Observation, at: int): C.Payload
    requires observation.Present? || observation.Absent?
  {
    var tag := AnchorTag(project, target.sequence);
    if observation == Present(tag, Names(Anchor(target.sequence, target.head))) then
      C.AnchorPushed(tag, target.sequence, target.head, target.remote, at)
    else C.AnchorFailed(tag, target.sequence, target.head, target.remote, at,
                        if observation.Absent? then "the remote confirmed " + tag + " absent"
                        else "the remote tag " + tag + " does not name the claimed head")
  }

  lemma StagedRows(project: string, anchors: map<nat, StoredAnchor>, target: Target, at: int)
    ensures var staged := Staged(project, anchors, PushedPlan(project, target, at));
            staged.Some? ==>
              staged.value == anchors[target.sequence := StoredAnchor(target.head, AnchorTag(project, target.sequence), at)]
  {
    hide AnchorTag;
  }

  /** A reconciliation that could not ask the remote records nothing, and no
      other one answers so; one that is refused changes nothing. */
  lemma UnseenRemotesRecordNothing(project: string, world: World, command: C.Command, claim: C.Id, claimSeq: nat, target: Target,
                                   observation: Observation)
    ensures var (next, answer) := Reconciled(project, world, command, claim, claimSeq, target, observation);
            && (answer.None? <==> observation.NoRemote? || observation.Unreachable?)
            && (answer.None? || !answer.value.Recorded? ==> next == world)
  {
    UnaskedRemotesPlanNothing(project, target, observation, command.recordedAt);
    var planned := ReconcilePlan(project, target, observation, command.recordedAt);
    hide ReconcilePlan, C.Reconcile, AnchorTag, R.IsOpen, StageAnchor;
    if planned.Some? {
      RefusalChangesNothing(world.ledger, command, claim, C.Resolved([planned.value.event], planned.value.outcome));
      RefusalChangesNothing(world.ledger, command, claim, C.ReconcileFails);
    }
  }

  /** What a reconciliation's plan leaves, once the ledger has taken it. */
  lemma PlansAreRecorded(project: string, world: World, command: C.Command, claim: C.Id, claimSeq: nat, target: Target,
                         observation: Observation, plan: Plan)
    requires ReconcilePlan(project, target, observation, command.recordedAt) == Some(plan)
    requires Reconciled(project, world, command, claim, claimSeq, target, observation).1.value.Recorded?
    ensures R.IsOpen(world.ledger, claim) && world.ledger.requests[claim].doc.sequence == claimSeq
    ensures Staged(project, world.anchors, plan).Some?
    ensures var next := Reconciled(project, world, command, claim, claimSeq, target, observation).0;
            var doc := world.ledger.requests[claim].doc;
            && next == world.(ledger := next.ledger, anchors := Staged(project, world.anchors, plan).value)
            && next.ledger.chain == world.ledger.chain + [C.Domain(plan.event)]
                 + [C.CommandReconciled(claim, doc.sequence, true), C.CommandCompleted(claim, doc.digest, doc.scope, plan.outcome),
                    C.CommandCompleted(command.id, command.digest, [], C.RECONCILED)]
            && claim in next.ledger.requests
            && (claim != command.id ==> next.ledger.requests[claim] == C.Completed(doc.digest, plan.outcome, |next.ledger.chain| - 1))
  {
    hide ReconcilePlan, C.Reconcile, AnchorTag, StageAnchor, Staged;
    RefusalChangesNothing(world.ledger, command, claim, C.ReconcileFails);
    ReconcileUnfolds(world.ledger, command, claim, plan.event, plan.outcome);
  }

  /** A reconciliation that goes through finds the claim open under the sequence
      it was claimed at, records exactly what the fetch showed, closes the claim
      with it and then itself. */
  lemma ReconciliationsRecordWhatWasSeen(project: string, world: World, command: C.Command, claim: C.Id, claimSeq: nat, target: Target,
                                         observation: Observation)
    requires target.sequence <= Decimal.U64_MAX
    requires observation.Present? || observation.Absent?
    ensures var (next, answer) := Reconciled(project, world, command, claim, claimSeq, target, observation);
            answer.Some? && answer.value.Recorded? ==>
              && R.IsOpen(world.ledger, claim) && world.ledger.requests[claim].doc.sequence == claimSeq
              && var payload := SeenPayload(project, target, observation, command.recordedAt);
                 var outcome := C.Outcome(payload.AnchorPushed?, C.Inline(if payload.AnchorPushed? then "anchored" else payload.reason));
                 var doc := world.ledger.requests[claim].doc;
                 && RecordedEvents(project, world, next, target, payload, command.recordedAt,
                      [C.CommandReconciled(claim, doc.sequence, true), C.CommandCompleted(claim, doc.digest, doc.scope, outcome),
                       C.CommandCompleted(command.id, command.digest, [], C.RECONCILED)])
                 && claim in next.ledger.requests
                 && (claim != command.id ==>
                       next.ledger.requests[claim] == C.Completed(doc.digest, outcome, |next.ledger.chain| - 1))
  {
    ObservationsDecideThePlan(project, target, observation, command.recordedAt);
    UnaskedRemotesPlanNothing(project, target, observation, command.recordedAt);
    var plan := ReconcilePlan(project, target, observation, command.recordedAt).value;
    UnseenRemotesRecordNothing(project, world, command, claim, claimSeq, target, observation);
    hide ReconcilePlan, Reconciled, AnchorTag, R.IsOpen, StageAnchor;
    if Reconciled(project, world, command, claim, claimSeq, target, observation).1.value.Recorded? {
      PlansAreRecorded(project, world, command, claim, claimSeq, target, observation, plan);
      StagedRows(project, world.anchors, target, command.recordedAt);
    }
  }

  /** A record step writes a push exactly where it is told of one, and a failure
      with its reason otherwise, and completes the claim with it. */
  lemma RecordStepsWriteWhatCame(project: string, world: World, act: Act, pushed: bool, reason: string, observedAt: int, at: int)
    ensures var plan := if pushed then PushedPlan(project, act.target, observedAt) else FailedPlan(project, act.target, reason, observedAt);
            var (next, reply) := Recorded(project, world, act, plan, at);
            var tag := AnchorTag(project, act.target.sequence);
            var id := C.Id(ANCHOR_PUSH, act.request.id);
            var outcome := C.Outcome(pushed, C.Inline(if pushed then "anchored" else reason));
            && (!reply.Recorded? ==> next == world)
            && (reply.Recorded? ==>
                  && reply.outcome == outcome
                  && RecordedEvents(project, world, next, act.target,
                       if pushed then C.AnchorPushed(tag, act.target.sequence, act.target.head, act.target.remote, observedAt)
                       else C.AnchorFailed(tag, act.target.sequence, act.target.head, act.target.remote, observedAt, reason),
                       observedAt, [C.CommandCompleted(id, act.request.digest, ["anchor"], outcome)]))
  {
    var plan := if pushed then PushedPlan(project, act.target, observedAt) else FailedPlan(project, act.target, reason, observedAt);
    var staged := Staged(project, world.anchors, plan);
    var command := PushCommand(act.request, at);
    StagedRows(project, world.anchors, act.target, observedAt);
    if C.TurnOf(world.ledger, command, C.Completing(act.request.owner)).Proceed? {
      CompleteUnfolds(world.ledger, command, act.request.owner, plan.event, plan.outcome);
    }
    hide AnchorTag, StageAnchor, C.TurnOf, C.WithDomain, C.CompletedBy;
  }

  // ----- remotes -----

  lemma PushesDoNotMatter(project: string, world: World, inFlight: set<Push>)
    requires Inv(project, world)
    ensures Inv(project, world.(inFlight := inFlight))
  {
    hide R.Inv, RowFits;
  }

  /** Tags are only ever added, so a held one stays held. */
  lemma TagsStay(project: string, world: World, remotes: map<(string, string), Annotation>)
    requires Inv(project, world)
    requires forall key :: key in world.remotes ==> key in remotes && remotes[key] == world.remotes[key]
    ensures Inv(project, world.(remotes := remotes))
  {
    hide R.Inv, ClaimsIntendTheHead;
    forall sequence | sequence in world.anchors
      ensures RowFits(project, world.ledger, remotes, sequence, world.anchors[sequence])
    {
      var stored := world.anchors[sequence];
      assert RowFits(project, world.ledger, world.remotes, sequence, stored);
      var remote :| (remote, stored.tag) in world.remotes
                    && world.remotes[(remote, stored.tag)] == Names(Anchor(sequence, stored.hash));
      assert (remote, stored.tag) in remotes;
    }
  }

  // ----- the main results -----

  lemma StepKeeps(project: string, world: World, step: Step)
    requires Inv(project, world)
    ensures Inv(project, After(project, world, step))
  {
    hide Inv, Claimed, Recorded, Reconciled, R.After, AnchorTag, Honest, WasClaimed, IsOther;
    match step
    case Claim(request, at) => ClaimKeeps(project, world, request, at);
    case StartPush(act) => PushesDoNotMatter(project, world, world.inFlight + {PushOf(project, act.target)});
    case Land(push) =>
      if push in world.inFlight {
        TagsStay(project, world, Landed(world, push).remotes);
      }
    case ForeignTag(remote, tag, annotation) =>
      if (remote, tag) !in world.remotes {
        TagsStay(project, world, world.remotes[(remote, tag) := annotation]);
      }
    case RecordPushed(act, observedAt, at) =>
      if act in world.acts && Holds(world, PushOf(project, act.target)) {
        RecordKeeps(project, world, act, PushedPlan(project, act.target, observedAt), observedAt, "", at);
      }
    case RecordFailed(act, reason, observedAt, at) =>
      if act in world.acts {
        RecordKeeps(project, world, act, FailedPlan(project, act.target, reason, observedAt), observedAt, reason, at);
      }
    case Reconcile(command, claim, claimSeq, target, observation) =>
      if command.id.kind == ANCHOR_RECONCILE && WasClaimed(world.ledger.chain, claim, claimSeq, target)
         && Honest(world, target, observation) {
        ReconcileKeeps(project, world, command, claim, claimSeq, target, observation);
      }
    case Other(step) =>
      if IsOther(step) {
        OtherKeeps(project, world, step);
      }
  }

  lemma {:induction false} RunKeeps(project: string, world: World, steps: seq<Step>)
    requires Inv(project, world)
    ensures Inv(project, Run(project, world, steps))
    decreases |steps|
  {
    if steps != [] {
      StepKeeps(project, world, steps[0]);
      RunKeeps(project, After(project, world, steps[0]), steps[1..]);
    }
  }

  /** In every run each local anchor row names the hash the chain has at its
      sequence, and some remote holds the tag that says so. */
  lemma AnchorRowsAreTrue(project: string, steps: seq<Step>, sequence: nat)
    requires sequence in Run(project, EMPTY, steps).anchors
    ensures var world := Run(project, EMPTY, steps);
            var stored := world.anchors[sequence];
            && sequence <= |world.ledger.chain| && stored.hash == HashAt(world.ledger.chain, sequence)
            && stored.tag == AnchorTag(project, sequence)
            && exists remote :: (remote, stored.tag) in world.remotes
                                && world.remotes[(remote, stored.tag)] == Names(Anchor(sequence, stored.hash))
  {
    RunKeeps(project, EMPTY, steps);
    hide Run, R.Inv, ClaimsIntendTheHead, ActsWereClaimed, PushesHaveRows;
    assert RowFits(project, Run(project, EMPTY, steps).ledger, Run(project, EMPTY, steps).remotes, sequence,
                   Run(project, EMPTY, steps).anchors[sequence]);
  }

  /** No two claims of a run intend one tag: each intends the sequence before
      its own. */
  lemma NoTwoClaimsIntendOneTag(project: string, steps: seq<Step>, i: nat, j: nat)
    requires var chain := Run(project, EMPTY, steps).ledger.chain;
             && i < |chain| && j < |chain|
             && chain[i].CommandClaimed? && chain[i].id.kind == ANCHOR_PUSH
             && chain[j].CommandClaimed? && chain[j].id.kind == ANCHOR_PUSH
    ensures var chain := Run(project, EMPTY, steps).ledger.chain;
            && chain[i].intent.Anchoring? && chain[j].intent.Anchoring?
            && chain[i].intent.sequence == i && chain[i].intent.head == HashAt(chain, i)
            && (AnchorTag(project, chain[i].intent.sequence) == AnchorTag(project, chain[j].intent.sequence) ==> i == j)
  {
    RunKeeps(project, EMPTY, steps);
    hide Run, R.Inv, RowsFit, ActsWereClaimed, PushesHaveRows;
    var chain := Run(project, EMPTY, steps).ledger.chain;
    if AnchorTag(project, i) == AnchorTag(project, j) {
      TagsDiffer(project, i, j);
    }
  }

  lemma TagsDiffer(project: string, a: nat, b: nat)
    requires AnchorTag(project, a) == AnchorTag(project, b)
    ensures a == b
  {
    var left, right := Decimal.Natural(a), Decimal.Natural(b);
    Stripped(ANCHOR_TAG_PREFIX, project + ("/" + left));
    Stripped(ANCHOR_TAG_PREFIX, project + ("/" + right));
    Stripped(project, "/" + left);
    Stripped(project, "/" + right);
    Stripped("/", left);
    Stripped("/", right);
    Decimal.NaturalIsInjective(a, b);
  }

  /** A push recorded after its claim was reconciled, even as not pushed,
      changes nothing: the reconciliation's outcome stands. */
  lemma ALatePushChangesNothing(project: string, world: World, act: Act, observedAt: int, at: int)
    requires Inv(project, world) && act in world.acts && Done(world.ledger, C.Id(ANCHOR_PUSH, act.request.id))
    ensures After(project, world, RecordPushed(act, observedAt, at)) == world
  {
    R.CompletedRequestsReplay(world.ledger, PushCommand(act.request, at), C.Fails, C.ClaimFails, act.request.owner);
    var plan := PushedPlan(project, act.target, observedAt);
    R.CompletedRequestsReplay(world.ledger, PushCommand(act.request, at), C.Decided([plan.event], plan.outcome), C.ClaimFails,
                              act.request.owner);
    hide C.Complete, Staged, Inv;
  }
}
