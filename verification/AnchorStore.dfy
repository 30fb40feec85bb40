/** One anchor command, action by action, while everybody else goes on
    (crates/baley-core/src/anchor.rs, `claim_step`, `record`,
    `reconcile_from_observation`, `act_and_record` and `anchor_command`). */
module AnchorStore {
  import opened Wrappers
  import C = Claims
  import R = ClaimRuns
  import opened Anchors
  import opened AnchorRuns
  import opened ClaimStore

  /** What came of the effect: the pre-push check stopped it, or the push was
      sent and its answer came or was lost. Whether and when the tag lands is
      up to the remote. */
  datatype Effort = NotTried(reason: string) | Sent(answered: bool, reason: string)

  /** Whether a fetch gets through to the remote. */
  datatype Reach = Reached | Unconfigured | Lost

  /** How an anchor command ends. */
  datatype Ended =
    | Finished(outcome: C.Outcome)
    | LateReplay(outcome: C.Outcome, pushed: bool)
    | AlreadyDone(outcome: C.Outcome)
    | StillRunning(request: C.Request)
    | TurnedDown(outcome: C.Outcome)
    | LeftBlocked(claim: C.Id)
    | RemoteUnknown(claim: C.Id)
    | ReconcileLost(refusal: C.Refusal)
    | CommandFailed(refusal: C.Refusal)

  // ----- one command among other processes -----

  /** What a command does itself, a step or a mere reading, and before each of
      these what everybody else does: other commands, tags that appear, and
      pushes that land. */
  function Woven(own: seq<Option<Step>>, others: nat -> seq<Step>): seq<Step> {
    if own == [] then []
    else
      var last := |own| - 1;
      Woven(own[..last], others) + others(last) + (if own[last].Some? then [own[last].value] else [])
  }

  /** The world that the last of its own actions found. */
  function Found(project: string, world: World, own: seq<Option<Step>>, others: nat -> seq<Step>): World
    requires own != []
  {
    Run(project, world, Woven(own[..|own| - 1], others) + others(|own| - 1))
  }

  /** At most one reconciliation among its own steps. */
  predicate ReconcilesOnce(own: seq<Option<Step>>) {
    forall i, j :: 0 <= i < j < |own| ==> !(Reconciles(own[i]) && Reconciles(own[j]))
  }

  predicate Reconciles(action: Option<Step>) {
    action.Some? && action.value.Reconcile?
  }

  /** A reconciliation's observation says whether the remote could be asked. */
  predicate AsReached(reach: Reach, action: Option<Step>) {
    Reconciles(action) ==>
      match reach
      case Unconfigured => action.value.observation.NoRemote?
      case Lost => action.value.observation.Unreachable?
      case Reached => action.value.observation.Present? || action.value.observation.Absent?
  }

  /** The answer that reports a push as done. */
  predicate ReportsPushed(project: string, world: World, act: Act, effort: Effort) {
    effort.Sent? && effort.answered && Holds(world, PushOf(project, act.target))
  }

  /** What the record step writes for what it observed. */
  function PlanOf(project: string, world: World, act: Act, effort: Effort, observedAt: int): Plan {
    if ReportsPushed(project, world, act, effort) then PushedPlan(project, act.target, observedAt)
    else FailedPlan(project, act.target, effort.reason, observedAt)
  }

  function DoneOutcome(ledger: C.Ledger, id: C.Id): C.Outcome
    requires Done(ledger, id)
  {
    C.Replayable(ledger, ledger.requests[id])
  }

  /** What a step of the command is answered. */
  function AnswerOf(project: string, found: World, step: Step): Option<C.Reply> {
    match step
    case Claim(request, at) => Some(C.TakeClaim(found.ledger, PushCommand(request, at), ClaimDecisionOf(found.ledger.chain, request)).1)
    case RecordPushed(act, observedAt, at) => Some(Recorded(project, found, act, PushedPlan(project, act.target, observedAt), at).1)
    case RecordFailed(act, reason, observedAt, at) => Some(Recorded(project, found, act, FailedPlan(project, act.target, reason, observedAt), at).1)
    case Reconcile(command, claim, claimSeq, target, observation) =>
      Reconciled(project, found, command, claim, claimSeq, target, observation).1
    case _ => None
  }

  predicate Refuses(project: string, found: World, action: Option<Step>, refusal: C.Refusal) {
    action.Some? && AnswerOf(project, found, action.value) == Some(C.Error(refusal))
  }

  /** One of its own claims was taken. */
  predicate TookClaim(project: string, world: World, own: seq<Option<Step>>, others: nat -> seq<Step>, at: nat)
    requires at < |own|
  {
    own[at].Some? && own[at].value.Claim? &&
    AnswerOf(project, Found(project, world, own[..at + 1], others), own[at].value).value.ClaimTaken?
  }

  predicate TookNone(project: string, world: World, own: seq<Option<Step>>, others: nat -> seq<Step>) {
    forall at: nat | at < |own| :: !TookClaim(project, world, own, others, at)
  }

  predicate Records(action: Option<Step>) {
    action.Some? && (action.value.RecordPushed? || action.value.RecordFailed?)
  }

  ghost predicate RecordedBy(project: string, request: Request, effort: Effort, found: World, next: World, outcome: C.Outcome,
                             act: Act, observedAt: int, at: int)
  {
    var plan := PlanOf(project, found, act, effort, observedAt);
    var pushed := ReportsPushed(project, found, act, effort);
    var tag := AnchorTag(project, act.target.sequence);
    && act in found.acts && act.request == request
    && outcome == C.Outcome(pushed, C.Inline(if pushed then "anchored" else effort.reason))
    && next == Recorded(project, found, act, plan, at).0
    && RecordedEvents(project, found, next, act.target,
         if pushed then C.AnchorPushed(tag, act.target.sequence, act.target.head, act.target.remote, observedAt)
         else C.AnchorFailed(tag, act.target.sequence, act.target.head, act.target.remote, observedAt, effort.reason),
         observedAt, [C.CommandCompleted(C.Id(ANCHOR_PUSH, request.id), request.digest, ["anchor"], outcome)])
  }

  /** What each ending says of the world its last action found, that action, and
      the world it leaves. */
  ghost predicate Ends(project: string, request: Request, effort: Effort, found: World, last: Option<Step>, next: World, ended: Ended) {
    var id := C.Id(ANCHOR_PUSH, request.id);
    match ended
    case Finished(outcome) =>
      && R.IsOpen(found.ledger, id) && Done(next.ledger, id) && next.ledger.requests[id].outcome == outcome
      && exists act, observedAt, at :: RecordedBy(project, request, effort, found, next, outcome, act, observedAt, at)
    case LateReplay(outcome, pushed) =>
      && next == found && Done(found.ledger, id) && outcome == DoneOutcome(found.ledger, id)
      && exists act :: act in found.acts && act.request == request && (pushed <==> ReportsPushed(project, found, act, effort))
    case AlreadyDone(outcome) => next == found && Done(found.ledger, id) && outcome == DoneOutcome(found.ledger, id)
    case StillRunning(running) => next == found && R.IsOpen(found.ledger, id) && running == found.ledger.requests[id]
    case TurnedDown(outcome) =>
      && (request.remote.None? || found.ledger.chain == []) && id !in found.ledger.requests
      && Done(next.ledger, id) && next.ledger.requests[id].outcome == outcome && !outcome.done
    case LeftBlocked(claim) =>
      && next == found && claim != id && R.IsOpen(found.ledger, claim)
      && (last.Some? ==> exists state :: Refuses(project, found, last, C.Blocked(claim, state)))
    case RemoteUnknown(claim) =>
      && next == found && claim.kind == ANCHOR_PUSH && claim != id
      && last.Some? && last.value.Reconcile? && last.value.claim == claim
      && (last.value.observation.NoRemote? || last.value.observation.Unreachable?)
    case ReconcileLost(refusal) =>
      && next == found && (refusal.StaleClaim? || refusal.StillActive? || refusal.AwaitsOwner?)
      && (refusal.StaleClaim? ==> !R.IsOpen(found.ledger, refusal.id))
      && (last.Some? ==> last.value.Reconcile? && Refuses(project, found, last, refusal))
    case CommandFailed(refusal) => next == found && Refuses(project, found, last, refusal)
  }

  class Anchoring {
    const project: string
    const store: LedgerStore
    var anchors: map<nat, StoredAnchor>
    var remotes: map<(string, string), Annotation>
    var inFlight: set<Push>
    var acts: set<Act>

    function Value(): World
      reads this, store
    {
      World(store.Value(), anchors, remotes, inFlight, acts)
    }

    constructor (project: string)
      ensures Value() == EMPTY && fresh(store)
    {
      this.project := project;
      store := new LedgerStore();
      anchors, remotes, inFlight, acts := map[], map[], {}, {};
    }

    /** `claim_step`: the head is read inside the claim. */
    method ClaimStep(request: Request, at: int) returns (reply: C.Reply, act: Option<Act>)
      modifies this, store
      ensures Value() == Claimed(old(Value()), request, at)
      ensures reply == C.TakeClaim(old(store.Value()), PushCommand(request, at), ClaimDecisionOf(old(store.chain), request)).1
      ensures act.Some? <==> reply.ClaimTaken? && request.remote.Some? && old(store.chain) != []
      ensures act.Some? ==> act.value in acts && act.value.request == request
    {
      var chain := store.chain;
      reply := store.Claim(PushCommand(request, at), ClaimDecisionOf(chain, request));
      act := None;
      if reply.ClaimTaken? && request.remote.Some? && chain != [] {
        var target := Target(|chain|, HashAt(chain, |chain|), request.remote.value);
        act := Some(Act(request, reply.sequence, target));
        acts := acts + {act.value};
      }
    }

    /** `record`: the result event, the row of a confirmed tag, and the claim's
        completion, in one transaction. */
    method Record(act: Act, plan: Plan, at: int) returns (reply: C.Reply)
      modifies this, store
      ensures (Value(), reply) == Recorded(project, old(Value()), act, plan, at)
    {
      var staged := Staged(project, anchors, plan);
      var decision := if staged.Some? then C.Decided([plan.event], plan.outcome) else C.Fails;
      reply := store.Complete(PushCommand(act.request, at), act.request.owner, decision);
      if reply.Recorded? && staged.Some? {
        anchors := staged.value;
      }
    }

    /** `reconcile_from_observation`. */
    method ReconcileFrom(command: C.Command, claim: C.Id, claimSeq: nat, target: Target, observation: Observation)
      returns (reply: Option<C.Reply>)
      modifies this, store
      ensures (Value(), reply) == Reconciled(project, old(Value()), command, claim, claimSeq, target, observation)
      ensures reply.None? <==> observation.NoRemote? || observation.Unreachable?
      ensures reply.None? ==> Value() == old(Value())
    {
      var planned := ReconcilePlan(project, target, observation, command.recordedAt);
      if planned.None? {
        return None;
      }
      var plan := planned.value;
      var staged := Staged(project, anchors, plan);
      var current := claim in store.requests && C.Open(store.requests[claim]) && store.requests[claim].doc.sequence == claimSeq;
      var resolution := if staged.Some? && current then C.Resolved([plan.event], plan.outcome) else C.ReconcileFails;
      var answer := store.Reconcile(command, claim, false, resolution);
      if answer.Recorded? && staged.Some? {
        anchors := staged.value;
      }
      reply := Some(answer);
    }

    // ----- everybody else -----

    method PerformOnLedger(step: R.Step)
      modifies store
      ensures store.Value() == R.After(old(store.Value()), step)
    {
      match step
      case DoTransact(command, decision) => var reply := store.Transact(command, decision);
      case DoClaim(command, claiming) => var reply := store.Claim(command, claiming);
      case DoRenew(id, owner, at) => var refused := store.Renew(id, owner, at);
      case DoComplete(command, owner, decision) => var reply := store.Complete(command, owner, decision);
      case DoReconcile(command, claim, asOwner, resolution) => var reply := store.Reconcile(command, claim, asOwner, resolution);
      case LoseLeases(leases) => store.leases := leases;
      case ReleaseAnswer(sequence, hash) => store.gone := store.gone + {(sequence, hash)};
    }

    method PerformOne(step: Step)
      modifies this, store
      ensures Value() == After(project, old(Value()), step)
    {
      hide Claimed, Recorded, Reconciled, AnchorTag, R.After, IsOther;
      match step
      case Claim(request, at) => var reply, act := ClaimStep(request, at);
      case StartPush(act) =>
        if act in acts {
          inFlight := inFlight + {PushOf(project, act.target)};
        }
      case Land(push) =>
        if push in inFlight && (push.remote, push.tag) !in remotes {
          remotes := remotes[(push.remote, push.tag) := Names(push.anchor)];
        }
      case ForeignTag(remote, tag, annotation) =>
        if (remote, tag) !in remotes {
          remotes := remotes[(remote, tag) := annotation];
        }
      case RecordPushed(act, observedAt, at) =>
        if act in acts && Holds(Value(), PushOf(project, act.target)) {
          var reply := Record(act, PushedPlan(project, act.target, observedAt), at);
        }
      case RecordFailed(act, reason, observedAt, at) =>
        if act in acts {
          var reply := Record(act, FailedPlan(project, act.target, reason, observedAt), at);
        }
      case Reconcile(command, claim, claimSeq, target, observation) =>
        if command.id.kind == ANCHOR_RECONCILE && WasClaimed(store.chain, claim, claimSeq, target)
           && Honest(Value(), target, observation) {
          var reply := ReconcileFrom(command, claim, claimSeq, target, observation);
        }
      case Other(other) =>
        if IsOther(other) {
          PerformOnLedger(other);
        }
    }

    method Perform(steps: seq<Step>)
      modifies this, store
      ensures Value() == Run(project, old(Value()), steps)
    {
      hide After, Run;
      NoSteps(project, Value());
      assert steps[..0] == [];
      for at := 0 to |steps|
        invariant Value() == Run(project, old(Value()), steps[..at])
      {
        PerformOne(steps[at]);
        RunAppends(project, old(Value()), steps[..at], steps[at]);
        assert steps[..at + 1] == steps[..at] + [steps[at]];
      }
      assert steps[..|steps|] == steps;
    }

    /** What everybody else does before this command's next action. */
    method Meanwhile(others: nat -> seq<Step>, turn: nat, ghost start: World, ghost own: seq<Option<Step>>)
      requires turn == |own| && Inv(project, start) && Value() == Run(project, start, Woven(own, others))
      modifies this, store
      ensures Value() == Run(project, start, Woven(own, others) + others(turn))
      ensures Inv(project, Value()) && Grown(old(Value()), Value())
    {
      hide Run, After, Inv, Grown;
      Perform(others(turn));
      RunJoins(project, start, Woven(own, others), others(turn));
      RunKeeps(project, start, Woven(own, others) + others(turn));
      RunsGrow(project, old(Value()), others(turn));
    }

    // ----- the command -----

    /** The remote asked for one tag. */
    method Fetch(target: Target, reach: Reach) returns (observation: Observation)
      ensures Honest(Value(), target, observation)
      ensures reach.Unconfigured? ==> observation == NoRemote
      ensures reach.Lost? ==> observation == Unreachable
      ensures reach.Reached? ==>
                var tag := AnchorTag(project, target.sequence);
                observation == if (target.remote, tag) in remotes then Present(tag, remotes[(target.remote, tag)]) else Absent
    {
      if !reach.Reached? {
        return if reach.Unconfigured? then NoRemote else Unreachable;
      }
      var tag := AnchorTag(project, target.sequence);
      if (target.remote, tag) in remotes {
        observation := Present(tag, remotes[(target.remote, tag)]);
      } else {
        observation := Absent;
      }
    }

    /** `act_and_record`: a push is recorded as done only where its answer came
        and the remote holds the tag. */
    method ActAndRecord(act: Act, effort: Effort, observedAt: int, at: int, others: nat -> seq<Step>, turn: nat,
                        ghost start: World, ghost before: seq<Option<Step>>)
      returns (ended: Ended, ghost own: seq<Option<Step>>)
      requires turn == |before| && Inv(project, start) && Value() == Run(project, start, Woven(before, others)) && act in acts
      modifies this, store
      ensures before < own && |own| <= |before| + 2 && Value() == Run(project, start, Woven(own, others))
      ensures forall later :: |before| <= later < |own| ==> !Reconciles(own[later])
      ensures Records(own[|own| - 1])
      ensures Ends(project, act.request, effort, Found(project, start, own, others), own[|own| - 1], Value(), ended)
    {
      hide Run, After, Recorded, AnchorTag, Inv, Woven, Found, Ends, AnswerOf;
      own := before;
      var now := turn;
      if effort.Sent? {
        Meanwhile(others, now, start, own);
        ActedOn(project, start, own, others, Value(), StartPush(act));
        StartPushStep(project, Value(), act);
        inFlight := inFlight + {PushOf(project, act.target)};
        own := own + [Some(StartPush(act))];
        now := now + 1;
      }
      Meanwhile(others, now, start, own);
      ghost var found := Value();
      var pushed := ReportsPushed(project, Value(), act, effort);
      var plan := PlanOf(project, Value(), act, effort, observedAt);
      ghost var step := if pushed then RecordPushed(act, observedAt, at) else RecordFailed(act, effort.reason, observedAt, at);
      if pushed {
        RecordPushedStep(project, found, act, observedAt, at);
      } else {
        RecordFailedStep(project, found, act, effort.reason, observedAt, at);
      }
      ActedOn(project, start, own, others, found, step);
      var reply := Record(act, plan, at);
      own := own + [Some(step)];
      RecordEnds(project, found, act, effort, observedAt, at);
      ended := match reply
        case Recorded(outcome) => Finished(outcome)
        case Replayed(outcome) => LateReplay(outcome, pushed)
        case Error(refusal) => CommandFailed(refusal)
        case _ => assert false; CommandFailed(C.Corrupt);
    }

    /** `open_claims`, looked through for the claim a block names. */
    method OpenClaim(claim: C.Id) returns (holder: Option<C.ClaimDoc>)
      requires R.Inv(store.Value())
      ensures holder.Some? <==> R.IsOpen(store.Value(), claim)
      ensures holder.Some? ==> holder.value == store.requests[claim].doc && holder.value.id == claim
    {
      if claim in store.requests && C.Open(store.requests[claim]) {
        assert R.IsOpen(store.Value(), claim);
        return Some(store.requests[claim].doc);
      }
      holder := None;
    }

    /** A blocking interrupted claim, read, fetched and reconciled: retried
        where that recorded something. */
    method ReconcileHolder(claim: C.Id, reconciling: C.Command, reach: Reach, others: nat -> seq<Step>, turn: nat,
                           ghost request: Request, ghost effort: Effort, ghost start: World, ghost before: seq<Option<Step>>)
      returns (ended: Option<Ended>, ghost own: seq<Option<Step>>)
      requires turn == |before| && Inv(project, start) && Value() == Run(project, start, Woven(before, others))
      requires reconciling.id.kind == ANCHOR_RECONCILE && claim != C.Id(ANCHOR_PUSH, request.id)
      modifies this, store
      ensures before < own && |own| <= |before| + 3 && Value() == Run(project, start, Woven(own, others))
      ensures ended.None? ==> |own| == |before| + 3
      ensures forall later :: |before| <= later < |own| - 1 ==> !Reconciles(own[later])
      ensures forall later :: |before| <= later < |own| ==> own[later].None? || !own[later].value.Claim?
      ensures forall later :: |before| <= later < |own| ==> AsReached(reach, own[later])
      ensures ended.Some? ==> Ends(project, request, effort, Found(project, start, own, others), own[|own| - 1], Value(), ended.value)
    {
      hide Run, After, Reconciled, AnchorTag, Inv, Woven, Found, Ends, R.Inv, Honest, WasClaimed, Grown;
      Meanwhile(others, turn, start, before);
      ReadOn(project, start, before, others, Value());
      own := before + [None];
      InvIsLedger(project, Value());
      var holder := OpenClaim(claim);
      ReadingEnds(project, request, effort, Value(), claim);
      if holder.None? {
        return Some(ReconcileLost(C.StaleClaim(claim))), own;
      }
      if claim.kind != ANCHOR_PUSH || !holder.value.intent.Anchoring? {
        return Some(LeftBlocked(claim)), own;
      }
      var intent, claimSeq := holder.value.intent, holder.value.sequence;
      var target := Target(intent.sequence, intent.head, intent.remote);
      OpenWasClaimed(Value(), claim);
      ghost var read := Value();
      Meanwhile(others, turn + 1, start, own);
      ReadOn(project, start, own, others, Value());
      own := own + [None];
      var observation := Fetch(target, reach);
      ghost var fetched := Value();
      Meanwhile(others, turn + 2, start, own);
      GrownKeeps(read, fetched, claim, claimSeq, target);
      GrownKeeps(fetched, Value(), claim, claimSeq, target);
      StillHonest(fetched, Value(), target, observation);
      ghost var found := Value();
      ghost var step := Step.Reconcile(reconciling, claim, claimSeq, target, observation);
      ReconcileStepOf(project, found, reconciling, claim, claimSeq, target, observation);
      ActedOn(project, start, own, others, found, step);
      InvIsLedger(project, found);
      ReconcileEnds(project, request, effort, found, reconciling, claim, claimSeq, target, observation);
      var answer := ReconcileFrom(reconciling, claim, claimSeq, target, observation);
      own := own + [Some(step)];
      ended := EndOfReconcile(claim, answer);
    }

    /** `anchor_command`, with others acting before each of its actions: it
        claims, and a block by an interrupted anchor claim makes it look at
        that claim's tag, record what it saw and claim again, but only the
        first time. */
    method AnchorCommand(request: Request, reconciling: C.Command, reach: Reach, effort: Effort, times: nat -> int,
                         others: nat -> seq<Step>)
      returns (ended: Ended, ghost own: seq<Option<Step>>)
      requires Inv(project, Value()) && reconciling.id.kind == ANCHOR_RECONCILE
      modifies this, store
      ensures own != [] && |own| <= 7 && ReconcilesOnce(own)
      ensures Value() == Run(project, old(Value()), Woven(own, others)) && Inv(project, Value())
      ensures own[0] == Some(Step.Claim(request, times(0)))
      ensures forall at :: 0 <= at < |own| ==> AsReached(reach, own[at])
      ensures Records(own[|own| - 1]) || TookNone(project, old(Value()), own, others)
      ensures Ends(project, request, effort, Found(project, old(Value()), own, others), own[|own| - 1], Value(), ended)
    {
      hide Run, After, Inv, Claimed, Woven, Found, Ends, Reconciles, AsReached, Grown, R.Inv, C.TakeClaim, TookNone, Records, AnswerOf,
           ClaimDecisionOf, EndOfClaim;
      ghost var start := Value();
      own := [];
      NothingWoven(project, start, others);
      var retried := false;
      while true
        invariant Value() == Run(project, start, Woven(own, others))
        invariant |own| == (if retried then 4 else 0) && TookNone(project, start, own, others)
        invariant own != [] ==> own[0] == Some(Step.Claim(request, times(0)))
        invariant forall at :: 0 <= at < |own| ==> AsReached(reach, own[at])
        invariant forall at :: 0 <= at < |own| - 1 ==> !Reconciles(own[at])
        decreases !retried
      {
        var turn := if retried then 4 else 0;
        var at := times(turn);
        Meanwhile(others, turn, start, own);
        ghost var found, step := Value(), Step.Claim(request, at);
        ClaimStepOf(project, found, request, at);
        ActedOn(project, start, own, others, found, step);
        InvIsLedger(project, found);
        ClaimEnds(project, request, effort, found, at);
        ClaimIsNoReconciliation(step, reach);
        ghost var before, claimed := own, own + [Some(step)];
        var reply, act := ClaimStep(request, at);
        own := claimed;
        if act.Some? {
          ended, own := ActAndRecord(act.value, effort, times(5), times(6), others, turn + 1, start, claimed);
          OthersAreAsReached(own, |claimed|, reach);
          RunKeeps(project, start, Woven(own, others));
          return;
        }
        RunKeeps(project, start, Woven(own, others));
        NotTaken(project, start, before, others, found, step);
        TookNoneOn(project, start, before, own, others);
        if !(reply.Error? && reply.refusal.Blocked?) || retried || !reply.refusal.state.Interrupted? {
          ended := EndOfClaim(reply);
          return;
        }
        var reconciled;
        reconciled, own := ReconcileHolder(reply.refusal.id, reconciling, reach, others, turn + 1, request, effort, start, claimed);
        TookNoneOn(project, start, claimed, own, others);
        if reconciled.Some? {
          RunKeeps(project, start, Woven(own, others));
          ended := reconciled.value;
          return;
        }
        retried := true;
      }
    }
  }

  /** How a command ends at its claim step, unless the claim was taken. */
  function EndOfClaim(reply: C.Reply): Ended {
    match reply
    case Replayed(outcome) => AlreadyDone(outcome)
    case InProgress(running) => StillRunning(running)
    case Recorded(outcome) => TurnedDown(outcome)
    case Error(refusal) => if refusal.Blocked? then LeftBlocked(refusal.id) else CommandFailed(refusal)
    case ClaimTaken(_) => CommandFailed(C.Corrupt)
  }

  /** How it ends at a reconciliation, unless that recorded something. */
  function EndOfReconcile(claim: C.Id, answer: Option<C.Reply>): Option<Ended> {
    if answer.None? then Some(RemoteUnknown(claim))
    else if answer.value.Error? then
      var refusal := answer.value.refusal;
      Some(if refusal.StaleClaim? || refusal.StillActive? || refusal.AwaitsOwner? then ReconcileLost(refusal) else CommandFailed(refusal))
    else None
  }

  // ----- weaving -----

  lemma NothingWoven(project: string, world: World, others: nat -> seq<Step>)
    ensures Run(project, world, Woven([], others)) == world && TookNone(project, world, [], others)
  {
    NoSteps(project, world);
  }

  /** One more step of its own, from the world it found. */
  lemma ActedOn(project: string, start: World, own: seq<Option<Step>>, others: nat -> seq<Step>, found: World, step: Step)
    requires found == Run(project, start, Woven(own, others) + others(|own|))
    ensures Run(project, start, Woven(own + [Some(step)], others)) == After(project, found, step)
    ensures Found(project, start, own + [Some(step)], others) == found
  {
    hide Run, After;
    var more := own + [Some(step)];
    assert more[..|own|] == own && more[|own|] == Some(step);
    RunAppends(project, start, Woven(own, others) + others(|own|), step);
  }

  lemma ReadOn(project: string, start: World, own: seq<Option<Step>>, others: nat -> seq<Step>, found: World)
    requires found == Run(project, start, Woven(own, others) + others(|own|))
    ensures Run(project, start, Woven(own + [None], others)) == found && Found(project, start, own + [None], others) == found
  {
    hide Run;
    var more: seq<Option<Step>> := own + [None];
    assert more[..|own|] == own && more[|own|] == None;
    assert Woven(more, others) == Woven(own, others) + others(|own|);
  }

  /** The chain, the tags and the owners acting only grow. */
  ghost predicate Grown(world: World, next: World) {
    && world.ledger.chain <= next.ledger.chain && world.acts <= next.acts
    && forall key :: key in world.remotes ==> key in next.remotes && next.remotes[key] == world.remotes[key]
  }

  lemma StepsGrow(project: string, world: World, step: Step)
    ensures Grown(world, After(project, world, step))
  {
    hide Claimed, Recorded, Reconciled, R.After, AnchorTag, Honest, WasClaimed, IsOther;
    match step
    case Claim(request, at) => ClaimGrows(world, request, at);
    case RecordPushed(act, observedAt, at) => RecordGrows(project, world, act, PushedPlan(project, act.target, observedAt), at);
    case RecordFailed(act, reason, observedAt, at) => RecordGrows(project, world, act, FailedPlan(project, act.target, reason, observedAt), at);
    case Reconcile(command, claim, claimSeq, target, observation) =>
      ReconcileGrows(project, world, command, claim, claimSeq, target, observation);
    case Other(step) =>
      if IsOther(step) {
        OtherStepsGrow(world.ledger, step);
      }
    case _ =>
  }

  lemma ClaimGrows(world: World, request: Request, at: int)
    ensures Grown(world, Claimed(world, request, at))
  {
    hide C.TurnOf, C.PutTokens, C.DropTokens;
  }

  lemma RecordGrows(project: string, world: World, act: Act, plan: Plan, at: int)
    ensures Grown(world, Recorded(project, world, act, plan, at).0)
  {
    hide C.TurnOf, C.DropTokens, Staged;
  }

  lemma ReconcileGrows(project: string, world: World, command: C.Command, claim: C.Id, claimSeq: nat, target: Target,
                       observation: Observation)
    ensures Grown(world, Reconciled(project, world, command, claim, claimSeq, target, observation).0)
  {
    hide C.TurnOf, C.StateOf, C.DropTokens, Staged, ReconcilePlan;
  }

  lemma {:induction false} RunsGrow(project: string, world: World, steps: seq<Step>)
    ensures Grown(world, Run(project, world, steps))
    decreases |steps|
  {
    hide After;
    if steps != [] {
      StepsGrow(project, world, steps[0]);
      RunsGrow(project, After(project, world, steps[0]), steps[1..]);
    }
  }

  lemma GrownKeeps(world: World, next: World, claim: C.Id, claimSeq: nat, target: Target)
    requires Grown(world, next) && WasClaimed(world.ledger.chain, claim, claimSeq, target)
    ensures WasClaimed(next.ledger.chain, claim, claimSeq, target)
  {
  }

  lemma StillHonest(world: World, next: World, target: Target, observation: Observation)
    requires Grown(world, next) && Honest(world, target, observation)
    ensures Honest(next, target, observation)
  {
  }

  lemma OpenWasClaimed(world: World, claim: C.Id)
    requires R.Inv(world.ledger) && R.IsOpen(world.ledger, claim) && claim.kind == ANCHOR_PUSH
    requires world.ledger.requests[claim].doc.intent.Anchoring?
    ensures var doc := world.ledger.requests[claim].doc;
            WasClaimed(world.ledger.chain, claim, doc.sequence, Target(doc.intent.sequence, doc.intent.head, doc.intent.remote))
  {
  }

  // ----- endings -----

  lemma ReadingEnds(project: string, request: Request, effort: Effort, found: World, claim: C.Id)
    requires claim != C.Id(ANCHOR_PUSH, request.id)
    ensures Ends(project, request, effort, found, None, found,
                 if R.IsOpen(found.ledger, claim) then LeftBlocked(claim) else ReconcileLost(C.StaleClaim(claim)))
  {
  }

  /** What a record step answers. */
  lemma CompleteReplies(ledger: C.Ledger, command: C.Command, owner: C.Owner, decision: C.Decision)
    ensures var (next, reply) := C.Complete(ledger, command, owner, decision);
            && (reply.Recorded? ==> R.IsOpen(ledger, command.id) && Done(next, command.id) && decision.Decided?
                                    && reply.outcome == decision.outcome && next.requests[command.id].outcome == reply.outcome)
            && (reply.Replayed? ==> next == ledger && Done(ledger, command.id) && reply.outcome == DoneOutcome(ledger, command.id))
            && (reply.Error? ==> next == ledger)
            && (reply.Recorded? || reply.Replayed? || reply.Error?)
  {
    hide C.ScopeBlock, C.StateOf, C.DropTokens, C.Replayable;
  }

  lemma RecordEnds(project: string, found: World, act: Act, effort: Effort, observedAt: int, at: int)
    requires act in found.acts
    ensures var plan := PlanOf(project, found, act, effort, observedAt);
            var (next, reply) := Recorded(project, found, act, plan, at);
            var pushed := ReportsPushed(project, found, act, effort);
            var step := if pushed then RecordPushed(act, observedAt, at) else RecordFailed(act, effort.reason, observedAt, at);
            match reply
            case Recorded(outcome) => Ends(project, act.request, effort, found, Some(step), next, Finished(outcome))
            case Replayed(outcome) => Ends(project, act.request, effort, found, Some(step), next, LateReplay(outcome, pushed))
            case Error(refusal) => Ends(project, act.request, effort, found, Some(step), next, CommandFailed(refusal))
            case _ => false
  {
    var plan := PlanOf(project, found, act, effort, observedAt);
    var staged := Staged(project, found.anchors, plan);
    var decision := if staged.Some? then C.Decided([plan.event], plan.outcome) else C.Fails;
    CompleteReplies(found.ledger, PushCommand(act.request, at), act.request.owner, decision);
    RecordAnswer(project, found, act, effort, observedAt, at);
    RecordStepsWriteWhatCame(project, found, act, ReportsPushed(project, found, act, effort), effort.reason, observedAt, at);
    assert plan == if ReportsPushed(project, found, act, effort) then PushedPlan(project, act.target, observedAt)
                   else FailedPlan(project, act.target, effort.reason, observedAt);
    hide C.Complete, PlanOf, Staged, ReportsPushed, AnswerOf, PushedPlan, FailedPlan, RecordedEvents;
    var (next, reply) := Recorded(project, found, act, plan, at);
    if reply.Recorded? {
      assert RecordedBy(project, act.request, effort, found, next, reply.outcome, act, observedAt, at);
    }
  }

  lemma RecordAnswer(project: string, found: World, act: Act, effort: Effort, observedAt: int, at: int)
    ensures var step := if ReportsPushed(project, found, act, effort) then RecordPushed(act, observedAt, at)
                        else RecordFailed(act, effort.reason, observedAt, at);
            AnswerOf(project, found, step)
            == Some(Recorded(project, found, act, PlanOf(project, found, act, effort, observedAt), at).1)
  {
    hide Recorded, ReportsPushed;
  }

  /** What a claim step answers. */
  lemma TakeReplies(ledger: C.Ledger, command: C.Command, decision: C.ClaimDecision)
    requires R.Inv(ledger)
    ensures var (next, reply) := C.TakeClaim(ledger, command, decision);
            && (reply.ClaimTaken? ==> decision.Take?)
            && (reply.Recorded? ==> decision.Refuse? && command.id !in ledger.requests && Done(next, command.id)
                                    && reply.outcome == decision.outcome && next.requests[command.id].outcome == reply.outcome)
            && (reply.Replayed? ==> next == ledger && Done(ledger, command.id) && reply.outcome == DoneOutcome(ledger, command.id))
            && (reply.InProgress? ==> next == ledger && R.IsOpen(ledger, command.id) && reply.request == ledger.requests[command.id])
            && (reply.Error? ==> next == ledger && (reply.refusal.Blocked? ==>
                                                                     reply.refusal.id != command.id && R.IsOpen(ledger, reply.refusal.id)))
  {
    ClaimTurns(ledger, command);
    hide R.Inv, C.TurnOf, C.DropTokens, C.PutTokens, C.Replayable;
  }

  /** Where the turn does not go ahead with a claim. */
  lemma ClaimTurns(ledger: C.Ledger, command: C.Command)
    requires R.Inv(ledger)
    ensures match C.TurnOf(ledger, command, C.Claiming)
            case Proceed => command.id !in ledger.requests
            case Answered(outcome) => Done(ledger, command.id) && outcome == DoneOutcome(ledger, command.id)
            case Running(request) => R.IsOpen(ledger, command.id) && request == ledger.requests[command.id]
            case Refused(refusal) => refusal.Blocked? ==> refusal.id != command.id && R.IsOpen(ledger, refusal.id)
  {
    R.ScopesExclude(ledger, command.scope, None, command.recordedAt);
    hide R.Inv, C.LowestHolder, C.StateOf, C.Replayable, C.ScopeBlock;
  }

  lemma ClaimAnswer(project: string, found: World, request: Request, at: int)
    ensures AnswerOf(project, found, Step.Claim(request, at))
            == Some(C.TakeClaim(found.ledger, PushCommand(request, at), ClaimDecisionOf(found.ledger.chain, request)).1)
  {
    hide C.TakeClaim;
  }

  lemma ClaimEnds(project: string, request: Request, effort: Effort, found: World, at: int)
    requires R.Inv(found.ledger)
    ensures var reply := C.TakeClaim(found.ledger, PushCommand(request, at), ClaimDecisionOf(found.ledger.chain, request)).1;
            && (reply.ClaimTaken? ==> request.remote.Some? && found.ledger.chain != [])
            && (!reply.ClaimTaken? ==> Ends(project, request, effort, found, Some(Step.Claim(request, at)), Claimed(found, request, at), EndOfClaim(reply)))
            && (reply.Error? && reply.refusal.Blocked? ==> reply.refusal.id != C.Id(ANCHOR_PUSH, request.id))
            && AnswerOf(project, found, Step.Claim(request, at)) == Some(reply)
  {
    TakeReplies(found.ledger, PushCommand(request, at), ClaimDecisionOf(found.ledger.chain, request));
    ClaimAnswer(project, found, request, at);
    hide C.TakeClaim, DoneOutcome, R.Inv, R.IsOpen, RecordedBy, ReportsPushed, AnswerOf;
  }

  /** What a refused reconciliation answers. */
  lemma ReconcileReplies(ledger: C.Ledger, command: C.Command, claim: C.Id, resolution: C.Resolution)
    requires R.Inv(ledger)
    ensures var (next, reply) := C.Reconcile(ledger, command, claim, false, resolution);
            reply.Error? ==> next == ledger && (reply.refusal.StaleClaim? ==> !R.IsOpen(ledger, reply.refusal.id))
  {
    R.ScopesExclude(ledger, command.scope, Some(claim), command.recordedAt);
    hide R.Inv, C.LowestHolder, C.StateOf, C.Resolve, C.Replayable, C.ScopeBlock;
  }

  lemma ReconciledReplies(project: string, found: World, command: C.Command, claim: C.Id, claimSeq: nat, target: Target,
                          observation: Observation)
    requires R.Inv(found.ledger)
    ensures var (next, answer) := Reconciled(project, found, command, claim, claimSeq, target, observation);
            && (answer.None? || answer.value.Error? ==> next == found)
            && (answer.None? ==> observation.NoRemote? || observation.Unreachable?)
            && (answer.Some? && answer.value.Error? && answer.value.refusal.StaleClaim? ==>
                  !R.IsOpen(found.ledger, answer.value.refusal.id))
  {
    UnaskedRemotesPlanNothing(project, target, observation, command.recordedAt);
    hide C.Reconcile, ReconcilePlan, Staged, R.Inv, R.IsOpen;
    var planned := ReconcilePlan(project, target, observation, command.recordedAt);
    if planned.Some? {
      ReconcileReplies(found.ledger, command, claim, C.Resolved([planned.value.event], planned.value.outcome));
      ReconcileReplies(found.ledger, command, claim, C.ReconcileFails);
    }
  }

  lemma ReconcileEnds(project: string, request: Request, effort: Effort, found: World, command: C.Command, claim: C.Id, claimSeq: nat,
                      target: Target, observation: Observation)
    requires R.Inv(found.ledger)
    requires WasClaimed(found.ledger.chain, claim, claimSeq, target) && claim != C.Id(ANCHOR_PUSH, request.id)
    ensures var (next, answer) := Reconciled(project, found, command, claim, claimSeq, target, observation);
            EndOfReconcile(claim, answer).Some? ==>
              Ends(project, request, effort, found, Some(Step.Reconcile(command, claim, claimSeq, target, observation)), next,
                   EndOfReconcile(claim, answer).value)
  {
    ReconciledReplies(project, found, command, claim, claimSeq, target, observation);
    assert claim.kind == ANCHOR_PUSH;
    hide *;
    var step := Step.Reconcile(command, claim, claimSeq, target, observation);
    ReconcileAnswer(project, found, step);
    UnresolvedEnds(project, request, effort, found, claim, step,
                   Reconciled(project, found, command, claim, claimSeq, target, observation).1);
  }

  lemma ReconcileAnswer(project: string, found: World, step: Step)
    requires step.Reconcile?
    ensures AnswerOf(project, found, step)
            == Reconciled(project, found, step.command, step.claim, step.claimSeq, step.target, step.observation).1
  {
    hide Reconciled;
  }

  lemma UnresolvedEnds(project: string, request: Request, effort: Effort, found: World, claim: C.Id, step: Step, answer: Option<C.Reply>)
    requires claim.kind == ANCHOR_PUSH && claim != C.Id(ANCHOR_PUSH, request.id)
    requires step.Reconcile? && step.claim == claim && AnswerOf(project, found, step) == answer
    requires answer.None? ==> step.observation.NoRemote? || step.observation.Unreachable?
    requires answer.Some? && answer.value.Error? && answer.value.refusal.StaleClaim? ==> !R.IsOpen(found.ledger, answer.value.refusal.id)
    ensures EndOfReconcile(claim, answer).None? <==> answer.Some? && !answer.value.Error?
    ensures EndOfReconcile(claim, answer).Some? ==>
              Ends(project, request, effort, found, Some(step), found, EndOfReconcile(claim, answer).value)
  {
    hide R.IsOpen, RecordedBy, ReportsPushed, DoneOutcome, Done, AnswerOf;
  }

  /** What its earlier claims came to does not change as it goes on. */
  lemma TookNoneOn(project: string, world: World, own: seq<Option<Step>>, more: seq<Option<Step>>, others: nat -> seq<Step>)
    requires TookNone(project, world, own, others) && own <= more
    requires forall later: nat :: |own| <= later < |more| ==> !TookClaim(project, world, more, others, later)
    ensures TookNone(project, world, more, others)
  {
    hide Found, AnswerOf;
    forall at: nat | at < |more| ensures !TookClaim(project, world, more, others, at) {
      if at < |own| {
        assert !TookClaim(project, world, own, others, at);
        assert own[..at + 1] == more[..at + 1];
      }
    }
  }

  lemma NotTaken(project: string, world: World, own: seq<Option<Step>>, others: nat -> seq<Step>, found: World, step: Step)
    requires step.Claim? && Found(project, world, own + [Some(step)], others) == found
    requires !AnswerOf(project, found, step).value.ClaimTaken?
    ensures !TookClaim(project, world, own + [Some(step)], others, |own|)
  {
    hide Found, AnswerOf;
    assert (own + [Some(step)])[..|own| + 1] == own + [Some(step)];
  }

  lemma ClaimIsNoReconciliation(step: Step, reach: Reach)
    requires step.Claim?
    ensures !Reconciles(Some(step)) && AsReached(reach, Some(step))
  {
  }

  lemma OthersAreAsReached(own: seq<Option<Step>>, from: nat, reach: Reach)
    requires forall at :: from <= at < |own| ==> !Reconciles(own[at])
    ensures forall at :: from <= at < |own| ==> AsReached(reach, own[at])
  {
  }

  // ----- single steps of the protocol -----

  lemma NoSteps(project: string, world: World)
    ensures Run(project, world, []) == world
  {
    hide After;
  }

  lemma {:induction false} RunJoins(project: string, world: World, steps: seq<Step>, more: seq<Step>)
    ensures Run(project, world, steps + more) == Run(project, Run(project, world, steps), more)
    decreases |steps|
  {
    hide After;
    if steps == [] {
      assert [] + more == more;
    } else {
      assert (steps + more)[1..] == steps[1..] + more;
      RunJoins(project, After(project, world, steps[0]), steps[1..], more);
    }
  }

  lemma RunAppends(project: string, world: World, steps: seq<Step>, step: Step)
    ensures Run(project, world, steps + [step]) == After(project, Run(project, world, steps), step)
  {
    hide After;
    RunJoins(project, world, steps, [step]);
    assert [step][1..] == [];
    NoSteps(project, After(project, Run(project, world, steps), step));
  }

  lemma ClaimStepOf(project: string, world: World, request: Request, at: int)
    ensures After(project, world, Step.Claim(request, at)) == Claimed(world, request, at)
    ensures Claimed(world, request, at).remotes == world.remotes
  {
    hide C.TakeClaim;
  }

  lemma StartPushStep(project: string, world: World, act: Act)
    requires act in world.acts
    ensures After(project, world, StartPush(act)) == world.(inFlight := world.inFlight + {PushOf(project, act.target)})
  {
    hide AnchorTag;
  }

  lemma RecordFailedStep(project: string, world: World, act: Act, reason: string, observedAt: int, at: int)
    requires act in world.acts
    ensures After(project, world, RecordFailed(act, reason, observedAt, at))
            == Recorded(project, world, act, FailedPlan(project, act.target, reason, observedAt), at).0
  {
    hide Recorded, FailedPlan;
  }

  lemma RecordPushedStep(project: string, world: World, act: Act, observedAt: int, at: int)
    requires act in world.acts && Holds(world, PushOf(project, act.target))
    ensures After(project, world, RecordPushed(act, observedAt, at))
            == Recorded(project, world, act, PushedPlan(project, act.target, observedAt), at).0
  {
    hide Recorded, PushedPlan;
  }

  lemma ReconcileStepOf(project: string, world: World, command: C.Command, claim: C.Id, claimSeq: nat, target: Target,
                        observation: Observation)
    requires command.id.kind == ANCHOR_RECONCILE && WasClaimed(world.ledger.chain, claim, claimSeq, target)
    requires Honest(world, target, observation)
    ensures After(project, world, Step.Reconcile(command, claim, claimSeq, target, observation))
            == Reconciled(project, world, command, claim, claimSeq, target, observation).0
  {
    hide Reconciled;
  }
}
