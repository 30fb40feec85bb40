/** Anchoring the chain's head as a tag at a remote: claim, push, record, and
    reconciliation of an interrupted push (crates/baley-core/src/anchor.rs,
    reconcile.rs and forge.rs, and `stage_anchor` of
    crates/baley-store-sqlite/src/transact.rs). */
module Anchors {
  import opened Wrappers
  import C = Claims
  import Decimal

  const ANCHOR_PUSH := "anchor.push"
  const ANCHOR_RECONCILE := "anchor.reconcile"
  const ANCHOR_SCOPE := "anchor"
  const ANCHOR_TAG_PREFIX := "baley-anchor/"

  datatype Anchor = Anchor(sequence: nat, hash: C.Hash)

  /** What one claim anchors: the head before it, and the remote. */
  datatype Target = Target(sequence: nat, head: C.Hash, remote: string)

  /** An `anchor` row. */
  datatype StoredAnchor = StoredAnchor(hash: C.Hash, tag: string, pushedAt: int)

  /** What a remote tag's annotation says. */
  datatype Annotation = Names(anchor: Anchor) | Malformed

  function HashAt(chain: seq<C.Event>, sequence: nat): C.Hash
    requires sequence <= |chain|
  {
    C.Hash(chain[..sequence])
  }

  // ----- tags -----

  function AnchorTag(project: string, sequence: nat): string {
    ANCHOR_TAG_PREFIX + (project + ("/" + Decimal.Natural(sequence)))
  }

  function TagSequence(project: string, tag: string): Option<nat> {
    match Decimal.StripPrefix(tag, ANCHOR_TAG_PREFIX)
    case None => None
    case Some(named) =>
      match Decimal.StripPrefix(named, project)
      case None => None
      case Some(slashed) =>
        match Decimal.StripPrefix(slashed, "/")
        case None => None
        case Some(digits) =>
          match Decimal.ParseUnsigned(digits, Decimal.U64_MAX)
          case None => None
          case Some(sequence) => if Decimal.Natural(sequence) == digits then Some(sequence) else None
  }

  lemma Stripped(prefix: string, rest: string)
    ensures Decimal.StripPrefix(prefix + rest, prefix) == Some(rest)
  {
    assert (prefix + rest)[|prefix|..] == rest;
  }

  lemma StrippedFrom(text: string, prefix: string)
    requires Decimal.StripPrefix(text, prefix).Some?
    ensures text == prefix + Decimal.StripPrefix(text, prefix).value
  {
  }

  /** A tag names a sequence exactly when it is that sequence's anchor tag. */
  lemma TagsNameTheirSequence(project: string, tag: string, sequence: nat)
    ensures TagSequence(project, tag) == Some(sequence)
            <==> sequence <= Decimal.U64_MAX && tag == AnchorTag(project, sequence)
  {
    var digits := Decimal.Natural(sequence);
    if sequence <= Decimal.U64_MAX && tag == AnchorTag(project, sequence) {
      Stripped(ANCHOR_TAG_PREFIX, project + ("/" + digits));
      Stripped(project, "/" + digits);
      Stripped("/", digits);
      Decimal.ParseNatural(sequence, Decimal.U64_MAX);
    }
    if TagSequence(project, tag) == Some(sequence) {
      var named := Decimal.StripPrefix(tag, ANCHOR_TAG_PREFIX).value;
      var slashed := Decimal.StripPrefix(named, project).value;
      StrippedFrom(tag, ANCHOR_TAG_PREFIX);
      StrippedFrom(named, project);
      StrippedFrom(slashed, "/");
      ParsedFits(digits);
    }
  }

  lemma ParsedFits(digits: string)
    ensures match Decimal.ParseUnsigned(digits, Decimal.U64_MAX)
            case None => true
            case Some(sequence) => sequence <= Decimal.U64_MAX
  {
  }

  /** The anchor a fetched tag holds: its name and annotation agree. */
  function ParseTagAnchor(project: string, tag: string, annotation: Annotation): Option<Anchor> {
    if annotation.Malformed? then None
    else if TagSequence(project, tag) == Some(annotation.anchor.sequence) then Some(annotation.anchor)
    else None
  }

  // ----- the claim -----

  datatype Request = Request(id: string, owner: C.Owner, remote: Option<string>, digest: string)

  function PushCommand(request: Request, at: int): C.Command {
    C.Command(C.Id(ANCHOR_PUSH, request.id), request.digest, [ANCHOR_SCOPE], at, false, false)
  }

  /** `anchor_claim_decision` over the head read inside the claim. */
  function ClaimDecisionOf(chain: seq<C.Event>, request: Request): C.ClaimDecision {
    if request.remote.None? then C.Refuse([], C.Outcome(false, C.Inline("no-remote")))
    else if chain == [] then C.Refuse([], C.Outcome(false, C.Inline("empty-chain")))
    else C.Take([], C.Anchoring(|chain|, HashAt(chain, |chain|), request.remote.value), request.owner)
  }

  // ----- what a record step writes -----

  datatype Row = Row(anchor: Anchor, tag: string, remote: string, observedAt: int)

  datatype Plan = Plan(event: C.Payload, row: Option<Row>, outcome: C.Outcome)

  function PushedPlan(project: string, target: Target, at: int): Plan {
    var tag := AnchorTag(project, target.sequence);
    Plan(C.AnchorPushed(tag, target.sequence, target.head, target.remote, at),
         Some(Row(Anchor(target.sequence, target.head), tag, target.remote, at)),
         C.Outcome(true, C.Inline("anchored")))
  }

  function FailedPlan(project: string, target: Target, reason: string, at: int): Plan {
    Plan(C.AnchorFailed(AnchorTag(project, target.sequence), target.sequence, target.head, target.remote, at, reason), None,
         C.Outcome(false, C.Inline(reason)))
  }

  /** `stage_anchor`: the rows with this one staged, or `None` where it is
      refused. */
  function StageAnchor(project: string, anchors: map<nat, StoredAnchor>, events: seq<C.Payload>, row: Row)
    : Option<map<nat, StoredAnchor>>
  {
    var sequence := row.anchor.sequence;
    var stored := StoredAnchor(row.anchor.hash, row.tag, row.observedAt);
    if row.tag != AnchorTag(project, sequence) then None
    else if C.AnchorPushed(row.tag, sequence, row.anchor.hash, row.remote, row.observedAt) !in events then None
    else if sequence in anchors then if anchors[sequence] == stored then Some(anchors) else None
    else Some(anchors[sequence := stored])
  }

  function Staged(project: string, anchors: map<nat, StoredAnchor>, plan: Plan): Option<map<nat, StoredAnchor>> {
    if plan.row.None? then Some(anchors) else StageAnchor(project, anchors, [plan.event], plan.row.value)
  }

  // ----- observations -----

  datatype Observation = Present(tag: string, annotation: Annotation) | Absent | NoRemote | Unreachable

  datatype RemoteTag = TagPresent(anchor: Option<Anchor>) | TagAbsent | TagUnreachable

  datatype Finding = Anchored | Conflicting | NotPushed | Unknown

  /** `fetch_observation_to_remote_tag`. */
  function RemoteTagOf(project: string, tag: string, observation: Observation): RemoteTag {
    match observation
    case Present(found, annotation) => TagPresent(if found == tag then ParseTagAnchor(project, found, annotation) else None)
    case Absent => TagAbsent
    case _ => TagUnreachable
  }

  /** `judge_anchor`. */
  function JudgeAnchor(target: Target, remote: RemoteTag): Finding {
    match remote
    case TagPresent(anchor) => if anchor == Some(Anchor(target.sequence, target.head)) then Anchored else Conflicting
    case TagAbsent => NotPushed
    case TagUnreachable => Unknown
  }

  /** A reconciliation finds the claim anchored exactly when the tag it asked
      for is present and names the claimed head. */
  lemma OnlyTheClaimedHeadIsAnchored(project: string, target: Target, observation: Observation)
    requires target.sequence <= Decimal.U64_MAX
    ensures JudgeAnchor(target, RemoteTagOf(project, AnchorTag(project, target.sequence), observation)) == Anchored
            <==> observation == Present(AnchorTag(project, target.sequence), Names(Anchor(target.sequence, target.head)))
  {
    TagsNameTheirSequence(project, AnchorTag(project, target.sequence), target.sequence);
    hide AnchorTag, TagSequence;
  }

  function AbsenceReason(tag: string): string {
    "the remote confirmed " + tag + " absent"
  }

  function DisagreementReason(tag: string): string {
    "the remote tag " + tag + " does not name the claimed head"
  }

  /** What a reconciliation records, or `None` when the remote's state is
      unknown. */
  function ReconcilePlan(project: string, target: Target, observation: Observation, at: int): Option<Plan> {
    match JudgeAnchor(target, RemoteTagOf(project, AnchorTag(project, target.sequence), observation))
    case Anchored => Some(PushedPlan(project, target, at))
    case Conflicting => Some(FailedPlan(project, target, DisagreementReason(AnchorTag(project, target.sequence)), at))
    case NotPushed => Some(FailedPlan(project, target, AbsenceReason(AnchorTag(project, target.sequence)), at))
    case Unknown => None
  }

  /** The remote shows the claim's own tag, naming the claimed head. */
  predicate ShowsTheClaim(project: string, target: Target, observation: Observation) {
    observation == Present(AnchorTag(project, target.sequence), Names(Anchor(target.sequence, target.head)))
  }

  lemma UnaskedRemotesPlanNothing(project: string, target: Target, observation: Observation, at: int)
    ensures ReconcilePlan(project, target, observation, at).None? <==> observation.NoRemote? || observation.Unreachable?
  {
    hide AnchorTag, ParseTagAnchor;
  }

  /** A remote that could not be asked is never taken for one that answered:
      nothing is planned exactly where there is no remote or no way to it; a push
      is recorded exactly for the claim's own tag on the claimed head; a failure
      exactly for a confirmed absence, or for any other tag. */
  lemma ObservationsDecideThePlan(project: string, target: Target, observation: Observation, at: int)
    requires target.sequence <= Decimal.U64_MAX
    ensures ReconcilePlan(project, target, observation, at).None? <==> observation.NoRemote? || observation.Unreachable?
    ensures var tag := AnchorTag(project, target.sequence);
            var planned := ReconcilePlan(project, target, observation, at);
            && (ShowsTheClaim(project, target, observation) ==>
                  planned == Some(Plan(C.AnchorPushed(tag, target.sequence, target.head, target.remote, at),
                                       Some(Row(Anchor(target.sequence, target.head), tag, target.remote, at)),
                                       C.Outcome(true, C.Inline("anchored")))))
            && (observation.Absent? ==>
                  var reason := "the remote confirmed " + tag + " absent";
                  planned == Some(Plan(C.AnchorFailed(tag, target.sequence, target.head, target.remote, at, reason), None,
                                       C.Outcome(false, C.Inline(reason)))))
            && (observation.Present? && !ShowsTheClaim(project, target, observation) ==>
                  var reason := "the remote tag " + tag + " does not name the claimed head";
                  planned == Some(Plan(C.AnchorFailed(tag, target.sequence, target.head, target.remote, at, reason), None,
                                       C.Outcome(false, C.Inline(reason)))))
  {
    OnlyTheClaimedHeadIsAnchored(project, target, observation);
    hide AnchorTag, ParseTagAnchor;
  }

  // ----- the protocol -----

  /** A claim whose owner is acting. */
  datatype Act = Act(request: Request, claimSeq: nat, target: Target)

  datatype Push = Push(remote: string, tag: string, anchor: Anchor)

  /** The ledger, its anchor rows, the remotes' tags, pushes on their way, and
      the owners acting on a claim. */
  datatype World = World(
    ledger: C.Ledger, anchors: map<nat, StoredAnchor>, remotes: map<(string, string), Annotation>, inFlight: set<Push>,
    acts: set<Act>)

  /** `claim_step`. */
  function Claimed(world: World, request: Request, at: int): World {
    var (ledger, reply) := C.TakeClaim(world.ledger, PushCommand(request, at), ClaimDecisionOf(world.ledger.chain, request));
    if reply.ClaimTaken? && request.remote.Some? && world.ledger.chain != [] then
      var target := Target(|world.ledger.chain|, HashAt(world.ledger.chain, |world.ledger.chain|), request.remote.value);
      world.(ledger := ledger, acts := world.acts + {Act(request, reply.sequence, target)})
    else world.(ledger := ledger)
  }

  /** A tag once made is never changed. */
  function Landed(world: World, push: Push): World {
    if (push.remote, push.tag) in world.remotes then world
    else world.(remotes := world.remotes[(push.remote, push.tag) := Names(push.anchor)])
  }

  predicate Holds(world: World, push: Push) {
    (push.remote, push.tag) in world.remotes && world.remotes[(push.remote, push.tag)] == Names(push.anchor)
  }

  function PushOf(project: string, target: Target): Push {
    Push(target.remote, AnchorTag(project, target.sequence), Anchor(target.sequence, target.head))
  }

  /** `record`: the owner completes its claim with what it observed. */
  function Recorded(project: string, world: World, act: Act, plan: Plan, at: int): (World, C.Reply) {
    var staged := Staged(project, world.anchors, plan);
    var decision := if staged.Some? then C.Decided([plan.event], plan.outcome) else C.Fails;
    var (ledger, reply) := C.Complete(world.ledger, PushCommand(act.request, at), act.request.owner, decision);
    (world.(ledger := ledger, anchors := if reply.Recorded? && staged.Some? then staged.value else world.anchors), reply)
  }

  /** `reconcile_from_observation` of a claim held at `claimSeq`. */
  function Reconciled(project: string, world: World, command: C.Command, claim: C.Id, claimSeq: nat, target: Target,
                      observation: Observation): (World, Option<C.Reply>)
  {
    match ReconcilePlan(project, target, observation, command.recordedAt)
    case None => (world, None)
    case Some(plan) =>
      var staged := Staged(project, world.anchors, plan);
      var current := claim in world.ledger.requests && C.Open(world.ledger.requests[claim])
                     && world.ledger.requests[claim].doc.sequence == claimSeq;
      var resolution := if staged.Some? && current then C.Resolved([plan.event], plan.outcome) else C.ReconcileFails;
      var (ledger, reply) := C.Reconcile(world.ledger, command, claim, false, resolution);
      (world.(ledger := ledger, anchors := if reply.Recorded? && staged.Some? then staged.value else world.anchors), Some(reply))
  }
}
