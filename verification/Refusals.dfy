/** Replay batches that a projector, or the write at the end, refuses
    (crates/baley-store-sqlite/src/rebuild.rs, `replay`), and the chains that
    no way of cutting batches refuses. */
module Refusals {
  import opened Wrappers
  import opened Views
  import opened Projection
  import opened Fences
  import opened Generations
  import opened GenerationRuns

  predicate Replays(step: Step) {
    step.Replay? || step.Finish? || step.Pin?
  }

  /** The events of a batch at the marker: none only at the head. */
  predicate BatchFits(project: Project, generation: nat, count: nat) {
    && Marked(project).Some? && Marked(project).value.generation == generation && count <= BATCH_EVENTS
    && Marked(project).value.applied + count <= |project.chain|
    && (count == 0 ==> Marked(project).value.applied == |project.chain|)
  }

  ghost predicate Unreplayable(registry: Registry, project: Project, binary: Binary, generation: nat, count: nat) {
    BatchFits(project, generation, count) &&
    var applied := Marked(project).value.applied;
    BatchAll(registry, binary.views, ContentsOf(project, generation), project.chain[applied..applied + count]).None?
  }

  /** A turn of this binary's session read a batch of events and one of its
      projectors, or the write, refused it. */
  ghost predicate BatchRefused(registry: Registry, model: Model, step: Step, binary: Binary) {
    && Replays(step) && model.session.Some? && model.session.value.binary == binary && model.session.value.phase.Building?
    && Unreplayable(registry, model.project, binary, model.session.value.phase.generation, step.count)
  }

  ghost predicate RefusedAt(registry: Registry, model: Model, steps: seq<Step>, at: nat, binary: Binary)
    requires at < |steps|
  {
    BatchRefused(registry, Run(registry, model, steps[..at]), steps[at], binary)
  }

  ghost predicate ReplayRefused(registry: Registry, model: Model, steps: seq<Step>, binary: Binary) {
    exists at: nat | at < |steps| :: RefusedAt(registry, model, steps, at, binary)
  }

  lemma RefusedInPart(registry: Registry, model: Model, left: seq<Step>, right: seq<Step>, at: nat, binary: Binary)
    requires at < |left + right|
    ensures RefusedAt(registry, model, left + right, at, binary)
            <==> if at < |left| then RefusedAt(registry, model, left, at, binary)
                 else RefusedAt(registry, Run(registry, model, left), right, at - |left|, binary)
  {
    hide Run, BatchRefused;
    var steps := left + right;
    if at < |left| {
      assert steps[..at] == left[..at];
    } else {
      assert steps[..at] == left + right[..at - |left|];
      RunSplits(registry, model, left, right[..at - |left|]);
    }
  }

  lemma RefusalsSplit(registry: Registry, model: Model, left: seq<Step>, right: seq<Step>, binary: Binary)
    ensures ReplayRefused(registry, model, left + right, binary)
            <==> ReplayRefused(registry, model, left, binary) || ReplayRefused(registry, Run(registry, model, left), right, binary)
  {
    hide Run, RefusedAt;
    var steps, middle := left + right, Run(registry, model, left);
    if ReplayRefused(registry, model, steps, binary) {
      var at: nat :| at < |steps| && RefusedAt(registry, model, steps, at, binary);
      RefusedInPart(registry, model, left, right, at, binary);
    }
    if ReplayRefused(registry, model, left, binary) {
      var at: nat :| at < |left| && RefusedAt(registry, model, left, at, binary);
      RefusedInPart(registry, model, left, right, at, binary);
    }
    if ReplayRefused(registry, middle, right, binary) {
      var at: nat :| at < |right| && RefusedAt(registry, middle, right, at, binary);
      RefusedInPart(registry, model, left, right, |left| + at, binary);
    }
  }

  lemma NothingRefused(registry: Registry, model: Model, binary: Binary)
    ensures Run(registry, model, []) == model && !ReplayRefused(registry, model, [], binary)
  {
    NoSteps(registry, model);
  }

  /** A run and one more step. */
  lemma StepsAppend(registry: Registry, model: Model, steps: seq<Step>, step: Step, binary: Binary)
    ensures Run(registry, model, steps + [step]) == After(registry, Run(registry, model, steps), step)
    ensures ReplayRefused(registry, model, steps + [step], binary)
            <==> ReplayRefused(registry, model, steps, binary) || BatchRefused(registry, Run(registry, model, steps), step, binary)
    ensures !Replays(step) ==> !BatchRefused(registry, Run(registry, model, steps), step, binary)
  {
    RunAppends(registry, model, steps, step);
    RefusalsSplit(registry, model, steps, [step], binary);
    hide After, Unreplayable;
    var found := Run(registry, model, steps);
    NoSteps(registry, found);
    assert [step][..0] == [];
    assert RefusedAt(registry, found, [step], 0, binary) <==> BatchRefused(registry, found, step, binary);
  }

  /** One replay of the events goes through, and none of them stages a body
      that the write would refuse. */
  ghost predicate Acceptable(registry: Registry, versions: Versions, events: seq<Event>) {
    && Replayed(registry, versions, events).Some?
    && forall view :: view in versions ==>
         AcceptedThroughout(registry.projector(view, versions[view]), map[], map[], Copies(registry, events))
  }

  lemma ViewsAcceptEveryPrefix(registry: Registry, versions: Versions, events: seq<Event>, view: string)
    requires view in versions
    ensures ViewBatch(registry, versions, map[], events, view).Ok?
            && AcceptedThroughout(registry.projector(view, versions[view]), map[], map[], Copies(registry, events))
            <==> forall count: nat :: count <= |events| ==> ViewBatch(registry, versions, map[], events[..count], view).Ok?
  {
    var projector, copies := registry.projector(view, versions[view]), Copies(registry, events);
    EveryPrefixWrites(projector, map[], copies);
    forall count: nat | count <= |events| ensures Copies(registry, events[..count]) == copies[..count] {
    }
    hide Batch, AcceptedThroughout, Copies;
    assert (forall count :: 0 <= count <= |copies| ==> Batch(projector, map[], copies[..count]).Ok?)
      <==> forall count: nat :: count <= |events| ==> ViewBatch(registry, versions, map[], events[..count], view).Ok?;
  }

  /** A chain is acceptable exactly when every prefix of it can be replayed. */
  lemma AcceptableIsEveryPrefix(registry: Registry, versions: Versions, events: seq<Event>)
    ensures Acceptable(registry, versions, events)
            <==> forall count: nat :: count <= |events| ==> Replayed(registry, versions, events[..count]).Some?
  {
    forall view | view in versions
      ensures ViewBatch(registry, versions, map[], events, view).Ok?
              && AcceptedThroughout(registry.projector(view, versions[view]), map[], map[], Copies(registry, events))
              <==> forall count: nat :: count <= |events| ==> ViewBatch(registry, versions, map[], events[..count], view).Ok?
    {
      ViewsAcceptEveryPrefix(registry, versions, events, view);
    }
    hide AcceptedThroughout, ViewBatch;
    assert events[..|events|] == events;
    forall count: nat | count <= |events|
      ensures Replayed(registry, versions, events[..count]).Some?
              <==> forall view :: view in versions ==> ViewBatch(registry, versions, map[], events[..count], view).Ok?
    {
    }
  }

  lemma AcceptablePrefix(registry: Registry, versions: Versions, events: seq<Event>, count: nat)
    requires Acceptable(registry, versions, events) && count <= |events|
    ensures Acceptable(registry, versions, events[..count]) && Replayed(registry, versions, events[..count]).Some?
  {
    hide Acceptable, Replayed;
    AcceptableIsEveryPrefix(registry, versions, events);
    AcceptableIsEveryPrefix(registry, versions, events[..count]);
    forall most: nat | most <= count ensures events[..count][..most] == events[..most] {
    }
  }

  lemma BuiltSoFar(registry: Registry, model: Model)
    requires Inv(registry, model) && model.session.Some? && model.session.value.phase.Building?
    ensures var project, session := model.project, model.session.value;
            && Marked(project).Some? && Marked(project).value.applied <= |project.chain|
            && Replayed(registry, session.binary.views, project.chain[..Marked(project).value.applied])
               == Some(ContentsOf(project, session.phase.generation))
  {
    VersionsOfStamps(model.session.value.binary);
    hide Replayed, Numbered, NumbersGoUp, FencesHold, LiveIsReplay, StampsOf, VersionsOf, RowIds;
  }

  /** No batch of an acceptable chain is refused, however the clock cut the
      batches before it. */
  lemma AcceptableChainsReplay(registry: Registry, model: Model, step: Step, binary: Binary)
    requires Inv(registry, model) && Acceptable(registry, binary.views, model.project.chain)
    ensures !BatchRefused(registry, model, step, binary)
  {
    hide BatchAll, Inv, Acceptable, Replayed;
    var project := model.project;
    if Replays(step) && model.session.Some? && model.session.value.binary == binary && model.session.value.phase.Building?
       && BatchFits(project, model.session.value.phase.generation, step.count) {
      BuiltSoFar(registry, model);
      var applied := Marked(project).value.applied;
      var contents := ContentsOf(project, model.session.value.phase.generation);
      AcceptablePrefix(registry, binary.views, project.chain, applied + step.count);
      ReplayResumes(registry, binary.views, project.chain, applied, step.count, contents);
    }
  }

  lemma {:induction false} ChainsGrow(registry: Registry, model: Model, steps: seq<Step>)
    requires Inv(registry, model)
    ensures model.project.chain <= Run(registry, model, steps).project.chain
    decreases |steps|
  {
    hide After, Inv, InUse;
    if steps != [] {
      StepKeeps(registry, model, steps[0]);
      ChainGrows(registry, model, steps[0]);
      ChainsGrow(registry, After(registry, model, steps[0]), steps[1..]);
    }
  }

  lemma ChainGrows(registry: Registry, model: Model, step: Step)
    ensures model.project.chain <= After(registry, model, step).project.chain
  {
    if InUse(model.project) {
      OnlyUnusedProjectsAreOvertaken(registry, model, step);
    }
  }

  /** Over any run that leaves a chain acceptable to a binary's projectors, no
      replay batch of that binary's sessions is refused. */
  lemma AcceptableRunsAreNotRefused(registry: Registry, model: Model, steps: seq<Step>, binary: Binary)
    requires Inv(registry, model) && Acceptable(registry, binary.views, Run(registry, model, steps).project.chain)
    ensures !ReplayRefused(registry, model, steps, binary)
  {
    hide After, Inv, Acceptable, BatchRefused;
    var chain := Run(registry, model, steps).project.chain;
    forall at: nat | at < |steps| ensures !RefusedAt(registry, model, steps, at, binary) {
      var found := Run(registry, model, steps[..at]);
      assert steps[..at] + steps[at..] == steps;
      RunSplits(registry, model, steps[..at], steps[at..]);
      RunKeeps(registry, model, steps[..at]);
      ChainsGrow(registry, found, steps[at..]);
      hide Run;
      assert chain[..|found.project.chain|] == found.project.chain;
      AcceptablePrefix(registry, binary.views, chain, |found.project.chain|);
      AcceptableChainsReplay(registry, found, steps[at], binary);
    }
  }
}
