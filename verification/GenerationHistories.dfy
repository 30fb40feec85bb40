/** What the steps of a run say about where it ends: when the marked generation
    is still a whole replay, and when the live views go back to an older
    version (crates/baley-store-sqlite/src/rebuild.rs). Nothing here asks for
    more than what each step found in the tables. */
module GenerationHistories {
  import opened Wrappers
  import opened Views
  import Paging
  import opened Projection
  import H = ProjectionHistories
  import opened Fences
  import opened Generations
  import opened GenerationRuns

  /** The state a step of a run finds. */
  ghost function Before(registry: Registry, model: Model, steps: seq<Step>, at: nat): Model
    requires at <= |steps|
  {
    Run(registry, model, steps[..at])
  }

  lemma LastStep(registry: Registry, model: Model, steps: seq<Step>)
    requires steps != []
    ensures Run(registry, model, steps)
            == After(registry, Run(registry, model, steps[..|steps| - 1]), steps[|steps| - 1])
  {
    hide After;
    assert steps == steps[..|steps| - 1] + [steps[|steps| - 1]];
    RunAppends(registry, model, steps[..|steps| - 1], steps[|steps| - 1]);
  }

  // ----- when the marked generation is a whole replay -----

  /** A batch that removes rows of the marked generation, all that are left or
      not. */
  predicate Removes(model: Model, step: Step, done: bool) {
    model.session.Some? &&
    match model.session.value.phase
    case Clearing(orphan) => step.Clear? && step.done == done && Removable(model.project, orphan, step.dropped, done)
    case Discarding(scratch) => step.Scrap? && step.done == done && Removable(model.project, scratch, step.dropped, done)
    case _ => false
  }

  /** A new generation is marked. */
  ghost predicate Allocates(model: Model, step: Step) {
    && step.Allocate? && model.session.Some? && model.session.value.phase.Allocating?
    && NextGeneration(model.project, step.generation)
  }

  /** Since the last allocation some batch removed rows of the marked
      generation and left others. */
  ghost predicate RemovalBegan(registry: Registry, model: Model, steps: seq<Step>) {
    exists at: nat | at < |steps| ::
      && Removes(Before(registry, model, steps, at), steps[at], false)
      && NotAllocatedAfter(registry, model, steps, at)
  }

  ghost predicate NotAllocatedAfter(registry: Registry, model: Model, steps: seq<Step>, from: nat) {
    forall later: nat | from < later < |steps| :: !Allocates(Before(registry, model, steps, later), steps[later])
  }

  /** One step, seen from what it found. */
  lemma TornByRemovals(registry: Registry, model: Model, step: Step)
    ensures After(registry, model, step).torn
            <==> Removes(model, step, false) || (model.torn && !Removes(model, step, true) && !Allocates(model, step))
    ensures Marked(After(registry, model, step).project).Some? ==> Marked(model.project).Some? || Allocates(model, step)
    ensures Removes(model, step, true) && SessionFits(model) ==> Marked(After(registry, model, step).project).None?
  {
    hide Replayed, BatchAll, VersionsOf, StampsOf, JudgeSet, JudgeRequest, NotPast, LowestSpare, Spare, RowIds, Numbered, Removable,
         NextGeneration;
  }

  lemma RemovalBeganBySteps(registry: Registry, model: Model, steps: seq<Step>)
    requires steps != []
    ensures var last := |steps| - 1;
            var found := Run(registry, model, steps[..last]);
            RemovalBegan(registry, model, steps)
            <==> Removes(found, steps[last], false)
                 || (RemovalBegan(registry, model, steps[..last]) && !Allocates(found, steps[last]))
  {
    hide After, Run, Removes, Allocates;
    var last := |steps| - 1;
    var most := steps[..last];
    forall at: nat | at < last
      ensures Before(registry, model, most, at) == Before(registry, model, steps, at) && most[at] == steps[at]
    {
      assert most[..at] == steps[..at];
    }
    if Removes(Before(registry, model, steps, last), steps[last], false) {
      assert NotAllocatedAfter(registry, model, steps, last);
    }
    if RemovalBegan(registry, model, most) && !Allocates(Before(registry, model, steps, last), steps[last]) {
      var at: nat :| at < |most| && Removes(Before(registry, model, most, at), most[at], false)
                     && NotAllocatedAfter(registry, model, most, at);
      assert NotAllocatedAfter(registry, model, steps, at);
    }
    if RemovalBegan(registry, model, steps) {
      var at: nat :| at < |steps| && Removes(Before(registry, model, steps, at), steps[at], false)
                     && NotAllocatedAfter(registry, model, steps, at);
      if at < last {
        assert NotAllocatedAfter(registry, model, most, at);
      }
    }
  }

  lemma {:induction false} TornIsRemovalBegan(registry: Registry, model: Model, steps: seq<Step>)
    requires Fresh(model)
    ensures var next := Run(registry, model, steps);
            && (next.torn ==> RemovalBegan(registry, model, steps))
            && (Marked(next.project).Some? && RemovalBegan(registry, model, steps) ==> next.torn)
    decreases |steps|
  {
    if steps != [] {
      var last := |steps| - 1;
      TornIsRemovalBegan(registry, model, steps[..last]);
      LastStep(registry, model, steps);
      RemovalBeganBySteps(registry, model, steps);
      FreshProjectsFit(registry, model);
      RunKeeps(registry, model, steps[..last]);
      var found := Run(registry, model, steps[..last]);
      TornByRemovals(registry, found, steps[last]);
      hide After, Run, RemovalBegan, Allocates, Removes, LiveIsReplay, BuildingIsReplay, SessionFits;
    }
  }

  /** Whether the marked generation is the replay of exactly the events its
      marker counts. */
  ghost predicate MarkedIsReplay(registry: Registry, project: Project)
    requires Marked(project).Some?
  {
    var marker := Marked(project).value;
    && marker.applied <= |project.chain|
    && Some(ContentsOf(project, marker.generation))
       == Replayed(registry, VersionsOf(StampsIn(project, marker.generation)), project.chain[..marker.applied])
  }

  /** In every run the marked generation is the replay of exactly its applied
      events if and only if no batch has removed part of it since it was
      marked; a session that is still building it never finds it removed. */
  lemma MarkedIsReplayUntilItsRemoval(registry: Registry, model: Model, steps: seq<Step>)
    requires Fresh(model)
    ensures var next := Run(registry, model, steps);
            && (Marked(next.project).Some? ==>
                  (MarkedIsReplay(registry, next.project) <==> !RemovalBegan(registry, model, steps)))
            && (next.session.Some? && next.session.value.phase.Building? ==>
                  Marked(next.project).Some? && MarkedIsReplay(registry, next.project))
  {
    ViewsAreReplaysInEveryRun(registry, model, steps);
    TornIsRemovalBegan(registry, model, steps);
    FreshProjectsFit(registry, model);
    RunKeeps(registry, model, steps);
    hide Replayed, Run, VersionsOf, RowIds, RemovalBegan, LiveIsReplay, BuildingIsReplay;
  }

  // ----- what a live row holds -----

  lemma CopiesAreNumbered(registry: Registry, chain: seq<Event>)
    requires Numbered(chain, 0)
    ensures |Copies(registry, chain)| == |chain|
    ensures forall at :: 0 <= at < |chain| ==>
              Copies(registry, chain)[at] == Event(at + 1, chain[at].typeName, registry.payload(chain[at]))
  {
  }

  lemma ReplayedView(registry: Registry, versions: Versions, chain: seq<Event>, contents: Contents, view: string)
    requires Replayed(registry, versions, chain) == Some(contents) && view in versions
    ensures view in contents
            && Batch(registry.projector(view, versions[view]), map[], Copies(registry, chain)) == Ok(contents[view])
  {
    assert ViewBatch(registry, versions, map[], chain, view).Ok?;
  }

  /** In every run a live row is there exactly where the latest change its view's
      projector made to its key, over the whole chain, was a put; it holds that
      body and that event's sequence; and at every event the projector was
      given exactly the requested documents that were there by then. */
  lemma LiveRowsAreTheirHistory(registry: Registry, model: Model, steps: seq<Step>, view: string)
    requires Fresh(model) && view in LiveStamps(Run(registry, model, steps).project)
    ensures var project := Run(registry, model, steps).project;
            var projector := registry.projector(view, LiveStamps(project)[view].projector);
            var events := Copies(registry, project.chain);
            && (forall at :: 0 <= at < |project.chain| ==>
                  events[at] == Event(at + 1, project.chain[at].typeName, registry.payload(project.chain[at])))
            && exists turns :: H.Went(projector, map[], events, turns)
                               && H.Leaves(projector.view, map[], events, turns, TableIn(ContentsOf(project, Live(project)), view))
  {
    ViewsAreReplaysInEveryRun(registry, model, steps);
    FreshProjectsFit(registry, model);
    RunKeeps(registry, model, steps);
    var project := Run(registry, model, steps).project;
    hide Run, Replayed, LiveIsReplay, BuildingIsReplay, H.Went, H.Leaves, H.Writes, Copies;
    CopiesAreNumbered(registry, project.chain);
    var contents := ContentsOf(project, Live(project));
    ReplayedView(registry, VersionsOf(LiveStamps(project)), project.chain, contents, view);
    H.BatchesAreTheirHistory(registry.projector(view, LiveStamps(project)[view].projector), map[], Copies(registry, project.chain));
  }

  // ----- a removal that a crash interrupts -----

  const MADE := Event(1, "made", "")

  const MADE_ROW := Document([], 1, 1, Body(map[], ""))

  /** Generation 1's rows with the document, and without it. */
  const BUILT: Contents := map[REQUEST_VIEW := map[[] := MADE_ROW]]

  const THINNED: Contents := map[REQUEST_VIEW := map[]]

  /** A request view of one document, put by every event. */
  function OneRowProjector(): Projector {
    Projector(ViewSpec(REQUEST_VIEW, 1, [], [], 1), (name: string) => true, (event: Event) => [],
              (event: Event, found: seq<(DocKey, Body)>) => Some([Put([], Body(map[], ""))]))
  }

  function OneRowRegistry(): Registry {
    Registry((view: string, version: nat) => OneRowProjector(), (event: Event) => event.payload)
  }

  /** A rebuild crashes after its first batch, and the next one crashes while
      it removes what the first one left. */
  function TornRun(): seq<Step> {
    [Start(OLD_BINARY, Rebuild), EndSweep, Allocate(1), Replay(1), Crash,
     Start(OLD_BINARY, Rebuild), Clear({RowId(REQUEST_VIEW, [])}, false), Crash]
  }

  function OneEvent(): Model {
    Model(Project([MADE], None, map[], map[]), None, {}, false, None)
  }

  /** The one-event project with generation 1 marked. */
  function Marking(contents: Contents, applied: nat): Project {
    Project([MADE], Some(GenRow(0, Some(Marker(1, applied)))), map[1 := StampsOf(OLD_BINARY)], map[1 := contents])
  }

  lemma OneRowBatch()
    ensures BatchAll(OneRowRegistry(), OLD_BINARY.views, THINNED, [MADE]) == Some(BUILT)
  {
    var projector := OneRowProjector();
    var changes: seq<Change> := [Put([], Body(map[], ""))];
    assert changes[1..] == [];
    var staged: Stage := map[[] := Paging.Staged(Some(Body(map[], "")), 1)];
    assert Changed(changes, 1) == staged;
    assert projector.apply(MADE, []) == Some(changes);
    assert EventStage(projector, map[], map[], MADE) == Ok(staged);
    BatchOfOne(projector, map[], MADE);
    assert AllAccepted(projector.view, staged);
    assert Laid(projector.view, map[], staged) == map[[] := MADE_ROW];
    assert Copies(OneRowRegistry(), [MADE]) == [MADE];
    assert ViewBatch(OneRowRegistry(), OLD_BINARY.views, THINNED, [MADE], REQUEST_VIEW) == Ok(map[[] := MADE_ROW]);
    var batch := BatchAll(OneRowRegistry(), OLD_BINARY.views, THINNED, [MADE]);
    assert batch.Some?;
    assert batch.value == BUILT;
  }

  /** Up to the first crash: one generation marked, with the event's row. */
  lemma OneEventBuilt()
    ensures var model := OneEvent(); var registry := OneRowRegistry();
            var started := After(registry, model, TornRun()[0]);
            var swept := After(registry, started, TornRun()[1]);
            var marked := After(registry, swept, TornRun()[2]);
            var built := After(registry, marked, TornRun()[3]);
            After(registry, built, TornRun()[4])
            == Model(Marking(BUILT, 1), None, {}, false, None)
  {
    var registry := OneRowRegistry();
    var model := OneEvent();
    hide StampsOf, Blank, BatchAll, OneRowRegistry;
    FencesAreExact(OLD_BINARY, Seen(model.project));
    var started := After(registry, model, Start(OLD_BINARY, Rebuild));
    assert started == model.(session := Some(Session(OLD_BINARY, Rebuild, Sweeping(-1)))) by {
      hide RowIds;
    }
    NothingStored(model.project);
    hide Spare, NextGeneration, JudgeSet;
    var swept := After(registry, started, EndSweep);
    assert swept == At(started, Allocating);
    var marked := After(registry, swept, Allocate(1));
    BlankRequest();
    assert marked.project == Marking(THINNED, 0);
    OneEventReplayed();
    hide BatchReplayed;
  }

  lemma OneEventReplayed()
    ensures BatchReplayed(OneRowRegistry(), Marking(THINNED, 0), OLD_BINARY, 1, 1)
            == Some(Marking(BUILT, 1))
  {
    OneRowBatch();
    hide BatchAll, OneRowRegistry, StampsOf;
    var project := Marking(THINNED, 0);
    assert project.chain[0..1] == [MADE];
    assert project.rows[1 := BUILT] == map[1 := BUILT];
  }

  lemma OneEventRestarted()
    ensures var built := Model(Marking(BUILT, 1), None, {}, false, None);
            After(OneRowRegistry(), built, TornRun()[5])
            == built.(session := Some(Session(OLD_BINARY, Rebuild, Clearing(1))))
  {
    hide StampsOf, OneRowRegistry, RowIds;
    var built := Model(Marking(BUILT, 1), None, {}, false, None);
    FencesAreExact(OLD_BINARY, Seen(built.project));
    assert LiveStamps(built.project) == map[];
  }

  /** The second rebuild removes the row and crashes. */
  lemma OneEventTorn()
    ensures var registry := OneRowRegistry();
            var started := After(registry, Model(Marking(BUILT, 1), None, {}, false, None), TornRun()[5]);
            After(registry, After(registry, started, TornRun()[6]), TornRun()[7])
            == Model(Marking(THINNED, 1), None, {}, true, None)
  {
    var registry, row := OneRowRegistry(), RowId(REQUEST_VIEW, []);
    OneEventRestarted();
    hide StampsOf, OneRowRegistry, AfterStart;
    var started := After(registry, Model(Marking(BUILT, 1), None, {}, false, None), TornRun()[5]);
    assert row in RowIds(BUILT);
    assert Without(BUILT, {row})[REQUEST_VIEW] == map[];
    assert Without(BUILT, {row}) == THINNED;
    assert started.project.rows[1 := THINNED] == map[1 := THINNED];
    assert Removable(started.project, 1, {row}, false);
  }

  lemma BlankRequest()
    ensures Blank(OLD_BINARY.views) == THINNED
  {
  }

  lemma NothingStored(project: Project)
    requires project.stamps == map[] && project.rows == map[] && project.gen.None?
    ensures (forall generation: nat :: !Spare(project, generation)) && NextGeneration(project, 1)
  {
    forall generation: nat ensures !Stored(project, generation) {
      NoRowsLeft(project, generation);
    }
  }

  /** A run whose marked generation is not the replay of its applied events:
      the marker counts the one event, whose row is gone. */
  lemma AnInterruptedRemovalIsNoReplay()
    ensures Fresh(OneEvent()) && OneEvent().project.chain == [MADE]
    ensures var project := Run(OneRowRegistry(), OneEvent(), TornRun()).project;
            && Marked(project) == Some(Marker(1, 1)) && RowIds(ContentsOf(project, 1)) == {}
            && RemovalBegan(OneRowRegistry(), OneEvent(), TornRun())
            && !MarkedIsReplay(OneRowRegistry(), project)
  {
    TornRunEnds();
    hide After, OneRowRegistry, MarkedIsReplay, StampsOf, Run, RemovalBegan;
    TornIsRemovalBegan(OneRowRegistry(), OneEvent(), TornRun());
    MarkedIsReplayUntilItsRemoval(OneRowRegistry(), OneEvent(), TornRun());
  }

  lemma TornRunEnds()
    ensures Run(OneRowRegistry(), OneEvent(), TornRun()) == Model(Marking(THINNED, 1), None, {}, true, None)
  {
    var registry, model, steps := OneRowRegistry(), OneEvent(), TornRun();
    OneEventBuilt();
    OneEventTorn();
    hide After, OneRowRegistry, StampsOf, Marking;
    RunOfFive(registry, model, steps[0], steps[1], steps[2], steps[3], steps[4]);
    var built := Model(Marking(BUILT, 1), None, {}, false, None);
    assert steps == [steps[0], steps[1], steps[2], steps[3], steps[4]] + [steps[5], steps[6], steps[7]];
    RunSplits(registry, model, [steps[0], steps[1], steps[2], steps[3], steps[4]], [steps[5], steps[6], steps[7]]);
    RunOfTwo(registry, built, steps[5], steps[6]);
    assert [steps[5], steps[6], steps[7]] == [steps[5], steps[6]] + [steps[7]];
    RunAppends(registry, built, [steps[5], steps[6]], steps[7]);
    hide Run;
  }

  // ----- when a rebuild takes the live views back -----

  /** The guard of `stamp_empty`: the step stamps the project. */
  predicate StampsUnused(model: Model, step: Step) {
    step.StampEmpty? && Declares(step.binary) && !InUse(model.project)
  }

  predicate StampsNewer(model: Model, step: Step, binary: Binary) {
    StampsUnused(model, step) && !NotPast(binary, StampsOf(step.binary))
  }

  /** Some binary past this one stamped the unused project during the run. */
  ghost predicate NewerStamped(registry: Registry, model: Model, steps: seq<Step>, binary: Binary) {
    exists at: nat | at < |steps| :: StampsNewer(Before(registry, model, steps, at), steps[at], binary)
  }

  /** The session that a run began with still holds the maintenance lock. */
  ghost predicate SessionLasts(registry: Registry, model: Model, steps: seq<Step>) {
    forall at: nat | at <= |steps| :: Before(registry, model, steps, at).session.Some?
  }

  lemma SessionLastedBefore(registry: Registry, model: Model, steps: seq<Step>)
    requires steps != [] && SessionLasts(registry, model, steps)
    ensures SessionLasts(registry, model, steps[..|steps| - 1])
    ensures Run(registry, model, steps[..|steps| - 1]).session.Some? && Run(registry, model, steps).session.Some?
  {
    hide Run, After;
    var most := steps[..|steps| - 1];
    assert steps[..|steps|] == steps;
    assert Before(registry, model, steps, |steps|).session.Some?;
    assert Before(registry, model, steps, |steps| - 1).session.Some?;
    forall at: nat | at <= |most| ensures Before(registry, model, most, at).session.Some? {
      assert most[..at] == steps[..at];
      assert Before(registry, model, steps, at).session.Some?;
    }
  }

  lemma NewerStampedBySteps(registry: Registry, model: Model, steps: seq<Step>, binary: Binary)
    requires steps != []
    ensures var last := |steps| - 1;
            NewerStamped(registry, model, steps, binary)
            <==> NewerStamped(registry, model, steps[..last], binary)
                 || StampsNewer(Run(registry, model, steps[..last]), steps[last], binary)
  {
    hide After, Run, StampsNewer;
    var last := |steps| - 1;
    var most := steps[..last];
    forall at: nat | at < last
      ensures Before(registry, model, most, at) == Before(registry, model, steps, at) && most[at] == steps[at]
    {
      assert most[..at] == steps[..at];
    }
    assert Before(registry, model, steps, last) == Run(registry, model, most);
    if NewerStamped(registry, model, steps, binary) {
      var at: nat :| at < |steps| && StampsNewer(Before(registry, model, steps, at), steps[at], binary);
      assert at < last ==> Before(registry, model, most, at) == Before(registry, model, steps, at);
    }
    if NewerStamped(registry, model, most, binary) {
      var at: nat :| at < |most| && StampsNewer(Before(registry, model, most, at), most[at], binary);
      assert Before(registry, model, steps, at) == Before(registry, model, most, at);
    }
  }

  /** One step while a session runs: it keeps its binary and its purpose, and
      only the first stamp of an unused project overtakes it. */
  lemma OvertakenByStamps(registry: Registry, model: Model, step: Step)
    requires model.session.Some? && After(registry, model, step).session.Some?
    ensures var next := After(registry, model, step);
            && next.session.value.binary == model.session.value.binary
            && next.session.value.purpose == model.session.value.purpose
            && next.overtaken == (if StampsUnused(model, step) then Some(step.binary) else model.overtaken)
            && (StampsUnused(model, step) ==> InUse(next.project))
  {
    hide Replayed, BatchAll, VersionsOf, JudgeSet, JudgeRequest, NotPast, StampsOf, LowestSpare, Spare, RowIds, Numbered,
         NextGeneration;
  }

  /** While its session runs, what overtakes it is the one stamp there was. */
  lemma {:induction false} OvertakenIsNewerStamped(registry: Registry, model: Model, steps: seq<Step>)
    requires model.session.Some? && model.overtaken.None? && SessionLasts(registry, model, steps)
    ensures var next := Run(registry, model, steps);
            var binary := model.session.value.binary;
            && next.session.Some? && next.session.value.binary == binary
            && next.session.value.purpose == model.session.value.purpose
            && (next.overtaken.Some? ==> InUse(next.project))
            && (NewerStamped(registry, model, steps, binary)
                <==> next.overtaken.Some? && !NotPast(binary, StampsOf(next.overtaken.value)))
            && (InUse(model.project) ==> InUse(next.project) && next.overtaken.None?)
    decreases |steps|
  {
    hide After, StampsNewer, NotPast, StampsOf, InUse;
    if steps == [] {
      NoSteps(registry, model);
    } else {
      var last := |steps| - 1;
      var binary := model.session.value.binary;
      SessionLastedBefore(registry, model, steps);
      OvertakenIsNewerStamped(registry, model, steps[..last]);
      LastStep(registry, model, steps);
      NewerStampedBySteps(registry, model, steps, binary);
      hide Run, SessionLasts, NewerStamped;
      var found := Run(registry, model, steps[..last]);
      OvertakenByStamps(registry, found, steps[last]);
      StampsNewerUnfolds(found, steps[last], binary);
      if InUse(found.project) {
        OnlyUnusedProjectsAreOvertaken(registry, found, steps[last]);
      }
    }
  }

  lemma StampsNewerUnfolds(model: Model, step: Step, binary: Binary)
    ensures StampsNewer(model, step, binary) <==> StampsUnused(model, step) && !NotPast(binary, StampsOf(step.binary))
    ensures StampsUnused(model, step) ==> !InUse(model.project)
  {
    hide NotPast, StampsOf;
  }

  /** A rebuild, from the start that took the maintenance lock to its flip,
      takes the live stamps back to something a live one was past if and only
      if it was started on a project with no row and no event, and a binary
      past its own stamped that project before the flip. */
  lemma RebuildsTakeViewsBackOnlyAfterAStamp(registry: Registry, model: Model, binary: Binary, steps: seq<Step>, count: nat)
    requires Inv(registry, model) && model.session.None?
    requires var started := After(registry, model, Start(binary, Rebuild));
             && SessionLasts(registry, started, steps)
             && var found := Run(registry, started, steps);
             && found.session.Some? && found.session.value.phase.Building?
             && Live(After(registry, found, Finish(count)).project) != Live(found.project)
    ensures var started := After(registry, model, Start(binary, Rebuild));
            var found := Run(registry, started, steps);
            && LiveStamps(After(registry, found, Finish(count)).project) == StampsOf(binary)
            && (!NotPast(binary, LiveStamps(found.project)) <==>
                  !InUse(model.project) && NewerStamped(registry, started, steps, binary))
  {
    var started := After(registry, model, Start(binary, Rebuild));
    StartTakesTheLock(registry, model, binary, steps);
    StepKeeps(registry, model, Start(binary, Rebuild));
    RunKeeps(registry, started, steps);
    OvertakenIsNewerStamped(registry, started, steps);
    FlipsGoForwardUnlessOvertaken(registry, Run(registry, started, steps), count);
    hide After, Run, SessionLasts, NewerStamped, NotPast, StampsOf, Inv, InUse;
  }

  lemma StartTakesTheLock(registry: Registry, model: Model, binary: Binary, steps: seq<Step>)
    requires model.session.None?
    requires SessionLasts(registry, After(registry, model, Start(binary, Rebuild)), steps)
    ensures var started := After(registry, model, Start(binary, Rebuild));
            && started.session.Some? && started.session.value.binary == binary && started.session.value.purpose.Rebuild?
            && started.overtaken.None? && started.project == model.project
  {
    var started := After(registry, model, Start(binary, Rebuild));
    assert Before(registry, started, steps, 0).session.Some?;
    assert steps[..0] == [];
    hide JudgeSet;
  }

  // ----- versions over whole runs -----

  lemma StepKeepsTheSet(registry: Registry, model: Model, step: Step, viewSet: nat)
    requires Inv(registry, model) && NotOvertaken(model)
    requires SetAtLeast(LiveStamps(model.project), viewSet)
    ensures SetAtLeast(LiveStamps(After(registry, model, step).project), viewSet)
  {
    LiveStampsMoveForward(registry, model, step);
    hide After, Inv;
    if LiveStamps(After(registry, model, step).project) != LiveStamps(model.project) {
      var binary := model.session.value.binary;
      StampedView(binary);
      var view :| view in LiveStamps(model.project);
      assert viewSet <= binary.viewSet;
    }
  }

  predicate SetAtLeast(stamps: Stamps, viewSet: nat) {
    stamps != map[] && forall view :: view in stamps ==> viewSet <= stamps[view].viewSet
  }

  /** Over every run of a project with live stamps, whatever binaries share the
      store, the live view set version never goes down, unless a session was
      already overtaken when the run begins. */
  lemma {:induction false} TheLiveSetNeverGoesDown(registry: Registry, model: Model, steps: seq<Step>, viewSet: nat)
    requires Inv(registry, model) && NotOvertaken(model)
    requires SetAtLeast(LiveStamps(model.project), viewSet)
    ensures SetAtLeast(LiveStamps(Run(registry, model, steps).project), viewSet)
    decreases |steps|
  {
    hide After, Inv, SetAtLeast;
    if steps != [] {
      StepKeeps(registry, model, steps[0]);
      HasItsRow(model.project, viewSet);
      StepKeepsTheSet(registry, model, steps[0], viewSet);
      OnlyUnusedProjectsAreOvertaken(registry, model, steps[0]);
      TheLiveSetNeverGoesDown(registry, After(registry, model, steps[0]), steps[1..], viewSet);
    }
  }

  lemma HasItsRow(project: Project, viewSet: nat)
    requires SetAtLeast(LiveStamps(project), viewSet)
    ensures project.gen.Some?
  {
  }

  /** Every binary that starts a session or stamps the project declares the
      view. */
  predicate AllDeclare(steps: seq<Step>, view: string) {
    forall at :: 0 <= at < |steps| && (steps[at].Start? || steps[at].StampEmpty?) ==> view in steps[at].binary.views
  }

  predicate SessionDeclares(model: Model, view: string) {
    model.session.Some? ==> view in model.session.value.binary.views
  }

  predicate ProjectorAtLeast(stamps: Stamps, view: string, version: nat) {
    view in stamps && version <= stamps[view].projector
  }

  lemma SessionStillDeclares(registry: Registry, model: Model, step: Step, view: string)
    requires SessionDeclares(model, view)
    requires step.Start? || step.StampEmpty? ==> view in step.binary.views
    ensures SessionDeclares(After(registry, model, step), view)
  {
    hide Replayed, BatchAll, VersionsOf, JudgeSet, JudgeRequest, NotPast, StampsOf, LowestSpare, Spare, RowIds, Numbered,
         NextGeneration, Removed, Removable, BatchReplayed;
  }

  lemma StepKeepsTheProjector(registry: Registry, model: Model, step: Step, view: string, version: nat)
    requires Inv(registry, model) && NotOvertaken(model) && SessionDeclares(model, view)
    requires ProjectorAtLeast(LiveStamps(model.project), view, version)
    ensures ProjectorAtLeast(LiveStamps(After(registry, model, step).project), view, version)
  {
    LiveStampsMoveForward(registry, model, step);
    hide After, Inv;
  }

  /** Over every run in which each binary declares a view, its live projector
      version never goes down either. */
  lemma {:induction false} ProjectorVersionsNeverGoDown(registry: Registry, model: Model, steps: seq<Step>, view: string, version: nat)
    requires Inv(registry, model) && NotOvertaken(model) && SessionDeclares(model, view) && AllDeclare(steps, view)
    requires ProjectorAtLeast(LiveStamps(model.project), view, version)
    ensures ProjectorAtLeast(LiveStamps(Run(registry, model, steps).project), view, version)
    decreases |steps|
  {
    hide After, Inv, SessionDeclares;
    if steps != [] {
      StepKeeps(registry, model, steps[0]);
      StepKeepsTheProjector(registry, model, steps[0], view, version);
      OnlyUnusedProjectsAreOvertaken(registry, model, steps[0]);
      SessionStillDeclares(registry, model, steps[0], view);
      ProjectorVersionsNeverGoDown(registry, After(registry, model, steps[0]), steps[1..], view, version);
    }
  }
}
