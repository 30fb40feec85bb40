/** What every run of commands, rebuilds, verifications, cleanups and crashes
    keeps (crates/baley-store-sqlite/src/rebuild.rs). */
module GenerationRuns {
  import opened Wrappers
  import opened Views
  import opened Projection
  import opened Fences
  import opened Generations

  lemma VersionsOfStamps(binary: Binary)
    ensures VersionsOf(StampsOf(binary)) == binary.views
  {
  }

  lemma NumberedAppend(chain: seq<Event>, events: seq<Event>)
    requires Numbered(chain, 0) && Numbered(events, |chain|)
    ensures Numbered(chain + events, 0)
  {
  }

  // ----- commands and stamps -----

  /** A command's write keeps the live documents a full replay. */
  lemma CommandReplays(registry: Registry, project: Project, binary: Binary, events: seq<Event>)
    requires Numbered(project.chain, 0) && LiveIsReplay(registry, project)
    requires Commanded(registry, project, binary, events).Some?
    ensures var next := Commanded(registry, project, binary, events).value;
            LiveIsReplay(registry, next) && Numbered(next.chain, 0) && project.gen.Some?
  {
    var live := Live(project);
    FencesAreExact(binary, Seen(project));
    VersionsOfStamps(binary);
    assert REQUEST_VIEW in StampsOf(binary);
    NumberedAppend(project.chain, events);
    hide BatchAll;
    BatchAllResumes(registry, binary.views, map[], project.chain, events);
  }

  lemma CommandKeepsBuilding(registry: Registry, project: Project, torn: bool, binary: Binary, events: seq<Event>)
    requires BuildingIsReplay(registry, project, torn)
    requires Marked(project).Some? ==> Live(project) < Marked(project).value.generation
    requires Commanded(registry, project, binary, events).Some?
    ensures BuildingIsReplay(registry, Commanded(registry, project, binary, events).value, torn)
  {
    hide BatchAll, Replayed;
    if Marked(project).Some? {
      var marker := Marked(project).value;
      assert (project.chain + events)[..marker.applied] == project.chain[..marker.applied];
    }
  }

  lemma CommandKeeps(registry: Registry, model: Model, binary: Binary, events: seq<Event>)
    requires Inv(registry, model)
    ensures Inv(registry, After(registry, model, Command(binary, events)))
  {
    hide BatchAll, Replayed, JudgeSet, JudgeRequest, LiveIsReplay, BuildingIsReplay, Numbered, Spare;
    var project := model.project;
    var written := Commanded(registry, project, binary, events);
    if written.Some? {
      CommandReplays(registry, project, binary, events);
      CommandKeepsBuilding(registry, project, model.torn, binary, events);
      SameSpares(project, written.value, Live(project));
    }
  }

  /** Rows written to the live generation make no other generation spare. */
  lemma SameSpares(project: Project, next: Project, live: nat)
    requires next.gen == project.gen && next.stamps == project.stamps && live == Live(project)
    requires forall generation :: generation != live ==> ContentsOf(next, generation) == ContentsOf(project, generation)
    ensures forall generation :: Spare(next, generation) <==> Spare(project, generation)
  {
  }

  lemma StampEmptyKeeps(registry: Registry, model: Model, binary: Binary)
    requires Inv(registry, model)
    ensures Inv(registry, After(registry, model, StampEmpty(binary)))
  {
    hide Replayed, VersionsOf, StampsOf, Blank, Spare, NotPast;
    var project := model.project;
    if project.gen.None? && project.chain == [] {
      NothingReplayed(registry, binary.views);
      VersionsOfStamps(binary);
      StampedSpares(project, binary);
    }
  }

  /** The first stamp makes nothing spare. */
  lemma StampedSpares(project: Project, binary: Binary)
    requires project.gen.None? && project.chain == []
    ensures forall generation :: Spare(StampedEmpty(project, binary), generation) <==> Spare(project, generation)
  {
    hide StampsOf, Blank, RowIds;
    var next := StampedEmpty(project, binary);
    forall generation ensures Spare(next, generation) <==> Spare(project, generation) {
      assert generation != 0 ==> ContentsOf(next, generation) == ContentsOf(project, generation);
    }
  }

  lemma StartKeeps(registry: Registry, model: Model, binary: Binary, purpose: Purpose)
    requires Inv(registry, model)
    ensures Inv(registry, After(registry, model, Start(binary, purpose)))
  {
    FencesAreExact(binary, Seen(model.project));
  }

  // ----- removals -----

  /** A removal keeps the live rows, their stamps and the chain. */
  lemma RemovalKeepsLive(project: Project, generation: nat, dropped: set<RowId>, done: bool, marker: bool)
    requires Removable(project, generation, dropped, done)
    ensures var next := Removed(project, generation, dropped, done, marker);
            && next.chain == project.chain && Live(next) == Live(project) && (next.gen.Some? <==> project.gen.Some?)
            && LiveStamps(next) == LiveStamps(project)
            && (Live(project) in next.stamps <==> Live(project) in project.stamps)
            && (Live(project) in next.rows <==> Live(project) in project.rows)
            && ContentsOf(next, Live(project)) == ContentsOf(project, Live(project))
  {
  }

  lemma RemovalKeepsOthers(project: Project, generation: nat, dropped: set<RowId>, done: bool, marker: bool, other: nat)
    requires other != generation
    ensures var next := Removed(project, generation, dropped, done, marker);
            && (other in next.stamps <==> other in project.stamps) && StampsIn(next, other) == StampsIn(project, other)
            && (other in next.rows <==> other in project.rows) && ContentsOf(next, other) == ContentsOf(project, other)
  {
  }

  lemma RemovalKeepsReplays(registry: Registry, project: Project, torn: bool, generation: nat, dropped: set<RowId>, done: bool, marker: bool)
    requires LiveIsReplay(registry, project) && BuildingIsReplay(registry, project, torn)
    requires Removable(project, generation, dropped, done)
    requires marker ==> Marked(project).Some? && Marked(project).value.generation == generation
    requires !marker && Marked(project).Some? ==> Marked(project).value.generation != generation
    ensures var next := Removed(project, generation, dropped, done, marker);
            && LiveIsReplay(registry, next)
            && BuildingIsReplay(registry, next, if marker then !done else torn)
  {
    hide Replayed, VersionsOf, RowIds;
    RemovalKeepsLive(project, generation, dropped, done, marker);
    var next := Removed(project, generation, dropped, done, marker);
    if project.gen.Some? {
      RemovalKeepsOthers(project, generation, dropped, done, marker, Live(project));
    }
    if marker && !done {
      RemovalProgresses(project, generation, dropped, done, marker);
    }
    if Marked(next).Some? && !marker {
      RemovalKeepsOthers(project, generation, dropped, done, marker, Marked(project).value.generation);
    }
  }

  lemma NoRowsLeft(project: Project, generation: nat)
    requires generation !in project.rows && generation !in project.stamps
    ensures !Stored(project, generation)
  {
  }

  /** One sweep batch: everything up to where the sweep stands is swept. */
  lemma SweptOneMore(project: Project, after: int, generation: nat, dropped: set<RowId>, done: bool)
    requires SweptTo(project, after) && LowestSpare(project, after, generation)
    requires Removable(project, generation, dropped, done)
    ensures SweptTo(Removed(project, generation, dropped, done, false), if done then generation else after)
  {
    var next := Removed(project, generation, dropped, done, false);
    forall other: nat | other <= (if done then generation else after) ensures !Spare(next, other) {
      if other != generation {
        RemovalKeepsOthers(project, generation, dropped, done, false, other);
        assert !Spare(project, other);
      } else {
        NoRowsLeft(next, generation);
      }
    }
  }

  lemma SweepKeeps(registry: Registry, model: Model, after: int, generation: nat, dropped: set<RowId>, done: bool)
    requires Inv(registry, model)
    requires model.session.Some?
    requires model.session.value.phase == Sweeping(after) || model.session.value.phase == Cleaning(after)
    ensures Inv(registry, AfterSweep(model, after, generation, dropped, done))
  {
    var project := model.project;
    if LowestSpare(project, after, generation) && Removable(project, generation, dropped, done) {
      RemovalKeepsLive(project, generation, dropped, done, false);
      RemovalKeepsReplays(registry, project, model.torn, generation, dropped, done, false);
      SweptOneMore(project, after, generation, dropped, done);
    }
  }

  lemma RemovalKeeps(registry: Registry, model: Model, generation: nat, dropped: set<RowId>, done: bool, next: Option<Phase>)
    requires Inv(registry, model)
    requires model.session.Some?
    requires (model.session.value.phase == Clearing(generation) && next == Some(Sweeping(-1)))
             || (model.session.value.phase == Discarding(generation) && next == None)
    ensures Inv(registry, AfterRemoval(model, generation, dropped, done, next))
  {
    var project := model.project;
    if Removable(project, generation, dropped, done) {
      RemovalKeepsLive(project, generation, dropped, done, true);
      RemovalKeepsReplays(registry, project, model.torn, generation, dropped, done, true);
    }
  }

  // ----- building -----

  lemma AllocateKeeps(registry: Registry, model: Model, generation: nat)
    requires Inv(registry, model)
    requires model.session.Some? && model.session.value.phase.Allocating?
    ensures Inv(registry, After(registry, model, Allocate(generation)))
  {
    hide Replayed, VersionsOf, StampsOf, Blank, Spare, NotPast;
    if NextGeneration(model.project, generation) {
      NothingReplayed(registry, model.session.value.binary.views);
      VersionsOfStamps(model.session.value.binary);
      assert model.project.chain[..0] == [];
    }
  }

  lemma ReplayExtends(registry: Registry, project: Project, binary: Binary, generation: nat, count: nat)
    requires LiveIsReplay(registry, project) && BuildingIsReplay(registry, project, false)
    requires Marked(project).Some? && Live(project) < generation
    requires generation in project.stamps && project.stamps[generation] == StampsOf(binary)
    requires BatchReplayed(registry, project, binary, generation, count).Some?
    ensures var next := BatchReplayed(registry, project, binary, generation, count).value;
            && LiveIsReplay(registry, next) && BuildingIsReplay(registry, next, false)
            && Marked(next).Some? && Marked(next).value.generation == generation
            && next.chain == project.chain && next.stamps == project.stamps && Live(next) == Live(project)
            && LiveStamps(next) == LiveStamps(project) && next.gen.Some?
  {
    hide BatchAll, Replayed, StampsOf, VersionsOf;
    VersionsOfStamps(binary);
    var applied := Marked(project).value.applied;
    ReplayResumes(registry, binary.views, project.chain, applied, count, project.rows[generation]);
  }

  lemma WholeChain(project: Project)
    requires CaughtUp(project)
    ensures project.chain[..Marked(project).value.applied] == project.chain
  {
  }

  /** A flip makes a generation that replays the whole chain live. */
  lemma FlipIsReplay(registry: Registry, project: Project)
    requires BuildingIsReplay(registry, project, false) && CaughtUp(project)
    ensures LiveIsReplay(registry, Flipped(project)) && BuildingIsReplay(registry, Flipped(project), false)
  {
    hide Replayed, VersionsOf;
    WholeChain(project);
  }

  /** At the head, a generation built by the live stamps holds the live
      documents. */
  lemma CaughtUpIsLive(registry: Registry, project: Project, generation: nat)
    requires LiveIsReplay(registry, project) && BuildingIsReplay(registry, project, false) && CaughtUp(project)
    requires Marked(project).value.generation == generation
    requires Live(project) in project.stamps && project.stamps[generation] == project.stamps[Live(project)]
    ensures generation in project.rows && Live(project) in project.rows && project.rows[generation] == project.rows[Live(project)]
  {
    hide Replayed, VersionsOf;
    WholeChain(project);
  }

  lemma ReplayKeeps(registry: Registry, model: Model, count: nat, step: Step)
    requires Inv(registry, model)
    requires model.session.Some? && model.session.value.phase.Building?
    requires step.Replay? || (step.Finish? && model.session.value.purpose.Rebuild?)
             || (step.Pin? && model.session.value.purpose.Verify?)
    ensures Inv(registry, AfterReplay(registry, model, count, step))
  {
    hide Replayed, VersionsOf, StampsOf, LiveIsReplay, BuildingIsReplay, BatchReplayed, CaughtUp, Numbered, NotPast;
    var session := model.session.value;
    var generation := session.phase.generation;
    var replayed := BatchReplayed(registry, model.project, session.binary, generation, count);
    if replayed.Some? {
      ReplayExtends(registry, model.project, session.binary, generation, count);
      var project := replayed.value;
      if CaughtUp(project) {
        if step.Finish? {
          FlipIsReplay(registry, project);
          NoSpareBelowZero(Flipped(project));
        } else if step.Pin? {
          StampedView(session.binary);
          CaughtUpIsLive(registry, project, generation);
        }
      }
    }
  }

  lemma NoSpareBelowZero(project: Project)
    ensures SweptTo(project, -1)
  {
  }

  lemma StampedView(binary: Binary)
    requires Declares(binary)
    ensures StampsOf(binary) != map[]
  {
    assert REQUEST_VIEW in StampsOf(binary);
  }

  lemma EndSweepKeeps(registry: Registry, model: Model)
    requires Inv(registry, model) && model.session.Some?
    ensures Inv(registry, AfterMaintenance(registry, model, EndSweep))
  {
    var phase := model.session.value.phase;
    if (phase.Sweeping? || phase.Cleaning?) && forall generation: nat :: phase.after < generation ==> !Spare(model.project, generation) {
      forall generation: nat ensures !Spare(model.project, generation) {
        assert generation <= phase.after || phase.after < generation;
      }
    }
  }

  lemma CrashKeeps(registry: Registry, model: Model)
    requires Inv(registry, model)
    ensures Inv(registry, model.(session := None))
  {
    hide LiveIsReplay, BuildingIsReplay;
  }

  lemma DiscardKeeps(registry: Registry, model: Model)
    requires Inv(registry, model) && model.session.Some?
    ensures Inv(registry, AfterMaintenance(registry, model, Discard))
  {
    hide LiveIsReplay, BuildingIsReplay, Spare;
  }

  lemma StepKeeps(registry: Registry, model: Model, step: Step)
    requires Inv(registry, model)
    ensures Inv(registry, After(registry, model, step))
  {
    hide Inv, AfterSweep, AfterRemoval, AfterReplay, AfterStart;
    match step
    case Command(binary, events) => CommandKeeps(registry, model, binary, events);
    case StampEmpty(binary) => StampEmptyKeeps(registry, model, binary);
    case Start(binary, purpose) => StartKeeps(registry, model, binary, purpose);
    case Crash => CrashKeeps(registry, model);
    case Allocate(generation) =>
      if model.session.Some? && model.session.value.phase.Allocating? {
        AllocateKeeps(registry, model, generation);
      }
    case EndSweep =>
      if model.session.Some? {
        EndSweepKeeps(registry, model);
      }
    case Sweep(generation, dropped, done) =>
      if model.session.Some? && (model.session.value.phase.Sweeping? || model.session.value.phase.Cleaning?) {
        SweepKeeps(registry, model, model.session.value.phase.after, generation, dropped, done);
      }
    case Clear(dropped, done) =>
      if model.session.Some? && model.session.value.phase.Clearing? {
        RemovalKeeps(registry, model, model.session.value.phase.orphan, dropped, done, Some(Sweeping(-1)));
      }
    case Scrap(dropped, done) =>
      if model.session.Some? && model.session.value.phase.Discarding? {
        RemovalKeeps(registry, model, model.session.value.phase.scratch, dropped, done, None);
      }
    case Discard =>
      if model.session.Some? {
        DiscardKeeps(registry, model);
      }
    case _ =>
      if model.session.Some? && model.session.value.phase.Building? {
        var purpose := model.session.value.purpose;
        if step.Replay? || (step.Finish? && purpose.Rebuild?) || (step.Pin? && purpose.Verify?) {
          ReplayKeeps(registry, model, step.count, step);
        }
      }
  }

  lemma {:induction false} RunKeeps(registry: Registry, model: Model, steps: seq<Step>)
    requires Inv(registry, model)
    ensures Inv(registry, Run(registry, model, steps))
    decreases |steps|
  {
    if steps != [] {
      StepKeeps(registry, model, steps[0]);
      RunKeeps(registry, After(registry, model, steps[0]), steps[1..]);
    }
  }

  lemma NoSteps(registry: Registry, model: Model)
    ensures Run(registry, model, []) == model
  {
    hide After;
  }

  lemma {:induction false} RunSplits(registry: Registry, model: Model, left: seq<Step>, right: seq<Step>)
    ensures Run(registry, model, left + right) == Run(registry, Run(registry, model, left), right)
    decreases |left|
  {
    hide After;
    if left == [] {
      assert left + right == right;
    } else {
      assert (left + right)[1..] == left[1..] + right;
      RunSplits(registry, After(registry, model, left[0]), left[1..], right);
    }
  }

  lemma RunAppends(registry: Registry, model: Model, steps: seq<Step>, step: Step)
    ensures Run(registry, model, steps + [step]) == After(registry, Run(registry, model, steps), step)
  {
    hide After;
    RunSplits(registry, model, steps, [step]);
    var found := Run(registry, model, steps);
    assert [step] + [] == [step];
    RunOn(registry, found, step, [], After(registry, found, step));
  }

  // ----- the main results -----

  lemma FreshProjectsFit(registry: Registry, model: Model)
    requires Fresh(model)
    ensures Inv(registry, model)
  {
  }

  /** Whatever commands, rebuilds, verifications, cleanups and crashes follow
      each other, the live documents are those of one replay of the chain, and
      the marked generation holds all the documents of a replay of its applied
      events or, once its removal has begun, strictly fewer of its rows. */
  lemma ViewsAreReplaysInEveryRun(registry: Registry, model: Model, steps: seq<Step>)
    requires Fresh(model)
    ensures var project := Run(registry, model, steps).project;
            && (project.gen.Some? && Live(project) in project.stamps ==>
                  Some(ContentsOf(project, Live(project)))
                  == Replayed(registry, VersionsOf(project.stamps[Live(project)]), project.chain))
            && (Marked(project).Some? ==>
                  var marker := Marked(project).value;
                  && marker.applied <= |project.chain|
                  && HoldsReplay(ContentsOf(project, marker.generation),
                                 Replayed(registry, VersionsOf(StampsIn(project, marker.generation)), project.chain[..marker.applied]),
                                 Run(registry, model, steps).torn))
  {
    FreshProjectsFit(registry, model);
    RunKeeps(registry, model, steps);
    hide Replayed, Run, VersionsOf, RowIds;
  }

  /** Two runs that end with one chain and one set of projectors show the same
      documents, however their events were batched, built and flipped. */
  lemma RunsAgree(registry: Registry, one: Model, steps: seq<Step>, other: Model, others: seq<Step>)
    requires Fresh(one) && Fresh(other)
    requires var left, right := Run(registry, one, steps).project, Run(registry, other, others).project;
             && left.chain == right.chain && left.gen.Some? && right.gen.Some?
             && LiveStamps(left) != map[] && VersionsOf(LiveStamps(left)) == VersionsOf(LiveStamps(right))
    ensures var left, right := Run(registry, one, steps).project, Run(registry, other, others).project;
            ContentsOf(left, Live(left)) == ContentsOf(right, Live(right))
  {
    ViewsAreReplaysInEveryRun(registry, one, steps);
    ViewsAreReplaysInEveryRun(registry, other, others);
    var left, right := Run(registry, one, steps).project, Run(registry, other, others).project;
    hide Replayed, Run;
    var view :| view in LiveStamps(left);
    assert view in VersionsOf(LiveStamps(right));
  }

  /** Only a command changes the live rows, and only a flip or the first stamp
      moves the live generation; no cleanup ever deletes a live row. */
  lemma CleanupKeepsLiveRows(registry: Registry, model: Model, step: Step)
    requires Inv(registry, model)
    requires !step.Command? && !step.Finish? && !step.StampEmpty?
    ensures var before, next := model.project, After(registry, model, step).project;
            && Live(next) == Live(before) && LiveStamps(next) == LiveStamps(before)
            && ContentsOf(next, Live(next)) == ContentsOf(before, Live(before))
  {
    hide Replayed, BatchAll, VersionsOf, StampsOf, JudgeSet, LiveIsReplay, NotPast, Spare, RowIds, FencesHold,
         BuildingIsReplay, AfterSweep, AfterRemoval, AfterReplay;
    if model.session.Some? {
      match model.session.value.phase
      case Clearing(orphan) =>
        if step.Clear? {
          RemovalLeavesLive(model, orphan, step.dropped, step.done, Some(Sweeping(-1)));
        }
      case Discarding(scratch) =>
        if step.Scrap? {
          RemovalLeavesLive(model, scratch, step.dropped, step.done, None);
        }
      case Sweeping(after) =>
        if step.Sweep? {
          SweepLeavesLive(model, after, step.generation, step.dropped, step.done);
        }
      case Cleaning(after) =>
        if step.Sweep? {
          SweepLeavesLive(model, after, step.generation, step.dropped, step.done);
        }
      case Building(generation) =>
        if step.Replay? || step.Pin? {
          ReplayLeavesLive(registry, model, step.count, step);
        }
      case _ =>
    }
  }

  ghost predicate SameLive(before: Project, next: Project) {
    && Live(next) == Live(before) && LiveStamps(next) == LiveStamps(before)
    && ContentsOf(next, Live(next)) == ContentsOf(before, Live(before))
  }

  lemma RemovalLeavesLive(model: Model, generation: nat, dropped: set<RowId>, done: bool, next: Option<Phase>)
    requires model.session.Some?
    ensures SameLive(model.project, AfterRemoval(model, generation, dropped, done, next).project)
  {
    if Removable(model.project, generation, dropped, done) {
      RemovalKeepsLive(model.project, generation, dropped, done, true);
      hide Removed, Removable;
    }
  }

  lemma SweepLeavesLive(model: Model, after: int, generation: nat, dropped: set<RowId>, done: bool)
    requires model.session.Some? && (model.session.value.phase.Sweeping? || model.session.value.phase.Cleaning?)
    ensures SameLive(model.project, AfterSweep(model, after, generation, dropped, done).project)
  {
    if Removable(model.project, generation, dropped, done) {
      RemovalKeepsLive(model.project, generation, dropped, done, false);
      hide Removed, Removable, LowestSpare;
    }
  }

  lemma ReplayLeavesLive(registry: Registry, model: Model, count: nat, step: Step)
    requires model.session.Some? && model.session.value.phase.Building? && (step.Replay? || step.Pin?)
    requires Marked(model.project).Some? && Live(model.project) < Marked(model.project).value.generation
    ensures SameLive(model.project, AfterReplay(registry, model, count, step).project)
  {
    hide BatchAll;
  }

  /** A removal batch takes at most its bound of rows, and at least one, until
      the generation is gone. */
  lemma RemovalProgresses(project: Project, generation: nat, dropped: set<RowId>, done: bool, marker: bool)
    requires Removable(project, generation, dropped, done)
    ensures var before := RowIds(ContentsOf(project, generation));
            var left := RowIds(ContentsOf(Removed(project, generation, dropped, done, marker), generation));
            if done then !Stored(Removed(project, generation, dropped, done, marker), generation)
            else left == before - dropped && |left| < |before| <= |left| + BATCH_ROWS
  {
    var next := Removed(project, generation, dropped, done, marker);
    var before := RowIds(ContentsOf(project, generation));
    if done {
      NoRowsLeft(next, generation);
    } else {
      assert RowIds(ContentsOf(next, generation)) == before - dropped;
      assert before == (before - dropped) + dropped;
    }
  }

  /** A finished cleanup leaves the live generation and nothing else. */
  lemma CleanupLeavesOnlyTheLive(registry: Registry, model: Model)
    requires Inv(registry, model)
    requires model.session.Some? && model.session.value.phase.Cleaning?
    requires After(registry, model, EndSweep).session.None?
    ensures forall generation: nat :: Stored(After(registry, model, EndSweep).project, generation) ==>
              generation == Live(model.project)
    ensures Marked(model.project).None?
  {
    var after := model.session.value.phase.after;
    forall generation: nat | Stored(model.project, generation) ensures generation == Live(model.project) {
      assert !Spare(model.project, generation) by {
        assert generation <= after || after < generation;
      }
    }
  }

  /** A new generation is past every one that has been live. */
  lemma NumbersAreNotLiveAgain(registry: Registry, model: Model, generation: nat)
    requires Inv(registry, model)
    requires After(registry, model, Allocate(generation)) != model
    ensures forall once :: once in model.everLive ==> once < generation
    ensures Marked(After(registry, model, Allocate(generation)).project) == Some(Marker(generation, 0))
  {
    hide LiveIsReplay, BuildingIsReplay, FencesHold, SessionFits, Stored, StampsOf, Blank, Numbered;
  }

  lemma LiveGoesUp(registry: Registry, model: Model, step: Step)
    requires Inv(registry, model)
    ensures var next := After(registry, model, step);
            && model.everLive <= next.everLive
            && (Live(next.project) == Live(model.project) || Live(model.project) < Live(next.project))
            && (next.project.gen.Some? && next.project.gen != model.project.gen && Live(next.project) != Live(model.project) ==>
                  Live(next.project) !in model.everLive)
  {
    hide Replayed, BatchAll, VersionsOf, StampsOf, JudgeSet, LiveIsReplay, NotPast, LowestSpare, Spare, RowIds, BuildingIsReplay,
         FencesHold, SessionFits, Numbered, JudgeRequest, Without, Blank;
  }

  /** Live generation numbers only go up, over any run. */
  lemma {:induction false} LiveNumbersNeverComeBack(registry: Registry, model: Model, steps: seq<Step>)
    requires Inv(registry, model)
    ensures var next := Run(registry, model, steps);
            model.everLive <= next.everLive && Live(model.project) <= Live(next.project)
    decreases |steps|
  {
    if steps != [] {
      LiveGoesUp(registry, model, steps[0]);
      StepKeeps(registry, model, steps[0]);
      LiveNumbersNeverComeBack(registry, After(registry, model, steps[0]), steps[1..]);
    }
  }

  // ----- fences -----

  /** A command writes only where every live stamp is its own binary's. */
  lemma CommandsWriteTheirOwnViews(registry: Registry, model: Model, binary: Binary, events: seq<Event>)
    requires After(registry, model, Command(binary, events)) != model
    ensures model.project.gen.Some? && LiveStamps(model.project) == StampsOf(binary)
  {
    FencesAreExact(binary, Seen(model.project));
  }

  /** What a flip does to the live stamps, in terms of the binary that stamped
      the project while the session ran. */
  lemma FlipsGoForwardUnlessOvertaken(registry: Registry, model: Model, count: nat)
    requires Inv(registry, model)
    requires model.session.Some? && model.session.value.phase.Building?
    requires Live(After(registry, model, Finish(count)).project) != Live(model.project)
    ensures LiveStamps(After(registry, model, Finish(count)).project) == StampsOf(model.session.value.binary)
    ensures NotPast(model.session.value.binary, LiveStamps(model.project))
            <==> model.overtaken.None? || NotPast(model.session.value.binary, StampsOf(model.overtaken.value))
  {
    hide Replayed, BatchAll, VersionsOf, JudgeSet, LiveIsReplay, NotPast, StampsOf;
  }

  /** A project with a row, or with any event, is never stamped empty. */
  predicate InUse(project: Project) {
    project.gen.Some? || project.chain != []
  }

  /** No running session has been overtaken. What an earlier one left behind
      does not matter: the next start forgets it. */
  predicate NotOvertaken(model: Model) {
    model.session.Some? ==> model.overtaken.None?
  }

  /** Once a project has its row or an event, no session can be overtaken. */
  lemma OnlyUnusedProjectsAreOvertaken(registry: Registry, model: Model, step: Step)
    requires InUse(model.project)
    ensures var next := After(registry, model, step);
            && InUse(next.project) && (model.project.gen.Some? ==> next.project.gen.Some?)
            && model.project.chain <= next.project.chain
            && (NotOvertaken(model) ==> NotOvertaken(next))
  {
    hide Replayed, BatchAll, VersionsOf, JudgeSet, JudgeRequest, NotPast, StampsOf, LowestSpare, Spare, RowIds, Numbered;
  }

  /** The live stamps stay, or a session that they are not past flips. */
  ghost predicate MovesForward(before: Model, next: Model) {
    || LiveStamps(next.project) == LiveStamps(before.project)
    || (before.session.Some? && Declares(before.session.value.binary)
        && NotPast(before.session.value.binary, LiveStamps(before.project))
        && LiveStamps(next.project) == StampsOf(before.session.value.binary))
  }

  lemma LiveStampsMoveForward(registry: Registry, model: Model, step: Step)
    requires Inv(registry, model) && model.project.gen.Some? && NotOvertaken(model)
    ensures MovesForward(model, After(registry, model, step))
  {
    hide Replayed, BatchAll, JudgeSet, JudgeRequest, LiveIsReplay, BuildingIsReplay, Spare, AfterReplay, AfterSweep, AfterRemoval,
         AfterStart, Numbered, NotPast, StampsOf;
    if step.Command? || step.StampEmpty? {
    } else if !step.Finish? {
      CleanupKeepsLiveRows(registry, model, step);
    } else if model.session.Some? && model.session.value.phase.Building? {
      if Live(After(registry, model, step).project) != Live(model.project) {
        FlipsGoForwardUnlessOvertaken(registry, model, step.count);
      } else {
        FinishWithoutFlip(registry, model, step.count);
      }
    }
  }

  lemma FinishWithoutFlip(registry: Registry, model: Model, count: nat)
    requires Inv(registry, model)
    requires Live(After(registry, model, Finish(count)).project) == Live(model.project)
    ensures LiveStamps(After(registry, model, Finish(count)).project) == LiveStamps(model.project)
  {
    hide Replayed, BatchAll, VersionsOf, JudgeSet, LiveIsReplay, NotPast, StampsOf;
  }

  // ----- a rebuild that was overtaken -----

  const OLD_BINARY := Binary(1, map[REQUEST_VIEW := 1])

  const NEW_BINARY := Binary(2, map[REQUEST_VIEW := 1])

  function EmptyProject(): Model {
    Model(Project([], None, map[], map[]), None, {}, false, None)
  }

  /** The old binary starts a rebuild of an unused project, the new one stamps
      it, and the rebuild goes on. */
  function OvertakenRun(): seq<Step> {
    [Start(OLD_BINARY, Rebuild), StampEmpty(NEW_BINARY), EndSweep, Allocate(1), Finish(0)]
  }

  lemma OvertakenStart(registry: Registry)
    ensures var model := After(registry, After(registry, EmptyProject(), Start(OLD_BINARY, Rebuild)), StampEmpty(NEW_BINARY));
            model == Model(Stamped(Project([], Some(GenRow(0, None)), map[], map[]), NEW_BINARY, 0),
                           Some(Session(OLD_BINARY, Rebuild, Sweeping(-1))), {0}, false, Some(NEW_BINARY))
  {
  }

  /** Nothing is spare while only generation 0 is stamped and live. */
  lemma NothingToSweep(project: Project)
    requires project == Stamped(Project([], Some(GenRow(0, None)), map[], map[]), NEW_BINARY, 0)
    ensures (forall generation: nat :: !Spare(project, generation)) && NextGeneration(project, 1)
  {
    forall generation: nat | generation != 0 ensures !Stored(project, generation) {
      NoRowsLeft(project, generation);
    }
  }

  /** The set version goes down from 2 to 1: the one run in which it can. */
  lemma AStaleRebuildTakesTheSetBack(registry: Registry)
    ensures LiveStamps(Run(registry, EmptyProject(), OvertakenRun()[..2]).project) == StampsOf(NEW_BINARY)
    ensures LiveStamps(Run(registry, EmptyProject(), OvertakenRun()).project) == StampsOf(OLD_BINARY)
  {
    var steps := OvertakenRun();
    var started := After(registry, EmptyProject(), steps[0]);
    var stamped := After(registry, started, steps[1]);
    OvertakenStart(registry);
    var swept := After(registry, stamped, steps[2]);
    var marked := After(registry, swept, steps[3]);
    OvertakenBuild(registry, stamped);
    assert steps[..2] == [steps[0], steps[1]];
    hide After;
    RunOfTwo(registry, EmptyProject(), steps[0], steps[1]);
    RunOfFive(registry, EmptyProject(), steps[0], steps[1], steps[2], steps[3], steps[4]);
  }

  lemma OvertakenBuild(registry: Registry, stamped: Model)
    requires stamped == Model(Stamped(Project([], Some(GenRow(0, None)), map[], map[]), NEW_BINARY, 0),
                              Some(Session(OLD_BINARY, Rebuild, Sweeping(-1))), {0}, false, Some(NEW_BINARY))
    ensures LiveStamps(After(registry, After(registry, After(registry, stamped, EndSweep), Allocate(1)), Finish(0)).project)
            == StampsOf(OLD_BINARY)
  {
    NothingToSweep(stamped.project);
    hide StampsOf, Blank, BatchAll, Spare, NextGeneration;
    var swept := After(registry, stamped, EndSweep);
    assert swept == At(stamped, Allocating);
    var marked := After(registry, swept, Allocate(1));
    assert marked.project == Allocated(stamped.project, OLD_BINARY, 1);
    EmptyReplay(registry, marked.project, OLD_BINARY, 1);
    hide BatchReplayed;
    assert After(registry, marked, Finish(0)).project == Flipped(marked.project);
  }

  lemma EmptyReplay(registry: Registry, project: Project, binary: Binary, generation: nat)
    requires project.chain == [] && project.gen.Some? && project.gen.value.building == Some(Marker(generation, 0))
    requires generation in project.rows && project.rows[generation] == Blank(binary.views)
    ensures BatchReplayed(registry, project, binary, generation, 0) == Some(project)
  {
    NothingReplayed(registry, binary.views);
    BatchAllResumes(registry, binary.views, map[], [], []);
    assert project.chain[0..0] == [];
    assert project.rows[generation := Blank(binary.views)] == project.rows;
  }

  lemma RunOn(registry: Registry, model: Model, step: Step, rest: seq<Step>, next: Model)
    requires next == After(registry, model, step)
    ensures Run(registry, model, [step] + rest) == Run(registry, next, rest)
  {
    hide After;
    assert ([step] + rest)[1..] == rest;
  }

  lemma RunOfTwo(registry: Registry, model: Model, a: Step, b: Step)
    ensures Run(registry, model, [a, b]) == After(registry, After(registry, model, a), b)
  {
    hide After;
    var next := After(registry, model, a);
    assert [a, b] == [a] + ([b] + []);
    RunOn(registry, model, a, [b] + [], next);
    RunOn(registry, next, b, [], After(registry, next, b));
  }

  lemma RunOfFive(registry: Registry, model: Model, a: Step, b: Step, c: Step, d: Step, e: Step)
    ensures Run(registry, model, [a, b, c, d, e])
            == After(registry, After(registry, After(registry, After(registry, After(registry, model, a), b), c), d), e)
  {
    hide After;
    var first := After(registry, model, a);
    var second := After(registry, first, b);
    var third := After(registry, second, c);
    assert [a, b, c, d, e] == [a] + ([b] + ([c] + [d, e]));
    RunOn(registry, model, a, [b] + ([c] + [d, e]), first);
    RunOn(registry, first, b, [c] + [d, e], second);
    RunOn(registry, second, c, [d, e], third);
    RunOfTwo(registry, third, d, e);
  }
}
