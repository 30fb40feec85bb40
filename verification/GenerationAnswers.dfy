/** When each transaction over a project's view generations goes through, and
    what it leaves as it was (crates/baley-store-sqlite/src/rebuild.rs, view.rs
    and the `write` of transact.rs). */
module GenerationAnswers {
  import opened Wrappers
  import opened Views
  import opened Projection
  import opened Fences
  import opened Generations

  /** No view's projector refuses these events over these rows. */
  ghost predicate Accepted(registry: Registry, versions: Versions, contents: Contents, events: seq<Event>) {
    forall view :: view in versions ==> ViewBatch(registry, versions, contents, events, view).Ok?
  }

  /** Nothing but these rows moved between two states of one project. */
  ghost predicate OnlyRows(before: Project, next: Project, generation: nat) {
    && next.stamps == before.stamps && Live(next) == Live(before)
    && forall other: nat :: other != generation ==> ContentsOf(next, other) == ContentsOf(before, other)
  }

  /** A command's events are written exactly where the live stamps are its own
      binary's, they follow the head and no view refuses them. */
  lemma CommandsAreWritten(registry: Registry, project: Project, binary: Binary, events: seq<Event>)
    ensures Commanded(registry, project, binary, events).Some?
            <==> && Declares(binary) && project.gen.Some? && LiveStamps(project) == StampsOf(binary) && events != []
                 && (forall at :: 0 <= at < |events| ==> events[at].sequence == |project.chain| + 1 + at)
                 && Accepted(registry, binary.views, ContentsOf(project, Live(project)), events)
  {
    FencesSayOwn(project, binary);
    RowsOf(registry, binary, ContentsOf(project, Live(project)), events);
    hide JudgeSet, JudgeRequest, StampsOf, BatchAll, Accepted, ContentsOf, LiveStamps, Seen;
  }

  /** Both fences are current exactly where the live stamps are the binary's. */
  lemma FencesSayOwn(project: Project, binary: Binary)
    ensures JudgeRequest(binary, Seen(project)) == Some(Current(Live(project))) && JudgeSet(binary, Seen(project)).Current?
            <==> Declares(binary) && project.gen.Some? && LiveStamps(project) == StampsOf(binary)
  {
    FencesAreExact(binary, Seen(project));
    if Declares(binary) {
      RequestFollowsSet(binary, Seen(project));
    }
    hide JudgeSet, StampsOf;
  }

  /** The chain of a written command ends with all of its events, and each view's
      live rows are what their batch leaves; nothing else moves. */
  lemma CommandsWriteTheirEvents(registry: Registry, project: Project, binary: Binary, events: seq<Event>)
    requires Commanded(registry, project, binary, events).Some?
    ensures var next := Commanded(registry, project, binary, events).value;
            && next.chain == project.chain + events && next.gen == project.gen && OnlyRows(project, next, Live(project))
            && forall view :: view in binary.views ==>
                 Ok(TableIn(ContentsOf(next, Live(project)), view))
                 == ViewBatch(registry, binary.views, ContentsOf(project, Live(project)), events, view)
  {
    hide JudgeSet, JudgeRequest, BatchAll, ViewBatch, TableIn, Numbered;
    RowsOf(registry, binary, ContentsOf(project, Live(project)), events);
  }

  lemma RowsOf(registry: Registry, binary: Binary, contents: Contents, events: seq<Event>)
    ensures BatchAll(registry, binary.views, contents, events).Some? <==> Accepted(registry, binary.views, contents, events)
    ensures BatchAll(registry, binary.views, contents, events).Some? ==>
              forall view :: view in binary.views ==>
                Ok(TableIn(BatchAll(registry, binary.views, contents, events).value, view))
                == ViewBatch(registry, binary.views, contents, events, view)
  {
    hide ViewBatch;
  }

  /** A replay turn goes through with up to 200 of the next events, none only at
      the head, exactly where no view refuses them. */
  lemma ReplayTurnsAreBounded(registry: Registry, project: Project, binary: Binary, generation: nat, count: nat)
    requires Marked(project).Some? && Marked(project).value.generation == generation
    ensures var applied := Marked(project).value.applied;
            BatchReplayed(registry, project, binary, generation, count).Some?
            <==> && count <= 200 && applied + count <= |project.chain| && (count == 0 ==> applied == |project.chain|)
                 && Accepted(registry, binary.views, ContentsOf(project, generation), project.chain[applied..applied + count])
  {
    var applied := Marked(project).value.applied;
    if applied + count <= |project.chain| {
      RowsOf(registry, binary, ContentsOf(project, generation), project.chain[applied..applied + count]);
    }
    hide BatchAll, Accepted, ContentsOf;
  }

  /** It moves the marker past exactly those events and writes their batch to
      that generation and to no other. */
  lemma ReplayTurnsWriteOneBatch(registry: Registry, project: Project, binary: Binary, generation: nat, count: nat)
    requires BatchReplayed(registry, project, binary, generation, count).Some?
    ensures Marked(project).Some? && Marked(project).value.applied + count <= |project.chain|
    ensures var applied := Marked(project).value.applied;
            var next := BatchReplayed(registry, project, binary, generation, count).value;
            && next.chain == project.chain && Marked(next) == Some(Marker(generation, applied + count))
            && OnlyRows(project, next, generation)
            && forall view :: view in binary.views ==>
                 Ok(TableIn(ContentsOf(next, generation), view))
                 == ViewBatch(registry, binary.views, ContentsOf(project, generation), project.chain[applied..applied + count], view)
  {
    hide BatchAll, ViewBatch, TableIn;
    var applied := Marked(project).value.applied;
    RowsOf(registry, binary, ContentsOf(project, generation), project.chain[applied..applied + count]);
  }

  /** A rebuild starts exactly where the lock is free and no live stamp is past
      the binary, a verification where they are its own and nothing is marked;
      a marked generation is cleared before anything else, and a rebuild sweeps
      before it allocates. */
  lemma StartAnswers(registry: Registry, model: Model, binary: Binary, purpose: Purpose)
    requires model.session.None? && Declares(binary)
    ensures var next := After(registry, model, Start(binary, purpose));
            && next.project == model.project
            && (next.session.Some?
                <==> if purpose.Rebuild? then NotPast(binary, LiveStamps(model.project))
                     else model.project.gen.Some? && LiveStamps(model.project) == StampsOf(binary) && Marked(model.project).None?)
            && (next.session.Some? ==>
                  next.session.value
                  == Session(binary, purpose,
                             if Marked(model.project).Some? then Clearing(Marked(model.project).value.generation)
                             else if purpose.Rebuild? then Sweeping(-1) else Allocating))
  {
    FencesAreExact(binary, Seen(model.project));
    hide JudgeSet, StampsOf;
  }

  /** One rebuild or verification at a time. */
  lemma TheLockExcludes(registry: Registry, model: Model, binary: Binary, purpose: Purpose)
    requires model.session.Some?
    ensures After(registry, model, Start(binary, purpose)) == model
  {
    hide JudgeSet;
  }

  /** The first stamp is for a project with no row and no event, and leaves
      generation 0 live with this binary's stamps and no row; elsewhere nothing
      is stamped. */
  lemma FirstStampsAnswer(registry: Registry, model: Model, binary: Binary)
    requires Declares(binary)
    ensures var before, next := model.project, After(registry, model, StampEmpty(binary)).project;
            if before.gen.None? && before.chain == [] then
              && next.gen == Some(GenRow(0, None)) && LiveStamps(next) == StampsOf(binary) && next.chain == []
              && RowIds(ContentsOf(next, 0)) == {}
            else next == before
  {
    hide StampsOf;
  }

  /** A new generation is numbered one past the highest that is live or stored,
      and starts with no row and this binary's stamps. */
  lemma AllocatesOnePast(registry: Registry, model: Model, generation: nat)
    requires model.session.Some? && model.session.value.phase.Allocating?
    ensures var highest := generation - 1;
            After(registry, model, Allocate(generation)) != model
            <==> && (highest == Live(model.project) || (0 <= highest && Stored(model.project, highest)))
                 && Live(model.project) <= highest
                 && forall other: nat :: Stored(model.project, other) ==> other <= highest
    ensures var next := After(registry, model, Allocate(generation)).project;
            next != model.project ==>
              && Marked(next) == Some(Marker(generation, 0)) && StampsIn(next, generation) == StampsOf(model.session.value.binary)
              && RowIds(ContentsOf(next, generation)) == {} && Live(next) == Live(model.project) && next.chain == model.project.chain
  {
    hide StampsOf, Stored;
  }

  /** A generation that has rows or stamps and is neither live nor marked. */
  predicate Removes(project: Project, generation: nat) {
    && (generation in project.stamps || RowIds(ContentsOf(project, generation)) != {})
    && (project.gen.Some? ==> generation != project.gen.value.live) && (project.gen.None? ==> generation != 0)
    && (project.gen.Some? && project.gen.value.building.Some? ==> generation != project.gen.value.building.value.generation)
  }

  /** A sweep takes up the lowest such generation past the last one it finished,
      and it goes on exactly until there is none. */
  lemma SweepsTakeTheLowest(registry: Registry, model: Model, step: Step)
    requires model.session.Some? && (model.session.value.phase.Sweeping? || model.session.value.phase.Cleaning?)
    ensures step.Sweep? && After(registry, model, step) != model ==>
              var after := model.session.value.phase.after;
              && after < step.generation && Removes(model.project, step.generation)
              && forall other: nat :: after < other < step.generation ==> !Removes(model.project, other)
    ensures step.EndSweep? && After(registry, model, step) != model
            ==> forall generation: nat :: model.session.value.phase.after < generation ==> !Removes(model.project, generation)
    ensures step.EndSweep? && After(registry, model, step) == model
            ==> exists generation: nat :: model.session.value.phase.after < generation && Removes(model.project, generation)
  {
    forall generation: nat ensures Spare(model.project, generation) <==> Removes(model.project, generation) {
    }
    hide Spare, Removes, Removable, Removed;
    if step.EndSweep? && After(registry, model, step) == model {
      var generation: nat :| model.session.value.phase.after < generation && Spare(model.project, generation);
      assert Removes(model.project, generation);
    }
  }

  /** No turn deletes more than 200 rows, the last one included, and each but the
      last deletes some; the last leaves nothing. */
  lemma RemovalTurnsAreBounded(project: Project, generation: nat, dropped: set<RowId>, done: bool, marker: bool)
    requires Removable(project, generation, dropped, done)
    ensures var next := Removed(project, generation, dropped, done, marker);
            var before, left := RowIds(ContentsOf(project, generation)), RowIds(ContentsOf(next, generation));
            left <= before && |before| <= |left| + 200 && (if done then left == {} else |left| < |before|)
  {
    var before := RowIds(ContentsOf(project, generation));
    RemovalLeaves(project, generation, dropped, done, marker);
    hide RowIds, ContentsOf, Removed;
    assert before == (before - dropped) + dropped;
  }

  lemma RemovalLeaves(project: Project, generation: nat, dropped: set<RowId>, done: bool, marker: bool)
    requires Removable(project, generation, dropped, done)
    ensures RowIds(ContentsOf(Removed(project, generation, dropped, done, marker), generation))
            == RowIds(ContentsOf(project, generation)) - dropped
  {
  }

  /** Only a verification's scratch generation is discarded. */
  lemma OnlyScratchIsDiscarded(registry: Registry, model: Model)
    requires model.session.Some?
    ensures var session := model.session.value;
            After(registry, model, Discard)
            == match session.phase
               case Building(generation) => if session.purpose.Verify? then At(model, Discarding(generation)) else model
               case Comparing(scratch, _) => At(model, Discarding(scratch))
               case _ => model
  {
  }

  /** A finish turn flips exactly when its batch goes through and leaves no event
      of the chain unapplied. */
  lemma FlipsAreAtTheHead(registry: Registry, model: Model, count: nat)
    requires Inv(registry, model)
    requires model.session.Some? && model.session.value.phase.Building? && model.session.value.purpose.Rebuild?
    ensures var generation := model.session.value.phase.generation;
            var before, next := model.project, After(registry, model, Finish(count)).project;
            && Marked(before).Some? && Marked(before).value.generation == generation
            && (Live(next) == generation
                <==> && BatchReplayed(registry, before, model.session.value.binary, generation, count).Some?
                     && Marked(before).value.applied + count == |before.chain|)
            && (Live(next) != generation ==> Live(next) == Live(before) && LiveStamps(next) == LiveStamps(before))
            && (Live(next) == generation ==>
                  Marked(next).None? && LiveStamps(next) == StampsOf(model.session.value.binary) && next.chain == before.chain)
  {
    hide BatchAll, Replayed, StampsOf, LiveIsReplay, FencesHold, Numbered;
  }

  /** The request view's own fence: an absent or older stamp is behind, a later
      one newer, and only its own projector's is current. */
  lemma RequestFencesAreExact(binary: Binary, live: LiveViews)
    requires REQUEST_VIEW in binary.views
    ensures var stamped := if live.generation.Some? && REQUEST_VIEW in live.stamps then Some(live.stamps[REQUEST_VIEW].projector) else None;
            var declared := binary.views[REQUEST_VIEW];
            && (JudgeRequest(binary, live) == Some(Unstamped) <==> live.generation.None? && live.head == 0)
            && (JudgeRequest(binary, live) == Some(Newer) <==> stamped.Some? && declared < stamped.value)
            && (stamped == Some(declared) <==>
                  live.generation.Some? && JudgeRequest(binary, live) == Some(Current(live.generation.value)))
            && (JudgeRequest(binary, live) == Some(Behind)
                <==> if live.generation.None? then live.head != 0 else stamped.None? || stamped.value < declared)
  {
  }
}
