/** Rebuilds as the store runs them: batch loops over the tables, with other
    connections' commands between the batches and a clock that may end a batch
    early (crates/baley-store-sqlite/src/rebuild.rs). Every method leaves the
    tables where the state machine's steps, named in its ghost result, leave
    them. */
module Rebuilds {
  import opened Wrappers
  import opened Views
  import opened Projection
  import opened Fences
  import opened Generations
  import opened GenerationRuns
  import opened Refusals
  import opened Projecting
  import Merging
  import Sequences

  /** A binary that registers its own request view, as every store does. */
  type Registered = binary: Binary | Declares(binary) witness OLD_BINARY

  /** What another connection gets in between two batches: a command, or the
      first stamp of a project, which takes no maintenance lock either. */
  datatype Other = Commit(binary: Binary, events: seq<Event>) | FirstStamp(stamping: Registered)

  /** What a verification reports: the head it checked and the keys that
      differ, view by view. */
  datatype Report = Report(checked: nat, differing: seq<(string, DocKey)>)

  /** Why there is none: the live views are newer, they were stamped by
      another binary meanwhile, an unfinished generation is in the way, or a
      replay batch was refused. */
  datatype Refusal = ReadOnly | NotCurrent | Unfinished | Unwritten

  class ViewStore {
    const registry: Registry
    var chain: seq<Event>
    var gen: Option<GenRow>
    var stamps: map<nat, Stamps>
    var rows: map<nat, Contents>
    ghost var model: Model

    function Value(): Project
      reads this
    {
      Project(chain, gen, stamps, rows)
    }

    ghost predicate Valid()
      reads this
    {
      model.project == Value() && Inv(registry, model)
    }

    /** The session that holds the maintenance lock is in this phase. */
    ghost predicate In(binary: Binary, purpose: Purpose, phase: Phase)
      reads this
    {
      model.session == Some(Session(binary, purpose, phase))
    }

    constructor (registry: Registry, chain: seq<Event>)
      requires Numbered(chain, 0)
      ensures Valid() && Fresh(model) && this.registry == registry && this.chain == chain
    {
      this.registry := registry;
      this.chain := chain;
      gen, stamps, rows := None, map[], map[];
      model := Model(Project(chain, None, map[], map[]), None, {}, false, None);
      new;
      FreshProjectsFit(registry, model);
    }

    // ----- commands -----

    /** `Work::write`, once the fences let the command through. */
    method Write(binary: Binary, events: seq<Event>) returns (done: bool)
      requires Valid()
      modifies this
      ensures Valid() && model == After(registry, old(model), Command(binary, events))
      ensures done <==> Commanded(registry, old(Value()), binary, events).Some?
    {
      hide Inv, After, BatchAll, Folded, Blank, Commanded;
      StepKeeps(registry, model, Command(binary, events));
      CommandStep(registry, model, binary, events);
      ghost var next := After(registry, model, Command(binary, events));
      var project := Value();
      var live := Live(project);
      if JudgeRequest(binary, Seen(project)) != Some(Current(live)) || !JudgeSet(binary, Seen(project)).Current?
         || events == [] || !Numbered(events, |chain|) {
        return false;
      }
      var staging: Staging := map view | view in binary.views :: map[];
      var contents := ContentsOf(project, live);
      NothingFolded(registry, binary.views, contents, staging);
      for at := 0 to |events|
        invariant Folded(registry, binary.views, contents, events[..at], staging)
        invariant Value() == project && model == old(model)
      {
        assert events[..at] + [events[at]] == events[..at + 1];
        var folded := FoldEvent(registry, binary.views, contents, staging, events[at], events[..at]);
        if folded.None? {
          assert events[..at + 1] + events[at + 1..] == events;
          PartRefused(registry, binary.views, contents, events[..at + 1], events[at + 1..]);
          return false;
        }
        staging := folded.value;
      }
      assert events[..|events|] == events;
      var written := WriteStaged(registry, binary.views, contents, staging, events);
      if written.None? {
        return false;
      }
      chain, rows := chain + events, rows[live := written.value];
      model := next;
      done := true;
    }

    /** `stamp_empty`, which takes no maintenance lock. */
    method StampEmpty(binary: Binary)
      requires Valid() && Declares(binary)
      modifies this
      ensures Valid() && model == After(registry, old(model), Step.StampEmpty(binary))
    {
      StepKeeps(registry, model, Step.StampEmpty(binary));
      model := After(registry, model, Step.StampEmpty(binary));
      if gen.None? && chain == [] {
        gen := Some(GenRow(0, None));
        stamps := stamps[0 := StampsOf(binary)];
        rows := rows[0 := Blank(binary.views)];
      }
    }

    // ----- replay -----

    /** `replay`: at most `BATCH_EVENTS` events, none once the time is spent
        and one is applied; the marker moves with the rows. */
    method ReplayBatch(binary: Binary, generation: nat, spent: nat -> bool) returns (done: bool, applied: nat, caughtUp: bool)
      requires Valid()
      modifies this`rows, this`gen
      ensures done <==> BatchReplayed(registry, old(Value()), binary, generation, applied).Some?
      ensures done ==> Value() == BatchReplayed(registry, old(Value()), binary, generation, applied).value
      ensures done ==> (caughtUp <==> CaughtUp(Value())) && (applied > 0 || caughtUp)
      ensures !done ==> Value() == old(Value())
      ensures !done && Marked(Value()).Some? && Marked(Value()).value.generation == generation ==>
                Unreplayable(registry, Value(), binary, generation, applied)
    {
      hide Inv, BatchAll, Folded;
      applied, caughtUp := 0, false;
      var marked := Marked(Value());
      if marked.None? || marked.value.generation != generation {
        return false, 0, false;
      }
      var from := marked.value.applied;
      MarkerFits(registry, model);
      var contents := ContentsOf(Value(), generation);
      var staging;
      applied, staging := FoldBatch(registry, binary.views, contents, chain[from..], spent);
      assert chain[from..][..applied] == chain[from..from + applied];
      if staging.None? {
        return false, applied, false;
      }
      var written := WriteStaged(registry, binary.views, contents, staging.value, chain[from..from + applied]);
      if written.None? {
        return false, applied, false;
      }
      rows := rows[generation := written.value];
      gen := Some(GenRow(gen.value.live, Some(Marker(generation, from + applied))));
      done, caughtUp := true, from + applied == |chain|;
    }

    /** `apply_one_batch`. */
    method BuildTurn(binary: Binary, purpose: Purpose, generation: nat, spent: nat -> bool)
      returns (done: bool, caughtUp: bool, ghost step: Step)
      requires Valid() && In(binary, purpose, Building(generation))
      modifies this
      ensures Valid() && step.Replay? && model == After(registry, old(model), step)
      ensures In(binary, purpose, Building(generation)) && chain == old(chain)
      ensures done ==> (caughtUp <==> CaughtUp(Value()))
      ensures done && !caughtUp ==> Marked(old(Value())).value.applied < Marked(Value()).value.applied <= |chain|
      ensures done <==> !BatchRefused(registry, old(model), step, binary)
    {
      hide Inv, After, BatchReplayed, Unreplayable;
      BuildingIsMarked(registry, model, binary, purpose, generation);
      var applied;
      done, applied, caughtUp := ReplayBatch(binary, generation, spent);
      step := Replay(applied);
      StepKeeps(registry, model, step);
      ReplayStep(registry, model, binary, purpose, generation, applied);
      ReplayedOrNot(registry, model.project, binary, generation, applied);
      BatchAdvances(registry, model.project, binary, generation, applied);
      model := After(registry, model, step);
    }

    /** A turn of `finish`: the tail and, if that reached the head, the flip. */
    method FinishTurn(binary: Binary, generation: nat, spent: nat -> bool) returns (done: bool, caughtUp: bool, ghost step: Step)
      requires Valid() && In(binary, Rebuild, Building(generation))
      modifies this
      ensures Valid() && step.Finish? && model == After(registry, old(model), step) && chain == old(chain)
      ensures done && caughtUp ==> In(binary, Rebuild, Cleaning(-1)) && Live(Value()) == generation
      ensures done && caughtUp ==> LiveStamps(Value()) == StampsOf(binary)
      ensures !done || !caughtUp ==> In(binary, Rebuild, Building(generation))
      ensures done && !caughtUp ==> Marked(old(Value())).value.applied < Marked(Value()).value.applied <= |chain|
      ensures done && caughtUp ==> Marked(Value()).None? && gen.Some?
      ensures done <==> !BatchRefused(registry, old(model), step, binary)
    {
      hide Inv, After, BatchReplayed, StampsOf, Unreplayable;
      BuildingIsMarked(registry, model, binary, Rebuild, generation);
      var applied;
      done, applied, caughtUp := ReplayBatch(binary, generation, spent);
      step := Step.Finish(applied);
      StepKeeps(registry, model, step);
      FinishStep(registry, model, binary, generation, applied);
      ReplayedOrNot(registry, model.project, binary, generation, applied);
      BatchAdvances(registry, model.project, binary, generation, applied);
      if done && caughtUp {
        gen := Some(GenRow(generation, None));
      }
      model := After(registry, model, step);
    }

    // ----- removal -----

    /** `remove_rows`: at most `BATCH_ROWS` rows, one at a time, and none once
        the time is spent and one is removed. */
    method RemoveRows(generation: nat, marker: bool, spent: nat -> bool) returns (refused: bool, done: bool, ghost dropped: set<RowId>)
      modifies this`rows, this`gen, this`stamps
      ensures refused <==> generation == Live(old(Value()))
      ensures refused ==> Value() == old(Value())
      ensures !refused ==> Removable(old(Value()), generation, dropped, done)
      ensures !refused ==> Value() == Removed(old(Value()), generation, dropped, done, marker)
    {
      if generation == Live(Value()) {
        return true, false, {};
      }
      var contents;
      contents, done, dropped := DropRows(ContentsOf(Value(), generation), spent);
      refused := false;
      if !done {
        rows := rows[generation := contents];
        return;
      }
      rows := rows - {generation};
      stamps := stamps - {generation};
      if marker && gen.Some? && gen.value.building.Some? && gen.value.building.value.generation == generation {
        gen := Some(gen.value.(building := None));
      }
    }

    // ----- finding generations -----

    /** `next_after`: the lowest generation above one with stamps or rows. */
    method NextAfter(after: int) returns (found: Option<nat>)
      ensures found.None? ==> forall generation: nat :: after < generation ==> !Stored(Value(), generation)
      ensures found.Some? ==> after < found.value && Stored(Value(), found.value)
                              && forall generation: nat :: after < generation < found.value ==> !Stored(Value(), generation)
    {
      var todo := stamps.Keys + rows.Keys;
      found := None;
      while todo != {}
        invariant todo <= stamps.Keys + rows.Keys
        invariant found.Some? ==> after < found.value && Stored(Value(), found.value)
        invariant forall generation: nat :: after < generation && Stored(Value(), generation) && generation !in todo ==>
                    found.Some? && found.value <= generation
      {
        var generation :| generation in todo;
        todo := todo - {generation};
        if after < generation && (generation in stamps || HasRows(ContentsOf(Value(), generation)))
           && (found.None? || generation < found.value) {
          found := Some(generation);
        }
      }
    }

    /** The lowest spare generation, past the live one and the one being
        built. */
    method NextSpare(after: int) returns (found: Option<nat>)
      ensures found.None? ==> forall generation: nat :: after < generation ==> !Spare(Value(), generation)
      ensures found.Some? ==> LowestSpare(Value(), after, found.value)
    {
      var from := after;
      while true
        invariant after <= from
        invariant forall generation: nat :: after < generation <= from ==> !Spare(Value(), generation)
        decreases |StoredAbove(Value(), from)|
      {
        found := NextAfter(from);
        if found.None? || !(found.value == Live(Value())
                            || (Marked(Value()).Some? && found.value == Marked(Value()).value.generation)) {
          return;
        }
        FewerAbove(Value(), from, found.value);
        from := found.value;
      }
    }

    /** `next_generation`. */
    method NextNumber() returns (generation: nat)
      ensures NextGeneration(Value(), generation)
    {
      var highest := Live(Value());
      var todo := stamps.Keys + rows.Keys;
      while todo != {}
        invariant Live(Value()) <= highest
        invariant highest == Live(Value()) || Stored(Value(), highest)
        invariant forall other: nat :: Stored(Value(), other) && other !in todo ==> other <= highest
      {
        var other :| other in todo;
        todo := todo - {other};
        if (other in stamps || HasRows(ContentsOf(Value(), other))) && highest < other {
          highest := other;
        }
      }
      generation := highest + 1;
    }

    // ----- sessions -----

    /** What another connection commits between two batches, if anything. */
    method Between(others: seq<Other>, turn: nat, ghost binary: Binary, ghost start: Model, ghost steps: seq<Step>)
      returns (ghost more: seq<Step>)
      requires Valid() && model == Run(registry, start, steps)
      modifies this
      ensures Valid() && model == Run(registry, start, more) && steps <= more
      ensures ReplayRefused(registry, start, more, binary) <==> ReplayRefused(registry, start, steps, binary)
      ensures model.session == old(model).session && old(model).everLive <= model.everLive
      ensures Interleaved(old(Value()), Value()) && (turn >= |others| ==> Value() == old(Value()))
      ensures KeptLive(old(Value()), Value())
    {
      hide Inv, After, Run, Commanded, Interleaved, ReplayRefused;
      more := steps;
      NothingInterleaved(Value());
      if turn < |others| {
        ghost var step := match others[turn]
          case Commit(committing, events) => Command(committing, events)
          case FirstStamp(stamping) => Step.StampEmpty(stamping);
        OthersInterleave(registry, model, step);
        match others[turn] {
          case Commit(committing, events) =>
            var done := Write(committing, events);
          case FirstStamp(stamping) =>
            StampEmpty(stamping);
        }
        more := steps + [step];
        StepsAppend(registry, start, steps, step, binary);
      }
      OthersKeepLive(old(Value()), Value());
    }

    /** One batch of a sweep: rows of the lowest spare generation, or the end. */
    method SweepTurn(binary: Binary, purpose: Purpose, after: int, cleaning: bool, spent: nat -> bool)
      returns (taken: Option<nat>, done: bool, ghost step: Step)
      requires Valid() && In(binary, purpose, SweepPhase(cleaning, after))
      modifies this
      ensures Valid() && model == After(registry, old(model), step) && chain == old(chain)
      ensures taken.None? ==> if cleaning then model.session.None? else In(binary, purpose, Allocating)
      ensures taken.None? ==> Value() == old(Value()) && OnlyLive(Value())
      ensures taken.Some? ==> In(binary, purpose, SweepPhase(cleaning, if done then taken.value else after))
      ensures taken.Some? ==> Shrunk(old(Value()), Value(), after, if done then taken.value else after, done)
      ensures KeptLive(old(Value()), Value()) && Marked(Value()) == Marked(old(Value())) && model.everLive == old(model).everLive
      ensures !Replays(step)
    {
      hide Inv, After, Removed, Removable, LowestSpare, Spare, OnlyLive;
      var found := NextSpare(after);
      if found.None? {
        step := EndSweep;
        assert model.project == Value();
        StepKeeps(registry, model, step);
        EndStep(registry, model, binary, purpose, after, cleaning);
        model := After(registry, model, step);
        return None, true, step;
      }
      SparesAreNotLive(Value(), after, found.value);
      ghost var dropped;
      var refused;
      refused, done, dropped := RemoveRows(found.value, false, spent);
      step := Step.Sweep(found.value, dropped, done);
      StepKeeps(registry, model, step);
      SweepStep(registry, model, binary, purpose, after, cleaning, found.value, dropped, done);
      SweepShrinks(model.project, after, found.value, dropped, done);
      RemovalKeepsLive(model.project, found.value, dropped, done, false);
      SweepKeepsTheMarker(model.project, found.value, dropped, done);
      model := After(registry, model, step);
      taken := found;
    }

    /** `sweep`: every generation neither live nor being built is removed,
        however soon the clock ends each batch and whatever commits between. */
    method Sweep(binary: Binary, purpose: Purpose, cleaning: bool, others: seq<Other>, spent: (nat, nat) -> bool,
                 ghost start: Model, ghost steps: seq<Step>)
      returns (ghost more: seq<Step>)
      requires Valid() && model == Run(registry, start, steps)
      requires In(binary, purpose, SweepPhase(cleaning, -1))
      modifies this
      ensures Valid() && model == Run(registry, start, more)
      ensures if cleaning then model.session.None? else In(binary, purpose, Allocating)
      ensures ReplayRefused(registry, start, more, binary) <==> ReplayRefused(registry, start, steps, binary)
      ensures OnlyLive(Value()) && KeptLive(old(Value()), Value()) && Marked(Value()) == Marked(old(Value()))
      ensures old(model).everLive <= model.everLive
    {
      hide Inv, After, Run, Shrunk, OnlyLive, Interleaved, SpareAbove, SpareRows, ReplayRefused, BatchRefused;
      more := steps;
      var after: int := -1;
      var turn := 0;
      while true
        invariant Valid() && model == Run(registry, start, more)
        invariant In(binary, purpose, SweepPhase(cleaning, after))
        invariant ReplayRefused(registry, start, more, binary) <==> ReplayRefused(registry, start, steps, binary)
        invariant KeptLive(old(Value()), Value()) && Marked(Value()) == Marked(old(Value()))
        invariant old(model).everLive <= model.everLive
        decreases |SpareAbove(Value(), after)|, |SpareRows(Value())|
      {
        ghost var before, step := Value(), EndSweep;
        var taken, done;
        taken, done, step := SweepTurn(binary, purpose, after, cleaning, TurnSpent(spent, turn));
        StepsAppend(registry, start, more, step, binary);
        more := more + [step];
        if taken.None? {
          return;
        }
        ghost var swept := Value();
        more := Between(others, turn, binary, start, more);
        OthersKeepTheMarker(swept, Value());
        OthersSpareNothing(swept, Value(), if done then taken.value else after);
        ShrunkMeasures(before, swept, after, if done then taken.value else after, done);
        if done {
          after := taken.value;
        }
        turn := turn + 1;
      }
    }

    /** `remove_generation` of the marked generation, its marker with it. */
    method RemoveGeneration(binary: Binary, purpose: Purpose, generation: nat, clearing: bool, others: seq<Other>,
                            spent: (nat, nat) -> bool, ghost start: Model, ghost steps: seq<Step>)
      returns (ghost more: seq<Step>)
      requires Valid() && model == Run(registry, start, steps)
      requires In(binary, purpose, if clearing then Clearing(generation) else Discarding(generation))
      modifies this
      ensures Valid() && model == Run(registry, start, more) && steps <= more
      ensures if clearing then In(binary, purpose, Sweeping(-1)) else model.session.None?
      ensures ReplayRefused(registry, start, more, binary) <==> ReplayRefused(registry, start, steps, binary)
      ensures Marked(Value()).None? && KeptLive(old(Value()), Value()) && old(model).everLive <= model.everLive
    {
      hide Inv, After, Run, Removed, Removable, Interleaved, RowIds, ContentsOf, ReplayRefused, BatchRefused;
      more := steps;
      var turn := 0;
      while true
        invariant Valid() && model == Run(registry, start, more) && steps <= more
        invariant In(binary, purpose, if clearing then Clearing(generation) else Discarding(generation))
        invariant ReplayRefused(registry, start, more, binary) <==> ReplayRefused(registry, start, steps, binary)
        invariant KeptLive(old(Value()), Value()) && old(model).everLive <= model.everLive
        decreases |RowIds(ContentsOf(Value(), generation))|
      {
        MarkedIsNotLive(registry, model, generation);
        ghost var before, dropped := model, {};
        var refused, done;
        refused, done, dropped := RemoveRows(generation, true, TurnSpent(spent, turn));
        ghost var step := if clearing then Clear(dropped, done) else Scrap(dropped, done);
        StepKeeps(registry, model, step);
        RemovalStep(registry, model, binary, purpose, generation, clearing, dropped, done);
        RemovalKeepsLive(model.project, generation, dropped, done, true);
        RemovalProgresses(model.project, generation, dropped, done, true);
        model := After(registry, model, step);
        StepsAppend(registry, start, more, step, binary);
        more := more + [step];
        if done {
          MarkerGone(before.project, generation, dropped);
          return;
        }
        ghost var left := Value();
        more := Between(others, turn, binary, start, more);
        OthersKeepContents(left, Value(), generation);
        turn := turn + 1;
      }
    }

    /** `start` of a rebuild: judged, an unfinished generation and every spare
        one removed, and a new one marked and stamped. */
    method StartRebuild(binary: Binary, others: seq<Other>, sweeping: seq<Other>, spent: (nat, nat) -> bool)
      returns (generation: Option<nat>, ghost steps: seq<Step>)
      requires Valid() && model.session.None? && Declares(binary)
      modifies this
      ensures Valid() && model == Run(registry, old(model), steps)
      ensures generation.None? <==> JudgeSet(binary, Seen(old(Value()))).Newer?
      ensures generation.None? ==> Value() == old(Value())
      ensures generation.Some? ==> In(binary, Rebuild, Building(generation.value))
      ensures generation.Some? ==> Marked(Value()) == Some(Marker(generation.value, 0))
      ensures generation.Some? ==> forall once :: once in old(model).everLive ==> once < generation.value
      ensures !ReplayRefused(registry, old(model), steps, binary)
    {
      steps := [];
      NothingRefused(registry, model, binary);
      hide Inv, After, Run, JudgeSet, OnlyLive, Stamped, NextGeneration, ReplayRefused, BatchRefused;
      ghost var start := model;
      if JudgeSet(binary, Seen(Value())).Newer? {
        return None, [];
      }
      var marked := Marked(Value());
      StartStep(registry, model, binary);
      StepKeeps(registry, model, Start(binary, Rebuild));
      StepsAppend(registry, start, steps, Start(binary, Rebuild), binary);
      model := After(registry, model, Start(binary, Rebuild));
      steps := steps + [Start(binary, Rebuild)];
      if marked.Some? {
        steps := RemoveGeneration(binary, Rebuild, marked.value.generation, true, others, spent, start, steps);
      }
      steps := Sweep(binary, Rebuild, false, sweeping, spent, start, steps);
      var number := NextNumber();
      AllocateStep(registry, model, binary, Rebuild, number);
      StepKeeps(registry, model, Allocate(number));
      StepsAppend(registry, start, steps, Allocate(number), binary);
      gen := Some(GenRow(Live(Value()), Some(Marker(number, 0))));
      stamps := stamps[number := StampsOf(binary)];
      rows := rows[number := Blank(binary.views)];
      model := After(registry, model, Allocate(number));
      steps := steps + [Allocate(number)];
      generation := Some(number);
    }

    /** `finish`: the tail in batches until one turn reaches the head, which
        flips in that same turn; then the cleanup. Other connections may grow
        the chain between turns as often as `others` says. It flips unless a
        batch of this very run was refused, and none is where the chain stays
        acceptable to the binary's projectors. */
    method Finish(binary: Binary, generation: nat, others: seq<Other>, cleaning: seq<Other>, spent: (nat, nat) -> bool)
      returns (flipped: bool, ghost steps: seq<Step>)
      requires Valid() && In(binary, Rebuild, Building(generation))
      modifies this
      ensures Valid() && model == Run(registry, old(model), steps) && model.session.None?
      ensures flipped <==> !ReplayRefused(registry, old(model), steps, binary)
      ensures Acceptable(registry, binary.views, chain) ==> flipped
      ensures flipped ==> Live(Value()) == generation && OnlyLive(Value()) && LiveStamps(Value()) == StampsOf(binary)
      ensures flipped ==> gen.Some? && Marked(Value()).None?
    {
      steps := [];
      NothingRefused(registry, model, binary);
      ghost var start := model;
      hide Inv, After, Run, OnlyLive, Interleaved, CaughtUp, StampsOf, ReplayRefused, BatchRefused, Acceptable;
      var turn := 0;
      while true
        invariant Valid() && model == Run(registry, start, steps)
        invariant In(binary, Rebuild, Building(generation)) && !ReplayRefused(registry, start, steps, binary)
        decreases if turn < |others| then |others| - turn else 0, |chain| - (if Marked(Value()).Some? then Marked(Value()).value.applied else 0)
      {
        ghost var step;
        var done, caughtUp;
        BuildingIsMarked(registry, model, binary, Rebuild, generation);
        done, caughtUp, step := FinishTurn(binary, generation, TurnSpent(spent, turn));
        StepsAppend(registry, start, steps, step, binary);
        steps := steps + [step];
        if !done {
          CrashStep(registry, model);
          StepKeeps(registry, model, Crash);
          StepsAppend(registry, start, steps, Crash, binary);
          model := After(registry, model, Crash);
          steps := steps + [Crash];
          RefusedIsUnacceptable(registry, start, steps, binary);
          return false, steps;
        }
        if caughtUp {
          break;
        }
        BuildingIsMarked(registry, model, binary, Rebuild, generation);
        ghost var built := Value();
        steps := Between(others, turn, binary, start, steps);
        OthersKeepTheMarker(built, Value());
        turn := turn + 1;
      }
      steps := Sweep(binary, Rebuild, true, cleaning, spent, start, steps);
      flipped := true;
    }

    /** A turn of `compare`: a replay batch and, if that reached the head, the
        snapshot the comparison reads. */
    method PinTurn(binary: Binary, generation: nat, spent: nat -> bool) returns (done: bool, caughtUp: bool, ghost step: Step)
      requires Valid() && In(binary, Verify, Building(generation))
      modifies this
      ensures Valid() && step.Pin? && model == After(registry, old(model), step) && chain == old(chain)
      ensures done && caughtUp ==> In(binary, Verify, Comparing(generation, Value()))
      ensures !done || !caughtUp ==> In(binary, Verify, Building(generation))
      ensures done && !caughtUp ==> Marked(old(Value())).value.applied < Marked(Value()).value.applied <= |chain|
      ensures Live(Value()) == Live(old(Value())) && stamps == old(stamps) && gen.Some?
      ensures done <==> !BatchRefused(registry, old(model), step, binary)
    {
      hide Inv, After, BatchReplayed, StampsOf, Unreplayable;
      BuildingIsMarked(registry, model, binary, Verify, generation);
      var applied;
      done, applied, caughtUp := ReplayBatch(binary, generation, spent);
      step := Pin(applied);
      StepKeeps(registry, model, step);
      PinStep(registry, model, binary, generation, applied);
      ReplayedOrNot(registry, model.project, binary, generation, applied);
      BatchAdvances(registry, model.project, binary, generation, applied);
      model := After(registry, model, step);
    }

    /** `bring_current_held`: views behind this binary's are rebuilt and an
        unused project stamped, unless another connection stamps it first. */
    method BringCurrent(binary: Binary, meanwhile: seq<Other>, others: seq<Other>, cleaning: seq<Other>, spent: (nat, nat) -> bool)
      returns (refused: Option<Refusal>, ghost steps: seq<Step>)
      requires Valid() && model.session.None? && Declares(binary)
      modifies this
      ensures Valid() && model == Run(registry, old(model), steps) && model.session.None?
      ensures refused == Some(ReadOnly) <==> JudgeSet(binary, Seen(old(Value()))).Newer?
      ensures refused == Some(Unwritten) <==> ReplayRefused(registry, old(model), steps, binary)
      ensures refused.None? || refused == Some(ReadOnly) || refused == Some(Unwritten)
      ensures !InUse(old(Value())) || JudgeSet(binary, Seen(old(Value()))).Current? ==> refused.None?
      ensures refused.None? ==> gen.Some?
      ensures refused.None? && InUse(old(Value())) ==> LiveStamps(Value()) == StampsOf(binary)
      ensures refused.None? ==>
                Marked(Value()) == if JudgeSet(binary, Seen(old(Value()))).Current? then Marked(old(Value())) else None
    {
      steps := [];
      NothingRefused(registry, model, binary);
      ghost var start := model;
      hide Inv, After, Run, JudgeSet, Interleaved, StampsOf, ReplayRefused, BatchRefused, Acceptable, OnlyLive;
      var found := JudgeSet(binary, Seen(Value()));
      FencesAreExact(binary, Seen(Value()));
      FencesOfRowless(binary, Value());
      if found.Newer? {
        return Some(ReadOnly), steps;
      }
      steps := Between(meanwhile, 0, binary, start, steps);
      JudgedAlike(binary, start.project, Value());
      match found
      case Current(_) =>
        refused := None;
      case Unstamped =>
        StampsAnUnused(registry, model, binary);
        ghost var step := Step.StampEmpty(binary);
        StampEmpty(binary);
        StepsAppend(registry, start, steps, step, binary);
        steps := steps + [step];
        refused := None;
      case Behind =>
        var generation;
        ghost var started, finished;
        generation, started := StartRebuild(binary, others, others, spent);
        RefusalsSplit(registry, start, steps, started, binary);
        RunSplits(registry, start, steps, started);
        steps := steps + started;
        var flipped;
        flipped, finished := Finish(binary, generation.value, others, cleaning, spent);
        RefusalsSplit(registry, start, steps, finished, binary);
        RunSplits(registry, start, steps, finished);
        steps := steps + finished;
        refused := if flipped then None else Some(Unwritten);
    }

    /** `verify_views`: the views are brought current, a scratch generation is
        replayed to the head, compared there and removed. Where there is a
        report nothing differs, however many commands commit meanwhile, and
        for a project in use there is one unless the views were newer, an
        unfinished generation was in the way or a batch was refused. */
    method VerifyViews(binary: Binary, meanwhile: seq<Other>, rebuilding: seq<Other>, others: seq<Other>, removing: seq<Other>,
                       spent: (nat, nat) -> bool)
      returns (report: Result<Report, Refusal>, ghost steps: seq<Step>)
      requires Valid() && model.session.None? && Declares(binary)
      modifies this
      ensures Valid() && model == Run(registry, old(model), steps) && model.session.None?
      ensures report.Ok? ==> report.value.differing == [] && Compared(registry, old(model), steps, binary, report.value.checked)
      ensures report.Ok? ==> Marked(Value()).None? && LiveStamps(Value()) == StampsOf(binary)
      ensures report == Err(Unwritten) <==> ReplayRefused(registry, old(model), steps, binary)
      ensures InUse(old(Value())) ==>
                (report == Err(ReadOnly) <==> JudgeSet(binary, Seen(old(Value()))).Newer?)
                && (report == Err(Unfinished) <==> JudgeSet(binary, Seen(old(Value()))).Current? && Marked(old(Value())).Some?)
                && report != Err(NotCurrent)
      ensures !InUse(old(Value())) ==> gen.Some? && (LiveStamps(Value()) == StampsOf(binary) ==> report.Ok? || report == Err(Unwritten))
      ensures Acceptable(registry, binary.views, chain) ==> report != Err(Unwritten)
    {
      hide Inv, After, Run, JudgeSet, Interleaved, StampsOf, ReplayRefused, BatchRefused, Acceptable, Compared;
      ghost var start := model;
      var refused;
      refused, steps := BringCurrent(binary, meanwhile, rebuilding, removing, spent);
      FencesAreExact(binary, Seen(start.project));
      FencesAreExact(binary, Seen(Value()));
      if refused.Some? {
        RefusedIsUnacceptable(registry, start, steps, binary);
        return Err(refused.value), steps;
      }
      ghost var checking, current := [], Value();
      assert !InUse(start.project) ==> Marked(current).None?;
      report, checking := VerifyCurrent(binary, others, removing, spent);
      RefusalsSplit(registry, start, steps, checking, binary);
      RunSplits(registry, start, steps, checking);
      if report.Ok? {
        ComparedLater(registry, start, steps, checking, binary, report.value.checked);
      }
      steps := steps + checking;
      RefusedIsUnacceptable(registry, start, steps, binary);
      assert LiveStamps(Value()) == StampsOf(binary) ==> JudgeSet(binary, Seen(current)).Current?;
      RefusalCases(report);
    }

    /** The scratch replay and the comparison, for views brought current. */
    method VerifyCurrent(binary: Binary, others: seq<Other>, removing: seq<Other>, spent: (nat, nat) -> bool)
      returns (report: Result<Report, Refusal>, ghost steps: seq<Step>)
      requires Valid() && model.session.None? && Declares(binary) && gen.Some?
      modifies this
      ensures Valid() && model == Run(registry, old(model), steps) && model.session.None?
      ensures report.Ok? ==> report.value.differing == [] && Compared(registry, old(model), steps, binary, report.value.checked)
      ensures report.Ok? ==> Marked(Value()).None?
      ensures report == Err(Unwritten) <==> ReplayRefused(registry, old(model), steps, binary)
      ensures report == Err(ReadOnly) <==> JudgeSet(binary, Seen(old(Value()))).Newer?
      ensures report == Err(NotCurrent) <==> JudgeSet(binary, Seen(old(Value()))).Behind?
      ensures report == Err(Unfinished) <==> JudgeSet(binary, Seen(old(Value()))).Current? && Marked(old(Value())).Some?
      ensures gen.Some? && LiveStamps(Value()) == LiveStamps(old(Value()))
    {
      steps := [];
      NothingRefused(registry, model, binary);
      ghost var start := model;
      hide Inv, After, Run, JudgeSet, Interleaved, NextGeneration, StampsOf, ReplayRefused, BatchRefused, Compared;
      var started;
      started, steps := StartVerify(binary);
      if started.Err? {
        return Err(started.error), steps;
      }
      var generation := started.value;
      var turn := 0;
      while true
        invariant Valid() && model == Run(registry, start, steps)
        invariant In(binary, Verify, Building(generation)) && !ReplayRefused(registry, start, steps, binary)
        invariant gen.Some? && LiveStamps(Value()) == LiveStamps(start.project)
        decreases if turn < |others| then |others| - turn else 0, |chain| - (if Marked(Value()).Some? then Marked(Value()).value.applied else 0)
      {
        ghost var step;
        var done, caughtUp;
        BuildingIsMarked(registry, model, binary, Verify, generation);
        done, caughtUp, step := PinTurn(binary, generation, TurnSpent(spent, turn));
        StepsAppend(registry, start, steps, step, binary);
        steps := steps + [step];
        if !done {
          steps := GiveUp(binary, generation, removing, spent, start, steps);
          return Err(Unwritten), steps;
        }
        if caughtUp {
          break;
        }
        BuildingIsMarked(registry, model, binary, Verify, generation);
        ghost var built := Value();
        steps := Between(others, turn, binary, start, steps);
        OthersKeepTheMarker(built, Value());
        turn := turn + 1;
      }
      PinnedAgrees(registry, model, binary, generation, Value());
      var differing := CompareGenerations(binary, ContentsOf(Value(), generation), ContentsOf(Value(), Live(Value())));
      EqualContentsReportNothing(binary, ContentsOf(Value(), generation), differing);
      var checked := |chain|;
      ghost var pinned, reached := Value(), steps;
      steps := Between(others, turn, binary, start, steps);
      OthersKeepTheMarker(pinned, Value());
      steps := GiveUp(binary, generation, removing, spent, start, steps);
      ComparedAt(registry, start, reached, steps, binary, checked);
      report := Ok(Report(checked, differing));
    }

    /** `start` of a verification. */
    method StartVerify(binary: Binary) returns (generation: Result<nat, Refusal>, ghost steps: seq<Step>)
      requires Valid() && model.session.None? && Declares(binary) && gen.Some?
      modifies this
      ensures Valid() && model == Run(registry, old(model), steps)
      ensures generation.Ok? <==> JudgeSet(binary, Seen(old(Value()))).Current? && Marked(old(Value())).None?
      ensures generation == Err(ReadOnly) <==> JudgeSet(binary, Seen(old(Value()))).Newer?
      ensures generation == Err(NotCurrent) <==> JudgeSet(binary, Seen(old(Value()))).Behind?
      ensures generation == Err(Unfinished) <==> JudgeSet(binary, Seen(old(Value()))).Current? && Marked(old(Value())).Some?
      ensures generation.Err? ==> model == old(model) && generation != Err(Unwritten)
      ensures generation.Ok? ==> In(binary, Verify, Building(generation.value))
      ensures gen.Some? && LiveStamps(Value()) == LiveStamps(old(Value())) && chain == old(chain)
      ensures !ReplayRefused(registry, old(model), steps, binary)
    {
      steps := [];
      NothingRefused(registry, model, binary);
      hide Inv, After, Run, JudgeSet, NextGeneration, ReplayRefused, BatchRefused, StampsOf, Blank;
      ghost var start := model;
      var found := JudgeSet(binary, Seen(Value()));
      FencesAreExact(binary, Seen(Value()));
      match found {
        case Newer => return Err(ReadOnly), [];
        case Behind => return Err(NotCurrent), [];
        case Unstamped => assert false;
        case Current(_) =>
      }
      if Marked(Value()).Some? {
        return Err(Unfinished), [];
      }
      VerifyStep(registry, model, binary);
      StepKeeps(registry, model, Start(binary, Verify));
      StepsAppend(registry, start, steps, Start(binary, Verify), binary);
      model := After(registry, model, Start(binary, Verify));
      steps := steps + [Start(binary, Verify)];
      var number := NextNumber();
      AllocateStep(registry, model, binary, Verify, number);
      AllocationIsNotLive(model.project, number);
      StepKeeps(registry, model, Allocate(number));
      StepsAppend(registry, start, steps, Allocate(number), binary);
      gen := Some(GenRow(Live(Value()), Some(Marker(number, 0))));
      stamps := stamps[number := StampsOf(binary)];
      rows := rows[number := Blank(binary.views)];
      model := After(registry, model, Allocate(number));
      steps := steps + [Allocate(number)];
      generation := Ok(number);
    }

    /** The scratch generation goes, compared or not. */
    method GiveUp(binary: Binary, generation: nat, removing: seq<Other>, spent: (nat, nat) -> bool,
                  ghost start: Model, ghost steps: seq<Step>)
      returns (ghost more: seq<Step>)
      requires Valid() && model == Run(registry, start, steps)
      requires model.session.Some? && model.session.value.binary == binary && model.session.value.purpose == Verify
      requires model.session.value.phase == Building(generation)
               || (model.session.value.phase.Comparing? && model.session.value.phase.scratch == generation)
      requires gen.Some?
      modifies this
      ensures Valid() && model == Run(registry, start, more) && steps <= more && model.session.None? && Marked(Value()).None?
      ensures ReplayRefused(registry, start, more, binary) <==> ReplayRefused(registry, start, steps, binary)
      ensures gen.Some? && LiveStamps(Value()) == LiveStamps(old(Value())) && old(chain) <= chain
    {
      hide Inv, After, Run, ReplayRefused, BatchRefused;
      DiscardStep(registry, model, binary, generation);
      StepKeeps(registry, model, Discard);
      StepsAppend(registry, start, steps, Discard, binary);
      model := After(registry, model, Discard);
      more := RemoveGeneration(binary, Verify, generation, false, removing, spent, start, steps + [Discard]);
    }
  }

  /** A state of the run pinned a snapshot of this many events, scratch and
      live rows both, for this binary's verification to compare. */
  ghost predicate Compared(registry: Registry, model: Model, steps: seq<Step>, binary: Binary, checked: nat) {
    exists at: nat | at <= |steps| :: Pins(Run(registry, model, steps[..at]), binary, checked)
  }

  predicate Pins(model: Model, binary: Binary, checked: nat) {
    && model.session.Some? && model.session.value.binary == binary && model.session.value.phase.Comparing?
    && |model.session.value.phase.pinned.chain| == checked
  }

  lemma ComparedAt(registry: Registry, model: Model, reached: seq<Step>, steps: seq<Step>, binary: Binary, checked: nat)
    requires reached <= steps && Pins(Run(registry, model, reached), binary, checked)
    ensures Compared(registry, model, steps, binary, checked)
  {
    hide Run, Pins;
    assert steps[..|reached|] == reached;
  }

  lemma ComparedLater(registry: Registry, model: Model, before: seq<Step>, steps: seq<Step>, binary: Binary, checked: nat)
    requires Compared(registry, Run(registry, model, before), steps, binary, checked)
    ensures Compared(registry, model, before + steps, binary, checked)
  {
    hide Run, Pins;
    var at: nat :| at <= |steps| && Pins(Run(registry, Run(registry, model, before), steps[..at]), binary, checked);
    RunSplits(registry, model, before, steps[..at]);
    assert before + steps[..at] <= before + steps;
    ComparedAt(registry, model, before + steps[..at], before + steps, binary, checked);
  }

  lemma RefusalCases(report: Result<Report, Refusal>)
    ensures report.Ok? || report == Err(ReadOnly) || report == Err(NotCurrent) || report == Err(Unfinished) || report == Err(Unwritten)
  {
    match report
    case Ok(_) =>
    case Err(refusal) =>
      assert refusal == ReadOnly || refusal == NotCurrent || refusal == Unfinished || refusal == Unwritten;
  }

  /** A key whose rows are missing, extra or unequal. */
  predicate DiffersAt(a: Table, b: Table, key: DocKey) {
    (key in a || key in b) && !(key in a && key in b && a[key] == b[key])
  }

  ghost predicate Reports(binary: Binary, views: set<string>, scratch: Contents, live: Contents, differing: seq<(string, DocKey)>) {
    forall view, key :: (view, key) in differing <==> view in views && DiffersAt(TableIn(scratch, view), TableIn(live, view), key)
  }

  /** Every registered view's rows, key by key: exactly the keys that are
      missing, extra or unequal. */
  method CompareGenerations(binary: Binary, scratch: Contents, live: Contents) returns (differing: seq<(string, DocKey)>)
    ensures Reports(binary, binary.views.Keys, scratch, live, differing)
  {
    differing := [];
    var todo := binary.views.Keys;
    while todo != {}
      invariant todo <= binary.views.Keys
      invariant Reports(binary, binary.views.Keys - todo, scratch, live, differing)
    {
      var view :| view in todo;
      var rebuilt := Merging.ListRows(TableIn(scratch, view));
      var stored := Merging.ListRows(TableIn(live, view));
      var keys := Merging.DifferingKeys(rebuilt, stored);
      RowsDiffer(TableIn(scratch, view), TableIn(live, view), rebuilt, stored);
      var found := seq(|keys|, at requires 0 <= at < |keys| => (view, keys[at]));
      ReportsMore(binary, binary.views.Keys - todo, scratch, live, differing, view, keys, found);
      differing := differing + found;
      assert binary.views.Keys - (todo - {view}) == binary.views.Keys - todo + {view};
      todo := todo - {view};
    }
    assert binary.views.Keys - {} == binary.views.Keys;
  }

  lemma ReportsMore(binary: Binary, views: set<string>, scratch: Contents, live: Contents, differing: seq<(string, DocKey)>,
                    view: string, keys: seq<DocKey>, found: seq<(string, DocKey)>)
    requires Reports(binary, views, scratch, live, differing) && view !in views
    requires forall key :: key in keys <==> DiffersAt(TableIn(scratch, view), TableIn(live, view), key)
    requires |found| == |keys| && forall at :: 0 <= at < |keys| ==> found[at] == (view, keys[at])
    ensures Reports(binary, views + {view}, scratch, live, differing + found)
  {
    hide DiffersAt, TableIn;
    forall other, key ensures (other, key) in found <==> other == view && key in keys {
      if key in keys {
        var at :| 0 <= at < |keys| && keys[at] == key;
        assert found[at] == (view, key);
      }
    }
    forall other, key
      ensures (other, key) in differing + found
        <==> other in views + {view} && DiffersAt(TableIn(scratch, other), TableIn(live, other), key)
    {
    }
  }

  lemma RowsDiffer(a: Table, b: Table, left: seq<Merging.Stored<Document>>, right: seq<Merging.Stored<Document>>)
    requires Sequences.Elements(left) == Merging.RowsOf(a) && Sequences.Elements(right) == Merging.RowsOf(b)
    ensures forall key :: Merging.Differs(left, right, key) <==> DiffersAt(a, b, key)
  {
    forall row: Merging.Stored<Document> ensures row in left <==> row.key in a && row.values == a[row.key] {
      assert row in left <==> row in Merging.RowsOf(a);
    }
    forall row: Merging.Stored<Document> ensures row in right <==> row.key in b && row.values == b[row.key] {
      assert row in right <==> row in Merging.RowsOf(b);
    }
    forall key ensures Merging.Differs(left, right, key) <==> DiffersAt(a, b, key) {
      if DiffersAt(a, b, key) {
        if key in a {
          var at :| 0 <= at < |left| && left[at] == Merging.Stored(key, a[key]);
        }
        if key in b {
          var at :| 0 <= at < |right| && right[at] == Merging.Stored(key, b[key]);
        }
      }
    }
  }

  lemma EqualContentsReportNothing(binary: Binary, contents: Contents, differing: seq<(string, DocKey)>)
    requires Reports(binary, binary.views.Keys, contents, contents, differing)
    ensures differing == []
  {
    FirstIsMember(differing);
  }

  lemma FirstIsMember(pairs: seq<(string, DocKey)>)
    ensures pairs == [] || (pairs[0].0, pairs[0].1) in pairs
  {
  }

  /** The pinned snapshot holds one and the same contents twice. */
  lemma PinnedAgrees(registry: Registry, model: Model, binary: Binary, generation: nat, pinned: Project)
    requires Inv(registry, model) && model.session == Some(Session(binary, Verify, Comparing(generation, pinned)))
    ensures ContentsOf(pinned, generation) == ContentsOf(pinned, Live(pinned))
  {
    hide LiveIsReplay, BuildingIsReplay, FencesHold;
  }

  /** The events of one batch, folded until the bound or the clock stops it. */
  method FoldBatch(registry: Registry, versions: Versions, contents: Contents, tail: seq<Event>, spent: nat -> bool)
    returns (applied: nat, staging: Option<Staging>)
    ensures applied <= |tail| && applied <= BATCH_EVENTS && (applied == 0 ==> tail == [])
    ensures staging.Some? ==> Folded(registry, versions, contents, tail[..applied], staging.value)
    ensures staging.None? ==> BatchAll(registry, versions, contents, tail[..applied]).None?
  {
    hide BatchAll, Folded;
    applied := 0;
    var staged: Staging := map view | view in versions :: map[];
    NothingFolded(registry, versions, contents, staged);
    assert tail[..0] == [];
    while applied < BATCH_EVENTS && applied < |tail| && !(applied > 0 && spent(applied))
      invariant applied <= BATCH_EVENTS && applied <= |tail|
      invariant Folded(registry, versions, contents, tail[..applied], staged)
    {
      assert tail[..applied] + [tail[applied]] == tail[..applied + 1];
      var folded := FoldEvent(registry, versions, contents, staged, tail[applied], tail[..applied]);
      applied := applied + 1;
      if folded.None? {
        assert tail[..applied] + [] == tail[..applied];
        PartRefused(registry, versions, contents, tail[..applied], []);
        return applied, None;
      }
      staged := folded.value;
    }
    staging := Some(staged);
  }

  /** The rows of one removal batch, table by table. */
  method DropRows(before: Contents, spent: nat -> bool) returns (left: Contents, done: bool, ghost dropped: set<RowId>)
    ensures left == Without(before, dropped) && dropped <= RowIds(before) && |dropped| <= BATCH_ROWS
    ensures if done then dropped == RowIds(before) else dropped != {}
  {
    hide Without, RowIds;
    left, dropped := before, {};
    var tables := before.Keys;
    var removed := 0;
    WithoutNone(before);
    while tables != {}
      invariant left == Without(before, dropped) && dropped <= RowIds(before)
      invariant removed == |dropped| <= BATCH_ROWS
      invariant left.Keys == before.Keys && tables <= before.Keys
      invariant forall view :: view in before && view !in tables ==> left[view] == map[]
      decreases |tables|
    {
      var view :| view in tables;
      while true
        invariant left == Without(before, dropped) && dropped <= RowIds(before)
        invariant removed == |dropped| <= BATCH_ROWS
        invariant left.Keys == before.Keys
        invariant forall other :: other in before && other !in tables ==> left[other] == map[]
        decreases BATCH_ROWS - removed
      {
        if removed == BATCH_ROWS || (removed > 0 && spent(removed)) {
          return left, false, dropped;
        }
        if left[view] == map[] {
          break;
        }
        var key :| key in left[view];
        WithoutOneMore(before, dropped, view, key);
        left := left[view := left[view] - {key}];
        dropped := dropped + {RowId(view, key)};
        removed := removed + 1;
      }
      tables := tables - {view};
    }
    AllDropped(before, dropped);
    done := true;
  }

  lemma MarkerFits(registry: Registry, model: Model)
    requires Inv(registry, model)
    ensures Marked(model.project).Some? ==> Marked(model.project).value.applied <= |model.project.chain|
  {
    hide Replayed, NumbersGoUp, SessionFits, FencesHold, Numbered, LiveIsReplay;
  }

  // ----- single steps of the state machine -----

  lemma EndStep(registry: Registry, model: Model, binary: Binary, purpose: Purpose, after: int, cleaning: bool)
    requires Inv(registry, model) && model.session == Some(Session(binary, purpose, SweepPhase(cleaning, after)))
    requires forall generation: nat :: after < generation ==> !Spare(model.project, generation)
    ensures After(registry, model, EndSweep)
            == model.(session := if cleaning then None else Some(Session(binary, purpose, Allocating)))
    ensures OnlyLive(model.project)
  {
    hide LiveIsReplay, BuildingIsReplay, FencesHold, Spare;
    forall generation: nat ensures !Spare(model.project, generation) {
      assert generation <= after || after < generation;
    }
  }

  lemma SweepStep(registry: Registry, model: Model, binary: Binary, purpose: Purpose, after: int, cleaning: bool, generation: nat,
                  dropped: set<RowId>, done: bool)
    requires model.session == Some(Session(binary, purpose, SweepPhase(cleaning, after)))
    requires LowestSpare(model.project, after, generation) && Removable(model.project, generation, dropped, done)
    ensures After(registry, model, Step.Sweep(generation, dropped, done))
            == model.(project := Removed(model.project, generation, dropped, done, false),
                      session := Some(Session(binary, purpose, SweepPhase(cleaning, if done then generation else after))))
  {
    hide LowestSpare, Removable, Removed;
  }

  lemma RemovalStep(registry: Registry, model: Model, binary: Binary, purpose: Purpose, generation: nat, clearing: bool,
                    dropped: set<RowId>, done: bool)
    requires model.session == Some(Session(binary, purpose, if clearing then Clearing(generation) else Discarding(generation)))
    requires Removable(model.project, generation, dropped, done)
    ensures After(registry, model, if clearing then Clear(dropped, done) else Scrap(dropped, done))
            == model.(project := Removed(model.project, generation, dropped, done, true), torn := !done,
                      session := if !done then model.session
                                 else if clearing then Some(Session(binary, purpose, Sweeping(-1))) else None)
  {
    hide Removable, Removed;
  }

  lemma StartStep(registry: Registry, model: Model, binary: Binary)
    requires model.session.None? && Declares(binary) && !JudgeSet(binary, Seen(model.project)).Newer?
    ensures var marked := Marked(model.project);
            After(registry, model, Start(binary, Rebuild))
            == model.(session := Some(Session(binary, Rebuild,
                                              if marked.Some? then Clearing(marked.value.generation) else Sweeping(-1))),
                      overtaken := None)
  {
    hide JudgeSet;
  }

  lemma AllocateStep(registry: Registry, model: Model, binary: Binary, purpose: Purpose, generation: nat)
    requires model.session == Some(Session(binary, purpose, Allocating)) && NextGeneration(model.project, generation)
    requires Inv(registry, model)
    ensures After(registry, model, Allocate(generation))
            == model.(project := model.project.(gen := Some(GenRow(Live(model.project), Some(Marker(generation, 0)))),
                                                stamps := model.project.stamps[generation := StampsOf(binary)],
                                                rows := model.project.rows[generation := Blank(binary.views)]),
                      session := Some(Session(binary, purpose, Building(generation))), torn := false)
    ensures forall once :: once in model.everLive ==> once < generation
  {
    hide LiveIsReplay, BuildingIsReplay, FencesHold, StampsOf, Blank;
  }

  lemma PinStep(registry: Registry, model: Model, binary: Binary, generation: nat, count: nat)
    requires model.session == Some(Session(binary, Verify, Building(generation)))
    ensures var replayed := BatchReplayed(registry, model.project, binary, generation, count);
            After(registry, model, Pin(count))
            == if replayed.None? then model
               else if !CaughtUp(replayed.value) then model.(project := replayed.value)
               else model.(project := replayed.value, session := Some(Session(binary, Verify, Comparing(generation, replayed.value))))
  {
    hide BatchReplayed, CaughtUp;
  }

  lemma VerifyStep(registry: Registry, model: Model, binary: Binary)
    requires model.session.None? && Declares(binary)
    requires JudgeSet(binary, Seen(model.project)).Current? && Marked(model.project).None?
    ensures After(registry, model, Start(binary, Verify))
            == model.(session := Some(Session(binary, Verify, Allocating)), overtaken := None)
  {
    hide JudgeSet;
  }

  lemma DiscardStep(registry: Registry, model: Model, binary: Binary, generation: nat)
    requires model.session.Some? && model.session.value.binary == binary && model.session.value.purpose == Verify
    requires model.session.value.phase == Building(generation)
             || (model.session.value.phase.Comparing? && model.session.value.phase.scratch == generation)
    ensures After(registry, model, Discard) == model.(session := Some(Session(binary, Verify, Discarding(generation))))
  {
  }

  lemma CrashStep(registry: Registry, model: Model)
    ensures After(registry, model, Crash) == model.(session := None)
  {
  }

  lemma CommandStep(registry: Registry, model: Model, binary: Binary, events: seq<Event>)
    ensures var written := Commanded(registry, model.project, binary, events);
            After(registry, model, Command(binary, events))
            == if written.Some? then model.(project := written.value) else model
    ensures JudgeRequest(binary, Seen(model.project)) != Some(Current(Live(model.project)))
            || !JudgeSet(binary, Seen(model.project)).Current? || events == [] || !Numbered(events, |model.project.chain|)
            ==> Commanded(registry, model.project, binary, events).None?
    ensures JudgeRequest(binary, Seen(model.project)) == Some(Current(Live(model.project)))
            && JudgeSet(binary, Seen(model.project)).Current? && events != [] && Numbered(events, |model.project.chain|)
            ==> Commanded(registry, model.project, binary, events)
                == var contents := BatchAll(registry, binary.views, ContentsOf(model.project, Live(model.project)), events);
                   if contents.None? then None
                   else Some(model.project.(chain := model.project.chain + events,
                                            rows := model.project.rows[Live(model.project) := contents.value]))
  {
    hide BatchAll, JudgeRequest, JudgeSet, Numbered;
  }

  lemma ReplayStep(registry: Registry, model: Model, binary: Binary, purpose: Purpose, generation: nat, count: nat)
    requires model.session == Some(Session(binary, purpose, Building(generation)))
    ensures var replayed := BatchReplayed(registry, model.project, binary, generation, count);
            After(registry, model, Replay(count)) == if replayed.Some? then model.(project := replayed.value) else model
  {
    hide BatchReplayed;
  }

  lemma FinishStep(registry: Registry, model: Model, binary: Binary, generation: nat, count: nat)
    requires model.session == Some(Session(binary, Rebuild, Building(generation)))
    ensures var replayed := BatchReplayed(registry, model.project, binary, generation, count);
            After(registry, model, Step.Finish(count))
            == if replayed.None? then model
               else if !CaughtUp(replayed.value) then model.(project := replayed.value)
               else model.(project := Flipped(replayed.value), everLive := model.everLive + {generation},
                           session := Some(Session(binary, Rebuild, Cleaning(-1))))
  {
    hide BatchReplayed, CaughtUp;
    if BatchReplayed(registry, model.project, binary, generation, count).Some? {
      BatchAdvances(registry, model.project, binary, generation, count);
    }
  }

  /** A batch that fits is replayed unless it is refused. */
  lemma ReplayedOrNot(registry: Registry, project: Project, binary: Binary, generation: nat, count: nat)
    ensures BatchReplayed(registry, project, binary, generation, count).Some? ==>
              !Unreplayable(registry, project, binary, generation, count)
  {
    hide BatchAll;
  }

  lemma BatchAdvances(registry: Registry, project: Project, binary: Binary, generation: nat, count: nat)
    ensures var replayed := BatchReplayed(registry, project, binary, generation, count);
            replayed.Some? ==>
              && Marked(project).Some? && Marked(replayed.value).Some?
              && Marked(replayed.value).value == Marker(generation, Marked(project).value.applied + count)
              && Marked(replayed.value).value.applied <= |project.chain|
              && replayed.value.chain == project.chain && replayed.value.stamps == project.stamps
              && replayed.value.gen.Some? && Live(replayed.value) == Live(project)
  {
    hide BatchAll;
  }

  predicate HasRows(contents: Contents)
    ensures HasRows(contents) <==> RowIds(contents) != {}
  {
    HasRowsIsExact(contents);
    exists view :: view in contents && contents[view] != map[]
  }

  lemma HasRowsIsExact(contents: Contents)
    ensures (exists view :: view in contents && contents[view] != map[]) <==> RowIds(contents) != {}
  {
    if view :| view in contents && contents[view] != map[] {
      var key :| key in contents[view];
      assert RowId(view, key) in RowIds(contents);
    }
  }

  function StoredAbove(project: Project, from: int): set<nat> {
    set generation | generation in project.stamps.Keys + project.rows.Keys && from < generation && Stored(project, generation)
  }

  lemma FewerAbove(project: Project, from: int, to: nat)
    requires from < to && Stored(project, to)
    ensures |StoredAbove(project, to)| < |StoredAbove(project, from)|
  {
    assert to in StoredAbove(project, from);
    Sequences.SubsetSize(StoredAbove(project, to), StoredAbove(project, from) - {to});
  }

  lemma WithoutNone(contents: Contents)
    ensures Without(contents, {}) == contents
  {
    forall view | view in contents ensures Without(contents, {})[view] == contents[view] {
    }
  }

  lemma WithoutOneMore(contents: Contents, dropped: set<RowId>, view: string, key: DocKey)
    requires Without(contents, dropped).Keys == contents.Keys
    requires view in contents && key in Without(contents, dropped)[view]
    ensures var left := Without(contents, dropped);
            Without(contents, dropped + {RowId(view, key)}) == left[view := left[view] - {key}]
    ensures RowId(view, key) in RowIds(contents) && RowId(view, key) !in dropped
  {
    var left, next := Without(contents, dropped), Without(contents, dropped + {RowId(view, key)});
    forall other | other in contents
      ensures next[other] == if other == view then left[view] - {key} else left[other]
    {
    }
  }

  lemma AllDropped(contents: Contents, dropped: set<RowId>)
    requires dropped <= RowIds(contents)
    requires forall view :: view in contents ==> view in Without(contents, dropped) && Without(contents, dropped)[view] == map[]
    ensures dropped == RowIds(contents)
  {
    forall id | id in RowIds(contents) ensures id in dropped {
      assert id.key !in Without(contents, dropped)[id.view];
    }
  }

  // ----- what the sessions rely on -----

  function TurnSpent(spent: (nat, nat) -> bool, turn: nat): nat -> bool {
    (work: nat) => spent(turn, work)
  }

  function SweepPhase(cleaning: bool, after: int): Phase {
    if cleaning then Cleaning(after) else Sweeping(after)
  }

  /** What other connections change: the chain grows, the live rows move with
      it, and a project in no use may be stamped. */
  predicate Interleaved(before: Project, next: Project) {
    && before.chain <= next.chain && Live(next) == Live(before) && Marked(next) == Marked(before)
    && next.stamps - {Live(before)} == before.stamps - {Live(before)}
    && next.rows - {Live(before)} == before.rows - {Live(before)}
    && (InUse(before) ==> next.gen == before.gen && next.stamps == before.stamps && (before.gen.None? ==> next == before))
    && (!InUse(before) ==> next == before || (next.gen == Some(GenRow(0, None)) && next.chain == []))
  }

  /** The live generation stayed, with its stamps once there is a row, and no
      event went. */
  predicate KeptLive(before: Project, next: Project) {
    && Live(next) == Live(before) && before.chain <= next.chain
    && (before.gen.Some? ==> next.gen.Some? && LiveStamps(next) == LiveStamps(before))
  }

  lemma OthersKeepLive(before: Project, next: Project)
    requires Interleaved(before, next)
    ensures KeptLive(before, next)
  {
  }

  lemma NothingInterleaved(project: Project)
    ensures Interleaved(project, project)
  {
  }

  lemma OthersInterleave(registry: Registry, model: Model, step: Step)
    requires step.Command? || step.StampEmpty?
    ensures var next := After(registry, model, step);
            && Interleaved(model.project, next.project) && next.session == model.session && model.everLive <= next.everLive
  {
    hide BatchAll, JudgeRequest, Numbered, StampsOf, Blank;
    if step.Command? {
      FencesAreExact(step.binary, Seen(model.project));
    }
    hide JudgeSet;
  }

  lemma OthersKeepContents(before: Project, next: Project, generation: nat)
    requires Interleaved(before, next)
    ensures generation != Live(before) ==>
              ContentsOf(next, generation) == ContentsOf(before, generation)
              && (generation in next.rows <==> generation in before.rows)
              && (generation in next.stamps <==> generation in before.stamps)
  {
    if generation != Live(before) {
      assert generation in before.rows <==> generation in before.rows - {Live(before)};
      assert generation in next.rows <==> generation in next.rows - {Live(before)};
      assert generation in before.stamps <==> generation in before.stamps - {Live(before)};
      assert generation in next.stamps <==> generation in next.stamps - {Live(before)};
      if generation in before.rows {
        assert (before.rows - {Live(before)})[generation] == (next.rows - {Live(before)})[generation];
      }
    }
  }

  lemma OthersKeepTheMarker(before: Project, next: Project)
    requires Interleaved(before, next)
    ensures Marked(next) == Marked(before) && |before.chain| <= |next.chain|
  {
  }

  function SpareAbove(project: Project, after: int): set<nat> {
    set generation | generation in project.stamps.Keys + project.rows.Keys && after < generation && Spare(project, generation)
  }

  function SpareRows(project: Project): set<(nat, RowId)> {
    set generation, id | generation in project.rows && id in RowIds(project.rows[generation]) && Spare(project, generation)
      :: (generation, id)
  }

  lemma OthersSpareNothing(before: Project, next: Project, after: int)
    requires Interleaved(before, next)
    ensures SpareAbove(next, after) == SpareAbove(before, after)
    ensures SpareRows(next) == SpareRows(before)
  {
    forall generation: nat | generation != Live(before)
      ensures ContentsOf(next, generation) == ContentsOf(before, generation)
      ensures generation in next.rows <==> generation in before.rows
      ensures generation in next.stamps <==> generation in before.stamps
      ensures Spare(next, generation) <==> Spare(before, generation)
    {
      OthersKeepContents(before, next, generation);
    }
    hide RowIds;
    forall generation, id ensures (generation, id) in SpareRows(next) <==> (generation, id) in SpareRows(before) {
      NoRowsInNothing();
    }
    forall generation ensures generation in SpareAbove(next, after) <==> generation in SpareAbove(before, after) {
      NoRowsInNothing();
    }
  }

  lemma NoRowsInNothing()
    ensures RowIds(map[]) == {}
  {
  }

  /** A batch of the sweep leaves fewer spare generations ahead, or as many and
      fewer spare rows. */
  predicate Shrunk(before: Project, next: Project, after: int, to: int, done: bool) {
    && |SpareAbove(next, to)| <= |SpareAbove(before, after)|
    && (if done then |SpareAbove(next, to)| < |SpareAbove(before, after)| else |SpareRows(next)| < |SpareRows(before)|)
  }

  lemma ShrunkMeasures(before: Project, next: Project, after: int, to: int, done: bool)
    requires Shrunk(before, next, after, to, done)
    ensures |SpareAbove(next, to)| < |SpareAbove(before, after)|
            || (|SpareAbove(next, to)| == |SpareAbove(before, after)| && |SpareRows(next)| < |SpareRows(before)|)
  {
  }

  lemma SparesAreNotLive(project: Project, after: int, generation: nat)
    requires LowestSpare(project, after, generation)
    ensures generation != Live(project)
  {
  }

  lemma SweepShrinks(project: Project, after: int, generation: nat, dropped: set<RowId>, done: bool)
    requires LowestSpare(project, after, generation) && Removable(project, generation, dropped, done)
    ensures Shrunk(project, Removed(project, generation, dropped, done, false), after, if done then generation else after, done)
  {
    var next := Removed(project, generation, dropped, done, false);
    var to: int := if done then generation else after;
    assert generation in SpareAbove(project, after);
    hide RowIds, Without, Removed, Removable;
    forall other: nat | other != generation
      ensures Spare(next, other) <==> Spare(project, other)
      ensures other in next.rows <==> other in project.rows
      ensures other in next.rows ==> next.rows[other] == project.rows[other]
      ensures other in next.stamps <==> other in project.stamps
    {
      OthersStaySpare(project, generation, dropped, done, other);
    }
    var gone := if done then {generation} else {};
    forall other | other in SpareAbove(next, to) ensures other in SpareAbove(project, after) - gone {
      NoRowsInNothing();
    }
    Sequences.SubsetSize(SpareAbove(next, to), SpareAbove(project, after) - gone);
    if !done {
      RemovalProgresses(project, generation, dropped, done, false);
      SpareRowsShrink(project, next, generation, dropped);
    }
  }

  lemma OthersStaySpare(project: Project, generation: nat, dropped: set<RowId>, done: bool, other: nat)
    requires other != generation
    ensures var next := Removed(project, generation, dropped, done, false);
            && (Spare(next, other) <==> Spare(project, other)) && (other in next.rows <==> other in project.rows)
            && (other in next.rows ==> next.rows[other] == project.rows[other]) && (other in next.stamps <==> other in project.stamps)
  {
    hide RowIds, Without;
    RemovalKeepsOthers(project, generation, dropped, done, false, other);
  }

  lemma SpareRowsShrink(project: Project, next: Project, generation: nat, dropped: set<RowId>)
    requires Spare(project, generation) && dropped != {} && dropped <= RowIds(ContentsOf(project, generation))
    requires RowIds(ContentsOf(next, generation)) == RowIds(ContentsOf(project, generation)) - dropped
    requires forall other :: other != generation ==>
               && (Spare(next, other) <==> Spare(project, other)) && (other in next.rows <==> other in project.rows)
               && (other in next.rows ==> next.rows[other] == project.rows[other])
    ensures |SpareRows(next)| < |SpareRows(project)|
  {
    NoRowsInNothing();
    hide RowIds;
    var id :| id in dropped;
    assert generation in project.rows;
    assert (generation, id) in SpareRows(project);
    forall other, row | (other, row) in SpareRows(next) ensures (other, row) in SpareRows(project) - {(generation, id)} {
      if other == generation {
        assert row in RowIds(ContentsOf(next, generation));
      }
    }
    Sequences.SubsetSize(SpareRows(next), SpareRows(project) - {(generation, id)});
  }

  lemma MarkedIsNotLive(registry: Registry, model: Model, generation: nat)
    requires Inv(registry, model) && model.session.Some?
    requires model.session.value.phase == Clearing(generation) || model.session.value.phase == Discarding(generation)
    ensures generation != Live(model.project)
    ensures Marked(model.project).Some? && Marked(model.project).value.generation == generation
  {
    hide LiveIsReplay, BuildingIsReplay, FencesHold;
  }

  lemma SweepKeepsTheMarker(project: Project, generation: nat, dropped: set<RowId>, done: bool)
    ensures Marked(Removed(project, generation, dropped, done, false)) == Marked(project)
  {
  }

  lemma MarkerGone(project: Project, generation: nat, dropped: set<RowId>)
    requires Marked(project).Some? && Marked(project).value.generation == generation
    ensures Marked(Removed(project, generation, dropped, true, true)).None?
  {
  }

  lemma AllocationIsNotLive(project: Project, generation: nat)
    requires NextGeneration(project, generation)
    ensures generation != Live(project)
  {
  }

  lemma RefusedIsUnacceptable(registry: Registry, start: Model, steps: seq<Step>, binary: Binary)
    requires Inv(registry, start)
    ensures Acceptable(registry, binary.views, Run(registry, start, steps).project.chain) ==>
              !ReplayRefused(registry, start, steps, binary)
  {
    hide *;
    if Acceptable(registry, binary.views, Run(registry, start, steps).project.chain) {
      AcceptableRunsAreNotRefused(registry, start, steps, binary);
    }
  }

  /** What other connections do leaves a project in use as it was to the
      binary, and an unused one unused or stamped. */
  lemma JudgedAlike(binary: Binary, before: Project, next: Project)
    requires Interleaved(before, next)
    ensures InUse(before) ==> JudgeSet(binary, Seen(next)) == JudgeSet(binary, Seen(before)) && LiveStamps(next) == LiveStamps(before)
                              && (next.gen.Some? <==> before.gen.Some?)
    ensures !InUse(before) ==> next.chain == []
    ensures Marked(next) == Marked(before)
  {
  }

  lemma FencesOfRowless(binary: Binary, project: Project)
    ensures JudgeSet(binary, Seen(project)).Unstamped? <==> !InUse(project)
    ensures project.gen.None? ==> !JudgeSet(binary, Seen(project)).Current? && !JudgeSet(binary, Seen(project)).Newer?
  {
  }

  lemma StampsAnUnused(registry: Registry, model: Model, binary: Binary)
    requires Inv(registry, model) && Declares(binary) && Marked(model.project).None? && !(model.project.gen.None? && model.project.chain != [])
    ensures var next := After(registry, model, Step.StampEmpty(binary)); next.project.gen.Some? && Marked(next.project).None? && next.session == model.session
  {
    hide StampsOf, Blank;
  }

  lemma BuildingIsMarked(registry: Registry, model: Model, binary: Binary, purpose: Purpose, generation: nat)
    requires Inv(registry, model) && model.session == Some(Session(binary, purpose, Building(generation)))
    ensures generation in model.project.stamps && model.project.stamps[generation] == StampsOf(binary)
    ensures Marked(model.project).Some? && Marked(model.project).value.applied <= |model.project.chain|
    ensures Marked(model.project).value.generation == generation
  {
    hide Replayed, LiveIsReplay, FencesHold;
  }
}
