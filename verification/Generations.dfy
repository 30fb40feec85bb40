/** A project's view generations under commands, rebuilds, verifications,
    cleanups and crashes (crates/baley-store-sqlite/src/rebuild.rs and the
    `write` of transact.rs). Each step is one transaction; a step that is
    refused changes nothing. The maintenance lock is the session: one rebuild
    or verification at a time, while commands and `stamp_empty` do not take
    it. */
module Generations {
  import opened Wrappers
  import opened Views
  import opened Projection
  import opened Fences

  /** The projector each view and version names, and the newest form of a
      stored event's payload. */
  datatype Registry = Registry(projector: (string, nat) -> Projector, payload: Event -> string)

  /** Each view's rows in one generation. */
  type Contents = map<string, Table>

  type Versions = map<string, nat>

  datatype RowId = RowId(view: string, key: DocKey)

  datatype Marker = Marker(generation: nat, applied: nat)

  /** A `project_gen` row. */
  datatype GenRow = GenRow(live: nat, building: Option<Marker>)

  datatype Project = Project(chain: seq<Event>, gen: Option<GenRow>, stamps: map<nat, Stamps>, rows: map<nat, Contents>)

  const BATCH_EVENTS := 200
  const BATCH_ROWS := 200

  // ----- a full replay -----

  function TableIn(contents: Contents, view: string): Table {
    if view in contents then contents[view] else map[]
  }

  function VersionsOf(stamps: Stamps): Versions {
    map view | view in stamps :: stamps[view].projector
  }

  /** The projection copy of an event. */
  function CopyOf(registry: Registry, event: Event): Event {
    event.(payload := registry.payload(event))
  }

  function Copies(registry: Registry, events: seq<Event>): seq<Event> {
    seq(|events|, at requires 0 <= at < |events| => CopyOf(registry, events[at]))
  }

  function ViewBatch(registry: Registry, versions: Versions, contents: Contents, events: seq<Event>, view: string): Result<Table, Fault>
    requires view in versions
  {
    Batch(registry.projector(view, versions[view]), TableIn(contents, view), Copies(registry, events))
  }

  /** One batch through every projector, or none if any refuses. */
  ghost function BatchAll(registry: Registry, versions: Versions, contents: Contents, events: seq<Event>): Option<Contents> {
    if forall view :: view in versions ==> ViewBatch(registry, versions, contents, events, view).Ok? then
      Some(map view | view in versions :: ViewBatch(registry, versions, contents, events, view).value)
    else None
  }

  /** The documents a full replay of the events makes. */
  ghost function Replayed(registry: Registry, versions: Versions, events: seq<Event>): Option<Contents> {
    BatchAll(registry, versions, map[], events)
  }

  lemma BatchAllResumes(registry: Registry, versions: Versions, contents: Contents, left: seq<Event>, right: seq<Event>)
    requires BatchAll(registry, versions, contents, left).Some?
    ensures BatchAll(registry, versions, contents, left + right)
            == BatchAll(registry, versions, BatchAll(registry, versions, contents, left).value, right)
  {
    var middle := BatchAll(registry, versions, contents, left).value;
    assert Copies(registry, left + right) == Copies(registry, left) + Copies(registry, right);
    forall view | view in versions
      ensures ViewBatch(registry, versions, contents, left + right, view) == ViewBatch(registry, versions, middle, right, view)
    {
      assert ViewBatch(registry, versions, contents, left, view).Ok?;
      BatchResumes(registry.projector(view, versions[view]), TableIn(contents, view), Copies(registry, left), Copies(registry, right));
    }
    SameBatches(registry, versions, contents, left + right, middle, right);
  }

  lemma SameBatches(registry: Registry, versions: Versions, contents: Contents, events: seq<Event>, other: Contents, others: seq<Event>)
    requires forall view :: view in versions ==>
               ViewBatch(registry, versions, contents, events, view) == ViewBatch(registry, versions, other, others, view)
    ensures BatchAll(registry, versions, contents, events) == BatchAll(registry, versions, other, others)
  {
    var left, right := BatchAll(registry, versions, contents, events), BatchAll(registry, versions, other, others);
    if left.Some? {
      forall view | view in versions ensures ViewBatch(registry, versions, other, others, view).Ok? {
        assert ViewBatch(registry, versions, contents, events, view).Ok?;
      }
      assert left.value == right.value;
    } else {
      var view :| view in versions && !ViewBatch(registry, versions, contents, events, view).Ok?;
      assert !ViewBatch(registry, versions, other, others, view).Ok?;
    }
  }

  /** A replay can be resumed from what it has made so far. */
  lemma ReplayResumes(registry: Registry, versions: Versions, events: seq<Event>, done: nat, count: nat, contents: Contents)
    requires done + count <= |events|
    requires Replayed(registry, versions, events[..done]) == Some(contents)
    ensures Replayed(registry, versions, events[..done + count])
            == BatchAll(registry, versions, contents, events[done..done + count])
  {
    BatchAllResumes(registry, versions, map[], events[..done], events[done..done + count]);
    assert events[..done] + events[done..done + count] == events[..done + count];
  }

  function Blank(versions: Versions): Contents {
    map view | view in versions :: map[]
  }

  lemma NothingReplayed(registry: Registry, versions: Versions)
    ensures Replayed(registry, versions, []) == Some(Blank(versions))
  {
    assert Copies(registry, []) == [];
    forall view | view in versions ensures ViewBatch(registry, versions, map[], [], view) == Ok(map[]) {
      NothingChanges(registry.projector(view, versions[view]), map[]);
    }
    assert BatchAll(registry, versions, map[], []).value == Blank(versions);
  }

  // ----- what the tables hold -----

  function RowIds(contents: Contents): set<RowId> {
    set view, key | view in contents && key in contents[view] :: RowId(view, key)
  }

  function ContentsOf(project: Project, generation: nat): Contents {
    if generation in project.rows then project.rows[generation] else map[]
  }

  function Without(contents: Contents, dropped: set<RowId>): Contents {
    map view | view in contents :: map key | key in contents[view] && RowId(view, key) !in dropped :: contents[view][key]
  }

  /** `generations`: 0 stands for live before the project has a row. */
  function Live(project: Project): nat {
    if project.gen.Some? then project.gen.value.live else 0
  }

  function Marked(project: Project): Option<Marker> {
    if project.gen.Some? then project.gen.value.building else None
  }

  function StampsIn(project: Project, generation: nat): Stamps {
    if generation in project.stamps then project.stamps[generation] else map[]
  }

  function LiveStamps(project: Project): Stamps {
    if project.gen.Some? then StampsIn(project, project.gen.value.live) else map[]
  }

  function Seen(project: Project): LiveViews {
    LiveViews(if project.gen.Some? then Some(project.gen.value.live) else None, |project.chain|, LiveStamps(project))
  }

  /** The generations that have stamps or rows. */
  predicate Stored(project: Project, generation: nat) {
    generation in project.stamps || RowIds(ContentsOf(project, generation)) != {}
  }

  predicate Spare(project: Project, generation: nat) {
    && Stored(project, generation) && generation != Live(project)
    && (Marked(project).Some? ==> generation != Marked(project).value.generation)
  }

  /** The next generation the sweep takes up. */
  ghost predicate LowestSpare(project: Project, after: int, generation: nat) {
    && after < generation && Spare(project, generation)
    && forall other: nat :: after < other < generation ==> !Spare(project, other)
  }

  /** `next_generation`: one past the highest of the live generation and every
      one still stored. */
  ghost predicate NextGeneration(project: Project, generation: nat) {
    && Live(project) < generation
    && (forall other: nat :: Stored(project, other) ==> other < generation)
    && (generation - 1 == Live(project) || Stored(project, generation - 1))
  }

  predicate Numbered(events: seq<Event>, after: nat) {
    forall at :: 0 <= at < |events| ==> events[at].sequence == after + 1 + at
  }

  // ----- single transactions -----

  /** A command's write: its events, and what they change in the live
      documents. */
  ghost function Commanded(registry: Registry, project: Project, binary: Binary, events: seq<Event>): Option<Project> {
    if JudgeRequest(binary, Seen(project)) != Some(Current(Live(project))) || !JudgeSet(binary, Seen(project)).Current? then None
    else if events == [] || !Numbered(events, |project.chain|) then None
    else
      var live := Live(project);
      match BatchAll(registry, binary.views, ContentsOf(project, live), events)
      case None => None
      case Some(contents) => Some(project.(chain := project.chain + events, rows := project.rows[live := contents]))
  }

  function Stamped(project: Project, binary: Binary, generation: nat): Project {
    project.(stamps := project.stamps[generation := StampsOf(binary)],
             rows := project.rows[generation := Blank(binary.views)])
  }

  function StampedEmpty(project: Project, binary: Binary): Project {
    if project.gen.None? && project.chain == [] then Stamped(project.(gen := Some(GenRow(0, None))), binary, 0) else project
  }

  /** A batch of `remove_rows` that deletes `dropped`, and once no row is left
      the stamps and a marker naming the generation. */
  function Removed(project: Project, generation: nat, dropped: set<RowId>, done: bool, marker: bool): Project {
    if !done then
      project.(rows := project.rows[generation := Without(ContentsOf(project, generation), dropped)])
    else
      project.(rows := project.rows - {generation},
               stamps := project.stamps - {generation},
               gen := if marker && Marked(project).Some? && Marked(project).value.generation == generation
                      then Some(project.gen.value.(building := None)) else project.gen)
  }

  predicate Removable(project: Project, generation: nat, dropped: set<RowId>, done: bool) {
    var present := RowIds(ContentsOf(project, generation));
    && generation != Live(project)
    && dropped <= present && |dropped| <= BATCH_ROWS
    && (if done then dropped == present else dropped != {})
  }

  function Allocated(project: Project, binary: Binary, generation: nat): Project {
    Stamped(project.(gen := Some(GenRow(Live(project), Some(Marker(generation, 0))))), binary, generation)
  }

  /** A replay batch of the next `count` events into the marked generation. */
  ghost function BatchReplayed(registry: Registry, project: Project, binary: Binary, generation: nat, count: nat): Option<Project> {
    match Marked(project)
    case None => None
    case Some(marker) =>
      if marker.generation != generation || count > BATCH_EVENTS || marker.applied + count > |project.chain|
         || (count == 0 && marker.applied < |project.chain|) then None
      else
        match BatchAll(registry, binary.views, ContentsOf(project, generation),
                       project.chain[marker.applied..marker.applied + count])
        case None => None
        case Some(contents) =>
          Some(project.(rows := project.rows[generation := contents],
                        gen := Some(GenRow(Live(project), Some(Marker(generation, marker.applied + count))))))
  }

  predicate CaughtUp(project: Project) {
    Marked(project).Some? && Marked(project).value.applied == |project.chain|
  }

  /** `live_gen = building_gen`, and no marker. */
  function Flipped(project: Project): Project
    requires Marked(project).Some?
  {
    project.(gen := Some(GenRow(Marked(project).value.generation, None)))
  }

  // ----- the maintenance session -----

  /** Every store registers its own request view. */
  predicate Declares(binary: Binary) {
    REQUEST_VIEW in binary.views
  }

  datatype Purpose = Rebuild | Verify

  datatype Phase =
    | Clearing(orphan: nat)
    | Sweeping(after: int)
    | Allocating
    | Building(generation: nat)
    | Comparing(scratch: nat, pinned: Project)
    | Discarding(scratch: nat)
    | Cleaning(after: int)

  datatype Session = Session(binary: Binary, purpose: Purpose, phase: Phase)

  datatype Step =
    | Command(binary: Binary, events: seq<Event>)
    | StampEmpty(binary: Binary)
    | Start(binary: Binary, purpose: Purpose)
    | Clear(dropped: set<RowId>, done: bool)
    | Sweep(generation: nat, dropped: set<RowId>, done: bool)
    | EndSweep
    | Allocate(generation: nat)
    | Replay(count: nat)
    | Finish(count: nat)
    | Pin(count: nat)
    | Discard
    | Scrap(dropped: set<RowId>, done: bool)
    | Crash

  /** The store, the session holding the maintenance lock, and three things
      only the proofs look at: every generation that has been live, whether
      rows of the marked generation are being removed, and which binary
      stamped the project while the session ran. */
  datatype Model = Model(project: Project, session: Option<Session>, everLive: set<nat>, torn: bool, overtaken: Option<Binary>)

  function At(model: Model, phase: Phase): Model
    requires model.session.Some?
  {
    model.(session := Some(model.session.value.(phase := phase)))
  }

  ghost function AfterStart(model: Model, binary: Binary, purpose: Purpose): Model {
    var fence := JudgeSet(binary, Seen(model.project));
    if model.session.Some? || !Declares(binary) || fence.Newer? || (purpose.Verify? && !fence.Current?) then model
    else
      var orphan := Marked(model.project);
      if orphan.Some? && purpose.Verify? then model
      else
        var phase := if orphan.Some? then Clearing(orphan.value.generation)
                     else if purpose.Rebuild? then Sweeping(-1) else Allocating;
        model.(session := Some(Session(binary, purpose, phase)), overtaken := None)
  }

  ghost function AfterSweep(model: Model, after: int, generation: nat, dropped: set<RowId>, done: bool): Model
    requires model.session.Some? && (model.session.value.phase.Sweeping? || model.session.value.phase.Cleaning?)
  {
    var phase := model.session.value.phase;
    if !LowestSpare(model.project, after, generation) || !Removable(model.project, generation, dropped, done) then model
    else
      var next := if !done then phase else if phase.Sweeping? then Sweeping(generation) else Cleaning(generation);
      At(model, next).(project := Removed(model.project, generation, dropped, done, false))
  }

  ghost function AfterRemoval(model: Model, generation: nat, dropped: set<RowId>, done: bool, next: Option<Phase>): Model
    requires model.session.Some?
  {
    if !Removable(model.project, generation, dropped, done) then model
    else
      var removed := model.(project := Removed(model.project, generation, dropped, done, true), torn := !done);
      if !done then removed
      else removed.(session := if next.Some? then Some(model.session.value.(phase := next.value)) else None)
  }

  /** A replay turn that, once every event is applied, flips a rebuild, pins a
      verification's snapshot, or leaves the generation building. */
  ghost function AfterReplay(registry: Registry, model: Model, count: nat, step: Step): Model
    requires model.session.Some? && model.session.value.phase.Building?
  {
    var session := model.session.value;
    match BatchReplayed(registry, model.project, session.binary, session.phase.generation, count)
    case None => model
    case Some(project) =>
      if !CaughtUp(project) || step.Replay? then model.(project := project)
      else if step.Finish? then
        At(model, Cleaning(-1)).(project := Flipped(project), everLive := model.everLive + {session.phase.generation})
      else At(model, Comparing(session.phase.generation, project)).(project := project)
  }

  ghost function AfterMaintenance(registry: Registry, model: Model, step: Step): Model
    requires model.session.Some?
  {
    var session := model.session.value;
    match session.phase
    case Clearing(orphan) =>
      if step.Clear? then AfterRemoval(model, orphan, step.dropped, step.done, Some(Sweeping(-1))) else model
    case Sweeping(after) =>
      if step.Sweep? then AfterSweep(model, after, step.generation, step.dropped, step.done)
      else if step.EndSweep? && (forall generation: nat :: after < generation ==> !Spare(model.project, generation))
      then At(model, Allocating) else model
    case Cleaning(after) =>
      if step.Sweep? then AfterSweep(model, after, step.generation, step.dropped, step.done)
      else if step.EndSweep? && (forall generation: nat :: after < generation ==> !Spare(model.project, generation))
      then model.(session := None) else model
    case Allocating =>
      if step.Allocate? && NextGeneration(model.project, step.generation) then
        At(model, Building(step.generation)).(project := Allocated(model.project, session.binary, step.generation), torn := false)
      else model
    case Building(generation) =>
      if step.Replay? || (step.Finish? && session.purpose.Rebuild?) || (step.Pin? && session.purpose.Verify?) then
        AfterReplay(registry, model, step.count, step)
      else if step.Discard? && session.purpose.Verify? then At(model, Discarding(generation))
      else model
    case Comparing(scratch, pinned) =>
      if step.Discard? then At(model, Discarding(scratch)) else model
    case Discarding(scratch) =>
      if step.Scrap? then AfterRemoval(model, scratch, step.dropped, step.done, None) else model
  }

  ghost function After(registry: Registry, model: Model, step: Step): Model {
    match step
    case Command(binary, events) =>
      (match Commanded(registry, model.project, binary, events)
       case None => model
       case Some(project) => model.(project := project))
    case StampEmpty(binary) =>
      var project := StampedEmpty(model.project, binary);
      if !Declares(binary) || project == model.project then model
      else model.(project := project, everLive := model.everLive + {0},
                  overtaken := if model.session.Some? then Some(binary) else None)
    case Start(binary, purpose) => AfterStart(model, binary, purpose)
    case Crash => model.(session := None)
    case _ => if model.session.Some? then AfterMaintenance(registry, model, step) else model
  }

  ghost function Run(registry: Registry, model: Model, steps: seq<Step>): Model
    decreases |steps|
  {
    if steps == [] then model else Run(registry, After(registry, model, steps[0]), steps[1..])
  }

  /** A project as created or restored: events, and no view rows yet. */
  predicate Fresh(model: Model) {
    && model.project.gen.None? && model.project.stamps == map[] && model.project.rows == map[]
    && Numbered(model.project.chain, 0)
    && model.session.None? && model.everLive == {} && !model.torn && model.overtaken.None?
  }

  // ----- what every run keeps -----

  /** The live documents are a full replay of the chain by the projectors
      that stamped them. */
  ghost predicate LiveIsReplay(registry: Registry, project: Project) {
    project.gen.Some? ==>
      var live := project.gen.value.live;
      if live in project.stamps then
        live in project.rows
        && Replayed(registry, VersionsOf(project.stamps[live]), project.chain) == Some(project.rows[live])
      else live !in project.rows
  }

  /** What the marked generation holds of the replay of its applied events:
      all of it, or strictly less once something has started to remove it. */
  ghost predicate HoldsReplay(contents: Contents, replay: Option<Contents>, torn: bool) {
    replay.Some? && if torn then RowIds(contents) < RowIds(replay.value) else contents == replay.value
  }

  /** The marked generation against the replay of exactly the events its marker
      counts. */
  ghost predicate BuildingIsReplay(registry: Registry, project: Project, torn: bool) {
    Marked(project).Some? ==>
      var marker := Marked(project).value;
      && marker.generation in project.stamps && marker.generation in project.rows
      && marker.applied <= |project.chain|
      && HoldsReplay(project.rows[marker.generation],
                     Replayed(registry, VersionsOf(project.stamps[marker.generation]), project.chain[..marker.applied]), torn)
  }

  predicate NumbersGoUp(model: Model) {
    && (model.project.gen.None? ==> model.everLive == {} && model.project.stamps == map[] && model.project.rows == map[])
    && (forall generation :: generation in model.everLive ==> generation <= Live(model.project))
    && (Marked(model.project).Some? ==> Live(model.project) < Marked(model.project).value.generation)
    && (LiveStamps(model.project) != map[] ==> Live(model.project) in model.everLive)
  }

  /** Where the session stands, and what it knows of the tables. */
  ghost predicate SessionFits(model: Model) {
    model.session.Some? ==>
      var session, project := model.session.value, model.project;
      Declares(session.binary) &&
      match session.phase
      case Clearing(orphan) => session.purpose.Rebuild? && Marked(project).Some? && Marked(project).value.generation == orphan
      case Sweeping(after) => session.purpose.Rebuild? && Marked(project).None? && SweptTo(project, after)
      case Allocating => Marked(project).None? && (session.purpose.Rebuild? ==> OnlyLive(project))
      case Building(generation) =>
        Marked(project).Some? && Marked(project).value.generation == generation && !model.torn
        && generation in project.stamps && project.stamps[generation] == StampsOf(session.binary)
      case Comparing(scratch, pinned) =>
        session.purpose.Verify? && Marked(project).Some? && Marked(project).value.generation == scratch
        && pinned.gen.Some? && scratch in pinned.rows && Live(pinned) in pinned.rows
        && pinned.rows[scratch] == pinned.rows[Live(pinned)]
      case Discarding(scratch) => Marked(project).Some? && Marked(project).value.generation == scratch
      case Cleaning(after) => Marked(project).None? && SweptTo(project, after)
  }

  ghost predicate SweptTo(project: Project, after: int) {
    forall generation: nat :: generation <= after ==> !Spare(project, generation)
  }

  ghost predicate OnlyLive(project: Project) {
    forall generation: nat :: !Spare(project, generation)
  }

  /** Before the flip: the live stamps are not past the session's binary,
      unless the project was stamped after the session judged it. */
  predicate Judged(session: Session) {
    !session.phase.Cleaning? && !session.phase.Discarding? && !session.phase.Comparing?
  }

  ghost predicate FencesHold(model: Model) {
    model.session.Some? && Judged(model.session.value) ==>
      var session := model.session.value;
      && (session.purpose.Verify? ==> model.overtaken.None? && LiveStamps(model.project) == StampsOf(session.binary)
                                      && model.project.gen.Some?)
      && (match model.overtaken
          case None => NotPast(session.binary, LiveStamps(model.project))
          case Some(binary) => LiveStamps(model.project) == StampsOf(binary))
  }

  ghost predicate Inv(registry: Registry, model: Model) {
    && Numbered(model.project.chain, 0)
    && LiveIsReplay(registry, model.project)
    && BuildingIsReplay(registry, model.project, model.torn)
    && NumbersGoUp(model)
    && SessionFits(model)
    && FencesHold(model)
  }
}
