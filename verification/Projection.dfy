/** Folding events into documents (crates/baley-store-sqlite/src/view.rs,
    `fold`, `write_staged`, `write_change`). One view has one projector, and a
    projector reads and changes its own view alone, so each view folds by
    itself. */
module Projection {
  import opened Wrappers
  import opened Views
  import opened Paging

  /** The projection copy of an event: its payload brought to the newest
      version, everything else as stored. */
  datatype Event = Event(sequence: nat, typeName: string, payload: string)

  datatype Change = Put(key: DocKey, body: Body) | Delete(key: DocKey)

  datatype Projector = Projector(
    view: ViewSpec,
    handles: string -> bool,
    keys: Event -> seq<DocKey>,
    apply: (Event, seq<(DocKey, Body)>) -> Option<seq<Change>>)

  /** One view's rows in one generation. */
  type Table = map<DocKey, Document>

  /** One view's documents changed and not yet written. */
  type Stage = map<DocKey, Staged>

  datatype Fault = UnfitKey | ProjectorFailed | Unwritable

  // ----- one event -----

  /** The document a projector is given: staged, or else stored. */
  function BodyAt(view: ViewSpec, table: Table, staged: Stage, key: DocKey): Result<Option<Body>, Fault> {
    if key in staged then Ok(staged[key].body)
    else if !FitsKey(view, key) then Err(UnfitKey)
    else if key in table then Ok(Some(table[key].body))
    else Ok(None)
  }

  function Found(view: ViewSpec, table: Table, staged: Stage, keys: seq<DocKey>): Result<seq<(DocKey, Body)>, Fault> {
    if keys == [] then Ok([])
    else
      var body :- BodyAt(view, table, staged, keys[0]);
      var rest :- Found(view, table, staged, keys[1..]);
      Ok((if body.Some? then [(keys[0], body.value)] else []) + rest)
  }

  function StagedChange(change: Change, sequence: nat): Staged {
    Staged(if change.Put? then Some(change.body) else None, sequence)
  }

  /** The staged documents an event's changes give, the last change of a key
      winning. */
  function Changed(changes: seq<Change>, sequence: nat): Stage {
    if changes == [] then map[]
    else map[changes[0].key := StagedChange(changes[0], sequence)] + Changed(changes[1..], sequence)
  }

  /** What one event stages. */
  function EventStage(projector: Projector, table: Table, staged: Stage, event: Event): Result<Stage, Fault> {
    if !projector.handles(event.typeName) then Ok(map[])
    else
      var found :- Found(projector.view, table, staged, projector.keys(event));
      match projector.apply(event, found)
      case None => Err(ProjectorFailed)
      case Some(changes) => Ok(Changed(changes, event.sequence))
  }

  /** `fold`, over the events of a batch. */
  function Fold(projector: Projector, table: Table, staged: Stage, events: seq<Event>): Result<Stage, Fault>
    decreases |events|
  {
    if events == [] then Ok(staged)
    else
      var changed :- EventStage(projector, table, staged, events[0]);
      Fold(projector, table, staged + changed, events[1..])
  }

  // ----- writing what is staged -----

  /** `write_change` accepts the staged document. */
  predicate Accepted(view: ViewSpec, key: DocKey, staged: Staged) {
    FitsKey(view, key) && (staged.body.Some? ==> Writable(view, key, staged.body.value))
  }

  predicate AllAccepted(view: ViewSpec, staged: Stage) {
    forall key :: key in staged ==> Accepted(view, key, staged[key])
  }

  /** The rows once everything staged is laid over them. */
  function Laid(view: ViewSpec, table: Table, staged: Stage): Table {
    map key | key in table.Keys + staged.Keys && (key in staged ==> staged[key].body.Some?)
      :: if key in staged then StagedDocument(view, key, staged[key]) else table[key]
  }

  function Write(view: ViewSpec, table: Table, staged: Stage): Result<Table, Fault> {
    if AllAccepted(view, staged) then Ok(Laid(view, table, staged)) else Err(Unwritable)
  }

  /** A batch: every event folded in memory, then each document written once. */
  function Batch(projector: Projector, table: Table, events: seq<Event>): Result<Table, Fault> {
    var staged :- Fold(projector, table, map[], events);
    Write(projector.view, table, staged)
  }

  /** Several batches, one after the other. */
  function Batches(projector: Projector, table: Table, parts: seq<seq<Event>>): Result<Table, Fault>
    decreases |parts|
  {
    if parts == [] then Ok(table)
    else
      var next :- Batch(projector, table, parts[0]);
      Batches(projector, next, parts[1..])
  }

  // ----- a batch read through its own staging -----

  /** Reading through what is staged finds what reading after a write finds. */
  lemma {:induction false} FoundThrough(view: ViewSpec, table: Table, base: Stage, over: Stage, keys: seq<DocKey>)
    requires AllAccepted(view, base)
    ensures Found(view, table, base + over, keys) == Found(view, Laid(view, table, base), over, keys)
  {
    if keys != [] {
      FoundThrough(view, table, base, over, keys[1..]);
    }
  }

  function Over(base: Stage, result: Result<Stage, Fault>): Result<Stage, Fault> {
    if result.Err? then result else Ok(base + result.value)
  }

  lemma {:induction false} FoldThrough(projector: Projector, table: Table, base: Stage, over: Stage, events: seq<Event>)
    requires AllAccepted(projector.view, base)
    ensures Fold(projector, table, base + over, events)
            == Over(base, Fold(projector, Laid(projector.view, table, base), over, events))
    decreases |events|
  {
    if events != [] {
      FoundThrough(projector.view, table, base, over, projector.keys(events[0]));
      var changed := EventStage(projector, table, base + over, events[0]);
      if changed.Ok? {
        assert base + over + changed.value == base + (over + changed.value);
        FoldThrough(projector, table, base, over + changed.value, events[1..]);
      }
    }
  }

  lemma {:induction false} FoldAppends(projector: Projector, table: Table, staged: Stage, left: seq<Event>, right: seq<Event>)
    ensures Fold(projector, table, staged, left + right)
            == if Fold(projector, table, staged, left).Err? then Fold(projector, table, staged, left)
               else Fold(projector, table, Fold(projector, table, staged, left).value, right)
    decreases |left|
  {
    if left == [] {
      assert left + right == right;
    } else {
      assert (left + right)[1..] == left[1..] + right;
      var changed := EventStage(projector, table, staged, left[0]);
      if changed.Ok? {
        FoldAppends(projector, table, staged + changed.value, left[1..], right);
      }
    }
  }

  lemma WriteThrough(view: ViewSpec, table: Table, base: Stage, over: Stage)
    requires AllAccepted(view, base)
    ensures Write(view, table, base + over) == Write(view, Laid(view, table, base), over)
  {
    assert AllAccepted(view, base + over) <==> AllAccepted(view, over) by {
      forall key | key in over ensures (base + over)[key] == over[key] {
      }
      if AllAccepted(view, base + over) {
        forall key | key in over ensures Accepted(view, key, over[key]) {
          assert key in base + over;
        }
      }
    }
    assert Laid(view, table, base + over) == Laid(view, Laid(view, table, base), over);
  }

  /** Once a batch commits, going on from its rows is the same, fault or rows,
      as having folded both parts in memory and written once. */
  lemma BatchResumes(projector: Projector, table: Table, left: seq<Event>, right: seq<Event>)
    requires Batch(projector, table, left).Ok?
    ensures Batch(projector, table, left + right) == Batch(projector, Batch(projector, table, left).value, right)
  {
    var view := projector.view;
    var staged := Fold(projector, table, map[], left).value;
    FoldAppends(projector, table, map[], left, right);
    FoldThrough(projector, table, staged, map[], right);
    assert staged + map[] == staged;
    var rest := Fold(projector, Laid(view, table, staged), map[], right);
    if rest.Ok? {
      WriteThrough(view, table, staged, rest.value);
    }
  }

  function Flattened(parts: seq<seq<Event>>): seq<Event> {
    if parts == [] then [] else parts[0] + Flattened(parts[1..])
  }

  lemma NothingChanges(projector: Projector, table: Table)
    ensures Batch(projector, table, []) == Ok(table)
  {
    assert Laid(projector.view, table, map[]) == table;
  }

  /** Batches that all commit leave the rows one batch of all their events
      leaves, bodies, `produced_seq` and versions alike. */
  lemma {:induction false} BatchesAgree(projector: Projector, table: Table, parts: seq<seq<Event>>)
    requires Batches(projector, table, parts).Ok?
    ensures Batch(projector, table, Flattened(parts)) == Batches(projector, table, parts)
    decreases |parts|
  {
    if parts == [] {
      NothingChanges(projector, table);
    } else {
      BatchesAgree(projector, Batch(projector, table, parts[0]).value, parts[1..]);
      BatchResumes(projector, table, parts[0], Flattened(parts[1..]));
    }
  }

  // ----- when no split can fail -----

  /** After every event, what is staged would be accepted if written then. */
  predicate AcceptedThroughout(projector: Projector, table: Table, staged: Stage, events: seq<Event>)
    decreases |events|
  {
    events != [] && EventStage(projector, table, staged, events[0]).Ok? ==>
      var changed := EventStage(projector, table, staged, events[0]).value;
      && AllAccepted(projector.view, changed)
      && AcceptedThroughout(projector, table, staged + changed, events[1..])
  }

  function Singly(events: seq<Event>): seq<seq<Event>> {
    if events == [] then [] else [[events[0]]] + Singly(events[1..])
  }

  lemma {:induction false} SinglyFlattens(events: seq<Event>)
    ensures Flattened(Singly(events)) == events
  {
    if events != [] {
      SinglyFlattens(events[1..]);
      assert Singly(events)[1..] == Singly(events[1..]);
      assert [events[0]] + events[1..] == events;
    }
  }

  lemma {:induction false} AcceptedStagesAreWritten(projector: Projector, table: Table, staged: Stage, events: seq<Event>)
    requires AllAccepted(projector.view, staged)
    requires AcceptedThroughout(projector, table, staged, events)
    ensures Fold(projector, table, staged, events).Ok? ==>
              AllAccepted(projector.view, Fold(projector, table, staged, events).value)
    decreases |events|
  {
    if events != [] {
      var changed := EventStage(projector, table, staged, events[0]);
      if changed.Ok? {
        assert AllAccepted(projector.view, staged + changed.value);
        AcceptedStagesAreWritten(projector, table, staged + changed.value, events[1..]);
      }
    }
  }

  lemma {:induction false} ThroughoutResumes(projector: Projector, table: Table, base: Stage, over: Stage, events: seq<Event>)
    requires AllAccepted(projector.view, base)
    ensures AcceptedThroughout(projector, table, base + over, events)
            <==> AcceptedThroughout(projector, Laid(projector.view, table, base), over, events)
    decreases |events|
  {
    if events != [] {
      FoundThrough(projector.view, table, base, over, projector.keys(events[0]));
      var changed := EventStage(projector, table, base + over, events[0]);
      if changed.Ok? {
        assert base + over + changed.value == base + (over + changed.value);
        ThroughoutResumes(projector, table, base, over + changed.value, events[1..]);
      }
    }
  }

  lemma {:induction false} ThroughoutSplits(projector: Projector, table: Table, staged: Stage, left: seq<Event>, right: seq<Event>)
    requires Fold(projector, table, staged, left).Ok?
    ensures AcceptedThroughout(projector, table, staged, left + right)
            <==> AcceptedThroughout(projector, table, staged, left)
                 && AcceptedThroughout(projector, table, Fold(projector, table, staged, left).value, right)
    decreases |left|
  {
    if left == [] {
      assert left + right == right;
    } else {
      assert (left + right)[1..] == left[1..] + right;
      var changed := EventStage(projector, table, staged, left[0]);
      ThroughoutSplits(projector, table, staged + changed.value, left[1..], right);
    }
  }

  /** The stages past a failing event are never reached. */
  lemma {:induction false} ThroughoutCut(projector: Projector, table: Table, staged: Stage, left: seq<Event>, right: seq<Event>)
    requires AcceptedThroughout(projector, table, staged, left + right)
    ensures AcceptedThroughout(projector, table, staged, left)
    decreases |left|
  {
    if left != [] {
      assert (left + right)[1..] == left[1..] + right;
      var changed := EventStage(projector, table, staged, left[0]);
      if changed.Ok? {
        ThroughoutCut(projector, table, staged + changed.value, left[1..], right);
      }
    }
  }

  /** If each event stages only what `write_change` accepts, every split of
      the events gives exactly what one batch gives, its faults included. */
  lemma {:induction false} EverySplitAgrees(projector: Projector, table: Table, parts: seq<seq<Event>>)
    requires AcceptedThroughout(projector, table, map[], Flattened(parts))
    ensures Batches(projector, table, parts) == Batch(projector, table, Flattened(parts))
    decreases |parts|
  {
    if parts == [] {
      NothingChanges(projector, table);
    } else {
      var rest := Flattened(parts[1..]);
      ThroughoutCut(projector, table, map[], parts[0], rest);
      AcceptedStagesAreWritten(projector, table, map[], parts[0]);
      FoldAppends(projector, table, map[], parts[0], rest);
      var first := Fold(projector, table, map[], parts[0]);
      if first.Ok? {
        ThroughoutSplits(projector, table, map[], parts[0], rest);
        assert first.value + map[] == first.value;
        ThroughoutResumes(projector, table, first.value, map[], rest);
        EverySplitAgrees(projector, Laid(projector.view, table, first.value), parts[1..]);
        BatchResumes(projector, table, parts[0], rest);
      }
    }
  }

  /** Every prefix of the events can be written from nothing exactly when all of
      them can and no event stages something that would be refused. */
  lemma {:induction false} EveryPrefixWrites(projector: Projector, table: Table, events: seq<Event>)
    ensures Batch(projector, table, events).Ok? && AcceptedThroughout(projector, table, map[], events)
            <==> forall count :: 0 <= count <= |events| ==> Batch(projector, table, events[..count]).Ok?
    decreases |events|
  {
    assert events[..|events|] == events;
    if events == [] {
      NothingChanges(projector, table);
    } else {
      var last := |events| - 1;
      var most := events[..last];
      assert most + [events[last]] == events;
      assert forall count :: 0 <= count <= last ==> most[..count] == events[..count];
      EveryPrefixWrites(projector, table, most);
      FoldAppends(projector, table, map[], most, [events[last]]);
      if Fold(projector, table, map[], most).Ok? {
        var staged := Fold(projector, table, map[], most).value;
        ThroughoutSplits(projector, table, map[], most, [events[last]]);
        OneMoreAccepted(projector, table, staged, events[last]);
      }
      if AcceptedThroughout(projector, table, map[], most) {
        AcceptedStagesAreWritten(projector, table, map[], most);
      }
    }
  }

  lemma OneMoreAccepted(projector: Projector, table: Table, staged: Stage, event: Event)
    ensures var changed := EventStage(projector, table, staged, event);
            && Fold(projector, table, staged, [event]) == (if changed.Ok? then Ok(staged + changed.value) else changed)
            && (AcceptedThroughout(projector, table, staged, [event]) <==> (changed.Ok? ==> AllAccepted(projector.view, changed.value)))
            && (changed.Ok? && AllAccepted(projector.view, staged) ==>
                  (AllAccepted(projector.view, staged + changed.value) <==> AllAccepted(projector.view, changed.value)))
  {
    var changed := EventStage(projector, table, staged, event);
    assert [event][1..] == [];
    if changed.Ok? && AllAccepted(projector.view, staged) {
      forall key | key in changed.value ensures (staged + changed.value)[key] == changed.value[key] && key in staged + changed.value {
      }
      if AllAccepted(projector.view, staged + changed.value) {
        forall key | key in changed.value ensures Accepted(projector.view, key, changed.value[key]) {
          assert Accepted(projector.view, key, (staged + changed.value)[key]);
        }
      }
    }
  }

  /** Writing after every event succeeds exactly when one batch does and no
      event stages something that would be refused, and then both leave the
      same rows: batching hides refused bodies and nothing else. */
  lemma {:induction false} BatchingHidesOnlyRefusedBodies(projector: Projector, table: Table, events: seq<Event>)
    ensures Batches(projector, table, Singly(events)).Ok?
            <==> Batch(projector, table, events).Ok? && AcceptedThroughout(projector, table, map[], events)
    ensures Batches(projector, table, Singly(events)).Ok? ==>
              Batches(projector, table, Singly(events)) == Batch(projector, table, events)
  {
    SinglyFlattens(events);
    if Batches(projector, table, Singly(events)).Ok? {
      BatchesAgree(projector, table, Singly(events));
      SinglyIsAccepted(projector, table, events);
    }
    if AcceptedThroughout(projector, table, map[], events) {
      EverySplitAgrees(projector, table, Singly(events));
    }
  }

  lemma BatchOfOne(projector: Projector, table: Table, event: Event)
    ensures Batch(projector, table, [event])
            == var changed := EventStage(projector, table, map[], event);
               if changed.Err? then Err(changed.error) else Write(projector.view, table, changed.value)
  {
    var changed := EventStage(projector, table, map[], event);
    assert [event][1..] == [];
    var none: Stage := map[];
    if changed.Ok? {
      assert none + changed.value == changed.value;
      assert Fold(projector, table, none + changed.value, []) == changed;
      assert Fold(projector, table, none, [event]) == changed;
    }
  }

  lemma {:induction false} SinglyIsAccepted(projector: Projector, table: Table, events: seq<Event>)
    requires Batches(projector, table, Singly(events)).Ok?
    ensures AcceptedThroughout(projector, table, map[], events)
    decreases |events|
  {
    if events != [] {
      assert Singly(events)[1..] == Singly(events[1..]);
      BatchOfOne(projector, table, events[0]);
      var changed := EventStage(projector, table, map[], events[0]).value;
      assert changed + map[] == changed;
      assert map[] + changed == changed;
      SinglyIsAccepted(projector, Laid(projector.view, table, changed), events[1..]);
      ThroughoutResumes(projector, table, changed, map[], events[1..]);
    }
  }

  // ----- a body that a batch hides -----

  const HIDDEN_KEY: DocKey := [Values.Text("a")]

  const REFUSED_BODY := Body(map[], "")

  const WHOLE_BODY := Body(map["name" := Values.Text("a")], "")

  /** A view whose documents must hold their key: the first event leaves the
      field out, the second puts it back. */
  function HidingProjector(): Projector {
    Projector(
      ViewSpec("notes", 1, [FieldSpec("name", Values.TextKind)], [], 1),
      (name: string) => true,
      (event: Event) => [],
      (event: Event, found: seq<(DocKey, Body)>) =>
        Some([Put(HIDDEN_KEY, if event.sequence == 1 then REFUSED_BODY else WHOLE_BODY)]))
  }

  lemma HidingStages(staged: Stage, event: Event)
    ensures EventStage(HidingProjector(), map[], staged, event)
            == Ok(map[HIDDEN_KEY := Staged(Some(if event.sequence == 1 then REFUSED_BODY else WHOLE_BODY), event.sequence)])
  {
    var changes := [Put(HIDDEN_KEY, if event.sequence == 1 then REFUSED_BODY else WHOLE_BODY)];
    assert changes[1..] == [];
    assert Changed(changes, event.sequence) == map[HIDDEN_KEY := StagedChange(changes[0], event.sequence)];
  }

  /** One batch of both events commits; a batch of the first alone does not. */
  lemma ABatchCanHideARefusedBody()
    ensures var events := [Event(1, "first", ""), Event(2, "second", "")];
            && Batch(HidingProjector(), map[], events).Ok?
            && Batch(HidingProjector(), map[], events[..1]) == Err(Unwritable)
  {
    var projector, view := HidingProjector(), HidingProjector().view;
    var first, second := Event(1, "first", ""), Event(2, "second", "");
    var refused: Stage := map[HIDDEN_KEY := Staged(Some(REFUSED_BODY), 1)];
    var whole: Stage := map[HIDDEN_KEY := Staged(Some(WHOLE_BODY), 2)];
    HidingStages(map[], first);
    HidingStages(refused, second);
    assert [first, second][..1] == [first];
    BatchOfOne(projector, map[], first);
    assert Field(REFUSED_BODY, view.key[0].name, view.key[0].kind).None?;
    assert !Accepted(view, HIDDEN_KEY, refused[HIDDEN_KEY]);
    assert [first, second][1..] == [second] && [second][1..] == [];
    assert map[] + refused == refused && refused + whole == whole;
    assert Fold(projector, map[], refused, [second]) == Ok(whole);
    assert Fold(projector, map[], map[], [first, second]) == Ok(whole);
    assert Values.KindsOf(HIDDEN_KEY) == KeyKinds(view);
  }
}
