/** What a projector is given and what its rows come to, told from the changes
    it made event by event (crates/baley-store-sqlite/src/view.rs, `fold`,
    `write_staged` and `write_change`). Nothing here reads a staging map. */
module ProjectionHistories {
  import opened Wrappers
  import opened Sequences
  import Values
  import opened Views
  import Paging
  import opened Projection

  /** One event's turn: the documents the projector was given and the changes it
      asked for. */
  datatype Turn = Turn(given: seq<(DocKey, Body)>, changes: seq<Change>)

  /** The last of an event's changes to a key. */
  function LastTo(changes: seq<Change>, key: DocKey): Option<Change> {
    if changes == [] then None
    else
      var last := |changes| - 1;
      if changes[last].key == key then Some(changes[last]) else LastTo(changes[..last], key)
  }

  /** The row of a key once these turns are over: its latest put with that
      event's sequence, nothing once a delete came later, and the table's own
      row where no change named the key. */
  function RowAfter(view: ViewSpec, table: Table, events: seq<Event>, turns: seq<Turn>, key: DocKey): Option<Document>
    requires |events| == |turns|
    decreases |turns|
  {
    if turns == [] then if key in table then Some(table[key]) else None
    else
      var last := |turns| - 1;
      match LastTo(turns[last].changes, key)
      case Some(Put(_, body)) => Some(Document(key, events[last].sequence, view.version, body))
      case Some(Delete(_)) => None
      case None => RowAfter(view, table, events[..last], turns[..last], key)
  }

  ghost predicate Touched(turns: seq<Turn>, key: DocKey) {
    exists at :: 0 <= at < |turns| && LastTo(turns[at].changes, key).Some?
  }

  /** A key has as many values as the view declares, each of its kind. */
  ghost predicate KeyFits(view: ViewSpec, key: DocKey) {
    |key| == |view.key| && forall at :: 0 <= at < |key| ==> (key[at].Text? <==> view.key[at].kind.TextKind?)
  }

  function HasRow(view: ViewSpec, table: Table, events: seq<Event>, turns: seq<Turn>): DocKey -> bool
    requires |events| == |turns|
  {
    (key: DocKey) => RowAfter(view, table, events, turns, key).Some?
  }

  function KeysOf(given: seq<(DocKey, Body)>): (keys: seq<DocKey>)
    ensures |keys| == |given| && forall at :: 0 <= at < |given| ==> keys[at] == given[at].0
  {
    seq(|given|, at requires 0 <= at < |given| => given[at].0)
  }

  /** The given documents are exactly the requested keys that have a row by
      then, in the order requested, each with that row's body. */
  ghost predicate Gives(view: ViewSpec, table: Table, events: seq<Event>, turns: seq<Turn>, keys: seq<DocKey>, given: seq<(DocKey, Body)>)
    requires |events| == |turns|
  {
    && KeysOf(given) == Filter(keys, HasRow(view, table, events, turns))
    && forall at :: 0 <= at < |given| ==>
         RowAfter(view, table, events, turns, given[at].0).Some?
         && given[at].1 == RowAfter(view, table, events, turns, given[at].0).value.body
  }

  /** Every requested key fits the view, unless an earlier event of the batch
      changed it. */
  ghost predicate KeysFit(view: ViewSpec, turns: seq<Turn>, keys: seq<DocKey>) {
    forall key :: key in keys ==> KeyFits(view, key) || Touched(turns, key)
  }

  /** The turn of an event after the ones before it. */
  ghost predicate Next(projector: Projector, table: Table, events: seq<Event>, turns: seq<Turn>, event: Event, turn: Turn)
    requires |events| == |turns|
  {
    if !projector.handles(event.typeName) then turn == Turn([], [])
    else
      && KeysFit(projector.view, turns, projector.keys(event))
      && Gives(projector.view, table, events, turns, projector.keys(event), turn.given)
      && projector.apply(event, turn.given) == Some(turn.changes)
  }

  /** The turns of a whole batch over a table. */
  ghost predicate Went(projector: Projector, table: Table, events: seq<Event>, turns: seq<Turn>)
  {
    |turns| == |events| &&
    forall at :: 0 <= at < |events| ==> Next(projector, table, events[..at], turns[..at], events[at], turns[at])
  }

  /** A batch that stopped at an event, and why. */
  ghost predicate Stopped(projector: Projector, table: Table, events: seq<Event>, turns: seq<Turn>, fault: Fault) {
    |turns| < |events| && Went(projector, table, events[..|turns|], turns) &&
    var event := events[|turns|];
    projector.handles(event.typeName) &&
    if !KeysFit(projector.view, turns, projector.keys(event)) then fault == UnfitKey
    else
      && fault == ProjectorFailed
      && exists given :: Gives(projector.view, table, events[..|turns|], turns, projector.keys(event), given)
                         && projector.apply(event, given) == None
  }

  /** A body holds its key field by field, and a value of the right kind in every
      field of every index. */
  ghost predicate Whole(view: ViewSpec, key: DocKey, body: Body) {
    && KeyFits(view, key)
    && (forall at :: 0 <= at < |key| ==> view.key[at].name in body.fields && body.fields[view.key[at].name] == key[at])
    && forall i, j :: 0 <= i < |view.indexes| && 0 <= j < |view.indexes[i].fields| ==>
         var field := view.indexes[i].fields[j];
         field.name in body.fields && (body.fields[field.name].Text? <==> field.kind.TextKind?)
  }

  /** Every key the turns changed may be written as they left it. */
  ghost predicate Writes(view: ViewSpec, table: Table, events: seq<Event>, turns: seq<Turn>)
    requires |events| == |turns|
  {
    forall key :: Touched(turns, key) ==>
      var row := RowAfter(view, table, events, turns, key);
      KeyFits(view, key) && (row.Some? ==> Whole(view, key, row.value.body))
  }

  /** The rows are what the turns left, key by key. */
  ghost predicate Leaves(view: ViewSpec, table: Table, events: seq<Event>, turns: seq<Turn>, rows: Table)
    requires |events| == |turns|
  {
    forall key :: RowAfter(view, table, events, turns, key) == if key in rows then Some(rows[key]) else None
  }

  // ----- the staging map is such a history -----

  ghost predicate Stages(view: ViewSpec, table: Table, events: seq<Event>, turns: seq<Turn>, staged: Stage)
    requires |events| == |turns|
  {
    forall key ::
      && (key in staged <==> Touched(turns, key))
      && RowAfter(view, table, events, turns, key) == StagedRow(view, table, staged, key)
  }

  function StagedRow(view: ViewSpec, table: Table, staged: Stage, key: DocKey): Option<Document> {
    if key in staged then
      if staged[key].body.Some? then Some(Document(key, staged[key].producedSeq, view.version, staged[key].body.value)) else None
    else if key in table then Some(table[key]) else None
  }

  lemma FitsAgree(view: ViewSpec, key: DocKey)
    ensures FitsKey(view, key) <==> KeyFits(view, key)
  {
    if KeyFits(view, key) {
      assert Values.KindsOf(key) == KeyKinds(view);
    }
    if FitsKey(view, key) {
      forall at | 0 <= at < |key| ensures key[at].Text? <==> view.key[at].kind.TextKind? {
        assert Values.KindsOf(key)[at] == KeyKinds(view)[at];
      }
    }
  }

  lemma WholeAgrees(view: ViewSpec, key: DocKey, body: Body)
    ensures Writable(view, key, body) <==> Whole(view, key, body)
  {
    FitsAgree(view, key);
    if KeyFits(view, key) {
      hide KeyFits, FitsKey;
      forall at | 0 <= at < |view.key|
        ensures Field(body, view.key[at].name, view.key[at].kind) == Some(key[at])
                <==> view.key[at].name in body.fields && body.fields[view.key[at].name] == key[at]
      {
        KeyKind(view, key, at);
      }
      if Writable(view, key, body) {
        forall i, j | 0 <= i < |view.indexes| && 0 <= j < |view.indexes[i].fields|
          ensures var field := view.indexes[i].fields[j];
                  field.name in body.fields && (body.fields[field.name].Text? <==> field.kind.TextKind?)
        {
          assert view.indexes[i] in view.indexes && view.indexes[i].fields[j] in view.indexes[i].fields;
        }
      }
    }
  }

  lemma KeyKind(view: ViewSpec, key: DocKey, at: nat)
    requires KeyFits(view, key) && at < |view.key|
    ensures Values.KindOf(key[at]) == view.key[at].kind
  {
  }

  /** The last change to a key is the one an event stages. */
  lemma {:induction false} ChangedIsLast(changes: seq<Change>, sequence: nat, key: DocKey)
    ensures key in Changed(changes, sequence) <==> LastTo(changes, key).Some?
    ensures LastTo(changes, key).Some? ==> Changed(changes, sequence)[key] == StagedChange(LastTo(changes, key).value, sequence)
    decreases |changes|
  {
    if changes != [] {
      var last := |changes| - 1;
      ChangedIsLast(changes[..last], sequence, key);
      assert changes == changes[..last] + [changes[last]];
      ChangedAppends(changes[..last], changes[last], sequence);
    }
  }

  lemma {:induction false} ChangedAppends(changes: seq<Change>, change: Change, sequence: nat)
    ensures Changed(changes + [change], sequence) == Changed(changes, sequence)[change.key := StagedChange(change, sequence)]
    decreases |changes|
  {
    if changes == [] {
      assert ([change])[1..] == [] && changes + [change] == [change];
    } else {
      assert (changes + [change])[1..] == changes[1..] + [change];
      ChangedAppends(changes[1..], change, sequence);
    }
  }

  /** What the staging map finds is what the history gives. */
  lemma {:induction false} FoundIsGiven(view: ViewSpec, table: Table, events: seq<Event>, turns: seq<Turn>, staged: Stage, keys: seq<DocKey>)
    requires |events| == |turns| && Stages(view, table, events, turns, staged)
    ensures Found(view, table, staged, keys).Ok? <==> KeysFit(view, turns, keys)
    ensures Found(view, table, staged, keys).Err? ==> Found(view, table, staged, keys).error == UnfitKey
    ensures Found(view, table, staged, keys).Ok? ==> Gives(view, table, events, turns, keys, Found(view, table, staged, keys).value)
    decreases |keys|
  {
    hide RowAfter, Touched, KeyFits, FitsKey, Gives;
    if keys == [] {
      NothingGiven(view, table, events, turns);
    } else {
      FoundIsGiven(view, table, events, turns, staged, keys[1..]);
      FitsAgree(view, keys[0]);
      assert RowAfter(view, table, events, turns, keys[0]) == StagedRow(view, table, staged, keys[0]);
      assert keys == [keys[0]] + keys[1..];
      if Found(view, table, staged, keys).Ok? {
        GivesOneMore(view, table, events, turns, keys[0], keys[1..], Found(view, table, staged, keys[1..]).value);
      }
    }
  }

  lemma NothingGiven(view: ViewSpec, table: Table, events: seq<Event>, turns: seq<Turn>)
    requires |events| == |turns|
    ensures Gives(view, table, events, turns, [], [])
  {
  }

  lemma GivesOneMore(view: ViewSpec, table: Table, events: seq<Event>, turns: seq<Turn>, key: DocKey, keys: seq<DocKey>,
                     rest: seq<(DocKey, Body)>)
    requires |events| == |turns| && Gives(view, table, events, turns, keys, rest)
    ensures var row := RowAfter(view, table, events, turns, key);
            Gives(view, table, events, turns, [key] + keys, (if row.Some? then [(key, row.value.body)] else []) + rest)
  {
    hide RowAfter, Filter;
    var row := RowAfter(view, table, events, turns, key);
    var one := if row.Some? then [(key, row.value.body)] else [];
    FilterFirst(key, keys, HasRow(view, table, events, turns));
    assert KeysOf(one + rest) == KeysOf(one) + KeysOf(rest);
    assert KeysOf(one) == if row.Some? then [key] else [];
    forall at | 0 <= at < |one + rest|
      ensures RowAfter(view, table, events, turns, (one + rest)[at].0).Some?
      ensures (one + rest)[at].1 == RowAfter(view, table, events, turns, (one + rest)[at].0).value.body
    {
      assert (one + rest)[at] == if at < |one| then one[at] else rest[at - |one|];
    }
  }

  // ----- the turns of a fold -----

  lemma StagesNothing(view: ViewSpec, table: Table)
    ensures Stages(view, table, [], [], map[])
  {
  }

  lemma StagesOneMore(view: ViewSpec, table: Table, events: seq<Event>, turns: seq<Turn>, staged: Stage, event: Event, turn: Turn)
    requires |events| == |turns| && Stages(view, table, events, turns, staged)
    ensures Stages(view, table, events + [event], turns + [turn], staged + Changed(turn.changes, event.sequence))
  {
    var more, next := turns + [turn], staged + Changed(turn.changes, event.sequence);
    assert (events + [event])[..|events|] == events && more[..|turns|] == turns;
    forall key
      ensures key in next <==> Touched(more, key)
      ensures RowAfter(view, table, events + [event], more, key) == StagedRow(view, table, next, key)
    {
      ChangedIsLast(turn.changes, event.sequence, key);
      TouchedOneMore(turns, turn, key);
      hide Touched;
    }
  }

  lemma TouchedOneMore(turns: seq<Turn>, turn: Turn, key: DocKey)
    ensures Touched(turns + [turn], key) <==> Touched(turns, key) || LastTo(turn.changes, key).Some?
  {
    var more := turns + [turn];
    assert more[|turns|] == turn;
    if Touched(turns, key) {
      var at :| 0 <= at < |turns| && LastTo(turns[at].changes, key).Some?;
      assert more[at] == turns[at];
    }
  }

  lemma WentOneMore(projector: Projector, table: Table, events: seq<Event>, turns: seq<Turn>, event: Event, turn: Turn)
    requires Went(projector, table, events, turns) && Next(projector, table, events, turns, event, turn)
    ensures Went(projector, table, events + [event], turns + [turn])
  {
    hide Next;
    var more, after := events + [event], turns + [turn];
    forall at | 0 <= at < |more| ensures Next(projector, table, more[..at], after[..at], more[at], after[at]) {
      assert at < |events| ==> more[..at] == events[..at] && after[..at] == turns[..at] && more[at] == events[at] && after[at] == turns[at];
      assert at == |events| ==> more[..at] == events && after[..at] == turns;
    }
  }

  lemma WentBefore(projector: Projector, table: Table, events: seq<Event>, turns: seq<Turn>)
    requires Went(projector, table, events, turns) && events != []
    ensures var last := |events| - 1;
            Went(projector, table, events[..last], turns[..last])
            && Next(projector, table, events[..last], turns[..last], events[last], turns[last])
  {
    hide Next;
    var last := |events| - 1;
    forall at | 0 <= at < last
      ensures Next(projector, table, events[..last][..at], turns[..last][..at], events[..last][at], turns[..last][at])
    {
      assert events[..last][..at] == events[..at] && turns[..last][..at] == turns[..at];
    }
  }

  /** One event staged is one turn taken. */
  lemma TurnIsStaged(projector: Projector, table: Table, events: seq<Event>, turns: seq<Turn>, staged: Stage, event: Event)
    requires |events| == |turns| && Stages(projector.view, table, events, turns, staged)
    ensures var stage := EventStage(projector, table, staged, event);
            && (stage.Ok? ==> exists turn :: Next(projector, table, events, turns, event, turn))
            && (forall turn :: Next(projector, table, events, turns, event, turn) ==>
                  stage == Ok(Changed(turn.changes, event.sequence)))
  {
    var keys := projector.keys(event);
    FoundIsGiven(projector.view, table, events, turns, staged, keys);
    hide Found, KeysFit, RowAfter;
    var found := Found(projector.view, table, staged, keys);
    forall turn | Next(projector, table, events, turns, event, turn)
      ensures EventStage(projector, table, staged, event) == Ok(Changed(turn.changes, event.sequence))
    {
      if projector.handles(event.typeName) {
        GivesOnce(projector.view, table, events, turns, keys, found.value, turn.given);
      }
    }
    if EventStage(projector, table, staged, event).Ok? {
      var turn := if projector.handles(event.typeName) then Turn(found.value, projector.apply(event, found.value).value) else Turn([], []);
      assert Next(projector, table, events, turns, event, turn);
    }
  }

  /** There is one list of documents to give. */
  lemma GivesOnce(view: ViewSpec, table: Table, events: seq<Event>, turns: seq<Turn>, keys: seq<DocKey>, one: seq<(DocKey, Body)>,
                  other: seq<(DocKey, Body)>)
    requires |events| == |turns|
    requires Gives(view, table, events, turns, keys, one) && Gives(view, table, events, turns, keys, other)
    ensures one == other
  {
    hide RowAfter;
    assert KeysOf(one) == KeysOf(other);
    forall at | 0 <= at < |one| ensures one[at] == other[at] {
      assert one[at].0 == KeysOf(one)[at] && other[at].0 == KeysOf(other)[at];
    }
  }

  lemma FoldOneMore(projector: Projector, table: Table, events: seq<Event>)
    requires events != []
    ensures var last := |events| - 1;
            Fold(projector, table, map[], events)
            == var before := Fold(projector, table, map[], events[..last]);
               if before.Err? then before
               else
                 var stage := EventStage(projector, table, before.value, events[last]);
                 if stage.Err? then Err(stage.error) else Ok(before.value + stage.value)
  {
    var last := |events| - 1;
    assert events == events[..last] + [events[last]];
    FoldAppends(projector, table, map[], events[..last], [events[last]]);
    assert [events[last]][1..] == [];
  }

  lemma {:induction false} FoldIsHistory(projector: Projector, table: Table, events: seq<Event>)
    ensures var folded := Fold(projector, table, map[], events);
            && (folded.Ok? <==> exists turns :: Went(projector, table, events, turns))
            && (forall turns :: Went(projector, table, events, turns) ==>
                  folded.Ok? && Stages(projector.view, table, events, turns, folded.value))
    decreases |events|
  {
    hide Next, EventStage;
    if events == [] {
      StagesNothing(projector.view, table);
      assert Went(projector, table, [], []);
    } else {
      var last := |events| - 1;
      var most, event := events[..last], events[last];
      assert events == most + [event];
      FoldIsHistory(projector, table, most);
      FoldOneMore(projector, table, events);
      var folded := Fold(projector, table, map[], events);
      forall turns | Went(projector, table, events, turns)
        ensures folded.Ok? && Stages(projector.view, table, events, turns, folded.value)
      {
        WentBefore(projector, table, events, turns);
        var staged := Fold(projector, table, map[], most).value;
        TurnIsStaged(projector, table, most, turns[..last], staged, event);
        StagesOneMore(projector.view, table, most, turns[..last], staged, event, turns[last]);
        assert turns == turns[..last] + [turns[last]];
      }
      if folded.Ok? {
        var turns :| Went(projector, table, most, turns);
        TurnIsStaged(projector, table, most, turns, Fold(projector, table, map[], most).value, event);
        var turn :| Next(projector, table, most, turns, event, turn);
        WentOneMore(projector, table, most, turns, event, turn);
      }
    }
  }

  // ----- the main results -----

  lemma AcceptedAgrees(view: ViewSpec, table: Table, events: seq<Event>, turns: seq<Turn>, staged: Stage)
    requires |events| == |turns| && Stages(view, table, events, turns, staged)
    ensures AllAccepted(view, staged) <==> Writes(view, table, events, turns)
  {
    hide RowAfter, Touched, KeyFits, FitsKey, Writable, Whole;
    forall key | key in staged
      ensures Accepted(view, key, staged[key])
              <==> var row := RowAfter(view, table, events, turns, key);
                   KeyFits(view, key) && (row.Some? ==> Whole(view, key, row.value.body))
    {
      FitsAgree(view, key);
      if staged[key].body.Some? {
        WholeAgrees(view, key, staged[key].body.value);
      }
    }
  }

  lemma LaidIsLeft(view: ViewSpec, table: Table, events: seq<Event>, turns: seq<Turn>, staged: Stage)
    requires |events| == |turns| && Stages(view, table, events, turns, staged)
    ensures Leaves(view, table, events, turns, Laid(view, table, staged))
  {
    hide RowAfter, Touched;
  }

  /** A batch goes through exactly where its turns can be told and written, and
      then its rows are what they left. At every event the projector was given
      exactly the requested documents that existed by then, each with its
      latest body, and a row carries the sequence of the event that last put
      it. */
  lemma BatchesAreTheirHistory(projector: Projector, table: Table, events: seq<Event>)
    ensures var batch := Batch(projector, table, events);
            && (batch.Ok? <==> exists turns :: Went(projector, table, events, turns) && Writes(projector.view, table, events, turns))
            && (forall turns :: Went(projector, table, events, turns) ==>
                  if Writes(projector.view, table, events, turns)
                  then batch.Ok? && Leaves(projector.view, table, events, turns, batch.value)
                  else batch == Err(Unwritable))
  {
    FoldIsHistory(projector, table, events);
    forall turns | Went(projector, table, events, turns) ensures |turns| == |events| {
      WentCounts(projector, table, events, turns);
    }
    hide Went, Writes, Leaves, Stages, Fold, AllAccepted, Laid;
    var folded := Fold(projector, table, map[], events);
    forall turns | |turns| == |events| && Went(projector, table, events, turns)
      ensures if Writes(projector.view, table, events, turns)
              then Batch(projector, table, events).Ok? && Leaves(projector.view, table, events, turns, Batch(projector, table, events).value)
              else Batch(projector, table, events) == Err(Unwritable)
    {
      AcceptedAgrees(projector.view, table, events, turns, folded.value);
      LaidIsLeft(projector.view, table, events, turns, folded.value);
    }
  }

  lemma WentCounts(projector: Projector, table: Table, events: seq<Event>, turns: seq<Turn>)
    requires Went(projector, table, events, turns)
    ensures |turns| == |events|
  {
  }

  lemma StageStops(projector: Projector, table: Table, events: seq<Event>, turns: seq<Turn>, staged: Stage, fault: Fault)
    requires Stopped(projector, table, events, turns, fault) && Stages(projector.view, table, events[..|turns|], turns, staged)
    ensures EventStage(projector, table, staged, events[|turns|]) == Err(fault)
  {
    hide Went, Stages;
    var most, event := events[..|turns|], events[|turns|];
    var keys := projector.keys(event);
    FoundIsGiven(projector.view, table, most, turns, staged, keys);
    hide Found, KeysFit, Gives;
    if KeysFit(projector.view, turns, keys) {
      var given :| Gives(projector.view, table, most, turns, keys, given) && projector.apply(event, given) == None;
      GivesOnce(projector.view, table, most, turns, keys, given, Found(projector.view, table, staged, keys).value);
    }
  }

  lemma EventStops(projector: Projector, table: Table, events: seq<Event>, turns: seq<Turn>, fault: Fault)
    requires Stopped(projector, table, events, turns, fault)
    ensures Fold(projector, table, map[], events) == Err(fault)
  {
    var most, event, rest := events[..|turns|], events[|turns|], events[|turns| + 1..];
    FoldIsHistory(projector, table, most);
    var staged := Fold(projector, table, map[], most).value;
    StageStops(projector, table, events, turns, staged, fault);
    hide Stopped, EventStage, Went, Stages, Fold;
    assert (most + [event])[..|most|] == most && most + [event] + rest == events;
    FoldOneMore(projector, table, most + [event]);
    FoldAppends(projector, table, map[], most + [event], rest);
  }

  lemma StoppedLater(projector: Projector, table: Table, events: seq<Event>, event: Event, turns: seq<Turn>, fault: Fault)
    requires Stopped(projector, table, events, turns, fault)
    ensures Stopped(projector, table, events + [event], turns, fault)
  {
    assert (events + [event])[..|turns|] == events[..|turns|];
  }

  /** A fold fails exactly where its turns stop: at the first event that asks
      for a key that does not fit, or whose projector fails on the documents it
      is given. */
  lemma {:induction false} FaultsAreWhereItStops(projector: Projector, table: Table, events: seq<Event>, fault: Fault)
    ensures Fold(projector, table, map[], events) == Err(fault) <==> exists turns :: Stopped(projector, table, events, turns, fault)
    decreases |events|
  {
    if exists turns :: Stopped(projector, table, events, turns, fault) {
      var turns :| Stopped(projector, table, events, turns, fault);
      EventStops(projector, table, events, turns, fault);
    }
    if Fold(projector, table, map[], events) == Err(fault) {
      var last := |events| - 1;
      var most, event := events[..last], events[last];
      assert events == most + [event];
      FoldOneMore(projector, table, events);
      FaultsAreWhereItStops(projector, table, most, fault);
      if Fold(projector, table, map[], most).Err? {
        var turns :| Stopped(projector, table, most, turns, fault);
        StoppedLater(projector, table, most, event, turns, fault);
      } else {
        FoldIsHistory(projector, table, most);
        var turns :| Went(projector, table, most, turns);
        LastStops(projector, table, events, turns, Fold(projector, table, map[], most).value, fault);
      }
    }
  }

  lemma LastStops(projector: Projector, table: Table, events: seq<Event>, turns: seq<Turn>, staged: Stage, fault: Fault)
    requires events != [] && |turns| == |events| - 1 && Went(projector, table, events[..|turns|], turns)
    requires Stages(projector.view, table, events[..|turns|], turns, staged)
    requires EventStage(projector, table, staged, events[|turns|]) == Err(fault)
    ensures Stopped(projector, table, events, turns, fault)
  {
    hide Went, Stages;
    var event := events[|turns|];
    FoundIsGiven(projector.view, table, events[..|turns|], turns, staged, projector.keys(event));
    hide Found, KeysFit, Gives;
  }
}
