/** The loops that fold events into a staging map and write it once
    (crates/baley-store-sqlite/src/view.rs, `fold` and `write_staged`). */
module Projecting {
  import opened Wrappers
  import opened Views
  import opened Paging
  import P = Projection
  import opened Generations

  /** Per view, the documents changed and not yet written. */
  type Staging = map<string, P.Stage>

  /** The documents a projector is given: every key's that exists. */
  method ReadDocuments(view: ViewSpec, table: P.Table, staged: P.Stage, keys: seq<DocKey>)
    returns (found: Result<seq<(DocKey, Body)>, P.Fault>)
    ensures found == P.Found(view, table, staged, keys)
  {
    var documents: seq<(DocKey, Body)> := [];
    assert keys[0..] == keys;
    if P.Found(view, table, staged, keys).Ok? {
      assert documents + P.Found(view, table, staged, keys).value == P.Found(view, table, staged, keys).value;
    }
    for next := 0 to |keys|
      invariant P.Found(view, table, staged, keys)
                == Prefixed(documents, P.Found(view, table, staged, keys[next..]))
    {
      assert keys[next..][0] == keys[next] && keys[next..][1..] == keys[next + 1..];
      var body := P.BodyAt(view, table, staged, keys[next]);
      if body.Err? {
        return Err(body.error);
      }
      var one := if body.value.Some? then [(keys[next], body.value.value)] else [];
      PrefixedOneMore(documents, one, P.Found(view, table, staged, keys[next + 1..]));
      documents := documents + one;
    }
    assert keys[|keys|..] == [];
    assert documents + [] == documents;
    found := Ok(documents);
  }

  function Prefixed(documents: seq<(DocKey, Body)>, rest: Result<seq<(DocKey, Body)>, P.Fault>): Result<seq<(DocKey, Body)>, P.Fault> {
    if rest.Err? then rest else Ok(documents + rest.value)
  }

  lemma PrefixedOneMore(documents: seq<(DocKey, Body)>, one: seq<(DocKey, Body)>, rest: Result<seq<(DocKey, Body)>, P.Fault>)
    ensures Prefixed(documents, Prefixed(one, rest)) == Prefixed(documents + one, rest)
  {
    if rest.Ok? {
      assert documents + (one + rest.value) == documents + one + rest.value;
    }
  }

  /** `staged.insert` for each change, in order. */
  method StageChanges(staged: P.Stage, changes: seq<P.Change>, sequence: nat) returns (next: P.Stage)
    ensures next == staged + P.Changed(changes, sequence)
  {
    hide P.Changed;
    next := staged;
    assert changes[0..] == changes;
    for at := 0 to |changes|
      invariant next + P.Changed(changes[at..], sequence) == staged + P.Changed(changes, sequence)
    {
      var change := changes[at];
      var body := match change case Put(key, body) => Some(body) case Delete(key) => None;
      ChangedFrom(next, changes, at, sequence);
      next := next[change.key := Staged(body, sequence)];
    }
    NothingChanged(next, changes[|changes|..], sequence);
  }

  lemma ChangedFrom(staged: P.Stage, changes: seq<P.Change>, at: nat, sequence: nat)
    requires at < |changes|
    ensures staged + P.Changed(changes[at..], sequence)
            == staged[changes[at].key := P.StagedChange(changes[at], sequence)] + P.Changed(changes[at + 1..], sequence)
  {
    assert changes[at..][0] == changes[at] && changes[at..][1..] == changes[at + 1..];
    InsertFirst(staged, changes[at].key, P.StagedChange(changes[at], sequence), P.Changed(changes[at + 1..], sequence));
  }

  lemma InsertFirst(staged: P.Stage, key: DocKey, one: Staged, rest: P.Stage)
    ensures staged + (map[key := one] + rest) == staged[key := one] + rest
  {
  }

  lemma NothingChanged(staged: P.Stage, changes: seq<P.Change>, sequence: nat)
    requires changes == []
    ensures staged + P.Changed(changes, sequence) == staged
  {
  }

  /** One projector's turn at one event. */
  method ApplyProjector(projector: P.Projector, table: P.Table, staged: P.Stage, event: P.Event) returns (next: Option<P.Stage>)
    ensures next == var stage := P.EventStage(projector, table, staged, event);
                    if stage.Ok? then Some(staged + stage.value) else None
  {
    if !projector.handles(event.typeName) {
      assert staged + map[] == staged;
      return Some(staged);
    }
    var found := ReadDocuments(projector.view, table, staged, projector.keys(event));
    if found.Err? {
      return None;
    }
    var changes := projector.apply(event, found.value);
    if changes.None? {
      return None;
    }
    var staging := StageChanges(staged, changes.value, event.sequence);
    next := Some(staging);
  }

  // ----- every projector -----

  ghost predicate Folded(registry: Registry, versions: Versions, contents: Contents, events: seq<P.Event>, staging: Staging) {
    && staging.Keys == versions.Keys
    && forall view :: view in versions ==> ViewFolded(registry, versions, contents, events, view, staging[view])
  }

  ghost predicate ViewFolded(registry: Registry, versions: Versions, contents: Contents, events: seq<P.Event>, view: string, staged: P.Stage)
    requires view in versions
  {
    P.Fold(registry.projector(view, versions[view]), TableIn(contents, view), map[], Copies(registry, events)) == Result.Ok(staged)
  }

  ghost predicate FoldRefused(registry: Registry, versions: Versions, contents: Contents, events: seq<P.Event>, view: string)
    requires view in versions
  {
    P.Fold(registry.projector(view, versions[view]), TableIn(contents, view), map[], Copies(registry, events)).Err?
  }

  /** A fold refused part way is refused by the whole batch. */
  lemma PartRefused(registry: Registry, versions: Versions, contents: Contents, left: seq<P.Event>, right: seq<P.Event>)
    requires exists view :: view in versions && FoldRefused(registry, versions, contents, left, view)
    ensures BatchAll(registry, versions, contents, left + right).None?
  {
    var view :| view in versions && FoldRefused(registry, versions, contents, left, view);
    assert Copies(registry, left + right) == Copies(registry, left) + Copies(registry, right);
    P.FoldAppends(registry.projector(view, versions[view]), TableIn(contents, view), map[], Copies(registry, left), Copies(registry, right));
    assert ViewBatch(registry, versions, contents, left + right, view).Err?;
  }

  lemma FoldOneMore(registry: Registry, versions: Versions, contents: Contents, events: seq<P.Event>, event: P.Event, view: string, staged: P.Stage)
    requires view in versions && ViewFolded(registry, versions, contents, events, view, staged)
    ensures var projector := registry.projector(view, versions[view]);
            var stage := P.EventStage(projector, TableIn(contents, view), staged, CopyOf(registry, event));
            P.Fold(projector, TableIn(contents, view), map[], Copies(registry, events + [event]))
            == if stage.Ok? then Result.Ok(staged + stage.value) else Result.Err(stage.error)
  {
    var projector := registry.projector(view, versions[view]);
    var copy := CopyOf(registry, event);
    assert Copies(registry, events + [event]) == Copies(registry, events) + [copy];
    P.FoldAppends(projector, TableIn(contents, view), map[], Copies(registry, events), [copy]);
    assert [copy][1..] == [];
  }

  /** `fold`: one event through every projector, each into its own view's
      staged documents; none is staged if any refuses. */
  method FoldEvent(registry: Registry, versions: Versions, contents: Contents, staging: Staging, event: P.Event,
                   ghost events: seq<P.Event>)
    returns (next: Option<Staging>)
    requires Folded(registry, versions, contents, events, staging)
    ensures next.Some? ==> Folded(registry, versions, contents, events + [event], next.value)
    ensures next.None? ==> exists view :: view in versions && FoldRefused(registry, versions, contents, events + [event], view)
  {
    var todo := versions.Keys;
    var staged := staging;
    var copy := CopyOf(registry, event);
    while todo != {}
      invariant todo <= versions.Keys && staged.Keys == versions.Keys
      invariant forall view :: view in todo ==> staged[view] == staging[view]
      invariant forall view :: view in versions && view !in todo ==>
                  ViewFolded(registry, versions, contents, events + [event], view, staged[view])
    {
      var view :| view in todo;
      FoldOneMore(registry, versions, contents, events, event, view, staged[view]);
      var one := ApplyProjector(registry.projector(view, versions[view]), TableIn(contents, view), staged[view], copy);
      if one.None? {
        assert FoldRefused(registry, versions, contents, events + [event], view);
        return None;
      }
      staged := staged[view := one.value];
      todo := todo - {view};
    }
    next := Some(staged);
  }

  lemma NothingFolded(registry: Registry, versions: Versions, contents: Contents, staging: Staging)
    requires staging == map view | view in versions :: map[]
    ensures Folded(registry, versions, contents, [], staging)
  {
    assert Copies(registry, []) == [];
  }

  /** A view's staged documents, each written once. */
  method WriteView(view: ViewSpec, table: P.Table, staged: P.Stage) returns (written: Option<P.Table>)
    ensures written == var rows := P.Write(view, table, staged); if rows.Ok? then Some(rows.value) else None
  {
    var todo := staged.Keys;
    var rows := table;
    assert staged - todo == map[] && P.Laid(view, table, map[]) == table;
    while todo != {}
      invariant todo <= staged.Keys
      invariant P.AllAccepted(view, staged - todo)
      invariant rows == P.Laid(view, table, staged - todo)
    {
      var key :| key in todo;
      ghost var before := todo;
      todo := todo - {key};
      assert staged - todo == (staged - before)[key := staged[key]];
      if !P.Accepted(view, key, staged[key]) {
        return None;
      }
      LaidOneMore(view, table, staged - before, key, staged[key]);
      if staged[key].body.Some? {
        rows := rows[key := StagedDocument(view, key, staged[key])];
      } else {
        rows := rows - {key};
      }
    }
    assert staged - {} == staged;
    written := Some(rows);
  }

  lemma LaidOneMore(view: ViewSpec, table: P.Table, staged: P.Stage, key: DocKey, one: Staged)
    ensures P.Laid(view, table, staged[key := one])
            == if one.body.Some? then P.Laid(view, table, staged)[key := StagedDocument(view, key, one)]
               else P.Laid(view, table, staged) - {key}
  {
  }

  lemma ViewWritten(registry: Registry, versions: Versions, contents: Contents, events: seq<P.Event>, view: string, staged: P.Stage)
    requires view in versions && ViewFolded(registry, versions, contents, events, view, staged)
    ensures ViewBatch(registry, versions, contents, events, view)
            == P.Write(registry.projector(view, versions[view]).view, TableIn(contents, view), staged)
  {
  }

  lemma BatchOfViews(registry: Registry, versions: Versions, contents: Contents, events: seq<P.Event>, next: Contents)
    requires next.Keys == versions.Keys
    requires forall view :: view in next ==> ViewBatch(registry, versions, contents, events, view) == Result.Ok(next[view])
    ensures BatchAll(registry, versions, contents, events) == Some(next)
  {
    hide ViewBatch;
    assert BatchAll(registry, versions, contents, events).Some?;
    assert next == BatchAll(registry, versions, contents, events).value;
  }

  /** `write_staged`: every view's staged documents, or none of them. */
  method WriteStaged(registry: Registry, versions: Versions, contents: Contents, staging: Staging, ghost events: seq<P.Event>)
    returns (written: Option<Contents>)
    requires Folded(registry, versions, contents, events, staging)
    ensures written == BatchAll(registry, versions, contents, events)
  {
    hide ViewBatch, ViewFolded, P.Write;
    var todo := versions.Keys;
    var next: Contents := map[];
    while todo != {}
      invariant todo <= versions.Keys && next.Keys == versions.Keys - todo
      invariant forall view :: view in next ==>
                  ViewBatch(registry, versions, contents, events, view) == Result.Ok(next[view])
    {
      var view :| view in todo;
      ViewWritten(registry, versions, contents, events, view, staging[view]);
      var rows := WriteView(registry.projector(view, versions[view]).view, TableIn(contents, view), staging[view]);
      if rows.None? {
        assert ViewBatch(registry, versions, contents, events, view).Err?;
        return None;
      }
      next := next[view := rows.value];
      todo := todo - {view};
    }
    BatchOfViews(registry, versions, contents, events, next);
    written := Some(next);
  }
}
