/** What every run of attachments, reductions and purges in any number of
    projects keeps (crates/baley-store-sqlite/src/retention.rs). */
module RetentionRuns {
  import opened Wrappers
  import opened Excerpts
  import opened Retention

  datatype Step =
    | Attach(project: string, attachments: map<Hash, bool>)
    | Reduce(key: RefKey)
    | Purge(project: string, requested: set<Hash>)

  /** A refused operation changes nothing. */
  function After(store: Store, step: Step): Store {
    match step
    case Attach(project, attachments) =>
      (match Attached(store, project, attachments) case Ok(next) => next case Err(_) => store)
    case Reduce(key) =>
      (match ReducedStore(store, key) case Ok(next) => next case Err(_) => store)
    case Purge(project, requested) =>
      (match PurgedStore(store, project, requested) case Ok((next, _)) => next case Err(_) => store)
  }

  function Run(store: Store, steps: seq<Step>): Store
    decreases |steps|
  {
    if steps == [] then store else Run(After(store, steps[0]), steps[1..])
  }

  const EMPTY := Store(map[], map[], {}, map[])

  // ----- the invariant -----

  /** A body is present exactly while some project requires it. */
  ghost predicate PresentIffRequired(store: Store) {
    forall hash :: (hash in store.payloads && store.payloads[hash].Present?) <==> Required(store.refs, hash)
  }

  /** A reduced body's excerpt is its kept ranges, and present. */
  ghost predicate ExcerptsFit(store: Store) {
    forall hash :: hash in store.payloads && store.payloads[hash].Reduced? ==>
      var excerpt := store.payloads[hash].excerpt;
      && KeptRanges(|hash.body|).Some? && excerpt == Hash(ExcerptOf(hash.body))
      && excerpt in store.payloads && store.payloads[excerpt].Present?
  }

  ghost predicate RowsFit(store: Store) {
    && (forall key :: key in store.refs ==> key.hash in store.payloads && key.sequence <= Head(store, key.project))
    && (forall reduction :: reduction in store.reductions ==>
          && reduction.sequence <= Head(store, reduction.project)
          && reduction.excerpt == Hash(ExcerptOf(reduction.original.body)))
  }

  ghost predicate Inv(store: Store) {
    PresentIffRequired(store) && ExcerptsFit(store) && RowsFit(store)
  }

  // ----- attaching -----

  lemma AttachRequires(store: Store, project: string, attachments: map<Hash, bool>, hash: Hash)
    requires RowsFit(store)
    ensures Required(store.refs + Uses(project, Head(store, project) + 1, attachments), hash)
            <==> Required(store.refs, hash) || hash in attachments
  {
    var sequence := Head(store, project) + 1;
    var uses := Uses(project, sequence, attachments);
    if Required(store.refs, hash) {
      var key :| key in store.refs && key.hash == hash && store.refs[key].released.None?;
      assert key !in uses;
      assert (store.refs + uses)[key].released.None?;
    }
    if hash in attachments {
      assert RefKey(project, sequence, hash) in uses;
      assert (store.refs + uses)[RefKey(project, sequence, hash)].released.None?;
    }
  }

  lemma AttachKeeps(store: Store, project: string, attachments: map<Hash, bool>)
    requires Inv(store) && Attached(store, project, attachments).Ok?
    ensures Inv(Attached(store, project, attachments).value)
  {
    AttachKeepsPresence(store, project, attachments);
    AttachKeepsExcerpts(store, attachments);
    AttachKeepsRows(store, project, attachments);
  }

  lemma AttachKeepsPresence(store: Store, project: string, attachments: map<Hash, bool>)
    requires PresentIffRequired(store) && RowsFit(store) && Attached(store, project, attachments).Ok?
    ensures PresentIffRequired(Attached(store, project, attachments).value)
  {
    hide Required, Uses, RowsFit, Attached, PresentIffRequired, Stored;
    AttachUnfolds(store, project, attachments);
    var uses := Uses(project, Head(store, project) + 1, attachments);
    forall hash ensures Required(store.refs + uses, hash) <==> Required(store.refs, hash) || hash in attachments {
      AttachRequires(store, project, attachments, hash);
    }
    PresenceOver(store, store.refs + uses, attachments.Keys, store.heads[project := Head(store, project) + 1]);
  }

  lemma AttachUnfolds(store: Store, project: string, attachments: map<Hash, bool>)
    requires Attached(store, project, attachments).Ok?
    ensures Attached(store, project, attachments).value
            == Store(store.payloads + Stored(attachments.Keys), store.refs + Uses(project, Head(store, project) + 1, attachments),
                     store.reductions, store.heads[project := Head(store, project) + 1])
    ensures forall hash :: hash in attachments.Keys ==> Storable(store, hash)
  {
    hide Uses, Stored;
  }

  lemma PresenceOver(store: Store, refs: map<RefKey, Reference>, hashes: set<Hash>, heads: map<string, nat>)
    requires PresentIffRequired(store) && forall hash :: hash in hashes ==> Storable(store, hash)
    requires forall hash :: Required(refs, hash) <==> Required(store.refs, hash) || hash in hashes
    ensures PresentIffRequired(Store(store.payloads + Stored(hashes), refs, store.reductions, heads))
  {
    hide Required;
  }

  lemma AttachKeepsExcerpts(store: Store, attachments: map<Hash, bool>)
    requires ExcerptsFit(store) && forall hash :: hash in attachments ==> Storable(store, hash)
    ensures ExcerptsFit(store.(payloads := store.payloads + Stored(attachments.Keys)))
  {
    hide ExcerptOf, KeptRanges;
  }

  lemma AttachKeepsRows(store: Store, project: string, attachments: map<Hash, bool>)
    requires RowsFit(store) && Attached(store, project, attachments).Ok?
    ensures RowsFit(Attached(store, project, attachments).value)
  {
    AttachUnfolds(store, project, attachments);
    var next := Attached(store, project, attachments).value;
    hide ExcerptOf, Attached, Storable;
    forall key | key in next.refs ensures key.hash in next.payloads && key.sequence <= Head(next, key.project) {
      assert key in store.refs || key in Uses(project, Head(store, project) + 1, attachments);
    }
    hide Uses, Stored;
  }

  // ----- releasing -----

  lemma ReleasedRequires(refs: map<RefKey, Reference>, keys: set<RefKey>, sequence: nat, hash: Hash)
    ensures Required(Released(refs, keys, sequence), hash) ==> Required(refs, hash)
    ensures hash !in HashesOf(keys) ==> (Required(Released(refs, keys, sequence), hash) <==> Required(refs, hash))
  {
    var released := Released(refs, keys, sequence);
    if Required(refs, hash) && hash !in HashesOf(keys) {
      var key :| key in refs && key.hash == hash && refs[key].released.None?;
      assert key !in keys;
      assert released[key] == refs[key];
    }
  }

  lemma RequiredWith(refs: map<RefKey, Reference>, key: RefKey, hash: Hash)
    requires key !in refs
    ensures Required(refs[key := Reference(false, None)], hash) <==> Required(refs, hash) || hash == key.hash
  {
    var next := refs[key := Reference(false, None)];
    if Required(refs, hash) {
      var held :| held in refs && held.hash == hash && refs[held].released.None?;
      assert next[held].released.None?;
    }
    assert next[key].released.None?;
  }

  /** A reduction as its parts: the excerpt used by a new reference, and the
      original reduced once nothing requires it. */
  lemma ReduceRequires(store: Store, key: RefKey, hash: Hash)
    requires RowsFit(store) && ReducedStore(store, key).Ok?
    ensures var next := ReducedStore(store, key).value;
            var excerpt := Hash(ExcerptOf(key.hash.body));
            && excerpt != key.hash
            && (hash != key.hash ==> (Required(next.refs, hash) <==> Required(store.refs, hash) || hash == excerpt))
            && (hash == key.hash ==> (next.payloads[hash].Present? <==> Required(next.refs, hash)))
  {
    var sequence := Head(store, key.project) + 1;
    var excerpt := Hash(ExcerptOf(key.hash.body));
    var released := Released(store.refs, {key}, sequence);
    var used := RefKey(key.project, sequence, excerpt);
    TheExcerptIsTheKeptRanges(key.hash.body);
    assert used !in released;
    assert HashesOf({key}) == {key.hash};
    hide Required, Released;
    ReleasedRequires(store.refs, {key}, sequence, hash);
    RequiredWith(released, used, hash);
  }

  lemma ReduceKeepsPresence(store: Store, key: RefKey)
    requires PresentIffRequired(store) && RowsFit(store) && ReducedStore(store, key).Ok?
    ensures PresentIffRequired(ReducedStore(store, key).value)
  {
    var next := ReducedStore(store, key).value;
    forall hash ensures (hash in next.payloads && next.payloads[hash].Present?) <==> Required(next.refs, hash) {
      ReduceRequires(store, key, hash);
      hide Required, Released, KeptRanges, ExcerptOf;
    }
  }

  lemma ReduceKeepsExcerpts(store: Store, key: RefKey)
    requires ExcerptsFit(store) && ReducedStore(store, key).Ok?
    ensures ExcerptsFit(ReducedStore(store, key).value)
  {
    TheExcerptIsTheKeptRanges(key.hash.body);
    forall hash | hash in store.payloads && store.payloads[hash].Reduced? ensures store.payloads[hash].excerpt != key.hash {
      ExcerptsAreNotReducible(hash.body);
    }
    hide Required, Released, KeptRanges, ExcerptOf;
  }

  lemma ReduceKeepsRows(store: Store, key: RefKey)
    requires RowsFit(store) && ReducedStore(store, key).Ok?
    ensures RowsFit(ReducedStore(store, key).value)
  {
    hide ExcerptOf, KeptRanges, Required, Released;
    ReleasedKeys(store.refs, {key}, Head(store, key.project) + 1);
  }

  lemma ReduceKeeps(store: Store, key: RefKey)
    requires Inv(store) && ReducedStore(store, key).Ok?
    ensures Inv(ReducedStore(store, key).value)
  {
    hide ReducedStore, PresentIffRequired, ExcerptsFit, RowsFit;
    ReduceKeepsPresence(store, key);
    ReduceKeepsExcerpts(store, key);
    ReduceKeepsRows(store, key);
  }

  // ----- purging -----

  lemma OwnIsPresent(store: Store, project: string, requested: set<Hash>)
    requires Inv(store)
    ensures forall hash :: hash in HashesOf(AllOwn(store, project, requested)) ==>
              hash in store.payloads && store.payloads[hash].Present?
  {
    forall hash | hash in HashesOf(AllOwn(store, project, requested))
      ensures hash in store.payloads && store.payloads[hash].Present?
    {
      var key :| key in AllOwn(store, project, requested) && key.hash == hash;
      assert Required(store.refs, hash);
    }
  }

  /** What a purge removes: the released bodies nothing requires, and with them
      every original they were the excerpt of. */
  lemma RemovalIsExact(store: Store, refs: map<RefKey, Reference>, released: set<Hash>, hash: Hash)
    requires Inv(store) && forall other :: Required(refs, other) ==> Required(store.refs, other)
    requires forall other :: other in released ==> other in store.payloads && store.payloads[other].Present?
    ensures hash in Removal(store, refs, released)
            <==> (hash in released && !Required(refs, hash))
                 || (hash in store.payloads && store.payloads[hash].Reduced?
                     && store.payloads[hash].excerpt in released && !Required(refs, store.payloads[hash].excerpt))
    ensures hash in Removal(store, refs, released) ==> hash in store.payloads && !Required(refs, hash)
  {
  }

  /** The references and the removal of a purge that goes through. */
  lemma PurgeParts(store: Store, project: string, requested: set<Hash>)
    requires Inv(store) && PurgedStore(store, project, requested).Ok?
    ensures var (next, event) := PurgedStore(store, project, requested).value;
            && event.released == AllOwn(store, project, requested)
            && next == Store(Tombstoned(store.payloads, event.removed),
                             Released(store.refs, event.released, Head(store, project) + 1), store.reductions,
                             store.heads[project := Head(store, project) + 2])
            && event.removed == Removal(store, next.refs, HashesOf(event.released))
            && event.shared == Shared(store, requested, HashesOf(event.released), event.removed)
            && (forall hash :: Required(next.refs, hash) ==> Required(store.refs, hash))
            && (forall hash :: hash !in HashesOf(event.released) ==> (Required(next.refs, hash) <==> Required(store.refs, hash)))
            && (forall hash :: hash in HashesOf(event.released) ==> hash in store.payloads && store.payloads[hash].Present?)
  {
    hide Required, Released, Removal, Shared, Tombstoned, AllOwn, Own, HashesOf, Inv, PurgedStore;
    PurgeUnfolds(store, project, requested);
    OwnIsPresent(store, project, requested);
    var keys := AllOwn(store, project, requested);
    var sequence := Head(store, project) + 1;
    var refs := Released(store.refs, keys, sequence);
    forall hash
      ensures Required(refs, hash) ==> Required(store.refs, hash)
      ensures hash !in HashesOf(keys) ==> (Required(refs, hash) <==> Required(store.refs, hash))
    {
      ReleasedRequires(store.refs, keys, sequence, hash);
    }
  }

  lemma PurgeUnfolds(store: Store, project: string, requested: set<Hash>)
    requires PurgedStore(store, project, requested).Ok?
    ensures var (next, event) := PurgedStore(store, project, requested).value;
            && event.released == AllOwn(store, project, requested)
            && next == Store(Tombstoned(store.payloads, event.removed),
                             Released(store.refs, event.released, Head(store, project) + 1), store.reductions,
                             store.heads[project := Head(store, project) + 2])
            && event.removed == Removal(store, next.refs, HashesOf(event.released))
            && event.shared == Shared(store, requested, HashesOf(event.released), event.removed)
  {
    hide Required, Released, Removal, Shared, Tombstoned, AllOwn, Own, HashesOf;
  }

  lemma PurgeKeepsPresence(store: Store, refs: map<RefKey, Reference>, released: set<Hash>, removed: set<Hash>)
    requires Inv(store) && removed == Removal(store, refs, released)
    requires forall hash :: Required(refs, hash) ==> Required(store.refs, hash)
    requires forall hash :: hash !in released ==> (Required(refs, hash) <==> Required(store.refs, hash))
    requires forall hash :: hash in released ==> hash in store.payloads && store.payloads[hash].Present?
    ensures forall hash :: (hash in Tombstoned(store.payloads, removed) && Tombstoned(store.payloads, removed)[hash].Present?)
              <==> Required(refs, hash)
  {
    forall hash ensures (hash in Tombstoned(store.payloads, removed) && Tombstoned(store.payloads, removed)[hash].Present?)
        <==> Required(refs, hash)
    {
      RemovalIsExact(store, refs, released, hash);
      hide Required, Removal, ExcerptsFit, RowsFit;
    }
  }

  lemma PurgeKeepsExcerpts(store: Store, refs: map<RefKey, Reference>, released: set<Hash>, removed: set<Hash>)
    requires Inv(store) && removed == Removal(store, refs, released)
    requires forall hash :: Required(refs, hash) ==> Required(store.refs, hash)
    requires forall hash :: hash in released ==> hash in store.payloads && store.payloads[hash].Present?
    ensures ExcerptsFit(store.(payloads := Tombstoned(store.payloads, removed)))
  {
    var payloads := Tombstoned(store.payloads, removed);
    forall hash | hash in payloads && payloads[hash].Reduced? ensures payloads[payloads[hash].excerpt].Present? {
      RemovalIsExact(store, refs, released, hash);
      RemovalIsExact(store, refs, released, store.payloads[hash].excerpt);
      hide Required, Removal, RowsFit, ExcerptOf, KeptRanges;
    }
    hide ExcerptOf, KeptRanges, Required, Removal;
  }

  lemma PurgeKeeps(store: Store, project: string, requested: set<Hash>)
    requires Inv(store) && PurgedStore(store, project, requested).Ok?
    ensures Inv(PurgedStore(store, project, requested).value.0)
  {
    hide PurgedStore, Required, Removal, Shared, Released, AllOwn, Own, ExcerptOf, KeptRanges, HashesOf;
    PurgeParts(store, project, requested);
    var (next, event) := PurgedStore(store, project, requested).value;
    PurgeKeepsPresence(store, next.refs, HashesOf(event.released), event.removed);
    PurgeKeepsExcerpts(store, next.refs, HashesOf(event.released), event.removed);
    ReleasedKeys(store.refs, event.released, Head(store, project) + 1);
  }

  lemma ReleasedKeys(refs: map<RefKey, Reference>, keys: set<RefKey>, sequence: nat)
    ensures Released(refs, keys, sequence).Keys == refs.Keys
  {
  }

  // ----- the main results -----

  lemma StepKeeps(store: Store, step: Step)
    requires Inv(store)
    ensures Inv(After(store, step))
  {
    match step
    case Attach(project, attachments) =>
      if Attached(store, project, attachments).Ok? {
        AttachKeeps(store, project, attachments);
      }
    case Reduce(key) =>
      if ReducedStore(store, key).Ok? {
        ReduceKeeps(store, key);
      }
    case Purge(project, requested) =>
      if PurgedStore(store, project, requested).Ok? {
        PurgeKeeps(store, project, requested);
      }
  }

  lemma {:induction false} RunKeeps(store: Store, steps: seq<Step>)
    requires Inv(store)
    ensures Inv(Run(store, steps))
    decreases |steps|
  {
    if steps != [] {
      StepKeeps(store, steps[0]);
      RunKeeps(After(store, steps[0]), steps[1..]);
    }
  }

  /** In every run a body is present exactly while some project holds an
      unreleased reference to it, and a reduced body's excerpt is present and
      is the two edges of its original. */
  lemma BodiesStayWhileReferenced(steps: seq<Step>, hash: Hash)
    ensures var store := Run(EMPTY, steps);
            (hash in store.payloads && store.payloads[hash].Present?)
            <==> exists key :: key in store.refs && key.hash == hash && store.refs[key].released.None?
    ensures var store := Run(EMPTY, steps);
            hash in store.payloads && store.payloads[hash].Reduced? ==>
              var excerpt := store.payloads[hash].excerpt;
              && 2 * EXCERPT_EDGE < |hash.body|
              && excerpt.body == hash.body[..EXCERPT_EDGE] + hash.body[|hash.body| - EXCERPT_EDGE..]
              && excerpt in store.payloads && store.payloads[excerpt].Present?
  {
    RunKeeps(EMPTY, steps);
    hide Run;
  }

  /** From present to reduced to purged, or straight to purged, and never
      back. */
  predicate Forward(before: State, next: State) {
    before == next || before.Present? || (before.Reduced? && next.Purged?)
  }

  lemma StatesMoveForward(store: Store, step: Step, hash: Hash)
    requires Inv(store) && hash in store.payloads
    ensures hash in After(store, step).payloads && Forward(store.payloads[hash], After(store, step).payloads[hash])
  {
    match step
    case Attach(project, attachments) =>
      assert hash in attachments && Attached(store, project, attachments).Ok? ==> Storable(store, hash);
    case Reduce(key) =>
    case Purge(project, requested) =>
  }

  lemma {:induction false} StatesNeverComeBack(store: Store, steps: seq<Step>, hash: Hash)
    requires Inv(store) && hash in store.payloads
    ensures hash in Run(store, steps).payloads && Forward(store.payloads[hash], Run(store, steps).payloads[hash])
    decreases |steps|
  {
    if steps != [] {
      StepKeeps(store, steps[0]);
      StatesMoveForward(store, steps[0], hash);
      StatesNeverComeBack(After(store, steps[0]), steps[1..], hash);
    }
  }

  /** A purge removes nothing any project still references, and accounts for
      every released hash as removed or shared, never both. */
  lemma PurgesAccountForWhatTheyRelease(store: Store, project: string, requested: set<Hash>)
    requires Inv(store) && PurgedStore(store, project, requested).Ok?
    ensures var (next, event) := PurgedStore(store, project, requested).value;
            && event.removed !! event.shared
            && HashesOf(event.released) <= event.removed + event.shared
            && (forall hash :: hash in event.removed ==> next.payloads[hash].Purged? && !Required(next.refs, hash))
            && (forall hash :: hash in event.shared ==> hash in next.payloads && !next.payloads[hash].Purged?)
            && (forall key :: Holds(next.refs, key) && key.project == project ==> key.hash !in requested)
  {
    PurgeParts(store, project, requested);
    var (next, event) := PurgedStore(store, project, requested).value;
    forall hash | hash in event.removed ensures next.payloads[hash].Purged? && !Required(next.refs, hash) {
      RemovalIsExact(store, next.refs, HashesOf(event.released), hash);
    }
    forall hash | hash in event.shared ensures hash in next.payloads && !next.payloads[hash].Purged? {
      hide Required, Removal;
    }
    forall key | key in store.refs && store.refs[key].released.None? && key.project == project && key.hash in requested
      ensures key in event.released
    {
      assert key in Own(store, project, key.hash);
    }
  }

  /** A requested hash is reported exactly when this project referred to it
      itself, or its body had been reduced. */
  lemma RequestedHashesReported(store: Store, project: string, requested: set<Hash>, hash: Hash)
    requires Inv(store) && PurgedStore(store, project, requested).Ok? && hash in requested
    ensures var event := PurgedStore(store, project, requested).value.1;
            hash in event.removed + event.shared
            <==> (exists key :: Holds(store.refs, key) && key.project == project && key.hash == hash)
                 || (hash in store.payloads && store.payloads[hash].Reduced?)
  {
    PurgeParts(store, project, requested);
    var (next, event) := PurgedStore(store, project, requested).value;
    OwnHashes(store, project, requested, hash);
    RemovalIsExact(store, next.refs, HashesOf(event.released), hash);
    hide PurgedStore, Required, Removal, AllOwn, HashesOf, Own, Inv;
  }

  /** A requested hash is released itself iff the project referred to it. */
  lemma OwnHashes(store: Store, project: string, requested: set<Hash>, hash: Hash)
    requires hash in requested
    ensures hash in HashesOf(AllOwn(store, project, requested))
            <==> exists key :: Holds(store.refs, key) && key.project == project && key.hash == hash
  {
    if key :| Holds(store.refs, key) && key.project == project && key.hash == hash {
      assert key in Own(store, project, hash);
      assert key in AllOwn(store, project, requested);
    }
    if hash in HashesOf(AllOwn(store, project, requested)) {
      var key :| key in AllOwn(store, project, requested) && key.hash == hash;
      assert Holds(store.refs, key) && key.project == project;
    }
  }

  // ----- a requested hash that is not reported -----

  /** Project a reduced its output and project b still uses it. */
  function SharedOriginal(original: Hash): Store {
    var excerpt := Hash(ExcerptOf(original.body));
    Store(map[original := Present, excerpt := Present],
          map[RefKey("a", 1, original) := Reference(true, Some(2)), RefKey("b", 1, original) := Reference(true, None),
              RefKey("a", 2, excerpt) := Reference(false, None)],
          {Reduction("a", 2, original, excerpt)},
          map["a" := 3, "b" := 1])
  }

  lemma SharedOriginalFits(original: Hash)
    requires KeptRanges(|original.body|).Some?
    ensures Inv(SharedOriginal(original))
  {
    TheExcerptIsTheKeptRanges(original.body);
    var store := SharedOriginal(original);
    var excerpt := Hash(ExcerptOf(original.body));
    hide ExcerptOf, KeptRanges;
    assert store.refs[RefKey("b", 1, original)].released.None? && store.refs[RefKey("a", 2, excerpt)].released.None?;
    assert Required(store.refs, original) && Required(store.refs, excerpt);
  }

  /** Both projects attach it, then a reduces its own use. */
  function SharingSteps(original: Hash): seq<Step> {
    [Attach("a", map[original := true]), Attach("b", map[original := true]), Reduce(RefKey("a", 1, original))]
  }

  lemma SharedOriginalIsReached(original: Hash)
    requires KeptRanges(|original.body|).Some?
    ensures Run(EMPTY, SharingSteps(original)) == SharedOriginal(original)
  {
    var steps := SharingSteps(original);
    var first := After(EMPTY, steps[0]);
    var second := After(first, steps[1]);
    assert steps[1..][1..] == steps[2..] && steps[2..][1..] == [];
    assert Run(EMPTY, steps) == Run(first, steps[1..]);
    assert Run(first, steps[1..]) == Run(second, steps[2..]);
    assert Run(second, steps[2..]) == After(second, steps[2]);
    hide Run;
    UsedByBoth(original);
    ReducedByOne(original);
  }

  function UsedTwice(original: Hash): Store {
    Store(map[original := Present],
          map[RefKey("a", 1, original) := Reference(true, None), RefKey("b", 1, original) := Reference(true, None)],
          {}, map["a" := 1, "b" := 1])
  }

  lemma UsedByBoth(original: Hash)
    ensures After(After(EMPTY, SharingSteps(original)[0]), SharingSteps(original)[1]) == UsedTwice(original)
  {
    hide After;
    AttachOne(EMPTY, "a", original);
    var first := Store(map[original := Present], map[RefKey("a", 1, original) := Reference(true, None)], {}, map["a" := 1]);
    assert After(EMPTY, SharingSteps(original)[0]) == first;
    AttachOne(first, "b", original);
  }

  lemma AttachOne(store: Store, project: string, hash: Hash)
    requires Storable(store, hash)
    ensures var sequence := Head(store, project) + 1;
            After(store, Attach(project, map[hash := true]))
            == Store(store.payloads[hash := Present], store.refs[RefKey(project, sequence, hash) := Reference(true, None)],
                     store.reductions, store.heads[project := sequence])
  {
    hide Uses, Stored, Attached;
    var attachments := map[hash := true];
    var sequence := Head(store, project) + 1;
    assert attachments.Keys == {hash};
    OneUse(project, sequence, hash);
    PlusOne(store.payloads, hash, Present);
    PlusOne(store.refs, RefKey(project, sequence, hash), Reference(true, None));
    OneIsStorable(store, project, hash);
    AttachUnfolds(store, project, attachments);
  }

  lemma PlusOne<K, V>(before: map<K, V>, key: K, value: V)
    ensures before + map[key := value] == before[key := value]
  {
  }

  lemma OneIsStorable(store: Store, project: string, hash: Hash)
    requires Storable(store, hash)
    ensures Attached(store, project, map[hash := true]).Ok?
  {
    hide Uses, Stored;
  }

  lemma OneUse(project: string, sequence: nat, hash: Hash)
    ensures Uses(project, sequence, map[hash := true]) == map[RefKey(project, sequence, hash) := Reference(true, None)]
    ensures Stored({hash}) == map[hash := Present]
  {
  }

  lemma ReducedByOne(original: Hash)
    requires KeptRanges(|original.body|).Some?
    ensures After(UsedTwice(original), Reduce(RefKey("a", 1, original))) == SharedOriginal(original)
  {
    TheExcerptIsTheKeptRanges(original.body);
    var store, key := UsedTwice(original), RefKey("a", 1, original);
    var excerpt := Hash(ExcerptOf(original.body));
    hide ExcerptOf, KeptRanges;
    var released := Released(store.refs, {key}, 2);
    assert released == map[key := Reference(true, Some(2)), RefKey("b", 1, original) := Reference(true, None)];
    assert released[RefKey("b", 1, original)].released.None?;
    assert Required(released, original);
  }

  /** A's purge of the original goes through and reports only the excerpt: the
      original is in neither set. */
  lemma ARequestedHashCanGoUnreported(original: Hash)
    requires KeptRanges(|original.body|).Some?
    ensures var store := Run(EMPTY, SharingSteps(original));
            && PurgedStore(store, "a", {original}).Ok?
            && original !in PurgedStore(store, "a", {original}).value.1.removed
            && original !in PurgedStore(store, "a", {original}).value.1.shared
  {
    hide PurgedStore, ExcerptOf, KeptRanges, Inv, SharedOriginal, Own, Holds, Run;
    SharedOriginalIsReached(original);
    SharedOriginalFits(original);
    SharedOriginalRefs(original);
    PurgeGoesThrough(SharedOriginal(original), "a", original);
    RequestedHashesReported(SharedOriginal(original), "a", {original}, original);
  }

  lemma SharedOriginalRefs(original: Hash)
    requires KeptRanges(|original.body|).Some?
    ensures Own(SharedOriginal(original), "a", original) != {}
    ensures !(exists key :: Holds(SharedOriginal(original).refs, key) && key.project == "a" && key.hash == original)
    ensures original in SharedOriginal(original).payloads && SharedOriginal(original).payloads[original].Present?
  {
    TheExcerptIsTheKeptRanges(original.body);
    var excerpt := Hash(ExcerptOf(original.body));
    hide ExcerptOf, KeptRanges;
    assert RefKey("a", 2, excerpt) in Own(SharedOriginal(original), "a", original);
  }

  lemma PurgeGoesThrough(store: Store, project: string, hash: Hash)
    requires Own(store, project, hash) != {}
    ensures PurgedStore(store, project, {hash}).Ok?
  {
    hide Removal, Shared, Released, AllOwn, Own, Tombstoned, HashesOf;
  }

  ghost predicate LeavesOut(store: Store, project: string, hash: Hash) {
    var purged := PurgedStore(store, project, {hash});
    purged.Ok? && hash !in purged.value.1.removed && hash !in purged.value.1.shared
  }

  /** So some run reaches a purge that says nothing of a hash it was asked to
      purge. */
  lemma SomePurgeLeavesAHashOut()
    ensures exists steps, project, hash :: LeavesOut(Run(EMPTY, steps), project, hash)
  {
    var original := Hash(seq(2 * EXCERPT_EDGE + 1, at => 'a'));
    assert KeptRanges(|original.body|).Some?;
    ARequestedHashCanGoUnreported(original);
    hide PurgedStore, Run;
    assert LeavesOut(Run(EMPTY, SharingSteps(original)), "a", original);
  }
}
