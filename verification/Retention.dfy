/** Payload bodies shared by hash across projects: references, reduction and
    purge (crates/baley-store-sqlite/src/payload.rs, retention.rs and the
    attachment checks of transact.rs). */
module Retention {
  import opened Wrappers
  import opened Excerpts

  /** A collision-free hash: it is its body. */
  datatype Hash = Hash(body: string)

  datatype State = Present | Reduced(excerpt: Hash) | Purged

  /** The key of a `payload_ref` row. */
  datatype RefKey = RefKey(project: string, sequence: nat, hash: Hash)

  /** A use of a body: its class, and the event that released it. */
  datatype Reference = Reference(output: bool, released: Option<nat>)

  /** A `payload.reduced` event. */
  datatype Reduction = Reduction(project: string, sequence: nat, original: Hash, excerpt: Hash)

  datatype Store = Store(payloads: map<Hash, State>, refs: map<RefKey, Reference>, reductions: set<Reduction>, heads: map<string, nat>)

  datatype Refusal = PayloadTombstoned | NotReducible | EmptyPurge | NothingToPurge

  /** A `payload.purged` event. */
  datatype PurgedEvent = PurgedEvent(requested: set<Hash>, released: set<RefKey>, removed: set<Hash>, shared: set<Hash>)

  function Head(store: Store, project: string): nat {
    if project in store.heads then store.heads[project] else 0
  }

  /** `required`: some project holds an unreleased reference. */
  predicate Required(refs: map<RefKey, Reference>, hash: Hash) {
    exists key :: key in refs && key.hash == hash && refs[key].released.None?
  }

  predicate Holds(refs: map<RefKey, Reference>, key: RefKey) {
    key in refs && refs[key].released.None?
  }

  // ----- attaching -----

  /** A body may be stored: it is new, or present already. */
  predicate Storable(store: Store, hash: Hash) {
    hash in store.payloads ==> store.payloads[hash].Present?
  }

  /** One event's attachments, each body put if it is new. */
  function Attached(store: Store, project: string, attachments: map<Hash, bool>): Result<Store, Refusal> {
    if exists hash :: hash in attachments && !Storable(store, hash) then Err(PayloadTombstoned)
    else
      var sequence := Head(store, project) + 1;
      Ok(store.(
        payloads := store.payloads + Stored(attachments.Keys),
        refs := store.refs + Uses(project, sequence, attachments),
        heads := store.heads[project := sequence]))
  }

  function Stored(hashes: set<Hash>): map<Hash, State> {
    map hash | hash in hashes :: Present
  }

  function Uses(project: string, sequence: nat, attachments: map<Hash, bool>): map<RefKey, Reference> {
    map hash | hash in attachments :: RefKey(project, sequence, hash) := Reference(attachments[hash], None)
  }

  // ----- reducing -----

  predicate Reducible(store: Store, key: RefKey) {
    && Holds(store.refs, key) && store.refs[key].output
    && key.hash in store.payloads && store.payloads[key.hash].Present?
    && KeptRanges(|key.hash.body|).Some?
  }

  function Released(refs: map<RefKey, Reference>, keys: set<RefKey>, sequence: nat): map<RefKey, Reference> {
    map key | key in refs :: if key in keys && refs[key].released.None? then refs[key].(released := Some(sequence)) else refs[key]
  }

  /** `reduce`: the excerpt is stored and attached to the reduction event, the
      reference released, and the body dropped once nothing requires it. */
  function ReducedStore(store: Store, key: RefKey): Result<Store, Refusal> {
    if !Reducible(store, key) then Err(NotReducible)
    else
      var excerpt := Hash(ExcerptOf(key.hash.body));
      if !Storable(store, excerpt) then Err(PayloadTombstoned)
      else
        var sequence := Head(store, key.project) + 1;
        var released := Released(store.refs, {key}, sequence);
        var payloads := store.payloads[excerpt := Present];
        Ok(Store(
          if Required(released, key.hash) then payloads else payloads[key.hash := State.Reduced(excerpt)],
          released[RefKey(key.project, sequence, excerpt) := Reference(false, None)],
          store.reductions + {Reduction(key.project, sequence, key.hash, excerpt)},
          store.heads[key.project := sequence + 1]))
  }

  // ----- purging -----

  /** The references a purge of one hash releases: this project's own, and
      those to the excerpts of its reductions of it. */
  function Own(store: Store, project: string, hash: Hash): set<RefKey> {
    set key | key in store.refs && key.project == project && store.refs[key].released.None?
              && (key.hash == hash || Reduction(project, key.sequence, hash, key.hash) in store.reductions)
  }

  function AllOwn(store: Store, project: string, requested: set<Hash>): set<RefKey> {
    set hash, key | hash in requested && key in Own(store, project, hash) :: key
  }

  function HashesOf(keys: set<RefKey>): set<Hash> {
    set key | key in keys :: key.hash
  }

  /** The present bodies among the released that nothing requires any more. */
  function Unrequired(store: Store, refs: map<RefKey, Reference>, hashes: set<Hash>): set<Hash> {
    set hash | hash in hashes && hash in store.payloads && store.payloads[hash].Present? && !Required(refs, hash)
  }

  /** The reduced originals left without their excerpt. */
  function Orphaned(store: Store, refs: map<RefKey, Reference>, gone: set<Hash>): set<Hash> {
    set hash | hash in store.payloads.Keys && store.payloads[hash].Reduced? && store.payloads[hash].excerpt in gone
               && !Required(refs, hash)
  }

  /** What a purge removes, once `refs` are released. */
  function Removal(store: Store, refs: map<RefKey, Reference>, released: set<Hash>): set<Hash> {
    var gone := Unrequired(store, refs, released);
    gone + Orphaned(store, refs, gone)
  }

  function Tombstoned(payloads: map<Hash, State>, removed: set<Hash>): map<Hash, State> {
    map hash | hash in payloads :: if hash in removed then Purged else payloads[hash]
  }

  function Shared(store: Store, requested: set<Hash>, released: set<Hash>, removed: set<Hash>): set<Hash> {
    (released - removed)
    + set hash | hash in requested && hash !in removed && hash in store.payloads && store.payloads[hash].Reduced?
  }

  function PurgedStore(store: Store, project: string, requested: set<Hash>): Result<(Store, PurgedEvent), Refusal> {
    if requested == {} then Err(EmptyPurge)
    else if exists hash :: hash in requested && Own(store, project, hash) == {} then Err(NothingToPurge)
    else
      var sequence := Head(store, project) + 1;
      var keys := AllOwn(store, project, requested);
      var refs := Released(store.refs, keys, sequence);
      var removed := Removal(store, refs, HashesOf(keys));
      Ok((Store(Tombstoned(store.payloads, removed), refs, store.reductions, store.heads[project := sequence + 1]),
          PurgedEvent(requested, keys, removed, Shared(store, requested, HashesOf(keys), removed))))
  }

  // ----- the operations as the store runs them -----

  class PayloadStore {
    var payloads: map<Hash, State>
    var refs: map<RefKey, Reference>
    var reductions: set<Reduction>
    var heads: map<string, nat>

    function Value(): Store
      reads this
    {
      Store(payloads, refs, reductions, heads)
    }

    constructor ()
      ensures Value() == Store(map[], map[], {}, map[])
    {
      payloads, refs, reductions, heads := map[], map[], {}, map[];
    }

    /** `put_payload` of each body. */
    method PutBodies(hashes: set<Hash>) returns (stored: Option<map<Hash, State>>)
      ensures stored.None? <==> exists hash :: hash in hashes && !Storable(Value(), hash)
      ensures stored.Some? ==> stored.value == payloads + Stored(hashes)
    {
      var todo := hashes;
      var bodies := payloads;
      assert payloads + Stored({}) == payloads;
      assert hashes - todo == {};
      while todo != {}
        invariant todo <= hashes
        invariant forall hash :: hash in hashes && hash !in todo ==> Storable(Value(), hash)
        invariant bodies == payloads + Stored(hashes - todo)
      {
        var hash :| hash in todo;
        assert hashes - (todo - {hash}) == hashes - todo + {hash};
        assert payloads + Stored(hashes - todo + {hash}) == (payloads + Stored(hashes - todo))[hash := Present];
        todo := todo - {hash};
        if hash !in payloads {
          bodies := bodies[hash := Present];
        } else if !payloads[hash].Present? {
          assert !Storable(Value(), hash);
          return None;
        } else {
          assert bodies[hash := Present] == bodies;
        }
      }
      assert hashes - {} == hashes;
      stored := Some(bodies);
    }

    /** Each body put, and each attachment's `put_reference`. */
    method Attach(project: string, attachments: map<Hash, bool>) returns (refused: Option<Refusal>)
      modifies this
      ensures match Attached(old(Value()), project, attachments)
              case Err(refusal) => refused == Some(refusal) && Value() == old(Value())
              case Ok(store) => refused == None && Value() == store
    {
      var stored := PutBodies(attachments.Keys);
      if stored.None? {
        return Some(PayloadTombstoned);
      }
      var sequence := Head(Value(), project) + 1;
      payloads := stored.value;
      refs := refs + Uses(project, sequence, attachments);
      heads := heads[project := sequence];
      refused := None;
    }

    method Reduce(key: RefKey, chunks: seq<string>) returns (refused: Option<Refusal>)
      requires Joined(chunks) == key.hash.body
      modifies this
      ensures match ReducedStore(old(Value()), key)
              case Err(refusal) => refused == Some(refusal) && Value() == old(Value())
              case Ok(store) => refused == None && Value() == store
    {
      if !Reducible(Value(), key) {
        return Some(NotReducible);
      }
      var body, count := StreamExcerpt(chunks);
      var excerpt := Hash(body);
      if !Storable(Value(), excerpt) {
        return Some(PayloadTombstoned);
      }
      var sequence := Head(Value(), key.project) + 1;
      refs := Released(refs, {key}, sequence);
      payloads := payloads[excerpt := Present];
      if !Required(refs, key.hash) {
        payloads := payloads[key.hash := State.Reduced(excerpt)];
      }
      reductions := reductions + {Reduction(key.project, sequence, key.hash, excerpt)};
      refs := refs[RefKey(key.project, sequence, excerpt) := Reference(false, None)];
      heads := heads[key.project := sequence + 1];
      refused := None;
    }

    /** `logical_purge`; `pick` says which pending hash is popped next. */
    method Purge(project: string, requested: set<Hash>, pick: seq<Hash> -> nat) returns (outcome: Result<PurgedEvent, Refusal>)
      requires ExcerptsPresent(payloads)
      modifies this
      ensures match PurgedStore(old(Value()), project, requested)
              case Err(refusal) => outcome == Err(refusal) && Value() == old(Value())
              case Ok((store, event)) => outcome == Ok(event) && Value() == store
    {
      hide Removal, Shared, Released, AllOwn, Own, Tombstoned, ExcerptsPresent, HashesOf;
      if requested == {} {
        return Err(EmptyPurge);
      }
      var release := CollectOwn(project, requested);
      if release.None? {
        return Err(NothingToPurge);
      }
      ghost var before := Value();
      var sequence := Head(Value(), project) + 1;
      refs := Released(refs, release.value, sequence);
      var removed := RunWorklist(HashesOf(release.value), pick);
      RemovalReads(before, Value(), refs, HashesOf(release.value), requested, removed);
      var shared := Shared(Value(), requested, HashesOf(release.value), removed);
      heads := heads[project := sequence + 1];
      outcome := Ok(PurgedEvent(requested, release.value, removed, shared));
    }

    method CollectOwn(project: string, requested: set<Hash>) returns (release: Option<set<RefKey>>)
      ensures release.None? <==> exists hash :: hash in requested && Own(Value(), project, hash) == {}
      ensures release.Some? ==> release.value == AllOwn(Value(), project, requested)
    {
      hide Own;
      var todo := requested;
      var keys: set<RefKey> := {};
      assert AllOwn(Value(), project, {}) == {} && requested - todo == {};
      while todo != {}
        invariant todo <= requested
        invariant keys == AllOwn(Value(), project, requested - todo)
        invariant forall hash :: hash in requested && hash !in todo ==> Own(Value(), project, hash) != {}
      {
        var hash :| hash in todo;
        var own := Own(Value(), project, hash);
        if own == {} {
          return None;
        }
        assert requested - (todo - {hash}) == requested - todo + {hash};
        OwnOneMore(Value(), project, requested - todo, hash);
        todo := todo - {hash};
        keys := keys + own;
      }
      assert requested - {} == requested;
      release := Some(keys);
    }

    /** The worklist: a present body nothing requires is tombstoned and the
        originals it is the excerpt of become pending; a reduced one is
        tombstoned once its excerpt is gone. */
    method RunWorklist(released: set<Hash>, pick: seq<Hash> -> nat) returns (removed: set<Hash>)
      requires ExcerptsPresent(payloads)
      modifies this`payloads
      ensures removed == Removal(old(Value()), refs, released)
      ensures payloads == Tombstoned(old(payloads), removed)
    {
      ghost var store := Value();
      removed := {};
      var pending := ListHashes(released);
      NothingTombstoned(payloads);
      while pending != []
        invariant refs == old(refs) && payloads == Tombstoned(store.payloads, removed)
        invariant Working(store, refs, released, removed, pending)
        decreases |PresentIn(payloads)|, |pending|
      {
        var at := pick(pending) % |pending|;
        var hash := pending[at];
        ghost var was := pending;
        pending := pending[..at] + pending[at + 1..];
        if hash in removed || Required(refs, hash) || hash !in payloads {
          Skipped(store, refs, released, removed, was, at);
          continue;
        }
        match payloads[hash]
        case Present =>
          var originals := ListHashes(set original | original in payloads && payloads[original] == State.Reduced(hash));
          FewerPresent(payloads, hash);
          PresentGoes(store, refs, released, removed, was, at, originals);
          payloads := payloads[hash := Purged];
          removed := removed + {hash};
          pending := pending + originals;
        case Reduced(excerpt) =>
          if excerpt in removed {
            SamePresent(payloads, hash);
            ReducedGoes(store, refs, released, removed, was, at);
            payloads := payloads[hash := Purged];
            removed := removed + {hash};
          } else {
            Skipped(store, refs, released, removed, was, at);
          }
        case Purged =>
          Skipped(store, refs, released, removed, was, at);
      }
    }
  }

  // ----- the worklist removes the same bodies in every order -----

  /** Excerpts of reduced bodies are present. */
  predicate ExcerptsPresent(payloads: map<Hash, State>) {
    forall hash :: hash in payloads && payloads[hash].Reduced? ==>
      payloads[hash].excerpt in payloads && payloads[payloads[hash].excerpt].Present?
  }

  lemma OwnOneMore(store: Store, project: string, hashes: set<Hash>, hash: Hash)
    ensures AllOwn(store, project, hashes + {hash}) == AllOwn(store, project, hashes) + Own(store, project, hash)
  {
  }

  /** Read after the removal, the kept bodies are as they were before it. */
  lemma RemovalReads(before: Store, next: Store, refs: map<RefKey, Reference>, hashes: set<Hash>, requested: set<Hash>, removed: set<Hash>)
    requires next == before.(refs := refs, payloads := Tombstoned(before.payloads, removed))
    ensures Removal(before.(refs := refs), refs, hashes) == Removal(before, refs, hashes)
    ensures Shared(next, requested, hashes, removed) == Shared(before, requested, hashes, removed)
  {
  }

  /** What has been removed belongs to the removal, and what is missing from it
      is pending or waits for its excerpt. */
  ghost predicate Working(store: Store, refs: map<RefKey, Reference>, released: set<Hash>, removed: set<Hash>, pending: seq<Hash>) {
    && ExcerptsPresent(store.payloads)
    && removed <= Removal(store, refs, released)
    && (forall hash :: hash in pending ==> hash in released || (hash in store.payloads && store.payloads[hash].Reduced?))
    && (forall hash :: hash in Unrequired(store, refs, released) ==> hash in removed || hash in pending)
    && (forall hash :: hash in Orphaned(store, refs, Unrequired(store, refs, released)) ==>
          hash in removed || hash in pending || store.payloads[hash].excerpt !in removed)
  }

  lemma NothingTombstoned(payloads: map<Hash, State>)
    ensures Tombstoned(payloads, {}) == payloads
  {
  }

  lemma TombstonedOneMore(payloads: map<Hash, State>, removed: set<Hash>, hash: Hash)
    requires hash in payloads
    ensures Tombstoned(payloads, removed + {hash}) == Tombstoned(payloads, removed)[hash := Purged]
  {
  }

  lemma Popped(pending: seq<Hash>, at: nat)
    requires at < |pending|
    ensures forall hash :: hash in pending <==> hash == pending[at] || hash in pending[..at] + pending[at + 1..]
  {
    var rest := pending[..at] + pending[at + 1..];
    forall hash ensures hash in pending <==> hash == pending[at] || hash in rest {
      assert pending == pending[..at] + [pending[at]] + pending[at + 1..];
    }
  }

  lemma Skipped(store: Store, refs: map<RefKey, Reference>, released: set<Hash>, removed: set<Hash>, pending: seq<Hash>, at: nat)
    requires Working(store, refs, released, removed, pending) && at < |pending|
    requires var hash := pending[at];
             || hash in removed || Required(refs, hash) || hash !in store.payloads || store.payloads[hash].Purged?
             || (store.payloads[hash].Reduced? && store.payloads[hash].excerpt !in removed)
    ensures Working(store, refs, released, removed, pending[..at] + pending[at + 1..])
  {
    Popped(pending, at);
  }

  lemma PresentGoes(store: Store, refs: map<RefKey, Reference>, released: set<Hash>, removed: set<Hash>, pending: seq<Hash>, at: nat,
                    originals: seq<Hash>)
    requires Working(store, refs, released, removed, pending) && at < |pending|
    requires var hash := pending[at];
             && hash !in removed && !Required(refs, hash) && hash in store.payloads && store.payloads[hash].Present?
    requires forall original :: original in originals <==>
               && original in store.payloads && original !in removed
               && store.payloads[original] == State.Reduced(pending[at])
    ensures Working(store, refs, released, removed + {pending[at]}, pending[..at] + pending[at + 1..] + originals)
    ensures Tombstoned(store.payloads, removed + {pending[at]}) == Tombstoned(store.payloads, removed)[pending[at] := Purged]
  {
    Popped(pending, at);
    TombstonedOneMore(store.payloads, removed, pending[at]);
    var rest := pending[..at] + pending[at + 1..];
    forall hash ensures hash in rest + originals <==> hash in rest || hash in originals {
    }
    assert pending[at] in Unrequired(store, refs, released);
  }

  lemma ReducedGoes(store: Store, refs: map<RefKey, Reference>, released: set<Hash>, removed: set<Hash>, pending: seq<Hash>, at: nat)
    requires Working(store, refs, released, removed, pending) && at < |pending|
    requires var hash := pending[at];
             && hash !in removed && !Required(refs, hash) && hash in store.payloads
             && store.payloads[hash].Reduced? && store.payloads[hash].excerpt in removed
    ensures Working(store, refs, released, removed + {pending[at]}, pending[..at] + pending[at + 1..])
    ensures Tombstoned(store.payloads, removed + {pending[at]}) == Tombstoned(store.payloads, removed)[pending[at] := Purged]
  {
    Popped(pending, at);
    TombstonedOneMore(store.payloads, removed, pending[at]);
    var excerpt := store.payloads[pending[at]].excerpt;
    assert excerpt in Unrequired(store, refs, released);
  }

  lemma FewerPresent(payloads: map<Hash, State>, hash: Hash)
    requires hash in payloads && payloads[hash].Present?
    ensures |PresentIn(payloads[hash := Purged])| < |PresentIn(payloads)|
  {
    assert PresentIn(payloads[hash := Purged]) == PresentIn(payloads) - {hash};
  }

  lemma SamePresent(payloads: map<Hash, State>, hash: Hash)
    requires hash in payloads && payloads[hash].Reduced?
    ensures PresentIn(payloads[hash := Purged]) == PresentIn(payloads)
  {
  }

  function PresentIn(payloads: map<Hash, State>): set<Hash> {
    set hash | hash in payloads && payloads[hash].Present?
  }

  /** A set's hashes in some order. */
  method ListHashes(hashes: set<Hash>) returns (list: seq<Hash>)
    ensures forall hash :: hash in list <==> hash in hashes
  {
    list := [];
    var todo := hashes;
    while todo != {}
      invariant todo <= hashes
      invariant forall hash :: hash in list <==> hash in hashes - todo
    {
      var hash :| hash in todo;
      list, todo := list + [hash], todo - {hash};
    }
  }
}
