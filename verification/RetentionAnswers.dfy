/** What attachments, reductions and purges answer, which references they touch
    and what becomes of every body (crates/baley-store-sqlite/src/payload.rs and
    retention.rs). */
module RetentionAnswers {
  import opened Wrappers
  import opened Excerpts
  import opened Retention
  import opened RetentionRuns

  /** Some project's reference to the body is not released. */
  ghost predicate InUse(refs: map<RefKey, Reference>, hash: Hash) {
    exists key :: key in refs && key.hash == hash && refs[key].released.None?
  }

  function NextSequence(store: Store, project: string): nat {
    if project in store.heads then store.heads[project] + 1 else 1
  }

  predicate IsPresent(store: Store, hash: Hash) {
    hash in store.payloads && store.payloads[hash].Present?
  }

  // ----- attach -----

  /** An attachment is refused exactly where one of its bodies was reduced or
      purged before. */
  lemma AttachIsRefused(store: Store, project: string, attachments: map<Hash, bool>)
    ensures Attached(store, project, attachments).Err?
            <==> exists hash :: hash in attachments && hash in store.payloads && !store.payloads[hash].Present?
    ensures Attached(store, project, attachments).Err? ==> Attached(store, project, attachments).error == PayloadTombstoned
  {
    hide Uses, Stored;
  }

  /** Otherwise the event refers to each of its bodies in the class it was
      attached in, and no other reference changes. */
  lemma AttachRefers(store: Store, project: string, attachments: map<Hash, bool>, key: RefKey)
    requires Attached(store, project, attachments).Ok?
    ensures var next, sequence := Attached(store, project, attachments).value, NextSequence(store, project);
            && (if key.project == project && key.sequence == sequence && key.hash in attachments then
                  key in next.refs && next.refs[key] == Reference(attachments[key.hash], None)
                else (key in next.refs <==> key in store.refs) && (key in store.refs ==> next.refs[key] == store.refs[key]))
            && next.reductions == store.reductions && next.heads == store.heads[project := sequence]
  {
    AttachUnfolds(store, project, attachments);
    hide Attached, Stored;
    UsesAreTheAttachments(project, NextSequence(store, project), attachments, key);
    hide Uses;
  }

  lemma UsesAreTheAttachments(project: string, sequence: nat, attachments: map<Hash, bool>, key: RefKey)
    ensures key in Uses(project, sequence, attachments)
            <==> key.project == project && key.sequence == sequence && key.hash in attachments
    ensures key in Uses(project, sequence, attachments) ==>
              Uses(project, sequence, attachments)[key] == Reference(attachments[key.hash], None)
  {
    if key.project == project && key.sequence == sequence && key.hash in attachments {
      assert key == RefKey(project, sequence, key.hash);
    }
  }

  /** And each of its bodies is present, and every other as it was. */
  lemma AttachStores(store: Store, project: string, attachments: map<Hash, bool>, hash: Hash)
    requires Attached(store, project, attachments).Ok?
    ensures var next := Attached(store, project, attachments).value;
            && (hash in attachments ==> IsPresent(next, hash))
            && (hash !in attachments ==>
                  (hash in next.payloads <==> hash in store.payloads)
                  && (hash in store.payloads ==> next.payloads[hash] == store.payloads[hash]))
  {
    AttachUnfolds(store, project, attachments);
    hide Attached, Uses;
  }

  // ----- reduce -----

  /** A reference can be reduced exactly where it is an unreleased output
      reference to a present body of more than 128 KiB. */
  ghost predicate CanReduce(store: Store, key: RefKey) {
    && key in store.refs && store.refs[key].output && store.refs[key].released.None?
    && IsPresent(store, key.hash) && |key.hash.body| > 131072
  }

  /** The first and the last 64 KiB. */
  function Edges(body: string): Hash
    requires |body| > 131072
  {
    Hash(body[..65536] + body[|body| - 65536..])
  }

  /** A reduction releases that one reference, refers to the excerpt in its
      place, and drops the body exactly where no other reference holds it. */
  lemma ReduceAnswers(store: Store, key: RefKey)
    ensures !CanReduce(store, key) <==> ReducedStore(store, key) == Err(NotReducible)
    ensures CanReduce(store, key) ==>
              var excerpt := Edges(key.hash.body);
              match ReducedStore(store, key)
              case Err(refusal) => refusal == PayloadTombstoned && excerpt in store.payloads && !store.payloads[excerpt].Present?
              case Ok(next) =>
                var sequence := NextSequence(store, key.project);
                var used := RefKey(key.project, sequence, excerpt);
                && (excerpt in store.payloads ==> store.payloads[excerpt].Present?)
                && next.refs == store.refs[key := Reference(true, Some(sequence))][used := Reference(false, None)]
                && next.payloads == store.payloads[excerpt := Present]
                     [key.hash := if InUse(store.refs[key := Reference(true, Some(sequence))], key.hash) then Present
                                  else State.Reduced(excerpt)]
                && next.reductions == store.reductions + {Reduction(key.project, sequence, key.hash, excerpt)}
                && next.heads == store.heads[key.project := sequence + 1]
  {
    if CanReduce(store, key) {
      TheExcerptIsTheKeptRanges(key.hash.body);
      assert Hash(ExcerptOf(key.hash.body)) == Edges(key.hash.body);
      hide ExcerptOf, KeptRanges;
      var sequence := NextSequence(store, key.project);
      assert Released(store.refs, {key}, sequence) == store.refs[key := Reference(true, Some(sequence))];
      hide Released;
    }
  }

  // ----- purge -----

  /** The references a purge may release: the project's own to a requested body,
      and those that its reduction events of one made to the excerpt. */
  ghost predicate Purgeable(store: Store, project: string, requested: set<Hash>, key: RefKey) {
    && key in store.refs && key.project == project && store.refs[key].released.None?
    && (key.hash in requested
        || exists original :: original in requested && Reduction(project, key.sequence, original, key.hash) in store.reductions)
  }

  /** A purge is refused exactly where it names nothing, or where a body it names
      leaves this project nothing to release. */
  lemma PurgeIsRefused(store: Store, project: string, requested: set<Hash>)
    ensures PurgedStore(store, project, requested) == Err(EmptyPurge) <==> requested == {}
    ensures PurgedStore(store, project, requested) == Err(NothingToPurge)
            <==> requested != {} && exists hash :: hash in requested && forall key :: !Purgeable(store, project, {hash}, key)
    ensures PurgedStore(store, project, requested).Err? ==>
              PurgedStore(store, project, requested).error == EmptyPurge || PurgedStore(store, project, requested).error == NothingToPurge
  {
    forall hash ensures Own(store, project, hash) == {} <==> forall key :: !Purgeable(store, project, {hash}, key) {
      forall key ensures key in Own(store, project, hash) <==> Purgeable(store, project, {hash}, key) {
      }
      if Own(store, project, hash) != {} {
        var key :| key in Own(store, project, hash);
        assert Purgeable(store, project, {hash}, key);
      }
    }
    hide Own, Purgeable;
  }

  lemma OwnIsPurgeable(store: Store, project: string, requested: set<Hash>, key: RefKey)
    ensures key in AllOwn(store, project, requested) <==> Purgeable(store, project, requested, key)
  {
    if Purgeable(store, project, requested, key) {
      if key.hash in requested {
        assert key in Own(store, project, key.hash);
      } else {
        var original :| original in requested && Reduction(project, key.sequence, original, key.hash) in store.reductions;
        assert key in Own(store, project, original);
      }
    }
  }

  /** A purge releases exactly those references, at its own sequence, and leaves
      every other one as it was. */
  lemma PurgeReleases(store: Store, project: string, requested: set<Hash>)
    requires PurgedStore(store, project, requested).Ok?
    ensures var (next, event) := PurgedStore(store, project, requested).value;
            && event.requested == requested
            && (forall key :: key in event.released <==> Purgeable(store, project, requested, key))
            && (forall key :: key in next.refs <==> key in store.refs)
            && (forall key :: key in store.refs ==>
                  next.refs[key] == if key in event.released then Reference(store.refs[key].output, Some(NextSequence(store, project)))
                                    else store.refs[key])
            && next.reductions == store.reductions && next.heads == store.heads[project := NextSequence(store, project) + 1]
  {
    PurgeUnfolds(store, project, requested);
    forall key ensures key in AllOwn(store, project, requested) <==> Purgeable(store, project, requested, key) {
      OwnIsPurgeable(store, project, requested, key);
    }
    hide PurgedStore, AllOwn, Own, Removal, Shared, Tombstoned;
  }

  /** What a purge makes of every body: one it released and nobody uses any more
      is purged, and with it each original reduced to it; every other body
      keeps its state. What it reports as removed is exactly the former, and as
      shared the released bodies that stay and the requested ones that stay
      reduced. */
  lemma PurgeRemoves(store: Store, project: string, requested: set<Hash>, hash: Hash)
    requires Inv(store) && PurgedStore(store, project, requested).Ok?
    ensures var (next, event) := PurgedStore(store, project, requested).value;
            var released := set key | key in event.released :: key.hash;
            var reducedTo := if hash in store.payloads && store.payloads[hash].Reduced? then Some(store.payloads[hash].excerpt) else None;
            && (hash in event.removed <==>
                  (hash in released && !InUse(next.refs, hash))
                  || (reducedTo.Some? && reducedTo.value in released && !InUse(next.refs, reducedTo.value)))
            && (hash in next.payloads <==> hash in store.payloads)
            && (hash in store.payloads ==> next.payloads[hash] == if hash in event.removed then Purged else store.payloads[hash])
            && (hash in event.shared <==>
                  hash !in event.removed && (hash in released || (hash in requested && reducedTo.Some?)))
  {
    PurgeParts(store, project, requested);
    var (next, event) := PurgedStore(store, project, requested).value;
    assert HashesOf(event.released) == set key | key in event.released :: key.hash;
    hide PurgedStore, AllOwn, Own, Removal;
    RemovalIsExact(store, next.refs, HashesOf(event.released), hash);
    RequiredIsInUse(next.refs);
    hide Inv, Required, InUse;
  }

  lemma RequiredIsInUse(refs: map<RefKey, Reference>)
    ensures forall hash :: Required(refs, hash) <==> InUse(refs, hash)
  {
  }
}
