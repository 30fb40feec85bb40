/** The mark up to which a store has found a project's events readable
    (crates/baley-store-sqlite/src/transact.rs, `check_readable`). */
module Readable {
  import opened Wrappers

  datatype Event = Event(typeName: string, version: nat, payload: string)

  /** A collision-free hash: an event sealed after the hash before it. */
  datatype Hash = Seal(previous: Option<Hash>, event: Event)

  datatype Head = Head(sequence: nat, hash: Hash)

  /** The hash stored with each event of a valid chain. */
  function HashAt(chain: seq<Event>, sequence: nat): Hash
    requires 0 < sequence <= |chain|
    decreases sequence
  {
    Seal(if sequence == 1 then None else Some(HashAt(chain, sequence - 1)), chain[sequence - 1])
  }

  /** `stored_hash`: none past the end. */
  function StoredHash(chain: seq<Event>, sequence: nat): Option<Hash> {
    if 0 < sequence <= |chain| then Some(HashAt(chain, sequence)) else None
  }

  function StoredHead(chain: seq<Event>): Option<Head> {
    if chain == [] then None else Some(Head(|chain|, HashAt(chain, |chain|)))
  }

  /** A hash fixes the events it seals. */
  lemma {:induction false} HashesFixTheirChain(a: seq<Event>, i: nat, b: seq<Event>, j: nat)
    requires 0 < i <= |a| && 0 < j <= |b|
    requires HashAt(a, i) == HashAt(b, j)
    ensures i == j && a[..i] == b[..j]
    decreases i
  {
    assert a[i - 1] == b[j - 1];
    assert i == 1 <==> j == 1;
    if i > 1 {
      HashesFixTheirChain(a, i - 1, b, j - 1);
      assert a[..i] == a[..i - 1] + [a[i - 1]] && b[..j] == b[..j - 1] + [b[j - 1]];
    }
  }

  lemma {:induction false} PrefixHash(a: seq<Event>, b: seq<Event>, sequence: nat)
    requires 0 < sequence <= |a| && a <= b
    ensures HashAt(b, sequence) == HashAt(a, sequence)
    decreases sequence
  {
    if sequence > 1 {
      PrefixHash(a, b, sequence - 1);
    }
  }

  // ----- the store -----

  type Known = (string, nat) -> bool

  predicate AllReadable(events: seq<Event>, known: Known) {
    forall at :: 0 <= at < |events| ==> known(events[at].typeName, events[at].version)
  }

  /** The mark names a head some chain had, every event of it readable. */
  ghost predicate MarkIsReadable(mark: Option<Head>, known: Known) {
    mark.Some? ==> exists seen ::
      && 0 < mark.value.sequence <= |seen| && HashAt(seen, mark.value.sequence) == mark.value.hash
      && AllReadable(seen[..mark.value.sequence], known)
  }

  datatype Step = Checked | Commanded(events: seq<Event>) | OtherCommanded(events: seq<Event>) | Replaced(chain: seq<Event>)

  /** The store as a value. */
  datatype Store = Store(chain: seq<Event>, mark: Option<Head>)

  function ScanFrom(store: Store): nat {
    if store.mark.Some? && StoredHash(store.chain, store.mark.value.sequence) == Some(store.mark.value.hash)
    then store.mark.value.sequence else 0
  }

  /** What the check answers, reading only past the mark. */
  predicate Accepts(store: Store, known: Known) {
    ScanFrom(store) <= |store.chain| ==> AllReadable(store.chain[ScanFrom(store)..], known)
  }

  /** A check that passed moves the mark to the head, even where its command
      then fails. */
  function After(store: Store, known: Known, step: Step): Store {
    match step
    case Checked => if Accepts(store, known) && store.chain != [] then store.(mark := StoredHead(store.chain)) else store
    case Commanded(events) =>
      if !Accepts(store, known) then store
      else if AllReadable(events, known) && events != [] then Store(store.chain + events, StoredHead(store.chain + events))
      else store.(mark := if store.chain == [] then store.mark else StoredHead(store.chain))
    case OtherCommanded(events) => store.(chain := store.chain + events)
    case Replaced(chain) => store.(chain := chain)
  }

  function Run(store: Store, known: Known, steps: seq<Step>): Store
    decreases |steps|
  {
    if steps == [] then store else Run(After(store, known, steps[0]), known, steps[1..])
  }

  /** A run ends with its last step, taken where the steps before it ended. */
  lemma {:induction false} RunAppends(store: Store, known: Known, steps: seq<Step>, step: Step)
    ensures Run(store, known, steps + [step]) == After(Run(store, known, steps), known, step)
    decreases |steps|
  {
    hide After;
    if steps == [] {
      assert [step][1..] == [] && [] + [step] == [step];
    } else {
      assert (steps + [step])[1..] == steps[1..] + [step];
      RunAppends(After(store, known, steps[0]), known, steps[1..], step);
    }
  }

  /** A chain that still has the marked head has a readable prefix. */
  lemma MarkedPrefix(chain: seq<Event>, mark: Head, known: Known)
    requires MarkIsReadable(Some(mark), known)
    requires StoredHash(chain, mark.sequence) == Some(mark.hash)
    ensures AllReadable(chain[..mark.sequence], known)
  {
    var seen :| 0 < mark.sequence <= |seen| && HashAt(seen, mark.sequence) == mark.hash && AllReadable(seen[..mark.sequence], known);
    HashesFixTheirChain(chain, mark.sequence, seen, mark.sequence);
  }

  lemma MarkAgrees(store: Store, known: Known)
    requires MarkIsReadable(store.mark, known)
    ensures Accepts(store, known) <==> AllReadable(store.chain, known)
  {
    var from := ScanFrom(store);
    if from > 0 {
      MarkedPrefix(store.chain, store.mark.value, known);
    }
    assert store.chain == store.chain[..from] + store.chain[from..];
    forall at | 0 <= at < |store.chain|
      ensures at < from ==> store.chain[..from][at] == store.chain[at]
      ensures at >= from ==> store.chain[from..][at - from] == store.chain[at]
    {
    }
  }

  lemma StepKeepsMark(store: Store, known: Known, step: Step)
    requires MarkIsReadable(store.mark, known)
    ensures MarkIsReadable(After(store, known, step).mark, known)
  {
    MarkAgrees(store, known);
    var next := After(store, known, step);
    if next.mark != store.mark {
      assert next.chain[..|next.chain|] == next.chain;
      assert AllReadable(next.chain, known);
    }
  }

  lemma {:induction false} RunKeepsMark(store: Store, known: Known, steps: seq<Step>)
    requires MarkIsReadable(store.mark, known)
    ensures MarkIsReadable(Run(store, known, steps).mark, known)
    decreases |steps|
  {
    if steps != [] {
      StepKeepsMark(store, known, steps[0]);
      RunKeepsMark(After(store, known, steps[0]), known, steps[1..]);
    }
  }

  /** Over any run of this binary's commands, other binaries' and whole-chain
      replacements, the check accepts exactly the chains every event of which
      it reads, though it reads only what follows the mark. */
  lemma TheMarkAgreesWithAFullScan(chain: seq<Event>, known: Known, steps: seq<Step>)
    ensures Accepts(Run(Store(chain, None), known, steps), known)
            <==> AllReadable(Run(Store(chain, None), known, steps).chain, known)
  {
    RunKeepsMark(Store(chain, None), known, steps);
    MarkAgrees(Run(Store(chain, None), known, steps), known);
  }

  /** A command goes through exactly on a readable chain with readable events of
      its own; it then appends them all, and the mark is the new head. A check
      that passed has moved the mark even where the command's events are not
      read. */
  lemma CommandsExtendReadableChains(store: Store, known: Known, events: seq<Event>)
    requires MarkIsReadable(store.mark, known)
    ensures var next := After(store, known, Commanded(events));
            && next.chain == (if AllReadable(store.chain, known) && AllReadable(events, known) then store.chain + events else store.chain)
            && next.mark == (if AllReadable(store.chain, known) && next.chain != [] then Some(Head(|next.chain|, HashAt(next.chain, |next.chain|)))
                             else store.mark)
  {
    MarkAgrees(store, known);
    hide MarkIsReadable, HashAt, AllReadable, Accepts;
    if events == [] {
      assert store.chain + events == store.chain;
      NothingUnreadable(known);
    }
  }

  lemma NothingUnreadable(known: Known)
    ensures AllReadable([], known)
  {
  }

  /** After a check that passed, the next one reads exactly the events that
      others have written since. */
  lemma ChecksReadOnlyWhatIsNew(store: Store, known: Known, events: seq<Event>)
    requires MarkIsReadable(store.mark, known) && store.chain != [] && AllReadable(store.chain, known)
    ensures var next := After(After(store, known, Checked), known, OtherCommanded(events));
            && ScanFrom(next) == |store.chain| && next.chain[ScanFrom(next)..] == events
            && (Accepts(next, known) <==> AllReadable(events, known))
  {
    MarkAgrees(store, known);
    hide MarkIsReadable;
    PrefixHash(store.chain, store.chain + events, |store.chain|);
  }

  // ----- the store as it runs -----

  class ReadableStore {
    const known: Known
    var chain: seq<Event>
    var mark: Option<Head>

    function Value(): Store
      reads this
    {
      Store(chain, mark)
    }

    ghost predicate Valid()
      reads this
    {
      MarkIsReadable(mark, known)
    }

    constructor (known: Known, chain: seq<Event>)
      ensures Valid() && Value() == Store(chain, None) && this.known == known
    {
      this.known, this.chain, mark := known, chain, None;
    }

    /** `check_readable`: the events after the mark, or all of them where the
        chain no longer has the marked head. */
    method Check() returns (readable: bool)
      requires Valid()
      modifies this`mark
      ensures Valid() && Value() == After(old(Value()), known, Checked)
      ensures readable <==> AllReadable(chain, known)
      ensures readable <==> Accepts(old(Value()), known)
    {
      StepKeepsMark(Value(), known, Checked);
      MarkAgrees(Value(), known);
      var head := StoredHead(chain);
      if head.None? {
        return true;
      }
      var from := ScanFrom(Value());
      if from == head.value.sequence {
        assert chain[from..] == [];
        return true;
      }
      var unread := set at | from <= at < |chain| :: (chain[at].typeName, chain[at].version);
      ghost var all := unread;
      while unread != {}
        invariant unread <= all
        invariant forall found :: found in all - unread ==> known(found.0, found.1)
      {
        var found :| found in unread;
        unread := unread - {found};
        if !known(found.0, found.1) {
          ghost var at :| from <= at < |chain| && (chain[at].typeName, chain[at].version) == found;
          return false;
        }
      }
      forall at | 0 <= at < |chain[from..]| ensures known(chain[from..][at].typeName, chain[from..][at].version) {
        assert (chain[from + at].typeName, chain[from + at].version) in all;
      }
      mark := head;
      readable := true;
    }

    /** A command of this binary: checked, then its own events, and the new
        head marked once they are committed. */
    method Command(events: seq<Event>) returns (done: bool)
      requires Valid()
      modifies this
      ensures Valid() && Value() == After(old(Value()), known, Commanded(events))
      ensures done <==> AllReadable(old(chain), known) && AllReadable(events, known)
      ensures chain == if done then old(chain) + events else old(chain)
    {
      hide MarkIsReadable, HashAt, ScanFrom;
      StepKeepsMark(Value(), known, Commanded(events));
      MarkAgrees(Value(), known);
      done := Check();
      if !done {
        return;
      }
      for at := 0 to |events|
        invariant AllReadable(events[..at], known)
      {
        if !known(events[at].typeName, events[at].version) {
          return false;
        }
        assert events[..at + 1] == events[..at] + [events[at]];
      }
      assert events[..|events|] == events;
      if events != [] {
        chain := chain + events;
        mark := StoredHead(chain);
      }
    }

    /** Another binary's command, which may write what this one cannot read. */
    method OtherCommand(events: seq<Event>)
      requires Valid()
      modifies this`chain
      ensures Valid() && Value() == After(old(Value()), known, OtherCommanded(events))
    {
      chain := chain + events;
    }

    /** A restore: any other chain in its place. */
    method Replace(other: seq<Event>)
      requires Valid()
      modifies this`chain
      ensures Valid() && Value() == After(old(Value()), known, Replaced(other))
    {
      chain := other;
    }

    /** Any run of them, and the check that follows: it answers as a scan of the
        whole chain would. */
    method CheckAfter(steps: seq<Step>) returns (readable: bool)
      requires Valid()
      modifies this
      ensures Valid() && Value() == After(Run(old(Value()), known, steps), known, Checked)
      ensures readable <==> AllReadable(chain, known)
    {
      hide After;
      assert steps[0..] == steps;
      for at := 0 to |steps|
        invariant Valid()
        invariant Run(Value(), known, steps[at..]) == Run(old(Value()), known, steps)
      {
        assert steps[at..][0] == steps[at] && steps[at..][1..] == steps[at + 1..];
        match steps[at] {
          case Checked =>
            var passed := Check();
          case Commanded(events) =>
            var done := Command(events);
          case OtherCommanded(events) =>
            OtherCommand(events);
          case Replaced(other) =>
            Replace(other);
        }
      }
      readable := Check();
    }
  }
}
