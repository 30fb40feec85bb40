/** How a binary judges a project's live views
    (crates/baley-store-sqlite/src/view.rs, `judge_set`, `judge_request`). */
module Fences {
  import opened Wrappers

  /** One view's stamp: the projector and view set versions that built it. */
  datatype Stamp = Stamp(projector: nat, viewSet: nat)

  type Stamps = map<string, Stamp>

  /** A binary declares a view set version and each view's projector version. */
  datatype Binary = Binary(viewSet: nat, views: map<string, nat>)

  /** The live generation, if the project has one, with its stamps. */
  datatype LiveViews = LiveViews(generation: Option<nat>, head: nat, stamps: Stamps)

  datatype Fence = Current(generation: nat) | Unstamped | Behind | Newer

  const REQUEST_VIEW := "request"

  function StampsOf(binary: Binary): Stamps {
    map view | view in binary.views :: Stamp(binary.views[view], binary.viewSet)
  }

  predicate NewerView(binary: Binary, stamps: Stamps, view: string) {
    view in binary.views && view in stamps && stamps[view].projector > binary.views[view]
  }

  function UnstampedFence(live: LiveViews): Fence {
    if live.head == 0 then Unstamped else Behind
  }

  function JudgeSet(binary: Binary, live: LiveViews): Fence {
    if live.generation.None? then UnstampedFence(live)
    else if exists view :: view in live.stamps && live.stamps[view].viewSet > binary.viewSet then Newer
    else if exists view :: view in binary.views && NewerView(binary, live.stamps, view) then Newer
    else if || (exists view :: view in live.stamps && live.stamps[view].viewSet != binary.viewSet)
            || (exists view :: view in live.stamps && view !in binary.views)
            || (exists view :: view in binary.views
                               && (view in live.stamps ==> live.stamps[view].projector != binary.views[view])) then Behind
    else Current(live.generation.value)
  }

  function JudgeRequest(binary: Binary, live: LiveViews): Option<Fence> {
    if live.generation.None? then Some(UnstampedFence(live))
    else if REQUEST_VIEW !in binary.views then None
    else if NewerView(binary, live.stamps, REQUEST_VIEW) then Some(Newer)
    else if REQUEST_VIEW in live.stamps && live.stamps[REQUEST_VIEW].projector == binary.views[REQUEST_VIEW]
    then Some(Current(live.generation.value))
    else Some(Behind)
  }

  /** No live stamp is past what the binary declares. */
  predicate NotPast(binary: Binary, stamps: Stamps) {
    && (forall view :: view in stamps ==> stamps[view].viewSet <= binary.viewSet)
    && (forall view :: view in stamps && view in binary.views ==> stamps[view].projector <= binary.views[view])
  }

  /** The views are current exactly when every live stamp is the binary's own
      and it misses none; they are refused exactly when some stamp is past it. */
  lemma FencesAreExact(binary: Binary, live: LiveViews)
    ensures JudgeSet(binary, live).Current? <==> live.generation.Some? && live.stamps == StampsOf(binary)
    ensures JudgeSet(binary, live).Current? ==> JudgeSet(binary, live).generation == live.generation.value
    ensures JudgeSet(binary, live).Newer? <==> live.generation.Some? && !NotPast(binary, live.stamps)
    ensures JudgeSet(binary, live).Unstamped? <==> live.generation.None? && live.head == 0
  {
    if live.generation.Some? && live.stamps == StampsOf(binary) {
      assert forall view :: view in live.stamps <==> view in binary.views;
    }
    if JudgeSet(binary, live).Current? {
      forall view | view in binary.views ensures view in live.stamps && live.stamps[view] == StampsOf(binary)[view] {
      }
      assert live.stamps.Keys == binary.views.Keys;
    }
    if live.generation.Some? && !NotPast(binary, live.stamps) {
      if view :| view in live.stamps && view in binary.views && live.stamps[view].projector > binary.views[view] {
        assert NewerView(binary, live.stamps, view);
      }
    }
  }

  /** Where every view is current the request view is, and a request view past
      the binary refuses the whole set. */
  lemma RequestFollowsSet(binary: Binary, live: LiveViews)
    requires REQUEST_VIEW in binary.views
    ensures JudgeSet(binary, live).Current? ==> JudgeRequest(binary, live) == Some(JudgeSet(binary, live))
    ensures JudgeRequest(binary, live) == Some(Newer) ==> JudgeSet(binary, live).Newer?
  {
    FencesAreExact(binary, live);
  }
}
