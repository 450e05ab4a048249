/** The trigger of the infinite list: the next page is requested when the
    sentinel below the list comes into view, but only after the user has
    scrolled once, only while there is a next page, and never while one is
    already being fetched. */
module InfiniteScroll {
  import opened JsValues

  /** What the effect sees on one run. `hasNextPage` is optional and
      defaults to false. */
  datatype EffectInputs = EffectInputs(isIntersecting: bool, hasNextPage: Option<bool>, isFetchingNextPage: bool)

  /** The early return of the effect. */
  predicate Guarded(hasUserScrolled: bool, inputs: EffectInputs) {
    !hasUserScrolled || !inputs.hasNextPage.GetOr(false) || inputs.isFetchingNextPage
  }

  /** One run of the effect, from the scroll flag and the recorded previous
      intersection: whether `fetchNextPage` is called, and the new recorded
      value. A guarded run changes nothing; otherwise a fetch happens
      exactly on a rising edge and the new value is the current one. */
  function EffectStep(hasUserScrolled: bool, prev: bool, inputs: EffectInputs): (r: (bool, bool))
    ensures Guarded(hasUserScrolled, inputs) ==> r == (false, prev)
    ensures !Guarded(hasUserScrolled, inputs) ==>
              (r.0 <==> inputs.isIntersecting && !prev) && r.1 == inputs.isIntersecting
  {
    if Guarded(hasUserScrolled, inputs) then (false, prev)
    else (inputs.isIntersecting && !prev, inputs.isIntersecting)
  }

  /** The number of fetches over a sequence of runs with the scroll flag
      fixed. */
  function Fetches(hasUserScrolled: bool, prev: bool, trace: seq<EffectInputs>): nat
    decreases |trace|
  {
    if trace == [] then 0
    else
      var (fetch, next) := EffectStep(hasUserScrolled, prev, trace[0]);
      (if fetch then 1 else 0) + Fetches(hasUserScrolled, next, trace[1..])
  }

  /** While the sentinel stays in view after being recorded in view, no run
      fetches again. */
  lemma {:induction false} NoRefireWhileInView(hasUserScrolled: bool, trace: seq<EffectInputs>)
    requires forall i :: 0 <= i < |trace| ==> trace[i].isIntersecting
    ensures Fetches(hasUserScrolled, true, trace) == 0
  {
    if trace != [] {
      NoRefireWhileInView(hasUserScrolled, trace[1..]);
    }
  }

  /** Staying in view, however many times the effect runs, fetches at most
      once. */
  lemma {:induction false} AtMostOneFetchWhileInView(hasUserScrolled: bool, prev: bool, trace: seq<EffectInputs>)
    requires forall i :: 0 <= i < |trace| ==> trace[i].isIntersecting
    ensures Fetches(hasUserScrolled, prev, trace) <= 1
  {
    if trace != [] {
      var (fetch, next) := EffectStep(hasUserScrolled, prev, trace[0]);
      if fetch {
        NoRefireWhileInView(hasUserScrolled, trace[1..]);
      } else {
        AtMostOneFetchWhileInView(hasUserScrolled, next, trace[1..]);
      }
    }
  }

  /** Before the first scroll nothing is ever fetched. */
  lemma {:induction false} NoFetchBeforeScroll(prev: bool, trace: seq<EffectInputs>)
    ensures Fetches(false, prev, trace) == 0
  {
    if trace != [] {
      NoFetchBeforeScroll(prev, trace[1..]);
    }
  }

  /** The hook's state: the scroll flag and the recorded intersection. */
  class InfiniteScrollState {
    var hasUserScrolled: bool
    var prevIntersecting: bool

    /** Both start false. */
    constructor()
      ensures !hasUserScrolled && !prevIntersecting
    {
      hasUserScrolled := false;
      prevIntersecting := false;
    }

    /** The one-shot scroll listener: the flag becomes true and stays so. */
    method OnScroll()
      modifies this
      ensures hasUserScrolled
      ensures prevIntersecting == old(prevIntersecting)
    {
      hasUserScrolled := true;
    }

    /** The observer runs only while there is a next page and the user has
        scrolled. */
    function ObserverEnabled(hasNextPage: Option<bool>): (enabled: bool)
      reads this
      ensures enabled <==> hasNextPage == Some(true) && hasUserScrolled
    {
      hasNextPage.GetOr(false) && hasUserScrolled
    }

    /** One run of the effect. */
    method RunEffect(inputs: EffectInputs) returns (fetch: bool)
      modifies this
      ensures hasUserScrolled == old(hasUserScrolled)
      ensures (fetch, prevIntersecting) == EffectStep(old(hasUserScrolled), old(prevIntersecting), inputs)
      ensures fetch ==> hasUserScrolled && inputs.hasNextPage == Some(true) && !inputs.isFetchingNextPage
    {
      if !hasUserScrolled || !inputs.hasNextPage.GetOr(false) || inputs.isFetchingNextPage {
        return false;
      }
      fetch := inputs.isIntersecting && !prevIntersecting;
      prevIntersecting := inputs.isIntersecting;
    }
  }
}
