/**
 * The shop grid's incremental reveal (Shop.tsx): a window of `visibleCount`
 * products that grows by a fixed step each time the sentinel under the grid
 * comes into view, with a loading flag between the trigger and the growth.
 * The 500 ms delay is the `LoadComplete` event.
 */
module Shop {
  import opened Seqs

  const InitialCount := 9
  const Increment := 6

  datatype RevealState = RevealState(visibleCount: int, isLoadingMore: bool)

  datatype RevealEvent =
    | SentinelVisible(listLength: nat)  // the sentinel intersects the viewport; the list's current length
    | LoadComplete                      // the simulated delay has elapsed
    | ListChanged                       // the product list given to the shop changed

  const Init := RevealState(InitialCount, false)

  /** The window sizes the grid can reach: the initial size plus whole steps. */
  predicate Valid(s: RevealState)
  {
    s.visibleCount >= InitialCount && (s.visibleCount - InitialCount) % Increment == 0
  }

  /**
   * One event. A sentinel sighting starts a load only when no load is pending
   * (no observer is installed meanwhile) and products remain hidden; the end
   * of the delay adds one step and clears the flag; a new list resets the
   * count to 9 and leaves a pending load pending.
   */
  function Step(s: RevealState, e: RevealEvent): (r: RevealState)
    ensures Valid(s) ==> Valid(r)
    ensures e.SentinelVisible? ==>
      if !s.isLoadingMore && s.visibleCount < e.listLength then r == s.(isLoadingMore := true) else r == s
    ensures e == LoadComplete ==>
      if s.isLoadingMore then r.visibleCount == s.visibleCount + Increment && !r.isLoadingMore else r == s
    ensures e == ListChanged ==> r.visibleCount == InitialCount && r.isLoadingMore == s.isLoadingMore
    ensures r.visibleCount != s.visibleCount ==> r.visibleCount == s.visibleCount + Increment || r.visibleCount == InitialCount
  {
    match e
    case SentinelVisible(n) =>
      if !s.isLoadingMore && s.visibleCount < n then s.(isLoadingMore := true) else s
    case LoadComplete =>
      if s.isLoadingMore then RevealState(s.visibleCount + Increment, false) else s
    case ListChanged =>
      s.(visibleCount := InitialCount)
  }

  /** A second completion with no trigger in between changes nothing: one growth per load. */
  lemma OneGrowthPerLoad(s: RevealState)
    ensures Step(Step(s, LoadComplete), LoadComplete) == Step(s, LoadComplete)
  {
  }

  /** The state after a sequence of events. */
  function Run(s: RevealState, events: seq<RevealEvent>): RevealState
    decreases |events|
  {
    if |events| == 0 then s else Run(Step(s, events[0]), events[1..])
  }

  function Triggers(events: seq<RevealEvent>): nat
    decreases |events|
  {
    if |events| == 0 then 0 else (if events[0].SentinelVisible? then 1 else 0) + Triggers(events[1..])
  }

  /** The window plus the step a pending load will add. */
  function Committed(s: RevealState): int
  {
    s.visibleCount + if s.isLoadingMore then Increment else 0
  }

  /** Every reachable state is valid. */
  lemma {:induction false} RunValid(s: RevealState, events: seq<RevealEvent>)
    requires Valid(s)
    ensures Valid(Run(s, events))
    decreases |events|
  {
    if |events| > 0 {
      RunValid(Step(s, events[0]), events[1..]);
    }
  }

  /** The window and any pending step grow by at most one step per sentinel sighting. */
  lemma {:induction false} GrowthBoundedByTriggers(s: RevealState, events: seq<RevealEvent>)
    requires Valid(s)
    ensures Committed(Run(s, events)) <= Committed(s) + Increment * Triggers(events)
    decreases |events|
  {
    if |events| > 0 {
      var t := Step(s, events[0]);
      assert Committed(t) <= Committed(s) + (if events[0].SentinelVisible? then Increment else 0);
      GrowthBoundedByTriggers(t, events[1..]);
    }
  }

  /** From the initial state the window never exceeds 9 plus one step per sighting, and never drops below 9. */
  lemma WindowFromStart(events: seq<RevealEvent>)
    ensures InitialCount <= Run(Init, events).visibleCount <= InitialCount + Increment * Triggers(events)
  {
    RunValid(Init, events);
    GrowthBoundedByTriggers(Init, events);
  }

  /** The products the grid renders, `slice(0, visibleCount)`: the first `visibleCount` of the list, in order. */
  function Rendered<T>(products: seq<T>, s: RevealState): (r: seq<T>)
    ensures r <= products
    ensures s.visibleCount >= 0 ==> |r| == Min(s.visibleCount, |products|)
    ensures s.visibleCount < 0 ==> |r| == Max(|products| + s.visibleCount, 0)
  {
    JsSlice(products, 0, s.visibleCount)
  }

  /** What the area under the grid shows. */
  datatype Footer = NoProducts | Spinner | EndOfList | Blank

  /**
   * An empty list shows the no-products notice instead of the grid; otherwise
   * a pending load shows the spinner, and "You've reached the end." appears
   * once the whole list is visible.
   */
  function FooterFor(listLength: nat, s: RevealState): (f: Footer)
    ensures f == NoProducts <==> listLength == 0
    ensures f == EndOfList <==> s.visibleCount >= listLength && listLength > 0 && !s.isLoadingMore
    ensures f == Spinner <==> listLength > 0 && s.isLoadingMore
  {
    if listLength == 0 then NoProducts
    else if s.isLoadingMore then Spinner
    else if s.visibleCount >= listLength then EndOfList
    else Blank
  }

  /** Once the end notice shows, further sightings start no load. */
  lemma EndIsQuiet(n: nat, s: RevealState)
    requires FooterFor(n, s) == EndOfList
    ensures Step(s, SentinelVisible(n)) == s
  {
  }
}
