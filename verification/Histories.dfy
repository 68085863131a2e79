/** The stores a run goes through, first to last, and what a read of any staleness sees of them. */
module Histories {
  function Now<S>(h: seq<S>): S
    requires h != []
  {
    h[|h| - 1]
  }

  /** The store `age` writes ago; the first one when the run is shorter than that. */
  function View<S>(h: seq<S>, age: nat): (s: S)
    requires h != []
    ensures s in h
  {
    if age < |h| then h[|h| - 1 - age] else h[0]
  }
}
