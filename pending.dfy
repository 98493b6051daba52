/** The bookkeeping behind `pendingApiRequestsCount`: every call of
    `request` is an event `Start(id)` when it is entered and an event
    `Finish(id)` when its promise settles, whichever way. The counter is the
    number of starts minus the number of finishes. */
module Pending {

  datatype Event = Start(id: nat) | Finish(id: nat)

  /** How far the counter has moved over a trace: up one per start, down
      one per settlement. */
  function Net(t: seq<Event>): int
  {
    if t == [] then 0
    else Net(t[..|t| - 1]) + (if t[|t| - 1].Start? then 1 else -1)
  }

  /** The calls ever entered. */
  function Started(t: seq<Event>): set<nat>
  {
    if t == [] then {}
    else
      var e := t[|t| - 1];
      Started(t[..|t| - 1]) + (if e.Start? then {e.id} else {})
  }

  /** The calls entered and not yet settled. */
  function InFlight(t: seq<Event>): set<nat>
  {
    if t == [] then {}
    else
      var e := t[|t| - 1];
      match e
      case Start(id) => InFlight(t[..|t| - 1]) + {id}
      case Finish(id) => InFlight(t[..|t| - 1]) - {id}
  }

  /** A trace the dispatcher can produce: each call is entered once, and a
      promise settles only while its call is in flight, so at most once. */
  predicate WellFormed(t: seq<Event>)
  {
    t == [] ||
    (WellFormed(t[..|t| - 1]) &&
     match t[|t| - 1]
     case Start(id) => id !in Started(t[..|t| - 1])
     case Finish(id) => id in InFlight(t[..|t| - 1]))
  }

  /** Every call in flight was entered. */
  lemma {:induction false} InFlightWereStarted(t: seq<Event>)
    requires WellFormed(t)
    ensures InFlight(t) <= Started(t)
    decreases |t|
  {
    if t != [] {
      InFlightWereStarted(t[..|t| - 1]);
    }
  }

  /** The counter equals the number of calls in flight. */
  lemma {:induction false} NetCountsInFlight(t: seq<Event>)
    requires WellFormed(t)
    ensures Net(t) == |InFlight(t)|
    decreases |t|
  {
    if t != [] {
      var p := t[..|t| - 1];
      NetCountsInFlight(p);
      match t[|t| - 1]
      case Start(id) =>
        InFlightWereStarted(p);
        assert id !in InFlight(p);
        assert |InFlight(p) + {id}| == |InFlight(p)| + 1;
      case Finish(id) =>
        assert |InFlight(p) - {id}| == |InFlight(p)| - 1;
    }
  }

  /** The counter is zero exactly when no call is in flight, and never
      negative. */
  lemma QuiescentIffZero(t: seq<Event>)
    requires WellFormed(t)
    ensures Net(t) >= 0
    ensures Net(t) == 0 <==> InFlight(t) == {}
  {
    NetCountsInFlight(t);
  }

  /** A prefix of a trace the dispatcher can produce is one too. */
  lemma {:induction false} PrefixWellFormed(t: seq<Event>, u: seq<Event>)
    requires WellFormed(t + u)
    ensures WellFormed(t)
    decreases |u|
  {
    if u != [] {
      var v := u[..|u| - 1];
      assert (t + u)[..|t + u| - 1] == t + v;
      assert WellFormed(t + v);
      PrefixWellFormed(t, v);
    } else {
      assert t + u == t;
    }
  }

  /** Once every call entered during u has settled (and u settled no call
      that was in flight before it), the counter is back where it was. */
  lemma SettledBatchRestoresCount(t: seq<Event>, u: seq<Event>)
    requires WellFormed(t + u)
    requires InFlight(t + u) == InFlight(t)
    ensures Net(t + u) == Net(t)
  {
    PrefixWellFormed(t, u);
    NetCountsInFlight(t);
    NetCountsInFlight(t + u);
  }
}
