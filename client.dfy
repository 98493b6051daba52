/** `APIClient`: the origin and default credential it was built with, and
    the count of requests entered but not yet settled. A call of `request`
    is split into the two moments at which it touches the client: entry
    (`Request`), which bumps the count and yields the transport call, and
    settlement (`Settle`), which classifies the transport's answer and
    drops the count. */
module Api {
  import opened Js
  import opened Dispatch
  import opened Pending

  class Client {
    var pendingCount: int
    var origin: string
    var credential: CredOpt
    /** The entries and settlements so far. */
    ghost var trace: seq<Event>
    /** A bound on the ids handed out, so each call gets a fresh one. */
    ghost var nextId: nat

    ghost predicate Valid()
      reads this
    {
      && WellFormed(trace)
      && pendingCount == Net(trace)
      && forall id :: id in Started(trace) ==> id < nextId
    }

    /** The calls entered and not yet settled. */
    ghost function Outstanding(): set<nat>
      reads this
    {
      InFlight(trace)
    }

    constructor (origin: string, credential: CredOpt)
      ensures Valid()
      ensures pendingCount == 0 && Outstanding() == {}
      ensures this.origin == origin && this.credential == credential
      ensures trace == []
    {
      pendingCount := 0;
      this.origin := origin;
      this.credential := credential;
      trace := [];
      nextId := 0;
    }

    /** Entry to `request(endpoint, options)`: the count goes up by one
        before the promise is returned, and the transport is called with
        the URL and envelope the client's origin and credential give. A
        missing options argument (None) takes the default options. */
    method Request(endpoint: string, options: Option<RequestOptions>) returns (call: WireRequest, ghost id: nat)
      requires Valid()
      modifies this`pendingCount, this`trace, this`nextId
      ensures Valid()
      ensures call == Prepare(origin, credential, endpoint, ResolveOptions(options))
      ensures pendingCount == old(pendingCount) + 1
      ensures trace == old(trace) + [Start(id)]
      ensures id !in old(Outstanding()) && Outstanding() == old(Outstanding()) + {id}
    {
      pendingCount := pendingCount + 1;
      id := nextId;
      trace := trace + [Start(id)];
      nextId := nextId + 1;
      call := Prepare(origin, credential, endpoint, ResolveOptions(options));
      assert trace[..|trace| - 1] == old(trace);
      InFlightWereStarted(old(trace));
    }

    /** Settlement of the call `id` with the transport's outcome: the
        promise settles as `Classify` says and the count goes down by one,
        on the fulfilled and the rejected path alike. */
    method Settle(ghost id: nat, outcome: Transport) returns (s: Settlement)
      requires Valid() && id in Outstanding()
      modifies this`pendingCount, this`trace
      ensures Valid()
      ensures s == Classify(outcome)
      ensures pendingCount == old(pendingCount) - 1
      ensures trace == old(trace) + [Finish(id)]
      ensures Outstanding() == old(Outstanding()) - {id}
    {
      s := Classify(outcome);
      pendingCount := pendingCount - 1;
      trace := trace + [Finish(id)];
      assert trace[..|trace| - 1] == old(trace);
    }

    /** Reading the count: zero tells the caller that every call entered so
        far has settled. */
    method IsQuiescent() returns (q: bool)
      requires Valid()
      ensures q <==> Outstanding() == {}
      ensures q <==> pendingCount == 0
    {
      QuiescentIffZero(trace);
      q := pendingCount == 0;
    }
  }

  /** Three requests issued back to back before any settles, then settled
      in an order other than their issue order: the count peaks at three
      and returns to zero, whatever the outcomes. */
  method ThreeOverlappingRequests(first: Transport, second: Transport, third: Transport)
    returns (peak: int, after: int, settled: seq<Settlement>)
    ensures peak == 3 && after == 0
    ensures settled == [Classify(second), Classify(third), Classify(first)]
  {
    var client := new Client("https://x", Str("K"));
    var _, a := client.Request("users/show", Some(RequestOptions(Some(map["userId" := JStr("42")]), Undef)));
    var _, b := client.Request("notes/show", Some(RequestOptions(None, Null)));
    var _, c := client.Request("i", None);
    peak := client.pendingCount;
    var s2 := client.Settle(b, second);
    var s3 := client.Settle(c, third);
    var s1 := client.Settle(a, first);
    after := client.pendingCount;
    settled := [s2, s3, s1];
  }
}
