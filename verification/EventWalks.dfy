/** A client that follows the tokens of protobuf/service/memory_read.go while protobuf/service/memory_write.go keeps
    storing events: what it collects is the walk over the log. */
module EventWalks {
  import opened Octets
  import opened Names
  import opened EventLog
  import opened MemoryStores

  datatype Arrival = Arrival(parent: string, event: Event, now: int)

  /** One page asked for, and what arrives before the next one is. */
  datatype Round = Round(pageSize: int, arrivals: seq<Arrival>)

  function Arrivals(rounds: seq<Round>): nat {
    if rounds == [] then 0 else |rounds[0].arrivals| + Arrivals(rounds[1..])
  }

  function EventsOf(entries: seq<Entry>): (events: seq<Event>)
    ensures |events| == |entries| && forall i :: 0 <= i < |entries| ==> events[i] == entries[i].event
  {
    seq(|entries|, i requires 0 <= i < |entries| => entries[i].event)
  }

  /** The bound a token stands for. */
  function Below(token: Token, parent: string): nat {
    if token.NoToken? || DecodeCursor(token, parent).Err? then MAX_UINT64 else DecodeCursor(token, parent).value
  }

  lemma WalkFrom(capacity: nat, device: string, upper: nat, calls: seq<Call>)
    requires Growing(calls) && calls != []
    ensures calls[0].size >= 1
    ensures var p := Page(capacity, device, upper, calls[0]);
            && Growing(calls[1..])
            && Walk(capacity, device, upper, calls) ==
               p.entries + (if p.next.None? then [] else Walk(capacity, device, p.next.value, calls[1..]))
            && (Finished(capacity, device, upper, calls) <==>
                p.next.None? || Finished(capacity, device, p.next.value, calls[1..]))
  {
    hide WellNumbered, Growing, CutPage, Held;
    GrowingOn(calls);
  }

  lemma GrowingFrom(call: Call, calls: seq<Call>)
    requires WellNumbered(call.log) && call.size >= 1 && Growing(calls)
    requires calls != [] ==> call.log <= calls[0].log
    ensures Growing([call] + calls) && ([call] + calls)[1..] == calls
  {
    hide WellNumbered;
  }

  lemma NothingWalked(capacity: nat, device: string, upper: nat)
    ensures Growing([]) && EventsOf(Walk(capacity, device, upper, [])) == [] && !Finished(capacity, device, upper, [])
  {
  }

  lemma EventsJoin(a: seq<Entry>, b: seq<Entry>)
    ensures EventsOf(a + b) == EventsOf(a) + EventsOf(b)
  {
  }

  method AppendAll(s: MemoryStore, arrivals: seq<Arrival>)
    requires s.Valid() && s.sequence + |arrivals| <= MAX_UINT64
    modifies s, s.ring
    ensures s.Valid() && s.ring == old(s.ring) && old(s.log) <= s.log && |s.log| <= old(|s.log|) + |arrivals|
  {
    hide WellNumbered, Indexes, RingHolds, Held, ParseParent, EventName;
    for i := 0 to |arrivals|
      invariant s.Valid() && s.ring == old(s.ring) && old(s.log) <= s.log && |s.log| <= old(|s.log|) + i
    {
      var _ := s.Append(false, arrivals[i].parent, Some(arrivals[i].event), arrivals[i].now);
    }
  }

  /** Asks for page after page, handing each token back, until a page comes without one or the client stops asking. */
  method Follow(s: MemoryStore, parent: string, token: Token, rounds: seq<Round>)
    returns (events: seq<Event>, finished: bool, ghost calls: seq<Call>)
    requires s.Valid() && |s.log| + Arrivals(rounds) <= MAX_UINT64 && ParseParent(parent).Ok?
    requires token.NoToken? || DecodeCursor(token, parent).Ok?
    modifies s, s.ring
    ensures s.Valid() && s.ring == old(s.ring) && old(s.log) <= s.log
    ensures Growing(calls) && (calls != [] ==> calls[0].log == old(s.log)) && (rounds != [] ==> calls != [])
    ensures events == EventsOf(Walk(s.ring.Length, ParseParent(parent).value, Below(token, parent), calls))
    ensures finished <==> Finished(s.ring.Length, ParseParent(parent).value, Below(token, parent), calls)
    ensures !finished ==> |calls| == |rounds|
    decreases |rounds|
  {
    hide WellNumbered, Indexes, RingHolds, Held, ParseParent, CutPage, DecodeCursor, Decimal, Growing, Walk, Finished, Matches;
    ghost var device, upper := ParseParent(parent).value, Below(token, parent);
    NothingWalked(s.ring.Length, device, upper);
    if rounds == [] {
      return [], false, [];
    }
    ghost var call := Call(s.log, PageSizeFor(rounds[0].pageSize));
    var listed := s.List(false, Query(parent, rounds[0].pageSize, token));
    var page := listed.value;
    ghost var cut := Page(s.ring.Length, device, upper, call);
    PageExact(call.log, s.ring.Length, device, upper, call.size);
    assert page.events == EventsOf(cut.entries);
    AppendAll(s, rounds[0].arrivals);
    events, finished, calls := page.events, true, [];
    if !page.next.NoToken? {
      CursorRoundTrip(parent, parent, cut.next.value);
      var rest;
      rest, finished, calls := Follow(s, parent, page.next, rounds[1..]);
      EventsJoin(cut.entries, Walk(s.ring.Length, device, cut.next.value, calls));
      events := events + rest;
    }
    GrowingFrom(call, calls);
    calls := [call] + calls;
    WalkFrom(s.ring.Length, device, upper, calls);
  }

  /** A listing followed to its end while events arrive. The client collects entries of the device newest first, so none
      twice; an entry stored before the first page is among them exactly when it was still held when its page was cut. There
      are no more pages than entries stored at the start. */
  method Collect(s: MemoryStore, parent: string, rounds: seq<Round>)
    returns (events: seq<Event>, finished: bool, ghost entries: seq<Entry>, ghost calls: seq<Call>)
    requires s.Valid() && |s.log| + Arrivals(rounds) <= MAX_UINT64 && ParseParent(parent).Ok? && rounds != []
    modifies s, s.ring
    ensures s.Valid() && s.ring == old(s.ring) && old(s.log) <= s.log
    ensures events == EventsOf(entries) && Descending(entries)
    ensures forall e :: e in entries ==> Matches(e, ParseParent(parent).value) && e in old(s.log)
    ensures Growing(calls) && calls != [] && calls[0].log == old(s.log)
    ensures forall k :: 0 <= k < old(|s.log|) && Matches(old(s.log)[k], ParseParent(parent).value) ==>
              (old(s.log)[k] in entries <==> !GoneWhenCut(s.ring.Length, ParseParent(parent).value, MAX_UINT64, calls, k))
    ensures |rounds| > old(|s.log|) ==> finished
  {
    hide WellNumbered, Indexes, RingHolds, Held, ParseParent, CutPage, DecodeCursor, Growing, Walk, Finished, Matches, GoneWhenCut;
    ghost var device, log, n := ParseParent(parent).value, s.log, s.ring.Length;
    events, finished, calls := Follow(s, parent, NoToken, rounds);
    entries := Walk(n, device, MAX_UINT64, calls);
    WalkDescends(n, device, MAX_UINT64, calls);
    forall k | 0 <= k < |log| && Matches(log[k], device)
      ensures log[k] in entries <==> !GoneWhenCut(n, device, MAX_UINT64, calls, k)
    {
      WalkComplete(n, device, MAX_UINT64, calls, k);
    }
    if !finished && |rounds| > |log| {
      WalkEnds(n, device, MAX_UINT64, calls);
    }
  }
}
