/** The event store as a plain append-only log, and what a client sees of it page by page while events keep
    arriving. protobuf/service/memory_read.go, AIP-158. */
module EventLog {
  import opened Octets
  import opened Names

  datatype Event = Event(name: string, createTime: int, eventTime: Option<int>, body: seq<Octet>)

  /** A place in the log. */
  datatype Entry = Entry(sequence: nat, device: string, event: Event)

  /** Entries are numbered by their place in the log, and named after that number. */
  predicate WellNumbered(log: seq<Entry>) {
    forall k :: 0 <= k < |log| ==> WellNamed(log[k], k)
  }

  predicate WellNamed(e: Entry, k: nat) {
    e.sequence == k && Segment(e.device) && e.event.name == EventName(e.device, EventId(k))
  }

  /** The last entries of the log, as many as the store holds. */
  function Held(log: seq<Entry>, capacity: nat): seq<Entry> {
    if |log| <= capacity then log else log[|log| - capacity..]
  }

  predicate Matches(e: Entry, device: string) {
    device == WILDCARD || e.device == device
  }

  /** The entries of one device below a bound, newest first: a filter over the reversed log. */
  function Newest(entries: seq<Entry>, device: string, upper: nat): seq<Entry> {
    if entries == [] then []
    else
      var last := entries[|entries| - 1];
      var rest := Newest(entries[..|entries| - 1], device, upper);
      if Matches(last, device) && last.sequence < upper then [last] + rest else rest
  }

  function Take(s: seq<Entry>, n: nat): seq<Entry> {
    if |s| <= n then s else s[..n]
  }

  /** A page, and the bound the next one continues from. */
  datatype Cut = Cut(entries: seq<Entry>, next: Option<nat>)

  function CutPage(held: seq<Entry>, device: string, upper: nat, size: nat): Cut
    requires size >= 1
  {
    var found := Take(Newest(held, device, upper), size + 1);
    if |found| > size then Cut(found[..size], Some(found[size - 1].sequence)) else Cut(found, None)
  }

  // ----- The filter -----

  predicate Ascending(s: seq<Entry>) {
    forall i, j :: 0 <= i < j < |s| ==> s[i].sequence < s[j].sequence
  }

  predicate Descending(s: seq<Entry>) {
    forall i, j :: 0 <= i < j < |s| ==> s[i].sequence > s[j].sequence
  }

  lemma {:induction false} NewestMembers(entries: seq<Entry>, device: string, upper: nat, e: Entry)
    ensures e in Newest(entries, device, upper) <==> e in entries && Matches(e, device) && e.sequence < upper
  {
    if entries != [] {
      var n := |entries| - 1;
      NewestMembers(entries[..n], device, upper, e);
      assert entries == entries[..n] + [entries[n]];
    }
  }

  lemma {:induction false} NewestDescends(entries: seq<Entry>, device: string, upper: nat)
    requires Ascending(entries)
    ensures Descending(Newest(entries, device, upper))
  {
    if entries != [] {
      var n := |entries| - 1;
      NewestDescends(entries[..n], device, upper);
      var rest := Newest(entries[..n], device, upper);
      forall i | 0 <= i < |rest|
        ensures rest[i].sequence < entries[n].sequence
      {
        NewestMembers(entries[..n], device, upper, rest[i]);
      }
    }
  }

  lemma HeldAscends(log: seq<Entry>, capacity: nat)
    requires WellNumbered(log)
    ensures Ascending(Held(log, capacity))
    ensures forall e :: e in Held(log, capacity) ==> e.sequence < |log| && log[e.sequence] == e
  {
    hide Segment, EventName, EventId;
    var held := Held(log, capacity);
    var first := |log| - |held|;
    assert forall i :: 0 <= i < |held| ==> held[i] == log[first + i] && WellNamed(log[first + i], first + i);
  }

  /** An entry is held exactly when it is among the last ones. */
  lemma HeldExactly(log: seq<Entry>, capacity: nat, k: nat)
    requires WellNumbered(log) && k < |log|
    ensures log[k] in Held(log, capacity) <==> k + capacity >= |log|
  {
    hide Segment, EventName, EventId;
    var held := Held(log, capacity);
    if k + capacity >= |log| {
      assert held[k - (|log| - |held|)] == log[k];
    }
    if log[k] in held {
      var i :| 0 <= i < |held| && held[i] == log[k];
      assert WellNamed(log[|log| - |held| + i], |log| - |held| + i) && WellNamed(log[k], k);
    }
  }

  // ----- One page -----

  /** What one page holds: matching entries below the bound, newest first, and everything matching down to the
      place where the next page begins. There is a next page exactly when an older matching entry is held. */
  lemma PageExact(log: seq<Entry>, capacity: nat, device: string, upper: nat, size: nat)
    requires WellNumbered(log) && size >= 1
    ensures var p := CutPage(Held(log, capacity), device, upper, size);
            && Descending(p.entries) && |p.entries| <= size
            && (forall e :: e in p.entries ==> Matches(e, device) && e.sequence < upper && e.sequence < |log| && log[e.sequence] == e)
            && (p.next.Some? ==> p.next.value < upper && p.next.value < |log| && |p.entries| == size
                                 && forall e :: e in p.entries ==> p.next.value <= e.sequence)
  {
    hide WellNumbered, Held, Matches;
    HeldAscends(log, capacity);
    var held := Held(log, capacity);
    NewestDescends(held, device, upper);
    var all := Newest(held, device, upper);
    forall e | e in all
      ensures Matches(e, device) && e.sequence < upper && e.sequence < |log| && log[e.sequence] == e
    {
      NewestMembers(held, device, upper, e);
    }
    if |all| > size {
      assert all[size - 1] in all;
    }
  }

  lemma PageComplete(log: seq<Entry>, capacity: nat, device: string, upper: nat, size: nat, e: Entry)
    requires WellNumbered(log) && size >= 1 && e in Held(log, capacity) && Matches(e, device) && e.sequence < upper
    ensures var p := CutPage(Held(log, capacity), device, upper, size);
            e in p.entries <==> (p.next.Some? ==> p.next.value <= e.sequence)
  {
    hide WellNumbered, Held, Matches;
    HeldAscends(log, capacity);
    var held := Held(log, capacity);
    NewestDescends(held, device, upper);
    NewestMembers(held, device, upper, e);
    var all := Newest(held, device, upper);
    var i :| 0 <= i < |all| && all[i] == e;
    if |all| > size {
      assert all[..size][size - 1] == all[size - 1];
      if i < size {
        assert all[..size][i] == e;
      } else {
        assert all[size - 1].sequence > e.sequence;
      }
    }
  }

  /** The listing continues exactly when a matching entry older than the page is held. */
  lemma TokenExactlyWhenMore(log: seq<Entry>, capacity: nat, device: string, upper: nat, size: nat)
    requires WellNumbered(log) && size >= 1
    ensures var p := CutPage(Held(log, capacity), device, upper, size);
            p.next.Some? <==> exists e :: e in Held(log, capacity) && Matches(e, device) && e.sequence < upper && e !in p.entries
  {
    hide WellNumbered, Held, Matches;
    var held := Held(log, capacity);
    var p := CutPage(held, device, upper, size);
    var all := Newest(held, device, upper);
    HeldAscends(log, capacity);
    NewestDescends(held, device, upper);
    if p.next.Some? {
      var e := all[size];
      NewestMembers(held, device, upper, e);
      assert e !in p.entries;
    } else if e :| e in held && Matches(e, device) && e.sequence < upper && e !in p.entries {
      NewestMembers(held, device, upper, e);
      assert false;
    }
  }

  // ----- A walk through the pages while events keep arriving -----

  /** One call of List: the log as it stands then, and the size asked for. */
  datatype Call = Call(log: seq<Entry>, size: nat)

  /** Between calls the log only grows. */
  predicate Growing(calls: seq<Call>) {
    && (forall i :: 0 <= i < |calls| ==> WellNumbered(calls[i].log) && calls[i].size >= 1)
    && (forall i, j :: 0 <= i < j < |calls| ==> calls[i].log <= calls[j].log)
  }

  lemma GrowingOn(calls: seq<Call>)
    requires Growing(calls) && calls != []
    ensures Growing(calls[1..]) && WellNumbered(calls[0].log) && calls[0].size >= 1
    ensures |calls| > 1 ==> calls[0].log <= calls[1].log
  {
    hide WellNumbered;
  }

  function Page(capacity: nat, device: string, upper: nat, call: Call): Cut
    requires call.size >= 1
  {
    CutPage(Held(call.log, capacity), device, upper, call.size)
  }

  /** What a client collects by following the tokens. */
  function Walk(capacity: nat, device: string, upper: nat, calls: seq<Call>): seq<Entry>
    requires Growing(calls)
    decreases |calls|
  {
    if calls == [] then []
    else
      GrowingOn(calls);
      var p := Page(capacity, device, upper, calls[0]);
      if p.next.None? then p.entries else p.entries + Walk(capacity, device, p.next.value, calls[1..])
  }

  /** Newest first throughout, so nothing repeats; and nothing newer than the first call. */
  lemma {:induction false} WalkDescends(capacity: nat, device: string, upper: nat, calls: seq<Call>)
    requires Growing(calls)
    ensures var w := Walk(capacity, device, upper, calls);
            && Descending(w)
            && forall e :: e in w ==>
                 calls != [] && Matches(e, device) && e.sequence < upper && e.sequence < |calls[0].log| && calls[0].log[e.sequence] == e
    decreases |calls|
  {
    hide WellNumbered, CutPage, Held, Matches, Growing;
    if calls != [] {
      GrowingOn(calls);
      PageExact(calls[0].log, capacity, device, upper, calls[0].size);
      var p := Page(capacity, device, upper, calls[0]);
      if p.next.Some? {
        WalkDescends(capacity, device, p.next.value, calls[1..]);
        var rest := Walk(capacity, device, p.next.value, calls[1..]);
        forall e | e in rest
          ensures e.sequence < p.next.value && Matches(e, device) && calls[0].log[e.sequence] == e
        {
          assert calls[1..][0] == calls[1];
          SameEarlier(calls[0].log, calls[1].log, e.sequence);
        }
        JoinDescends(p.entries, rest, p.next.value);
      }
    }
  }

  lemma SameEarlier(log: seq<Entry>, later: seq<Entry>, k: nat)
    requires log <= later && k < |log|
    ensures later[k] == log[k]
  {
  }

  lemma JoinDescends(a: seq<Entry>, b: seq<Entry>, bound: nat)
    requires Descending(a) && Descending(b)
    requires forall e :: e in a ==> bound <= e.sequence
    requires forall e :: e in b ==> e.sequence < bound
    ensures Descending(a + b)
  {
    var s := a + b;
    forall i, j | 0 <= i < j < |s|
      ensures s[i].sequence > s[j].sequence
    {
      if i < |a| <= j {
        assert s[i] in a && s[j] in b;
      }
    }
  }

  /** The entry was no longer held when the page it belongs on was cut, or that page was never asked for. */
  predicate GoneWhenCut(capacity: nat, device: string, upper: nat, calls: seq<Call>, k: nat)
    requires Growing(calls)
    decreases |calls|
  {
    if calls == [] then true
    else
      GrowingOn(calls);
      var p := Page(capacity, device, upper, calls[0]);
      if p.next.Some? && k < p.next.value then GoneWhenCut(capacity, device, p.next.value, calls[1..], k)
      else k + capacity < |calls[0].log|
  }

  /** Every matching event held at the first call is collected, unless it was evicted before its page was cut:
      appends during the walk neither hide an event nor show one twice. */
  lemma {:induction false} WalkComplete(capacity: nat, device: string, upper: nat, calls: seq<Call>, k: nat)
    requires Growing(calls) && calls != [] && k < |calls[0].log| && k < upper && Matches(calls[0].log[k], device)
    ensures calls[0].log[k] in Walk(capacity, device, upper, calls) <==> !GoneWhenCut(capacity, device, upper, calls, k)
    decreases |calls|
  {
    hide CutPage, Held, Matches, Growing, WellNumbered;
    GrowingOn(calls);
    var log, size := calls[0].log, calls[0].size;
    var e := log[k];
    NumberOf(log, k);
    var p := Page(capacity, device, upper, calls[0]);
    PageExact(log, capacity, device, upper, size);
    HeldExactly(log, capacity, k);
    if e in Held(log, capacity) {
      PageComplete(log, capacity, device, upper, size, e);
    } else {
      NotInPage(log, capacity, device, upper, size, e);
    }
    if p.next.Some? {
      if k < p.next.value {
        if |calls| > 1 {
          assert calls[1..][0] == calls[1];
          SameEarlier(log, calls[1].log, k);
          WalkComplete(capacity, device, p.next.value, calls[1..], k);
        }
      } else {
        WalkDescends(capacity, device, p.next.value, calls[1..]);
      }
    }
  }

  lemma NumberOf(log: seq<Entry>, k: nat)
    requires WellNumbered(log) && k < |log|
    ensures log[k].sequence == k
  {
    hide Segment, EventName, EventId;
    assert WellNamed(log[k], k);
  }

  lemma NotInPage(log: seq<Entry>, capacity: nat, device: string, upper: nat, size: nat, e: Entry)
    requires size >= 1 && e !in Held(log, capacity)
    ensures e !in CutPage(Held(log, capacity), device, upper, size).entries
  {
    NewestMembers(Held(log, capacity), device, upper, e);
  }

  /** The walk has come to a page without a token. */
  predicate Finished(capacity: nat, device: string, upper: nat, calls: seq<Call>)
    requires Growing(calls)
    decreases |calls|
  {
    calls != [] &&
    (GrowingOn(calls);
     var p := Page(capacity, device, upper, calls[0]);
     p.next.None? || Finished(capacity, device, p.next.value, calls[1..]))
  }

  function Bound(upper: nat, calls: seq<Call>): nat {
    if calls == [] || upper <= |calls[0].log| then upper else |calls[0].log|
  }

  /** However many events arrive meanwhile, the walk ends: there are no more pages than events at the start. */
  lemma {:induction false} WalkEnds(capacity: nat, device: string, upper: nat, calls: seq<Call>)
    requires Growing(calls) && |calls| > Bound(upper, calls)
    ensures Finished(capacity, device, upper, calls)
    decreases |calls|
  {
    hide WellNumbered, CutPage, Held, Matches, Growing;
    GrowingOn(calls);
    var p := Page(capacity, device, upper, calls[0]);
    PageExact(calls[0].log, capacity, device, upper, calls[0].size);
    if p.next.Some? {
      WalkEnds(capacity, device, p.next.value, calls[1..]);
    }
  }
}
