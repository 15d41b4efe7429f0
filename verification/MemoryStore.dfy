/** The bounded in-memory event store: protobuf/service/memory.go, memory_write.go and memory_read.go. */
module MemoryStores {
  import opened Octets
  import opened Names
  import opened EventLog

  const DEFAULT_PAGE_SIZE: nat := 50
  const MAX_PAGE_SIZE: nat := 1000

  datatype StoreError = Cancelled | BadName(error: NameError) | NoEvent | NotFound

  datatype Query = Query(parent: string, pageSize: int, token: Token)

  datatype EventPage = EventPage(events: seq<Event>, next: Token)

  /** Truncating division's remainder, which `%` is not for a negative dividend. */
  function GoRemainder(a: int, b: int): int
    requires b > 0
  {
    if a >= 0 then a % b else -((-a) % b)
  }

  /** The ring index of logical position i, as at computes it. */
  function RingIndex(next: int, count: int, n: int, i: int): int
    requires n > 0
  {
    GoRemainder(GoRemainder(next - count + i, n) + n, n)
  }

  lemma SmallMod(x: nat, n: nat)
    requires x < n
    ensures x % n == x
  {
  }

  lemma SmallRemainder(x: int, n: int)
    requires -n < x < n
    ensures GoRemainder(x, n) == x
  {
    if x >= 0 {
      SmallMod(x, n);
    } else {
      SmallMod(-x, n);
    }
  }

  lemma WholeRemainder(n: int)
    requires n > 0
    ensures GoRemainder(n, n) == 0 && GoRemainder(-n, n) == 0
  {
  }

  lemma OverRemainder(x: int, n: int)
    requires 0 <= x < n
    ensures GoRemainder(x + n, n) == x
  {
    var q := (x + n) / n;
    assert x + n == q * n + (x + n) % n;
    assert q < 2 && q > 0;
  }

  /** The remainder taken twice steps back from the next slot to be written, wrapping once at most. */
  lemma RingIndexWraps(next: int, count: int, n: int, i: int)
    requires 0 <= next < n && 0 <= count <= n && 0 <= i < count
    ensures RingIndex(next, count, n, i) == if next - count + i < 0 then next - count + i + n else next - count + i
  {
    hide GoRemainder;
    var x := next - count + i;
    if x == -n {
      WholeRemainder(n);
    } else {
      SmallRemainder(x, n);
      if x < 0 {
        SmallRemainder(x + n, n);
      } else {
        OverRemainder(x, n);
      }
    }
  }

  function PageSizeFor(asked: int): (size: nat)
    ensures 1 <= size <= MAX_PAGE_SIZE
  {
    if asked <= 0 then DEFAULT_PAGE_SIZE else if asked > MAX_PAGE_SIZE then MAX_PAGE_SIZE else asked
  }

  /** The index of names: exactly the held entries, each under its own name. */
  ghost predicate Indexes(byName: map<string, Entry>, held: seq<Entry>) {
    && (forall i :: 0 <= i < |held| ==> held[i].event.name in byName && byName[held[i].event.name] == held[i])
    && (forall name :: name in byName ==> byName[name] in held && byName[name].event.name == name)
  }

  /** Where logical position i lies in a ring of n slots. */
  function Slot(next: int, count: int, n: int, i: int): int {
    if next - count + i < 0 then next - count + i + n else next - count + i
  }

  /** The ring, read through its logical positions, holds these entries in order. */
  ghost predicate RingHolds(ring: seq<Option<Entry>>, next: nat, count: nat, held: seq<Entry>) {
    && next < |ring| && count == |held| <= |ring|
    && (count < |ring| ==> next == count)
    && (forall i :: 0 <= i < count ==> ring[Slot(next, count, |ring|, i)] == Some(held[i]))
  }

  /** Writing the next slot appends an entry, over the oldest one when the ring is full. */
  lemma RingAppends(ring: seq<Option<Entry>>, next: nat, count: nat, held: seq<Entry>, e: Entry)
    requires RingHolds(ring, next, count, held)
    ensures var n := |ring|;
            RingHolds(ring[next := Some(e)], (next + 1) % n, if count == n then count else count + 1,
                      (if count == n then held[1..] else held) + [e])
  {
    var n := |ring|;
    var next' := if next + 1 == n then 0 else next + 1;
    assert (next + 1) % n == next' by { NextSlot(next, n); }
    var held' := (if count == n then held[1..] else held) + [e];
    var drop := if count == n then 1 else 0;
    forall i | 0 <= i < |held'|
      ensures ring[next := Some(e)][Slot(next', |held'|, n, i)] == Some(held'[i])
    {
      if i < |held'| - 1 {
        assert ring[Slot(next, count, n, i + drop)] == Some(held[i + drop]);
      }
    }
  }

  lemma NextSlot(next: nat, n: nat)
    requires next < n
    ensures (next + 1) % n == if next + 1 == n then 0 else next + 1
  {
    if next + 1 < n {
      SmallMod(next + 1, n);
    }
  }

  class MemoryStore {
    var ring: array<Option<Entry>>
    var next: nat
    var count: nat
    var sequence: nat
    var byName: map<string, Entry>
    /** Everything ever appended, evicted or not. */
    ghost var log: seq<Entry>

    /** The store is its log: the ring and the index of names both hold exactly the last entries of it. */
    ghost predicate Valid()
      reads this, ring
    {
      && ring.Length > 0 && |log| == sequence <= MAX_UINT64 && WellNumbered(log)
      && RingHolds(ring[..], next, count, Contents())
      && Indexes(byName, Contents())
    }

    ghost function Contents(): seq<Entry>
      reads this, ring
    {
      Held(log, ring.Length)
    }

    constructor (capacity: nat)
      requires capacity > 0
      ensures Valid() && fresh(ring) && ring.Length == capacity && log == []
    {
      ring := new Option<Entry>[capacity](_ => None);
      next := 0;
      count := 0;
      sequence := 0;
      byName := map[];
      log := [];
    }

    /** Reads Contents()[i] out of the ring. */
    method At(i: nat) returns (e: Entry)
      requires Valid() && i < count
      ensures count == |Contents()| && e == Contents()[i]
    {
      hide WellNumbered, Indexes, Held;
      RingIndexWraps(next, count, ring.Length, i);
      var k := RingIndex(next, count, ring.Length, i);
      assert ring[..][Slot(next, count, ring.Length, i)] == Some(Contents()[i]);
      e := ring[k].value;
    }

    /** Stores a copy of the event under its device and a name of its own, evicting the oldest entry when the
        ring is full. An append that is refused changes nothing. */
    method Append(cancelled: bool, parent: string, event: Option<Event>, now: int) returns (r: Result<Event, StoreError>)
      requires Valid() && sequence < MAX_UINT64
      modifies this, ring
      ensures Valid() && ring == old(ring)
      ensures r.Ok? <==> !cancelled && ParseParent(parent).Ok? && ParseParent(parent).value != WILDCARD && event.Some?
      ensures r.Err? ==> log == old(log)
      ensures r.Ok? ==>
                && log == old(log) + [Entry(old(sequence), ParseParent(parent).value, r.value)]
                && r.value.name == EventName(ParseParent(parent).value, EventId(old(sequence)))
                && r.value.body == event.value.body && r.value.createTime == now
                && r.value.eventTime == (if event.value.eventTime.Some? then event.value.eventTime else Some(now))
    {
      if cancelled { return Err(Cancelled); }
      var parsed := ParseParent(parent);
      if parsed.Err? { return Err(BadName(parsed.error)); }
      var device := parsed.value;
      if device == WILDCARD { return Err(BadName(InvalidParent)); }
      if event.None? { return Err(NoEvent); }
      var stored := event.value.(createTime := now);
      if stored.eventTime.None? { stored := stored.(eventTime := Some(now)); }
      stored := stored.(name := EventName(device, EventId(sequence)));
      ParentExact(parent, device);
      Store(Entry(sequence, device, stored));
      return Ok(stored);
    }

    /** Writes an entry over the oldest slot. */
    method Store(e: Entry)
      requires Valid() && sequence < MAX_UINT64 && WellNamed(e, sequence)
      modifies this, ring
      ensures Valid() && ring == old(ring) && log == old(log) + [e]
    {
      hide WellNamed, WellNumbered, Indexes, Held, RingHolds;
      ghost var before := Contents();
      ghost var slots := ring[..];
      HeldGrows(log, e, ring.Length);
      StillNumbered(log, e);
      RingAppends(slots, next, count, before, e);
      RingCounts(slots, next, count, before);
      NamesDistinct(log, e, ring.Length);
      if count == ring.Length {
        IndexDrops(byName, before);
        OldestSlot(slots, next, count, before);
        byName := byName - {ring[next].value.event.name};
        IndexAppends(byName, before[1..], e);
      } else {
        IndexAppends(byName, before, e);
        count := count + 1;
      }
      ring[next] := Some(e);
      assert ring[..] == slots[next := Some(e)];
      next := (next + 1) % ring.Length;
      byName := byName[e.event.name := e];
      sequence := sequence + 1;
      log := log + [e];
    }

    /** An event is found exactly when its name is well formed and belongs to a held entry; an evicted event is
        as unknown as one that never was. */
    method Get(cancelled: bool, name: string) returns (r: Result<Event, StoreError>)
      requires Valid()
      ensures r.Ok? <==> !cancelled && ParseEventName(name).Ok? && exists e :: e in Contents() && e.event.name == name
      ensures r.Ok? ==> exists e :: e in Contents() && e.event.name == name && e.event == r.value
      ensures r == Err(NotFound) <==> !cancelled && ParseEventName(name).Ok? && forall e :: e in Contents() ==> e.event.name != name
    {
      hide WellNumbered, Held, RingHolds, ParseEventName;
      if cancelled { return Err(Cancelled); }
      var parsed := ParseEventName(name);
      if parsed.Err? { return Err(BadName(parsed.error)); }
      if name !in byName { return Err(NotFound); }
      return Ok(byName[name].event);
    }

    /** The first logical position at or above a bound: the binary search of sort.Search. */
    method Search(upper: nat) returns (k: nat)
      requires Valid()
      ensures k <= count == |Contents()|
      ensures forall i :: 0 <= i < k ==> Contents()[i].sequence < upper
      ensures forall i :: k <= i < count ==> Contents()[i].sequence >= upper
    {
      hide WellNumbered, Held, Indexes;
      HeldAscends(log, ring.Length);
      k := 0;
      var j := count;
      while k < j
        invariant k <= j <= count == |Contents()|
        invariant forall i :: 0 <= i < k ==> Contents()[i].sequence < upper
        invariant forall i :: j <= i < count ==> Contents()[i].sequence >= upper
      {
        var h := (k + j) / 2;
        var e := At(h);
        if e.sequence >= upper {
          j := h;
        } else {
          k := h + 1;
        }
      }
    }

    /** Up to want entries of a device below a bound, newest first: the search and the walk back from it find
        what filtering the reversed log would. */
    method Page(device: string, upper: nat, want: nat) returns (out: seq<Entry>)
      requires Valid()
      ensures out == Take(Newest(Contents(), device, upper), want)
    {
      hide WellNumbered, Held, Indexes, RingHolds, Matches;
      var k := Search(upper);
      ghost var held := Contents();
      NewestBelow(held, device, upper, k);
      out := [];
      var i := k - 1;
      while i >= 0 && |out| < want
        invariant -1 <= i < k <= count == |held| && held == Contents()
        invariant out + Newest(held[..i + 1], device, upper) == Newest(held, device, upper)
        invariant |out| <= want
        decreases i
      {
        var e := At(i);
        assert held[..i + 1][..i] == held[..i];
        if Matches(e, device) {
          out := out + [e];
        }
        i := i - 1;
      }
      assert i < 0 ==> Newest(held[..i + 1], device, upper) == [];
    }

    /** One page of a listing and the token that continues it. The page and the token are those cut from the
        log; a token is honoured only under the parent it was issued for. */
    method List(cancelled: bool, q: Query) returns (r: Result<EventPage, StoreError>)
      requires Valid()
      ensures r.Ok? <==> !cancelled && ParseParent(q.parent).Ok? && (q.token.NoToken? || DecodeCursor(q.token, q.parent).Ok?)
      ensures r.Ok? ==>
                var upper := if q.token.NoToken? then MAX_UINT64 else DecodeCursor(q.token, q.parent).value;
                var cut := CutPage(Contents(), ParseParent(q.parent).value, upper, PageSizeFor(q.pageSize));
                && |r.value.events| == |cut.entries|
                && (forall i :: 0 <= i < |cut.entries| ==> r.value.events[i] == cut.entries[i].event)
                && r.value.next == if cut.next.None? then NoToken else EncodeCursor(q.parent, cut.next.value)
    {
      hide WellNumbered, Held, Indexes, RingHolds, Newest, ParseParent, DecodeCursor, EncodeCursor;
      if cancelled { return Err(Cancelled); }
      var parsed := ParseParent(q.parent);
      if parsed.Err? { return Err(BadName(parsed.error)); }
      var size := PageSizeFor(q.pageSize);
      var upper := MAX_UINT64;
      if !q.token.NoToken? {
        var decoded := DecodeCursor(q.token, q.parent);
        if decoded.Err? { return Err(BadName(decoded.error)); }
        upper := decoded.value;
      }
      var found := Page(parsed.value, upper, size + 1);
      var token := NoToken;
      if |found| > size {
        token := EncodeCursor(q.parent, found[size - 1].sequence);
        found := found[..size];
      }
      var events := [];
      var i := 0;
      while i < |found|
        invariant i <= |found| && |events| == i
        invariant forall j :: 0 <= j < i ==> events[j] == found[j].event
      {
        events := events + [found[i].event];
        i := i + 1;
      }
      return Ok(EventPage(events, token));
    }
  }

  /** A store needs room for at least one event. */
  method NewMemoryStore(capacity: int) returns (s: Option<MemoryStore>)
    ensures s.None? <==> capacity <= 0
    ensures s.Some? ==> fresh(s.value) && s.value.Valid() && s.value.ring.Length == capacity && s.value.log == []
  {
    if capacity <= 0 { return None; }
    var store := new MemoryStore(capacity);
    return Some(store);
  }

  /** Entries at or above the bound are no part of the listing. */
  lemma {:induction false} NewestBelow(held: seq<Entry>, device: string, upper: nat, k: nat)
    requires k <= |held| && forall i :: k <= i < |held| ==> held[i].sequence >= upper
    ensures Newest(held, device, upper) == Newest(held[..k], device, upper)
    decreases |held|
  {
    if k < |held| {
      var n := |held| - 1;
      NewestBelow(held[..n], device, upper, k);
      assert held[..n][..k] == held[..k];
    } else {
      assert held[..k] == held;
    }
  }

  lemma RingCounts(ring: seq<Option<Entry>>, next: nat, count: nat, held: seq<Entry>)
    requires RingHolds(ring, next, count, held)
    ensures next < |ring| && count == |held| <= |ring|
  {
  }

  /** When the ring is full, the slot about to be written holds the oldest entry. */
  lemma OldestSlot(ring: seq<Option<Entry>>, next: nat, count: nat, held: seq<Entry>)
    requires RingHolds(ring, next, count, held) && count == |ring|
    ensures held != [] && ring[next] == Some(held[0])
  {
    assert ring[Slot(next, count, |ring|, 0)] == Some(held[0]);
  }

  lemma StillNumbered(log: seq<Entry>, e: Entry)
    requires WellNumbered(log) && WellNamed(e, |log|)
    ensures WellNumbered(log + [e])
  {
    hide WellNamed;
  }

  /** Appending drops the oldest held entry once the store is full. */
  lemma HeldGrows(log: seq<Entry>, e: Entry, capacity: nat)
    requires capacity > 0
    ensures var before, after := Held(log, capacity), Held(log + [e], capacity);
            after == (if |before| == capacity then before[1..] else before) + [e]
  {
  }

  /** Names are never reused. */
  lemma NamesDiffer(log: seq<Entry>, i: nat, j: nat)
    requires WellNumbered(log) && i < j < |log| && |log| <= MAX_UINT64 + 1
    ensures log[i].event.name != log[j].event.name
  {
    hide EventName, Segment, EventId;
    assert WellNamed(log[i], i) && WellNamed(log[j], j);
    SameNameSameNumber(log[i].device, log[j].device, i, j);
  }

  lemma SameNameSameNumber(a: string, b: string, i: nat, j: nat)
    requires Segment(a) && Segment(b) && i <= MAX_UINT64 && j <= MAX_UINT64
    ensures EventName(a, EventId(i)) == EventName(b, EventId(j)) ==> i == j
  {
    hide Hex, Power16;
    HexSegment(i, EVENT_ID_DIGITS);
    HexSegment(j, EVENT_ID_DIGITS);
    if EventName(a, EventId(i)) == EventName(b, EventId(j)) {
      SplitEventName(a, EventId(i));
      SplitEventName(b, EventId(j));
      Uint64Digits();
      assert [DEVICES, a, EVENTS, EventId(i)][3] == [DEVICES, b, EVENTS, EventId(j)][3];
      HexInjective(i, j, EVENT_ID_DIGITS);
    }
  }

  predicate DistinctNames(entries: seq<Entry>) {
    forall i, j :: 0 <= i < j < |entries| ==> entries[i].event.name != entries[j].event.name
  }

  lemma HeldDistinct(log: seq<Entry>, capacity: nat)
    requires WellNumbered(log) && |log| <= MAX_UINT64 + 1
    ensures DistinctNames(Held(log, capacity))
  {
    hide WellNumbered;
    var held := Held(log, capacity);
    forall i, j | 0 <= i < j < |held|
      ensures held[i].event.name != held[j].event.name
    {
      NamesDiffer(log, |log| - |held| + i, |log| - |held| + j);
    }
  }

  /** Names stay distinct while an entry is being replaced. */
  lemma NamesDistinct(log: seq<Entry>, e: Entry, capacity: nat)
    requires WellNumbered(log + [e]) && |log| <= MAX_UINT64 && capacity > 0
    ensures var before := Held(log, capacity);
            DistinctNames(before) && DistinctNames(before + [e]) && (before != [] ==> DistinctNames(before[1..] + [e]))
  {
    hide WellNumbered;
    var before := Held(log, capacity);
    HeldDistinct(log + [e], |before| + 1);
    assert Held(log + [e], |before| + 1) == before + [e];
    assert forall i :: 0 <= i < |before| ==> before[i] == (before + [e])[i];
    if before != [] {
      assert before[1..] + [e] == (before + [e])[1..];
    }
  }

  lemma IndexAppends(names: map<string, Entry>, held: seq<Entry>, e: Entry)
    requires Indexes(names, held) && DistinctNames(held + [e])
    ensures Indexes(names[e.event.name := e], held + [e])
  {
    var all := held + [e];
    forall i | 0 <= i < |all|
      ensures all[i].event.name in names[e.event.name := e] && names[e.event.name := e][all[i].event.name] == all[i]
    {
      if i < |held| {
        assert all[|held|] == e && all[i] == held[i];
      }
    }
  }

  lemma IndexDrops(names: map<string, Entry>, held: seq<Entry>)
    requires held != [] && Indexes(names, held) && DistinctNames(held)
    ensures Indexes(names - {held[0].event.name}, held[1..])
  {
    var names' := names - {held[0].event.name};
    forall name | name in names'
      ensures names'[name] in held[1..] && names'[name].event.name == name
    {
      var k :| 0 <= k < |held| && held[k] == names[name];
      assert held[1..][k - 1] == held[k];
    }
  }
}
