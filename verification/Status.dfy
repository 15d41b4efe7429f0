/** Turning contact reports into changes: internal/bus/status.go. */
module Status {
  import opened Messages

  /** One kind of contact: what is stored, and whether a whole report has been stored yet. */
  datatype Contacts = Contacts(known: bool, state: seq<bool>)

  type Known = map<StatusKind, Contacts>

  function ContactsOf(st: Known, kind: StatusKind): Contacts {
    if kind in st then st[kind] else Contacts(false, [])
  }

  /** Contacts never reported are inactive. */
  predicate Active(st: Known, kind: StatusKind, index: nat) {
    var state := ContactsOf(st, kind).state;
    index < |state| && state[index]
  }

  function Grow(state: seq<bool>, n: nat): (r: seq<bool>)
    ensures |r| == if n < |state| then |state| else n
    ensures state <= r && forall i :: |state| <= i < |r| ==> !r[i]
  {
    if n <= |state| then state else state + seq(n - |state|, _ => false)
  }

  predicate IsNews(st: Known, r: StatusChange) {
    !ContactsOf(st, r.kind).known || Active(st, r.kind, r.index) != r.active
  }

  function Store(st: Known, r: StatusChange): Known {
    var c := ContactsOf(st, r.kind);
    st[r.kind := c.(state := Grow(c.state, r.index + 1)[r.index := r.active])]
  }

  /** The state after a report, and the part of the report that is news, entry by entry. */
  function Fold(st: Known, reported: seq<StatusChange>): (Known, seq<StatusChange>) {
    if reported == [] then (st, [])
    else
      var n := |reported| - 1;
      var (before, changed) := Fold(st, reported[..n]);
      (Store(before, reported[n]), if IsNews(before, reported[n]) then changed + [reported[n]] else changed)
  }

  function MarkKnown(st: Known, reported: seq<StatusChange>): Known {
    if reported == [] then st
    else
      var before := MarkKnown(st, reported[..|reported| - 1]);
      var kind := reported[|reported| - 1].kind;
      before[kind := ContactsOf(before, kind).(known := true)]
  }

  /** One whole report: the kinds it covers are established only after all of it is applied. */
  function Report(st: Known, reported: seq<StatusChange>): (Known, seq<StatusChange>) {
    var (after, changed) := Fold(st, reported);
    (MarkKnown(after, reported), changed)
  }

  // ----- A consumer that only hears the changes -----

  /** The contacts a consumer believes active. */
  type Belief = set<(StatusKind, nat)>

  function Hear(b: Belief, r: StatusChange): Belief {
    if r.active then b + {(r.kind, r.index)} else b - {(r.kind, r.index)}
  }

  function HearAll(b: Belief, changes: seq<StatusChange>): Belief {
    if changes == [] then b else Hear(HearAll(b, changes[..|changes| - 1]), changes[|changes| - 1])
  }

  ghost predicate Agrees(b: Belief, st: Known) {
    forall kind, index: nat :: (kind, index) in b <==> Active(st, kind, index)
  }

  lemma StoreOne(st: Known, r: StatusChange, kind: StatusKind, index: nat)
    ensures Active(Store(st, r), kind, index) == if kind == r.kind && index == r.index then r.active else Active(st, kind, index)
    ensures ContactsOf(Store(st, r), kind).known == ContactsOf(st, kind).known
  {
  }

  /** Storing an entry moves the truth as hearing it moves the belief; an entry that is no news moves neither. */
  lemma EntryAgrees(b: Belief, st: Known, r: StatusChange)
    requires Agrees(b, st)
    ensures Agrees(if IsNews(st, r) then Hear(b, r) else b, Store(st, r))
  {
    hide Store, Active;
    forall kind, index: nat
      ensures (kind, index) in (if IsNews(st, r) then Hear(b, r) else b) <==> Active(Store(st, r), kind, index)
    {
      StoreOne(st, r, kind, index);
    }
  }

  lemma {:induction false} FoldAgrees(b: Belief, st: Known, reported: seq<StatusChange>)
    requires Agrees(b, st)
    ensures Agrees(HearAll(b, Fold(st, reported).1), Fold(st, reported).0)
    decreases |reported|
  {
    hide Agrees, Store, IsNews, Hear;
    if reported != [] {
      var n := |reported| - 1;
      FoldAgrees(b, st, reported[..n]);
      var (before, changed) := Fold(st, reported[..n]);
      assert (changed + [reported[n]])[..|changed|] == changed;
      EntryAgrees(HearAll(b, changed), before, reported[n]);
    }
  }

  lemma {:induction false} MarkKnownActive(st: Known, reported: seq<StatusChange>, kind: StatusKind, index: nat)
    ensures Active(MarkKnown(st, reported), kind, index) == Active(st, kind, index)
    ensures ContactsOf(MarkKnown(st, reported), kind).known <==>
            ContactsOf(st, kind).known || exists i :: 0 <= i < |reported| && reported[i].kind == kind
    decreases |reported|
  {
    if reported != [] {
      var n := |reported| - 1;
      MarkKnownActive(st, reported[..n], kind, index);
      assert forall i :: 0 <= i < n ==> reported[..n][i] == reported[i];
    }
  }

  function RunReports(st: Known, reports: seq<seq<StatusChange>>): (Known, seq<StatusChange>) {
    if reports == [] then (st, [])
    else
      var n := |reports| - 1;
      var (before, heard) := RunReports(st, reports[..n]);
      var (after, changed) := Report(before, reports[n]);
      (after, heard + changed)
  }

  lemma {:induction false} HearAllAppend(b: Belief, first: seq<StatusChange>, second: seq<StatusChange>)
    ensures HearAll(b, first + second) == HearAll(HearAll(b, first), second)
    decreases |second|
  {
    if second == [] {
      assert first + second == first;
    } else {
      var n := |second| - 1;
      assert (first + second)[..|first| + n] == first + second[..n];
      HearAllAppend(b, first, second[..n]);
    }
  }

  lemma ReportAgrees(b: Belief, st: Known, reported: seq<StatusChange>)
    requires Agrees(b, st)
    ensures Agrees(HearAll(b, Report(st, reported).1), Report(st, reported).0)
  {
    FoldAgrees(b, st, reported);
    var after := Fold(st, reported).0;
    forall kind, index: nat
      ensures Active(MarkKnown(after, reported), kind, index) == Active(after, kind, index)
    {
      MarkKnownActive(after, reported, kind, index);
    }
  }

  /** A consumer that starts with every contact inactive and applies the changes it is sent, in order,
      always believes exactly what the bus stores, over any run of reports of any widths. */
  lemma {:induction false} ReplayHoldsTheTruth(reports: seq<seq<StatusChange>>)
    ensures Agrees(HearAll({}, RunReports(map[], reports).1), RunReports(map[], reports).0)
    decreases |reports|
  {
    if reports != [] {
      var n := |reports| - 1;
      ReplayHoldsTheTruth(reports[..n]);
      var (before, heard) := RunReports(map[], reports[..n]);
      var changed := Report(before, reports[n]).1;
      ReportAgrees(HearAll({}, heard), before, reports[n]);
      HearAllAppend({}, heard, changed);
    }
  }

  // ----- What counts as a change -----

  function OfKind(changes: seq<StatusChange>, kind: StatusKind): seq<StatusChange> {
    if changes == [] then []
    else
      var n := |changes| - 1;
      OfKind(changes[..n], kind) + if changes[n].kind == kind then [changes[n]] else []
  }

  lemma {:induction false} KnownKept(st: Known, reported: seq<StatusChange>, kind: StatusKind)
    ensures ContactsOf(Fold(st, reported).0, kind).known == ContactsOf(st, kind).known
    decreases |reported|
  {
    if reported != [] {
      KnownKept(st, reported[..|reported| - 1], kind);
    }
  }

  /** The first report of a kind is returned whole, in the order it came. */
  lemma {:induction false} FirstReportIsWhole(st: Known, reported: seq<StatusChange>, kind: StatusKind)
    requires !ContactsOf(st, kind).known
    ensures OfKind(Report(st, reported).1, kind) == OfKind(reported, kind)
    decreases |reported|
  {
    if reported != [] {
      var n := |reported| - 1;
      FirstReportIsWhole(st, reported[..n], kind);
      KnownKept(st, reported[..n], kind);
      var changed := Fold(st, reported[..n]).1;
      assert (changed + [reported[n]])[..|changed|] == changed;
    }
  }

  /** Once a kind is established, an entry is returned exactly when it flips the contact it names. */
  lemma LaterChangesFlip(st: Known, reported: seq<StatusChange>, i: nat)
    requires i < |reported| && ContactsOf(st, reported[i].kind).known
    ensures var r := reported[i];
            var before, after := Fold(st, reported[..i]), Fold(st, reported[..i + 1]);
            && after.1 == (if Active(before.0, r.kind, r.index) != r.active then before.1 + [r] else before.1)
            && Active(after.0, r.kind, r.index) == r.active
  {
    KnownKept(st, reported[..i], reported[i].kind);
    assert reported[..i + 1][..i] == reported[..i];
  }

  // ----- The device's own loops -----

  class StatusBoard {
    var status: Known

    constructor ()
      ensures status == map[]
    {
      status := map[];
    }

    /** One entry of a report: grows the kind's contacts as far as the entry needs and overwrites one. */
    method Apply(r: StatusChange) returns (news: bool)
      modifies this
      ensures status == Store(old(status), r) && news == IsNews(old(status), r)
    {
      ghost var c0 := ContactsOf(status, r.kind);
      if r.kind !in status {
        status := status[r.kind := Contacts(false, [])];
      }
      var c := status[r.kind];
      while |c.state| <= r.index
        invariant c.known == c0.known && c.state == Grow(c0.state, |c.state|)
        invariant |c.state| <= r.index + 1 || c.state == c0.state
      {
        c := c.(state := c.state + [false]);
      }
      news := !c.known || c.state[r.index] != r.active;
      status := status[r.kind := c.(state := c.state[r.index := r.active])];
      assert c.state == Grow(c0.state, r.index + 1);
      assert status == Store(old(status), r);
    }

    method StatusChanges(reported: seq<StatusChange>) returns (changed: seq<StatusChange>)
      modifies this
      ensures (status, changed) == Report(old(status), reported)
    {
      hide IsNews;
      changed := [];
      for i := 0 to |reported|
        invariant (status, changed) == Fold(old(status), reported[..i])
        invariant forall j :: 0 <= j < i ==> reported[j].kind in status
      {
        assert reported[..i + 1][..i] == reported[..i];
        var news := Apply(reported[i]);
        if news {
          changed := changed + [reported[i]];
        }
      }
      assert reported[..|reported|] == reported;
      MarkAll(reported);
    }

    method MarkAll(reported: seq<StatusChange>)
      requires forall j :: 0 <= j < |reported| ==> reported[j].kind in status
      modifies this
      ensures status == MarkKnown(old(status), reported)
    {
      for i := 0 to |reported|
        invariant status == MarkKnown(old(status), reported[..i])
        invariant forall j :: 0 <= j < |reported| ==> reported[j].kind in status
      {
        assert reported[..i + 1][..i] == reported[..i];
        var c := status[reported[i].kind];
        status := status[reported[i].kind := c.(known := true)];
      }
      assert reported[..|reported|] == reported;
    }

    /** What is stored of a kind that is known. */
    method Lookup(kind: StatusKind) returns (state: seq<bool>, known: bool)
      ensures known == ContactsOf(status, kind).known
      ensures known ==> state == ContactsOf(status, kind).state
      ensures !known ==> state == []
    {
      if kind !in status || !status[kind].known {
        return [], false;
      }
      return status[kind].state, true;
    }
  }
}
