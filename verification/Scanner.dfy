/** Finding frames in a stream of octets: internal/pd/scan.go and internal/panel/reader.go.

    Both types keep one fixed buffer, shift it in place and resynchronise past noise. The reference is a
    parser over the whole stream that knows nothing of buffers or of how reads split the octets. */
module StreamParser {
  import opened Octets
  import opened Frames

  const MAX_BUFFER: nat := 1536

  /** A frame found in the stream: the range of octets it occupies, and its fields but for the payload. */
  datatype Sighting = Sighting(start: nat, end: nat, isReply: bool, address: Octet, control: Octet, code: Octet,
                               check: bv16, good: bool)

  datatype Move = Wait | Skip(to: nat) | Emit(sighting: Sighting)

  function Min(a: nat, b: nat): nat {
    if a < b then a else b
  }

  /** As much of the stream from p on as a buffer can hold. */
  function Window(stream: seq<Octet>, p: nat): (w: seq<Octet>)
    requires p <= |stream|
    ensures |w| <= MAX_BUFFER && p + |w| <= |stream|
  {
    stream[p..Min(p + MAX_BUFFER, |stream|)]
  }

  predicate IsStart(b: Octet) {
    b == SOM || b == MARK
  }

  function Sight(p: nat, v: Verdict): Sighting
    requires v.IsFrame()
  {
    var f := v.frame;
    Sighting(p, p + WireLen(f), f.isReply, f.address, f.control, f.code, f.check, v.Decoded?)
  }

  /** What a receiver standing at position p of the stream does next. A length field that asks for more
      than the buffer costs the whole buffer; any other malformed start costs one octet. */
  function Look(stream: seq<Octet>, p: nat): (m: Move)
    requires p <= |stream|
    ensures m.Skip? ==> p < m.to <= |stream|
    ensures m.Emit? ==> m.sighting.start == p && p < m.sighting.end <= |stream|
  {
    hide Decode;
    var w := Window(stream, p);
    if w == [] then Wait
    else if Decode(w) == Failed(ShortBuffer) then
      if |w| == MAX_BUFFER then Skip(p + MAX_BUFFER) else Wait
    else if Decode(w).Failed? then Skip(p + 1)
    else
      DecodeThenEncode(w);
      Emit(Sight(p, Decode(w)))
  }

  /** Every frame from p on, and the position the parser comes to rest at. */
  function Scan(stream: seq<Octet>, p: nat): (seq<Sighting>, nat)
    requires p <= |stream|
    decreases |stream| - p
  {
    match Look(stream, p)
    case Wait => ([], p)
    case Skip(to) => Scan(stream, to)
    case Emit(s) =>
      var rest := Scan(stream, s.end);
      ([s] + rest.0, rest.1)
  }

  /** The parser gets from p to q, passing exactly these frames. */
  predicate Reaches(stream: seq<Octet>, p: nat, passed: seq<Sighting>, q: nat)
    requires p <= |stream|
    decreases |stream| - p
  {
    if p == q && passed == [] then true
    else
      match Look(stream, p)
      case Wait => false
      case Skip(to) => Reaches(stream, to, passed, q)
      case Emit(s) => passed != [] && passed[0] == s && Reaches(stream, s.end, passed[1..], q)
  }

  lemma {:induction false} ReachesBound(stream: seq<Octet>, p: nat, passed: seq<Sighting>, q: nat)
    requires p <= |stream| && Reaches(stream, p, passed, q)
    ensures p <= q <= |stream|
    decreases |stream| - p
  {
    hide Look;
    if !(p == q && passed == []) {
      match Look(stream, p)
      case Skip(to) => ReachesBound(stream, to, passed, q);
      case Emit(s) => ReachesBound(stream, s.end, passed[1..], q);
    }
  }

  /** Octets that arrive later do not change a move already made. */
  lemma LookStable(stream: seq<Octet>, p: nat, more: seq<Octet>)
    requires p <= |stream| && !Look(stream, p).Wait?
    ensures Look(stream + more, p) == Look(stream, p)
  {
    hide Decode;
    var w, w' := Window(stream, p), Window(stream + more, p);
    assert w == w'[..|w|];
    assert w' == w + w'[|w|..];
    if Decode(w) == Failed(ShortBuffer) {
      assert w == w';
    } else {
      DecodeStable(w, w'[|w|..]);
    }
  }

  lemma {:induction false} ReachesStable(stream: seq<Octet>, p: nat, passed: seq<Sighting>, q: nat, more: seq<Octet>)
    requires p <= |stream| && Reaches(stream, p, passed, q)
    ensures Reaches(stream + more, p, passed, q)
    decreases |stream| - p
  {
    hide Look;
    if !(p == q && passed == []) {
      LookStable(stream, p, more);
      match Look(stream, p)
      case Skip(to) => ReachesStable(stream, to, passed, q, more);
      case Emit(s) => ReachesStable(stream, s.end, passed[1..], q, more);
    }
  }

  lemma {:induction false} ReachesThen(stream: seq<Octet>, p: nat, first: seq<Sighting>, q: nat, second: seq<Sighting>, r: nat)
    requires p <= |stream| && Reaches(stream, p, first, q)
    requires q <= |stream| && Reaches(stream, q, second, r)
    ensures Reaches(stream, p, first + second, r)
    decreases |stream| - p
  {
    hide Look;
    if p == q && first == [] {
      assert first + second == second;
    } else {
      match Look(stream, p)
      case Skip(to) =>
        ReachesThen(stream, to, first, q, second, r);
        ReachesBound(stream, to, first, q);
        ReachesBound(stream, q, second, r);
      case Emit(s) =>
        ReachesThen(stream, s.end, first[1..], q, second, r);
        assert (first + second)[1..] == first[1..] + second;
    }
  }

  /** Octets that cannot start a frame are passed over one by one. */
  lemma {:induction false} SkipNoise(stream: seq<Octet>, p: nat, q: nat)
    requires p <= q <= |stream|
    requires forall i :: p <= i < q ==> !IsStart(stream[i])
    ensures Reaches(stream, p, [], q)
    decreases q - p
  {
    if p < q {
      NoStart(stream, p);
      SkipNoise(stream, p + 1, q);
    }
  }

  lemma NoStart(stream: seq<Octet>, p: nat)
    requires p < |stream| && !IsStart(stream[p])
    ensures Look(stream, p) == Skip(p + 1)
  {
    assert Window(stream, p)[0] == stream[p];
  }

  /** Where the parser rests is a matter of the stream alone. */
  lemma {:induction false} ScanFrom(stream: seq<Octet>, p: nat, passed: seq<Sighting>, q: nat)
    requires p <= |stream| && Reaches(stream, p, passed, q)
    ensures q <= |stream|
    ensures Scan(stream, p) == (passed + Scan(stream, q).0, Scan(stream, q).1)
    decreases |stream| - p
  {
    hide Look;
    if p == q && passed == [] {
      assert [] + Scan(stream, q).0 == Scan(stream, q).0;
    } else {
      match Look(stream, p)
      case Skip(to) => ScanFrom(stream, to, passed, q);
      case Emit(s) =>
        ScanFrom(stream, s.end, passed[1..], q);
        assert [s] + (passed[1..] + Scan(stream, q).0) == passed + Scan(stream, q).0;
    }
  }
}

/** The buffer itself, and the two ways it is driven. */
module LineBuffers {
  import opened Octets
  import opened Frames
  import opened StreamParser

  /** One thing a port hands over: some octets, none at all (the deadline passed), or a failure. */
  datatype Delivery = Chunk(octets: seq<Octet>) | Fault

  datatype ReadResult = Got(count: nat) | Broken

  function Concat(script: seq<Delivery>): seq<Octet> {
    if script == [] then []
    else (if script[0].Chunk? then script[0].octets else []) + Concat(script[1..])
  }

  /** Bounds the number of reads a script can answer. */
  function Weight(script: seq<Delivery>): nat {
    if script == [] then 0
    else (if script[0].Chunk? then |script[0].octets| else 0) + 1 + Weight(script[1..])
  }

  /** What a read with room for that many octets takes from a chunk, and what it leaves. */
  function TakeChunk(chunk: seq<Octet>, rest: seq<Delivery>, room: nat): (r: (seq<Octet>, seq<Delivery>))
    requires room > 0
    ensures |r.0| <= room
    ensures r.0 + Concat(r.1) == chunk + Concat(rest)
    ensures Weight(r.1) < |chunk| + 1 + Weight(rest)
  {
    if |chunk| <= room then (chunk, rest)
    else
      var left := [Chunk(chunk[room..])] + rest;
      assert left[1..] == rest;
      assert chunk[..room] + (chunk[room..] + Concat(rest)) == chunk + Concat(rest);
      (chunk[..room], left)
  }

  /** A port that splits its octets over reads in any way at all; an exhausted script is a silent line. */
  class Port {
    var script: seq<Delivery>
    ghost var delivered: seq<Octet>

    constructor (script: seq<Delivery>)
      ensures this.script == script && delivered == []
    {
      this.script := script;
      delivered := [];
    }

    /** A caller must offer room for at least one octet. */
    method Read(dst: array<Octet>, from: nat) returns (r: ReadResult)
      requires from < dst.Length
      modifies this, dst
      ensures dst[..from] == old(dst[..from])
      ensures r.Got? ==> from + r.count <= dst.Length && delivered == old(delivered) + dst[from..from + r.count]
      ensures r.Broken? ==> delivered == old(delivered)
      ensures delivered + Concat(script) == old(delivered + Concat(script))
      ensures r.Got? && r.count > 0 ==> Weight(script) < old(Weight(script))
    {
      if script == [] {
        return Got(0);
      }
      if script[0].Fault? {
        script := script[1..];
        assert [] + Concat(script) == Concat(script);
        return Broken;
      }
      ghost var was, before := script, delivered;
      var (taken, left) := TakeChunk(script[0].octets, script[1..], dst.Length - from);
      forall i | 0 <= i < |taken| {
        dst[from + i] := taken[i];
      }
      delivered := delivered + taken;
      script := left;
      assert dst[from..from + |taken|] == taken;
      assert before + (taken + Concat(left)) == (before + taken) + Concat(left);
      assert Concat(was) == taken + Concat(left);
      return Got(|taken|);
    }
  }

  /** The first octet at or after position i that could start a frame. */
  function FirstStart(s: seq<Octet>, i: nat): (k: nat)
    requires i <= |s|
    ensures i <= k <= |s|
    ensures forall j :: i <= j < k ==> !IsStart(s[j])
    ensures k < |s| ==> IsStart(s[k])
    decreases |s| - i
  {
    if i == |s| || IsStart(s[i]) then i else FirstStart(s, i + 1)
  }

  /** The buffer once the first k of its n octets are dropped: the rest moves to the front, and what lies
      beyond it keeps its old value. */
  function Shift(held: seq<Octet>, n: nat, k: nat): (s: seq<Octet>)
    requires n <= |held|
    ensures |s| == |held|
  {
    if k == 0 || k > n then held else held[k..n] + held[n - k..]
  }

  class LineBuffer {
    const port: Port
    const buf: array<Octet>
    var n: nat
    ghost var seen: seq<Sighting>

    /** The buffer holds the unread tail of what the port delivered, and the frames returned so far are
        those the parser passes on its way there. */
    ghost predicate Valid()
      reads this, buf, port
    {
      && buf.Length == MAX_BUFFER && n <= MAX_BUFFER && n <= |port.delivered|
      && buf[..n] == port.delivered[Base()..]
      && Reaches(port.delivered, 0, seen, Base())
    }

    ghost function Base(): int
      reads this, port
    {
      |port.delivered| - n
    }

    constructor (port: Port)
      requires port.delivered == []
      ensures Valid() && n == 0 && seen == [] && this.port == port && fresh(buf)
    {
      this.port := port;
      hide Look;
      buf := new Octet[MAX_BUFFER];
      n := 0;
      seen := [];
    }

    /** Drops k octets from the front, in place. */
    method Consume(k: nat)
      requires n <= buf.Length
      modifies this`n, buf
      ensures n == if k == 0 || k > old(n) then 0 else old(n) - k
      ensures buf[..] == Shift(old(buf[..]), old(n), k)
    {
      if k == 0 || k > n {
        n := 0;
        return;
      }
      var m := n - k;
      forall i | 0 <= i < m {
        buf[i] := buf[i + k];
      }
      assert buf[..] == Shift(old(buf[..]), n, k);
      n := m;
    }

    /** Moves FirstStart of what is held, past its first octet, to the front. */
    method Resync() returns (found: bool)
      requires 0 < n <= buf.Length
      modifies this`n, buf
      ensures var k := FirstStart(old(buf[..n]), 1);
              found == (k < old(n)) && n == old(n) - k && buf[..n] == old(buf[..n])[k..]
    {
      ghost var was := buf[..n];
      for i := 1 to n
        invariant buf[..n] == was && n == old(n)
        invariant FirstStart(was, 1) == FirstStart(was, i)
      {
        if buf[i] == SOM || buf[i] == MARK {
          ghost var whole := buf[..];
          Consume(i);
          assert buf[..n] == buf[..][..n] == whole[i..i + n] == was[i..];
          return true;
        }
      }
      n := 0;
      return false;
    }

    /** Nothing more can be found until more octets arrive. */
    ghost predicate Idle()
      reads this, buf, port
      requires Valid()
    {
      Look(port.delivered, Base()).Wait?
    }

    lemma HeldIsWindow()
      requires Valid()
      ensures Window(port.delivered, Base()) == buf[..n]
    {
    }

    lemma IdleIsScanned()
      requires Valid() && Idle()
      ensures Scan(port.delivered, 0) == (seen, Base())
    {
      hide Look;
      ScanFrom(port.delivered, 0, seen, Base());
      assert seen + [] == seen;
    }

    /** One attempt to decode what is held. A frame is consumed before its fields are handed over, so its
        payload slice, octets lo to hi of the buffer, is read after the shift. */
    method Examine() returns (e: Examined)
      requires Valid() && n > 0
      modifies this, buf
      ensures Valid()
      ensures !e.Found? ==> n == old(n) && seen == old(seen) && buf[..] == old(buf[..])
      ensures e.NeedMore? ==> Decode(buf[..n]) == Failed(ShortBuffer)
      ensures e.Garbage? ==> Decode(buf[..n]) == Failed(e.error) && e.error != ShortBuffer
      ensures e.Found? ==> seen == old(seen) + [At(old(Base()), e.sighting)]
      ensures e.Found? ==> e.lo <= e.hi <= e.sighting.end <= old(n) && n == old(n) - e.sighting.end
      ensures e.Found? ==> buf[..] == Shift(old(buf[..]), old(n), e.sighting.end)
      ensures e.Found? ==> HandsOver(port.delivered, old(Base()), buf[..], n, e.sighting.end, e.lo, e.hi)
    {
      hide Decode, Look, WireLen, Reaches, HandsOver;
      HeldIsWindow();
      var v := Decode(buf[..n]);
      if v == Failed(ShortBuffer) {
        return NeedMore;
      }
      if v.Failed? {
        return Garbage(v.error);
      }
      e := TakeFrame(v);
    }

    method TakeFrame(v: Verdict) returns (e: Examined)
      requires Valid() && n > 0 && v == Decode(buf[..n]) && v.IsFrame()
      modifies this, buf
      ensures Valid()
      ensures e.Found? && e.sighting == Sight(0, v)
      ensures seen == old(seen) + [At(old(Base()), e.sighting)]
      ensures e.lo <= e.hi <= e.sighting.end <= old(n) && n == old(n) - e.sighting.end
      ensures buf[..] == Shift(old(buf[..]), old(n), e.sighting.end)
      ensures HandsOver(port.delivered, old(Base()), buf[..], n, e.sighting.end, e.lo, e.hi)
    {
      hide Decode, Look, Reaches, WireLen, PayloadStart, Shift, Append, HandsOver, Window;
      HeldIsWindow();
      ghost var base, whole := Base(), buf[..];
      assert whole[..n] == buf[..n];
      Taken(port.delivered, seen, base, whole, n);
      var lo, w := PayloadStart(v.frame), WireLen(v.frame);
      Consume(w);
      assert buf[..n] == buf[..][..n];
      seen := seen + [At(base, Sight(0, v))];
      return Found(Sight(0, v), lo, lo + |v.frame.data|);
    }

    /** Resynchronising past octets that are no frame passes no frame either. */
    method ResyncPast() returns (found: bool)
      requires Valid() && n > 0 && Decode(buf[..n]).Failed? && Decode(buf[..n]) != Failed(ShortBuffer)
      modifies this`n, buf
      ensures Valid() && n < old(n)
      ensures !found ==> n == 0
    {
      hide Decode, Look, Reaches;
      HeldIsWindow();
      ghost var base, held := Base(), buf[..n];
      ghost var k := FirstStart(held, 1);
      found := Resync();
      PastNoise(port.delivered, seen, base, base + k);
    }

    /** A full buffer that still asks for more is discarded whole. */
    method Discard()
      requires Valid() && n == MAX_BUFFER && Decode(buf[..n]) == Failed(ShortBuffer)
      modifies this`n
      ensures Valid() && n == 0
    {
      hide Decode, Reaches;
      HeldIsWindow();
      ghost var base := Base();
      n := 0;
      PastOne(port.delivered, seen, base);
    }

    /** One read from the port into the free part of the buffer. */
    method Fill() returns (r: ReadResult)
      requires Valid() && n < MAX_BUFFER
      modifies this`n, buf, port
      ensures Valid()
      ensures r.Got? ==> n == old(n) + r.count
      ensures r.Broken? ==> n == old(n)
      ensures !(r.Got? && r.count > 0) ==> port.delivered == old(port.delivered)
      ensures r.Got? && r.count > 0 ==> Weight(port.script) < old(Weight(port.script))
      ensures port.delivered + Concat(port.script) == old(port.delivered + Concat(port.script))
    {
      hide Reaches, Concat, Weight;
      ghost var stream, base := port.delivered, Base();
      r := port.Read(buf, n);
      if r.Got? {
        ghost var more := buf[n..n + r.count];
        ReachesStable(stream, 0, seen, base, more);
        assert buf[..n] == stream[base..];
        assert buf[..n + r.count] == buf[..n] + more;
        n := n + r.count;
        assert port.delivered[base..] == stream[base..] + more;
        if r.count == 0 {
          assert port.delivered == stream;
        }
      }
    }

    /** What is held is nothing, or the beginning of a frame that fits the buffer: there is nothing to do
        but read. */
    lemma Rests()
      requires Valid() && n < MAX_BUFFER && (n > 0 ==> Decode(buf[..n]) == Failed(ShortBuffer))
      ensures Idle()
    {
      hide Decode;
      HeldIsWindow();
    }

    lemma RestsEmpty()
      requires Valid() && n == 0
      ensures Scan(port.delivered, 0) == (seen, Base())
    {
      hide Scan, Reaches;
      Rests();
      IdleIsScanned();
    }

    /** The peripheral device's loop: noise and hopeless lengths are passed over in silence. Whenever it
        comes back without a frame, the frames returned so far are exactly those of the stream. */
    method NextCommand() returns (r: Scanned)
      requires Valid()
      modifies this, buf, port
      ensures Valid()
      ensures port.delivered + Concat(port.script) == old(port.delivered + Concat(port.script))
      ensures r.Sighted? ==> r.sighting.end <= Base() && seen == old(seen) + [At(Base() - r.sighting.end, r.sighting)]
      ensures r.Sighted? ==> HandsOver(port.delivered, Base() - r.sighting.end, buf[..], n, r.sighting.end, r.lo, r.hi)
      ensures !r.Sighted? ==> seen == old(seen) && Scan(port.delivered, 0) == (seen, Base())
      ensures !r.Noise?
    {
      hide Decode, Look, Reaches, Scan, Concat, Weight, HandsOver;
      while true
        invariant Valid() && seen == old(seen)
        invariant port.delivered + Concat(port.script) == old(port.delivered + Concat(port.script))
        decreases Weight(port.script), n
      {
        if n > 0 {
          var e := Examine();
          if e.Found? {
            return Sighted(e.sighting, e.lo, e.hi);
          }
          if e.Garbage? {
            var _ := ResyncPast();
            continue;
          }
        }
        if n == buf.Length {
          Discard();
        }
        Rests();
        var r' := Fill();
        if r'.Broken? {
          IdleIsScanned();
          return Failure;
        }
        if r'.count == 0 {
          IdleIsScanned();
          return Silent;
        }
      }
    }

    /** The control panel's loop, which reports noise instead. */
    method NextReply() returns (r: Scanned)
      requires Valid()
      modifies this, buf, port
      ensures Valid()
      ensures port.delivered + Concat(port.script) == old(port.delivered + Concat(port.script))
      ensures r.Sighted? ==> r.sighting.end <= Base() && seen == old(seen) + [At(Base() - r.sighting.end, r.sighting)]
      ensures r.Sighted? ==> HandsOver(port.delivered, Base() - r.sighting.end, buf[..], n, r.sighting.end, r.lo, r.hi)
      ensures !r.Sighted? ==> seen == old(seen) && Scan(port.delivered, 0) == (seen, Base())
    {
      hide Decode, Look, Reaches, Scan, Concat, Weight, HandsOver;
      while true
        invariant Valid() && seen == old(seen)
        invariant port.delivered + Concat(port.script) == old(port.delivered + Concat(port.script))
        decreases Weight(port.script), n
      {
        if n > 0 {
          var e := Examine();
          if e.Found? {
            return Sighted(e.sighting, e.lo, e.hi);
          }
          if e.Garbage? {
            var found := ResyncPast();
            if found {
              continue;
            }
            RestsEmpty();
            return Noise(e.error);
          }
        }
        if n == buf.Length {
          Discard();
          RestsEmpty();
          return Noise(LengthMismatch);
        }
        Rests();
        var r' := Fill();
        if r'.Broken? {
          IdleIsScanned();
          return Failure;
        }
        if r'.count == 0 {
          IdleIsScanned();
          return Silent;
        }
      }
    }
  }

  datatype Scanned = Sighted(sighting: Sighting, lo: nat, hi: nat) | Silent | Failure | Noise(error: FrameError)

  /** A sighting made at the front of the buffer, as a range of the stream. */
  function At(p: nat, s: Sighting): Sighting {
    s.(start := p, end := p + s.end)
  }

  lemma Passed(stream: seq<Octet>, seen: seq<Sighting>, p: nat)
    requires p <= |stream| && Reaches(stream, 0, seen, p) && Look(stream, p).Emit?
    ensures Reaches(stream, 0, seen + [Look(stream, p).sighting], Look(stream, p).sighting.end)
  {
    hide Look;
    var s := Look(stream, p).sighting;
    assert Reaches(stream, s.end, [s][1..], s.end);
    ReachesThen(stream, 0, seen, p, [s], s.end);
  }

  lemma PastOne(stream: seq<Octet>, seen: seq<Sighting>, p: nat)
    requires p <= |stream| && Reaches(stream, 0, seen, p) && Look(stream, p).Skip?
    ensures Reaches(stream, 0, seen, Look(stream, p).to)
  {
    hide Look;
    var q := Look(stream, p).to;
    assert Reaches(stream, q, [], q);
    assert Reaches(stream, p, [], q);
    ReachesThen(stream, 0, seen, p, [], q);
    assert seen + [] == seen;
  }

  lemma PastNoise(stream: seq<Octet>, seen: seq<Sighting>, p: nat, q: nat)
    requires p < q <= |stream| && Reaches(stream, 0, seen, p)
    requires Window(stream, p) != [] && Decode(Window(stream, p)).Failed? && Decode(Window(stream, p)) != Failed(ShortBuffer)
    requires forall i :: p < i < q ==> !IsStart(stream[i])
    ensures Reaches(stream, 0, seen, q)
  {
    hide Decode, Reaches;
    assert Look(stream, p) == Skip(p + 1);
    PastOne(stream, seen, p);
    SkipNoise(stream, p + 1, q);
    ReachesThen(stream, 0, seen, p + 1, [], q);
    assert seen + [] == seen;
  }

  datatype Examined = Found(sighting: Sighting, lo: nat, hi: nat) | NeedMore | Garbage(error: FrameError)

  /** Where in a frame's octets its payload begins. */
  function PayloadStart(f: Frame): nat {
    (if f.hasMark then 1 else 0) + HEADER_SIZE + BlockLen(f.security) + 1
  }

  lemma ShiftFront(held: seq<Octet>, n: nat, k: nat)
    requires 0 < k <= n <= |held|
    ensures Shift(held, n, k)[..n - k] == held[k..n]
  {
  }

  lemma PayloadInside(f: Frame)
    requires Append(f).Ok?
    ensures PayloadStart(f) + |f.data| <= WireLen(f)
    ensures Append(f).value[PayloadStart(f)..PayloadStart(f) + |f.data|] == f.data
  {
    hide Header, BlockOctets, CheckOctets, SchemeOf, BlockLen, Representable;
  }

  lemma SliceOfPrefix(s: seq<Octet>, n: nat, lo: nat, hi: nat)
    requires lo <= hi <= n <= |s|
    ensures s[..n][lo..hi] == s[lo..hi]
  {
  }

  lemma FrameHeld(held: seq<Octet>)
    requires Decode(held).IsFrame()
    ensures var f := Decode(held).frame;
            && 0 < WireLen(f) <= |held|
            && PayloadStart(f) + |f.data| <= WireLen(f)
            && held[PayloadStart(f)..PayloadStart(f) + |f.data|] == f.data
  {
    hide Decode, PayloadStart, Append, Len;
    var f := Decode(held).frame;
    DecodeThenEncode(held);
    PayloadInside(f);
    var lo, hi := PayloadStart(f), PayloadStart(f) + |f.data|;
    assert held[lo..hi] == held[..WireLen(f)][lo..hi];
    LenPositive(f);
  }

  lemma LenPositive(f: Frame)
    ensures Len(f) > 0
  {
  }

  lemma LookFrame(stream: seq<Octet>, p: nat)
    requires p <= |stream| && Window(stream, p) != [] && Decode(Window(stream, p)).IsFrame()
    ensures Look(stream, p) == Emit(Sight(p, Decode(Window(stream, p))))
  {
    hide Decode;
  }

  /** Two receivers at rest that were given the same octets have returned the same frames, however either
      line split its reads. */
  lemma ChunkingIsInvisible(a: LineBuffer, b: LineBuffer)
    requires a.Valid() && a.Idle() && b.Valid() && b.Idle()
    requires a.port.delivered == b.port.delivered
    ensures a.seen == b.seen && a.n == b.n
  {
    hide Look, Reaches, Scan;
    a.IdleIsScanned();
    b.IdleIsScanned();
  }

  /** The octets that followed a frame of w octets and were shifted onto octets lo to hi are the ones they replaced. */
  predicate Survives(stream: seq<Octet>, start: nat, n: nat, w: nat, lo: nat, hi: nat)
    requires start + w + n == |stream| && hi <= w
  {
    var frame, behind := stream[start..start + w], stream[start + w..];
    forall i :: lo <= i < hi && i < n ==> behind[i] == frame[i]
  }

  /** A frame of w octets at a position of the stream was handed over with octets lo to hi of the buffer for its payload,
      n octets being held behind it. Its payload lies there in the stream; the buffer still holds it exactly when it
      survived the shift. */
  ghost predicate HandsOver(stream: seq<Octet>, start: int, buffer: seq<Octet>, n: nat, w: nat, lo: nat, hi: nat) {
    && 0 <= start && start + w + n == |stream| && lo <= hi <= w && hi <= |buffer|
    && Decode(Window(stream, start)).IsFrame()
    && stream[start + lo..start + hi] == Decode(Window(stream, start)).frame.data
    && (buffer[lo..hi] == stream[start + lo..start + hi] <==> Survives(stream, start, n, w, lo, hi))
  }

  lemma SurvivesShift(stream: seq<Octet>, start: nat, held: seq<Octet>, n: nat, w: nat, lo: nat, hi: nat)
    requires start + n == |stream| && n <= |held| && held[..n] == stream[start..]
    requires lo <= hi <= w <= n
    ensures Survives(stream, start, n - w, w, lo, hi)
            <==> forall i :: lo <= i < hi && i + w < n ==> held[i + w] == held[i]
  {
    var frame, behind := stream[start..start + w], stream[start + w..];
    forall i | 0 <= i < n
      ensures stream[start + i] == held[i]
    {
      assert held[..n][i] == stream[start..][i];
    }
    assert forall i :: 0 <= i < w ==> frame[i] == held[i];
    assert forall i :: 0 <= i < n - w ==> behind[i] == held[i + w];
  }

  lemma HandedOver(stream: seq<Octet>, start: nat, held: seq<Octet>, n: nat, w: nat, lo: nat, hi: nat)
    requires start + n == |stream| && n <= |held| && Window(stream, start) == held[..n] == stream[start..] && 0 < w <= n
    requires lo <= hi <= w && Decode(held[..n]).IsFrame() && held[..n][lo..hi] == Decode(held[..n]).frame.data
    ensures HandsOver(stream, start, Shift(held, n, w), n - w, w, lo, hi)
  {
    hide Decode, Shift, Window, Survives;
    SliceOfPrefix(held, n, lo, hi);
    assert stream[start + lo..start + hi] == stream[start..][lo..hi];
    PayloadAfterShift(held, n, w, lo, hi);
    SurvivesShift(stream, start, held, n, w, lo, hi);
  }

  /** What taking the frame at the head of the octets held does to them. */
  lemma Taken(stream: seq<Octet>, seen: seq<Sighting>, base: nat, held: seq<Octet>, n: nat)
    requires 0 < n <= |held| && base + n == |stream| && Window(stream, base) == held[..n] == stream[base..]
    requires Reaches(stream, 0, seen, base) && Decode(held[..n]).IsFrame()
    ensures var f := Decode(held[..n]).frame;
            var s, lo := At(base, Sight(0, Decode(held[..n]))), PayloadStart(f);
            && 0 < WireLen(f) <= n && lo + |f.data| <= WireLen(f)
            && HandsOver(stream, base, Shift(held, n, WireLen(f)), n - WireLen(f), WireLen(f), lo, lo + |f.data|)
            && Shift(held, n, WireLen(f))[..n - WireLen(f)] == stream[base + WireLen(f)..]
            && Reaches(stream, 0, seen + [s], base + WireLen(f))
  {
    hide Decode, Look, Reaches, WireLen, PayloadStart, Shift, Append, HandsOver, Window;
    var f := Decode(held[..n]).frame;
    var lo, w := PayloadStart(f), WireLen(f);
    FrameHeld(held[..n]);
    LookFrame(stream, base);
    Passed(stream, seen, base);
    HandedOver(stream, base, held, n, w, lo, lo + |f.data|);
    ShiftFront(held, n, w);
    SliceOfPrefix(held, n, w, n);
    assert stream[base + w..] == stream[base..][w..n];
  }

  /** The payload slice handed over with a frame still holds the payload exactly when no octet buffered
      behind the frame was shifted onto a different one. */
  lemma PayloadAfterShift(held: seq<Octet>, n: nat, w: nat, lo: nat, hi: nat)
    requires lo <= hi <= w <= n <= |held| && w > 0
    ensures Shift(held, n, w)[lo..hi] == held[lo..hi] <==> forall i :: lo <= i < hi && i + w < n ==> held[i + w] == held[i]
    ensures n - w <= lo ==> Shift(held, n, w)[lo..hi] == held[lo..hi]
  {
    var s := Shift(held, n, w);
    assert forall i :: lo <= i < hi ==> s[i] == held[if i + w < n then i + w else i];
    if s[lo..hi] == held[lo..hi] {
      forall i | lo <= i < hi && i + w < n
        ensures held[i + w] == held[i]
      {
        assert s[lo..hi][i - lo] == s[i] == held[i + w];
        assert held[lo..hi][i - lo] == held[i];
      }
    }
  }

  /** Two frames of one layout held at once: by the time the first is handed over, its payload slice holds the payload of
      the second. */
  lemma SecondFrameTakesItsPlace(f: Frame, g: Frame, rest: seq<Octet>)
    requires Append(f).Ok? && Append(g).Ok? && PayloadStart(g) == PayloadStart(f) && |g.data| == |f.data|
    ensures var held := Append(f).value + Append(g).value;
            var lo, hi := PayloadStart(f), PayloadStart(f) + |f.data|;
            && hi <= WireLen(f) && 0 < WireLen(f) <= |held| && held[lo..hi] == f.data
            && Shift(held + rest, |held|, WireLen(f))[lo..hi] == g.data
  {
    hide Append, PayloadStart, Len;
    PayloadInside(f);
    PayloadInside(g);
    LenPositive(f);
    var a, b := Append(f).value, Append(g).value;
    var held, lo, hi := a + b, PayloadStart(f), PayloadStart(f) + |f.data|;
    assert held[lo..hi] == a[lo..hi];
    ShiftFront(held + rest, |held|, |a|);
    assert (held + rest)[|a|..|held|] == b;
    SliceOfPrefix(Shift(held + rest, |held|, |a|), |b|, lo, hi);
  }
}
