/** The frame codec: internal/frame. Sections 5.5 to 5.8 of SIA OSDP v2.2.2. */
module Frames {
  import opened Octets
  import opened Check

  const SOM: Octet := 0x53
  const MARK: Octet := 0xFF
  const HEADER_SIZE: nat := 5
  const BROADCAST: Octet := 0x7F
  const REPLY_FLAG: Octet := 0x80
  const MAX_SECURITY_BLOCK: nat := 0xFF
  const MAX_FRAME: nat := 0xFFFF

  /** A device address or the broadcast address. */
  predicate ValidAddress(a: Octet) {
    a <= BROADCAST
  }

  // ----- The control octet -----

  function Sequence(control: Octet): Octet {
    control & 3
  }

  function SchemeOf(control: Octet): Scheme {
    if control & 4 != 0 then CRC16 else Checksum
  }

  predicate HasSecurityBlock(control: Octet) {
    control & 8 != 0
  }

  function NewControl(sequence: Octet, scheme: Scheme, security: bool): Octet {
    (sequence & 3) | (if scheme.CRC16? then 4 else 0) | (if security then 8 else 0)
  }

  lemma NewControlFields(sequence: Octet, scheme: Scheme, security: bool)
    ensures Sequence(NewControl(sequence, scheme, security)) == sequence & 3
    ensures SchemeOf(NewControl(sequence, scheme, security)) == scheme
    ensures HasSecurityBlock(NewControl(sequence, scheme, security)) == security
  {
    if scheme.CRC16? {
      if security {
      } else {
      }
    } else {
      if security {
      } else {
      }
    }
  }

  // ----- Frames -----

  datatype SecurityBlock = SecurityBlock(kind: Octet, data: seq<Octet>)

  datatype Frame = Frame(
    hasMark: bool, isReply: bool, address: Octet, control: Octet, security: Option<SecurityBlock>,
    code: Octet, data: seq<Octet>, check: bv16)

  datatype FrameError =
    | ShortBuffer | NoStartOfMessage | LengthMismatch | BadSecurityBlock
    | InvalidAddress | SecurityBlockTooLong | FrameTooLong

  function BlockLen(b: Option<SecurityBlock>): nat {
    if b.None? then 0 else 2 + |b.value.data|
  }

  /** What the length field says of a frame. */
  function Len(f: Frame): nat {
    HEADER_SIZE + BlockLen(f.security) + 1 + |f.data| + SchemeOf(f.control).Size()
  }

  function WireLen(f: Frame): nat {
    if f.hasMark then Len(f) + 1 else Len(f)
  }

  // ----- Encoding -----

  function AddressOctet(isReply: bool, address: Octet): Octet {
    if isReply then address | REPLY_FLAG else address
  }

  function BlockOctets(b: Option<SecurityBlock>): (s: seq<Octet>)
    ensures |s| == BlockLen(b)
  {
    if b.None? then [] else [Low(BlockLen(b)), b.value.kind] + b.value.data
  }

  function Header(f: Frame, total: nat): seq<Octet> {
    [SOM, AddressOctet(f.isReply, f.address), Low(total), Low(total / 256), f.control]
  }

  /** What the error check covers, and what the secure channel authenticates. */
  function Body(f: Frame): (s: seq<Octet>)
    ensures |s| == Len(f) - SchemeOf(f.control).Size()
  {
    Header(f, Len(f)) + BlockOctets(f.security) + [f.code] + f.data
  }

  function LowHalf(x: bv16): Octet {
    (x & 0xff) as bv8
  }

  function HighHalf(x: bv16): Octet {
    ((x >> 8) & 0xff) as bv8
  }

  function CheckOctets(scheme: Scheme, check: bv16): (s: seq<Octet>)
    ensures |s| == scheme.Size()
  {
    if scheme.CRC16? then [LowHalf(check), HighHalf(check)] else [LowHalf(check)]
  }

  function ComputeCheck(f: Frame): bv16 {
    if SchemeOf(f.control).CRC16? then Crc(Body(f)) else SumCheck(Body(f)) as bv16
  }

  function Seal(f: Frame): Frame {
    f.(check := ComputeCheck(f))
  }

  predicate CheckOK(f: Frame) {
    f.check == ComputeCheck(f)
  }

  lemma SealedCheck(f: Frame)
    ensures CheckOK(Seal(f))
    ensures Seal(f) == f.(check := Seal(f).check)
  {
    assert Body(Seal(f)) == Body(f);
  }

  function Representable(f: Frame): Option<FrameError> {
    if !ValidAddress(f.address) then Some(InvalidAddress)
    else if BlockLen(f.security) > MAX_SECURITY_BLOCK then Some(SecurityBlockTooLong)
    else if Len(f) > MAX_FRAME then Some(FrameTooLong)
    else None
  }

  /** The octets of a frame, the mark octet aside. */
  function Unmarked(f: Frame): seq<Octet> {
    Body(f) + CheckOctets(SchemeOf(f.control), f.check)
  }

  function Append(f: Frame): (r: Result<seq<Octet>, FrameError>)
    ensures r.Ok? ==> |r.value| == WireLen(f)
    ensures r.Err? <==> Representable(f).Some?
  {
    match Representable(f)
    case Some(e) => Err(e)
    case None => Ok((if f.hasMark then [MARK] else []) + Unmarked(f))
  }

  // ----- Decoding -----

  predicate IsReplyOctet(addr: Octet) {
    addr & REPLY_FLAG != 0
  }

  function AddressIn(addr: Octet): Octet {
    addr & 0x7F
  }

  datatype Verdict = Decoded(frame: Frame) | BadCheck(frame: Frame) | Failed(error: FrameError) {
    predicate IsFrame() {
      !Failed?
    }
  }

  function LengthField(lo: Octet, hi: Octet): nat {
    Nat(lo) + 256 * Nat(hi)
  }

  function CheckField(scheme: Scheme, s: seq<Octet>): bv16
    requires |s| == scheme.Size()
  {
    if scheme.CRC16? then (s[0] as bv16) | (s[1] as bv16 << 8) else s[0] as bv16
  }

  /** The leading security block and what follows it. */
  function DecodeBlock(rest: seq<Octet>): Result<(SecurityBlock, seq<Octet>), FrameError> {
    if |rest| < 2 then Err(BadSecurityBlock)
    else
      var n := Nat(rest[0]);
      if n < 2 || n > |rest| then Err(BadSecurityBlock)
      else Ok((SecurityBlock(rest[1], rest[2..n]), rest[n..]))
  }

  /** What follows the security block of a frame. */
  function DecodeTail(mark: bool, addr: Octet, control: Octet, block: Option<SecurityBlock>, rest: seq<Octet>): Verdict {
    var size := SchemeOf(control).Size();
    if |rest| < 1 + size then Failed(LengthMismatch)
    else
      var dataEnd := |rest| - size;
      var f := Frame(mark, IsReplyOctet(addr), AddressIn(addr), control, block,
                     rest[0], rest[1..dataEnd], CheckField(SchemeOf(control), rest[dataEnd..]));
      if CheckOK(f) then Decoded(f) else BadCheck(f)
  }

  /** Everything after the header of a frame that has arrived whole. */
  function DecodeRest(mark: bool, addr: Octet, control: Octet, rest: seq<Octet>): Verdict {
    if HasSecurityBlock(control) then
      match DecodeBlock(rest)
      case Err(e) => Failed(e)
      case Ok((block, remainder)) => DecodeTail(mark, addr, control, Some(block), remainder)
    else DecodeTail(mark, addr, control, None, rest)
  }

  function DecodeBody(mark: bool, body: seq<Octet>): Verdict {
    if |body| == 0 then Failed(ShortBuffer)
    else if body[0] != SOM then Failed(NoStartOfMessage)
    else if |body| < HEADER_SIZE then Failed(ShortBuffer)
    else
      var total := LengthField(body[2], body[3]);
      if total < HEADER_SIZE + 1 + SchemeOf(body[4]).Size() then Failed(LengthMismatch)
      else if |body| < total then Failed(ShortBuffer)
      else DecodeRest(mark, body[1], body[4], body[HEADER_SIZE..total])
  }

  function Decode(buf: seq<Octet>): Verdict {
    if |buf| > 0 && buf[0] == MARK then DecodeBody(true, buf[1..]) else DecodeBody(false, buf)
  }

  // ----- Field inverses -----

  lemma LengthOfOctets(n: nat)
    requires n <= MAX_FRAME
    ensures LengthField(Low(n), Low(n / 256)) == n
  {
    hide Low, Nat;
    NatOfLowAny(n);
    NatOfLowAny(n / 256);
  }

  lemma NatOfLowAny(n: nat)
    ensures Nat(Low(n)) == n % 256
  {
    NatOfLow(n % 256);
  }

  lemma OctetsOfLength(lo: Octet, hi: Octet)
    ensures Low(LengthField(lo, hi)) == lo && Low(LengthField(lo, hi) / 256) == hi
    ensures LengthField(lo, hi) <= MAX_FRAME
  {
    hide Low, Nat;
    var n := LengthField(lo, hi);
    assert n % 256 == Nat(lo) && n / 256 == Nat(hi);
    LowOfNat(lo);
    LowOfNat(hi);
    LowOfMod(n);
  }

  lemma LowOfMod(n: nat)
    ensures Low(n) == Low(n % 256)
  {
  }

  lemma HalvesOfPair(lo: Octet, hi: Octet)
    ensures LowHalf((lo as bv16) | (hi as bv16 << 8)) == lo && HighHalf((lo as bv16) | (hi as bv16 << 8)) == hi
    ensures LowHalf(lo as bv16) == lo
  {
  }

  lemma PairOfHalves(x: bv16)
    ensures (LowHalf(x) as bv16) | (HighHalf(x) as bv16 << 8) == x
    ensures x < 256 ==> LowHalf(x) as bv16 == x
  {
  }

  lemma AddressOfOctet(addr: Octet)
    ensures AddressOctet(IsReplyOctet(addr), AddressIn(addr)) == addr
    ensures ValidAddress(AddressIn(addr))
  {
    if addr & REPLY_FLAG != 0 {
    } else {
    }
  }

  lemma OctetOfAddress(isReply: bool, address: Octet)
    requires ValidAddress(address)
    ensures AddressIn(AddressOctet(isReply, address)) == address
    ensures IsReplyOctet(AddressOctet(isReply, address)) == isReply
  {
    if isReply {
    } else {
    }
  }

  // ----- What decode returns re-encodes to what it consumed -----

  lemma CheckReencodes(scheme: Scheme, s: seq<Octet>)
    requires |s| == scheme.Size()
    ensures CheckOctets(scheme, CheckField(scheme, s)) == s
  {
    if scheme.CRC16? {
      HalvesOfPair(s[0], s[1]);
    } else {
      HalvesOfPair(s[0], 0);
    }
  }

  lemma TailReencodes(mark: bool, addr: Octet, control: Octet, block: Option<SecurityBlock>, rest: seq<Octet>)
    requires DecodeTail(mark, addr, control, block, rest).IsFrame()
    ensures var f := DecodeTail(mark, addr, control, block, rest).frame;
            && f.hasMark == mark && f.control == control && f.security == block
            && AddressOctet(f.isReply, f.address) == addr && ValidAddress(f.address)
            && [f.code] + f.data + CheckOctets(SchemeOf(f.control), f.check) == rest
  {
    hide CheckOK, IsReplyOctet, AddressIn, AddressOctet, ValidAddress, SchemeOf, CheckOctets, CheckField;
    var dataEnd := |rest| - SchemeOf(control).Size();
    AddressOfOctet(addr);
    CheckReencodes(SchemeOf(control), rest[dataEnd..]);
    assert rest == [rest[0]] + rest[1..dataEnd] + rest[dataEnd..];
  }

  lemma BlockReencodes(rest: seq<Octet>)
    requires DecodeBlock(rest).Ok?
    ensures BlockOctets(Some(DecodeBlock(rest).value.0)) + DecodeBlock(rest).value.1 == rest
    ensures BlockLen(Some(DecodeBlock(rest).value.0)) <= MAX_SECURITY_BLOCK
  {
    hide Low, Nat;
    LowOfNat(rest[0]);
  }

  lemma RestReencodes(mark: bool, addr: Octet, control: Octet, rest: seq<Octet>)
    requires DecodeRest(mark, addr, control, rest).IsFrame()
    ensures var f := DecodeRest(mark, addr, control, rest).frame;
            && f.hasMark == mark && f.control == control && f.security.Some? == HasSecurityBlock(control)
            && AddressOctet(f.isReply, f.address) == addr && ValidAddress(f.address)
            && BlockLen(f.security) <= MAX_SECURITY_BLOCK
            && BlockOctets(f.security) + [f.code] + f.data + CheckOctets(SchemeOf(f.control), f.check) == rest
            && Len(f) == HEADER_SIZE + |rest|
  {
    hide DecodeTail, DecodeBlock, BlockOctets, BlockLen, CheckOctets, AddressOctet, SchemeOf, HasSecurityBlock;
    var f := DecodeRest(mark, addr, control, rest).frame;
    var check := CheckOctets(SchemeOf(f.control), f.check);
    if HasSecurityBlock(control) {
      BlockReencodes(rest);
      var (block, remainder) := DecodeBlock(rest).value;
      TailReencodes(mark, addr, control, Some(block), remainder);
      assert BlockOctets(f.security) + ([f.code] + f.data + check) == BlockOctets(f.security) + [f.code] + f.data + check;
    } else {
      TailReencodes(mark, addr, control, None, rest);
      NoBlock();
      assert BlockOctets(None) + ([f.code] + f.data + check) == BlockOctets(None) + [f.code] + f.data + check;
    }
  }

  lemma NoBlock()
    ensures BlockOctets(None) == [] && BlockLen(None) == 0
  {
  }

  lemma BodyReencodes(mark: bool, body: seq<Octet>)
    requires DecodeBody(mark, body).IsFrame()
    ensures var f := DecodeBody(mark, body).frame;
            f.hasMark == mark && Representable(f).None? && Len(f) <= |body| && Unmarked(f) == body[..Len(f)] &&
            f.security.Some? == HasSecurityBlock(f.control)
  {
    hide DecodeRest, LengthField, BlockOctets, BlockLen, CheckOctets, AddressOctet, SchemeOf, HasSecurityBlock, Len, Low;
    var total := LengthField(body[2], body[3]);
    var f := DecodeBody(mark, body).frame;
    RestReencodes(mark, body[1], body[4], body[HEADER_SIZE..total]);
    OctetsOfLength(body[2], body[3]);
    assert Header(f, total) == body[..HEADER_SIZE];
    assert body[..total] == body[..HEADER_SIZE] + body[HEADER_SIZE..total];
    var check := CheckOctets(SchemeOf(f.control), f.check);
    assert Unmarked(f) == Header(f, total) + (BlockOctets(f.security) + [f.code] + f.data + check);
  }

  /** Any frame decode returns, a failed error check included, re-encodes to exactly the octets it was
      read from and is never refused. */
  lemma DecodeThenEncode(buf: seq<Octet>)
    requires Decode(buf).IsFrame()
    ensures var f := Decode(buf).frame;
            WireLen(f) <= |buf| && Append(f) == Ok(buf[..WireLen(f)])
  {
    hide DecodeBody, Unmarked, Representable, Len;
    if |buf| > 0 && buf[0] == MARK {
      BodyReencodes(true, buf[1..]);
      var f := Decode(buf).frame;
      assert buf[..Len(f) + 1] == [MARK] + buf[1..][..Len(f)];
    } else {
      BodyReencodes(false, buf);
      var f := Decode(buf).frame;
      assert [] + Unmarked(f) == Unmarked(f);
    }
  }

  // ----- What is encoded decodes to itself -----

  /** The two ways a frame can be composed that the wire cannot carry back: a security flag that does not
      match its block, or a one-octet check holding more than an octet. */
  predicate Faithful(f: Frame) {
    && f.security.Some? == HasSecurityBlock(f.control)
    && (SchemeOf(f.control).Checksum? ==> f.check < 256)
  }

  function Judged(f: Frame): Verdict {
    if CheckOK(f) then Decoded(f) else BadCheck(f)
  }

  lemma CheckDecodes(scheme: Scheme, check: bv16)
    requires scheme.Checksum? ==> check < 256
    ensures CheckField(scheme, CheckOctets(scheme, check)) == check
  {
    PairOfHalves(check);
  }

  lemma TailDecodes(f: Frame)
    requires ValidAddress(f.address) && Faithful(f)
    ensures DecodeTail(f.hasMark, AddressOctet(f.isReply, f.address), f.control, f.security,
                       [f.code] + f.data + CheckOctets(SchemeOf(f.control), f.check)) == Judged(f)
  {
    hide CheckOK, IsReplyOctet, AddressIn, AddressOctet, SchemeOf, HasSecurityBlock, CheckOctets, CheckField;
    var check := CheckOctets(SchemeOf(f.control), f.check);
    var rest := [f.code] + f.data + check;
    OctetOfAddress(f.isReply, f.address);
    CheckDecodes(SchemeOf(f.control), f.check);
    assert rest[1..|rest| - |check|] == f.data && rest[|rest| - |check|..] == check;
  }

  lemma BlockDecodes(b: SecurityBlock, more: seq<Octet>)
    requires BlockLen(Some(b)) <= MAX_SECURITY_BLOCK
    ensures DecodeBlock(BlockOctets(Some(b)) + more) == Ok((b, more))
  {
    hide Low, Nat;
    var rest := BlockOctets(Some(b)) + more;
    NatOfLow(BlockLen(Some(b)));
    assert rest[2..2 + |b.data|] == b.data && rest[2 + |b.data|..] == more;
  }

  lemma RestDecodes(f: Frame)
    requires Representable(f).None? && Faithful(f)
    ensures DecodeRest(f.hasMark, AddressOctet(f.isReply, f.address), f.control,
                       BlockOctets(f.security) + [f.code] + f.data + CheckOctets(SchemeOf(f.control), f.check)) == Judged(f)
  {
    hide DecodeTail, DecodeBlock, BlockOctets, CheckOctets, AddressOctet, SchemeOf, HasSecurityBlock, CheckOK;
    var tail := [f.code] + f.data + CheckOctets(SchemeOf(f.control), f.check);
    TailDecodes(f);
    NoBlock();
    assert BlockOctets(f.security) + [f.code] + f.data + CheckOctets(SchemeOf(f.control), f.check) == BlockOctets(f.security) + tail;
    if f.security.Some? {
      BlockDecodes(f.security.value, tail);
    } else {
      assert [] + tail == tail;
    }
  }

  lemma BodyDecodes(f: Frame, more: seq<Octet>)
    requires Representable(f).None? && Faithful(f)
    ensures DecodeBody(f.hasMark, Unmarked(f) + more) == Judged(f)
  {
    hide DecodeRest, LengthField, BlockOctets, CheckOctets, AddressOctet, SchemeOf, HasSecurityBlock, Low, CheckOK, Faithful;
    var body := Unmarked(f) + more;
    var total := Len(f);
    var rest := BlockOctets(f.security) + [f.code] + f.data + CheckOctets(SchemeOf(f.control), f.check);
    assert body == Header(f, total) + rest + more;
    LengthOfOctets(total);
    assert body[HEADER_SIZE..total] == rest;
    RestDecodes(f);
  }

  /** A representable frame comes back from its own octets, whatever follows them, exactly when its
      security flag matches its block and its check fits the scheme. */
  lemma EncodeThenDecode(f: Frame, more: seq<Octet>)
    requires Append(f).Ok?
    ensures Faithful(f) ==> Decode(Append(f).value + more) == Judged(f)
    ensures var v := Decode(Append(f).value + more);
            (v.IsFrame() && v.frame == f) <==> Faithful(f)
  {
    hide DecodeBody, Unmarked, Body, CheckOK, Len, Representable;
    var buf := Append(f).value + more;
    if Faithful(f) {
      BodyDecodes(f, more);
      if f.hasMark {
        assert buf[1..] == Unmarked(f) + more;
      } else {
        UnmarkedStart(f);
        assert buf == Unmarked(f) + more;
      }
    } else if Decode(buf).IsFrame() {
      DecodedIsFaithful(buf);
    }
  }

  lemma UnmarkedStart(f: Frame)
    ensures |Unmarked(f)| > 0 && Unmarked(f)[0] == SOM
  {
  }

  lemma DecodedIsFaithful(buf: seq<Octet>)
    requires Decode(buf).IsFrame()
    ensures Faithful(Decode(buf).frame)
  {
    var mark := |buf| > 0 && buf[0] == MARK;
    var body := if mark then buf[1..] else buf;
    BodyReencodes(mark, body);
    NarrowCheck(mark, body);
  }

  lemma NarrowCheck(mark: bool, body: seq<Octet>)
    requires DecodeBody(mark, body).IsFrame()
    ensures var f := DecodeBody(mark, body).frame; SchemeOf(f.control).Checksum? ==> f.check < 256
  {
    hide LengthField, DecodeBlock, HasSecurityBlock, DecodeTail, SchemeOf;
    var control, rest := body[4], body[HEADER_SIZE..LengthField(body[2], body[3])];
    if HasSecurityBlock(control) {
      var (block, remainder) := DecodeBlock(rest).value;
      NarrowTail(mark, body[1], control, Some(block), remainder);
    } else {
      NarrowTail(mark, body[1], control, None, rest);
    }
  }

  lemma NarrowTail(mark: bool, addr: Octet, control: Octet, block: Option<SecurityBlock>, rest: seq<Octet>)
    requires DecodeTail(mark, addr, control, block, rest).IsFrame()
    ensures var f := DecodeTail(mark, addr, control, block, rest).frame; f.control == control && (SchemeOf(control).Checksum? ==> f.check < 256)
  {
    hide CheckOK, IsReplyOctet, AddressIn, SchemeOf;
  }

  // ----- More octets never change a verdict -----

  /** Once the verdict is not "short buffer", octets arriving later leave it alone. */
  lemma DecodeStable(buf: seq<Octet>, more: seq<Octet>)
    requires Decode(buf) != Failed(ShortBuffer)
    ensures Decode(buf + more) == Decode(buf)
  {
    hide DecodeBody;
    if |buf| > 0 && buf[0] == MARK {
      assert (buf + more)[1..] == buf[1..] + more;
      BodyStable(true, buf[1..], more);
    } else {
      BodyStable(false, buf, more);
    }
  }

  lemma BodyStable(mark: bool, body: seq<Octet>, more: seq<Octet>)
    requires DecodeBody(mark, body) != Failed(ShortBuffer)
    ensures |body| > 0
    ensures DecodeBody(mark, body + more) == DecodeBody(mark, body)
  {
    hide DecodeRest, LengthField, SchemeOf;
    if |body| >= HEADER_SIZE {
      var total := LengthField(body[2], body[3]);
      if HEADER_SIZE <= total <= |body| {
        assert (body + more)[HEADER_SIZE..total] == body[HEADER_SIZE..total];
      }
    }
  }
}
