/** Command and reply codes and the payloads the state machines read: internal/cmd. */
module Messages {
  import opened Octets
  import opened Check
  import opened Frames
  import opened Cipher
  import S = Sessions

  /** A code and its payload. The direction is the frame's. */
  datatype Message = Message(code: Octet, data: seq<Octet>)

  // Commands.
  const POLL: Octet := 0x60
  const ID: Octet := 0x61
  const CAP: Octet := 0x62
  const LSTAT: Octet := 0x64
  const ISTAT: Octet := 0x65
  const OSTAT: Octet := 0x66
  const RSTAT: Octet := 0x67
  const OUT: Octet := 0x68
  const LED: Octet := 0x69
  const BUZ: Octet := 0x6A
  const TEXT: Octet := 0x6B
  const COMSET: Octet := 0x6E
  const KEYSET: Octet := 0x75
  const CHLNG: Octet := 0x76
  const SCRYPT: Octet := 0x77
  const ACURXSIZE: Octet := 0x7B
  const ABORT: Octet := 0xA2
  const KEEPACTIVE: Octet := 0xA7

  // Replies.
  const ACK: Octet := 0x40
  const NAK: Octet := 0x41
  const PDID: Octet := 0x45
  const PDCAP: Octet := 0x46
  const LSTATR: Octet := 0x48
  const ISTATR: Octet := 0x49
  const OSTATR: Octet := 0x4A
  const RSTATR: Octet := 0x4B
  const RAW: Octet := 0x50
  const KEYPAD: Octet := 0x53
  const COM: Octet := 0x54
  const CCRYPT: Octet := 0x76
  const RMAC_I: Octet := 0x78
  const BUSY: Octet := 0x79
  const MFGREP: Octet := 0x90

  // Reasons carried by osdp_NAK.
  const NAK_COMMAND_LENGTH: Octet := 0x02
  const NAK_UNKNOWN_COMMAND: Octet := 0x03
  const NAK_SEQUENCE: Octet := 0x04
  const NAK_SECURE_REQUIRED: Octet := 0x05
  const NAK_ENCRYPTION_UNSUPPORTED: Octet := 0x06
  const NAK_UNSUPPORTED_INPUT: Octet := 0x09

  // Security block types.
  const SCS_11: Octet := 0x11
  const SCS_12: Octet := 0x12
  const SCS_13: Octet := 0x13
  const SCS_14: Octet := 0x14
  const SCS_15: Octet := 0x15
  const SCS_16: Octet := 0x16
  const SCS_17: Octet := 0x17
  const SCS_18: Octet := 0x18

  predicate HandshakeBlock(kind: Octet) {
    SCS_11 <= kind <= SCS_14
  }

  predicate EstablishedBlock(kind: Octet) {
    SCS_15 <= kind <= SCS_18
  }

  predicate EncryptedBlock(kind: Octet) {
    kind == SCS_17 || kind == SCS_18
  }

  function Poll(): Message {
    Message(POLL, [])
  }

  function Ack(): Message {
    Message(ACK, [])
  }

  function Nak(reason: Octet): Message {
    Message(NAK, [reason])
  }

  // ----- Placing a message in a frame -----

  function Encode(m: Message, isReply: bool, address: Octet, sequence: Octet, scheme: Scheme): Result<Frame, FrameError> {
    if !ValidAddress(address) then Err(InvalidAddress)
    else Ok(Frames.Seal(Frame(false, isReply, address, NewControl(sequence, scheme, false), None, m.code, m.data, 0)))
  }

  /** Encode with a security block, and with the check left for later. */
  function EncodeSecure(
    m: Message, isReply: bool, address: Octet, sequence: Octet, scheme: Scheme, block: SecurityBlock): Result<Frame, FrameError>
  {
    if !ValidAddress(address) then Err(InvalidAddress)
    else Ok(Frame(false, isReply, address, NewControl(sequence, scheme, true), Some(block), m.code, m.data, 0))
  }

  /** The octets a tag covers: the body of the finished frame up to the tag. */
  function Covered(f: Frame): seq<Octet>
    requires |f.data| >= S.MAC_TAG_SIZE
  {
    var body := Body(f);
    body[..|body| - S.MAC_TAG_SIZE]
  }

  /** A frame that carries a message: its direction, address and number, and a check that matches. */
  predicate Carries(
    f: Frame, isReply: bool, address: Octet, sequence: Octet, scheme: Scheme, code: Octet, block: Option<Octet>)
  {
    && CheckOK(f) && f.isReply == isReply && !f.hasMark && f.address == address
    && f.control == NewControl(sequence, scheme, block.Some?) && f.code == code
    && f.security == if block.None? then None else Some(SecurityBlock(block.value, []))
  }

  /** The frame a sealed message is built in before its tag is known. */
  function Untagged(
    isReply: bool, address: Octet, sequence: Octet, scheme: Scheme, code: Octet, kind: Octet, data: seq<Octet>): Frame
  {
    Frame(false, isReply, address, NewControl(sequence, scheme, true), Some(SecurityBlock(kind, [])), code, data, 0)
  }

  /** The payload a sealed message travels with, before the tag. */
  function Enciphered(su: S.Suite, keys: SessionKeys, chain: Block, kind: Octet, data: seq<Octet>): seq<Octet> {
    if EncryptedBlock(kind) then su.seal(keys, chain, data) else data
  }

  /** The code over a frame once room for its tag is reserved. */
  function MacOver(su: S.Suite, keys: SessionKeys, chain: Block, f: Frame): Block {
    su.mac(keys, chain, Covered(f.(data := f.data + Zeros(S.MAC_TAG_SIZE))))
  }

  // ----- Sequence numbers -----

  const SEQUENCE_ROTATION: Octet := 3

  /** The cycle over the nonzero numbers; zero leads into it and is not on it. */
  function Rotate(sequence: Octet): Octet {
    if sequence >= SEQUENCE_ROTATION then 1 else sequence + 1
  }

  // ----- osdp_KEYSET -----

  const KEY_SCBK: Octet := 0x01

  function KeySetCommand(key: Block): Message {
    Message(KEYSET, [KEY_SCBK, 16] + key)
  }

  /** Type and key as the payload's own length octet delimits them. */
  function ParseKeySet(data: seq<Octet>): Option<(Octet, seq<Octet>)> {
    if |data| < 2 || |data| - 2 < Nat(data[1]) then None
    else Some((data[0], data[2..2 + Nat(data[1])]))
  }

  /** The key a key set hands over, when its type and length are those of a base key. */
  function KeyIn(m: Message): Option<Block> {
    match ParseKeySet(m.data)
    case None => None
    case Some((kind, key)) => if kind == KEY_SCBK && |key| == BLOCK_SIZE then Some(key) else None
  }

  lemma KeySetRoundTrip(key: Block)
    ensures KeyIn(KeySetCommand(key)) == Some(key)
  {
    var data := KeySetCommand(key).data;
    assert Nat(data[1]) == 16;
    assert data[2..18] == key;
  }

  // ----- osdp_COMSET and osdp_COM -----

  const COMMUNICATION_SIZE: nat := 5

  /** The address asked for, with the four octets of line speed left as they are. */
  function ParseCommunication(data: seq<Octet>): Option<(Octet, seq<Octet>)> {
    if |data| < COMMUNICATION_SIZE then None else Some((data[0], data[1..COMMUNICATION_SIZE]))
  }

  // ----- Capability reports -----

  datatype Capability = Capability(function_: Octet, compliance: Octet, items: Octet)

  const FUNC_COMM_SECURITY: Octet := 0x09
  const FUNC_RECEIVE_BUFFER: Octet := 0x0A

  function AppendCapabilities(report: seq<Capability>): (s: seq<Octet>)
    ensures |s| == 3 * |report|
  {
    if report == [] then []
    else [report[0].function_, report[0].compliance, report[0].items] + AppendCapabilities(report[1..])
  }

  function ParseCapabilities(data: seq<Octet>): Option<seq<Capability>> {
    if |data| % 3 != 0 then None else Some(CapabilityEntries(data))
  }

  function CapabilityEntries(data: seq<Octet>): seq<Capability>
    requires |data| % 3 == 0
  {
    if data == [] then [] else [Capability(data[0], data[1], data[2])] + CapabilityEntries(data[3..])
  }

  lemma {:induction false} CapabilityRoundTrip(report: seq<Capability>)
    ensures ParseCapabilities(AppendCapabilities(report)) == Some(report)
  {
    if report != [] {
      var data := AppendCapabilities(report);
      CapabilityRoundTrip(report[1..]);
      assert data[3..] == AppendCapabilities(report[1..]);
      assert report == [report[0]] + report[1..];
    }
  }

  /** The first entry for a function, as the accessors of a report return it. */
  function FindCapability(report: seq<Capability>, function_: Octet): Option<Capability> {
    if report == [] then None
    else if report[0].function_ == function_ then Some(report[0])
    else FindCapability(report[1..], function_)
  }

  predicate ClaimsSecureChannel(report: seq<Capability>) {
    var c := FindCapability(report, FUNC_COMM_SECURITY);
    c.Some? && c.value.compliance & 1 != 0
  }

  /** Zero when the device reported no receive buffer. */
  function ReceiveBufferSize(report: seq<Capability>): nat {
    var c := FindCapability(report, FUNC_RECEIVE_BUFFER);
    if c.None? then 0 else 256 * Nat(c.value.items) + Nat(c.value.compliance)
  }

  // ----- Contact reports -----

  datatype StatusKind = StatusInput | StatusOutput | StatusTamper | StatusPower | StatusLocal

  datatype StatusChange = StatusChange(kind: StatusKind, index: nat, active: bool)

  function ParseContacts(kind: StatusKind, data: seq<Octet>): seq<StatusChange> {
    seq(|data|, i requires 0 <= i < |data| => StatusChange(kind, i, data[i] != 0))
  }

  function ParseLocalStatus(data: seq<Octet>): Option<seq<StatusChange>> {
    if |data| < 2 then None
    else Some([StatusChange(StatusTamper, 0, data[0] != 0), StatusChange(StatusPower, 0, data[1] != 0)])
  }

  // ----- Payloads the panel only checks for length -----

  const DEVICE_ID_SIZE: nat := 12

  predicate WholeCardRead(data: seq<Octet>) {
    |data| >= 4 && |data| - 4 >= (LengthField(data[2], data[3]) + 7) / 8
  }

  predicate WholeKeypadEntry(data: seq<Octet>) {
    |data| >= 2 && |data| - 2 >= Nat(data[1])
  }
}
