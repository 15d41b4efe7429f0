/** A peripheral device: internal/pd. Every step is a function of the device record. */
module Reader {
  import opened Octets
  import opened Frames
  import opened Messages
  import Check
  import Cipher
  import S = Sessions

  const OUTPUT_ENTRY_SIZE: nat := 4

  /** The osdp_PDID payload. Its first eight octets are the cUID the device answers a challenge with. */
  type Identity = s: seq<Octet> | |s| == DEVICE_ID_SIZE witness Zeros(DEVICE_ID_SIZE)

  /** What New fixes. */
  datatype Config = Config(
    identity: Identity, capabilities: Option<seq<Capability>>, inputs: nat, outputs: nat, readers: nat,
    queue: nat, timeout: nat, configAddr: bool, strict: bool, secure: bool, suite: S.Suite, key: Cipher.Block)

  predicate ValidConfig(cfg: Config) {
    cfg.inputs < 256 && cfg.outputs < 256 && cfg.readers < 256 && cfg.queue >= 1
  }

  /** What one call brings in from outside: the clock, a fresh random, and the application's answer to a
      command outside the table. */
  datatype Env = Env(now: int, rndB: Cipher.Nonce, handler: Option<Message>)

  datatype Points = Points(inputs: seq<bool>, outputs: seq<bool>, tamper: bool, powerFailure: bool)

  /** The single cached reply and the number it was given for. */
  datatype Cache = Cache(valid: bool, sequence: Octet, reply: Frame)

  datatype Device = Device(
    address: Octet, points: Points, capabilities: seq<Capability>, key: Cipher.Block, session: Option<S.Session>,
    pending: seq<Message>, seen: bool, lastSeen: int, cache: Cache,
    adopting: Option<Octet>, adoptingKey: Option<Cipher.Block>)

  datatype HandleError = NotCommand | Corrupt | NotAddressed | Unencodable

  const EmptyFrame := Frame(false, false, 0, 0, None, 0, [], 0)
  const EmptyCache := Cache(false, 0, EmptyFrame)

  const DefaultKey: Cipher.Block :=
    [0x30, 0x31, 0x32, 0x33, 0x34, 0x35, 0x36, 0x37, 0x38, 0x39, 0x3A, 0x3B, 0x3C, 0x3D, 0x3E, 0x3F]

  // ----- Identity: device.go, identity.go -----

  function DefaultCapabilities(cfg: Config, defaultKey: bool): seq<Capability> {
    [Capability(0x01, 1, Low(cfg.inputs)), Capability(0x02, 1, Low(cfg.outputs)), Capability(0x03, 1, 0), Capability(0x08, 1, 0),
     Capability(FUNC_COMM_SECURITY, if cfg.secure then 1 else 0, if defaultKey then 1 else 0),
     Capability(FUNC_RECEIVE_BUFFER, 128, 0), Capability(0x0D, 1, Low(cfg.readers)), Capability(0x10, 2, 0)]
  }

  function CapabilitiesFor(cfg: Config, key: Cipher.Block): seq<Capability> {
    if cfg.capabilities.Some? then cfg.capabilities.value else DefaultCapabilities(cfg, cfg.secure && key == DefaultKey)
  }

  function New(cfg: Config, address: Octet): Device {
    Device(address, Points(seq(cfg.inputs, _ => false), seq(cfg.outputs, _ => false), false, false),
           CapabilitiesFor(cfg, cfg.key), cfg.key, None, [], false, 0, EmptyCache, None, None)
  }

  // ----- Who is being spoken to: handle.go -----

  function Screen(f: Frame): Option<HandleError> {
    if f.isReply then Some(NotCommand) else if !CheckOK(f) then Some(Corrupt) else None
  }

  predicate Addressed(cfg: Config, d: Device, a: Octet) {
    a == d.address || (cfg.configAddr && a == BROADCAST)
  }

  function Restart(d: Device): Device {
    d.(cache := EmptyCache, session := None)
  }

  function Observe(cfg: Config, d: Device, now: int): Device {
    var d1 := if d.seen && cfg.timeout > 0 && now - d.lastSeen > cfg.timeout then Restart(d) else d;
    d1.(seen := true, lastSeen := now)
  }

  // ----- Contacts and outputs: status.go, control.go -----

  function BoolOctet(active: bool): Octet {
    if active then 1 else 0
  }

  function ContactStatus(code: Octet, state: seq<bool>): Message {
    Message(code, seq(|state|, i requires 0 <= i < |state| => BoolOctet(state[i])))
  }

  function LocalStatus(p: Points): Message {
    Message(LSTATR, [BoolOctet(p.tamper), BoolOctet(p.powerFailure)])
  }

  datatype OutputAction = UnknownAction | Leave | Deenergise | Energise

  function OutputActionFor(control: Octet): OutputAction {
    if control == 0x00 then Leave
    else if control == 0x01 || control == 0x03 || control == 0x06 then Deenergise
    else if control == 0x02 || control == 0x04 || control == 0x05 then Energise
    else UnknownAction
  }

  /** The entry that begins at octet i names an output that exists and an action that is known. */
  predicate EntryValid(outputs: nat, data: seq<Octet>, i: nat)
    requires i + 1 < |data|
  {
    Nat(data[i]) < outputs && OutputActionFor(data[i + 1]) != UnknownAction
  }

  predicate EntriesValid(outputs: nat, data: seq<Octet>)
    requires |data| % OUTPUT_ENTRY_SIZE == 0
  {
    data == [] || (EntryValid(outputs, data, 0) && EntriesValid(outputs, data[OUTPUT_ENTRY_SIZE..]))
  }

  function ApplyEntry(outputs: seq<bool>, number: nat, action: OutputAction): seq<bool>
    requires number < |outputs|
  {
    if action == Deenergise then outputs[number := false]
    else if action == Energise then outputs[number := true]
    else outputs
  }

  /** The outputs after every entry of a payload, in order. */
  function FoldOutputs(outputs: seq<bool>, data: seq<Octet>): (r: seq<bool>)
    requires |data| % OUTPUT_ENTRY_SIZE == 0 && EntriesValid(|outputs|, data)
    ensures |r| == |outputs|
    decreases |data|
  {
    if data == [] then outputs
    else FoldOutputs(ApplyEntry(outputs, Nat(data[0]), OutputActionFor(data[1])), data[OUTPUT_ENTRY_SIZE..])
  }

  function ApplyOutputs(d: Device, data: seq<Octet>): (Device, Message) {
    if data == [] || |data| % OUTPUT_ENTRY_SIZE != 0 then (d, Nak(NAK_COMMAND_LENGTH))
    else if !EntriesValid(|d.points.outputs|, data) then (d, Nak(NAK_UNSUPPORTED_INPUT))
    else (d.(points := d.points.(outputs := FoldOutputs(d.points.outputs, data))), Ack())
  }

  function ApplyCommunication(d: Device, data: seq<Octet>): (Device, Message) {
    match ParseCommunication(data)
    case None => (d, Nak(NAK_COMMAND_LENGTH))
    case Some((address, baud)) =>
      if !ValidAddress(address) || address == BROADCAST then (d, Nak(NAK_UNSUPPORTED_INPUT))
      else (d.(adopting := Some(address)), Message(COM, [address] + baud))
  }

  function InstallKey(d: Device, data: seq<Octet>): (Device, Message) {
    match ParseKeySet(data)
    case None => (d, Nak(NAK_COMMAND_LENGTH))
    case Some((kind, key)) =>
      if kind != KEY_SCBK || |key| != Cipher.BLOCK_SIZE then (d, Nak(NAK_UNSUPPORTED_INPUT))
      else (d.(adoptingKey := Some(key)), Ack())
  }

  // ----- Events waiting for a poll: report.go -----

  function PollReply(d: Device): (Device, Message) {
    if d.pending == [] then (d, Ack()) else (d.(pending := d.pending[1..]), d.pending[0])
  }

  function Queue(cfg: Config, pending: seq<Message>, m: Message): (seq<Message>, bool) {
    if |pending| >= cfg.queue then (pending, false) else (pending + [m], true)
  }

  /** The first waiting report with this code, or the length of the queue. */
  function FirstWith(pending: seq<Message>, code: Octet): (k: nat)
    ensures k <= |pending|
    ensures k < |pending| ==> pending[k].code == code
    ensures forall i :: 0 <= i < k ==> pending[i].code != code
  {
    if pending == [] || pending[0].code == code then 0 else 1 + FirstWith(pending[1..], code)
  }

  function Coalesce(cfg: Config, pending: seq<Message>, m: Message): (seq<Message>, bool) {
    var k := FirstWith(pending, m.code);
    if k < |pending| then (pending[k := m], true) else Queue(cfg, pending, m)
  }

  // ----- The command table: dispatch.go -----

  function Delegate(env: Env): Message {
    if env.handler.Some? then env.handler.value else Nak(NAK_UNKNOWN_COMMAND)
  }

  function Dispatch(cfg: Config, d: Device, m: Message, secured: bool, env: Env): (Device, Message) {
    if m.code == POLL then PollReply(d)
    else if m.code == ID then (d, Message(PDID, cfg.identity))
    else if m.code == CAP then (d, Message(PDCAP, AppendCapabilities(d.capabilities)))
    else if m.code == LSTAT then (d, LocalStatus(d.points))
    else if m.code == ISTAT then (d, ContactStatus(ISTATR, d.points.inputs))
    else if m.code == OSTAT then (d, ContactStatus(OSTATR, d.points.outputs))
    else if m.code == RSTAT then (d, Message(RSTATR, Zeros(cfg.readers)))
    else if m.code == OUT then ApplyOutputs(d, m.data)
    else if m.code == COMSET then ApplyCommunication(d, m.data)
    else if m.code == LED || m.code == BUZ || m.code == TEXT || m.code == KEEPACTIVE || m.code == ABORT || m.code == ACURXSIZE then
      (d, Ack())
    else if m.code == CHLNG || m.code == SCRYPT then
      (d, Nak(if cfg.secure then NAK_SECURE_REQUIRED else NAK_ENCRYPTION_UNSUPPORTED))
    else if m.code == KEYSET then
      if !secured then (d, Nak(NAK_SECURE_REQUIRED)) else InstallKey(d, m.data)
    else (d, Delegate(env))
  }

  // ----- The secure channel: handshake.go, sealed.go, secure.go -----

  predicate Established(d: Device) {
    d.session.Some? && d.session.value.phase == S.Established
  }

  function AnswerChallenge(cfg: Config, d: Device, chlng: seq<Octet>, rndB: Cipher.Nonce): (Device, Message, Option<Octet>) {
    var (s, r) := S.AnswerChallenge(cfg.suite, S.NewSession(S.PD, d.key), chlng, rndB, cfg.identity[..8]);
    match r
    case Err(_) => (d.(session := None), Nak(NAK_COMMAND_LENGTH), None)
    case Ok(ccrypt) => (d.(session := Some(s)), Message(CCRYPT, ccrypt), Some(SCS_12))
  }

  function AnswerCryptogram(cfg: Config, d: Device, scrypt: seq<Octet>): (Device, Message, Option<Octet>) {
    if d.session.None? then (d, Nak(NAK_SECURE_REQUIRED), None)
    else
      var (s, r) := S.AnswerServerCryptogram(cfg.suite, d.session.value, scrypt);
      match r
      case Err(_) => (d.(session := None), Nak(NAK_SECURE_REQUIRED), None)
      case Ok(rmac) => (d.(session := Some(s)), Message(RMAC_I, rmac), Some(SCS_14))
  }

  /** Verifies a command before anything reads it, then deciphers what it verified. */
  function Open(su: S.Suite, s: S.Session, f: Frame): (S.Session, Result<seq<Octet>, Cipher.SecureError>) {
    if |f.data| < S.MAC_TAG_SIZE then (s, Err(Cipher.MACMismatch))
    else
      var split := |f.data| - S.MAC_TAG_SIZE;
      var (s1, verified) := S.Verify(su, s, Covered(f), f.data[split..], true);
      match verified
      case Err(e) => (s1, Err(e))
      case Ok(_) =>
        if f.security.None? || !EncryptedBlock(f.security.value.kind) then (s1, Ok(f.data[..split]))
        else (s1, S.Open(su, s1, f.data[..split], true))
  }

  function ReplyBlock(payload: nat): Octet {
    if payload > 0 then SCS_18 else SCS_16
  }

  function AnswerEstablished(cfg: Config, d: Device, f: Frame, env: Env): (Device, Message, Option<Octet>) {
    if !Established(d) then (d, Nak(NAK_SECURE_REQUIRED), None)
    else
      var (s, payload) := Open(cfg.suite, d.session.value, f);
      match payload
      case Err(_) => (d.(session := None), Nak(NAK_SECURE_REQUIRED), None)
      case Ok(data) =>
        var (d1, m) := Dispatch(cfg, d.(session := Some(s)), Message(f.code, data), true, env);
        (d1, m, Some(ReplyBlock(|m.data|)))
  }

  function AnswerSecure(cfg: Config, d: Device, f: Frame, kind: Octet, env: Env): (Device, Message, Option<Octet>) {
    if !cfg.secure then (d, Nak(NAK_ENCRYPTION_UNSUPPORTED), None)
    else if kind == SCS_11 then AnswerChallenge(cfg, d, f.data, env.rndB)
    else if kind == SCS_13 then AnswerCryptogram(cfg, d, f.data)
    else if kind == SCS_15 || kind == SCS_17 then AnswerEstablished(cfg, d, f, env)
    else (d, Nak(NAK_ENCRYPTION_UNSUPPORTED), None)
  }

  /** In the clear, a command is dispatched or costs the session. */
  function Answer(cfg: Config, d: Device, f: Frame, env: Env): (Device, Message, Option<Octet>) {
    if f.security.Some? then AnswerSecure(cfg, d, f, f.security.value.kind, env)
    else if Established(d) then (d.(session := None), Nak(NAK_SECURE_REQUIRED), None)
    else
      var (d1, m) := Dispatch(cfg, d, Message(f.code, f.data), false, env);
      (d1, m, None)
  }

  function AnswerFor(cfg: Config, d: Device, f: Frame, env: Env): (Device, Message, Option<Octet>) {
    if cfg.strict && d.cache.valid && Sequence(f.control) != Rotate(d.cache.sequence) then (d, Nak(NAK_SEQUENCE), None)
    else Answer(cfg, d, f, env)
  }

  // ----- Building the reply: cache.go -----

  /** A reply under an established block, and the reply chain it leaves. */
  function SealReply(cfg: Config, d: Device, m: Message, sequence: Octet, scheme: Check.Scheme, kind: Octet): (Device, Option<Frame>) {
    if d.session.None? then (d, None)
    else
      var s := d.session.value;
      var payload := if EncryptedBlock(kind) then S.Seal(cfg.suite, s, m.data, false) else Ok(m.data);
      match payload
      case Err(_) => (d, None)
      case Ok(data) =>
        var reserved := Message(m.code, data + Zeros(S.MAC_TAG_SIZE));
        match EncodeSecure(reserved, true, d.address, sequence, scheme, SecurityBlock(kind, []))
        case Err(_) => (d, None)
        case Ok(f) =>
          var (s1, tag) := S.Authenticate(cfg.suite, s, Covered(f), false);
          match tag
          case Err(_) => (d.(session := Some(s1)), None)
          case Ok(t) => (d.(session := Some(s1)), Some(Frames.Seal(f.(data := data + t))))
  }

  function EncodeReply(
    cfg: Config, d: Device, m: Message, sequence: Octet, scheme: Check.Scheme, block: Option<Octet>): (Device, Option<Frame>)
  {
    match block
    case None =>
      (d, match Encode(m, true, d.address, sequence, scheme) case Err(_) => None case Ok(f) => Some(f))
    case Some(kind) =>
      if HandshakeBlock(kind) then
        (d, match EncodeSecure(m, true, d.address, sequence, scheme, SecurityBlock(kind, [])) case Err(_) => None case Ok(f) => Some(Frames.Seal(f)))
      else SealReply(cfg, d, m, sequence, scheme, kind)
  }

  /** A key install takes effect once the reply confirming it is built. */
  function AdoptKey(cfg: Config, d: Device): Device {
    match d.adoptingKey
    case None => d
    case Some(key) => d.(adoptingKey := None, key := key, session := None, capabilities := CapabilitiesFor(cfg, key))
  }

  function AdoptAddress(d: Device): Device {
    match d.adopting
    case None => d
    case Some(address) => d.(adopting := None, address := address)
  }

  function Emit(cfg: Config, d: Device, sequence: Octet, scheme: Check.Scheme, m: Message, block: Option<Octet>): (Device, Option<Frame>) {
    var (d1, f) := EncodeReply(cfg, d, m, sequence, scheme, block);
    match f
    case None => (d1.(adopting := None, adoptingKey := None), None)
    case Some(reply) =>
      var cache := if sequence == 0 then d1.cache.(valid := false) else Cache(true, sequence, reply);
      (AdoptKey(cfg, AdoptAddress(d1.(cache := cache))), Some(reply))
  }

  // ----- One command: handle.go -----

  /** A repeat of the number last answered is answered from the cache, before anything else is consulted. */
  predicate Replays(d: Device, sequence: Octet) {
    sequence != 0 && d.cache.valid && sequence == d.cache.sequence
  }

  function Execute(cfg: Config, d: Device, f: Frame, env: Env): (Device, Option<Frame>) {
    var d1 := if Sequence(f.control) == 0 then Restart(d) else d;
    var (d2, m, block) := AnswerFor(cfg, d1, f, env);
    Emit(cfg, d2, Sequence(f.control), SchemeOf(f.control), m, block)
  }

  function Handle(cfg: Config, d: Device, f: Frame, env: Env): (Device, Result<Frame, HandleError>) {
    match Screen(f)
    case Some(e) => (d, Err(e))
    case None =>
      if !Addressed(cfg, d, f.address) then (d, Err(NotAddressed))
      else
        var d1 := Observe(cfg, d, env.now);
        if Replays(d1, Sequence(f.control)) then (d1, Ok(d1.cache.reply))
        else
          var (d2, reply) := Execute(cfg, d1, f, env);
          (d2, match reply case None => Err(Unencodable) case Some(r) => Ok(r))
  }

  // ----- What happens at the reader: report.go, status.go -----

  datatype Card = Card(reader: Octet, format: Octet, bitCount: nat, data: seq<Octet>)

  function AppendCardRead(c: Card): seq<Octet> {
    [c.reader, c.format, Low(c.bitCount), Low(c.bitCount / 256)] + c.data
  }

  /** At most 255 keys. */
  function AppendKeypad(reader: Octet, keys: seq<Octet>): seq<Octet> {
    var cut := if |keys| > 255 then keys[..255] else keys;
    [reader, Low(|cut|)] + cut
  }

  datatype Happening =
    | CardPresented(card: Card) | KeysPressed(reader: Octet, keys: seq<Octet>) | InputMoved(index: int, active: bool)
    | TamperMoved(active: bool) | PowerMoved(failure: bool)

  function QueueFor(cfg: Config, d: Device, m: Message): (Device, bool) {
    var (pending, ok) := Queue(cfg, d.pending, m);
    (d.(pending := pending), ok)
  }

  /** The contacts moved, and their report coalesced. */
  function Snapshot(cfg: Config, d: Device, points: Points, m: Message): (Device, bool) {
    var (pending, ok) := Coalesce(cfg, d.pending, m);
    (d.(points := points, pending := pending), ok)
  }

  function Happen(cfg: Config, d: Device, h: Happening): (Device, bool) {
    match h
    case CardPresented(c) =>
      if |c.data| < (c.bitCount + 7) / 8 then (d, false) else QueueFor(cfg, d, Message(RAW, AppendCardRead(c)))
    case KeysPressed(reader, keys) => QueueFor(cfg, d, Message(KEYPAD, AppendKeypad(reader, keys)))
    case InputMoved(index, active) =>
      if index < 0 || index >= |d.points.inputs| then (d, false)
      else
        var points := d.points.(inputs := d.points.inputs[index := active]);
        Snapshot(cfg, d, points, ContactStatus(ISTATR, points.inputs))
    case TamperMoved(active) =>
      var points := d.points.(tamper := active);
      Snapshot(cfg, d, points, LocalStatus(points))
    case PowerMoved(failure) =>
      var points := d.points.(powerFailure := failure);
      Snapshot(cfg, d, points, LocalStatus(points))
  }
}
