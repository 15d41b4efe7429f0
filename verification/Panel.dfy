/** One device as the control panel sees it: internal/bus. Every step is a function of the device record. */
module Panel {
  import opened Octets
  import opened Frames
  import opened Messages
  import Check
  import Cipher
  import S = Sessions
  import Status

  const OFFLINE_THRESHOLD: nat := 3

  datatype State = Offline | Identifying | Online | SecureHandshake | Secure

  /** What is fixed for the whole bus: the check scheme and the secure channel configuration. */
  datatype Bus = Bus(scheme: Check.Scheme, secureEnabled: bool, suite: S.Suite, keys: Octet -> Option<Cipher.Block>)

  /** A handshake command waiting to be sent, and the block that carries it. */
  datatype SecureStep = SecureStep(message: Message, block: Octet)

  /** The commands for the device and the numbering of exchanges: outbox.go, sequence.go, busy.go. */
  datatype Queue = Queue(
    outbox: seq<Message>, inflight: Option<Message>, released: Option<Message>, acknowledged: Octet,
    repeatSequence: bool, deferCommands: bool, sequence: Octet, misses: nat)

  /** The secure channel and the keys it is built on: session.go, secure.go, keyset.go. */
  datatype Channel = Channel(
    session: Option<S.Session>, pending: Option<SecureStep>, pendingKey: Option<Cipher.Block>,
    installedKey: Option<Cipher.Block>, secureDeclined: bool)

  datatype Device = Device(
    address: Octet, state: State, caps: seq<Capability>, status: Status.Known, queue: Queue, channel: Channel)

  function NewDevice(address: Octet): Device {
    Device(address, Offline, [], map[], Queue([], None, None, 0, false, false, 0, 0), Channel(None, None, None, None, false))
  }

  datatype Event =
    | NoEvent | WentOnline | WentOffline | Identified | CardRead | KeypadEntry | Refused | Resynced | Manufacturer
    | CapabilitiesReported | BecameSecure | StatusChanged(changes: seq<StatusChange>) | DeviceBusy | Moved
    | KeyInstalled | SecureFailed

  datatype ReplyError = NotAReply | WrongAddress | ShortPayload

  // ----- The outbox: outbox.go -----

  function Enqueue(q: Queue, m: Message): Queue {
    q.(outbox := q.outbox + [m])
  }

  /** Whatever is queued, now in flight, or a poll. */
  function Outbound(q: Queue): (Queue, Message) {
    if q.outbox == [] then (q, Poll())
    else (q.(outbox := q.outbox[1..], inflight := Some(q.outbox[0])), q.outbox[0])
  }

  function Delivered(q: Queue): Queue {
    if q.inflight.None? then q.(acknowledged := POLL, released := None)
    else q.(acknowledged := q.inflight.value.code, released := q.inflight, inflight := None)
  }

  function Requeue(q: Queue): Queue {
    if q.inflight.None? then q else q.(outbox := [q.inflight.value] + q.outbox, inflight := None)
  }

  function Reclaim(q: Queue): Queue {
    if q.released.None? then q else Requeue(q.(inflight := q.released, released := None))
  }

  function Retransmit(q: Queue): Queue {
    if q.inflight.None? then q else Requeue(q).(repeatSequence := true)
  }

  // ----- The sequence number: sequence.go -----

  function NextSequence(q: Queue): Queue {
    if q.repeatSequence then q.(repeatSequence := false) else q.(sequence := Rotate(q.sequence))
  }

  /** The queue's part of starting the exchange over. */
  function Restart(q: Queue): Queue {
    Requeue(q).(sequence := 0, repeatSequence := false)
  }

  // ----- The session: session.go, keyset.go, secure.go -----

  predicate Established(c: Channel) {
    c.session.Some? && c.session.value.phase == S.Established
  }

  predicate SecureEstablished(d: Device) {
    Established(d.channel)
  }

  predicate WithholdsKeySet(d: Device) {
    d.queue.outbox != [] && d.queue.outbox[0].code == KEYSET && !SecureEstablished(d)
  }

  function DropSession(c: Channel): Channel {
    c.(session := None, pending := None)
  }

  function AbandonSecure(c: Channel): Channel {
    DropSession(c).(secureDeclined := true)
  }

  function Resync(d: Device): Device {
    d.(state := Offline, queue := Restart(d.queue), channel := DropSession(d.channel))
  }

  function BaseKey(bus: Bus, d: Device): Option<Cipher.Block> {
    if d.channel.installedKey.Some? then d.channel.installedKey else bus.keys(d.address)
  }

  function AfterCapabilities(bus: Bus, d: Device): Device {
    if !bus.secureEnabled || d.channel.secureDeclined then d.(state := Online)
    else if !ClaimsSecureChannel(d.caps) || BaseKey(bus, d).None? then
      d.(state := Online, channel := d.channel.(secureDeclined := true))
    else
      d.(state := SecureHandshake, channel := d.channel.(session := Some(S.NewSession(S.CP, BaseKey(bus, d).value))))
  }

  function SecureFailure(d: Device): Device {
    d.(state := Online, channel := AbandonSecure(d.channel))
  }

  /** The step that is pending, if there is one; a challenge otherwise. */
  function HandshakeCommand(d: Device, rndA: Cipher.Nonce): (Device, Message, Option<Octet>) {
    if d.channel.pending.Some? then
      (d.(channel := d.channel.(pending := None)), d.channel.pending.value.message, Some(d.channel.pending.value.block))
    else if d.channel.session.None? then (SecureFailure(d), Poll(), None)
    else
      var (s, r) := S.BeginChallenge(d.channel.session.value, rndA);
      match r
      case Err(_) => (SecureFailure(d), Poll(), None)
      case Ok(chlng) => (d.(channel := d.channel.(session := Some(s))), Message(CHLNG, chlng), Some(SCS_11))
  }

  function BlockForCommand(dataLen: nat): Octet {
    if dataLen > 0 then SCS_17 else SCS_15
  }

  // ----- Choosing and composing the next command: compose.go, seal.go -----

  function CommandFor(d: Device, rndA: Cipher.Nonce): (Device, Message, Option<Octet>) {
    match d.state
    case Offline => (d, Message(ID, [0]), None)
    case Identifying => (d, Message(CAP, [0]), None)
    case SecureHandshake => HandshakeCommand(d, rndA)
    case Secure =>
      if d.queue.deferCommands then
        (d.(queue := d.queue.(deferCommands := false)), Poll(), Some(BlockForCommand(0)))
      else if WithholdsKeySet(d) then (d, Poll(), Some(BlockForCommand(0)))
      else
        var (q, m) := Outbound(d.queue);
        (d.(queue := q), m, Some(BlockForCommand(|m.data|)))
    case Online =>
      if d.queue.deferCommands then (d.(queue := d.queue.(deferCommands := false)), Poll(), None)
      else if WithholdsKeySet(d) then (d, Poll(), None)
      else
        var (q, m) := Outbound(d.queue);
        (d.(queue := q), m, None)
  }

  /** Reserves room for the tag, authenticates everything before it and writes it in. */
  function Authenticated(su: S.Suite, s: S.Session, f: Frame, isCommand: bool): (S.Session, Result<Frame, Cipher.SecureError>) {
    var reserved := f.(data := f.data + Zeros(S.MAC_TAG_SIZE));
    var (s1, tag) := S.Authenticate(su, s, Covered(reserved), isCommand);
    match tag
    case Err(e) => (s1, Err(e))
    case Ok(t) => (s1, Ok(f.(data := f.data + t)))
  }

  function ComposePlain(bus: Bus, d: Device, m: Message): (Device, Option<Frame>) {
    var d1 := d.(queue := NextSequence(d.queue));
    match Encode(m, false, d.address, d1.queue.sequence, bus.scheme)
    case Err(_) => (d1, None)
    case Ok(f) => (d1, Some(f))
  }

  function ComposeHandshake(bus: Bus, d: Device, m: Message, kind: Octet): (Device, Option<Frame>) {
    var d1 := d.(queue := NextSequence(d.queue));
    match EncodeSecure(m, false, d.address, d1.queue.sequence, bus.scheme, SecurityBlock(kind, []))
    case Err(_) => (d1, None)
    case Ok(f) => (d1, Some(Frames.Seal(f)))
  }

  /** A command under an established block, and the command chain it leaves. */
  function ComposeSealed(bus: Bus, d: Device, m: Message, kind: Octet): (Device, Option<Frame>) {
    if d.channel.session.None? then (d, None)
    else
      var s := d.channel.session.value;
      var payload := if EncryptedBlock(kind) then S.Seal(bus.suite, s, m.data, true) else Ok(m.data);
      match payload
      case Err(_) => (d, None)
      case Ok(data) =>
        var q := NextSequence(d.queue);
        match EncodeSecure(Message(m.code, data), false, d.address, q.sequence, bus.scheme, SecurityBlock(kind, []))
        case Err(_) => (d.(queue := q), None)
        case Ok(f) =>
          var (s1, r) := Authenticated(bus.suite, s, f, true);
          var d1 := d.(queue := q, channel := d.channel.(session := Some(s1)));
          match r
          case Err(_) => (d1, None)
          case Ok(g) => (d1, Some(Frames.Seal(g)))
  }

  function Compose(bus: Bus, d: Device, m: Message, block: Option<Octet>): (Device, Option<Frame>) {
    match block
    case None => ComposePlain(bus, d, m)
    case Some(kind) =>
      if EstablishedBlock(kind) then ComposeSealed(bus, d, m, kind) else ComposeHandshake(bus, d, m, kind)
  }

  /** One call of Next for this device: the frame to transmit, and nothing when it cannot be composed. */
  function Next(bus: Bus, d: Device, rndA: Cipher.Nonce): (Device, Option<Frame>) {
    var (d1, m, block) := CommandFor(d, rndA);
    Compose(bus, d1, m, block)
  }

  // ----- Replies: reply.go, seal.go, busy.go, comset.go -----

  function OpenReply(su: S.Suite, s: S.Session, f: Frame): (S.Session, Result<seq<Octet>, Cipher.SecureError>) {
    if f.security.None? || |f.data| < S.MAC_TAG_SIZE then (s, Err(Cipher.MACMismatch))
    else
      var split := |f.data| - S.MAC_TAG_SIZE;
      var (s1, verified) := S.Verify(su, s, Covered(f), f.data[split..], false);
      match verified
      case Err(e) => (s1, Err(e))
      case Ok(_) =>
        if !EncryptedBlock(f.security.value.kind) then (s1, Ok(f.data[..split]))
        else (s1, S.Open(su, s1, f.data[..split], false))
  }

  function OnStatus(d: Device, reported: Option<seq<StatusChange>>): (Device, Result<Event, ReplyError>) {
    match reported
    case None => (d, Err(ShortPayload))
    case Some(changes) =>
      var (status, changed) := Status.Report(d.status, changes);
      (d.(status := status), Ok(if changed == [] then NoEvent else StatusChanged(changed)))
  }

  function OnCryptogram(bus: Bus, d: Device, data: seq<Octet>): (Device, Result<Event, ReplyError>) {
    if d.channel.session.None? then (SecureFailure(d), Ok(SecureFailed))
    else
      var (s, r) := S.AnswerCryptogram(bus.suite, d.channel.session.value, data);
      match r
      case Err(_) => (SecureFailure(d), Ok(SecureFailed))
      case Ok(scrypt) =>
        var step := SecureStep(Message(SCRYPT, scrypt), SCS_13);
        (d.(channel := d.channel.(session := Some(s), pending := Some(step))), Ok(NoEvent))
  }

  function OnInitialRMAC(bus: Bus, d: Device, data: seq<Octet>): (Device, Result<Event, ReplyError>) {
    if d.channel.session.None? then (SecureFailure(d), Ok(SecureFailed))
    else
      var (s, r) := S.CompleteHandshake(bus.suite, d.channel.session.value, data);
      match r
      case Err(_) => (SecureFailure(d), Ok(SecureFailed))
      case Ok(_) => (d.(state := Secure, channel := d.channel.(session := Some(s))), Ok(BecameSecure))
  }

  predicate AwaitingKeySet(d: Device) {
    d.channel.pendingKey.Some? && d.queue.acknowledged == KEYSET
  }

  function OnKeyInstalled(d: Device): Device {
    var c := d.channel;
    d.(state := Identifying, channel := DropSession(c.(installedKey := c.pendingKey, pendingKey := None)))
  }

  /** A reply that only shows the device is there. */
  function Answering(d: Device): (Device, Result<Event, ReplyError>) {
    if d.state == Offline then (d.(state := Identifying), Ok(WentOnline)) else (d, Ok(NoEvent))
  }

  function OnCapabilities(bus: Bus, d: Device, data: seq<Octet>): (Device, Result<Event, ReplyError>) {
    match ParseCapabilities(data)
    case None => (d, Err(ShortPayload))
    case Some(report) =>
      var d1 := AfterCapabilities(bus, d.(caps := report));
      (d1, Ok(if d1.state == SecureHandshake then CapabilitiesReported else WentOnline))
  }

  function OnCommunication(d: Device, data: seq<Octet>): (Device, Result<Event, ReplyError>) {
    match ParseCommunication(data)
    case None => (d, Err(ShortPayload))
    case Some((address, _)) => (Resync(d.(address := address)), Ok(Moved))
  }

  function Dispatch(bus: Bus, d: Device, m: Message): (Device, Result<Event, ReplyError>) {
    if m.code == PDID then
      if |m.data| < DEVICE_ID_SIZE then (d, Err(ShortPayload)) else (d.(state := Identifying), Ok(Identified))
    else if m.code == PDCAP then OnCapabilities(bus, d, m.data)
    else if m.code == ISTATR then OnStatus(d, Some(ParseContacts(StatusInput, m.data)))
    else if m.code == OSTATR then OnStatus(d, Some(ParseContacts(StatusOutput, m.data)))
    else if m.code == LSTATR then OnStatus(d, ParseLocalStatus(m.data))
    else if m.code == RSTATR then OnStatus(d, Some(ParseContacts(StatusLocal, m.data)))
    else if m.code == CCRYPT then OnCryptogram(bus, d, m.data)
    else if m.code == RMAC_I then OnInitialRMAC(bus, d, m.data)
    else if m.code == RAW then
      (d, if WholeCardRead(m.data) then Ok(CardRead) else Err(ShortPayload))
    else if m.code == KEYPAD then
      (d, if WholeKeypadEntry(m.data) then Ok(KeypadEntry) else Err(ShortPayload))
    else if m.code == NAK then
      if m.data == [] then (d, Err(ShortPayload)) else (d.(channel := d.channel.(pendingKey := None)), Ok(Refused))
    else if m.code == MFGREP then
      (d, if |m.data| >= 3 then Ok(Manufacturer) else Err(ShortPayload))
    else if m.code == COM then OnCommunication(d, m.data)
    else if m.code == BUSY then (d.(queue := Reclaim(d.queue).(deferCommands := true)), Ok(DeviceBusy))
    else if m.code == ACK && AwaitingKeySet(d) then (OnKeyInstalled(d), Ok(KeyInstalled))
    else Answering(d)
  }

  /** The device's answer to a frame that reached it, once the frame is known to be its own. */
  function Accepted(bus: Bus, d: Device, code: Octet, payload: seq<Octet>): (Device, Result<Event, ReplyError>) {
    Dispatch(bus, d.(queue := Delivered(d.queue)), Message(code, payload))
  }

  function Reply(bus: Bus, d: Device, f: Frame): (Device, Result<Event, ReplyError>) {
    if !f.isReply then (d, Err(NotAReply))
    else if f.address != d.address then (d, Err(WrongAddress))
    else
      var d1 := d.(queue := d.queue.(misses := 0));
      if Sequence(f.control) == 0 then (Resync(d1), Ok(Resynced))
      else if SecureEstablished(d1) then
        var (s, payload) := OpenReply(bus.suite, d1.channel.session.value, f);
        match payload
        case Err(_) => (Resync(d1), Ok(SecureFailed))
        case Ok(data) => Accepted(bus, d1.(channel := d1.channel.(session := Some(s))), f.code, data)
      else Accepted(bus, d1, f.code, f.data)
  }

  // ----- Silence: timeout.go -----

  function Timeout(d: Device): (Device, Event) {
    var d1 := d.(queue := Retransmit(d.queue.(misses := d.queue.misses + 1)));
    if d1.queue.misses < OFFLINE_THRESHOLD || d1.state == Offline then (d1, NoEvent)
    else (Resync(d1), WentOffline)
  }

  // ----- Submission: bus.go, keyset.go, size.go -----

  /** The octets a command will occupy once framed, the secure channel included. */
  function WireLength(bus: Bus, d: Device, m: Message): nat {
    var payload := |m.data|;
    if SecureEstablished(d) then
      HEADER_SIZE + 2 + 1 + ((if payload > 0 then Cipher.PaddedLen(payload) else 0) + S.MAC_TAG_SIZE) + bus.scheme.Size()
    else HEADER_SIZE + 1 + payload + bus.scheme.Size()
  }

  predicate Fits(bus: Bus, d: Device, m: Message) {
    ReceiveBufferSize(d.caps) == 0 || WireLength(bus, d, m) <= ReceiveBufferSize(d.caps)
  }

  function Send(bus: Bus, d: Device, m: Message): (Device, bool) {
    if Fits(bus, d, m) then (d.(queue := Enqueue(d.queue, m)), true) else (d, false)
  }

  function InstallKey(d: Device, key: Cipher.Block): (Device, bool) {
    if !SecureEstablished(d) then (d, false)
    else
      (d.(queue := Enqueue(d.queue, KeySetCommand(key)), channel := d.channel.(pendingKey := Some(key))), true)
  }

  // ----- One exchange, as internal/panel/cycle.go drives it -----

  /** The end of an exchange: the reply when it is attributed, and silence otherwise. */
  function Conclude(bus: Bus, d: Device, answer: Option<Frame>): (Device, Event) {
    match answer
    case None => Timeout(d)
    case Some(f) =>
      var (d1, r) := Reply(bus, d, f);
      match r
      case Ok(e) => (d1, e)
      case Err(_) => Timeout(d1)
  }
}
