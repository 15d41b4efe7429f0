/** What the panel keeps over every run, whatever the line answers. */
module PanelRuns {
  import opened Octets
  import opened Frames
  import opened Messages
  import opened Panel
  import Check
  import Cipher
  import S = Sessions
  import Status

  // ----- What a reply does to the queue -----

  predicate MovesDevice(m: Message) {
    m.code == COM && |m.data| >= COMMUNICATION_SIZE
  }

  lemma HandlersKeepQueue(bus: Bus, d: Device, data: seq<Octet>, reported: Option<seq<StatusChange>>)
    ensures OnStatus(d, reported).0.queue == d.queue
    ensures OnCryptogram(bus, d, data).0.queue == d.queue
    ensures OnInitialRMAC(bus, d, data).0.queue == d.queue
    ensures OnCapabilities(bus, d, data).0.queue == d.queue
    ensures Answering(d).0.queue == d.queue
    ensures OnKeyInstalled(d).queue == d.queue
  {
    hide Status.Report, S.AnswerCryptogram, S.CompleteHandshake, ParseCapabilities, ClaimsSecureChannel, BaseKey;
  }

  function QueueAfterDispatch(q: Queue, m: Message): Queue {
    if m.code == BUSY then Reclaim(q).(deferCommands := true)
    else if MovesDevice(m) then Restart(q)
    else q
  }

  lemma DispatchQueue(bus: Bus, d: Device, m: Message)
    ensures Dispatch(bus, d, m).0.queue == QueueAfterDispatch(d.queue, m)
  {
    hide OnStatus, OnCryptogram, OnInitialRMAC, OnCapabilities, Answering, OnKeyInstalled, Reclaim, Restart,
      ParseContacts, ParseLocalStatus, WholeCardRead, WholeKeypadEntry, AwaitingKeySet;
    HandlersKeepQueue(bus, d, m.data, Some(ParseContacts(StatusInput, m.data)));
    HandlersKeepQueue(bus, d, m.data, Some(ParseContacts(StatusOutput, m.data)));
    HandlersKeepQueue(bus, d, m.data, ParseLocalStatus(m.data));
    HandlersKeepQueue(bus, d, m.data, Some(ParseContacts(StatusLocal, m.data)));
  }

  /** What the panel makes of a frame: not an answer to this exchange, a reason to start over, or an answer. */
  datatype Reading = Unattributed | StartsOver | Answer(message: Message)

  function Read(bus: Bus, d: Device, f: Frame): Reading {
    if !f.isReply || f.address != d.address then Unattributed
    else if Sequence(f.control) == 0 then StartsOver
    else if SecureEstablished(d) then
      var (s, payload) := OpenReply(bus.suite, d.channel.session.value, f);
      if payload.Err? then StartsOver else Answer(Message(f.code, payload.value))
    else Answer(Message(f.code, f.data))
  }

  function QueueAfterReply(q: Queue, r: Reading): Queue {
    match r
    case Unattributed => q
    case StartsOver => Restart(q.(misses := 0))
    case Answer(m) => QueueAfterDispatch(Delivered(q.(misses := 0)), m)
  }

  /** The device an accepted reply is dispatched on: the exchange is complete and the session has moved on. */
  function AtDispatch(bus: Bus, d: Device, f: Frame): Device {
    var q := Delivered(d.queue.(misses := 0));
    if SecureEstablished(d) then
      d.(queue := q, channel := d.channel.(session := Some(OpenReply(bus.suite, d.channel.session.value, f).0)))
    else d.(queue := q)
  }

  lemma ReplyIsDispatch(bus: Bus, d: Device, f: Frame)
    requires Read(bus, d, f).Answer?
    ensures Reply(bus, d, f) == Dispatch(bus, AtDispatch(bus, d, f), Read(bus, d, f).message)
  {
    hide OpenReply, Dispatch, Delivered, Sequence;
  }

  lemma ReplyUnattributed(bus: Bus, d: Device, f: Frame)
    requires Read(bus, d, f).Unattributed?
    ensures Reply(bus, d, f).0 == d && Reply(bus, d, f).1.Err?
  {
    hide OpenReply, Sequence;
  }

  lemma ReplyStartsOver(bus: Bus, d: Device, f: Frame)
    requires Read(bus, d, f).StartsOver?
    ensures Reply(bus, d, f).0 == Resync(d.(queue := d.queue.(misses := 0))) && Reply(bus, d, f).1.Ok?
    ensures Reply(bus, d, f).0.queue.sequence == 0
  {
    hide OpenReply, Sequence;
  }

  lemma ReplyQueue(bus: Bus, d: Device, f: Frame)
    ensures Reply(bus, d, f).0.queue == QueueAfterReply(d.queue, Read(bus, d, f))
  {
    hide Reply, OpenReply, Read, Dispatch, Restart, Delivered, QueueAfterDispatch;
    match Read(bus, d, f) {
      case Unattributed => ReplyUnattributed(bus, d, f);
      case StartsOver => ReplyStartsOver(bus, d, f);
      case Answer(m) =>
        ReplyIsDispatch(bus, d, f);
        DispatchQueue(bus, AtDispatch(bus, d, f), m);
    }
  }

  // ----- Conservation and order of the application's commands -----

  /** The commands the panel still owes the device, in the order they will be sent. */
  function Owed(q: Queue): seq<Message> {
    (if q.inflight.Some? then [q.inflight.value] else []) + q.outbox
  }

  /** Between exchanges: nothing in flight, and a repeat concerns the head of the queue, which is what the
      next exchange will send. */
  predicate Resting(q: Queue) {
    && q.inflight.None?
    && q.sequence <= SEQUENCE_ROTATION
    && (q.repeatSequence ==> q.outbox != [] && !q.deferCommands && q.sequence != 0)
  }

  /** During an exchange: the number in use is 1, 2 or 3 and nothing is marked for repetition. */
  predicate Busy(q: Queue) {
    && 1 <= q.sequence <= SEQUENCE_ROTATION
    && !q.repeatSequence
    && (q.inflight.Some? ==> !q.deferCommands)
  }

  lemma RotateRange(n: Octet)
    requires n <= SEQUENCE_ROTATION
    ensures 1 <= Rotate(n) <= SEQUENCE_ROTATION
  {
  }

  lemma RestartOwed(q: Queue)
    ensures Owed(Restart(q)) == Owed(q) && Resting(Restart(q)) && Restart(q).sequence == 0
  {
  }

  lemma RetransmitOwed(q: Queue)
    requires Busy(q)
    ensures Owed(Retransmit(q)) == Owed(q) && Resting(Retransmit(q))
    ensures Retransmit(q).repeatSequence == q.inflight.Some? && Retransmit(q).sequence == q.sequence
    ensures q.inflight.Some? ==> Retransmit(q).outbox == [q.inflight.value] + q.outbox
  {
  }

  lemma AnswerOwed(q: Queue, m: Message)
    requires Busy(q)
    ensures var q' := QueueAfterDispatch(Delivered(q), m);
            Owed(q') == (if m.code == BUSY then Owed(q) else q.outbox) && Resting(q') && !q'.repeatSequence
  {
  }

  // ----- What Next emits -----

  lemma ComposePlainCarries(bus: Bus, d: Device, m: Message)
    requires ValidAddress(d.address)
    ensures var (d', f) := ComposePlain(bus, d, m);
            f.Some? && Carries(f.value, false, d.address, d'.queue.sequence, bus.scheme, m.code, None) && f.value.data == m.data &&
            d' == d.(queue := NextSequence(d.queue))
  {
    hide CheckOK, Frames.Seal, NextSequence, NewControl, ValidAddress;
    var q := NextSequence(d.queue);
    SealedCheck(Frame(false, false, d.address, NewControl(q.sequence, bus.scheme, false), None, m.code, m.data, 0));
  }

  lemma ComposeHandshakeCarries(bus: Bus, d: Device, m: Message, kind: Octet)
    requires ValidAddress(d.address)
    ensures var (d', f) := ComposeHandshake(bus, d, m, kind);
            f.Some? && Carries(f.value, false, d.address, d'.queue.sequence, bus.scheme, m.code, Some(kind)) && f.value.data == m.data &&
            d' == d.(queue := NextSequence(d.queue))
  {
    hide CheckOK, Frames.Seal, NextSequence, NewControl, ValidAddress;
    var q := NextSequence(d.queue);
    SealedCheck(Frame(false, false, d.address, NewControl(q.sequence, bus.scheme, true), Some(SecurityBlock(kind, [])), m.code, m.data, 0));
  }

  lemma ComposeSealedCarries(bus: Bus, d: Device, m: Message, kind: Octet)
    requires ValidAddress(d.address) && SecureEstablished(d)
    ensures var (d', f) := ComposeSealed(bus, d, m, kind);
            var s := d.channel.session.value;
            var q := NextSequence(d.queue);
            var g := Untagged(false, d.address, q.sequence, bus.scheme, m.code, kind, Enciphered(bus.suite, s.keys, s.rmac, kind, m.data));
            var mac := MacOver(bus.suite, s.keys, s.rmac, g);
            && f.Some? && Carries(f.value, false, d.address, q.sequence, bus.scheme, m.code, Some(kind))
            && f.value.data == g.data + S.Tag(mac)
            && d' == d.(queue := q, channel := d.channel.(session := Some(s.(cmac := mac))))
  {
    hide CheckOK, Frames.Seal, NextSequence, NewControl, ValidAddress, Covered, S.Tag, EncryptedBlock;
    var s := d.channel.session.value;
    var q := NextSequence(d.queue);
    var g := Untagged(false, d.address, q.sequence, bus.scheme, m.code, kind, Enciphered(bus.suite, s.keys, s.rmac, kind, m.data));
    SealedCheck(g.(data := g.data + S.Tag(MacOver(bus.suite, s.keys, s.rmac, g))));
  }

  // ----- The state and the session agree -----

  /** Secure always has an established session, and a handshake a present, unestablished one. Only a
      handshake step ever waits to be sent. */
  predicate InStep(state: State, c: Channel) {
    && (state == Secure ==> Established(c))
    && (state == SecureHandshake ==> c.session.Some? && !Established(c))
    && (c.session.Some? ==> c.session.value.role == S.CP)
    && (c.pending.Some? ==> c.pending.value.block == SCS_13 && c.pending.value.message.code == SCRYPT)
  }

  predicate Consistent(d: Device) {
    InStep(d.state, d.channel)
  }

  lemma SmallStepsConsistent(d: Device)
    requires Consistent(d)
    ensures InStep(Identifying, d.channel)
    ensures InStep(d.state, d.channel.(pendingKey := None))
  {
  }

  lemma HandlersConsistent(bus: Bus, d: Device, data: seq<Octet>)
    requires Consistent(d)
    ensures Consistent(OnCapabilities(bus, d, data).0)
    ensures Consistent(OnCommunication(d, data).0)
    ensures Consistent(OnKeyInstalled(d))
    ensures Consistent(Answering(d).0)
    ensures Consistent(Resync(d))
  {
    hide ParseCapabilities, ParseCommunication, ClaimsSecureChannel, BaseKey, Restart;
  }

  lemma CryptogramConsistent(bus: Bus, d: Device, data: seq<Octet>)
    requires Consistent(d)
    ensures Consistent(OnCryptogram(bus, d, data).0)
  {
  }

  lemma RMACConsistent(bus: Bus, d: Device, data: seq<Octet>)
    requires Consistent(d)
    ensures Consistent(OnInitialRMAC(bus, d, data).0)
  {
  }

  lemma StatusConsistent(d: Device, reported: Option<seq<StatusChange>>)
    requires Consistent(d)
    ensures Consistent(OnStatus(d, reported).0)
  {
    hide Status.Report, InStep;
  }

  lemma DispatchConsistent(bus: Bus, d: Device, m: Message)
    requires Consistent(d)
    ensures Consistent(Dispatch(bus, d, m).0)
  {
    hide InStep, OnStatus, OnCryptogram, OnInitialRMAC, OnCapabilities, OnCommunication, Answering, OnKeyInstalled, Reclaim,
      ParseContacts, ParseLocalStatus, WholeCardRead, WholeKeypadEntry, AwaitingKeySet;
    SmallStepsConsistent(d);
    HandlersConsistent(bus, d, m.data);
    CryptogramConsistent(bus, d, m.data);
    RMACConsistent(bus, d, m.data);
    StatusConsistent(d, Some(ParseContacts(StatusInput, m.data)));
    StatusConsistent(d, Some(ParseContacts(StatusOutput, m.data)));
    StatusConsistent(d, ParseLocalStatus(m.data));
    StatusConsistent(d, Some(ParseContacts(StatusLocal, m.data)));
  }

  lemma OpenReplyKeepsPhase(su: S.Suite, s: S.Session, f: Frame)
    ensures OpenReply(su, s, f).0.phase == s.phase && OpenReply(su, s, f).0.role == s.role
  {
    hide Covered, EncryptedBlock, S.Tag;
  }

  lemma AtDispatchChannel(bus: Bus, d: Device, f: Frame)
    ensures var e := AtDispatch(bus, d, f);
            && e == d.(queue := e.queue, channel := e.channel)
            && e.channel == d.channel.(session := e.channel.session)
            && e.channel.session.Some? == d.channel.session.Some?
            && (d.channel.session.Some? ==>
                  e.channel.session.value.phase == d.channel.session.value.phase && e.channel.session.value.role == d.channel.session.value.role)
  {
    hide OpenReply, Delivered;
    if SecureEstablished(d) {
      OpenReplyKeepsPhase(bus.suite, d.channel.session.value, f);
    }
  }

  lemma ReplyConsistent(bus: Bus, d: Device, f: Frame)
    requires Consistent(d)
    ensures Consistent(Reply(bus, d, f).0)
  {
    hide Reply, Read, Dispatch, AtDispatch;
    match Read(bus, d, f) {
      case Unattributed => ReplyUnattributed(bus, d, f);
      case StartsOver => ReplyStartsOver(bus, d, f);
      case Answer(m) =>
        ReplyIsDispatch(bus, d, f);
        AtDispatchChannel(bus, d, f);
        DispatchConsistent(bus, AtDispatch(bus, d, f), m);
    }
  }

  lemma TimeoutConsistent(d: Device)
    requires Consistent(d)
    ensures Consistent(Timeout(d).0)
  {
    hide Retransmit, Restart;
  }

  // ----- One exchange -----

  predicate Usable(s: State) {
    s == Online || s == Secure
  }

  /** Between exchanges. */
  predicate Settled(d: Device) {
    && Resting(d.queue) && Consistent(d)
    && (d.queue.repeatSequence ==> Usable(d.state) && !WithholdsKeySet(d))
  }

  /** Between a command and its answer. */
  predicate InExchange(d: Device) {
    && Busy(d.queue) && Consistent(d)
    && (d.queue.inflight.Some? ==> Usable(d.state) && (d.queue.inflight.value.code == KEYSET ==> SecureEstablished(d)))
  }

  /** The application command the next exchange will carry, if any. */
  predicate SendsHead(d: Device) {
    Usable(d.state) && !d.queue.deferCommands && !WithholdsKeySet(d) && d.queue.outbox != []
  }

  /** The queue once the command is chosen. */
  function Chosen(d: Device): Queue {
    if !Usable(d.state) then d.queue
    else if d.queue.deferCommands then d.queue.(deferCommands := false)
    else if WithholdsKeySet(d) then d.queue
    else Outbound(d.queue).0
  }

  lemma ChosenFacts(d: Device)
    requires Settled(d)
    ensures Owed(Chosen(d)) == d.queue.outbox
    ensures Busy(NextSequence(Chosen(d))) && Owed(NextSequence(Chosen(d))) == d.queue.outbox
    ensures Chosen(d).inflight == if SendsHead(d) then Some(d.queue.outbox[0]) else None
    ensures d.queue.repeatSequence ==> SendsHead(d) && NextSequence(Chosen(d)).sequence == d.queue.sequence
    ensures !d.queue.repeatSequence ==> NextSequence(Chosen(d)).sequence == Rotate(d.queue.sequence)
    ensures NextSequence(Chosen(d)).inflight == Chosen(d).inflight
  {
    RotateRange(d.queue.sequence);
  }

  /** What CommandFor asks for when it is not a handshake. */
  function PlainChoice(d: Device): (Message, Option<Octet>) {
    if d.state == Offline then (Message(ID, [0]), None)
    else if d.state == Identifying then (Message(CAP, [0]), None)
    else
      var m := if SendsHead(d) then d.queue.outbox[0] else Poll();
      (m, if d.state == Secure then Some(BlockForCommand(|m.data|)) else None)
  }

  lemma CommandForUsable(d: Device, rndA: Cipher.Nonce)
    requires d.state != SecureHandshake
    ensures CommandFor(d, rndA) == (d.(queue := Chosen(d)), PlainChoice(d).0, PlainChoice(d).1)
  {
  }

  /** The next handshake command: the step in hand, or a fresh challenge. */
  lemma CommandForHandshake(d: Device, rndA: Cipher.Nonce)
    requires d.state == SecureHandshake && Consistent(d)
    ensures d.channel.pending.Some? ==>
              CommandFor(d, rndA) ==
              (d.(channel := d.channel.(pending := None)), d.channel.pending.value.message, Some(d.channel.pending.value.block))
    ensures d.channel.pending.None? ==>
              CommandFor(d, rndA) ==
              (d.(channel := d.channel.(session := Some(d.channel.session.value.(rndA := rndA, phase := S.Challenged)))),
               Message(CHLNG, rndA), Some(SCS_11))
  {
  }

  lemma SequenceOfControl(sequence: Octet, scheme: Check.Scheme, security: bool)
    requires sequence <= SEQUENCE_ROTATION
    ensures Sequence(NewControl(sequence, scheme, security)) == sequence
  {
    NewControlFields(sequence, scheme, security);
    LowTwoBits(sequence);
  }

  lemma LowTwoBits(x: Octet)
    requires x <= 3
    ensures x & 3 == x
  {
  }

  /** The command and block that Next composes. */
  function Choice(d: Device, rndA: Cipher.Nonce): (Message, Option<Octet>) {
    if d.state != SecureHandshake then PlainChoice(d)
    else if d.channel.pending.Some? then (d.channel.pending.value.message, Some(d.channel.pending.value.block))
    else (Message(CHLNG, rndA), Some(SCS_11))
  }

  /** A frame was composed: it carries the chosen command under the number now in use. */
  predicate Emits(bus: Bus, d: Device, rndA: Cipher.Nonce, d1: Device, f: Option<Frame>) {
    && f.Some? && Carries(f.value, false, d.address, d1.queue.sequence, bus.scheme, Choice(d, rndA).0.code, Choice(d, rndA).1)
    && d1.queue == NextSequence(Chosen(d)) && Consistent(d1)
    && d1.state == d.state && d1.address == d.address && d1.caps == d.caps
    && SecureEstablished(d1) == SecureEstablished(d) && d1.channel.session.Some? == d.channel.session.Some?
  }

  lemma EmitsHandshake(bus: Bus, d: Device, rndA: Cipher.Nonce)
    requires Consistent(d) && ValidAddress(d.address) && d.state == SecureHandshake
    ensures Emits(bus, d, rndA, Next(bus, d, rndA).0, Next(bus, d, rndA).1)
  {
    hide Carries, Chosen, NextSequence, ComposePlain, ComposeHandshake, ComposeSealed, CommandFor, ValidAddress;
    var (d0, m, block) := CommandFor(d, rndA);
    CommandForHandshake(d, rndA);
    ChosenInHandshake(d);
    ComposeHandshakeCarries(bus, d0, m, block.value);
  }

  lemma EmitsPlain(bus: Bus, d: Device, rndA: Cipher.Nonce)
    requires Consistent(d) && ValidAddress(d.address) && d.state != SecureHandshake && d.state != Secure
    ensures Emits(bus, d, rndA, Next(bus, d, rndA).0, Next(bus, d, rndA).1)
    ensures Next(bus, d, rndA).1.value.data == PlainChoice(d).0.data
    ensures Next(bus, d, rndA).0 == d.(queue := NextSequence(Chosen(d)))
  {
    hide Carries, Chosen, NextSequence, ComposePlain, ComposeHandshake, ComposeSealed, CommandFor, PlainChoice, ValidAddress;
    var (d0, m, block) := CommandFor(d, rndA);
    CommandForUsable(d, rndA);
    ChoiceBlocks(d);
    ComposePlainCarries(bus, d0, m);
  }

  lemma EmitsSealed(bus: Bus, d: Device, rndA: Cipher.Nonce)
    requires Consistent(d) && ValidAddress(d.address) && d.state == Secure
    ensures Emits(bus, d, rndA, Next(bus, d, rndA).0, Next(bus, d, rndA).1)
    ensures Next(bus, d, rndA) == ComposeSealed(bus, d.(queue := Chosen(d)), PlainChoice(d).0, PlainChoice(d).1.value)
  {
    hide Carries, Chosen, NextSequence, ComposePlain, ComposeHandshake, ComposeSealed, CommandFor, PlainChoice, ValidAddress;
    var (d0, m, block) := CommandFor(d, rndA);
    CommandForUsable(d, rndA);
    ChoiceBlocks(d);
    ComposeSealedCarries(bus, d0, m, block.value);
  }

  /** Next always composes a frame for a device with a valid address. The frame carries the chosen command,
      numbered 1, 2 or 3; a repeat re-sends the head of the queue under the number it had. */
  lemma NextEmits(bus: Bus, d: Device, rndA: Cipher.Nonce)
    requires Settled(d) && ValidAddress(d.address)
    ensures var (d1, f) := Next(bus, d, rndA);
            && Emits(bus, d, rndA, d1, f) && InExchange(d1)
            && Sequence(f.value.control) == d1.queue.sequence && 1 <= d1.queue.sequence <= SEQUENCE_ROTATION
            && Owed(d1.queue) == d.queue.outbox
            && (d.queue.repeatSequence ==>
                  d1.queue.inflight == Some(d.queue.outbox[0]) && d1.queue.sequence == d.queue.sequence)
  {
    hide Carries, Chosen, Next, NextSequence, Choice, Sequence, Resting, ValidAddress;
    if d.state == SecureHandshake {
      EmitsHandshake(bus, d, rndA);
    } else if d.state == Secure {
      EmitsSealed(bus, d, rndA);
    } else {
      EmitsPlain(bus, d, rndA);
    }
    ChosenFacts(d);
    var (d1, f) := Next(bus, d, rndA);
    SequenceOfControl(d1.queue.sequence, bus.scheme, Choice(d, rndA).1.Some?);
    CarriesControl(bus, f.value, d.address, d1.queue.sequence, Choice(d, rndA).0.code, Choice(d, rndA).1);
  }

  lemma CarriesControl(bus: Bus, f: Frame, address: Octet, sequence: Octet, code: Octet, block: Option<Octet>)
    requires Carries(f, false, address, sequence, bus.scheme, code, block)
    ensures f.control == NewControl(sequence, bus.scheme, block.Some?)
  {
  }

  lemma ChosenInHandshake(d: Device)
    requires d.state == SecureHandshake
    ensures Chosen(d) == d.queue
  {
  }

  lemma ChoiceBlocks(d: Device)
    requires d.state != SecureHandshake
    ensures PlainChoice(d).1.Some? == (d.state == Secure)
    ensures d.state == Secure ==> EstablishedBlock(PlainChoice(d).1.value)
  {
  }

  // ----- The end of an exchange -----

  /** The device answered the exchange and did not say it was busy. */
  predicate Answered(bus: Bus, d: Device, answer: Option<Frame>) {
    answer.Some? && Read(bus, d, answer.value).Answer? && Read(bus, d, answer.value).message.code != BUSY
  }

  lemma TimeoutSettles(d: Device)
    requires InExchange(d)
    ensures var d' := Timeout(d).0;
            && Settled(d') && Owed(d'.queue) == Owed(d.queue)
            && (d'.queue.repeatSequence ==> d.queue.inflight.Some? && d'.queue.outbox == Owed(d.queue) && d'.queue.sequence == d.queue.sequence)
  {
    hide Restart, Retransmit, Owed;
    TimeoutConsistent(d);
    var q := d.queue.(misses := d.queue.misses + 1);
    SameOwed(d.queue, q);
    RetransmitOwed(q);
    RestartOwed(Retransmit(q));
    OwedResting(Timeout(d).0.queue);
  }

  lemma SameOwed(q: Queue, p: Queue)
    requires p == q.(misses := p.misses)
    ensures Owed(p) == Owed(q)
  {
  }

  lemma OwedResting(q: Queue)
    requires q.inflight.None?
    ensures Owed(q) == q.outbox
  {
  }

  /** An exchange that got nowhere leaves every command owed; one that was answered releases the command in
      flight, unless the device was busy. */
  lemma ConcludeSettles(bus: Bus, d: Device, answer: Option<Frame>)
    requires InExchange(d)
    ensures var d' := Conclude(bus, d, answer).0;
            && Settled(d') && d'.queue.outbox == (if Answered(bus, d, answer) then d.queue.outbox else Owed(d.queue))
            && (d'.queue.repeatSequence ==>
                  && d.queue.inflight.Some? && !Answered(bus, d, answer)
                  && d'.queue.outbox == Owed(d.queue) && d'.queue.sequence == d.queue.sequence)
  {
    hide Timeout, Reply, Read, Restart, Delivered, QueueAfterDispatch, Owed;
    TimeoutSettles(d);
    OwedResting(Timeout(d).0.queue);
    if answer.Some? {
      var f := answer.value;
      var (d1, r) := Reply(bus, d, f);
      ReplyQueue(bus, d, f);
      ReplyConsistent(bus, d, f);
      var q := d.queue.(misses := 0);
      SameOwed(d.queue, q);
      match Read(bus, d, f) {
        case Unattributed =>
          ReplyUnattributed(bus, d, f);
        case StartsOver =>
          RestartOwed(q);
          OwedResting(d1.queue);
          ReplyStartsOver(bus, d, f);
        case Answer(m) =>
          AnswerOwed(q, m);
          OwedResting(d1.queue);
          QuietTimeout(d1);
      }
    }
  }

  /** Silence with nothing in flight changes nothing but the miss count, or drops the device. */
  lemma QuietTimeout(d: Device)
    requires Resting(d.queue) && !d.queue.repeatSequence && Consistent(d)
    ensures var d' := Timeout(d).0; Settled(d') && d'.queue.outbox == d.queue.outbox && !d'.queue.repeatSequence
  {
    TimeoutConsistent(d);
  }

  // ----- Runs -----

  datatype Op = Submit(message: Message) | Install(key: Cipher.Block) | Exchange(rndA: Cipher.Nonce, answer: Option<Frame>)

  /** A device together with what the application handed in, what the device has answered, and the
      application command the last exchange transmitted, if it was one. */
  datatype Run = Run(device: Device, accepted: seq<Message>, answered: seq<Message>, sent: Option<Message>)

  function Step(bus: Bus, r: Run, op: Op): Run {
    match op
    case Submit(m) =>
      var (d, ok) := Send(bus, r.device, m);
      r.(device := d, accepted := if ok then r.accepted + [m] else r.accepted)
    case Install(key) =>
      var (d, ok) := InstallKey(r.device, key);
      r.(device := d, accepted := if ok then r.accepted + [KeySetCommand(key)] else r.accepted)
    case Exchange(rndA, answer) =>
      var d1 := Next(bus, r.device, rndA).0;
      var d2 := Conclude(bus, d1, answer).0;
      var command := d1.queue.inflight;
      Run(d2, r.accepted,
          if Answered(bus, d1, answer) && command.Some? then r.answered + [command.value] else r.answered, command)
  }

  /** The bus only ever polls a device that has an address to poll. */
  predicate Addressable(r: Run, op: Op) {
    op.Exchange? ==> ValidAddress(r.device.address)
  }

  /** Nothing accepted is lost, repeated or reordered, and a pending repeat concerns the command last sent,
      which is the head of the queue. */
  predicate Conserved(r: Run) {
    && Settled(r.device)
    && r.accepted == r.answered + r.device.queue.outbox
    && (r.device.queue.repeatSequence ==> r.device.queue.outbox != [] && r.sent == Some(r.device.queue.outbox[0]))
  }

  /** A command joining the back of the queue disturbs nothing in front of it. */
  lemma EnqueueSettled(d: Device, m: Message, pendingKey: Option<Cipher.Block>)
    requires Settled(d)
    ensures Settled(d.(queue := Enqueue(d.queue, m), channel := d.channel.(pendingKey := pendingKey)))
    ensures Settled(d.(queue := Enqueue(d.queue, m)))
  {
  }

  lemma SubmitConserves(bus: Bus, r: Run, op: Op)
    requires Conserved(r) && !op.Exchange?
    ensures Conserved(Step(bus, r, op))
  {
    hide Fits, Settled, KeySetCommand, SecureEstablished;
    match op {
      case Submit(m) => EnqueueSettled(r.device, m, None);
      case Install(key) => EnqueueSettled(r.device, KeySetCommand(key), Some(key));
    }
  }

  lemma ExchangeConserves(bus: Bus, r: Run, rndA: Cipher.Nonce, answer: Option<Frame>)
    requires Conserved(r) && ValidAddress(r.device.address)
    ensures Conserved(Step(bus, r, Exchange(rndA, answer)))
  {
    hide Next, Conclude, Answered, Emits, Settled, InExchange, Carries, ValidAddress, Sequence;
    NextEmits(bus, r.device, rndA);
    var d1 := Next(bus, r.device, rndA).0;
    ConcludeSettles(bus, d1, answer);
  }

  function RunOps(bus: Bus, r: Run, ops: seq<Op>): Run {
    hide Step;
    if ops == [] then r else Step(bus, RunOps(bus, r, ops[..|ops| - 1]), ops[|ops| - 1])
  }

  predicate AllAddressable(bus: Bus, r: Run, ops: seq<Op>) {
    hide Step;
    ops == [] || (AllAddressable(bus, r, ops[..|ops| - 1]) && Addressable(RunOps(bus, r, ops[..|ops| - 1]), ops[|ops| - 1]))
  }

  function Fresh(address: Octet): Run {
    Run(NewDevice(address), [], [], None)
  }

  /** Over every run of submissions, key installs and exchanges, with any answers or none: the commands the
      device answered, followed by those still queued, are the commands accepted, in submission order. */
  lemma {:induction false} CommandsConserved(bus: Bus, address: Octet, ops: seq<Op>)
    requires AllAddressable(bus, Fresh(address), ops)
    ensures Conserved(RunOps(bus, Fresh(address), ops))
    decreases |ops|
  {
    hide Step, Settled;
    if ops == [] {
      FreshSettled(address);
    } else {
      var n := |ops| - 1;
      CommandsConserved(bus, address, ops[..n]);
      var r := RunOps(bus, Fresh(address), ops[..n]);
      if ops[n].Exchange? {
        ExchangeConserves(bus, r, ops[n].rndA, ops[n].answer);
      } else {
        SubmitConserves(bus, r, ops[n]);
      }
    }
  }

  lemma FreshSettled(address: Octet)
    ensures Settled(NewDevice(address))
  {
  }

  /** At any point of any run the next exchange emits a frame numbered 1, 2 or 3, and while it is under way
      the answered commands, the one in flight and the queue still make up the accepted ones. A repeat
      transmits the command it repeats under the number it had. */
  lemma EmissionsNumbered(bus: Bus, address: Octet, ops: seq<Op>, rndA: Cipher.Nonce)
    requires AllAddressable(bus, Fresh(address), ops)
    requires ValidAddress(RunOps(bus, Fresh(address), ops).device.address)
    ensures var r := RunOps(bus, Fresh(address), ops);
            var (d1, f) := Next(bus, r.device, rndA);
            && f.Some? && Sequence(f.value.control) == d1.queue.sequence && 1 <= d1.queue.sequence <= SEQUENCE_ROTATION
            && r.accepted == r.answered + Owed(d1.queue)
            && (r.device.queue.repeatSequence ==> d1.queue.inflight == r.sent && d1.queue.sequence == r.device.queue.sequence)
  {
    hide RunOps, Next, Settled, Carries, ValidAddress, Sequence, Owed, InExchange;
    CommandsConserved(bus, address, ops);
    NextEmits(bus, RunOps(bus, Fresh(address), ops).device, rndA);
  }

  // ----- Where a key may travel -----

  /** A session exists exactly during a handshake or on a secure channel, and is established exactly then. */
  predicate Strict(state: State, c: Channel) {
    && (c.session.Some? <==> state == SecureHandshake || state == Secure)
    && (Established(c) <==> state == Secure)
  }

  /** Identity replies arrive only from a device being identified, capability replies only from one being
      asked for them. */
  predicate Orderly(bus: Bus, d: Device, answer: Option<Frame>) {
    answer.Some? && Read(bus, d, answer.value).Answer? ==>
      var code := Read(bus, d, answer.value).message.code;
      (code == PDID ==> d.state == Offline) && (code == PDCAP ==> d.state == Identifying)
  }

  lemma HandlersStrict(bus: Bus, d: Device, data: seq<Octet>)
    requires Strict(d.state, d.channel)
    ensures d.state == Identifying ==> var e := OnCapabilities(bus, d, data).0; Strict(e.state, e.channel)
    ensures var e := OnCommunication(d, data).0; Strict(e.state, e.channel)
    ensures var e := Answering(d).0; Strict(e.state, e.channel)
    ensures Strict(OnKeyInstalled(d).state, OnKeyInstalled(d).channel)
    ensures Strict(d.state, d.channel.(pendingKey := None))
    ensures d.state == Offline ==> Strict(Identifying, d.channel)
    ensures Strict(Offline, DropSession(d.channel))
  {
    hide ParseCapabilities, ParseCommunication, ClaimsSecureChannel, BaseKey, Restart;
  }

  lemma CryptogramStrict(bus: Bus, d: Device, data: seq<Octet>)
    requires Strict(d.state, d.channel)
    ensures var e := OnCryptogram(bus, d, data).0; Strict(e.state, e.channel)
  {
  }

  lemma RMACStrict(bus: Bus, d: Device, data: seq<Octet>)
    requires Strict(d.state, d.channel)
    ensures var e := OnInitialRMAC(bus, d, data).0; Strict(e.state, e.channel)
  {
  }

  lemma StatusStrict(d: Device, reported: Option<seq<StatusChange>>)
    ensures OnStatus(d, reported).0.state == d.state && OnStatus(d, reported).0.channel == d.channel
  {
    hide Status.Report;
  }

  lemma DispatchStrict(bus: Bus, d: Device, m: Message)
    requires Strict(d.state, d.channel)
    requires (m.code == PDID ==> d.state == Offline) && (m.code == PDCAP ==> d.state == Identifying)
    ensures var e := Dispatch(bus, d, m).0; Strict(e.state, e.channel)
  {
    hide Strict, OnStatus, OnCryptogram, OnInitialRMAC, OnCapabilities, OnCommunication, Answering, OnKeyInstalled, Reclaim,
      ParseContacts, ParseLocalStatus, WholeCardRead, WholeKeypadEntry, AwaitingKeySet;
    HandlersStrict(bus, d, m.data);
    CryptogramStrict(bus, d, m.data);
    RMACStrict(bus, d, m.data);
    StatusStrict(d, Some(ParseContacts(StatusInput, m.data)));
    StatusStrict(d, Some(ParseContacts(StatusOutput, m.data)));
    StatusStrict(d, ParseLocalStatus(m.data));
    StatusStrict(d, Some(ParseContacts(StatusLocal, m.data)));
  }

  lemma ReplyStrict(bus: Bus, d: Device, f: Frame)
    requires Strict(d.state, d.channel) && Orderly(bus, d, Some(f))
    ensures var e := Reply(bus, d, f).0; Strict(e.state, e.channel)
  {
    hide Reply, Read, Dispatch, AtDispatch, Restart;
    match Read(bus, d, f) {
      case Unattributed => ReplyUnattributed(bus, d, f);
      case StartsOver => ReplyStartsOver(bus, d, f);
      case Answer(m) =>
        ReplyIsDispatch(bus, d, f);
        AtDispatchChannel(bus, d, f);
        DispatchStrict(bus, AtDispatch(bus, d, f), m);
    }
  }

  lemma ConcludeStrict(bus: Bus, d: Device, answer: Option<Frame>)
    requires Strict(d.state, d.channel) && Orderly(bus, d, answer)
    ensures var e := Conclude(bus, d, answer).0; Strict(e.state, e.channel)
  {
    hide Strict, Reply, Restart, Retransmit, DropSession;
    HandlersStrict(bus, d, []);
    if answer.Some? {
      ReplyStrict(bus, d, answer.value);
      HandlersStrict(bus, Reply(bus, d, answer.value).0, []);
    }
  }

  /** A key leaves in the clear exactly when the device believes itself online without a channel while it
      still holds an established session; otherwise it leaves under the block its payload calls for. */
  lemma KeySetTravels(bus: Bus, d: Device, rndA: Cipher.Nonce)
    requires Settled(d) && ValidAddress(d.address) && Next(bus, d, rndA).1.Some? && Next(bus, d, rndA).1.value.code == KEYSET
    ensures var f := Next(bus, d, rndA).1.value;
            && d.queue.outbox != [] && d.queue.outbox[0].code == KEYSET && SecureEstablished(d)
            && (f.security.None? <==> d.state == Online)
            && (f.security.Some? ==> f.security.value.kind == if |d.queue.outbox[0].data| > 0 then SCS_17 else SCS_15)
  {
    hide Chosen, Next, NextSequence, CheckOK, NewControl, ValidAddress, Sequence, Resting, InExchange, Busy, Owed;
    NextEmits(bus, d, rndA);
  }

  /** The bus would not open a channel with a device that reports these capabilities. */
  predicate DeclinesSecure(bus: Bus, d: Device, report: seq<Capability>) {
    !bus.secureEnabled || d.channel.secureDeclined || !ClaimsSecureChannel(report) || BaseKey(bus, d).None?
  }

  /** A capability report that arrives over the channel moves a device off Secure, and leaves it Online with the session
      still established exactly when the bus would not open a channel on that report. */
  lemma ReportOverTheChannel(bus: Bus, d: Device, f: Frame, data: seq<Octet>, report: seq<Capability>)
    requires InExchange(d) && d.state == Secure
    requires Read(bus, d, f) == Answer(Message(PDCAP, data)) && ParseCapabilities(data) == Some(report)
    ensures var e := Reply(bus, d, f).0;
            && e.state != Secure && e.queue == Delivered(d.queue.(misses := 0)) && e.address == d.address
            && (e.state == Online && SecureEstablished(e) <==> DeclinesSecure(bus, d, report))
  {
    hide Reply, Read, Delivered, Busy, ParseCapabilities, ClaimsSecureChannel, OpenReply, BaseKey;
    ReplyIsDispatch(bus, d, f);
    AtDispatchChannel(bus, d, f);
    BaseKeyOf(bus, d, AtDispatch(bus, d, f).(caps := report));
  }

  lemma BaseKeyOf(bus: Bus, d: Device, e: Device)
    requires e.address == d.address && e.channel.installedKey == d.channel.installedKey
    ensures BaseKey(bus, e) == BaseKey(bus, d)
  {
  }

  /** An input that sends a key in the clear: on a secure channel a poll is answered with such a report, and a key is
      installed next. The installation is accepted and the next frame carries the key without a security block. */
  lemma KeyAfterReport(bus: Bus, d: Device, f: Frame, data: seq<Octet>, report: seq<Capability>, key: Cipher.Block, rndA: Cipher.Nonce)
    requires InExchange(d) && ValidAddress(d.address) && d.state == Secure
    requires d.queue.outbox == [] && d.queue.inflight.None? && !d.queue.deferCommands
    requires Read(bus, d, f) == Answer(Message(PDCAP, data)) && ParseCapabilities(data) == Some(report)
    requires DeclinesSecure(bus, d, report)
    ensures var (e, accepted) := InstallKey(Reply(bus, d, f).0, key);
            var sent := Next(bus, e, rndA).1;
            && accepted && sent.Some? && sent.value.security.None?
            && sent.value.code == KEYSET && sent.value.data == KeySetCommand(key).data
  {
    hide Reply, Read, Busy, ParseCapabilities, Next, ValidAddress, DeclinesSecure, NextSequence, CheckOK, NewControl;
    ReportOverTheChannel(bus, d, f, data, report);
    ReplyConsistent(bus, d, f);
    var e := InstallKey(Reply(bus, d, f).0, key).0;
    assert e.queue.outbox == [KeySetCommand(key)] && e.state == Online;
    EmitsPlain(bus, e, rndA);
  }

  predicate AllOrderly(bus: Bus, r: Run, ops: seq<Op>) {
    hide Step, Next, Orderly;
    ops == [] ||
    (var n := |ops| - 1;
     var before := RunOps(bus, r, ops[..n]);
     && AllOrderly(bus, r, ops[..n])
     && (ops[n].Exchange? ==> Orderly(bus, Next(bus, before.device, ops[n].rndA).0, ops[n].answer)))
  }

  lemma SubmitStrict(bus: Bus, r: Run, op: Op)
    requires !op.Exchange? && Strict(r.device.state, r.device.channel)
    ensures var d := Step(bus, r, op).device; Strict(d.state, d.channel)
  {
    hide Fits;
  }

  lemma ExchangeStrict(bus: Bus, r: Run, rndA: Cipher.Nonce, answer: Option<Frame>)
    requires Settled(r.device) && ValidAddress(r.device.address) && Strict(r.device.state, r.device.channel)
    requires Orderly(bus, Next(bus, r.device, rndA).0, answer)
    ensures var d := Step(bus, r, Exchange(rndA, answer)).device; Strict(d.state, d.channel)
  {
    hide Next, Conclude, Answered, Settled, ValidAddress, Orderly, Strict;
    NextStrict(bus, r.device, rndA);
    ConcludeStrict(bus, Next(bus, r.device, rndA).0, answer);
  }

  lemma NextStrict(bus: Bus, d: Device, rndA: Cipher.Nonce)
    requires Settled(d) && ValidAddress(d.address) && Strict(d.state, d.channel)
    ensures var e := Next(bus, d, rndA).0; Strict(e.state, e.channel)
  {
    hide Next, Settled, InExchange, Carries, ValidAddress, Sequence, Owed, Choice, Chosen, NextSequence, Consistent;
    NextEmits(bus, d, rndA);
  }

  /** In every run where identity replies arrive only while identifying and capability replies only when
      asked for, Secure holds exactly when the session is established, and every osdp_KEYSET frame is sealed:
      under SCS_17 whenever it carries a key. */
  lemma {:induction false} KeysTravelSealed(bus: Bus, address: Octet, ops: seq<Op>)
    requires AllAddressable(bus, Fresh(address), ops) && AllOrderly(bus, Fresh(address), ops)
    ensures var d := RunOps(bus, Fresh(address), ops).device;
            && Strict(d.state, d.channel)
            && (ValidAddress(d.address) ==> forall rndA: Cipher.Nonce :: SealsKeys(bus, d, rndA))
    decreases |ops|
  {
    hide Step, Settled, Strict, Orderly, SealsKeys, ValidAddress;
    CommandsConserved(bus, address, ops);
    if ops == [] {
      FreshStrict(address);
    } else {
      var n := |ops| - 1;
      KeysTravelSealed(bus, address, ops[..n]);
      CommandsConserved(bus, address, ops[..n]);
      var r := RunOps(bus, Fresh(address), ops[..n]);
      if ops[n].Exchange? {
        ExchangeStrict(bus, r, ops[n].rndA, ops[n].answer);
      } else {
        SubmitStrict(bus, r, ops[n]);
      }
    }
    var d := RunOps(bus, Fresh(address), ops).device;
    if ValidAddress(d.address) {
      forall rndA: Cipher.Nonce
        ensures SealsKeys(bus, d, rndA)
      {
        StrictSealsKeys(bus, d, rndA);
      }
    }
  }

  /** A frame carrying osdp_KEYSET is sealed, and enciphered when there is anything to encipher. */
  predicate SealsKeys(bus: Bus, d: Device, rndA: Cipher.Nonce) {
    var f := Next(bus, d, rndA).1;
    f.Some? && f.value.code == KEYSET ==>
      && d.queue.outbox != [] && f.value.security.Some?
      && f.value.security.value.kind == if |d.queue.outbox[0].data| > 0 then SCS_17 else SCS_15
  }

  lemma StrictSealsKeys(bus: Bus, d: Device, rndA: Cipher.Nonce)
    requires Settled(d) && ValidAddress(d.address) && Strict(d.state, d.channel)
    ensures SealsKeys(bus, d, rndA)
  {
    hide Next, Settled, ValidAddress;
    var f := Next(bus, d, rndA).1;
    if f.Some? && f.value.code == KEYSET {
      KeySetTravels(bus, d, rndA);
    }
  }

  lemma FreshStrict(address: Octet)
    ensures Strict(NewDevice(address).state, NewDevice(address).channel)
  {
  }
}
