/** One device of the bus as internal/bus keeps it: a record its methods update in place. Each method is the
    step of the same name on device values, so what is proved of runs of those steps holds of this object. */
module BusDevices {
  import opened Octets
  import opened Frames
  import opened Messages
  import Cipher
  import S = Sessions
  import SS = SecureSessions
  import Status
  import P = Panel

  class Device {
    var address: Octet
    var state: P.State
    var caps: seq<Capability>
    const board: Status.StatusBoard
    // outbox.go, sequence.go, busy.go, timeout.go
    var outbox: seq<Message>
    var inflight: Option<Message>
    var released: Option<Message>
    var acknowledged: Octet
    var repeatSequence: bool
    var deferCommands: bool
    var sequence: Octet
    var misses: nat
    // session.go, secure.go, keyset.go
    var session: SS.Session?
    var pending: Option<P.SecureStep>
    var pendingKey: Option<Cipher.Block>
    var installedKey: Option<Cipher.Block>
    var secureDeclined: bool

    ghost function Queue(): P.Queue
      reads this
    {
      P.Queue(outbox, inflight, released, acknowledged, repeatSequence, deferCommands, sequence, misses)
    }

    ghost function SessionView(): Option<S.Session>
      reads this, session
    {
      if session == null then None else Some(session.View())
    }

    ghost function Channel(): P.Channel
      reads this, session
    {
      P.Channel(SessionView(), pending, pendingKey, installedKey, secureDeclined)
    }

    ghost function View(): P.Device
      reads this, session, board
    {
      P.Device(address, state, caps, board.status, Queue(), Channel())
    }

    /** A session runs on the suite of the bus. */
    ghost predicate Uses(bus: P.Bus)
      reads this
    {
      session != null ==> session.suite == bus.suite
    }

    constructor (address: Octet)
      ensures View() == P.NewDevice(address) && session == null && fresh(board)
    {
      this.address := address;
      state := P.Offline;
      caps := [];
      board := new Status.StatusBoard();
      outbox, inflight, released, acknowledged := [], None, None, 0;
      repeatSequence, deferCommands, sequence, misses := false, false, 0, 0;
      session, pending, pendingKey, installedKey, secureDeclined := null, None, None, None, false;
    }

    // ----- The outbox -----

    method Enqueue(m: Message)
      modifies `outbox
      ensures Queue() == P.Enqueue(old(Queue()), m)
    {
      outbox := outbox + [m];
    }

    method Dequeue() returns (m: Option<Message>)
      modifies `outbox
      ensures old(outbox) == [] ==> m.None? && outbox == []
      ensures old(outbox) != [] ==> m == Some(old(outbox)[0]) && outbox == old(outbox)[1..]
    {
      if outbox == [] { return None; }
      m := Some(outbox[0]);
      outbox := outbox[1..];
    }

    method Outbound() returns (m: Message)
      modifies `outbox, `inflight
      ensures (Queue(), m) == P.Outbound(old(Queue()))
    {
      var head := Dequeue();
      if head.Some? {
        inflight := head;
        return head.value;
      }
      return Poll();
    }

    predicate SecureEstablished()
      reads this, session
    {
      session != null && session.Established()
    }

    predicate WithholdsKeySet()
      reads this, session
    {
      |outbox| > 0 && outbox[0].code == KEYSET && !SecureEstablished()
    }

    method Delivered()
      modifies `acknowledged, `released, `inflight
      ensures Queue() == P.Delivered(old(Queue()))
    {
      acknowledged, released := POLL, None;
      if inflight.Some? {
        acknowledged, released := inflight.value.code, inflight;
        inflight := None;
      }
    }

    method Requeue()
      modifies `outbox, `inflight
      ensures Queue() == P.Requeue(old(Queue()))
    {
      if inflight.None? { return; }
      outbox := [inflight.value] + outbox;
      inflight := None;
    }

    method Reclaim()
      modifies `outbox, `inflight, `released
      ensures Queue() == P.Reclaim(old(Queue()))
    {
      if released.None? { return; }
      inflight, released := released, None;
      Requeue();
    }

    method Retransmit()
      modifies `outbox, `inflight, `repeatSequence
      ensures Queue() == P.Retransmit(old(Queue()))
    {
      if inflight.None? { return; }
      Requeue();
      repeatSequence := true;
    }

    method Deferring() returns (deferring: bool)
      modifies `deferCommands
      ensures deferring == old(deferCommands) && !deferCommands
    {
      if !deferCommands { return false; }
      deferCommands := false;
      return true;
    }

    // ----- The sequence number -----

    method NextSequence() returns (n: Octet)
      modifies `repeatSequence, `sequence
      ensures Queue() == P.NextSequence(old(Queue())) && n == sequence
    {
      if repeatSequence {
        repeatSequence := false;
        return sequence;
      }
      if sequence >= SEQUENCE_ROTATION {
        sequence := 1;
      } else {
        sequence := sequence + 1;
      }
      return sequence;
    }

    method Resync()
      modifies `sequence, `state, `outbox, `inflight, `repeatSequence, `session, `pending, session
      ensures View() == P.Resync(old(View())) && session == null
    {
      hide P.Restart, P.DropSession;
      Restart();
      state := P.Offline;
      DropSession();
    }

    /** The part of a resync that concerns the queue. */
    method Restart()
      modifies `sequence, `outbox, `inflight, `repeatSequence
      ensures Queue() == P.Restart(old(Queue()))
    {
      Requeue();
      sequence := 0;
      repeatSequence := false;
    }

    // ----- The session -----

    method DropSession()
      modifies `session, `pending, session
      ensures Channel() == P.DropSession(old(Channel())) && session == null
    {
      if session != null {
        session.Teardown();
        session := null;
      }
      pending := None;
    }

    method AbandonSecure()
      modifies `session, `pending, `secureDeclined, session
      ensures Channel() == P.AbandonSecure(old(Channel())) && session == null
    {
      DropSession();
      secureDeclined := true;
    }

    method SecureFailure()
      modifies `state, `session, `pending, `secureDeclined, session
      ensures View() == P.SecureFailure(old(View())) && session == null
    {
      AbandonSecure();
      state := P.Online;
    }

    function BaseKey(bus: P.Bus): Option<Cipher.Block>
      reads this
    {
      if installedKey.Some? then installedKey else bus.keys(address)
    }

    method AfterCapabilities(bus: P.Bus)
      requires Uses(bus)
      modifies `state, `session, `secureDeclined
      ensures View() == P.AfterCapabilities(bus, old(View())) && Uses(bus)
      ensures session == old(session) || fresh(session)
    {
      hide ClaimsSecureChannel, S.NewSession;
      state := P.Online;
      if !bus.secureEnabled || secureDeclined { return; }
      if !ClaimsSecureChannel(caps) {
        secureDeclined := true;
        return;
      }
      var key := BaseKey(bus);
      if key.None? {
        secureDeclined := true;
        return;
      }
      session := new SS.Session(bus.suite, S.CP, key.value);
      state := P.SecureHandshake;
      assert Queue() == old(Queue());
    }

    method HandshakeCommand(bus: P.Bus, rndA: Cipher.Nonce) returns (m: Message, block: Option<Octet>)
      requires Uses(bus)
      modifies `state, `session, `pending, `secureDeclined, session
      ensures (View(), m, block) == P.HandshakeCommand(old(View()), rndA) && Uses(bus)
      ensures session == old(session) || session == null
    {
      if pending.Some? {
        m, block := pending.value.message, Some(pending.value.block);
        pending := None;
        return;
      }
      if session == null {
        SecureFailure();
        return Poll(), None;
      }
      var chlng := session.BeginChallenge(rndA);
      if chlng.Err? {
        SecureFailure();
        return Poll(), None;
      }
      return Message(CHLNG, chlng.value), Some(SCS_11);
    }

    method OnCryptogram(bus: P.Bus, data: seq<Octet>) returns (r: Result<P.Event, P.ReplyError>)
      requires Uses(bus)
      modifies `state, `session, `pending, `secureDeclined, session
      ensures (View(), r) == P.OnCryptogram(bus, old(View()), data) && Uses(bus)
      ensures session == old(session) || session == null
    {
      hide S.AnswerCryptogram;
      if session == null {
        SecureFailure();
        return Ok(P.SecureFailed);
      }
      var scrypt := session.AnswerCryptogram(data);
      if scrypt.Err? {
        SecureFailure();
        return Ok(P.SecureFailed);
      }
      pending := Some(P.SecureStep(Message(SCRYPT, scrypt.value), SCS_13));
      return Ok(P.NoEvent);
    }

    method OnInitialRMAC(bus: P.Bus, data: seq<Octet>) returns (r: Result<P.Event, P.ReplyError>)
      requires Uses(bus)
      modifies `state, `session, `pending, `secureDeclined, session
      ensures (View(), r) == P.OnInitialRMAC(bus, old(View()), data) && Uses(bus)
      ensures session == old(session) || session == null
    {
      hide S.CompleteHandshake;
      if session == null {
        SecureFailure();
        return Ok(P.SecureFailed);
      }
      var done := session.CompleteHandshake(data);
      if done.Err? {
        SecureFailure();
        return Ok(P.SecureFailed);
      }
      state := P.Secure;
      return Ok(P.BecameSecure);
    }

    // ----- Key installs -----

    method InstallKey(key: Cipher.Block) returns (ok: bool)
      modifies `outbox, `pendingKey
      ensures (View(), ok) == P.InstallKey(old(View()), key)
    {
      if !SecureEstablished() { return false; }
      pendingKey := Some(key);
      Enqueue(KeySetCommand(key));
      return true;
    }

    method ClearPendingKey()
      modifies `pendingKey
      ensures pendingKey == None
    {
      if pendingKey.None? { return; }
      pendingKey := None;
    }

    method AdoptPendingKey()
      modifies `pendingKey, `installedKey
      ensures pendingKey == None && installedKey == if old(pendingKey).None? then old(installedKey) else old(pendingKey)
    {
      if pendingKey.None? { return; }
      installedKey := pendingKey;
      ClearPendingKey();
    }

    predicate AwaitingKeySet()
      reads this
    {
      pendingKey.Some? && acknowledged == KEYSET
    }

    method OnKeyInstalled() returns (event: P.Event)
      requires AwaitingKeySet()
      modifies `state, `session, `pending, `pendingKey, `installedKey, session
      ensures View() == P.OnKeyInstalled(old(View())) && event == P.KeyInstalled && session == null
    {
      hide P.DropSession;
      AdoptPendingKey();
      DropSession();
      state := P.Identifying;
      assert Queue() == old(Queue());
      return P.KeyInstalled;
    }

    // ----- Choosing and composing the next command -----

    method CommandFor(bus: P.Bus, rndA: Cipher.Nonce) returns (m: Message, block: Option<Octet>)
      requires Uses(bus)
      modifies `state, `session, `pending, `secureDeclined, `outbox, `inflight, `deferCommands, session
      ensures (View(), m, block) == P.CommandFor(old(View()), rndA) && Uses(bus)
      ensures session == old(session) || session == null
    {
      hide P.HandshakeCommand, P.Outbound;
      match state {
        case Offline => return Message(ID, [0]), None;
        case Identifying => return Message(CAP, [0]), None;
        case SecureHandshake =>
          m, block := HandshakeCommand(bus, rndA);
        case Secure =>
          m := UsableCommand();
          block := Some(P.BlockForCommand(|m.data|));
        case Online =>
          m := UsableCommand();
          block := None;
      }
    }

    /** A poll while deferring or withholding a key, and otherwise whatever is queued. */
    method UsableCommand() returns (m: Message)
      modifies `outbox, `inflight, `deferCommands
      ensures old(deferCommands) ==> m == Poll() && Queue() == old(Queue()).(deferCommands := false)
      ensures !old(deferCommands) && old(P.WithholdsKeySet(View())) ==> m == Poll() && Queue() == old(Queue())
      ensures !old(deferCommands) && !old(P.WithholdsKeySet(View())) ==> (Queue(), m) == P.Outbound(old(Queue()))
    {
      var deferring := Deferring();
      if deferring || WithholdsKeySet() { return Poll(); }
      m := Outbound();
    }

    method ComposePlain(bus: P.Bus, m: Message) returns (f: Option<Frame>)
      modifies `repeatSequence, `sequence
      ensures (View(), f) == P.ComposePlain(bus, old(View()), m)
    {
      hide P.NextSequence, Encode;
      var n := NextSequence();
      var encoded := Encode(m, false, address, n, bus.scheme);
      return if encoded.Ok? then Some(encoded.value) else None;
    }

    method ComposeHandshake(bus: P.Bus, m: Message, kind: Octet) returns (f: Option<Frame>)
      modifies `repeatSequence, `sequence
      ensures (View(), f) == P.ComposeHandshake(bus, old(View()), m, kind)
    {
      hide P.NextSequence, EncodeSecure, Frames.Seal;
      var n := NextSequence();
      var encoded := EncodeSecure(m, false, address, n, bus.scheme, SecurityBlock(kind, []));
      return if encoded.Ok? then Some(Frames.Seal(encoded.value)) else None;
    }

    method ComposeSealed(bus: P.Bus, m: Message, kind: Octet) returns (f: Option<Frame>)
      requires Uses(bus)
      modifies `repeatSequence, `sequence, session
      ensures (View(), f) == P.ComposeSealed(bus, old(View()), m, kind)
    {
      hide P.NextSequence, EncodeSecure, Frames.Seal, P.Authenticated, S.Seal, EncryptedBlock;
      if session == null { return None; }
      var data := m.data;
      if EncryptedBlock(kind) {
        var ciphertext := session.Seal(data, true);
        if ciphertext.Err? { return None; }
        data := ciphertext.value;
      }
      var n := NextSequence();
      var encoded := EncodeSecure(Message(m.code, data), false, address, n, bus.scheme, SecurityBlock(kind, []));
      if encoded.Err? { return None; }
      var tagged := Authenticate(session, encoded.value, true);
      if tagged.Err? { return None; }
      return Some(Frames.Seal(tagged.value));
    }

    method Compose(bus: P.Bus, m: Message, block: Option<Octet>) returns (f: Option<Frame>)
      requires Uses(bus)
      modifies `repeatSequence, `sequence, session
      ensures (View(), f) == P.Compose(bus, old(View()), m, block)
    {
      hide P.ComposePlain, P.ComposeSealed, P.ComposeHandshake, EstablishedBlock;
      if block.None? {
        f := ComposePlain(bus, m);
      } else if EstablishedBlock(block.value) {
        f := ComposeSealed(bus, m, block.value);
      } else {
        f := ComposeHandshake(bus, m, block.value);
      }
    }

    method Next(bus: P.Bus, rndA: Cipher.Nonce) returns (f: Option<Frame>)
      requires Uses(bus)
      modifies this, session
      ensures (View(), f) == P.Next(bus, old(View()), rndA) && Uses(bus)
      ensures session == old(session) || session == null
    {
      hide P.CommandFor, P.Compose;
      var m, block := CommandFor(bus, rndA);
      f := Compose(bus, m, block);
    }

    // ----- Replies -----

    method OnStatus(reported: Option<seq<StatusChange>>) returns (r: Result<P.Event, P.ReplyError>)
      modifies board
      ensures (View(), r) == P.OnStatus(old(View()), reported)
    {
      hide Status.Report;
      if reported.None? { return Err(P.ShortPayload); }
      var changed := board.StatusChanges(reported.value);
      return Ok(if changed == [] then P.NoEvent else P.StatusChanged(changed));
    }

    method OnBusy() returns (event: P.Event)
      modifies `outbox, `inflight, `released, `deferCommands
      ensures View() == old(View()).(queue := P.Reclaim(old(Queue())).(deferCommands := true)) && event == P.DeviceBusy
    {
      Reclaim();
      deferCommands := true;
      return P.DeviceBusy;
    }

    method OnCommunication(data: seq<Octet>) returns (r: Result<P.Event, P.ReplyError>)
      modifies this, session
      ensures (View(), r) == P.OnCommunication(old(View()), data)
      ensures session == old(session) || session == null
    {
      hide P.Resync;
      var adopted := ParseCommunication(data);
      if adopted.None? { return Err(P.ShortPayload); }
      address := adopted.value.0;
      Resync();
      return Ok(P.Moved);
    }

    method OnCapabilities(bus: P.Bus, data: seq<Octet>) returns (r: Result<P.Event, P.ReplyError>)
      requires Uses(bus)
      modifies `caps, `state, `session, `secureDeclined
      ensures (View(), r) == P.OnCapabilities(bus, old(View()), data) && Uses(bus)
      ensures session == old(session) || fresh(session)
    {
      hide P.AfterCapabilities, ParseCapabilities;
      var report := ParseCapabilities(data);
      if report.None? { return Err(P.ShortPayload); }
      caps := report.value;
      AfterCapabilities(bus);
      return Ok(if state == P.SecureHandshake then P.CapabilitiesReported else P.WentOnline);
    }

    /** A reply that only shows the device is there. */
    method Answering() returns (event: P.Event)
      modifies `state
      ensures (View(), Ok(event)) == P.Answering(old(View()))
    {
      if state == P.Offline {
        state := P.Identifying;
        return P.WentOnline;
      }
      return P.NoEvent;
    }

    /** The replies that report contacts. */
    method DispatchStatus(bus: P.Bus, m: Message) returns (r: Result<P.Event, P.ReplyError>)
      requires m.code == ISTATR || m.code == OSTATR || m.code == LSTATR || m.code == RSTATR
      modifies board
      ensures (View(), r) == P.Dispatch(bus, old(View()), m)
    {
      hide P.OnStatus, ParseContacts, ParseLocalStatus;
      if m.code == ISTATR {
        r := OnStatus(Some(ParseContacts(StatusInput, m.data)));
      } else if m.code == OSTATR {
        r := OnStatus(Some(ParseContacts(StatusOutput, m.data)));
      } else if m.code == LSTATR {
        r := OnStatus(ParseLocalStatus(m.data));
      } else {
        r := OnStatus(Some(ParseContacts(StatusLocal, m.data)));
      }
    }

    /** The replies that steer the device from one state to the next. */
    method DispatchSteering(bus: P.Bus, m: Message) returns (r: Result<P.Event, P.ReplyError>)
      requires Uses(bus) && (m.code == PDID || m.code == PDCAP || m.code == CCRYPT || m.code == RMAC_I || m.code == COM)
      modifies this, session
      ensures (View(), r) == P.Dispatch(bus, old(View()), m) && Uses(bus)
      ensures session == old(session) || session == null || fresh(session)
    {
      hide P.OnCryptogram, P.OnInitialRMAC, P.OnCapabilities, P.OnCommunication;
      if m.code == PDID {
        if |m.data| < DEVICE_ID_SIZE { return Err(P.ShortPayload); }
        state := P.Identifying;
        return Ok(P.Identified);
      } else if m.code == PDCAP {
        r := OnCapabilities(bus, m.data);
      } else if m.code == CCRYPT {
        r := OnCryptogram(bus, m.data);
      } else if m.code == RMAC_I {
        r := OnInitialRMAC(bus, m.data);
      } else {
        r := OnCommunication(m.data);
      }
    }

    /** The replies that at most confirm or refuse a key. */
    method DispatchPlain(bus: P.Bus, m: Message) returns (r: Result<P.Event, P.ReplyError>)
      requires m.code != ISTATR && m.code != OSTATR && m.code != LSTATR && m.code != RSTATR
      requires m.code != PDID && m.code != PDCAP && m.code != CCRYPT && m.code != RMAC_I && m.code != COM
      modifies this, session
      ensures (View(), r) == P.Dispatch(bus, old(View()), m) && (session == old(session) || session == null)
    {
      hide P.Answering, P.OnKeyInstalled, P.Reclaim, WholeCardRead, WholeKeypadEntry;
      if m.code == RAW {
        return if WholeCardRead(m.data) then Ok(P.CardRead) else Err(P.ShortPayload);
      } else if m.code == KEYPAD {
        return if WholeKeypadEntry(m.data) then Ok(P.KeypadEntry) else Err(P.ShortPayload);
      } else if m.code == NAK {
        if m.data == [] { return Err(P.ShortPayload); }
        ClearPendingKey();
        return Ok(P.Refused);
      } else if m.code == MFGREP {
        return if |m.data| >= 3 then Ok(P.Manufacturer) else Err(P.ShortPayload);
      }
      var event;
      if m.code == BUSY {
        event := OnBusy();
      } else if m.code == ACK && AwaitingKeySet() {
        event := OnKeyInstalled();
      } else {
        event := Answering();
      }
      return Ok(event);
    }

    method Dispatch(bus: P.Bus, m: Message) returns (r: Result<P.Event, P.ReplyError>)
      requires Uses(bus)
      modifies this, session, board
      ensures (View(), r) == P.Dispatch(bus, old(View()), m) && Uses(bus)
      ensures session == old(session) || session == null || fresh(session)
    {
      hide P.Dispatch;
      if m.code == PDID || m.code == PDCAP || m.code == CCRYPT || m.code == RMAC_I || m.code == COM {
        r := DispatchSteering(bus, m);
      } else if m.code == ISTATR || m.code == OSTATR || m.code == LSTATR || m.code == RSTATR {
        r := DispatchStatus(bus, m);
      } else {
        r := DispatchPlain(bus, m);
      }
    }

    method Accept(bus: P.Bus, code: Octet, data: seq<Octet>) returns (r: Result<P.Event, P.ReplyError>)
      requires Uses(bus)
      modifies this, session, board
      ensures (View(), r) == P.Accepted(bus, old(View()), code, data) && Uses(bus)
      ensures session == old(session) || session == null || fresh(session)
    {
      hide P.Dispatch, P.Delivered;
      Delivered();
      r := Dispatch(bus, Message(code, data));
    }

    /** A reply on an established session: opened before anything reads it, and a reason to start over when it
        cannot be. */
    method AcceptSealed(bus: P.Bus, f: Frame) returns (r: Result<P.Event, P.ReplyError>)
      requires Uses(bus) && SecureEstablished()
      modifies this, session, board
      ensures var d := old(View());
              var (s, payload) := P.OpenReply(bus.suite, d.channel.session.value, f);
              (View(), r) ==
              if payload.Err? then (P.Resync(d), Ok(P.SecureFailed))
              else P.Accepted(bus, d.(channel := d.channel.(session := Some(s))), f.code, payload.value)
      ensures Uses(bus) && (session == old(session) || session == null || fresh(session))
    {
      hide P.Accepted, P.Resync, P.OpenReply;
      var payload := OpenReply(session, f);
      if payload.Err? {
        ResyncForgets(old(View()), SessionView());
        Resync();
        return Ok(P.SecureFailed);
      }
      r := Accept(bus, f.code, payload.value);
    }

    method Reply(bus: P.Bus, f: Frame) returns (r: Result<P.Event, P.ReplyError>)
      requires Uses(bus)
      modifies this, session, board
      ensures (View(), r) == P.Reply(bus, old(View()), f) && Uses(bus)
      ensures session == old(session) || session == null || fresh(session)
    {
      hide P.Reply, P.Resync, P.OpenReply, P.Accepted, Sequence;
      ReplyUnattributed(bus, old(View()), f);
      if !f.isReply { return Err(P.NotAReply); }
      if f.address != address { return Err(P.WrongAddress); }
      misses := 0;
      ReplyAttributed(bus, old(View()), View(), f);
      if Sequence(f.control) == 0 {
        Resync();
        return Ok(P.Resynced);
      }
      if SecureEstablished() {
        r := AcceptSealed(bus, f);
      } else {
        r := Accept(bus, f.code, f.data);
      }
    }

    method Timeout() returns (event: P.Event)
      modifies this, session
      ensures (View(), event) == P.Timeout(old(View()))
      ensures session == old(session) || session == null
    {
      hide P.Retransmit, P.Resync;
      misses := misses + 1;
      Retransmit();
      if misses < P.OFFLINE_THRESHOLD || state == P.Offline { return P.NoEvent; }
      Resync();
      return P.WentOffline;
    }

    // ----- Submission -----

    method Send(bus: P.Bus, m: Message) returns (ok: bool)
      modifies `outbox
      ensures (View(), ok) == P.Send(bus, old(View()), m)
    {
      hide ReceiveBufferSize, Cipher.PaddedLen;
      var accepted := ReceiveBufferSize(caps);
      if accepted != 0 {
        var payload, security := |m.data|, 0;
        if SecureEstablished() {
          security := 2;
          if payload > 0 {
            payload := Cipher.PaddedLen(payload);
          }
          payload := payload + S.MAC_TAG_SIZE;
        }
        if HEADER_SIZE + security + 1 + payload + bus.scheme.Size() > accepted { return false; }
      }
      Enqueue(m);
      return true;
    }
  }

  /** Reserves room for the tag, authenticates everything before it and writes it in. */
  method Authenticate(s: SS.Session, f: Frame, isCommand: bool) returns (r: Result<Frame, Cipher.SecureError>)
    modifies s
    ensures (s.View(), r) == P.Authenticated(s.suite, old(s.View()), f, isCommand)
  {
    hide Body, S.Authenticate;
    var reserved := f.(data := f.data + Zeros(S.MAC_TAG_SIZE));
    var body := Body(reserved);
    var tag := s.Authenticate(body[..|body| - S.MAC_TAG_SIZE], isCommand);
    if tag.Err? { return Err(tag.error); }
    return Ok(f.(data := f.data + tag.value));
  }

  method OpenReply(s: SS.Session, f: Frame) returns (r: Result<seq<Octet>, Cipher.SecureError>)
    modifies s
    ensures (s.View(), r) == P.OpenReply(s.suite, old(s.View()), f)
  {
    hide Body, S.Verify, S.Open, EncryptedBlock;
    if f.security.None? || |f.data| < S.MAC_TAG_SIZE { return Err(Cipher.MACMismatch); }
    var body := Body(f);
    var split := |f.data| - S.MAC_TAG_SIZE;
    var verified := s.Verify(body[..|body| - S.MAC_TAG_SIZE], f.data[split..], false);
    if verified.Err? { return Err(verified.error); }
    if !EncryptedBlock(f.security.value.kind) { return Ok(f.data[..split]); }
    r := s.Open(f.data[..split], false);
  }

  lemma ResyncForgets(d: P.Device, s: Option<S.Session>)
    ensures P.Resync(d.(channel := d.channel.(session := s))) == P.Resync(d)
  {
  }

  lemma ReplyUnattributed(bus: P.Bus, d: P.Device, f: Frame)
    ensures !f.isReply ==> P.Reply(bus, d, f) == (d, Err(P.NotAReply))
    ensures f.isReply && f.address != d.address ==> P.Reply(bus, d, f) == (d, Err(P.WrongAddress))
  {
    hide P.OpenReply, P.Accepted, P.Resync, Sequence;
  }

  lemma ReplyAttributed(bus: P.Bus, d: P.Device, d1: P.Device, f: Frame)
    requires f.isReply && f.address == d.address && d1 == d.(queue := d.queue.(misses := 0))
    ensures P.Reply(bus, d, f) ==
            if Sequence(f.control) == 0 then (P.Resync(d1), Ok(P.Resynced))
            else if P.SecureEstablished(d1) then
              var (s, payload) := P.OpenReply(bus.suite, d1.channel.session.value, f);
              if payload.Err? then (P.Resync(d1), Ok(P.SecureFailed))
              else P.Accepted(bus, d1.(channel := d1.channel.(session := Some(s))), f.code, payload.value)
            else P.Accepted(bus, d1, f.code, f.data)
  {
    hide P.OpenReply, P.Accepted, P.Resync, Sequence;
    if P.SecureEstablished(d1) {
      var payload := P.OpenReply(bus.suite, d1.channel.session.value, f).1;
      assert payload.Err? || payload.Ok?;
    }
  }

  /** The devices of one line, polled in turn. */
  class Bus {
    const settings: P.Bus
    const devices: seq<Device>
    var current: nat

    ghost predicate Valid()
      reads this, devices
    {
      (devices != [] ==> current < |devices|) && forall i :: 0 <= i < |devices| ==> devices[i].Uses(settings)
    }

    constructor (settings: P.Bus, devices: seq<Device>)
      requires forall i :: 0 <= i < |devices| ==> devices[i].Uses(settings)
      ensures Valid() && this.settings == settings && this.devices == devices && current == 0
    {
      this.settings := settings;
      this.devices := devices;
      current := 0;
    }

    /** The next device's turn: it is asked for its next command, and the turn passes on whatever comes of it. */
    method Next(rndA: Cipher.Nonce) returns (turn: Option<nat>, f: Option<Frame>)
      requires Valid()
      modifies this, if devices == [] then {} else {devices[current]}, if devices == [] then null else devices[current].session
      ensures Valid() && (turn.None? <==> devices == []) && (turn.None? ==> f.None?)
      ensures turn.Some? ==>
                && turn.value == old(current) < |devices| && current == (old(current) + 1) % |devices|
                && (devices[turn.value].View(), f) == P.Next(settings, old(devices[current].View()), rndA)
    {
      if devices == [] { return None, None; }
      var d := devices[current];
      turn := Some(current);
      current := (current + 1) % |devices|;
      f := d.Next(settings, rndA);
    }
  }

  /** Whose turn it is after n calls. */
  function TurnAfter(first: nat, n: nat, devices: nat): nat
    requires devices > 0 && first < devices
    decreases n
  {
    if n == 0 then first else (TurnAfter(first, n - 1, devices) + 1) % devices
  }

  lemma {:induction false} TurnAfterWraps(first: nat, n: nat, devices: nat)
    requires first < devices && n < devices
    ensures TurnAfter(first, n, devices) == if first + n < devices then first + n else first + n - devices
  {
    if n > 0 {
      TurnAfterWraps(first, n - 1, devices);
      StepWraps(TurnAfter(first, n - 1, devices), devices);
    }
  }

  lemma StepWraps(turn: nat, devices: nat)
    requires turn < devices
    ensures (turn + 1) % devices == if turn + 1 == devices then 0 else turn + 1
  {
    if turn + 1 < devices {
      Small(turn + 1, devices);
    }
  }

  lemma Small(x: nat, n: nat)
    requires x < n
    ensures x % n == x
  {
  }

  /** As many calls as there are devices give every device exactly one turn, wherever they start. */
  lemma EveryDeviceGetsOneTurn(first: nat, devices: nat, i: nat)
    requires first < devices && i < devices
    ensures exists n :: 0 <= n < devices && TurnAfter(first, n, devices) == i
    ensures forall m, n :: 0 <= m < n < devices ==> TurnAfter(first, m, devices) != TurnAfter(first, n, devices)
  {
    var k := if i >= first then i - first else i + devices - first;
    TurnAfterWraps(first, k, devices);
    forall m, n | 0 <= m < n < devices
      ensures TurnAfter(first, m, devices) != TurnAfter(first, n, devices)
    {
      TurnAfterWraps(first, m, devices);
      TurnAfterWraps(first, n, devices);
    }
  }
}
