/** The peripheral device as internal/pd keeps it: a record its methods update in place. Each method is the step
    of the same name on device values. */
module ReaderDevices {
  import opened Octets
  import opened Frames
  import opened Messages
  import Check
  import Cipher
  import S = Sessions
  import SS = SecureSessions
  import R = Reader

  class Device {
    const cfg: R.Config
    var address: Octet
    const inputs: array<bool>
    const outputs: array<bool>
    var tamper: bool
    var powerFailure: bool
    var capabilities: seq<Capability>
    var key: Cipher.Block
    var session: SS.Session?
    var pending: seq<Message>
    var seen: bool
    var lastSeen: int
    var cached: Frame
    var cachedSequence: Octet
    var cachedValid: bool
    var adopting: Option<Octet>
    var adoptingKey: Option<Cipher.Block>

    ghost function Points(): R.Points
      reads this, inputs, outputs
    {
      R.Points(inputs[..], outputs[..], tamper, powerFailure)
    }

    ghost function SessionView(): Option<S.Session>
      reads this, session
    {
      if session == null then None else Some(session.View())
    }

    ghost function View(): R.Device
      reads this, inputs, outputs, session
    {
      R.Device(address, Points(), capabilities, key, SessionView(), pending, seen, lastSeen,
               R.Cache(cachedValid, cachedSequence, cached), adopting, adoptingKey)
    }

    /** The contacts are separate, and a session runs on the configured suite. */
    ghost predicate Valid()
      reads this
    {
      inputs != outputs && (session != null ==> session.suite == cfg.suite)
    }

    constructor (cfg: R.Config, address: Octet)
      ensures Valid() && View() == R.New(cfg, address) && this.cfg == cfg && session == null && fresh(inputs) && fresh(outputs)
    {
      this.cfg := cfg;
      this.address := address;
      inputs := new bool[cfg.inputs](_ => false);
      outputs := new bool[cfg.outputs](_ => false);
      tamper, powerFailure := false, false;
      capabilities := R.CapabilitiesFor(cfg, cfg.key);
      key := cfg.key;
      session := null;
      pending := [];
      seen, lastSeen := false, 0;
      cached, cachedSequence, cachedValid := R.EmptyFrame, 0, false;
      adopting, adoptingKey := None, None;
      new;
      assert inputs[..] == seq(cfg.inputs, _ => false);
      assert outputs[..] == seq(cfg.outputs, _ => false);
    }

    // ----- The exchange starting over -----

    method DropSession()
      modifies `session, session
      ensures View() == old(View()).(session := None) && session == null
    {
      if session != null {
        session.Teardown();
        session := null;
      }
    }

    method Restart()
      modifies `cached, `cachedSequence, `cachedValid, `session, session
      ensures View() == R.Restart(old(View())) && session == null
    {
      cached, cachedSequence, cachedValid := R.EmptyFrame, 0, false;
      DropSession();
    }

    method Observe(now: int)
      requires Valid()
      modifies `cached, `cachedSequence, `cachedValid, `session, `seen, `lastSeen, session
      ensures View() == R.Observe(cfg, old(View()), now) && Valid() && (session == old(session) || session == null)
    {
      if seen && cfg.timeout > 0 && now - lastSeen > cfg.timeout {
        Restart();
      }
      seen, lastSeen := true, now;
    }

    // ----- Contacts and outputs -----

    /** Two passes over the entries, of which the first may refuse. */
    method ApplyOutputs(data: seq<Octet>) returns (m: Message)
      requires Valid()
      modifies outputs
      ensures (View(), m) == R.ApplyOutputs(old(View()), data)
    {
      hide R.FoldOutputs, R.EntriesValid;
      if |data| == 0 || |data| % R.OUTPUT_ENTRY_SIZE != 0 { return Nak(NAK_COMMAND_LENGTH); }
      var valid := CheckEntries(data);
      if !valid { return Nak(NAK_UNSUPPORTED_INPUT); }
      WriteEntries(data);
      return Ack();
    }

    method CheckEntries(data: seq<Octet>) returns (valid: bool)
      requires |data| % R.OUTPUT_ENTRY_SIZE == 0
      ensures valid == R.EntriesValid(outputs.Length, data)
    {
      hide R.OutputActionFor, Nat;
      var i := 0;
      while i < |data|
        invariant 0 <= i <= |data| && i % R.OUTPUT_ENTRY_SIZE == 0
        invariant R.EntriesValid(outputs.Length, data) == R.EntriesValid(outputs.Length, data[i..])
      {
        var rest := data[i..];
        assert rest[R.OUTPUT_ENTRY_SIZE..] == data[i + R.OUTPUT_ENTRY_SIZE..];
        if Nat(data[i]) >= outputs.Length { return false; }
        if R.OutputActionFor(data[i + 1]) == R.UnknownAction { return false; }
        i := i + R.OUTPUT_ENTRY_SIZE;
      }
      return true;
    }

    method WriteEntries(data: seq<Octet>)
      requires |data| % R.OUTPUT_ENTRY_SIZE == 0 && R.EntriesValid(outputs.Length, data)
      modifies outputs
      ensures outputs[..] == R.FoldOutputs(old(outputs[..]), data)
    {
      hide R.OutputActionFor, Nat, R.EntriesValid, R.FoldOutputs;
      var i := 0;
      assert data[0..] == data;
      while i < |data|
        invariant 0 <= i <= |data| && i % R.OUTPUT_ENTRY_SIZE == 0
        invariant R.EntriesValid(outputs.Length, data[i..])
        invariant R.FoldOutputs(outputs[..], data[i..]) == R.FoldOutputs(old(outputs[..]), data)
      {
        ghost var before := outputs[..];
        FoldStep(before, data[i..]);
        assert data[i..][R.OUTPUT_ENTRY_SIZE..] == data[i + R.OUTPUT_ENTRY_SIZE..];
        var number, action := Nat(data[i]), R.OutputActionFor(data[i + 1]);
        if action == R.Deenergise {
          outputs[number] := false;
        } else if action == R.Energise {
          outputs[number] := true;
        }
        assert outputs[..] == R.ApplyEntry(before, number, action);
        i := i + R.OUTPUT_ENTRY_SIZE;
      }
      FoldNothing(outputs[..]);
    }

    method ApplyCommunication(data: seq<Octet>) returns (m: Message)
      modifies `adopting
      ensures (View(), m) == R.ApplyCommunication(old(View()), data)
    {
      hide ValidAddress;
      var want := ParseCommunication(data);
      if want.None? { return Nak(NAK_COMMAND_LENGTH); }
      var (a, baud) := want.value;
      if !ValidAddress(a) || a == BROADCAST { return Nak(NAK_UNSUPPORTED_INPUT); }
      adopting := Some(a);
      return Message(COM, [a] + baud);
    }

    method InstallKey(data: seq<Octet>) returns (m: Message)
      modifies `adoptingKey
      ensures (View(), m) == R.InstallKey(old(View()), data)
    {
      hide ParseKeySet;
      var payload := ParseKeySet(data);
      if payload.None? { return Nak(NAK_COMMAND_LENGTH); }
      var (kind, k) := payload.value;
      if kind != KEY_SCBK || |k| != Cipher.BLOCK_SIZE { return Nak(NAK_UNSUPPORTED_INPUT); }
      adoptingKey := Some(k);
      return Ack();
    }

    // ----- Reports waiting for a poll -----

    method PollReply() returns (m: Message)
      modifies `pending
      ensures (View(), m) == R.PollReply(old(View()))
    {
      if pending == [] { return Ack(); }
      m := pending[0];
      pending := pending[1..];
    }

    method QueueReport(m: Message) returns (ok: bool)
      modifies `pending
      ensures (pending, ok) == R.Queue(cfg, old(pending), m)
    {
      if |pending| >= cfg.queue { return false; }
      pending := pending + [m];
      return true;
    }

    /** Replaces the report of the same kind that waits, and queues this one when none does. */
    method Coalesce(m: Message) returns (ok: bool)
      modifies `pending
      ensures (pending, ok) == R.Coalesce(cfg, old(pending), m)
    {
      hide R.FirstWith;
      var i := 0;
      ghost var k := R.FirstWith(pending, m.code);
      while i < |pending|
        invariant 0 <= i <= |pending| && pending == old(pending) && i <= k
      {
        if pending[i].code == m.code {
          pending := pending[i := m];
          return true;
        }
        i := i + 1;
      }
      ok := QueueReport(m);
    }

    method ContactStatus(code: Octet, state: array<bool>) returns (m: Message)
      ensures m == R.ContactStatus(code, state[..])
    {
      var data := [];
      for i := 0 to state.Length
        invariant |data| == i && forall j :: 0 <= j < i ==> data[j] == R.BoolOctet(state[j])
      {
        data := data + [R.BoolOctet(state[i])];
      }
      m := Message(code, data);
    }

    // ----- The command table -----

    /** The commands that read or change the device. */
    method DispatchState(m: Message, secured: bool, env: R.Env) returns (answer: Message)
      requires Valid()
      requires m.code == POLL || m.code == ISTAT || m.code == OSTAT || m.code == OUT || m.code == COMSET || m.code == KEYSET
      modifies `pending, `adopting, `adoptingKey, outputs
      ensures (View(), answer) == R.Dispatch(cfg, old(View()), m, secured, env)
    {
      hide R.PollReply, R.ApplyOutputs, R.ApplyCommunication, R.InstallKey, R.ContactStatus;
      if m.code == POLL {
        answer := PollReply();
      } else if m.code == ISTAT {
        answer := ContactStatus(ISTATR, inputs);
      } else if m.code == OSTAT {
        answer := ContactStatus(OSTATR, outputs);
      } else if m.code == OUT {
        answer := ApplyOutputs(m.data);
      } else if m.code == COMSET {
        answer := ApplyCommunication(m.data);
      } else {
        if !secured { return Nak(NAK_SECURE_REQUIRED); }
        answer := InstallKey(m.data);
      }
    }

    method Dispatch(m: Message, secured: bool, env: R.Env) returns (answer: Message)
      requires Valid()
      modifies `pending, `adopting, `adoptingKey, outputs
      ensures (View(), answer) == R.Dispatch(cfg, old(View()), m, secured, env)
    {
      hide R.PollReply, R.ApplyOutputs, R.ApplyCommunication, R.InstallKey, R.ContactStatus, AppendCapabilities, R.LocalStatus, R.Delegate;
      var code := m.code;
      if code == POLL || code == ISTAT || code == OSTAT || code == OUT || code == COMSET || code == KEYSET {
        answer := DispatchState(m, secured, env);
      } else if code == ID {
        return Message(PDID, cfg.identity);
      } else if code == CAP {
        return Message(PDCAP, AppendCapabilities(capabilities));
      } else if code == LSTAT {
        return LocalStatus();
      } else if code == RSTAT {
        return Message(RSTATR, Zeros(cfg.readers));
      } else if code == LED || code == BUZ || code == TEXT || code == KEEPACTIVE || code == ABORT || code == ACURXSIZE {
        return Ack();
      } else if code == CHLNG || code == SCRYPT {
        return Nak(if cfg.secure then NAK_SECURE_REQUIRED else NAK_ENCRYPTION_UNSUPPORTED);
      } else {
        return R.Delegate(env);
      }
    }

    function LocalStatus(): (m: Message)
      reads this, inputs, outputs
      ensures m == R.LocalStatus(Points())
    {
      Message(LSTATR, [R.BoolOctet(tamper), R.BoolOctet(powerFailure)])
    }

    // ----- The secure channel -----

    predicate Established()
      reads this, session
    {
      session != null && session.Established()
    }

    method AnswerChallenge(chlng: seq<Octet>, rndB: Cipher.Nonce) returns (m: Message, block: Option<Octet>)
      requires Valid()
      modifies `session, session
      ensures (View(), m, block) == R.AnswerChallenge(cfg, old(View()), chlng, rndB) && Valid()
      ensures session == null || fresh(session)
    {
      hide S.AnswerChallenge;
      DropSession();
      var attempt := new SS.Session(cfg.suite, S.PD, key);
      var ccrypt := attempt.AnswerChallenge(chlng, rndB, cfg.identity[..8]);
      if ccrypt.Err? {
        attempt.Teardown();
        return Nak(NAK_COMMAND_LENGTH), None;
      }
      session := attempt;
      return Message(CCRYPT, ccrypt.value), Some(SCS_12);
    }

    method AnswerCryptogram(scrypt: seq<Octet>) returns (m: Message, block: Option<Octet>)
      requires Valid()
      modifies `session, session
      ensures (View(), m, block) == R.AnswerCryptogram(cfg, old(View()), scrypt) && Valid()
      ensures session == old(session) || session == null
    {
      hide S.AnswerServerCryptogram;
      if session == null { return Nak(NAK_SECURE_REQUIRED), None; }
      var rmac := session.AnswerServerCryptogram(scrypt);
      if rmac.Err? {
        DropSession();
        return Nak(NAK_SECURE_REQUIRED), None;
      }
      return Message(RMAC_I, rmac.value), Some(SCS_14);
    }

    method AnswerEstablished(f: Frame, env: R.Env) returns (m: Message, block: Option<Octet>)
      requires Valid()
      modifies `pending, `adopting, `adoptingKey, `session, outputs, session
      ensures (View(), m, block) == R.AnswerEstablished(cfg, old(View()), f, env) && Valid()
      ensures session == old(session) || session == null
    {
      hide R.Open, R.Dispatch, R.ReplyBlock;
      if !Established() { return Nak(NAK_SECURE_REQUIRED), None; }
      var payload := Open(session, f);
      if payload.Err? {
        DropSession();
        return Nak(NAK_SECURE_REQUIRED), None;
      }
      m := Dispatch(Message(f.code, payload.value), true, env);
      block := Some(R.ReplyBlock(|m.data|));
    }

    method AnswerSecure(f: Frame, kind: Octet, env: R.Env) returns (m: Message, block: Option<Octet>)
      requires Valid()
      modifies `pending, `adopting, `adoptingKey, `session, outputs, session
      ensures (View(), m, block) == R.AnswerSecure(cfg, old(View()), f, kind, env) && Valid()
      ensures session == old(session) || session == null || fresh(session)
    {
      hide R.AnswerChallenge, R.AnswerCryptogram, R.AnswerEstablished;
      if !cfg.secure { return Nak(NAK_ENCRYPTION_UNSUPPORTED), None; }
      if kind == SCS_11 {
        m, block := AnswerChallenge(f.data, env.rndB);
      } else if kind == SCS_13 {
        m, block := AnswerCryptogram(f.data);
      } else if kind == SCS_15 || kind == SCS_17 {
        m, block := AnswerEstablished(f, env);
      } else {
        return Nak(NAK_ENCRYPTION_UNSUPPORTED), None;
      }
    }

    method Answer(f: Frame, env: R.Env) returns (m: Message, block: Option<Octet>)
      requires Valid()
      modifies `pending, `adopting, `adoptingKey, `session, outputs, session
      ensures (View(), m, block) == R.Answer(cfg, old(View()), f, env) && Valid()
      ensures session == old(session) || session == null || fresh(session)
    {
      hide R.AnswerSecure, R.Dispatch;
      if f.security.Some? {
        m, block := AnswerSecure(f, f.security.value.kind, env);
      } else if Established() {
        DropSession();
        return Nak(NAK_SECURE_REQUIRED), None;
      } else {
        m := Dispatch(Message(f.code, f.data), false, env);
        block := None;
      }
    }

    method AnswerFor(f: Frame, env: R.Env) returns (m: Message, block: Option<Octet>)
      requires Valid()
      modifies `pending, `adopting, `adoptingKey, `session, outputs, session
      ensures (View(), m, block) == R.AnswerFor(cfg, old(View()), f, env) && Valid()
      ensures session == old(session) || session == null || fresh(session)
    {
      hide R.Answer, Sequence, Rotate;
      if cfg.strict && cachedValid && Sequence(f.control) != Rotate(cachedSequence) { return Nak(NAK_SEQUENCE), None; }
      m, block := Answer(f, env);
    }

    // ----- Building the reply -----

    /** The payload for a reply under this block. */
    method SealPayload(data: seq<Octet>, kind: Octet) returns (r: Result<seq<Octet>, Cipher.SecureError>)
      requires Valid() && session != null
      ensures r == if EncryptedBlock(kind) then S.Seal(cfg.suite, session.View(), data, false) else Ok(data)
    {
      hide S.Seal, EncryptedBlock;
      if !EncryptedBlock(kind) { return Ok(data); }
      r := session.Seal(data, false);
    }

    method SealReply(m: Message, sequence: Octet, scheme: Check.Scheme, kind: Octet) returns (f: Option<Frame>)
      requires Valid()
      modifies session
      ensures (View(), f) == R.SealReply(cfg, old(View()), m, sequence, scheme, kind)
    {
      hide EncodeSecure, Frames.Seal, S.Seal, S.Authenticate, EncryptedBlock, Covered;
      if session == null { return None; }
      var payload := SealPayload(m.data, kind);
      if payload.Err? { return None; }
      var reserved := Message(m.code, payload.value + Zeros(S.MAC_TAG_SIZE));
      EncodeKeepsData(reserved, address, sequence, scheme, kind);
      var encoded := EncodeSecure(reserved, true, address, sequence, scheme, SecurityBlock(kind, []));
      if encoded.Err? { return None; }
      var tag := session.Authenticate(Covered(encoded.value), false);
      if tag.Err? { return None; }
      return Some(Frames.Seal(encoded.value.(data := payload.value + tag.value)));
    }

    method EncodeReply(m: Message, sequence: Octet, scheme: Check.Scheme, block: Option<Octet>) returns (f: Option<Frame>)
      requires Valid()
      modifies session
      ensures (View(), f) == R.EncodeReply(cfg, old(View()), m, sequence, scheme, block)
    {
      hide Encode, EncodeSecure, Frames.Seal, R.SealReply, HandshakeBlock;
      if block.None? {
        var encoded := Encode(m, true, address, sequence, scheme);
        return if encoded.Ok? then Some(encoded.value) else None;
      }
      if HandshakeBlock(block.value) {
        var encoded := EncodeSecure(m, true, address, sequence, scheme, SecurityBlock(block.value, []));
        return if encoded.Ok? then Some(Frames.Seal(encoded.value)) else None;
      }
      f := SealReply(m, sequence, scheme, block.value);
    }

    method AdoptKey()
      requires Valid()
      modifies `adoptingKey, `key, `session, `capabilities, session
      ensures View() == R.AdoptKey(cfg, old(View())) && Valid() && (session == old(session) || session == null)
    {
      hide R.CapabilitiesFor;
      if adoptingKey.None? { return; }
      key := adoptingKey.value;
      adoptingKey := None;
      DropSession();
      capabilities := R.CapabilitiesFor(cfg, key);
    }

    method AdoptAddress()
      modifies `address, `adopting
      ensures View() == R.AdoptAddress(old(View()))
    {
      if adopting.Some? {
        address, adopting := adopting.value, None;
      }
    }

    method Remember(sequence: Octet, f: Frame)
      modifies `cached, `cachedSequence, `cachedValid
      ensures var d := old(View());
              View() == d.(cache := if sequence == 0 then d.cache.(valid := false) else R.Cache(true, sequence, f))
    {
      if sequence == 0 {
        cachedValid := false;
      } else {
        cached, cachedSequence, cachedValid := f, sequence, true;
      }
    }

    /** The reply is built and cached first; only then do a new address or a new key take effect. */
    method Emit(sequence: Octet, scheme: Check.Scheme, m: Message, block: Option<Octet>) returns (f: Option<Frame>)
      requires Valid()
      modifies `cached, `cachedSequence, `cachedValid, `address, `adopting, `adoptingKey, `key, `session, `capabilities, session
      ensures (View(), f) == R.Emit(cfg, old(View()), sequence, scheme, m, block) && Valid()
      ensures session == old(session) || session == null
    {
      hide R.EncodeReply, R.AdoptKey, R.AdoptAddress;
      f := EncodeReply(m, sequence, scheme, block);
      if f.None? {
        adopting, adoptingKey := None, None;
        return;
      }
      Remember(sequence, f.value);
      AdoptAddress();
      AdoptKey();
    }

    // ----- One command -----

    function Screen(f: Frame): Option<R.HandleError> {
      if f.isReply then Some(R.NotCommand) else if !CheckOK(f) then Some(R.Corrupt) else None
    }

    predicate Addressed(a: Octet)
      reads this
    {
      a == address || (cfg.configAddr && a == BROADCAST)
    }

    method Handle(f: Frame, env: R.Env) returns (r: Result<Frame, R.HandleError>)
      requires Valid()
      modifies this, outputs, session
      ensures (View(), r) == R.Handle(cfg, old(View()), f, env) && Valid()
      ensures session == old(session) || session == null || fresh(session)
    {
      hide CheckOK, Sequence, R.Observe, R.Execute, R.Handle;
      HandleRefused(cfg, old(View()), f, env);
      var e := Screen(f);
      if e.Some? { return Err(e.value); }
      if !Addressed(f.address) { return Err(R.NotAddressed); }
      HandleTaken(cfg, old(View()), f, env);
      Observe(env.now);
      var sequence := Sequence(f.control);
      if sequence != 0 && cachedValid && sequence == cachedSequence { return Ok(cached); }
      var reply := Execute(f, env);
      return if reply.None? then Err(R.Unencodable) else Ok(reply.value);
    }

    method Execute(f: Frame, env: R.Env) returns (reply: Option<Frame>)
      requires Valid()
      modifies this, outputs, session
      ensures (View(), reply) == R.Execute(cfg, old(View()), f, env) && Valid()
      ensures session == old(session) || session == null || fresh(session)
    {
      hide Sequence, SchemeOf, R.AnswerFor, R.Emit, R.Restart;
      if Sequence(f.control) == 0 {
        Restart();
      }
      var m, block := AnswerFor(f, env);
      reply := Emit(Sequence(f.control), SchemeOf(f.control), m, block);
    }

    // ----- What happens at the reader -----

    method ReportCardRead(card: R.Card) returns (ok: bool)
      modifies `pending
      ensures (View(), ok) == R.Happen(cfg, old(View()), R.CardPresented(card))
    {
      hide R.AppendCardRead;
      if |card.data| < (card.bitCount + 7) / 8 { return false; }
      ok := QueueReport(Message(RAW, R.AppendCardRead(card)));
    }

    method ReportKeypad(reader: Octet, keys: seq<Octet>) returns (ok: bool)
      modifies `pending
      ensures (View(), ok) == R.Happen(cfg, old(View()), R.KeysPressed(reader, keys))
    {
      hide R.AppendKeypad;
      ok := QueueReport(Message(KEYPAD, R.AppendKeypad(reader, keys)));
    }

    method SetInput(index: int, active: bool) returns (ok: bool)
      requires Valid()
      modifies `pending, inputs
      ensures (View(), ok) == R.Happen(cfg, old(View()), R.InputMoved(index, active))
    {
      hide R.Coalesce, R.ContactStatus;
      if index < 0 || index >= inputs.Length { return false; }
      inputs[index] := active;
      assert inputs[..] == old(inputs[..])[index := active];
      var m := ContactStatus(ISTATR, inputs);
      ok := Coalesce(m);
    }

    method SetTamper(active: bool) returns (ok: bool)
      modifies `tamper, `pending
      ensures (View(), ok) == R.Happen(cfg, old(View()), R.TamperMoved(active))
    {
      hide R.Coalesce, R.LocalStatus;
      tamper := active;
      ok := Coalesce(LocalStatus());
    }

    method SetPower(failure: bool) returns (ok: bool)
      modifies `powerFailure, `pending
      ensures (View(), ok) == R.Happen(cfg, old(View()), R.PowerMoved(failure))
    {
      hide R.Coalesce, R.LocalStatus;
      powerFailure := failure;
      ok := Coalesce(LocalStatus());
    }
  }

  /** A device has an address of its own, a contact count that fits an octet and room for at least one report. */
  method NewDevice(cfg: R.Config, address: Octet) returns (d: Option<Device>)
    ensures d.Some? <==> address < BROADCAST && R.ValidConfig(cfg)
    ensures d.Some? ==> fresh(d.value) && d.value.Valid() && d.value.cfg == cfg && d.value.View() == R.New(cfg, address)
  {
    if !ValidAddress(address) || address == BROADCAST { return None; }
    if cfg.inputs > 0xFF || cfg.outputs > 0xFF || cfg.readers > 0xFF { return None; }
    if cfg.queue < 1 { return None; }
    var device := new Device(cfg, address);
    return Some(device);
  }

  lemma FoldStep(outputs: seq<bool>, data: seq<Octet>)
    requires data != [] && |data| % R.OUTPUT_ENTRY_SIZE == 0 && R.EntriesValid(|outputs|, data)
    ensures Nat(data[0]) < |outputs| && R.EntriesValid(|outputs|, data[R.OUTPUT_ENTRY_SIZE..])
    ensures R.FoldOutputs(outputs, data) ==
            R.FoldOutputs(R.ApplyEntry(outputs, Nat(data[0]), R.OutputActionFor(data[1])), data[R.OUTPUT_ENTRY_SIZE..])
  {
    hide R.OutputActionFor, Nat;
  }

  lemma FoldNothing(outputs: seq<bool>)
    ensures R.EntriesValid(|outputs|, []) && R.FoldOutputs(outputs, []) == outputs
  {
  }

  lemma HandleRefused(cfg: R.Config, d: R.Device, f: Frame, env: R.Env)
    ensures R.Screen(f).Some? ==> R.Handle(cfg, d, f, env) == (d, Err(R.Screen(f).value))
    ensures R.Screen(f).None? && !R.Addressed(cfg, d, f.address) ==> R.Handle(cfg, d, f, env) == (d, Err(R.NotAddressed))
  {
    hide CheckOK, Sequence, R.Observe, R.Execute;
  }

  lemma HandleTaken(cfg: R.Config, d: R.Device, f: Frame, env: R.Env)
    requires R.Screen(f).None? && R.Addressed(cfg, d, f.address)
    ensures var d1 := R.Observe(cfg, d, env.now);
            R.Handle(cfg, d, f, env) ==
            if R.Replays(d1, Sequence(f.control)) then (d1, Ok(d1.cache.reply))
            else
              var (d2, reply) := R.Execute(cfg, d1, f, env);
              (d2, if reply.None? then Err(R.Unencodable) else Ok(reply.value))
  {
    hide CheckOK, Sequence, R.Observe, R.Execute;
    var reply := R.Execute(cfg, R.Observe(cfg, d, env.now), f, env).1;
    assert reply.None? || reply.Some?;
  }

  lemma EncodeKeepsData(m: Message, address: Octet, sequence: Octet, scheme: Check.Scheme, kind: Octet)
    ensures var f := EncodeSecure(m, true, address, sequence, scheme, SecurityBlock(kind, [])); f.Ok? ==> f.value.data == m.data
  {
    hide ValidAddress, NewControl;
  }

  /** Verifies a command before anything reads it, then deciphers what it verified. */
  method Open(s: SS.Session, f: Frame) returns (r: Result<seq<Octet>, Cipher.SecureError>)
    modifies s
    ensures (s.View(), r) == R.Open(s.suite, old(s.View()), f)
  {
    hide Body, S.Verify, S.Open, EncryptedBlock;
    if |f.data| < S.MAC_TAG_SIZE { return Err(Cipher.MACMismatch); }
    var body := Body(f);
    var split := |f.data| - S.MAC_TAG_SIZE;
    var verified := s.Verify(body[..|body| - S.MAC_TAG_SIZE], f.data[split..], true);
    if verified.Err? { return Err(verified.error); }
    if f.security.None? || !EncryptedBlock(f.security.value.kind) { return Ok(f.data[..split]); }
    r := s.Open(f.data[..split], true);
  }
}
