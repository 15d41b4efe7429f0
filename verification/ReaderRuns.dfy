/** The discipline a peripheral device keeps over every run. */
module ReaderRuns {
  import opened Octets
  import opened Frames
  import opened Messages
  import opened Reader
  import Check
  import S = Sessions

  /** A queued report is a card read, keys, or a snapshot of the contacts as they are now. */
  predicate Reportable(p: Points, m: Message) {
    || m.code == RAW || m.code == KEYPAD
    || m == ContactStatus(ISTATR, p.inputs)
    || m == LocalStatus(p)
  }

  predicate AllReportable(p: Points, pending: seq<Message>) {
    forall i :: 0 <= i < |pending| ==> Reportable(p, pending[i])
  }

  /** No two snapshots of one kind wait at once. */
  predicate Coalesced(pending: seq<Message>) {
    forall i, j :: 0 <= i < j < |pending| && (pending[i].code == ISTATR || pending[i].code == LSTATR) ==> pending[i].code != pending[j].code
  }

  predicate Points256(cfg: Config, p: Points) {
    |p.inputs| == cfg.inputs && |p.outputs| == cfg.outputs
  }

  /** What holds whenever no call is in progress. */
  ghost predicate Orderly(cfg: Config, d: Device) {
    && d.address < BROADCAST && d.adopting.None? && d.adoptingKey.None?
    && (d.cache.valid ==> 1 <= d.cache.sequence <= SEQUENCE_ROTATION)
    && (d.session.Some? ==> d.session.value.role == S.PD)
    && Points256(cfg, d.points)
    && |d.pending| <= cfg.queue && AllReportable(d.points, d.pending) && Coalesced(d.pending)
  }

  // ----- Dispatch -----

  /** The parts of a device no command in the table touches. */
  predicate SameCore(d: Device, e: Device) {
    && e.address == d.address && e.key == d.key && e.capabilities == d.capabilities && e.session == d.session
    && e.cache == d.cache && e.seen == d.seen && e.lastSeen == d.lastSeen
  }

  lemma OutputsKeepCore(d: Device, data: seq<Octet>)
    ensures SameCore(d, ApplyOutputs(d, data).0)
    ensures var e := ApplyOutputs(d, data).0;
            e.pending == d.pending && e.adopting == d.adopting && e.adoptingKey == d.adoptingKey &&
            e.points == d.points.(outputs := e.points.outputs) && |e.points.outputs| == |d.points.outputs|
    ensures ApplyOutputs(d, data).1.code != BUSY
  {
    hide EntriesValid, FoldOutputs;
  }

  lemma CommunicationKeepsCore(d: Device, data: seq<Octet>)
    ensures SameCore(d, ApplyCommunication(d, data).0)
    ensures var e := ApplyCommunication(d, data).0;
            e.pending == d.pending && e.adoptingKey == d.adoptingKey && e.points == d.points &&
            (e.adopting == d.adopting || (e.adopting.Some? && e.adopting.value < BROADCAST))
    ensures ApplyCommunication(d, data).1.code != BUSY
  {
    hide ParseCommunication;
  }

  lemma InstallKeepsCore(d: Device, data: seq<Octet>)
    ensures SameCore(d, InstallKey(d, data).0)
    ensures var e := InstallKey(d, data).0; e.pending == d.pending && e.adopting == d.adopting && e.points == d.points
    ensures InstallKey(d, data).1.code != BUSY
  {
    hide ParseKeySet;
  }

  /** The commands the table itself answers. */
  predicate InTable(code: Octet) {
    || code == POLL || code == ID || code == CAP || code == LSTAT || code == ISTAT || code == OSTAT || code == RSTAT
    || code == OUT || code == COMSET || code == LED || code == BUZ || code == TEXT || code == KEEPACTIVE || code == ABORT
    || code == ACURXSIZE || code == CHLNG || code == SCRYPT || code == KEYSET
  }

  /** After a dispatch: the core is untouched, and at most one effect is waiting to be adopted. */
  ghost predicate AfterDispatch(cfg: Config, d: Device, e: Device) {
    && SameCore(d, e)
    && Points256(cfg, e.points) && e.points.inputs == d.points.inputs
    && e.points.tamper == d.points.tamper && e.points.powerFailure == d.points.powerFailure
    && (e.adopting.Some? ==> e.adopting.value < BROADCAST)
    && (e.pending == d.pending || (d.pending != [] && e.pending == d.pending[1..]))
  }

  lemma DispatchDiscipline(cfg: Config, d: Device, m: Message, secured: bool, env: Env)
    requires Orderly(cfg, d)
    ensures AfterDispatch(cfg, d, Dispatch(cfg, d, m, secured, env).0)
    ensures InTable(m.code) ==> Dispatch(cfg, d, m, secured, env).1.code != BUSY
  {
    hide ApplyOutputs, ApplyCommunication, InstallKey, Delegate, AppendCapabilities, ContactStatus, LocalStatus;
    OutputsKeepCore(d, m.data);
    CommunicationKeepsCore(d, m.data);
    InstallKeepsCore(d, m.data);
    StatusCodes(d.points);
    if m.code == POLL && d.pending != [] {
      assert Reportable(d.points, d.pending[0]);
    }
  }

  lemma StatusCodes(p: Points)
    ensures ContactStatus(ISTATR, p.inputs).code == ISTATR && ContactStatus(OSTATR, p.outputs).code == OSTATR
    ensures LocalStatus(p).code == LSTATR
  {
  }

  // ----- Answering -----

  /** What reaches the command table, and in what state the device is then: a frame in the clear while no
      session is established, or a frame the established session verified and opened. */
  datatype Admission = Admission(device: Device, message: Message, secured: bool)

  function Admitted(cfg: Config, d: Device, f: Frame): Option<Admission> {
    if f.security.None? then
      if Established(d) then None else Some(Admission(d, Message(f.code, f.data), false))
    else if cfg.secure && (f.security.value.kind == SCS_15 || f.security.value.kind == SCS_17) && Established(d) then
      var (s, payload) := Open(cfg.suite, d.session.value, f);
      if payload.Ok? then Some(Admission(d.(session := Some(s)), Message(f.code, payload.value), true)) else None
    else None
  }

  /** A command that is admitted is dispatched, and answered in kind. */
  lemma AnswerAdmitted(cfg: Config, d: Device, f: Frame, env: Env)
    requires Admitted(cfg, d, f).Some?
    ensures var a := Admitted(cfg, d, f).value;
            var (e, m) := Dispatch(cfg, a.device, a.message, a.secured, env);
            Answer(cfg, d, f, env) == (e, m, if a.secured then Some(ReplyBlock(|m.data|)) else None)
  {
    hide Dispatch, Open, ReplyBlock, AnswerChallenge, AnswerCryptogram;
  }

  lemma AnswerUnadmitted(cfg: Config, d: Device, f: Frame, env: Env)
    requires Admitted(cfg, d, f).None?
    ensures var (e, m, block) := Answer(cfg, d, f, env);
            && e == d.(session := e.session)
            && (f.security.None? ==> m == Nak(NAK_SECURE_REQUIRED) && block.None?)
            && (f.security.Some? && EstablishedBlock(f.security.value.kind) ==> m.code == NAK && block.None?)
            && (block.Some? ==> HandshakeBlock(block.value))
            && (d.session.Some? && d.session.value.role == S.PD && e.session.Some? ==> e.session.value.role == S.PD)
            && (d.session.None? && e.session.Some? ==> e.session.value.role == S.PD)
  {
    hide Dispatch, Open, ReplyBlock;
  }

  lemma OpenKeepsPhase(su: S.Suite, s: S.Session, f: Frame)
    ensures Open(su, s, f).0.phase == s.phase && Open(su, s, f).0.role == s.role
  {
    hide Covered, EncryptedBlock, S.Tag;
  }

  /** Mid-call: an answer has been chosen and not yet built. */
  ghost predicate Answering(cfg: Config, d: Device, e: Device, block: Option<Octet>) {
    && e.address == d.address && e.key == d.key && e.capabilities == d.capabilities
    && e.cache == d.cache && e.seen == d.seen && e.lastSeen == d.lastSeen
    && Points256(cfg, e.points) && e.points.inputs == d.points.inputs
    && e.points.tamper == d.points.tamper && e.points.powerFailure == d.points.powerFailure
    && (e.adopting.Some? ==> e.adopting.value < BROADCAST)
    && (e.pending == d.pending || (d.pending != [] && e.pending == d.pending[1..]))
    && (e.session.Some? ==> e.session.value.role == S.PD)
    && (block.Some? && !HandshakeBlock(block.value) ==> Established(e))
  }

  lemma AnswerDiscipline(cfg: Config, d: Device, f: Frame, env: Env)
    requires Orderly(cfg, d)
    ensures var (e, m, block) := Answer(cfg, d, f, env); Answering(cfg, d, e, block)
  {
    hide Answer, Dispatch, Open, ReplyBlock, AllReportable, Coalesced, HandshakeBlock;
    var a := Admitted(cfg, d, f);
    if a.Some? {
      AnswerAdmitted(cfg, d, f, env);
      if a.value.secured {
        OpenKeepsPhase(cfg.suite, d.session.value, f);
      }
      DispatchDiscipline(cfg, a.value.device, a.value.message, a.value.secured, env);
    } else {
      AnswerUnadmitted(cfg, d, f, env);
    }
  }

  // ----- Building the reply -----

  lemma SealReplyCarries(cfg: Config, d: Device, m: Message, sequence: Octet, scheme: Check.Scheme, kind: Octet)
    requires ValidAddress(d.address) && Established(d)
    ensures var (e, f) := SealReply(cfg, d, m, sequence, scheme, kind);
            var s := d.session.value;
            var g := Untagged(true, d.address, sequence, scheme, m.code, kind, Enciphered(cfg.suite, s.keys, s.cmac, kind, m.data));
            var mac := MacOver(cfg.suite, s.keys, s.cmac, g);
            && f.Some? && Carries(f.value, true, d.address, sequence, scheme, m.code, Some(kind))
            && f.value.data == g.data + S.Tag(mac)
            && e == d.(session := Some(s.(rmac := mac)))
  {
    hide CheckOK, Frames.Seal, NewControl, ValidAddress, Covered, S.Tag, EncryptedBlock;
    var s := d.session.value;
    var g := Untagged(true, d.address, sequence, scheme, m.code, kind, Enciphered(cfg.suite, s.keys, s.cmac, kind, m.data));
    SealedCheck(g.(data := g.data + S.Tag(MacOver(cfg.suite, s.keys, s.cmac, g))));
  }

  lemma EncodeReplyCarries(cfg: Config, d: Device, m: Message, sequence: Octet, scheme: Check.Scheme, block: Option<Octet>)
    requires ValidAddress(d.address) && (block.Some? && !HandshakeBlock(block.value) ==> Established(d))
    ensures var (e, f) := EncodeReply(cfg, d, m, sequence, scheme, block);
            && f.Some? && Carries(f.value, true, d.address, sequence, scheme, m.code, block)
            && e == d.(session := e.session)
            && (block.None? || HandshakeBlock(block.value) ==> e == d && f.value.data == m.data)
            && (d.session.Some? == e.session.Some?) && (d.session.Some? ==> e.session.value.role == d.session.value.role)
  {
    hide CheckOK, Frames.Seal, NewControl, ValidAddress, SealReply, HandshakeBlock, Untagged, MacOver, Enciphered;
    match block {
      case None =>
        SealedCheck(Frame(false, true, d.address, NewControl(sequence, scheme, false), None, m.code, m.data, 0));
      case Some(kind) =>
        if HandshakeBlock(kind) {
          SealedCheck(Frame(false, true, d.address, NewControl(sequence, scheme, true), Some(SecurityBlock(kind, [])), m.code, m.data, 0));
        } else {
          SealReplyCarries(cfg, d, m, sequence, scheme, kind);
        }
    }
  }

  lemma AdoptOne(cfg: Config, d: Device)
    ensures var e := AdoptKey(cfg, AdoptAddress(d));
            && e.adopting.None? && e.adoptingKey.None?
            && e.address == (if d.adopting.Some? then d.adopting.value else d.address)
            && e.key == (if d.adoptingKey.Some? then d.adoptingKey.value else d.key)
            && e.session == (if d.adoptingKey.Some? then None else d.session)
            && e.cache == d.cache && e.points == d.points && e.pending == d.pending && e.seen == d.seen && e.lastSeen == d.lastSeen
            && (d.adoptingKey.None? ==> e.capabilities == d.capabilities)
  {
    hide CapabilitiesFor;
  }

  lemma StillReportable(d: Device, e: Device)
    requires AllReportable(d.points, d.pending) && Coalesced(d.pending)
    requires e.points.inputs == d.points.inputs && e.points.tamper == d.points.tamper && e.points.powerFailure == d.points.powerFailure
    requires e.pending == d.pending || (d.pending != [] && e.pending == d.pending[1..])
    ensures AllReportable(e.points, e.pending) && Coalesced(e.pending) && |e.pending| <= |d.pending|
  {
    hide ContactStatus;
    forall i | 0 <= i < |e.pending|
      ensures Reportable(e.points, e.pending[i])
    {
      if e.pending == d.pending {
        assert Reportable(d.points, d.pending[i]);
      } else {
        assert Reportable(d.points, d.pending[i + 1]);
      }
    }
  }

  lemma EmitFacts(cfg: Config, e: Device, sequence: Octet, scheme: Check.Scheme, m: Message, block: Option<Octet>)
    requires ValidAddress(e.address) && (block.Some? && !HandshakeBlock(block.value) ==> Established(e))
    ensures var (d', f) := Emit(cfg, e, sequence, scheme, m, block);
            && f.Some? && Carries(f.value, true, e.address, sequence, scheme, m.code, block)
            && d'.cache == (if sequence == 0 then e.cache.(valid := false) else Cache(true, sequence, f.value))
            && d'.adopting.None? && d'.adoptingKey.None? && d'.points == e.points && d'.pending == e.pending
            && d'.address == (if e.adopting.Some? then e.adopting.value else e.address)
            && d'.key == (if e.adoptingKey.Some? then e.adoptingKey.value else e.key)
            && d'.session == (if e.adoptingKey.Some? then None else EncodeReply(cfg, e, m, sequence, scheme, block).0.session)
  {
    hide EncodeReply, AdoptKey, AdoptAddress, Carries, HandshakeBlock, ValidAddress;
    EncodeReplyCarries(cfg, e, m, sequence, scheme, block);
    var (d1, f) := EncodeReply(cfg, e, m, sequence, scheme, block);
    var cache := if sequence == 0 then d1.cache.(valid := false) else Cache(true, sequence, f.value);
    AdoptOne(cfg, d1.(cache := cache));
  }

  /** A reply is always built, at the address the command was sent to; it is cached under its number, and
      only then do a new address or a new key take effect. */
  lemma EmitDiscipline(cfg: Config, d: Device, e: Device, sequence: Octet, scheme: Check.Scheme, m: Message, block: Option<Octet>)
    requires Orderly(cfg, d) && Answering(cfg, d, e, block) && sequence <= SEQUENCE_ROTATION
    ensures var (d', f) := Emit(cfg, e, sequence, scheme, m, block);
            && f.Some? && Carries(f.value, true, d.address, sequence, scheme, m.code, block)
            && Orderly(cfg, d')
            && d'.cache == (if sequence == 0 then d.cache.(valid := false) else Cache(true, sequence, f.value))
            && d'.address == (if e.adopting.Some? then e.adopting.value else d.address)
            && d'.key == (if e.adoptingKey.Some? then e.adoptingKey.value else d.key)
            && d'.session == (if e.adoptingKey.Some? then None else EncodeReply(cfg, e, m, sequence, scheme, block).0.session)
  {
    hide Emit, EncodeReply, Carries, AllReportable, Coalesced, HandshakeBlock;
    BelowBroadcast(d.address);
    EncodeReplyCarries(cfg, e, m, sequence, scheme, block);
    EmitFacts(cfg, e, sequence, scheme, m, block);
    StillReportable(d, Emit(cfg, e, sequence, scheme, m, block).0);
  }

  lemma BelowBroadcast(a: Octet)
    requires a < BROADCAST
    ensures ValidAddress(a)
  {
  }

  lemma SequenceRange(control: Octet)
    ensures Sequence(control) <= SEQUENCE_ROTATION
  {
  }

  lemma RestartOrderly(cfg: Config, d: Device)
    requires Orderly(cfg, d)
    ensures Orderly(cfg, Restart(d))
  {
    hide AllReportable, Coalesced;
  }

  lemma ObserveOrderly(cfg: Config, d: Device, now: int)
    requires Orderly(cfg, d)
    ensures Orderly(cfg, Observe(cfg, d, now))
    ensures Observe(cfg, d, now).address == d.address && Observe(cfg, d, now).key == d.key
  {
    hide AllReportable, Coalesced;
  }

  lemma AnswerForDiscipline(cfg: Config, d: Device, f: Frame, env: Env)
    requires Orderly(cfg, d)
    ensures var (e, m, block) := AnswerFor(cfg, d, f, env); Answering(cfg, d, e, block)
  {
    hide Answer, AllReportable, Coalesced, Sequence;
    AnswerDiscipline(cfg, d, f, env);
  }

  /** The state a command is executed from: a command numbered zero starts the exchange over first. */
  function Prepared(d: Device, f: Frame): Device {
    if Sequence(f.control) == 0 then Restart(d) else d
  }

  lemma ExecuteDiscipline(cfg: Config, d: Device, f: Frame, env: Env)
    requires Orderly(cfg, d)
    ensures var (d', r) := Execute(cfg, d, f, env);
            var (e, m, block) := AnswerFor(cfg, Prepared(d, f), f, env);
            && r.Some? && Carries(r.value, true, d.address, Sequence(f.control), SchemeOf(f.control), m.code, block)
            && Orderly(cfg, d')
            && (Sequence(f.control) != 0 ==> d'.cache == Cache(true, Sequence(f.control), r.value))
            && d'.address == (if e.adopting.Some? then e.adopting.value else d.address)
            && d'.key == (if e.adoptingKey.Some? then e.adoptingKey.value else d.key)
            && d'.session == (if e.adoptingKey.Some? then None
                              else EncodeReply(cfg, e, m, Sequence(f.control), SchemeOf(f.control), block).0.session)
  {
    hide Orderly, Answering, AnswerFor, Emit, EncodeReply, Carries, Sequence, SchemeOf;
    RestartOrderly(cfg, d);
    RestartAddress(d);
    var d1 := Prepared(d, f);
    AnswerForDiscipline(cfg, d1, f, env);
    SequenceRange(f.control);
    var (e, m, block) := AnswerFor(cfg, d1, f, env);
    EmitDiscipline(cfg, d1, e, Sequence(f.control), SchemeOf(f.control), m, block);
  }

  lemma RestartAddress(d: Device)
    ensures Restart(d).address == d.address && Restart(d).key == d.key
  {
  }

  /** A command that is addressed to this device and passes its check is always answered, and no call leaves
      an address or a key half adopted. Whatever arrives, the discipline is kept. */
  lemma HandleDiscipline(cfg: Config, d: Device, f: Frame, env: Env)
    requires Orderly(cfg, d)
    ensures Orderly(cfg, Handle(cfg, d, f, env).0)
    ensures Handle(cfg, d, f, env).1.Ok? <==> !f.isReply && CheckOK(f) && Addressed(cfg, d, f.address)
    ensures Handle(cfg, d, f, env).1.Err? ==> Handle(cfg, d, f, env).0 == d
  {
    hide Orderly, CheckOK, Execute, Sequence, Observe;
    ObserveOrderly(cfg, d, env.now);
    ExecuteDiscipline(cfg, Observe(cfg, d, env.now), f, env);
  }

  /** osdp_COMSET and osdp_KEYSET: the confirming reply comes from the old address, under the session that
      carried the command, and the effect follows it. */
  lemma EffectsFollowTheReply(cfg: Config, d: Device, f: Frame, env: Env)
    requires Orderly(cfg, d) && Handle(cfg, d, f, env).1.Ok? && !Replays(Observe(cfg, d, env.now), Sequence(f.control))
    ensures Handle(cfg, d, f, env).1.value.address == d.address
    ensures Handle(cfg, d, f, env).0.address != d.address ==> Handle(cfg, d, f, env).1.value.code == COM
    ensures Handle(cfg, d, f, env).0.key != d.key ==>
              Handle(cfg, d, f, env).1.value.code == ACK && f.code == KEYSET && f.security.Some? && Handle(cfg, d, f, env).0.session.None?
  {
    hide Orderly, CheckOK, Execute, Sequence, Observe, AnswerFor, EncodeReply, SchemeOf, NewControl;
    var d0 := Observe(cfg, d, env.now);
    ObserveOrderly(cfg, d, env.now);
    ExecuteDiscipline(cfg, d0, f, env);
    RestartOrderly(cfg, d0);
    OnlyTheirOwnReplies(cfg, Prepared(d0, f), f, env);
  }

  lemma OnlyTheirOwnReplies(cfg: Config, d: Device, f: Frame, env: Env)
    requires Orderly(cfg, d)
    ensures var (e, m, block) := AnswerFor(cfg, d, f, env);
            && (e.adopting.Some? ==> m.code == COM)
            && (e.adoptingKey.Some? ==> m.code == ACK && f.code == KEYSET && f.security.Some?)
  {
    hide Answer, Dispatch, Open, ReplyBlock, AllReportable, Coalesced, Sequence;
    if Admitted(cfg, d, f).Some? {
      AnswerAdmitted(cfg, d, f, env);
      var a := Admitted(cfg, d, f).value;
      DispatchAdopts(cfg, a.device, a.message, a.secured, env);
    } else {
      AnswerUnadmitted(cfg, d, f, env);
    }
  }

  lemma DispatchAdopts(cfg: Config, d: Device, m: Message, secured: bool, env: Env)
    requires d.adopting.None? && d.adoptingKey.None?
    ensures var (e, r) := Dispatch(cfg, d, m, secured, env);
            && (e.adopting.Some? ==> r.code == COM)
            && (e.adoptingKey.Some? ==> r.code == ACK && m.code == KEYSET && secured)
  {
    hide EntriesValid, FoldOutputs, ParseCommunication, ParseKeySet, Delegate, AppendCapabilities, ContactStatus, LocalStatus;
  }

  // ----- What happens at the reader between commands -----

  /** What local happenings leave alone. */
  predicate SameExchange(d: Device, e: Device) {
    && e.address == d.address && e.key == d.key && e.capabilities == d.capabilities && e.session == d.session
    && e.cache == d.cache && e.seen == d.seen && e.lastSeen == d.lastSeen && e.adopting == d.adopting && e.adoptingKey == d.adoptingKey
    && e.points.outputs == d.points.outputs
  }

  lemma CoalesceInputs(cfg: Config, pending: seq<Message>, p: Points, q: Points)
    requires AllReportable(p, pending) && Coalesced(pending) && |pending| <= cfg.queue
    requires q.tamper == p.tamper && q.powerFailure == p.powerFailure
    ensures var r := Coalesce(cfg, pending, ContactStatus(ISTATR, q.inputs)).0;
            AllReportable(q, r) && Coalesced(r) && |r| <= cfg.queue
  {
    hide ContactStatus;
    StatusCodes(p);
    StatusCodes(q);
    var m := ContactStatus(ISTATR, q.inputs);
    var r := Coalesce(cfg, pending, m).0;
    var k := FirstWith(pending, m.code);
    forall i | 0 <= i < |r|
      ensures Reportable(q, r[i])
    {
      if i < |pending| && i != k {
        assert Reportable(p, pending[i]);
        assert pending[i].code != ISTATR;
      }
    }
  }

  lemma CoalesceLocal(cfg: Config, pending: seq<Message>, p: Points, q: Points)
    requires AllReportable(p, pending) && Coalesced(pending) && |pending| <= cfg.queue
    requires q.inputs == p.inputs
    ensures var r := Coalesce(cfg, pending, LocalStatus(q)).0;
            AllReportable(q, r) && Coalesced(r) && |r| <= cfg.queue
  {
    hide ContactStatus, LocalStatus;
    StatusCodes(p);
    StatusCodes(q);
    var m := LocalStatus(q);
    var r := Coalesce(cfg, pending, m).0;
    var k := FirstWith(pending, m.code);
    forall i | 0 <= i < |r|
      ensures Reportable(q, r[i])
    {
      if i < |pending| && i != k {
        assert Reportable(p, pending[i]);
        assert pending[i].code != LSTATR;
      }
    }
  }

  lemma QueueOrderly(cfg: Config, pending: seq<Message>, p: Points, m: Message)
    requires AllReportable(p, pending) && Coalesced(pending) && |pending| <= cfg.queue && (m.code == RAW || m.code == KEYPAD)
    ensures var r := Queue(cfg, pending, m).0; AllReportable(p, r) && Coalesced(r) && |r| <= cfg.queue
  {
    hide ContactStatus, LocalStatus;
  }

  /** Whatever happens at the reader, a waiting input or local report is a snapshot of the contacts as they
      stand, the queue stays within its bound, and the exchange with the panel is untouched. */
  lemma HappenOrderly(cfg: Config, d: Device, h: Happening)
    requires Orderly(cfg, d)
    ensures Orderly(cfg, Happen(cfg, d, h).0) && SameExchange(d, Happen(cfg, d, h).0)
  {
    hide ContactStatus, LocalStatus, Coalesce, AllReportable, Coalesced, Queue, AppendCardRead, AppendKeypad;
    var q := Happen(cfg, d, h).0.points;
    match h {
      case CardPresented(c) => QueueOrderly(cfg, d.pending, d.points, Message(RAW, AppendCardRead(c)));
      case KeysPressed(reader, keys) => QueueOrderly(cfg, d.pending, d.points, Message(KEYPAD, AppendKeypad(reader, keys)));
      case InputMoved(index, active) => CoalesceInputs(cfg, d.pending, d.points, q);
      case TamperMoved(active) => CoalesceLocal(cfg, d.pending, d.points, q);
      case PowerMoved(failure) => CoalesceLocal(cfg, d.pending, d.points, q);
    }
  }
}
