/** Numbering over a lossy line, and how each kind of command is answered at the reader and concluded at the
    panel. */
module LinkRuns {
  import opened Octets
  import opened Frames
  import opened Messages
  import opened Links
  import Cipher
  import S = Sessions
  import P = Panel
  import PR = PanelRuns
  import R = Reader
  import RR = ReaderRuns

  // ----- Numbering: how far the reader's cache lags behind the panel -----

  predicate SameAddress(l: Link) {
    l.panel.address == l.reader.address
  }

  /** While the two ends share an address, the reader holds the answer to the number in use, or to the one
      before it when the last freshly numbered command never arrived. */
  predicate Lag(l: Link) {
    SameAddress(l) && l.reader.cache.valid ==>
      l.panel.queue.sequence == if l.missed then Rotate(l.reader.cache.sequence) else l.reader.cache.sequence
  }

  /** Two freshly numbered commands in a row are never both lost on the way out. */
  predicate NeverTwiceLost(l: Link, outcome: Outcome) {
    !(l.missed && !l.panel.queue.repeatSequence && outcome.CommandLost?)
  }

  /** The command at the head of the queue has been processed and its answer is outstanding. */
  predicate Processed(l: Link) {
    SameAddress(l) && l.panel.queue.repeatSequence && !l.missed && l.reader.cache.valid
  }

  lemma RotateTwice(n: Octet)
    requires 1 <= n <= SEQUENCE_ROTATION
    ensures Rotate(n) != n && Rotate(Rotate(n)) != n
  {
  }

  /** The number about to be used. */
  function NextNumber(l: Link): Octet {
    P.NextSequence(PR.Chosen(l.panel)).sequence
  }

  lemma NextNumberIs(l: Link)
    requires PR.Settled(l.panel)
    ensures NextNumber(l) == if l.panel.queue.repeatSequence then l.panel.queue.sequence else Rotate(l.panel.queue.sequence)
  {
    hide PR.Chosen, P.NextSequence, Rotate;
    PR.ChosenFacts(l.panel);
  }

  /** The reader answers from its cache exactly when the panel repeats a command that was processed: a stale
      answer is never mistaken for a fresh one. */
  lemma NoStaleReplay(cfg: R.Config, l: Link)
    requires Sound(cfg, l) && Lag(l) && SameAddress(l)
    ensures R.Replays(l.reader, NextNumber(l)) <==> Processed(l)
  {
    hide PR.Chosen, P.NextSequence, Rotate, RR.AllReportable, RR.Coalesced, NextNumber;
    NextNumberIs(l);
    PR.ChosenFacts(l.panel);
    if l.reader.cache.valid {
      RotateTwice(l.reader.cache.sequence);
    }
    NextNumberRange(l);
  }

  lemma NextNumberRange(l: Link)
    requires PR.Settled(l.panel)
    ensures 1 <= NextNumber(l) <= SEQUENCE_ROTATION
  {
    hide PR.Chosen, P.NextSequence;
    PR.ChosenFacts(l.panel);
  }

  lemma ConcludeSequence(bus: P.Bus, d: P.Device, answer: Option<Frame>)
    requires PR.InExchange(d)
    ensures var n := P.Conclude(bus, d, answer).0.queue.sequence; n == d.queue.sequence || n == 0
  {
    hide P.Reply, PR.Read;
    TimeoutSequence(d);
    if answer.Some? {
      PR.ReplyQueue(bus, d, answer.value);
      ReplySequence(d.queue, PR.Read(bus, d, answer.value));
      TimeoutSequence(P.Reply(bus, d, answer.value).0);
    }
  }

  lemma TimeoutSequence(d: P.Device)
    ensures var n := P.Timeout(d).0.queue.sequence; n == d.queue.sequence || n == 0
  {
  }

  lemma ReplySequence(q: P.Queue, r: PR.Reading)
    ensures var n := PR.QueueAfterReply(q, r).sequence; n == q.sequence || n == 0
  {
  }

  // ----- A command that reaches the reader and is not a repeat -----

  function Noticed(d: R.Device, env: R.Env): R.Device {
    d.(seen := true, lastSeen := env.now)
  }

  /** The reader does not time the panel out. */
  ghost predicate Patient(cfg: R.Config) {
    R.ValidConfig(cfg) && cfg.timeout == 0
  }

  /** A strict reader takes a number only when it follows the one it last answered. */
  predicate InTurn(cfg: R.Config, d: R.Device, n: Octet) {
    cfg.strict && d.cache.valid ==> n == Rotate(d.cache.sequence)
  }

  predicate Reaches(f: Frame, d: R.Device) {
    !f.isReply && CheckOK(f) && f.address == d.address && Sequence(f.control) != 0
  }

  /** How a fresh command is handled: answered, encoded, cached, and only then adopted. */
  lemma HandleFresh(cfg: R.Config, d: R.Device, f: Frame, env: R.Env)
    requires Patient(cfg) && RR.Orderly(cfg, d) && Reaches(f, d) && !R.Replays(d, Sequence(f.control)) && InTurn(cfg, d, Sequence(f.control))
    ensures var (d', r) := R.Handle(cfg, d, f, env);
            var (e, m, block) := R.Answer(cfg, Noticed(d, env), f, env);
            var (e', rf) := R.EncodeReply(cfg, e, m, Sequence(f.control), SchemeOf(f.control), block);
            && r.Ok? && rf == Some(r.value) && r.value.code == m.code && r.value.address == d.address
            && Carries(r.value, true, d.address, Sequence(f.control), SchemeOf(f.control), m.code, block)
            && d'.cache == R.Cache(true, Sequence(f.control), r.value)
            && d'.address == (if e.adopting.Some? then e.adopting.value else d.address)
            && d'.key == (if e.adoptingKey.Some? then e.adoptingKey.value else d.key)
            && d'.session == (if e.adoptingKey.Some? then None else e'.session)
  {
    hide RR.Orderly, CheckOK, R.Answer, R.EncodeReply, Sequence, SchemeOf, NewControl, RR.Answering;
    var d0 := Noticed(d, env);
    assert R.Observe(cfg, d, env.now) == d0;
    RR.ObserveOrderly(cfg, d, env.now);
    RR.ExecuteDiscipline(cfg, d0, f, env);
    RR.AnswerForDiscipline(cfg, d0, f, env);
    var (e, m, block) := R.Answer(cfg, d0, f, env);
    ExecuteFrame(cfg, d0, f, env);
  }

  lemma ExecuteFrame(cfg: R.Config, d: R.Device, f: Frame, env: R.Env)
    requires InTurn(cfg, d, Sequence(f.control)) && Sequence(f.control) != 0
    ensures var (e, m, block) := R.Answer(cfg, d, f, env);
            R.Execute(cfg, d, f, env).1 == R.EncodeReply(cfg, e, m, Sequence(f.control), SchemeOf(f.control), block).1
  {
    hide R.Answer, R.EncodeReply, Sequence, SchemeOf, R.AdoptKey, R.AdoptAddress;
  }

  /** A strict reader answers a number out of turn with a refusal in the clear, and is otherwise left alone. */
  lemma OutOfTurn(cfg: R.Config, d: R.Device, f: Frame, env: R.Env)
    requires Patient(cfg) && RR.Orderly(cfg, d) && Reaches(f, d) && !R.Replays(d, Sequence(f.control)) && !InTurn(cfg, d, Sequence(f.control))
    ensures var (d', r) := R.Handle(cfg, d, f, env);
            && r.Ok? && r.value.isReply && r.value.address == d.address && Sequence(r.value.control) == Sequence(f.control)
            && r.value.security.None? && r.value.code == NAK && r.value.data == [NAK_SEQUENCE]
            && d'.cache == R.Cache(true, Sequence(f.control), r.value)
            && d'.address == d.address && d'.key == d.key && d'.session == d.session
            && !TakesEffect(cfg, d, f, env)
  {
    hide RR.Orderly, CheckOK, R.Answer, R.EncodeReply, Sequence, SchemeOf, NewControl, RR.Admitted, R.Dispatch, Rotate;
    var d0 := Noticed(d, env);
    assert R.Observe(cfg, d, env.now) == d0;
    NoticedOrderly(cfg, d, env);
    AdoptsNothing(cfg, d0);
    ReaderAddress(cfg, d);
    RR.ExecuteDiscipline(cfg, d0, f, env);
    RR.EncodeReplyCarries(cfg, d0, Nak(NAK_SEQUENCE), Sequence(f.control), SchemeOf(f.control), None);
    RefusalFrame(cfg, d0, f, env);
    RR.SequenceRange(f.control);
    PR.SequenceOfControl(Sequence(f.control), SchemeOf(f.control), false);
  }

  lemma RefusalFrame(cfg: R.Config, d: R.Device, f: Frame, env: R.Env)
    requires !InTurn(cfg, d, Sequence(f.control)) && Sequence(f.control) != 0
    ensures R.Execute(cfg, d, f, env).1 == R.EncodeReply(cfg, d, Nak(NAK_SEQUENCE), Sequence(f.control), SchemeOf(f.control), None).1
    ensures R.AnswerFor(cfg, RR.Prepared(d, f), f, env) == (d, Nak(NAK_SEQUENCE), None)
  {
    hide R.Answer, R.EncodeReply, Sequence, SchemeOf, R.AdoptKey, R.AdoptAddress, Rotate;
  }

  // ----- One exchange, seen from the numbering -----

  ghost predicate Ready(bus: P.Bus, cfg: R.Config, l: Link) {
    Patient(cfg) && Sound(cfg, l) && l.panel.address < BROADCAST && Lag(l)
  }

  /** What the panel puts on the line. */
  lemma Emission(bus: P.Bus, cfg: R.Config, l: Link, rndA: Cipher.Nonce)
    requires Ready(bus, cfg, l)
    ensures var (p1, fo) := P.Next(bus, l.panel, rndA);
            && fo.Some? && !fo.value.isReply && CheckOK(fo.value) && fo.value.address == l.panel.address
            && Sequence(fo.value.control) == NextNumber(l) && 1 <= NextNumber(l) <= SEQUENCE_ROTATION
            && PR.InExchange(p1) && p1.queue == P.NextSequence(PR.Chosen(l.panel)) && p1.queue.sequence == NextNumber(l)
            && p1.state == l.panel.state && p1.address == l.panel.address
            && fo.value.code == PR.Choice(l.panel, rndA).0.code
            && fo.value.security == (if PR.Choice(l.panel, rndA).1.None? then None else Some(SecurityBlock(PR.Choice(l.panel, rndA).1.value, [])))
  {
    hide RR.Orderly, PR.Settled, PR.InExchange, CheckOK, NewControl, Sequence, P.Next, PR.Owed, PR.Choice, Lag, PR.Chosen, P.NextSequence, PR.Consistent;
    RR.BelowBroadcast(l.panel.address);
    PR.NextEmits(bus, l.panel, rndA);
  }

  /** A command for another address leaves the reader alone. */
  lemma HandleElsewhere(cfg: R.Config, d: R.Device, f: Frame, env: R.Env)
    requires f.address != d.address && f.address < BROADCAST
    ensures R.Handle(cfg, d, f, env).0 == d && R.Handle(cfg, d, f, env).1.Err? && !TakesEffect(cfg, d, f, env)
  {
    hide CheckOK, Sequence, R.Execute, R.Observe, RR.Admitted, R.Dispatch, RR.Prepared;
  }

  lemma ExchangeLag(bus: P.Bus, cfg: R.Config, l: Link, outcome: Outcome, rndA: Cipher.Nonce, env: R.Env)
    requires Ready(bus, cfg, l) && NeverTwiceLost(l, outcome)
    requires RunExchange(bus, cfg, l, outcome, rndA, env).panel.queue.sequence != 0
    ensures Lag(RunExchange(bus, cfg, l, outcome, rndA, env))
  {
    hide RR.Orderly, PR.Settled, PR.InExchange, CheckOK, Sequence, P.Next, P.Conclude, PR.Answered, R.Handle, TakesEffect, PR.Choice, PR.Chosen,
      P.NextSequence, NextNumber, Rotate, R.Answer, R.EncodeReply, SchemeOf, NewControl, RR.SameExchange, Performed, InTurn;
    Emission(bus, cfg, l, rndA);
    NextNumberIs(l);
    var (p1, fo) := P.Next(bus, l.panel, rndA);
    var f := fo.value;
    var l' := RunExchange(bus, cfg, l, outcome, rndA, env);
    if outcome.CommandLost? {
      ConcludeSequence(bus, p1, None);
      ConcludeAddress(bus, p1, None);
    } else {
      var (r1, reply) := R.Handle(cfg, l.reader, f, env);
      ConcludeSequence(bus, p1, Heard(outcome, reply));
      ConcludeAddress(bus, p1, Heard(outcome, reply));
      if SameAddress(l) {
        NoStaleReplay(cfg, l);
        if Processed(l) {
          ReplayedUntouched(cfg, l.reader, f, env);
        } else if InTurn(cfg, l.reader, Sequence(f.control)) {
          HandleFresh(cfg, l.reader, f, env);
        } else {
          OutOfTurn(cfg, l.reader, f, env);
        }
      } else {
        HandleElsewhere(cfg, l.reader, f, env);
      }
    }
  }

  // ----- How each kind of command is answered when it is not a repeat -----

  /** The four replies that drive the panel from one state to the next. */
  predicate Steering(code: Octet) {
    code == PDID || code == PDCAP || code == CCRYPT || code == RMAC_I
  }

  /** The application answers with none of them. */
  predicate TameHandler(env: R.Env) {
    env.handler.Some? ==> !Steering(env.handler.value.code)
  }

  predicate SteersAsAsked(command: Octet, answer: Octet) {
    && (answer == PDID <==> command == ID) && (answer == PDCAP <==> command == CAP)
    && (Steering(answer) ==> command == ID || command == CAP)
  }

  /** Only an identity request and a capability request are answered with a reply that steers the panel. */
  lemma DispatchSteers(cfg: R.Config, d: R.Device, m: Message, secured: bool, env: R.Env)
    requires RR.Orderly(cfg, d) && TameHandler(env)
    ensures SteersAsAsked(m.code, R.Dispatch(cfg, d, m, secured, env).1.code)
  {
    hide R.EntriesValid, R.FoldOutputs, ParseCommunication, ParseKeySet, AppendCapabilities, R.ContactStatus, R.LocalStatus;
    RR.StatusCodes(d.points);
    if m.code == POLL && d.pending != [] {
      assert RR.Reportable(d.points, d.pending[0]);
    }
  }

  /** The reader is addressed, the command is not a repeat, and the answer is on its way. */
  ghost predicate Handled(cfg: R.Config, d: R.Device, f: Frame, env: R.Env) {
    && Patient(cfg) && RR.Orderly(cfg, d) && Reaches(f, d) && !R.Replays(d, Sequence(f.control)) && InTurn(cfg, d, Sequence(f.control))
  }

  /** The effect recorded for a command is that of its dispatch. */
  lemma EffectOfAdmission(cfg: R.Config, d: R.Device, f: Frame, env: R.Env)
    requires Handled(cfg, d, f, env)
    ensures TakesEffect(cfg, d, f, env) <==>
              var a := RR.Admitted(cfg, Noticed(d, env), f);
              a.Some? && R.Dispatch(cfg, a.value.device, a.value.message, a.value.secured, env).1.code != BUSY
  {
    hide RR.Orderly, CheckOK, Sequence, R.Dispatch, RR.Admitted;
  }

  /** A command in the clear, while no session is established: dispatched, and answered in the clear. */
  lemma PlainHandled(cfg: R.Config, d: R.Device, f: Frame, env: R.Env)
    requires Handled(cfg, d, f, env) && f.security.None? && !R.Established(d)
    ensures var (d', r) := R.Handle(cfg, d, f, env);
            var m := R.Dispatch(cfg, Noticed(d, env), Message(f.code, f.data), false, env).1;
            && r.Ok? && r.value.isReply && r.value.security.None? && r.value.code == m.code && r.value.data == m.data
            && d'.cache == R.Cache(true, Sequence(f.control), r.value)
            && d'.key == d.key && d'.session == d.session
            && (TakesEffect(cfg, d, f, env) <==> m.code != BUSY)
            && (TameHandler(env) ==> SteersAsAsked(f.code, m.code))
  {
    hide RR.Orderly, CheckOK, Sequence, R.Dispatch, R.Handle, R.Answer, R.EncodeReply, TakesEffect, SchemeOf, NewControl, HandshakeBlock;
    var d0 := Noticed(d, env);
    NoticedOrderly(cfg, d, env);
    HandleFresh(cfg, d, f, env);
    EffectOfAdmission(cfg, d, f, env);
    RR.AnswerAdmitted(cfg, d0, f, env);
    var (e, m) := R.Dispatch(cfg, d0, Message(f.code, f.data), false, env);
    RR.DispatchDiscipline(cfg, d0, Message(f.code, f.data), false, env);
    AdoptsNothing(cfg, d0);
    RR.DispatchAdopts(cfg, d0, Message(f.code, f.data), false, env);
    if TameHandler(env) {
      DispatchSteers(cfg, d0, Message(f.code, f.data), false, env);
    }
    ReaderAddress(cfg, d);
    RR.EncodeReplyCarries(cfg, e, m, Sequence(f.control), SchemeOf(f.control), None);
  }

  lemma NoticedOrderly(cfg: R.Config, d: R.Device, env: R.Env)
    requires RR.Orderly(cfg, d)
    ensures RR.Orderly(cfg, Noticed(d, env))
  {
    hide RR.AllReportable, RR.Coalesced;
  }

  lemma AdoptsNothing(cfg: R.Config, d: R.Device)
    requires RR.Orderly(cfg, d)
    ensures d.adopting.None? && d.adoptingKey.None?
  {
  }

  lemma ReaderAddress(cfg: R.Config, d: R.Device)
    requires RR.Orderly(cfg, d)
    ensures d.address < BROADCAST && ValidAddress(d.address)
  {
    hide RR.AllReportable, RR.Coalesced;
    RR.BelowBroadcast(d.address);
  }

  /** A challenge: answered with a cryptogram over a fresh session, or refused by a reader without one. */
  lemma ChallengeHandled(cfg: R.Config, d: R.Device, f: Frame, env: R.Env)
    requires Handled(cfg, d, f, env) && f.security == Some(SecurityBlock(SCS_11, [])) && |f.data| == 8
    ensures var (d', r) := R.Handle(cfg, d, f, env);
            && r.Ok? && r.value.isReply
            && d'.cache == R.Cache(true, Sequence(f.control), r.value)
            && d'.key == d.key && d'.address == d.address
            && !TakesEffect(cfg, d, f, env)
            && (cfg.secure ==>
                  var (s, c) := S.AnswerChallenge(cfg.suite, S.NewSession(S.PD, d.key), f.data, env.rndB, cfg.identity[..8]);
                  c.Ok? && d'.session == Some(s) && r.value.code == CCRYPT && r.value.data == c.value)
            && (!cfg.secure ==> d'.session == d.session && r.value.code == NAK)
  {
    hide RR.Orderly, CheckOK, Sequence, R.Dispatch, R.Handle, R.EncodeReply, TakesEffect, SchemeOf, NewControl;
    var d0 := Noticed(d, env);
    NoticedOrderly(cfg, d, env);
    HandleFresh(cfg, d, f, env);
    EffectOfAdmission(cfg, d, f, env);
    AdoptsNothing(cfg, d0);
    ReaderAddress(cfg, d);
    var (e, m, block) := R.Answer(cfg, d0, f, env);
    RR.EncodeReplyCarries(cfg, e, m, Sequence(f.control), SchemeOf(f.control), block);
  }

  /** A server cryptogram: it establishes the session it was meant for. */
  lemma CryptogramHandled(cfg: R.Config, d: R.Device, f: Frame, env: R.Env)
    requires Handled(cfg, d, f, env) && f.security == Some(SecurityBlock(SCS_13, []))
    ensures var (d', r) := R.Handle(cfg, d, f, env);
            && r.Ok? && r.value.isReply
            && d'.cache == R.Cache(true, Sequence(f.control), r.value)
            && d'.key == d.key && d'.address == d.address
            && !TakesEffect(cfg, d, f, env)
            && (r.value.code == RMAC_I || r.value.code == NAK)
            && (cfg.secure && d.session.Some? ==>
                  var (s, c) := S.AnswerServerCryptogram(cfg.suite, d.session.value, f.data);
                  (c.Ok? ==> d'.session == Some(s) && r.value.code == RMAC_I && r.value.data == c.value))
            && (r.value.code == RMAC_I ==> cfg.secure && d.session.Some?)
  {
    hide RR.Orderly, CheckOK, Sequence, R.Dispatch, R.Handle, R.EncodeReply, TakesEffect, SchemeOf, NewControl;
    var d0 := Noticed(d, env);
    NoticedOrderly(cfg, d, env);
    HandleFresh(cfg, d, f, env);
    EffectOfAdmission(cfg, d, f, env);
    AdoptsNothing(cfg, d0);
    ReaderAddress(cfg, d);
    var (e, m, block) := R.Answer(cfg, d0, f, env);
    RR.EncodeReplyCarries(cfg, e, m, Sequence(f.control), SchemeOf(f.control), block);
  }

  /** A sealed command the reader cannot admit: refused in the clear, and any session is gone. */
  lemma SealedRefused(cfg: R.Config, d: R.Device, f: Frame, env: R.Env)
    requires Handled(cfg, d, f, env) && f.security.Some? && (f.security.value.kind == SCS_15 || f.security.value.kind == SCS_17)
    requires RR.Admitted(cfg, d, f).None?
    ensures var (d', r) := R.Handle(cfg, d, f, env);
            && r.Ok? && r.value.isReply && r.value.security.None? && r.value.code == NAK
            && d'.cache == R.Cache(true, Sequence(f.control), r.value)
            && d'.key == d.key && d'.address == d.address && (cfg.secure ==> !R.Established(d'))
            && (!cfg.secure ==> d'.session == d.session)
            && !TakesEffect(cfg, d, f, env)
  {
    hide RR.Orderly, CheckOK, Sequence, R.Dispatch, R.Handle, R.EncodeReply, TakesEffect, SchemeOf, NewControl, R.Open, R.ReplyBlock;
    var d0 := Noticed(d, env);
    NoticedOrderly(cfg, d, env);
    HandleFresh(cfg, d, f, env);
    EffectOfAdmission(cfg, d, f, env);
    AdoptsNothing(cfg, d0);
    ReaderAddress(cfg, d);
    AdmittedNoticed(cfg, d, f, env);
    var (e, m, block) := R.Answer(cfg, d0, f, env);
    RR.AnswerUnadmitted(cfg, d0, f, env);
    RR.EncodeReplyCarries(cfg, e, m, Sequence(f.control), SchemeOf(f.control), block);
  }

  lemma AdmittedNoticed(cfg: R.Config, d: R.Device, f: Frame, env: R.Env)
    ensures var a, b := RR.Admitted(cfg, d, f), RR.Admitted(cfg, Noticed(d, env), f);
            && a.Some? == b.Some?
            && (a.Some? ==> b.value.device == Noticed(a.value.device, env) && b.value.message == a.value.message && b.value.secured == a.value.secured)
  {
    hide R.Open;
  }

  /** A sealed command the reader admits: dispatched on the session that opened it, and answered sealed. */
  lemma SealedAdmitted(cfg: R.Config, d: R.Device, f: Frame, env: R.Env)
    requires Handled(cfg, d, f, env) && RR.Admitted(cfg, d, f).Some? && f.security.Some?
    ensures var (d', r) := R.Handle(cfg, d, f, env);
            var a := RR.Admitted(cfg, Noticed(d, env), f).value;
            var (e, m) := R.Dispatch(cfg, a.device, a.message, true, env);
            var (e', rf) := R.EncodeReply(cfg, e, m, Sequence(f.control), SchemeOf(f.control), Some(R.ReplyBlock(|m.data|)));
            && r.Ok? && r.value.isReply && rf == Some(r.value) && r.value.security.Some? && r.value.code == m.code
            && d'.cache == R.Cache(true, Sequence(f.control), r.value)
            && RR.AfterDispatch(cfg, a.device, e)
            && d'.key == (if e.adoptingKey.Some? then e.adoptingKey.value else d.key)
            && d'.session == (if e.adoptingKey.Some? then None else e'.session)
            && (TakesEffect(cfg, d, f, env) <==> m.code != BUSY)
            && (TameHandler(env) ==> SteersAsAsked(f.code, m.code))
            && (e.adoptingKey.Some? ==> f.code == KEYSET && m.code == ACK)
  {
    hide RR.Orderly, CheckOK, Sequence, R.Dispatch, R.Handle, R.Answer, R.EncodeReply, TakesEffect, SchemeOf, NewControl, R.ReplyBlock, R.Open;
    var d0 := Noticed(d, env);
    NoticedOrderly(cfg, d, env);
    HandleFresh(cfg, d, f, env);
    EffectOfAdmission(cfg, d, f, env);
    AdmittedNoticed(cfg, d, f, env);
    RR.AnswerAdmitted(cfg, d0, f, env);
    var a := RR.Admitted(cfg, d0, f).value;
    AdmittedOrderly(cfg, d0, f);
    AdoptsNothing(cfg, a.device);
    RR.DispatchDiscipline(cfg, a.device, a.message, true, env);
    RR.DispatchAdopts(cfg, a.device, a.message, true, env);
    if TameHandler(env) {
      DispatchSteers(cfg, a.device, a.message, true, env);
    }
  }

  lemma AdmittedOrderly(cfg: R.Config, d: R.Device, f: Frame)
    requires RR.Orderly(cfg, d) && RR.Admitted(cfg, d, f).Some?
    ensures var a := RR.Admitted(cfg, d, f).value;
            && RR.Orderly(cfg, a.device) && a.secured == f.security.Some? && a.message.code == f.code
            && a.device.key == d.key && a.device.address == d.address
            && (a.secured ==> R.Established(d) && R.Established(a.device))
  {
    hide RR.AllReportable, RR.Coalesced, R.Open;
    if f.security.Some? {
      RR.OpenKeepsPhase(cfg.suite, d.session.value, f);
    }
  }

  // ----- How the panel ends an exchange -----

  /** The answer that reached the panel, if one did. */
  predicate Hears(bus: P.Bus, p: P.Device, answer: Option<Frame>) {
    answer.Some? && PR.Read(bus, p, answer.value).Answer?
  }

  /** Short of starting over, the panel's state and channel are those its reply handlers leave, or unchanged
      when it heard nothing. */
  lemma ConcludeTurns(bus: P.Bus, p: P.Device, answer: Option<Frame>)
    requires PR.InExchange(p) && P.Conclude(bus, p, answer).0.queue.sequence != 0
    ensures var p' := P.Conclude(bus, p, answer).0;
            if Hears(bus, p, answer) then
              var e := P.Dispatch(bus, PR.AtDispatch(bus, p, answer.value), PR.Read(bus, p, answer.value).message).0;
              p'.state == e.state && p'.channel == e.channel && e.queue.sequence != 0
            else p'.state == p.state && p'.channel == p.channel && p'.queue.sequence == p.queue.sequence
  {
    hide P.Reply, PR.Read, P.Dispatch, PR.AtDispatch, P.Retransmit, PR.QueueAfterDispatch, P.Delivered;
    TimeoutSequence(p);
    if answer.Some? {
      var f := answer.value;
      PR.ReplyQueue(bus, p, f);
      match PR.Read(bus, p, f) {
        case Unattributed => PR.ReplyUnattributed(bus, p, f);
        case StartsOver => PR.ReplyStartsOver(bus, p, f);
        case Answer(m) =>
          PR.ReplyIsDispatch(bus, p, f);
          AnsweredMisses(p.queue, m);
          QuietTimeoutTurns(P.Reply(bus, p, f).0);
      }
    }
  }

  lemma AnsweredMisses(q: P.Queue, m: Message)
    ensures PR.QueueAfterReply(q, PR.Answer(m)).misses == 0
  {
  }

  lemma QuietTimeoutTurns(d: P.Device)
    requires d.queue.misses == 0
    ensures var e := P.Timeout(d).0; e.state == d.state && e.channel == d.channel && e.queue.sequence == d.queue.sequence
  {
  }

  predicate KeyAccepted(d: P.Device, m: Message) {
    m.code == ACK && P.AwaitingKeySet(d)
  }

  /** What a reply that does not steer the panel does to its state and channel. */
  lemma DispatchTurns(bus: P.Bus, d: P.Device, m: Message)
    requires !Steering(m.code) && P.Dispatch(bus, d, m).0.queue.sequence != 0
    ensures var (e, event) := P.Dispatch(bus, d, m);
            && e.address == d.address
            && (event == Ok(P.KeyInstalled) <==> KeyAccepted(d, m)) && event != Ok(P.BecameSecure)
            && if KeyAccepted(d, m) then
                 && e.state == P.Identifying
                 && e.channel == P.DropSession(d.channel.(installedKey := d.channel.pendingKey, pendingKey := None))
               else
                 && (e.state == d.state || (d.state == P.Offline && e.state == P.Identifying))
                 && e.channel == d.channel.(pendingKey := e.channel.pendingKey)
                 && (e.channel.pendingKey == d.channel.pendingKey || e.channel.pendingKey.None?)
  {
    hide PR.Status.Report, ParseCapabilities, ParseContacts, ParseLocalStatus, WholeCardRead, WholeKeypadEntry, P.AwaitingKeySet, P.Reclaim;
  }

  /** Without an established session no key set is in flight, so no acknowledgement confirms one. */
  lemma NothingAccepted(bus: P.Bus, p: P.Device, f: Frame, m: Message)
    requires PR.InExchange(p) && !P.SecureEstablished(p)
    ensures !KeyAccepted(PR.AtDispatch(bus, p, f), m)
    ensures PR.AtDispatch(bus, p, f) == p.(queue := P.Delivered(p.queue.(misses := 0)))
  {
  }
}
