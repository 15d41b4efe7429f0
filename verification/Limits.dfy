/** What the line can do to a command: exactly when an answer the panel counts is the answer to a command carried out,
    and runs from a fresh start in which it is not. Section 5.7 of SIA OSDP v2.2.2. */
module Limits {
  import opened Octets
  import opened Frames
  import opened Messages
  import opened Links
  import opened LinkRuns
  import opened Agreement
  import AR = AgreementRuns
  import Cipher
  import P = Panel
  import PR = PanelRuns
  import R = Reader
  import RR = ReaderRuns

  // ----- Exactly when an answer in the clear is the answer to a command carried out -----

  /** The reader takes this number for a new command, holds no session, and does not insist on another number. */
  predicate WillCarryOut(cfg: R.Config, r: R.Device, n: Octet) {
    !R.Replays(r, n) && !R.Established(r) && InTurn(cfg, r, n)
  }

  lemma PlainEmission(bus: P.Bus, d: P.Device, rndA: Cipher.Nonce)
    requires PR.Settled(d) && d.address < BROADCAST && Plainly(d)
    ensures var (p1, f) := P.Next(bus, d, rndA);
            && f.Some? && !f.value.isReply && CheckOK(f.value) && f.value.address == d.address && f.value.security.None?
            && Message(f.value.code, f.value.data) == PR.PlainChoice(d).0
            && p1 == d.(queue := P.NextSequence(PR.Chosen(d))) && PR.InExchange(p1)
            && Sequence(f.value.control) == p1.queue.sequence && 1 <= p1.queue.sequence <= SEQUENCE_ROTATION
            && p1.queue.inflight == if PR.SendsHead(d) then Some(d.queue.outbox[0]) else None
  {
    hide P.Next, CheckOK, NewControl, Sequence, PR.Chosen, P.NextSequence, PR.Resting, PR.PlainChoice, PR.InExchange, PR.SendsHead, P.WithholdsKeySet;
    RR.BelowBroadcast(d.address);
    PR.EmitsPlain(bus, d, rndA);
    PR.ChoiceBlocks(d);
    PR.NextEmits(bus, d, rndA);
    PR.ChosenFacts(d);
  }

  /** The reply to a command in the clear that is not answered from the cache carries the code of what was answered. */
  lemma ExecutedEffect(cfg: R.Config, d: R.Device, f: Frame, env: R.Env)
    requires RR.Orderly(cfg, d) && !f.isReply && CheckOK(f) && f.address == d.address && Sequence(f.control) != 0 && f.security.None?
    ensures var r := R.Observe(cfg, d, env.now);
            && (TakesEffect(cfg, d, f, env) ==> WillCarryOut(cfg, r, Sequence(f.control)) && Performed(cfg, d, f, env) == Message(f.code, f.data))
            && (WillCarryOut(cfg, r, Sequence(f.control)) ==>
                  R.Handle(cfg, d, f, env).1.Ok? &&
                  (TakesEffect(cfg, d, f, env) <==> R.Handle(cfg, d, f, env).1.value.code != BUSY))
  {
    hide RR.Orderly, CheckOK, Sequence, R.Dispatch, R.Observe, R.Answer, R.Execute, R.EncodeReply, SchemeOf, NewControl, Rotate;
    var r := R.Observe(cfg, d, env.now);
    RR.ObserveOrderly(cfg, d, env.now);
    RR.ExecuteDiscipline(cfg, r, f, env);
    if WillCarryOut(cfg, r, Sequence(f.control)) {
      RR.AnswerAdmitted(cfg, r, f, env);
    }
  }

  /** Without a channel, a command that the panel counts as answered was carried out, payload and all, exactly when the
      reader did not hold an answer under its number, held no session, and did not expect another number. */
  lemma CountedExactly(bus: P.Bus, cfg: R.Config, l: Link, rndA: Cipher.Nonce, env: R.Env)
    requires Sound(cfg, l) && SameAddress(l) && l.panel.address < BROADCAST
    requires l.panel.state == P.Online && l.panel.channel.session.None? && PR.SendsHead(l.panel)
    requires RunExchange(bus, cfg, l, Delivered, rndA, env).answered == l.answered + 1
    ensures var l' := RunExchange(bus, cfg, l, Delivered, rndA, env);
            if WillCarryOut(cfg, R.Observe(cfg, l.reader, env.now), NextNumber(l)) then
              l'.effects == l.effects + [Effect(l.answered, l.panel.queue.outbox[0])]
            else l'.effects == l.effects
  {
    hide RR.Orderly, PR.Settled, RunExchange, P.Next, R.Handle, TakesEffect, Performed, PR.InExchange, PR.Answered, PR.Chosen, P.NextSequence, CheckOK,
      Sequence, WillCarryOut, R.Observe, PR.SendsHead, PR.PlainChoice;
    PlainEmission(bus, l.panel, rndA);
    HeadChosen(l.panel);
    AR.Ledger(bus, cfg, l, Delivered, rndA, env);
    var (p1, fo) := P.Next(bus, l.panel, rndA);
    AnsweredCounts(bus, p1, Returned(bus, cfg, l, Delivered, rndA, env));
    ExecutedEffect(cfg, l.reader, fo.value, env);
  }

  lemma HeadChosen(d: P.Device)
    requires PR.SendsHead(d)
    ensures d.queue.outbox != [] && PR.PlainChoice(d).0 == d.queue.outbox[0]
  {
  }

  // ----- Exchanges without a channel, from a given state -----

  /** Between exchanges without a channel: n is the number last used and outbox what waits. */
  ghost predicate Between(cfg: R.Config, l: Link, n: Octet, outbox: seq<Message>) {
    && Patient(cfg) && Sound(cfg, l) && SameAddress(l) && l.panel.address < BROADCAST
    && l.panel.channel.session.None? && l.panel.channel.pending.None? && !R.Established(l.reader)
    && l.panel.queue.outbox == outbox && l.panel.queue.sequence == n && !l.panel.queue.deferCommands && !l.panel.queue.repeatSequence
  }

  /** The reader last answered n with something the panel would take for an answer. */
  predicate Answered(l: Link, n: Octet) {
    && l.reader.cache.valid && l.reader.cache.sequence == n
    && var f := l.reader.cache.reply;
    f.isReply && f.address == l.panel.address && Sequence(f.control) != 0 && f.code != BUSY && f.code != COM
  }

  /** The same commands accepted, answered and carried out. */
  predicate SameLedger(l: Link, l': Link) {
    l'.accepted == l.accepted && l'.answered == l.answered && l'.effects == l.effects
  }

  /** A command in the clear that gets through to a reader that will carry it out. */
  lemma PlainDelivered(bus: P.Bus, cfg: R.Config, l: Link, rndA: Cipher.Nonce, env: R.Env)
    requires Patient(cfg) && Sound(cfg, l) && SameAddress(l) && l.panel.address < BROADCAST
    requires Plainly(l.panel) && l.panel.channel.session.None? && WillCarryOut(cfg, l.reader, NextNumber(l))
    ensures var (p1, f) := P.Next(bus, l.panel, rndA);
            && f.Some?
            && var (r1, reply) := R.Handle(cfg, l.reader, f.value, env);
            var m := R.Dispatch(cfg, Noticed(l.reader, env), PR.PlainChoice(l.panel).0, false, env).1;
            && reply.Ok? && PR.Read(bus, p1, reply.value) == PR.Answer(m)
            && r1.cache == R.Cache(true, NextNumber(l), reply.value)
            && reply.value.isReply && reply.value.address == l.panel.address && Sequence(reply.value.control) != 0 && reply.value.code == m.code
            && r1.key == l.reader.key && r1.session == l.reader.session && (m.code != COM ==> r1.address == l.reader.address)
            && (TakesEffect(cfg, l.reader, f.value, env) <==> m.code != BUSY)
  {
    hide RR.Orderly, PR.Settled, P.Next, R.Handle, TakesEffect, PR.InExchange, PR.Chosen, P.NextSequence, CheckOK, Sequence, PR.PlainChoice, R.Dispatch,
      PR.Read, InTurn, R.Established;
    PlainEmission(bus, l.panel, rndA);
    var (p1, fo) := P.Next(bus, l.panel, rndA);
    var f := fo.value;
    PlainHandled(cfg, l.reader, f, env);
    AnswerNumbered(cfg, l.reader, f, env);
    ReadPlain(bus, p1, R.Handle(cfg, l.reader, f, env).1.value);
    NotReplayed(cfg, l.reader, f, env);
    RR.EffectsFollowTheReply(cfg, l.reader, f, env);
  }

  lemma NotReplayed(cfg: R.Config, d: R.Device, f: Frame, env: R.Env)
    requires Patient(cfg) && !R.Replays(d, Sequence(f.control))
    ensures !R.Replays(R.Observe(cfg, d, env.now), Sequence(f.control))
  {
    hide Sequence;
  }

  /** The panel after an answer in the clear that its handlers accept. */
  lemma HeardPlain(bus: P.Bus, p1: P.Device, f: Frame, m: Message)
    requires p1.channel.session.None? && PR.Read(bus, p1, f) == PR.Answer(m)
    requires P.Dispatch(bus, p1.(queue := P.Delivered(p1.queue.(misses := 0))), m).1.Ok?
    ensures P.Conclude(bus, p1, Some(f)).0 == P.Dispatch(bus, p1.(queue := P.Delivered(p1.queue.(misses := 0))), m).0
  {
    hide PR.Read, P.Dispatch, P.Delivered, P.Reply, P.Timeout;
    PR.ReplyIsDispatch(bus, p1, f);
    assert PR.AtDispatch(bus, p1, f) == p1.(queue := P.Delivered(p1.queue.(misses := 0)));
  }

  /** The queue after an exchange that carried nothing of the application's. */
  function Polled(q: P.Queue): P.Queue {
    q.(sequence := Rotate(q.sequence), misses := 0, acknowledged := POLL, released := None)
  }

  lemma PolledQueue(d: P.Device)
    requires PR.Settled(d) && !d.queue.repeatSequence && !PR.Usable(d.state)
    ensures P.Delivered(P.NextSequence(PR.Chosen(d)).(misses := 0)) == Polled(d.queue) && !PR.SendsHead(d)
    ensures P.NextSequence(PR.Chosen(d)).sequence == Rotate(d.queue.sequence)
  {
  }

  /** The replies to identity and capability requests are accepted. */
  lemma IdentityDispatched(bus: P.Bus, cfg: R.Config, d: P.Device, r: R.Device, env: R.Env)
    requires d.state == P.Offline || d.state == P.Identifying
    ensures var m := R.Dispatch(cfg, r, PR.PlainChoice(d).0, false, env).1;
            && m.code != BUSY && m.code != COM
            && (d.state == P.Offline ==> P.Dispatch(bus, d, m) == (d.(state := P.Identifying), Ok(P.Identified)))
            && (d.state == P.Identifying && !bus.secureEnabled ==>
                  P.Dispatch(bus, d, m) == (d.(state := P.Online, caps := r.capabilities), Ok(P.WentOnline)))
  {
    hide AppendCapabilities, ParseCapabilities;
    CapabilityRoundTrip(r.capabilities);
  }

  /** One of the two exchanges that bring a device online without a channel. */
  lemma IdentityExchange(bus: P.Bus, cfg: R.Config, l: Link, n: Octet, outbox: seq<Message>, rndA: Cipher.Nonce, env: R.Env)
    requires Between(cfg, l, n, outbox) && !bus.secureEnabled && TameHandler(env) && WillCarryOut(cfg, l.reader, Rotate(n))
    requires l.panel.state == P.Offline || l.panel.state == P.Identifying
    ensures var l' := RunExchange(bus, cfg, l, Delivered, rndA, env);
            && Between(cfg, l', Rotate(n), outbox) && Answered(l', Rotate(n)) && SameLedger(l, l') && !l'.missed && l'.panel.queue.misses == 0
            && l'.panel.state == (if l.panel.state == P.Offline then P.Identifying else P.Online)
  {
    hide RR.Orderly, PR.Settled, RunExchange, P.Next, R.Handle, TakesEffect, Performed, PR.InExchange, PR.Chosen, P.NextSequence, CheckOK, Sequence,
      PR.PlainChoice, R.Dispatch, P.Dispatch, PR.Read, P.Conclude, P.Delivered, R.Established, PR.SendsHead, WillCarryOut, Rotate, PR.Answered;
    PlainEmission(bus, l.panel, rndA);
    PolledQueue(l.panel);
    PlainDelivered(bus, cfg, l, rndA, env);
    Parts(bus, cfg, l, Delivered, rndA, env);
    AR.Ledger(bus, cfg, l, Delivered, rndA, env);
    RR.BelowBroadcast(l.panel.address);
    ExchangeSound(bus, cfg, l, Delivered, rndA, env);
    var (p1, fo) := P.Next(bus, l.panel, rndA);
    var r0 := Noticed(l.reader, env);
    var m := R.Dispatch(cfg, r0, PR.PlainChoice(l.panel).0, false, env).1;
    var d := p1.(queue := P.Delivered(p1.queue.(misses := 0)));
    SameChoice(l.panel, d);
    IdentityDispatched(bus, cfg, d, r0, env);
    HeardPlain(bus, p1, R.Handle(cfg, l.reader, fo.value, env).1.value, m);
    SameSession(l.reader, RunExchange(bus, cfg, l, Delivered, rndA, env).reader);
  }

  lemma SameChoice(d: P.Device, e: P.Device)
    requires e == d.(queue := e.queue) && (d.state == P.Offline || d.state == P.Identifying)
    ensures PR.PlainChoice(e) == PR.PlainChoice(d)
  {
  }

  lemma SameSession(r: R.Device, r': R.Device)
    requires r'.session == r.session
    ensures R.Established(r') == R.Established(r)
  {
  }

  // ----- Runs from a fresh start -----

  lemma RunOne(bus: P.Bus, cfg: R.Config, l: Link, ops: seq<Op>, op: Op)
    ensures RunOps(bus, cfg, l, ops + [op]) == Step(bus, cfg, RunOps(bus, cfg, l, ops), op)
  {
    hide Step;
    var all := ops + [op];
    assert all[..|all| - 1] == ops;
  }

  /** Two exchanges that get through bring a device online on a bus without a secure channel. */
  function BringOnline(rndA: Cipher.Nonce, env: R.Env): seq<Op> {
    [Exchange(Delivered, rndA, env)] + [Exchange(Delivered, rndA, env)]
  }

  /** A setting in which the runs below take place. */
  ghost predicate Plain(bus: P.Bus, cfg: R.Config, address: Octet, env: R.Env) {
    Patient(cfg) && address < BROADCAST && !bus.secureEnabled && TameHandler(env)
  }

  lemma BroughtOnline(bus: P.Bus, cfg: R.Config, address: Octet, rndA: Cipher.Nonce, env: R.Env)
    requires Plain(bus, cfg, address, env)
    ensures var l := RunOps(bus, cfg, Fresh(cfg, address), BringOnline(rndA, env));
            && Between(cfg, l, 2, []) && Answered(l, 2) && l.panel.state == P.Online && l.panel.queue.misses == 0 && !l.missed
            && l.accepted == [] && l.answered == 0 && l.effects == []
  {
    hide RunExchange, Between, Answered, R.Established;
    var l := Fresh(cfg, address);
    FreshBetween(cfg, address);
    var op := Exchange(Delivered, rndA, env);
    assert [] + [op] == [op];
    RunOne(bus, cfg, l, [], op);
    IdentityExchange(bus, cfg, l, 0, [], rndA, env);
    var l1 := RunExchange(bus, cfg, l, Delivered, rndA, env);
    NextIsNew(cfg, l1, 1, []);
    RunOne(bus, cfg, l, [op], op);
    IdentityExchange(bus, cfg, l1, 1, [], rndA, env);
  }

  lemma FreshBetween(cfg: R.Config, address: Octet)
    requires Patient(cfg) && address < BROADCAST
    ensures Between(cfg, Fresh(cfg, address), 0, []) && WillCarryOut(cfg, Fresh(cfg, address).reader, Rotate(0))
  {
    hide R.CapabilitiesFor;
    FreshSound(cfg, address);
  }

  /** The number after the one last answered is new to the reader. */
  lemma NextIsNew(cfg: R.Config, l: Link, n: Octet, outbox: seq<Message>)
    requires Between(cfg, l, n, outbox) && Answered(l, n) && 1 <= n <= SEQUENCE_ROTATION
    ensures WillCarryOut(cfg, l.reader, Rotate(n))
  {
    hide Sound, Sequence, R.Established;
    RotateTwice(n);
  }

  /** A poll lost on the way out is not repeated: it takes its number with it. */
  lemma PollLost(bus: P.Bus, cfg: R.Config, l: Link, n: Octet, rndA: Cipher.Nonce, env: R.Env)
    requires Between(cfg, l, n, []) && l.panel.state == P.Online && l.panel.queue.misses + 1 < P.OFFLINE_THRESHOLD
    ensures var l' := RunExchange(bus, cfg, l, CommandLost, rndA, env);
            && Between(cfg, l', Rotate(n), []) && l'.panel == l.panel.(queue := l'.panel.queue) && l'.reader == l.reader && SameLedger(l, l')
            && l'.panel.queue.misses == l.panel.queue.misses + 1 && l'.missed
  {
    hide RR.Orderly, RunExchange, P.Next, CheckOK, Sequence, PR.PlainChoice, Rotate, R.Established, PR.InExchange, PR.Consistent;
    PlainEmission(bus, l.panel, rndA);
    Parts(bus, cfg, l, CommandLost, rndA, env);
    AR.Ledger(bus, cfg, l, CommandLost, rndA, env);
    RR.BelowBroadcast(l.panel.address);
    ExchangeSound(bus, cfg, l, CommandLost, rndA, env);
  }

  /** A command handed to an idle device that is online. */
  lemma Submitted(bus: P.Bus, cfg: R.Config, l: Link, n: Octet, m: Message)
    requires Between(cfg, l, n, []) && l.panel.state == P.Online && P.Fits(bus, l.panel, m) && m.code != KEYSET
    ensures var l' := Step(bus, cfg, l, Submit(m));
            && Between(cfg, l', n, [m]) && l' == l.(panel := l'.panel, accepted := l.accepted + [m])
            && l'.panel == l.panel.(queue := l.panel.queue.(outbox := [m])) && PR.SendsHead(l'.panel)
  {
    hide RR.Orderly, P.Fits, R.Established, PR.Settled;
    PR.EnqueueSettled(l.panel, m, None);
  }

  /** A command that meets its own number in the reader's cache is counted as answered and is never carried out. */
  lemma StaleAnswer(bus: P.Bus, cfg: R.Config, l: Link, n: Octet, m: Message, rndA: Cipher.Nonce, env: R.Env)
    requires Between(cfg, l, n, [m]) && l.panel.state == P.Online && PR.SendsHead(l.panel) && Answered(l, Rotate(n))
    ensures var l' := RunExchange(bus, cfg, l, Delivered, rndA, env);
            l'.accepted == l.accepted && l'.answered == l.answered + 1 && l'.effects == l.effects
  {
    hide RR.Orderly, PR.Settled, RunExchange, P.Next, R.Handle, TakesEffect, Performed, PR.InExchange, PR.Chosen, P.NextSequence, CheckOK, Sequence,
      PR.PlainChoice, PR.Read, R.Established, PR.SendsHead, Rotate;
    PlainEmission(bus, l.panel, rndA);
    NextNumberIs(l);
    AR.Ledger(bus, cfg, l, Delivered, rndA, env);
    var (p1, fo) := P.Next(bus, l.panel, rndA);
    ReplayedUntouched(cfg, l.reader, fo.value, env);
    RR.HandleDiscipline(cfg, l.reader, fo.value, env);
    ReadPlain(bus, p1, l.reader.cache.reply);
  }

  /** Two polls lost in a row, and the command after them is counted as answered without being carried out: the bound
      on losses in ExactlyOnce is needed. */
  lemma TwoLostPolls(bus: P.Bus, cfg: R.Config, address: Octet, m: Message, rndA: Cipher.Nonce, env: R.Env)
    requires Plain(bus, cfg, address, env) && m.code != KEYSET
    requires P.Fits(bus, RunOps(bus, cfg, Fresh(cfg, address), BringOnline(rndA, env)).panel, m)
    ensures var lost := Exchange(CommandLost, rndA, env);
            var ops := BringOnline(rndA, env) + [lost] + [lost] + [Submit(m)] + [Exchange(Delivered, rndA, env)];
            var l := RunOps(bus, cfg, Fresh(cfg, address), ops);
            l.accepted == [m] && l.answered == 1 && l.effects == []
  {
    hide RunExchange, Between, P.Fits, BringOnline, PR.SendsHead, R.Established, Sequence;
    var lost := Exchange(CommandLost, rndA, env);
    var start, ops := Fresh(cfg, address), BringOnline(rndA, env);
    BroughtOnline(bus, cfg, address, rndA, env);
    var l0 := RunOps(bus, cfg, start, ops);
    RunOne(bus, cfg, start, ops, lost);
    PollLost(bus, cfg, l0, 2, rndA, env);
    var l1 := RunExchange(bus, cfg, l0, CommandLost, rndA, env);
    RunOne(bus, cfg, start, ops + [lost], lost);
    PollLost(bus, cfg, l1, 3, rndA, env);
    var l2 := RunExchange(bus, cfg, l1, CommandLost, rndA, env);
    RunOne(bus, cfg, start, ops + [lost] + [lost], Submit(m));
    SameFit(bus, l0.panel, l2.panel, m);
    Submitted(bus, cfg, l2, 1, m);
    var l3 := Step(bus, cfg, l2, Submit(m));
    RunOne(bus, cfg, start, ops + [lost] + [lost] + [Submit(m)], Exchange(Delivered, rndA, env));
    StaleAnswer(bus, cfg, l3, 1, m, rndA, env);
  }

  lemma SameFit(bus: P.Bus, d: P.Device, e: P.Device, m: Message)
    requires e == d.(queue := e.queue)
    ensures P.Fits(bus, e, m) == P.Fits(bus, d, m)
  {
  }

  /** A strict reader that missed a number refuses the next one, and the panel counts the refusal as an answer. */
  lemma StrictRefusal(bus: P.Bus, cfg: R.Config, l: Link, n: Octet, m: Message, rndA: Cipher.Nonce, env: R.Env)
    requires Between(cfg, l, n, [m]) && l.panel.state == P.Online && PR.SendsHead(l.panel)
    requires !R.Replays(l.reader, Rotate(n)) && !InTurn(cfg, l.reader, Rotate(n))
    ensures var l' := RunExchange(bus, cfg, l, Delivered, rndA, env);
            && l'.accepted == l.accepted && l'.answered == l.answered + 1 && l'.effects == l.effects
            && l'.reader.cache.reply.code == NAK && l'.reader.cache.reply.data == [NAK_SEQUENCE]
  {
    hide RR.Orderly, PR.Settled, RunExchange, P.Next, R.Handle, TakesEffect, Performed, PR.InExchange, PR.Chosen, P.NextSequence, CheckOK, Sequence,
      PR.PlainChoice, PR.Read, R.Established, PR.SendsHead, Rotate, InTurn;
    PlainEmission(bus, l.panel, rndA);
    NextNumberIs(l);
    AR.Ledger(bus, cfg, l, Delivered, rndA, env);
    Parts(bus, cfg, l, Delivered, rndA, env);
    var (p1, fo) := P.Next(bus, l.panel, rndA);
    OutOfTurn(cfg, l.reader, fo.value, env);
    ReadPlain(bus, p1, R.Handle(cfg, l.reader, fo.value, env).1.value);
  }

  /** One poll lost to a strict reader, and the command after it is counted as answered without being carried out: what
      ExactlyOnce asks of a strict reader is needed. */
  lemma OneLostPollToAStrictReader(bus: P.Bus, cfg: R.Config, address: Octet, m: Message, rndA: Cipher.Nonce, env: R.Env)
    requires Plain(bus, cfg, address, env) && cfg.strict && m.code != KEYSET
    requires P.Fits(bus, RunOps(bus, cfg, Fresh(cfg, address), BringOnline(rndA, env)).panel, m)
    ensures var ops := BringOnline(rndA, env) + [Exchange(CommandLost, rndA, env)] + [Submit(m)] + [Exchange(Delivered, rndA, env)];
            var l := RunOps(bus, cfg, Fresh(cfg, address), ops);
            && l.accepted == [m] && l.answered == 1 && l.effects == []
            && l.reader.cache.reply.code == NAK && l.reader.cache.reply.data == [NAK_SEQUENCE]
  {
    hide RunExchange, Between, P.Fits, BringOnline, PR.SendsHead, R.Established, Sequence;
    var lost := Exchange(CommandLost, rndA, env);
    var start, ops := Fresh(cfg, address), BringOnline(rndA, env);
    BroughtOnline(bus, cfg, address, rndA, env);
    var l0 := RunOps(bus, cfg, start, ops);
    RunOne(bus, cfg, start, ops, lost);
    PollLost(bus, cfg, l0, 2, rndA, env);
    var l1 := RunExchange(bus, cfg, l0, CommandLost, rndA, env);
    RunOne(bus, cfg, start, ops + [lost], Submit(m));
    SameFit(bus, l0.panel, l1.panel, m);
    Submitted(bus, cfg, l1, 3, m);
    var l2 := Step(bus, cfg, l1, Submit(m));
    RunOne(bus, cfg, start, ops + [lost] + [Submit(m)], Exchange(Delivered, rndA, env));
    StrictRefusal(bus, cfg, l2, 3, m, rndA, env);
  }

  // ----- What starting over costs -----

  /** An application command on its way, with its number and the misses so far. */
  ghost predicate Repeating(cfg: R.Config, l: Link, n: Octet, m: Message, misses: nat) {
    && Patient(cfg) && Sound(cfg, l) && SameAddress(l) && l.panel.address < BROADCAST && l.panel.state == P.Online
    && l.panel.channel.session.None? && l.panel.channel.pending.None? && !R.Established(l.reader)
    && l.panel.queue.outbox == [m] && l.panel.queue.sequence == n && !l.panel.queue.deferCommands && l.panel.queue.repeatSequence
    && l.panel.queue.misses == misses && l.reader.cache.valid && l.reader.cache.sequence == n
  }

  /** What silence does to a command in flight without a channel. */
  lemma SilentTimeout(p1: P.Device, m: Message)
    requires p1.queue.inflight == Some(m) && p1.queue.outbox == [] && !p1.queue.deferCommands && p1.state == P.Online
    ensures var p' := P.Timeout(p1).0;
            && p'.address == p1.address && p'.queue.outbox == [m] && !p'.queue.deferCommands && p'.queue.misses == p1.queue.misses + 1
            && if p1.queue.misses + 1 < P.OFFLINE_THRESHOLD then
                 p'.state == P.Online && p'.channel == p1.channel && p'.queue.repeatSequence && p'.queue.sequence == p1.queue.sequence
               else
                 p'.state == P.Offline && p'.channel == P.DropSession(p1.channel) && !p'.queue.repeatSequence && p'.queue.sequence == 0
  {
  }

  lemma OneInFlight(d: P.Device, m: Message)
    requires PR.Settled(d) && d.state == P.Online && d.queue.outbox == [m] && PR.SendsHead(d)
    ensures var q := P.NextSequence(PR.Chosen(d)); q.outbox == [] && q.inflight == Some(m) && !q.deferCommands && q.misses == d.queue.misses
    ensures d.queue.repeatSequence ==> P.NextSequence(PR.Chosen(d)).sequence == d.queue.sequence
  {
  }

  /** The first reply to a command in the table is lost: it was carried out. */
  lemma FirstReplyLost(bus: P.Bus, cfg: R.Config, l: Link, n: Octet, m: Message, rndA: Cipher.Nonce, env: R.Env)
    requires Between(cfg, l, n, [m]) && l.panel.state == P.Online && PR.SendsHead(l.panel) && l.panel.queue.misses == 0 && m.code == OUT
    requires WillCarryOut(cfg, l.reader, Rotate(n))
    ensures var l' := RunExchange(bus, cfg, l, ReplyLost, rndA, env);
            && Repeating(cfg, l', Rotate(n), m, 1)
            && l'.accepted == l.accepted && l'.answered == l.answered && l'.effects == l.effects + [Effect(l.answered, m)]
  {
    hide RR.Orderly, PR.Settled, RunExchange, P.Next, R.Handle, TakesEffect, Performed, PR.InExchange, PR.Chosen, P.NextSequence, CheckOK, Sequence,
      PR.PlainChoice, PR.Read, R.Established, PR.SendsHead, Rotate, WillCarryOut, R.Dispatch, P.Timeout, PR.Answered;
    PlainEmission(bus, l.panel, rndA);
    HeadChosen(l.panel);
    NextNumberIs(l);
    OneInFlight(l.panel, m);
    PlainDelivered(bus, cfg, l, rndA, env);
    OutputAnswer(cfg, Noticed(l.reader, env), m, env);
    AR.Ledger(bus, cfg, l, ReplyLost, rndA, env);
    Parts(bus, cfg, l, ReplyLost, rndA, env);
    RR.BelowBroadcast(l.panel.address);
    ExchangeSound(bus, cfg, l, ReplyLost, rndA, env);
    var (p1, fo) := P.Next(bus, l.panel, rndA);
    AR.NotHeard(bus, p1);
    SilentTimeout(p1, m);
    RR.ObserveOrderly(cfg, l.reader, env.now);
    ExecutedEffect(cfg, l.reader, fo.value, env);
    SameSession(l.reader, RunExchange(bus, cfg, l, ReplyLost, rndA, env).reader);
  }

  lemma OutputAnswer(cfg: R.Config, d: R.Device, m: Message, env: R.Env)
    requires m.code == OUT
    ensures var code := R.Dispatch(cfg, d, m, false, env).1.code; code != BUSY && code != COM
  {
    hide R.EntriesValid, R.FoldOutputs;
  }

  /** The reply is lost again: the reader only repeats itself, and the third miss makes the panel start over. */
  lemma NextReplyLost(bus: P.Bus, cfg: R.Config, l: Link, n: Octet, m: Message, misses: nat, rndA: Cipher.Nonce, env: R.Env)
    requires Repeating(cfg, l, n, m, misses) && 1 <= misses < P.OFFLINE_THRESHOLD && m.code == OUT
    ensures var l' := RunExchange(bus, cfg, l, ReplyLost, rndA, env);
            && SameLedger(l, l') && l'.reader.cache == l.reader.cache
            && if misses + 1 < P.OFFLINE_THRESHOLD then Repeating(cfg, l', n, m, misses + 1)
               else Between(cfg, l', 0, [m]) && l'.panel.state == P.Offline
  {
    hide RR.Orderly, PR.Settled, RunExchange, P.Next, R.Handle, TakesEffect, Performed, PR.InExchange, PR.Chosen, P.NextSequence, CheckOK, Sequence,
      PR.PlainChoice, R.Established, PR.SendsHead, P.Timeout, PR.Answered;
    RepeatsHead(l.panel);
    PlainEmission(bus, l.panel, rndA);
    OneInFlight(l.panel, m);
    AR.Ledger(bus, cfg, l, ReplyLost, rndA, env);
    Parts(bus, cfg, l, ReplyLost, rndA, env);
    RR.BelowBroadcast(l.panel.address);
    ExchangeSound(bus, cfg, l, ReplyLost, rndA, env);
    var (p1, fo) := P.Next(bus, l.panel, rndA);
    AR.NotHeard(bus, p1);
    SilentTimeout(p1, m);
    ReplayedUntouched(cfg, l.reader, fo.value, env);
    SameSession(l.reader, RunExchange(bus, cfg, l, ReplyLost, rndA, env).reader);
  }

  lemma RepeatsHead(d: P.Device)
    requires PR.Settled(d) && d.queue.repeatSequence
    ensures PR.SendsHead(d)
  {
  }

  /** A command in the table that gets through is carried out and counted as answered. */
  lemma HeadCarriedOut(bus: P.Bus, cfg: R.Config, l: Link, m: Message, rndA: Cipher.Nonce, env: R.Env)
    requires Patient(cfg) && Sound(cfg, l) && SameAddress(l) && l.panel.address < BROADCAST
    requires l.panel.state == P.Online && l.panel.channel.session.None? && PR.SendsHead(l.panel)
    requires l.panel.queue.outbox[0] == m && m.code == OUT && WillCarryOut(cfg, l.reader, NextNumber(l))
    ensures var l' := RunExchange(bus, cfg, l, Delivered, rndA, env);
            l'.accepted == l.accepted && l'.answered == l.answered + 1 && l'.effects == l.effects + [Effect(l.answered, m)]
  {
    hide RR.Orderly, PR.Settled, RunExchange, P.Next, R.Handle, TakesEffect, Performed, PR.InExchange, PR.Chosen, P.NextSequence, CheckOK, Sequence,
      PR.PlainChoice, PR.Read, R.Established, PR.SendsHead, Rotate, WillCarryOut, R.Dispatch, NextNumber;
    HeadChosen(l.panel);
    PlainEmission(bus, l.panel, rndA);
    PlainDelivered(bus, cfg, l, rndA, env);
    OutputAnswer(cfg, Noticed(l.reader, env), m, env);
    AR.Ledger(bus, cfg, l, Delivered, rndA, env);
    ExecutedEffect(cfg, l.reader, P.Next(bus, l.panel, rndA).1.value, env);
  }

  lemma CarriedOut(bus: P.Bus, cfg: R.Config, l: Link, n: Octet, m: Message, rndA: Cipher.Nonce, env: R.Env)
    requires Between(cfg, l, n, [m]) && l.panel.state == P.Online && PR.SendsHead(l.panel) && m.code == OUT
    requires WillCarryOut(cfg, l.reader, Rotate(n))
    ensures var l' := RunExchange(bus, cfg, l, Delivered, rndA, env);
            l'.accepted == l.accepted && l'.answered == l.answered + 1 && l'.effects == l.effects + [Effect(l.answered, m)]
  {
    hide RR.Orderly, PR.Settled, RunExchange, R.Established, PR.SendsHead, Rotate, WillCarryOut;
    NextNumberIs(l);
    HeadCarriedOut(bus, cfg, l, m, rndA, env);
  }

  lemma OutputIsSent(cfg: R.Config, l: Link, n: Octet, m: Message)
    requires Between(cfg, l, n, [m]) && l.panel.state == P.Online && m.code == OUT
    ensures PR.SendsHead(l.panel)
  {
    hide Sound, R.Established;
  }

  lemma NewAfterRestart(cfg: R.Config, l: Link, outbox: seq<Message>)
    requires Between(cfg, l, 0, outbox) && l.reader.cache.valid && l.reader.cache.sequence == 3
    ensures WillCarryOut(cfg, l.reader, Rotate(0))
  {
    hide Sound, R.Established;
  }

  /** Three replies to an osdp_OUT are lost. The panel starts over, identifies the device again and sends the command under
      a new number, and the reader carries it out a second time: "until the panel starts over" is needed. */
  lemma CarriedOutAgain(bus: P.Bus, cfg: R.Config, address: Octet, m: Message, rndA: Cipher.Nonce, env: R.Env)
    requires Plain(bus, cfg, address, env) && m.code == OUT
    requires P.Fits(bus, RunOps(bus, cfg, Fresh(cfg, address), BringOnline(rndA, env)).panel, m)
    ensures var lost, heard := Exchange(ReplyLost, rndA, env), Exchange(Delivered, rndA, env);
            var ops := BringOnline(rndA, env) + [Submit(m)] + [lost] + [lost] + [lost] + [heard] + [heard] + [heard];
            var l := RunOps(bus, cfg, Fresh(cfg, address), ops);
            l.accepted == [m] && l.answered == 1 && l.effects == [Effect(0, m), Effect(0, m)]
  {
    hide RunExchange, Between, Repeating, P.Fits, BringOnline, PR.SendsHead, R.Established, Sequence, WillCarryOut;
    var lost, heard := Exchange(ReplyLost, rndA, env), Exchange(Delivered, rndA, env);
    var start, ops := Fresh(cfg, address), BringOnline(rndA, env);
    BroughtOnline(bus, cfg, address, rndA, env);
    var l0 := RunOps(bus, cfg, start, ops);
    RunOne(bus, cfg, start, ops, Submit(m));
    Submitted(bus, cfg, l0, 2, m);
    var l1 := Step(bus, cfg, l0, Submit(m));
    NextIsNew(cfg, l1, 2, [m]);
    var l4 := ThreeLosses(bus, cfg, l1, m, rndA, env, start, ops + [Submit(m)]);
    ops := ops + [Submit(m)] + [lost] + [lost] + [lost];
    NewAfterRestart(cfg, l4, [m]);
    RunOne(bus, cfg, start, ops, heard);
    IdentityExchange(bus, cfg, l4, 0, [m], rndA, env);
    var l5 := RunExchange(bus, cfg, l4, Delivered, rndA, env);
    NextIsNew(cfg, l5, 1, [m]);
    RunOne(bus, cfg, start, ops + [heard], heard);
    IdentityExchange(bus, cfg, l5, 1, [m], rndA, env);
    var l6 := RunExchange(bus, cfg, l5, Delivered, rndA, env);
    NextIsNew(cfg, l6, 2, [m]);
    OutputIsSent(cfg, l6, 2, m);
    RunOne(bus, cfg, start, ops + [heard] + [heard], heard);
    CarriedOut(bus, cfg, l6, 2, m, rndA, env);
  }

  lemma ThreeLosses(
    bus: P.Bus, cfg: R.Config, l1: Link, m: Message, rndA: Cipher.Nonce, env: R.Env, start: Link, ops: seq<Op>) returns (l4: Link)
    requires l1 == RunOps(bus, cfg, start, ops) && Between(cfg, l1, 2, [m]) && l1.panel.state == P.Online && l1.panel.queue.misses == 0
    requires PR.SendsHead(l1.panel) && m.code == OUT && WillCarryOut(cfg, l1.reader, 3) && TameHandler(env)
    ensures var lost := Exchange(ReplyLost, rndA, env); l4 == RunOps(bus, cfg, start, ops + [lost] + [lost] + [lost])
    ensures Between(cfg, l4, 0, [m]) && l4.panel.state == P.Offline && l4.reader.cache.valid && l4.reader.cache.sequence == 3
    ensures l4.accepted == l1.accepted && l4.answered == l1.answered && l4.effects == l1.effects + [Effect(l1.answered, m)]
  {
    hide RunExchange, Between, PR.SendsHead, R.Established, WillCarryOut, RunOps;
    var lost := Exchange(ReplyLost, rndA, env);
    RunOne(bus, cfg, start, ops, lost);
    FirstReplyLost(bus, cfg, l1, 2, m, rndA, env);
    var l2 := RunExchange(bus, cfg, l1, ReplyLost, rndA, env);
    RunOne(bus, cfg, start, ops + [lost], lost);
    NextReplyLost(bus, cfg, l2, 3, m, 1, rndA, env);
    var l3 := RunExchange(bus, cfg, l2, ReplyLost, rndA, env);
    RunOne(bus, cfg, start, ops + [lost] + [lost], lost);
    NextReplyLost(bus, cfg, l3, 3, m, 2, rndA, env);
    l4 := RunExchange(bus, cfg, l3, ReplyLost, rndA, env);
  }
}
