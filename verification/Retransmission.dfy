/** Losses on a secure channel: what a repeated command and its repeated answer do to the two chains.
    Sections 5.7 and 7.4 of SIA OSDP v2.2.2. */
module Retransmission {
  import opened Octets
  import opened Frames
  import opened Messages
  import opened Links
  import opened LinkRuns
  import opened Lockstep
  import opened Agreement
  import AR = AgreementRuns
  import Check
  import Cipher
  import S = Sessions
  import P = Panel
  import PR = PanelRuns
  import R = Reader
  import RR = ReaderRuns
  import Size

  lemma SameCheck(f: Frame, g: Frame)
    requires f == g.(check := f.check) && CheckOK(f) && CheckOK(g)
    ensures f == g
  {
    hide Check.Crc, Check.SumCheck, SchemeOf;
    assert Body(f) == Body(g);
  }

  /** The sealed command depends on the command, its number, the keys and the reply chain, and on nothing else:
      in particular not on the command chain that sending it moved. */
  lemma Recomposed(bus: P.Bus, d: P.Device, e: P.Device, rndA: Cipher.Nonce, rndA': Cipher.Nonce)
    requires PR.Consistent(d) && PR.Consistent(e) && d.state == P.Secure && e.state == P.Secure && ValidAddress(d.address)
    requires e.address == d.address && P.NextSequence(PR.Chosen(e)).sequence == P.NextSequence(PR.Chosen(d)).sequence
    requires PR.PlainChoice(e) == PR.PlainChoice(d)
    requires d.channel.session.value.keys == e.channel.session.value.keys && d.channel.session.value.rmac == e.channel.session.value.rmac
    ensures P.Next(bus, e, rndA').1.Some? && P.Next(bus, e, rndA').1 == P.Next(bus, d, rndA).1
    ensures NextMac(bus, e) == NextMac(bus, d)
  {
    hide P.Next, P.ComposeSealed, PR.PlainChoice, PR.Chosen, P.NextSequence, ValidAddress, Untagged, Enciphered, MacOver, CheckOK, NewControl;
    PR.EmitsSealed(bus, d, rndA);
    PR.EmitsSealed(bus, e, rndA');
    SealedKinds(d);
    var (m, block) := PR.PlainChoice(d);
    PR.ComposeSealedCarries(bus, d.(queue := PR.Chosen(d)), m, block.value);
    PR.ComposeSealedCarries(bus, e.(queue := PR.Chosen(e)), m, block.value);
    SameCheck(P.Next(bus, e, rndA').1.value, P.Next(bus, d, rndA).1.value);
  }

  /** The reader's session is the one the panel will hold once it has read the cached answer. */
  predicate Awaits(bus: P.Bus, p: P.Device, r: R.Device) {
    && p.channel.session.Some?
    && var s := p.channel.session.value;
    var x := P.OpenReply(bus.suite, s, r.cache.reply).0;
    && x == s.(rmac := x.rmac)
    && (r.session.Some? ==> R.Established(r) && r.session.value.keys == s.keys && r.session.value.rmac == x.rmac)
  }

  /** A command was carried out and its answer is still on its way: the panel will send the very frame f again,
      its command chain already stands where that frame leaves it, and it will read the cached answer as m. */
  predicate Owing(bus: P.Bus, l: Link, f: Frame, m: Message) {
    && Processed(l) && l.panel.state == P.Secure && P.SecureEstablished(l.panel)
    && P.Next(bus, l.panel, S.NoNonce).1 == Some(f)
    && l.panel.channel.session.value.cmac == NextMac(bus, l.panel)
    && PR.Read(bus, l.panel, l.reader.cache.reply) == PR.Answer(m)
    && Awaits(bus, l.panel, l.reader)
  }

  /** On the channel, both ends in step, and the suite lawful at both. */
  ghost predicate Channelled(bus: P.Bus, cfg: R.Config, l: Link) {
    && Ready(bus, cfg, l) && SameAddress(l) && bus.suite == cfg.suite && bus.suite.Lawful() && cfg.secure
    && l.panel.state == P.Secure
  }

  /** The next command is not a repeat of one processed, and comes in its turn. */
  predicate Receptive(cfg: R.Config, l: Link) {
    hide Timely;
    !Processed(l) && Timely(cfg, l)
  }

  lemma ChannelledFacts(bus: P.Bus, cfg: R.Config, l: Link)
    requires Channelled(bus, cfg, l)
    ensures PR.Consistent(l.panel) && PR.Settled(l.panel) && ValidAddress(l.panel.address) && P.SecureEstablished(l.panel) && RR.Orderly(cfg, l.reader)
  {
    hide RR.Orderly, Lag;
    RR.BelowBroadcast(l.panel.address);
  }

  /** The answer the reader gives to the command the panel will choose next. */
  function Answering(bus: P.Bus, cfg: R.Config, l: Link, env: R.Env): (R.Device, Message)
    requires l.panel.channel.session.Some? && l.reader.session.Some?
  {
    var mac := NextMac(bus, l.panel);
    R.Dispatch(cfg, Noticed(l.reader, env).(session := Some(l.reader.session.value.(cmac := mac))), PR.PlainChoice(l.panel).0, true, env)
  }

  lemma SyncNoticed(d: P.Device, r: R.Device, env: R.Env)
    requires InSync(d, r)
    ensures InSync(d, Noticed(r, env)) && d.channel.session.Some? && r.session.Some?
  {
  }

  /** In step, a command handled afresh is opened as the command chosen, and its answer, once the panel has
      sent the command, reads as the answer given. */
  lemma InStepHandled(bus: P.Bus, cfg: R.Config, l: Link, rndA: Cipher.Nonce, env: R.Env)
    requires Channelled(bus, cfg, l) && InSync(l.panel, l.reader) && Receptive(cfg, l)
    ensures var (p1, f) := P.Next(bus, l.panel, rndA);
            && f.Some?
            && var (r1, reply) := R.Handle(cfg, l.reader, f.value, env);
            var (e, m) := Answering(bus, cfg, l, env);
            && reply.Ok? && r1.cache == R.Cache(true, NextNumber(l), reply.value)
            && PR.Read(bus, p1, reply.value) == PR.Answer(m)
            && Awaits(bus, p1, r1)
            && (r1.session.Some? <==> e.adoptingKey.None?)
  {
    hide Ready, P.Next, R.Handle, R.Dispatch, R.EncodeReply, R.ReplyBlock, PR.PlainChoice, PR.Chosen, P.NextSequence, NextMac, RR.Admitted, InSync,
      RR.Orderly, SameAddress, PR.Read, P.OpenReply, ValidAddress, CheckOK, Sequence, SchemeOf, RR.AfterDispatch, PR.Settled, Processed, NextNumber, Timely,
      TakesEffect, PR.Consistent, PR.InExchange;
    ChannelledFacts(bus, cfg, l);
    Afresh(bus, cfg, l, rndA, env);
    Emission(bus, cfg, l, rndA);
    var (p1, fo) := P.Next(bus, l.panel, rndA);
    var f := fo.value;
    var d0 := Noticed(l.reader, env);
    SyncNoticed(l.panel, l.reader, env);
    CommandAdmitted(bus, cfg, l.panel, l.reader, rndA);
    CommandAdmitted(bus, cfg, l.panel, d0, rndA);
    SecureSends(bus, cfg, l, rndA);
    SealedAdmitted(cfg, l.reader, f, env);
    var a := RR.Admitted(cfg, d0, f).value;
    assert a.device == d0.(session := Some(l.reader.session.value.(cmac := NextMac(bus, l.panel))));
    var (e, m) := Answering(bus, cfg, l, env);
    AnswerInStep(bus, cfg, l, p1, a.device, e);
    ReplyRead(bus, cfg, p1, e, m, Sequence(f.control), SchemeOf(f.control));
  }

  lemma AnswerInStep(bus: P.Bus, cfg: R.Config, l: Link, p1: P.Device, d: R.Device, e: R.Device)
    requires Channelled(bus, cfg, l) && InSync(l.panel, l.reader)
    requires p1.address == l.panel.address && p1.channel.session == Some(l.panel.channel.session.value.(cmac := NextMac(bus, l.panel)))
    requires d.session == Some(l.reader.session.value.(cmac := NextMac(bus, l.panel))) && d.address == l.reader.address
    requires RR.AfterDispatch(cfg, d, e)
    ensures P.SecureEstablished(p1) && R.Established(e) && ValidAddress(e.address) && p1.address == e.address
    ensures p1.channel.session.value.keys == e.session.value.keys && p1.channel.session.value.cmac == e.session.value.cmac
  {
    hide Ready, RR.Orderly, NextMac, PR.Settled, ValidAddress;
    ChannelledFacts(bus, cfg, l);
  }

  // ----- A command that was not answered -----

  lemma ReadAlike(bus: P.Bus, p: P.Device, q: P.Device, f: Frame)
    requires q.address == p.address && q.channel.session == p.channel.session
    ensures PR.Read(bus, q, f) == PR.Read(bus, p, f)
  {
    hide P.OpenReply, Sequence;
  }

  /** The panel's side of a loss: whatever was lost, it keeps its chains as the command left them and will
      compose the same frame. */
  lemma LossKeeps(bus: P.Bus, cfg: R.Config, l: Link, outcome: Outcome, rndA: Cipher.Nonce, env: R.Env)
    requires Channelled(bus, cfg, l) && PR.SendsHead(l.panel) && !outcome.Delivered?
    requires RunExchange(bus, cfg, l, outcome, rndA, env).panel.queue.sequence != 0
    ensures var (p1, f) := P.Next(bus, l.panel, rndA);
            var p' := RunExchange(bus, cfg, l, outcome, rndA, env).panel;
            && f.Some? && p1.channel.session == Some(l.panel.channel.session.value.(cmac := NextMac(bus, l.panel)))
            && p'.state == P.Secure && p'.channel == p1.channel && p'.address == l.panel.address
            && p'.queue.repeatSequence && p'.queue.sequence == NextNumber(l)
            && PR.Settled(p') && p'.queue.outbox == l.panel.queue.outbox && PR.PlainChoice(p') == PR.PlainChoice(l.panel)
            && P.Next(bus, p', S.NoNonce).1 == f
            && P.SecureEstablished(p') && NextMac(bus, p') == NextMac(bus, l.panel)
  {
    hide Ready, P.Next, P.Conclude, R.Handle, PR.PlainChoice, PR.Chosen, P.NextSequence, NextMac, RR.Orderly, ValidAddress, CheckOK, Sequence, PR.Settled,
      PR.InExchange, RunExchange, Hears, SameAddress, PR.SendsHead, PR.Owed, PR.Answered, TakesEffect;
    ChannelledFacts(bus, cfg, l);
    Emission(bus, cfg, l, rndA);
    Parts(bus, cfg, l, outcome, rndA, env);
    SecureSends(bus, cfg, l, rndA);
    SealedSession(bus, l.panel, rndA);
    AR.OwedOutbox(bus, cfg, l, rndA);
    var p1 := P.Next(bus, l.panel, rndA).0;
    var p' := RunExchange(bus, cfg, l, outcome, rndA, env).panel;
    assert Returned(bus, cfg, l, outcome, rndA, env) == None;
    AR.NotHeard(bus, p1);
    ConcludeTurns(bus, p1, None);
    ConcludeAddress(bus, p1, None);
    ConcludeRepeats(bus, p1, None);
    PR.ConcludeSettles(bus, p1, None);
    RepeatedChoice(l.panel, p');
    Recomposed(bus, l.panel, p', rndA, S.NoNonce);
  }

  lemma SealedSession(bus: P.Bus, d: P.Device, rndA: Cipher.Nonce)
    requires PR.Consistent(d) && ValidAddress(d.address) && d.state == P.Secure
    ensures d.channel.session.Some?
    ensures P.Next(bus, d, rndA).0.channel.session == Some(d.channel.session.value.(cmac := NextMac(bus, d)))
  {
    hide P.Next, P.ComposeSealed, PR.PlainChoice, PR.Chosen, P.NextSequence, ValidAddress, Untagged, Enciphered, MacOver, CheckOK, NewControl;
    PR.EmitsSealed(bus, d, rndA);
    SealedKinds(d);
    PR.ComposeSealedCarries(bus, d.(queue := PR.Chosen(d)), PR.PlainChoice(d).0, PR.PlainChoice(d).1.value);
  }

  /** A pending repeat chooses the command it repeats, under its number. */
  lemma RepeatedChoice(d: P.Device, e: P.Device)
    requires PR.Settled(d) && PR.Settled(e) && d.state == P.Secure && e.state == P.Secure && PR.SendsHead(d)
    requires e.queue.repeatSequence && e.queue.outbox == d.queue.outbox && e.queue.sequence == P.NextSequence(PR.Chosen(d)).sequence
    requires P.SecureEstablished(d) && P.SecureEstablished(e)
    ensures PR.Consistent(e) && PR.PlainChoice(e) == PR.PlainChoice(d)
    ensures P.NextSequence(PR.Chosen(e)).sequence == P.NextSequence(PR.Chosen(d)).sequence
  {
    hide P.NextSequence, PR.Chosen, PR.Owed;
    PR.ChosenFacts(e);
  }

  /** The reply to a command is lost: the command is owed. */
  lemma ReplyLost(bus: P.Bus, cfg: R.Config, l: Link, rndA: Cipher.Nonce, env: R.Env)
    requires Channelled(bus, cfg, l) && InSync(l.panel, l.reader) && Receptive(cfg, l) && PR.SendsHead(l.panel)
    requires var l' := RunExchange(bus, cfg, l, Outcome.ReplyLost, rndA, env); l'.panel.queue.sequence != 0 && SameAddress(l')
    ensures P.Next(bus, l.panel, rndA).1.Some?
    ensures Owing(bus, RunExchange(bus, cfg, l, Outcome.ReplyLost, rndA, env), P.Next(bus, l.panel, rndA).1.value, Answering(bus, cfg, l, env).1)
  {
    hide Channelled, InSync, P.Next, P.Conclude, R.Handle, PR.PlainChoice, PR.Chosen, P.NextSequence, NextMac, RunExchange, PR.Read, P.OpenReply,
      NextNumber, PR.Settled, PR.SendsHead, TakesEffect, Answering, PR.Answered;
    SyncNoticed(l.panel, l.reader, env);
    InStepHandled(bus, cfg, l, rndA, env);
    LossKeeps(bus, cfg, l, Outcome.ReplyLost, rndA, env);
    Parts(bus, cfg, l, Outcome.ReplyLost, rndA, env);
    AR.Ledger(bus, cfg, l, Outcome.ReplyLost, rndA, env);
    var l' := RunExchange(bus, cfg, l, Outcome.ReplyLost, rndA, env);
    ReadAddress(bus, cfg, l, rndA);
    ReadAlike(bus, P.Next(bus, l.panel, rndA).0, l'.panel, l'.reader.cache.reply);
  }

  lemma ReadAddress(bus: P.Bus, cfg: R.Config, l: Link, rndA: Cipher.Nonce)
    requires Channelled(bus, cfg, l)
    ensures P.Next(bus, l.panel, rndA).0.address == l.panel.address
  {
    hide Ready, P.Next, PR.InExchange, PR.PlainChoice, PR.SendsHead;
    SecureSends(bus, cfg, l, rndA);
  }

  /** A panel still on the channel after a reply still holds the session that read it. */
  lemma DispatchOnChannel(bus: P.Bus, d: P.Device, m: Message)
    requires P.SecureEstablished(d) && P.Dispatch(bus, d, m).0.state == P.Secure
    ensures P.Dispatch(bus, d, m).0.channel.session == d.channel.session
  {
    hide PR.Status.Report, ParseCapabilities, ParseContacts, ParseLocalStatus, ClaimsSecureChannel, WholeCardRead, WholeKeypadEntry,
      P.AwaitingKeySet, P.Reclaim, P.BaseKey, P.Restart;
  }

  /** Reading the awaited answer brings the chains together. */
  lemma HeardInStep(bus: P.Bus, p1: P.Device, r: R.Device, m: Message)
    requires PR.InExchange(p1) && P.SecureEstablished(p1) && Awaits(bus, p1, r) && r.session.Some?
    requires PR.Read(bus, p1, r.cache.reply) == PR.Answer(m)
    requires var p' := P.Conclude(bus, p1, Some(r.cache.reply)).0; p'.state == P.Secure && p'.queue.sequence != 0
    ensures InSync(P.Conclude(bus, p1, Some(r.cache.reply)).0, r)
  {
    hide PR.InExchange, P.Conclude, PR.Read, P.Dispatch, P.OpenReply, P.Delivered;
    ConcludeTurns(bus, p1, Some(r.cache.reply));
    var d := PR.AtDispatch(bus, p1, r.cache.reply);
    PR.AtDispatchChannel(bus, p1, r.cache.reply);
    DispatchOnChannel(bus, d, m);
  }

  /** With the command chain already where the command leaves it, composing it again changes nothing but the
      queue. */
  lemma OwingSends(bus: P.Bus, cfg: R.Config, l: Link, f: Frame, m: Message, rndA: Cipher.Nonce)
    requires Channelled(bus, cfg, l) && Owing(bus, l, f, m)
    ensures var (p1, sent) := P.Next(bus, l.panel, rndA);
            && sent == Some(f) && PR.InExchange(p1) && p1.channel == l.panel.channel && p1.address == l.panel.address && p1.state == P.Secure
            && PR.SendsHead(l.panel)
  {
    hide Ready, P.Next, PR.InExchange, PR.PlainChoice, PR.SendsHead, NextMac, PR.Read, Awaits, RR.Orderly, ValidAddress, PR.Settled, PR.Chosen,
      P.NextSequence;
    ChannelledFacts(bus, cfg, l);
    SecureSends(bus, cfg, l, rndA);
    SealedSession(bus, l.panel, rndA);
    RepeatSendsHead(bus, cfg, l);
    Recomposed(bus, l.panel, l.panel, S.NoNonce, rndA);
  }

  /** Further losses, of the repeat or of the repeated answer, change nothing: the same frame goes out and the
      reader only notes the time. */
  lemma StillOwing(bus: P.Bus, cfg: R.Config, l: Link, f: Frame, m: Message, outcome: Outcome, rndA: Cipher.Nonce, env: R.Env)
    requires Channelled(bus, cfg, l) && Owing(bus, l, f, m) && !outcome.Delivered?
    requires RunExchange(bus, cfg, l, outcome, rndA, env).panel.queue.sequence != 0
    ensures var l' := RunExchange(bus, cfg, l, outcome, rndA, env);
            && P.Next(bus, l.panel, rndA).1 == Some(f)
            && Owing(bus, l', f, m)
            && l'.reader == l.reader.(seen := l'.reader.seen, lastSeen := l'.reader.lastSeen)
  {
    hide Ready, P.Next, PR.InExchange, PR.PlainChoice, PR.SendsHead, NextMac, PR.Read, P.OpenReply, PR.Settled, RunExchange, R.Handle, P.Conclude,
      NextNumber, TakesEffect, PR.Answered;
    OwingSends(bus, cfg, l, f, m, rndA);
    Replayed(bus, cfg, l, rndA, env);
    LossKeeps(bus, cfg, l, outcome, rndA, env);
    Parts(bus, cfg, l, outcome, rndA, env);
    AR.Ledger(bus, cfg, l, outcome, rndA, env);
    ReadAlike(bus, l.panel, RunExchange(bus, cfg, l, outcome, rndA, env).panel, l.reader.cache.reply);
  }

  /** When the repeat and its answer get through, the panel reads the answer to its command, the reader has
      not been touched, and the two are in step again. */
  lemma OwingHeard(bus: P.Bus, cfg: R.Config, l: Link, f: Frame, m: Message, rndA: Cipher.Nonce, env: R.Env)
    requires Channelled(bus, cfg, l) && Owing(bus, l, f, m)
    ensures var (p1, sent) := P.Next(bus, l.panel, rndA);
            var answer := Returned(bus, cfg, l, Delivered, rndA, env);
            var l' := RunExchange(bus, cfg, l, Delivered, rndA, env);
            && sent == Some(f) && answer.Some? && PR.Read(bus, p1, answer.value) == PR.Answer(m)
            && l'.reader == l.reader.(seen := l'.reader.seen, lastSeen := l'.reader.lastSeen)
            && (l'.panel.state == P.Secure && l'.panel.queue.sequence != 0 && l.reader.session.Some? ==> InSync(l'.panel, l'.reader))
  {
    hide Ready, P.Next, PR.InExchange, PR.PlainChoice, PR.SendsHead, NextMac, PR.Read, P.OpenReply, RunExchange, R.Handle, P.Conclude, TakesEffect,
      InSync;
    OwingSends(bus, cfg, l, f, m, rndA);
    Replayed(bus, cfg, l, rndA, env);
    Parts(bus, cfg, l, Delivered, rndA, env);
    var p1 := P.Next(bus, l.panel, rndA).0;
    var l' := RunExchange(bus, cfg, l, Delivered, rndA, env);
    ReadAlike(bus, l.panel, p1, l.reader.cache.reply);
    if l'.panel.state == P.Secure && l'.panel.queue.sequence != 0 && l.reader.session.Some? {
      HeardInStep(bus, p1, l'.reader, m);
    }
  }

  /** A run of exchanges in which nothing gets through to the panel, and it does not give up. */
  predicate Losses(bus: P.Bus, cfg: R.Config, l: Link, ops: seq<Op>) {
    hide Step;
    ops == [] ||
    (var n := |ops| - 1;
     && Losses(bus, cfg, l, ops[..n]) && ops[n].Exchange? && !ops[n].outcome.Delivered?
     && RunOps(bus, cfg, l, ops).panel.queue.sequence != 0)
  }

  /** Each loss is a miss, and the panel does not give up before the last of them. */
  lemma LossCounts(bus: P.Bus, cfg: R.Config, l: Link, outcome: Outcome, rndA: Cipher.Nonce, env: R.Env)
    requires Channelled(bus, cfg, l) && !outcome.Delivered?
    requires RunExchange(bus, cfg, l, outcome, rndA, env).panel.queue.sequence != 0
    ensures var misses := RunExchange(bus, cfg, l, outcome, rndA, env).panel.queue.misses;
            misses == l.panel.queue.misses + 1 && misses < P.OFFLINE_THRESHOLD
  {
    hide Ready, RunExchange, P.Next, R.Handle, PR.PlainChoice, RR.Orderly, PR.Settled, PR.SendsHead, ValidAddress;
    ChannelledFacts(bus, cfg, l);
    SecureSends(bus, cfg, l, rndA);
    Parts(bus, cfg, l, outcome, rndA, env);
    SendingMisses(bus, l.panel, rndA);
  }

  lemma SendingMisses(bus: P.Bus, d: P.Device, rndA: Cipher.Nonce)
    requires PR.Settled(d) && ValidAddress(d.address)
    ensures P.Next(bus, d, rndA).0.queue.misses == d.queue.misses
  {
    hide P.Next, CheckOK, NewControl, Sequence, ValidAddress, PR.Resting;
    PR.NextEmits(bus, d, rndA);
  }

  lemma {:induction false} LossesOwe(bus: P.Bus, cfg: R.Config, l: Link, ops: seq<Op>, f: Frame, m: Message)
    requires Channelled(bus, cfg, l) && AtMostOnce(l) && Owing(bus, l, f, m) && Losses(bus, cfg, l, ops)
    ensures var l' := RunOps(bus, cfg, l, ops);
            && Channelled(bus, cfg, l') && AtMostOnce(l') && Owing(bus, l', f, m)
            && l'.reader == l.reader.(seen := l'.reader.seen, lastSeen := l'.reader.lastSeen)
            && l'.panel.queue.misses == l.panel.queue.misses + |ops| && (ops != [] ==> l'.panel.queue.misses < P.OFFLINE_THRESHOLD)
    decreases |ops|
  {
    hide Channelled, AtMostOnce, Owing, RunExchange;
    if ops != [] {
      var n := |ops| - 1;
      LossesOwe(bus, cfg, l, ops[..n], f, m);
      var b := RunOps(bus, cfg, l, ops[..n]);
      StillOwing(bus, cfg, b, f, m, ops[n].outcome, ops[n].rndA, ops[n].env);
      StillChannelled(bus, cfg, b, f, m, ops[n].outcome, ops[n].rndA, ops[n].env);
      LossCounts(bus, cfg, b, ops[n].outcome, ops[n].rndA, ops[n].env);
    }
  }

  lemma StillChannelled(bus: P.Bus, cfg: R.Config, l: Link, f: Frame, m: Message, outcome: Outcome, rndA: Cipher.Nonce, env: R.Env)
    requires Channelled(bus, cfg, l) && AtMostOnce(l) && Owing(bus, l, f, m) && !outcome.Delivered?
    requires RunExchange(bus, cfg, l, outcome, rndA, env).panel.queue.sequence != 0
    ensures var l' := RunExchange(bus, cfg, l, outcome, rndA, env); Channelled(bus, cfg, l') && AtMostOnce(l')
  {
    hide Ready, RunExchange, P.Next, NextMac, PR.Read, Awaits, AtMostOnce;
    AR.ExchangeReady(bus, cfg, l, outcome, rndA, env);
    StillOwing(bus, cfg, l, f, m, outcome, rndA, env);
  }

  /** An application command whose reply is lost, on a channel in step: for as many further losses as the panel puts up
      with, every repeat is octet for octet the first frame and the reader is not touched again. When one gets through,
      the panel reads exactly the answer the reader gave the first time, and the chains agree. */
  lemma SecureRetransmission(
    bus: P.Bus, cfg: R.Config, l: Link, rndA: Cipher.Nonce, env: R.Env, losses: seq<Op>, rndA': Cipher.Nonce, env': R.Env)
    requires Channelled(bus, cfg, l) && AtMostOnce(l) && InSync(l.panel, l.reader) && Receptive(cfg, l) && PR.SendsHead(l.panel)
    requires var l1 := RunExchange(bus, cfg, l, Outcome.ReplyLost, rndA, env);
             l1.panel.queue.sequence != 0 && SameAddress(l1) && Losses(bus, cfg, l1, losses)
    ensures var l1 := RunExchange(bus, cfg, l, Outcome.ReplyLost, rndA, env);
            var l2 := RunOps(bus, cfg, l1, losses);
            var l3 := RunExchange(bus, cfg, l2, Delivered, rndA', env');
            var answer := Returned(bus, cfg, l2, Delivered, rndA', env');
            && l.panel.queue.misses + 1 + |losses| < P.OFFLINE_THRESHOLD
            && P.Next(bus, l2.panel, rndA').1.Some? && P.Next(bus, l2.panel, rndA').1 == P.Next(bus, l.panel, rndA).1
            && answer.Some?
            && PR.Read(bus, P.Next(bus, l2.panel, rndA').0, answer.value) == PR.Answer(Answering(bus, cfg, l, env).1)
            && l3.reader == l1.reader.(seen := l3.reader.seen, lastSeen := l3.reader.lastSeen)
            && (l3.panel.state == P.Secure && l3.panel.queue.sequence != 0 && l1.reader.session.Some? ==> InSync(l3.panel, l3.reader))
  {
    hide Channelled, AtMostOnce, InSync, Owing, RunExchange, RunOps, Losses, Returned, P.Next, PR.Read, Answering, PR.SendsHead, Receptive;
    SyncNoticed(l.panel, l.reader, env);
    ReplyLost(bus, cfg, l, rndA, env);
    FirstLoss(bus, cfg, l, rndA, env);
    LossCounts(bus, cfg, l, Outcome.ReplyLost, rndA, env);
    var l1 := RunExchange(bus, cfg, l, Outcome.ReplyLost, rndA, env);
    var f, m := P.Next(bus, l.panel, rndA).1.value, Answering(bus, cfg, l, env).1;
    LossesOwe(bus, cfg, l1, losses, f, m);
    OwingHeard(bus, cfg, RunOps(bus, cfg, l1, losses), f, m, rndA', env');
  }

  lemma FirstLoss(bus: P.Bus, cfg: R.Config, l: Link, rndA: Cipher.Nonce, env: R.Env)
    requires Channelled(bus, cfg, l) && AtMostOnce(l) && PR.SendsHead(l.panel)
    requires var l1 := RunExchange(bus, cfg, l, Outcome.ReplyLost, rndA, env); l1.panel.queue.sequence != 0 && SameAddress(l1)
    ensures var l1 := RunExchange(bus, cfg, l, Outcome.ReplyLost, rndA, env); Channelled(bus, cfg, l1) && AtMostOnce(l1)
  {
    hide Ready, RunExchange, P.Next, NextMac, AtMostOnce, PR.SendsHead, PR.PlainChoice, PR.Settled, NextNumber, SameAddress;
    AR.ExchangeReady(bus, cfg, l, Outcome.ReplyLost, rndA, env);
    LossKeeps(bus, cfg, l, Outcome.ReplyLost, rndA, env);
  }

  /** A command lost on the way out leaves the two in step: the next command verifies. */
  lemma CommandLostInStep(bus: P.Bus, cfg: R.Config, l: Link, rndA: Cipher.Nonce, env: R.Env)
    requires Channelled(bus, cfg, l) && InSync(l.panel, l.reader)
    requires RunExchange(bus, cfg, l, CommandLost, rndA, env).panel.queue.sequence != 0
    ensures var l' := RunExchange(bus, cfg, l, CommandLost, rndA, env); l'.panel.state == P.Secure && InSync(l'.panel, l'.reader)
  {
    hide Ready, P.Next, PR.InExchange, PR.PlainChoice, PR.SendsHead, NextMac, RunExchange, R.Handle, P.Conclude, RR.Orderly, ValidAddress, PR.Settled,
      Hears;
    ChannelledFacts(bus, cfg, l);
    SecureSends(bus, cfg, l, rndA);
    SealedSession(bus, l.panel, rndA);
    Parts(bus, cfg, l, CommandLost, rndA, env);
    AR.NotHeard(bus, P.Next(bus, l.panel, rndA).0);
    ConcludeTurns(bus, P.Next(bus, l.panel, rndA).0, None);
  }

  // ----- Any number of exchanges that get through -----

  /** A command that leaves the channel, the key and the address as they are. */
  predicate Ordinary(m: Message) {
    m.code != KEYSET && m.code != COMSET && m.code != ID && m.code != CAP
  }

  predicate OrdinaryHandler(env: R.Env) {
    TameHandler(env) && (env.handler.Some? ==> env.handler.value.code != COM)
  }

  lemma DispatchOrdinary(cfg: R.Config, d: R.Device, m: Message, env: R.Env)
    requires RR.Orderly(cfg, d) && Ordinary(m) && OrdinaryHandler(env)
    ensures var (e, answer) := R.Dispatch(cfg, d, m, true, env);
            e.adopting.None? && e.adoptingKey.None? && !Steering(answer.code) && answer.code != COM
  {
    hide R.EntriesValid, R.FoldOutputs, R.ContactStatus, R.LocalStatus, AppendCapabilities;
    RR.StatusCodes(d.points);
    if m.code == POLL && d.pending != [] {
      assert RR.Reportable(d.points, d.pending[0]);
    }
  }

  /** An answer that leaves the panel on the channel. */
  predicate StaysOn(m: Message) {
    !Steering(m.code) && m.code != COM
  }

  /** What the reader makes of the next command leaves both ends on the channel: no key is taken, and the answer neither
      steers the panel nor moves it. */
  predicate Harmless(bus: P.Bus, cfg: R.Config, l: Link, env: R.Env) {
    hide Answering;
    && l.panel.channel.session.Some? && l.reader.session.Some?
    && var (e, m) := Answering(bus, cfg, l, env);
    e.adoptingKey.None? && StaysOn(m)
  }

  /** One exchange that gets through in step: the reader carries out exactly the command the panel chose, the panel
      reads exactly the answer the reader gave, and they are in step again. */
  lemma DeliveredInStep(bus: P.Bus, cfg: R.Config, l: Link, rndA: Cipher.Nonce, env: R.Env)
    requires Channelled(bus, cfg, l) && AtMostOnce(l) && InSync(l.panel, l.reader) && Receptive(cfg, l) && Harmless(bus, cfg, l, env)
    ensures P.SecureEstablished(l.panel) && R.Established(l.reader)
    ensures var p1 := P.Next(bus, l.panel, rndA).0;
            var answer := Returned(bus, cfg, l, Delivered, rndA, env);
            var l' := RunExchange(bus, cfg, l, Delivered, rndA, env);
            && answer.Some? && PR.Read(bus, p1, answer.value) == PR.Answer(Answering(bus, cfg, l, env).1)
            && Channelled(bus, cfg, l') && AtMostOnce(l') && InSync(l'.panel, l'.reader)
            && !l'.panel.queue.repeatSequence && !l'.missed
  {
    hide Ready, P.Next, P.Conclude, R.Handle, R.Dispatch, PR.PlainChoice, PR.InExchange, NextMac, PR.Read, P.OpenReply, RunExchange, RR.Orderly,
      TakesEffect, AtMostOnce, Awaits, PR.Settled, NextNumber, Answering, PR.SendsHead, ValidAddress, InSync, P.Dispatch, PR.AtDispatch, Timely;
    SyncNoticed(l.panel, l.reader, env);
    SyncEstablished(l.panel, l.reader);
    ChannelledFacts(bus, cfg, l);
    AR.NothingMissed(bus, cfg, l, rndA, env);
    InStepHandled(bus, cfg, l, rndA, env);
    SecureSends(bus, cfg, l, rndA);
    Parts(bus, cfg, l, Delivered, rndA, env);
    var p1 := P.Next(bus, l.panel, rndA).0;
    var answer := Returned(bus, cfg, l, Delivered, rndA, env);
    var m := Answering(bus, cfg, l, env).1;
    var l' := RunExchange(bus, cfg, l, Delivered, rndA, env);
    ReadCode(bus, p1, answer.value);
    AR.HeardNumbered(bus, p1, answer);
    ConcludeTurns(bus, p1, answer);
    PR.AtDispatchChannel(bus, p1, answer.value);
    DispatchTurns(bus, PR.AtDispatch(bus, p1, answer.value), m);
    AcceptedWhenTaken(bus, cfg, l, rndA, env, answer.value);
    HeardInStep(bus, p1, l'.reader, m);
    AR.ExchangeReady(bus, cfg, l, Delivered, rndA, env);
    OrdinaryStays(bus, cfg, l, rndA, env);
  }

  lemma SyncEstablished(d: P.Device, r: R.Device)
    requires InSync(d, r)
    ensures P.SecureEstablished(d) && R.Established(r)
  {
  }

  lemma NothingOwed(bus: P.Bus, cfg: R.Config, l: Link)
    requires Channelled(bus, cfg, l) && !l.panel.queue.repeatSequence && (cfg.strict ==> !l.missed)
    ensures Receptive(cfg, l)
  {
    hide Ready, Timely;
    TimelyExactly(bus, cfg, l);
  }

  /** Ordinary commands are harmless, when the application's handler is. */
  lemma OrdinaryAnswer(bus: P.Bus, cfg: R.Config, l: Link, env: R.Env)
    requires Channelled(bus, cfg, l) && InSync(l.panel, l.reader) && Ordinary(PR.PlainChoice(l.panel).0) && OrdinaryHandler(env)
    ensures Harmless(bus, cfg, l, env)
  {
    hide Ready, R.Dispatch, PR.PlainChoice, NextMac, PR.Settled, RR.AllReportable, RR.Coalesced;
    ChannelledFacts(bus, cfg, l);
    var d := Noticed(l.reader, env).(session := Some(l.reader.session.value.(cmac := NextMac(bus, l.panel))));
    assert RR.Orderly(cfg, d);
    DispatchOrdinary(cfg, d, PR.PlainChoice(l.panel).0, env);
  }

  /** A key is accepted exactly when the reader took one and the panel awaits one. */
  lemma AcceptedWhenTaken(bus: P.Bus, cfg: R.Config, l: Link, rndA: Cipher.Nonce, env: R.Env, f: Frame)
    requires Channelled(bus, cfg, l) && InSync(l.panel, l.reader)
    ensures var d := PR.AtDispatch(bus, P.Next(bus, l.panel, rndA).0, f);
            var (e, m) := Answering(bus, cfg, l, env);
            KeyAccepted(d, m) <==> e.adoptingKey.Some? && l.panel.channel.pendingKey.Some?
  {
    hide Ready, P.Next, P.OpenReply, PR.InExchange, PR.PlainChoice, PR.SendsHead, R.Dispatch, NextMac, RR.AllReportable, RR.Coalesced, KeyIn, PR.Settled;
    ChannelledFacts(bus, cfg, l);
    SecureSends(bus, cfg, l, rndA);
    AR.SecureChoice(l.panel);
    PR.AtDispatchChannel(bus, P.Next(bus, l.panel, rndA).0, f);
    var d := Noticed(l.reader, env).(session := Some(l.reader.session.value.(cmac := NextMac(bus, l.panel))));
    var m := PR.PlainChoice(l.panel).0;
    RR.DispatchAdopts(cfg, d, m, true, env);
    if m.code == KEYSET {
      KeyChoice(l.panel);
      InstallDispatch(cfg, d, m, env);
    }
  }

  /** Only osdp_COM announces a move, so the address is still shared. */
  lemma OrdinaryStays(bus: P.Bus, cfg: R.Config, l: Link, rndA: Cipher.Nonce, env: R.Env)
    requires Channelled(bus, cfg, l) && Receptive(cfg, l)
    requires var f := P.Next(bus, l.panel, rndA).1;
             f.Some? && R.Handle(cfg, l.reader, f.value, env).1.Ok? && R.Handle(cfg, l.reader, f.value, env).1.value.code != COM
    ensures R.Handle(cfg, l.reader, P.Next(bus, l.panel, rndA).1.value, env).0.address == l.panel.address
  {
    hide Ready, P.Next, R.Handle, RR.Orderly, PR.Settled, CheckOK, Sequence;
    ChannelledFacts(bus, cfg, l);
    Afresh(bus, cfg, l, rndA, env);
    RR.EffectsFollowTheReply(cfg, l.reader, P.Next(bus, l.panel, rndA).1.value, env);
  }

  /** Every message that fits a frame goes through composing, the octets of the line and opening unchanged, and
      so does its answer: what the reader carries out is what the panel chose, and what the panel reads is what
      the reader answered. */
  lemma ThroughTheWire(
    bus: P.Bus, cfg: R.Config, l: Link, rndA: Cipher.Nonce, env: R.Env, more: seq<Octet>, more': seq<Octet>)
    requires Channelled(bus, cfg, l) && InSync(l.panel, l.reader) && Receptive(cfg, l)
    ensures var (p1, f) := P.Next(bus, l.panel, rndA);
            && f.Some? && R.Handle(cfg, l.reader, f.value, env).1.Ok?
            && var reply := R.Handle(cfg, l.reader, f.value, env).1.value;
            && (Append(f.value).Ok? ==> Decode(Append(f.value).value + more) == Decoded(f.value))
            && (Append(reply).Ok? ==> Decode(Append(reply).value + more') == Decoded(reply))
            && PR.Read(bus, p1, reply) == PR.Answer(Answering(bus, cfg, l, env).1)
            && RR.Admitted(cfg, l.reader, f.value).Some?
            && RR.Admitted(cfg, l.reader, f.value).value.message == PR.PlainChoice(l.panel).0
  {
    hide Ready, P.Next, R.Handle, PR.PlainChoice, NextMac, RR.Admitted, RR.Orderly, InSync, PR.Read, ValidAddress, CheckOK, Sequence, SchemeOf, PR.Settled,
      NextNumber, PR.Consistent, Append, Decode, Carries, R.Answer, R.EncodeReply, P.NextSequence, PR.Chosen, Awaits, Answering;
    ChannelledFacts(bus, cfg, l);
    SyncNoticed(l.panel, l.reader, env);
    InStepHandled(bus, cfg, l, rndA, env);
    CommandAdmitted(bus, cfg, l.panel, l.reader, rndA);
    PR.EmitsSealed(bus, l.panel, rndA);
    Afresh(bus, cfg, l, rndA, env);
    var (p1, fo) := P.Next(bus, l.panel, rndA);
    var f := fo.value;
    var reply := R.Handle(cfg, l.reader, f, env).1.value;
    HandleFresh(cfg, l.reader, f, env);
    var (e, m, block) := R.Answer(cfg, Noticed(l.reader, env), f, env);
    if Append(f).Ok? {
      Size.CarriedIntact(f, false, l.panel.address, p1.queue.sequence, bus.scheme, PR.PlainChoice(l.panel).0.code, PR.PlainChoice(l.panel).1, more);
    }
    if Append(reply).Ok? {
      Size.CarriedIntact(reply, true, l.reader.address, Sequence(f.control), SchemeOf(f.control), m.code, block, more');
    }
  }
}
