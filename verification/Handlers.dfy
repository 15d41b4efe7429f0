/** An application whose handler answers with a handshake reply: what it costs the commands that follow.
    internal/bus/secure.go and internal/pd/dispatch.go. */
module Handlers {
  import opened Octets
  import opened Frames
  import opened Messages
  import opened Links
  import opened LinkRuns
  import opened Lockstep
  import opened Agreement
  import opened Retransmission
  import opened KeyInstalls
  import AR = AgreementRuns
  import CE = ChannelEnds
  import Cipher
  import L = Limits
  import P = Panel
  import PR = PanelRuns
  import R = Reader
  import RR = ReaderRuns

  /** A command the reader leaves to the application. */
  predicate Delegated(code: Octet) {
    && code != POLL && code != ID && code != CAP && code != LSTAT && code != ISTAT && code != OSTAT && code != RSTAT && code != OUT
    && code != COMSET && code != LED && code != BUZ && code != TEXT && code != KEEPACTIVE && code != ABORT && code != ACURXSIZE
    && code != CHLNG && code != SCRYPT && code != KEYSET
  }

  lemma HandlerAnswers(bus: P.Bus, cfg: R.Config, l: Link, env: R.Env)
    requires Channelled(bus, cfg, l) && InSync(l.panel, l.reader) && PR.SendsHead(l.panel) && Delegated(l.panel.queue.outbox[0].code)
    requires env.handler.Some?
    ensures var (e, m) := Answering(bus, cfg, l, env); m == env.handler.value && e.adoptingKey.None?
  {
    hide Ready, NextMac, PR.Settled, PR.SendsHead, RR.AllReportable, RR.Coalesced, PR.PlainChoice;
    ChannelledFacts(bus, cfg, l);
    AR.SecureChoice(l.panel);
  }

  /** On the channel, the answer counts and the command is released. */
  lemma AnsweredOn(bus: P.Bus, cfg: R.Config, l: Link, rndA: Cipher.Nonce, env: R.Env)
    requires Channelled(bus, cfg, l) && AtMostOnce(l) && InSync(l.panel, l.reader) && Receptive(cfg, l) && PR.SendsHead(l.panel)
    requires var m := Answering(bus, cfg, l, env).1; m.code != BUSY && m.code != COM
    ensures var l' := RunExchange(bus, cfg, l, Delivered, rndA, env);
            && Ready(bus, cfg, l') && AtMostOnce(l') && SameAddress(l') && !l'.missed && !l'.panel.queue.repeatSequence
            && l.panel.queue.outbox != [] && l'.panel.queue.outbox == l.panel.queue.outbox[1..] && !l'.panel.queue.deferCommands
            && l'.answered == l.answered + 1 && l'.accepted == l.accepted
  {
    hide Ready, P.Next, P.Conclude, R.Handle, R.Dispatch, PR.PlainChoice, PR.InExchange, NextMac, PR.Read, P.OpenReply, RunExchange, RR.Orderly,
      TakesEffect, AtMostOnce, Awaits, PR.Settled, NextNumber, Answering, PR.SendsHead, ValidAddress, InSync, P.Dispatch, PR.AtDispatch, Timely, Performed;
    SyncNoticed(l.panel, l.reader, env);
    ChannelledFacts(bus, cfg, l);
    InStepHandled(bus, cfg, l, rndA, env);
    SecureSends(bus, cfg, l, rndA);
    AR.NothingMissed(bus, cfg, l, rndA, env);
    Parts(bus, cfg, l, Delivered, rndA, env);
    AR.Ledger(bus, cfg, l, Delivered, rndA, env);
    var p1 := P.Next(bus, l.panel, rndA).0;
    var answer := Returned(bus, cfg, l, Delivered, rndA, env);
    ReadCode(bus, p1, answer.value);
    AR.HeardNumbered(bus, p1, answer);
    ConcludeAddress(bus, p1, answer);
    AR.ExchangeReady(bus, cfg, l, Delivered, rndA, env);
    OrdinaryStays(bus, cfg, l, rndA, env);
    AR.SecureChoice(l.panel);
    AnsweredReleases(bus, cfg, l, rndA, answer);
  }

  /** A command in the clear to a reader that holds a session is refused in the clear, and the panel counts the refusal. */
  lemma RefusedInClear(bus: P.Bus, cfg: R.Config, l: Link, rndA: Cipher.Nonce, env: R.Env)
    requires Ready(bus, cfg, l) && SameAddress(l) && !Processed(l) && Timely(cfg, l)
    requires l.panel.state == P.Online && l.panel.channel.session.None? && PR.SendsHead(l.panel) && R.Established(l.reader)
    ensures var l' := RunExchange(bus, cfg, l, Delivered, rndA, env);
            l'.answered == l.answered + 1 && l'.effects == l.effects && l'.accepted == l.accepted
  {
    hide Ready, P.Next, R.Handle, TakesEffect, Performed, Sequence, CheckOK, PR.Read, RunExchange, PR.InExchange, PR.PlainChoice, PR.Chosen, P.NextSequence,
      PR.SendsHead, Processed, Timely, R.Established, R.Answer, R.EncodeReply, SchemeOf, NewControl, R.Replays, InTurn, RR.Orderly, RR.Admitted, P.Conclude;
    ReadyParts(bus, cfg, l);
    L.PlainEmission(bus, l.panel, rndA);
    Afresh(bus, cfg, l, rndA, env);
    var (p1, fo) := P.Next(bus, l.panel, rndA);
    var f := fo.value;
    HandleFresh(cfg, l.reader, f, env);
    Unadmitted(cfg, l.reader, f, env);
    EffectOfAdmission(cfg, l.reader, f, env);
    RR.AnswerUnadmitted(cfg, Noticed(l.reader, env), f, env);
    AnswerNumbered(cfg, l.reader, f, env);
    AR.Ledger(bus, cfg, l, Delivered, rndA, env);
    ReadPlain(bus, p1, R.Handle(cfg, l.reader, f, env).1.value);
  }

  lemma ReadyParts(bus: P.Bus, cfg: R.Config, l: Link)
    requires Ready(bus, cfg, l)
    ensures Patient(cfg) && Sound(cfg, l) && PR.Settled(l.panel) && RR.Orderly(cfg, l.reader) && l.panel.address < BROADCAST
  {
    hide RR.Orderly, PR.Settled, Lag;
  }

  /** A handler that answers osdp_CCRYPT on the channel: the panel takes the channel for failed and goes on in the clear, the
      reader keeps its session, and the next command is refused and counted as answered without being carried out. */
  lemma ImitatedCryptogram(
    bus: P.Bus, cfg: R.Config, l: Link, m: Message, next: Message, rndA: Cipher.Nonce, env: R.Env, env': R.Env)
    requires Idle(bus, cfg, l) && Delegated(m.code) && next.code != KEYSET && P.Fits(bus, l.panel, m)
    requires env.handler.Some? && env.handler.value.code == CCRYPT
    requires P.Fits(bus, RunExchange(bus, cfg, Step(bus, cfg, l, Submit(m)), Delivered, rndA, env).panel, next)
    ensures var l2 := RunExchange(bus, cfg, Step(bus, cfg, l, Submit(m)), Delivered, rndA, env);
            var l4 := RunExchange(bus, cfg, Step(bus, cfg, l2, Submit(next)), Delivered, rndA, env');
            && GivenUp(l2.panel) && R.Established(l2.reader)
            && l4.accepted == l.accepted + [m, next] && l4.answered == l.answered + 2 && l4.effects == l2.effects
  {
    hide RunExchange, AtMostOnce, InSync, Ready, P.Fits, Receptive, Answering, Timely, R.Established;
    ChannelledFacts(bus, cfg, l);
    StaysInStep(bus, cfg, l, Submit(m));
    var l1 := Step(bus, cfg, l, Submit(m));
    NothingOwed(bus, cfg, l1);
    SyncNoticed(l1.panel, l1.reader, env);
    HandlerAnswers(bus, cfg, l1, env);
    CE.ChannelStep(bus, cfg, l1, rndA, env);
    AnsweredOn(bus, cfg, l1, rndA, env);
    var l2 := RunExchange(bus, cfg, l1, Delivered, rndA, env);
    SubmittedAfter(bus, cfg, l2, next);
    RefusedInClear(bus, cfg, Step(bus, cfg, l2, Submit(next)), rndA, env');
  }

  lemma SubmittedAfter(bus: P.Bus, cfg: R.Config, l: Link, m: Message)
    requires Ready(bus, cfg, l) && SameAddress(l) && !l.missed && !l.panel.queue.repeatSequence && GivenUp(l.panel)
    requires l.panel.queue.outbox == [] && !l.panel.queue.deferCommands && m.code != KEYSET && P.Fits(bus, l.panel, m)
    ensures var l' := Step(bus, cfg, l, Submit(m));
            && Ready(bus, cfg, l') && SameAddress(l') && !Processed(l') && Timely(cfg, l') && GivenUp(l'.panel) && PR.SendsHead(l'.panel)
            && l'.reader == l.reader && l'.accepted == l.accepted + [m] && l'.answered == l.answered && l'.effects == l.effects
  {
    hide P.Fits, RR.Orderly, PR.Settled, Timely;
    var l' := Step(bus, cfg, l, Submit(m));
    StepUndisturbed(bus, cfg, l, Submit(m));
    TimelyExactly(bus, cfg, l');
  }
}
