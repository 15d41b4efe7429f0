/** A secure channel over a whole run, whatever the line loses: how long the two chains can be brought together again,
    and what ends them. Section 7.4 of SIA OSDP v2.2.2. */
module ChannelRuns {
  import opened Octets
  import opened Frames
  import opened Messages
  import opened Links
  import opened LinkRuns
  import opened Lockstep
  import opened Agreement
  import opened Retransmission
  import AR = AgreementRuns
  import Cipher
  import S = Sessions
  import P = Panel
  import PR = PanelRuns
  import R = Reader
  import RR = ReaderRuns

  /** Either in step, or one repeat away from it. */
  ghost predicate OnChannel(bus: P.Bus, cfg: R.Config, l: Link) {
    && Channelled(bus, cfg, l) && AtMostOnce(l)
    && (InStepNow(l) || exists f, m :: Awaited(bus, l, f, m))
  }

  predicate InStepNow(l: Link) {
    InSync(l.panel, l.reader) && !Processed(l)
  }

  predicate Awaited(bus: P.Bus, l: Link, f: Frame, m: Message) {
    && Owing(bus, l, f, m) && StaysOn(m) && l.reader.session.Some?
    && (m.code == ACK ==> l.panel.queue.outbox != [] && l.panel.queue.outbox[0].code != KEYSET)
  }

  /** Steps that keep the channel: anything between exchanges, and exchanges with any loss but that of the reply to a command
      that will not be repeated, as long as what the reader makes of the command is harmless. */
  ghost predicate KeepsOn(bus: P.Bus, cfg: R.Config, l: Link, op: Op) {
    hide Step, Timely, Harmless;
    match op
    case Exchange(outcome, rndA, env) =>
      && NeverTwiceLost(l, outcome) && (outcome.CommandLost? || Processed(l) || (Timely(cfg, l) && Harmless(bus, cfg, l, env)))
      && (outcome.ReplyLost? ==> PR.SendsHead(l.panel))
      && Step(bus, cfg, l, op).panel.queue.sequence != 0
    case _ => true
  }

  // ----- In step -----

  lemma CommandLostOn(bus: P.Bus, cfg: R.Config, l: Link, rndA: Cipher.Nonce, env: R.Env)
    requires Channelled(bus, cfg, l) && AtMostOnce(l) && InStepNow(l) && NeverTwiceLost(l, CommandLost)
    requires RunExchange(bus, cfg, l, CommandLost, rndA, env).panel.queue.sequence != 0
    ensures var l' := RunExchange(bus, cfg, l, CommandLost, rndA, env);
            Channelled(bus, cfg, l') && AtMostOnce(l') && InStepNow(l')
  {
    hide Ready, RunExchange, P.Next, AtMostOnce, InSync, R.Handle, P.Conclude, TakesEffect, Performed, PR.Answered, P.SecureEstablished;
    CommandLostInStep(bus, cfg, l, rndA, env);
    AR.ExchangeReady(bus, cfg, l, CommandLost, rndA, env);
    AR.SendsAlike(bus, cfg, l, rndA);
    AR.Ledger(bus, cfg, l, CommandLost, rndA, env);
    Parts(bus, cfg, l, CommandLost, rndA, env);
  }

  lemma ReplyLostOn(bus: P.Bus, cfg: R.Config, l: Link, rndA: Cipher.Nonce, env: R.Env)
    requires Channelled(bus, cfg, l) && AtMostOnce(l) && InStepNow(l) && Timely(cfg, l) && Harmless(bus, cfg, l, env)
    requires PR.SendsHead(l.panel) && RunExchange(bus, cfg, l, Outcome.ReplyLost, rndA, env).panel.queue.sequence != 0
    ensures OnChannel(bus, cfg, RunExchange(bus, cfg, l, Outcome.ReplyLost, rndA, env))
  {
    hide Ready, RunExchange, P.Next, AtMostOnce, InSync, R.Handle, P.Conclude, Timely, Processed, Owing, PR.SendsHead, NextNumber, PR.Read, Awaits, Answering,
      PR.PlainChoice;
    SyncNoticed(l.panel, l.reader, env);
    InStepHandled(bus, cfg, l, rndA, env);
    Parts(bus, cfg, l, Outcome.ReplyLost, rndA, env);
    ReplyCode(bus, cfg, l, rndA, env);
    OrdinaryStays(bus, cfg, l, rndA, env);
    AR.ExchangeReady(bus, cfg, l, Outcome.ReplyLost, rndA, env);
    Retransmission.ReplyLost(bus, cfg, l, rndA, env);
    FirstLoss(bus, cfg, l, rndA, env);
    var l' := RunExchange(bus, cfg, l, Outcome.ReplyLost, rndA, env);
    OwingRepeats(bus, l', P.Next(bus, l.panel, rndA).1.value, Answering(bus, cfg, l, env).1);
    RepeatKeepsQueue(bus, cfg, l, Outcome.ReplyLost, rndA, env);
    AnsweredNoKeySet(bus, cfg, l, env);
    assert Awaited(bus, l', P.Next(bus, l.panel, rndA).1.value, Answering(bus, cfg, l, env).1);
  }

  lemma ReplyCode(bus: P.Bus, cfg: R.Config, l: Link, rndA: Cipher.Nonce, env: R.Env)
    requires Channelled(bus, cfg, l) && InSync(l.panel, l.reader) && Receptive(cfg, l)
    ensures var f := P.Next(bus, l.panel, rndA).1;
            f.Some? && R.Handle(cfg, l.reader, f.value, env).1.Ok? && R.Handle(cfg, l.reader, f.value, env).1.value.code == Answering(bus, cfg, l, env).1.code
  {
    hide Channelled, P.Next, InSync, R.Handle, Receptive, PR.Read, Awaits, Answering, NextNumber;
    SyncNoticed(l.panel, l.reader, env);
    InStepHandled(bus, cfg, l, rndA, env);
    var (p1, f) := P.Next(bus, l.panel, rndA);
    ReadCode(bus, p1, R.Handle(cfg, l.reader, f.value, env).1.value);
  }

  // ----- One repeat away -----

  lemma LostAgainOn(bus: P.Bus, cfg: R.Config, l: Link, f: Frame, m: Message, outcome: Outcome, rndA: Cipher.Nonce, env: R.Env)
    requires Channelled(bus, cfg, l) && AtMostOnce(l) && Awaited(bus, l, f, m) && !outcome.Delivered?
    requires RunExchange(bus, cfg, l, outcome, rndA, env).panel.queue.sequence != 0
    ensures OnChannel(bus, cfg, RunExchange(bus, cfg, l, outcome, rndA, env))
  {
    hide Channelled, RunExchange, P.Next, AtMostOnce, Owing;
    StillOwing(bus, cfg, l, f, m, outcome, rndA, env);
    StillChannelled(bus, cfg, l, f, m, outcome, rndA, env);
    var l' := RunExchange(bus, cfg, l, outcome, rndA, env);
    OwingRepeats(bus, l', f, m);
    RepeatKeepsQueue(bus, cfg, l, outcome, rndA, env);
    assert Awaited(bus, l', f, m);
  }

  lemma OwingRepeats(bus: P.Bus, l: Link, f: Frame, m: Message)
    requires Owing(bus, l, f, m)
    ensures l.panel.queue.repeatSequence
  {
  }

  /** A command about to be repeated is still at the head of the queue. */
  lemma RepeatKeepsQueue(bus: P.Bus, cfg: R.Config, l: Link, outcome: Outcome, rndA: Cipher.Nonce, env: R.Env)
    requires Channelled(bus, cfg, l)
    ensures var q := RunExchange(bus, cfg, l, outcome, rndA, env).panel.queue; q.repeatSequence ==> q.outbox == l.panel.queue.outbox
  {
    hide Ready, RunExchange, P.Next, P.Conclude, PR.InExchange, PR.Answered, PR.Settled, Returned, PR.PlainChoice, PR.SendsHead, PR.Owed;
    SecureSends(bus, cfg, l, rndA);
    Parts(bus, cfg, l, outcome, rndA, env);
    AR.OwedOutbox(bus, cfg, l, rndA);
    PR.ConcludeSettles(bus, P.Next(bus, l.panel, rndA).0, Returned(bus, cfg, l, outcome, rndA, env));
  }

  /** A key set that no key is taken from is not acknowledged. */
  lemma AnsweredNoKeySet(bus: P.Bus, cfg: R.Config, l: Link, env: R.Env)
    requires Channelled(bus, cfg, l) && InSync(l.panel, l.reader) && Harmless(bus, cfg, l, env) && PR.SendsHead(l.panel)
    ensures Answering(bus, cfg, l, env).1.code == ACK ==> l.panel.queue.outbox != [] && l.panel.queue.outbox[0].code != KEYSET
  {
    hide Ready, R.Dispatch, PR.PlainChoice, NextMac, PR.Settled, KeyIn, PR.SendsHead;
    AR.SecureChoice(l.panel);
    var m := PR.PlainChoice(l.panel).0;
    if m.code == KEYSET {
      InstallDispatch(cfg, Noticed(l.reader, env).(session := Some(l.reader.session.value.(cmac := NextMac(bus, l.panel)))), m, env);
    }
  }

  lemma HeardAgainOn(bus: P.Bus, cfg: R.Config, l: Link, f: Frame, m: Message, rndA: Cipher.Nonce, env: R.Env)
    requires Channelled(bus, cfg, l) && AtMostOnce(l) && Awaited(bus, l, f, m)
    ensures var l' := RunExchange(bus, cfg, l, Delivered, rndA, env);
            Channelled(bus, cfg, l') && AtMostOnce(l') && InStepNow(l') && !l'.missed
  {
    hide Ready, RunExchange, P.Next, AtMostOnce, Owing, InSync, PR.Read, P.Conclude, PR.InExchange, P.Dispatch, PR.AtDispatch, R.Handle, PR.SendsHead;
    OwingHeard(bus, cfg, l, f, m, rndA, env);
    OwingSends(bus, cfg, l, f, m, rndA);
    var p1 := P.Next(bus, l.panel, rndA).0;
    var answer := Returned(bus, cfg, l, Delivered, rndA, env);
    var l' := RunExchange(bus, cfg, l, Delivered, rndA, env);
    Parts(bus, cfg, l, Delivered, rndA, env);
    AR.HeardNumbered(bus, p1, answer);
    ConcludeTurns(bus, p1, answer);
    PR.AtDispatchChannel(bus, p1, answer.value);
    DispatchTurns(bus, PR.AtDispatch(bus, p1, answer.value), m);
    NotAccepted(bus, cfg, l, rndA, answer.value, m);
    AR.ExchangeReady(bus, cfg, l, Delivered, rndA, env);
    AR.NothingMissed(bus, cfg, l, rndA, env);
  }

  lemma NotAccepted(bus: P.Bus, cfg: R.Config, l: Link, rndA: Cipher.Nonce, f: Frame, m: Message)
    requires Channelled(bus, cfg, l) && (m.code == ACK ==> l.panel.queue.outbox != [] && l.panel.queue.outbox[0].code != KEYSET)
    ensures !KeyAccepted(PR.AtDispatch(bus, P.Next(bus, l.panel, rndA).0, f), m)
  {
    hide Ready, P.Next, P.OpenReply, PR.InExchange, PR.PlainChoice;
    SecureSends(bus, cfg, l, rndA);
  }

  // ----- Between exchanges -----

  lemma QuietAwaited(bus: P.Bus, cfg: R.Config, l: Link, l': Link, f: Frame, m: Message)
    requires Channelled(bus, cfg, l) && Channelled(bus, cfg, l') && AR.Quiet(l, l') && Awaited(bus, l, f, m)
    ensures Awaited(bus, l', f, m)
  {
    hide Ready, P.Next, NextMac, PR.Read, P.OpenReply, PR.PlainChoice, PR.Chosen, P.NextSequence, PR.Settled, RR.Orderly, ValidAddress;
    ChannelledFacts(bus, cfg, l);
    ChannelledFacts(bus, cfg, l');
    RepeatSendsHead(bus, cfg, l);
    RepeatSendsHead(bus, cfg, l');
    SameRepeat(l.panel, l'.panel);
    Recomposed(bus, l.panel, l'.panel, S.NoNonce, S.NoNonce);
    ReadAlike(bus, l.panel, l'.panel, l.reader.cache.reply);
  }

  lemma SameRepeat(d: P.Device, e: P.Device)
    requires PR.Settled(d) && PR.Settled(e) && d.state == P.Secure && e.state == P.Secure && d.queue.repeatSequence && e.queue.repeatSequence
    requires e.queue.sequence == d.queue.sequence && d.queue.outbox <= e.queue.outbox && PR.SendsHead(d) && PR.SendsHead(e)
    ensures PR.PlainChoice(e) == PR.PlainChoice(d) && P.NextSequence(PR.Chosen(e)).sequence == P.NextSequence(PR.Chosen(d)).sequence
  {
    hide P.NextSequence, PR.Chosen, PR.Owed;
    PR.ChosenFacts(d);
    PR.ChosenFacts(e);
  }

  lemma QuietOn(bus: P.Bus, cfg: R.Config, l: Link, op: Op)
    requires OnChannel(bus, cfg, l) && !op.Exchange?
    ensures OnChannel(bus, cfg, Step(bus, cfg, l, op))
  {
    hide AtMostOnce, RR.Orderly, PR.Settled, InSync, RR.SameExchange, Awaited, Step, Grew;
    var l' := Step(bus, cfg, l, op);
    StepUndisturbed(bus, cfg, l, op);
    UndisturbedAtMostOnce(cfg, l, l');
    AR.StepQuiet(bus, cfg, l, op);
    if InStepNow(l) {
      QuietSync(l, l');
    } else {
      var f, m :| Awaited(bus, l, f, m);
      QuietAwaited(bus, cfg, l, l', f, m);
    }
  }

  lemma QuietSync(l: Link, l': Link)
    requires AR.Quiet(l, l') && InSync(l.panel, l.reader)
    ensures InSync(l'.panel, l'.reader)
  {
  }

  // ----- Whole runs -----

  lemma StepOn(bus: P.Bus, cfg: R.Config, l: Link, op: Op)
    requires OnChannel(bus, cfg, l) && KeepsOn(bus, cfg, l, op)
    ensures OnChannel(bus, cfg, Step(bus, cfg, l, op))
    ensures op.Exchange? && op.outcome.Delivered? ==> InStepNow(Step(bus, cfg, l, op))
  {
    hide AtMostOnce, RunExchange, InSync, Awaited, Channelled, Harmless, Timely, Processed, PR.SendsHead, NeverTwiceLost;
    match op {
      case Exchange(outcome, rndA, env) =>
        if InStepNow(l) {
          match outcome {
            case CommandLost => CommandLostOn(bus, cfg, l, rndA, env);
            case ReplyLost => ReplyLostOn(bus, cfg, l, rndA, env);
            case Delivered =>
              DeliveredInStep(bus, cfg, l, rndA, env);
              NoRepeat(RunExchange(bus, cfg, l, Delivered, rndA, env));
          }
        } else {
          var f, m :| Awaited(bus, l, f, m);
          if outcome.Delivered? {
            HeardAgainOn(bus, cfg, l, f, m, rndA, env);
          } else {
            LostAgainOn(bus, cfg, l, f, m, outcome, rndA, env);
          }
        }
      case _ => QuietOn(bus, cfg, l, op);
    }
  }

  lemma NoRepeat(l: Link)
    requires !l.panel.queue.repeatSequence
    ensures !Processed(l)
  {
  }

  ghost predicate AllKeepOn(bus: P.Bus, cfg: R.Config, l: Link, ops: seq<Op>) {
    hide Step, KeepsOn;
    ops == [] || (AllKeepOn(bus, cfg, l, ops[..|ops| - 1]) && KeepsOn(bus, cfg, RunOps(bus, cfg, l, ops[..|ops| - 1]), ops[|ops| - 1]))
  }

  /** Over any run, with any commands queued meanwhile and any losses but that of a reply that will not be repeated, and as
      long as every command handled is harmless, the two ends are in step or one repeat away from it; and in step after every exchange that gets through. */
  lemma {:induction false} ChannelRun(bus: P.Bus, cfg: R.Config, l: Link, ops: seq<Op>)
    requires OnChannel(bus, cfg, l) && AllKeepOn(bus, cfg, l, ops)
    ensures OnChannel(bus, cfg, RunOps(bus, cfg, l, ops))
    ensures ops != [] && ops[|ops| - 1].Exchange? && ops[|ops| - 1].outcome.Delivered? ==> InStepNow(RunOps(bus, cfg, l, ops))
    decreases |ops|
  {
    hide OnChannel, KeepsOn, Step, InStepNow;
    if ops != [] {
      var n := |ops| - 1;
      ChannelRun(bus, cfg, l, ops[..n]);
      StepOn(bus, cfg, RunOps(bus, cfg, l, ops[..n]), ops[n]);
    }
  }

  // ----- What ends the channel -----

  /** The reply to a poll, which is not repeated, is lost: the reader's reply chain has moved and the panel's has not, so the
      two are in step exactly when the chain came out as it was. */
  lemma UnrepeatedReplyLost(bus: P.Bus, cfg: R.Config, l: Link, rndA: Cipher.Nonce, env: R.Env)
    requires Channelled(bus, cfg, l) && AtMostOnce(l) && InStepNow(l) && Timely(cfg, l) && Harmless(bus, cfg, l, env)
    requires !PR.SendsHead(l.panel) && RunExchange(bus, cfg, l, Outcome.ReplyLost, rndA, env).panel.queue.sequence != 0
    ensures var l' := RunExchange(bus, cfg, l, Outcome.ReplyLost, rndA, env);
            && Channelled(bus, cfg, l') && !Processed(l') && !l'.missed && R.Established(l'.reader)
            && l'.panel.channel.session.Some? && l'.panel.channel.session.value.rmac == l.panel.channel.session.value.rmac
            && (InSync(l'.panel, l'.reader) <==> l'.reader.session.value.rmac == l.reader.session.value.rmac)
  {
    hide Ready, RunExchange, P.Next, AtMostOnce, R.Handle, P.Conclude, Timely, PR.SendsHead, NextNumber, PR.Read, Answering, PR.PlainChoice,
      PR.InExchange, RR.Orderly, ValidAddress, PR.Settled, NextMac, P.OpenReply, Hears, PR.Answered, TakesEffect, Performed;
    SyncNoticed(l.panel, l.reader, env);
    ChannelledFacts(bus, cfg, l);
    InStepHandled(bus, cfg, l, rndA, env);
    Parts(bus, cfg, l, Outcome.ReplyLost, rndA, env);
    AR.Ledger(bus, cfg, l, Outcome.ReplyLost, rndA, env);
    ReplyCode(bus, cfg, l, rndA, env);
    OrdinaryStays(bus, cfg, l, rndA, env);
    AR.ExchangeReady(bus, cfg, l, Outcome.ReplyLost, rndA, env);
    SecureSends(bus, cfg, l, rndA);
    SealedSession(bus, l.panel, rndA);
    var p1 := P.Next(bus, l.panel, rndA).0;
    AR.NotHeard(bus, p1);
    ConcludeTurns(bus, p1, None);
    Unrepeated(bus, p1);
  }

  lemma Unrepeated(bus: P.Bus, p1: P.Device)
    requires PR.InExchange(p1) && p1.queue.inflight.None?
    ensures !P.Conclude(bus, p1, None).0.queue.repeatSequence
  {
  }

  /** Out of step, the next command that gets through is refused, the reader's session is gone and the panel starts over:
      barring a forged tag, losing one such reply ends the channel. */
  lemma OutOfStepEnds(bus: P.Bus, cfg: R.Config, l: Link, rndA: Cipher.Nonce, env: R.Env)
    requires Channelled(bus, cfg, l) && !Processed(l) && Timely(cfg, l) && !InSync(l.panel, l.reader) && Unforged(bus, cfg, l, rndA)
    ensures var l' := RunExchange(bus, cfg, l, Delivered, rndA, env);
            && l'.panel.queue.sequence == 0 && l'.panel.state == P.Offline && l'.panel.channel.session.None? && !R.Established(l'.reader)
            && l'.answered == l.answered && l'.effects == l.effects
  {
    hide Ready, RunExchange, P.Next, R.Handle, Timely, PR.PlainChoice, PR.InExchange, RR.Orderly, ValidAddress, PR.Settled, InSync, PR.Read, P.Reply,
      R.Open, TakesEffect, Performed, PR.SendsHead, P.Timeout, InTurn, Sequence, CheckOK, R.Replays;
    ChannelledFacts(bus, cfg, l);
    SecureSends(bus, cfg, l, rndA);
    Afresh(bus, cfg, l, rndA, env);
    Parts(bus, cfg, l, Delivered, rndA, env);
    AR.Ledger(bus, cfg, l, Delivered, rndA, env);
    var (p1, fo) := P.Next(bus, l.panel, rndA);
    SealedRefused(cfg, l.reader, fo.value, env);
    var reply := R.Handle(cfg, l.reader, fo.value, env).1.value;
    AnswerNumbered(cfg, l.reader, fo.value, env);
    Unreadable(bus, p1, reply);
    StartsOver(bus, p1, reply);
    PR.ReplyStartsOver(bus, p1, reply);
  }

  lemma StartsOver(bus: P.Bus, p: P.Device, f: Frame)
    requires f.isReply && f.address == p.address && !PR.Read(bus, p, f).Answer?
    ensures PR.Read(bus, p, f).StartsOver?
  {
    hide Sequence, P.OpenReply;
  }
}
