/** Two key installs outstanding at once: the acknowledgement of the first is taken for the second, and the queue never
    moves again. internal/bus/keyset.go and internal/bus/outbox.go. */
module TwoInstalls {
  import opened Octets
  import opened Frames
  import opened Messages
  import opened Links
  import opened LinkRuns
  import opened Lockstep
  import opened Agreement
  import opened Retransmission
  import opened KeyInstalls
  import AR = AgreementRuns
  import Cipher
  import L = Limits
  import P = Panel
  import PR = PanelRuns
  import R = Reader
  import RR = ReaderRuns

  // ----- A queue that never moves -----

  /** A key set is at the head of the queue, and the panel has no channel and will not try for one. */
  predicate Blocked(bus: P.Bus, p: P.Device) {
    && Plainly(p) && p.channel.session.None? && p.channel.pending.None? && (!bus.secureEnabled || p.channel.secureDeclined)
    && p.queue.inflight.None? && p.queue.outbox != [] && p.queue.outbox[0].code == KEYSET
  }

  lemma BlockedNext(bus: P.Bus, p: P.Device, rndA: Cipher.Nonce)
    requires Blocked(bus, p)
    ensures var p1 := P.Next(bus, p, rndA).0; Blocked(bus, p1) && p1.queue.outbox == p.queue.outbox
  {
    hide Encode;
  }

  lemma BlockedDispatch(bus: P.Bus, p: P.Device, m: Message)
    requires Blocked(bus, p) && p.queue.released.None? && p.queue.acknowledged == POLL
    ensures var e := P.Dispatch(bus, p, m).0; Blocked(bus, e) && e.queue.outbox == p.queue.outbox
  {
    hide PR.Status.Report, ParseCapabilities, ParseContacts, ParseLocalStatus, ClaimsSecureChannel, WholeCardRead, WholeKeypadEntry, P.BaseKey;
  }

  lemma BlockedReply(bus: P.Bus, p: P.Device, f: Frame)
    requires Blocked(bus, p)
    ensures var e := P.Reply(bus, p, f).0; Blocked(bus, e) && e.queue.outbox == p.queue.outbox
  {
    hide P.Dispatch, Sequence;
    BlockedDispatch(bus, p.(queue := P.Delivered(p.queue.(misses := 0))), Message(f.code, f.data));
  }

  lemma BlockedConclude(bus: P.Bus, p: P.Device, answer: Option<Frame>)
    requires Blocked(bus, p)
    ensures var e := P.Conclude(bus, p, answer).0; Blocked(bus, e) && e.queue.outbox == p.queue.outbox
  {
    hide P.Reply;
    if answer.Some? {
      BlockedReply(bus, p, answer.value);
    }
  }

  lemma BlockedExchange(bus: P.Bus, cfg: R.Config, l: Link, outcome: Outcome, rndA: Cipher.Nonce, env: R.Env)
    requires Blocked(bus, l.panel)
    ensures var l' := RunExchange(bus, cfg, l, outcome, rndA, env);
            && Blocked(bus, l'.panel) && l'.panel.queue.outbox == l.panel.queue.outbox
            && l'.answered == l.answered && l'.effects == l.effects
  {
    hide P.Next, P.Conclude, R.Handle, PR.Answered, TakesEffect, Performed;
    BlockedNext(bus, l.panel, rndA);
    var (p1, f) := P.Next(bus, l.panel, rndA);
    BlockedConclude(bus, p1, None);
    if f.Some? {
      BlockedConclude(bus, p1, Heard(outcome, R.Handle(cfg, l.reader, f.value, env).1));
    }
  }

  /** Whatever is submitted and however the line and the reader behave, no command is ever answered or carried out again. */
  lemma {:induction false} BlockedForever(bus: P.Bus, cfg: R.Config, l: Link, ops: seq<Op>)
    requires Blocked(bus, l.panel)
    ensures var l' := RunOps(bus, cfg, l, ops);
            && Blocked(bus, l'.panel) && l.panel.queue.outbox <= l'.panel.queue.outbox
            && l'.answered == l.answered && l'.effects == l.effects
    decreases |ops|
  {
    hide Blocked, RunExchange;
    if ops != [] {
      var l0, op := RunOps(bus, cfg, l, ops[..|ops| - 1]), ops[|ops| - 1];
      BlockedForever(bus, cfg, l, ops[..|ops| - 1]);
      match op {
        case Exchange(outcome, rndA, env) => BlockedExchange(bus, cfg, l0, outcome, rndA, env);
        case _ => BlockedQuiet(bus, cfg, l0, op);
      }
    }
  }

  lemma BlockedQuiet(bus: P.Bus, cfg: R.Config, l: Link, op: Op)
    requires Blocked(bus, l.panel) && !op.Exchange?
    ensures var l' := Step(bus, cfg, l, op);
            && Blocked(bus, l'.panel) && l.panel.queue.outbox <= l'.panel.queue.outbox
            && l'.answered == l.answered && l'.effects == l.effects
  {
    hide P.Fits, R.Happen;
  }

  // ----- How two installs get there -----

  /** The panel has announced b and goes back to identifying a reader that holds a; the key set with b is still queued. */
  ghost predicate Mistaken(bus: P.Bus, cfg: R.Config, l: Link, a: Cipher.Block, b: Cipher.Block) {
    && Ready(bus, cfg, l) && SameAddress(l) && AtMostOnce(l) && bus.suite == cfg.suite && bus.suite.Lawful() && cfg.secure
    && l.panel.channel.installedKey == Some(b) && l.reader.key == a && a != b
    && l.panel.queue.outbox == [KeySetCommand(b)] && !l.panel.queue.repeatSequence && !l.missed
  }

  /** From a channel in step with nothing queued, two installs with different keys and one exchange: the panel announces
      the second key while the reader holds the first. */
  lemma FirstTakenForSecond(bus: P.Bus, cfg: R.Config, l: Link, rndA: Cipher.Nonce, env: R.Env, a: Cipher.Block, b: Cipher.Block)
    requires Idle(bus, cfg, l) && a != b
    ensures var l2 := Step(bus, cfg, Step(bus, cfg, l, Install(a)), Install(b));
            var l3 := RunExchange(bus, cfg, l2, Delivered, rndA, env);
            && l2.accepted == l.accepted + [KeySetCommand(a), KeySetCommand(b)]
            && Raised(bus, cfg, l2, Delivered, rndA, env) == P.KeyInstalled
            && l3.panel.channel.installedKey == Some(b) && l3.reader.key == a
            && Mistaken(bus, cfg, l3, a, b) && l3.panel.state == P.Identifying && l3.panel.channel.session.None? && l3.panel.channel.pending.None?
            && l3.reader.session.None?
  {
    hide RunExchange, Raised, InSync, KeySetCommand, AtMostOnce, Receptive, KeySetNext, Ready, Step;
    TwoQueued(bus, cfg, l, a, b);
    var l2 := Step(bus, cfg, Step(bus, cfg, l, Install(a)), Install(b));
    NothingOwed(bus, cfg, l2);
    KeyInstallAnnounced(bus, cfg, l2, rndA, env, a);
    AcknowledgedReady(bus, cfg, l2, rndA, env, a);
  }

  lemma TwoQueued(bus: P.Bus, cfg: R.Config, l: Link, a: Cipher.Block, b: Cipher.Block)
    requires Idle(bus, cfg, l)
    ensures var l2 := Step(bus, cfg, Step(bus, cfg, l, Install(a)), Install(b));
            && Channelled(bus, cfg, l2) && AtMostOnce(l2) && InSync(l2.panel, l2.reader) && (cfg.strict ==> !l2.missed)
            && l2.accepted == l.accepted + [KeySetCommand(a), KeySetCommand(b)]
            && l2.panel.queue == l.panel.queue.(outbox := [KeySetCommand(a), KeySetCommand(b)]) && KeySetNext(l2.panel, a)
            && l2.panel.channel == l.panel.channel.(pendingKey := Some(b))
  {
    hide AtMostOnce, Ready, InSync, KeySetCommand, Step, KeySetNext;
    ChannelledFacts(bus, cfg, l);
    StaysInStep(bus, cfg, l, Install(a));
    InstallStep(bus, cfg, l, a);
    var l1 := Step(bus, cfg, l, Install(a));
    StaysInStep(bus, cfg, l1, Install(b));
    InstallStep(bus, cfg, l1, b);
    HeadIsSent(Step(bus, cfg, l1, Install(b)).panel, a);
  }

  lemma InstallStep(bus: P.Bus, cfg: R.Config, l: Link, key: Cipher.Block)
    requires P.SecureEstablished(l.panel)
    ensures var l' := Step(bus, cfg, l, Install(key));
            && l'.accepted == l.accepted + [KeySetCommand(key)] && P.SecureEstablished(l'.panel)
            && l'.panel == l.panel.(queue := l.panel.queue.(outbox := l.panel.queue.outbox + [KeySetCommand(key)]),
                                    channel := l.panel.channel.(pendingKey := Some(key)))
  {
  }

  lemma HeadIsSent(p: P.Device, key: Cipher.Block)
    requires p.state == P.Secure && P.SecureEstablished(p) && !p.queue.deferCommands
    requires p.queue.outbox != [] && p.queue.outbox[0] == KeySetCommand(key)
    ensures KeySetNext(p, key)
  {
    hide KeyIn;
    KeySetRoundTrip(key);
  }

  /** The link once a key set has been acknowledged. */
  lemma AcknowledgedReady(bus: P.Bus, cfg: R.Config, l: Link, rndA: Cipher.Nonce, env: R.Env, key: Cipher.Block)
    requires Channelled(bus, cfg, l) && AtMostOnce(l) && InSync(l.panel, l.reader) && Receptive(cfg, l) && KeySetNext(l.panel, key)
    ensures var l' := RunExchange(bus, cfg, l, Delivered, rndA, env);
            && Ready(bus, cfg, l') && AtMostOnce(l') && SameAddress(l') && !l'.missed && !l'.panel.queue.repeatSequence
            && l.panel.queue.outbox != [] && l'.panel.queue.outbox == l.panel.queue.outbox[1..]
  {
    hide Ready, P.Next, P.Conclude, R.Handle, R.Dispatch, PR.PlainChoice, PR.InExchange, NextMac, PR.Read, P.OpenReply, RunExchange, RR.Orderly,
      TakesEffect, AtMostOnce, Awaits, PR.Settled, NextNumber, Answering, PR.SendsHead, ValidAddress, InSync, P.Dispatch, PR.AtDispatch, Timely, PR.Answered;
    SyncNoticed(l.panel, l.reader, env);
    ChannelledFacts(bus, cfg, l);
    InStepHandled(bus, cfg, l, rndA, env);
    KeySetHandled(bus, cfg, l, rndA, env, key);
    SecureSends(bus, cfg, l, rndA);
    AR.NothingMissed(bus, cfg, l, rndA, env);
    Parts(bus, cfg, l, Delivered, rndA, env);
    var p1 := P.Next(bus, l.panel, rndA).0;
    var answer := Returned(bus, cfg, l, Delivered, rndA, env);
    ReadCode(bus, p1, answer.value);
    AR.HeardNumbered(bus, p1, answer);
    ConcludeAddress(bus, p1, answer);
    AR.ExchangeReady(bus, cfg, l, Delivered, rndA, env);
    OrdinaryStays(bus, cfg, l, rndA, env);
    AR.SecureChoice(l.panel);
    AnsweredReleases(bus, cfg, l, rndA, answer);
  }

  /** The panel when the answer to a command that is not the application's arrives. */
  function Hearing(p: P.Device): P.Device {
    p.(queue := P.Delivered(P.NextSequence(PR.Chosen(p)).(misses := 0)))
  }

  /** A poll or an identity request in the clear that gets through, and its answer. */
  lemma PlainHeard(bus: P.Bus, cfg: R.Config, l: Link, rndA: Cipher.Nonce, env: R.Env)
    requires Ready(bus, cfg, l) && SameAddress(l) && AtMostOnce(l) && !l.panel.queue.repeatSequence && !l.missed
    requires Plainly(l.panel) && l.panel.channel.session.None? && l.reader.session.None? && !PR.SendsHead(l.panel)
    requires var m := R.Dispatch(cfg, Noticed(l.reader, env), PR.PlainChoice(l.panel).0, false, env).1;
             m.code != COM && P.Dispatch(bus, Hearing(l.panel), m).1.Ok?
    ensures var m := R.Dispatch(cfg, Noticed(l.reader, env), PR.PlainChoice(l.panel).0, false, env).1;
            var l' := RunExchange(bus, cfg, l, Delivered, rndA, env);
            && l'.panel == P.Dispatch(bus, Hearing(l.panel), m).0
            && l'.reader.key == l.reader.key && l'.reader.session.None? && SameAddress(l')
            && Ready(bus, cfg, l') && AtMostOnce(l') && !l'.missed && !l'.panel.queue.repeatSequence && l'.panel.queue.inflight.None?
            && l'.panel.queue.outbox == l.panel.queue.outbox
  {
    hide RR.Orderly, PR.Settled, RunExchange, P.Next, R.Handle, R.Dispatch, TakesEffect, PR.InExchange, PR.Chosen, P.NextSequence, CheckOK, Sequence,
      PR.PlainChoice, PR.Read, AtMostOnce, L.WillCarryOut, Lag, P.Conclude, Ready, NextNumber, P.Dispatch, PR.SendsHead, P.Delivered, PR.Answered;
    TakenAfresh(bus, cfg, l);
    L.PlainDelivered(bus, cfg, l, rndA, env);
    L.PlainEmission(bus, l.panel, rndA);
    Parts(bus, cfg, l, Delivered, rndA, env);
    var p1 := P.Next(bus, l.panel, rndA).0;
    var answer := Returned(bus, cfg, l, Delivered, rndA, env);
    var m := R.Dispatch(cfg, Noticed(l.reader, env), PR.PlainChoice(l.panel).0, false, env).1;
    L.HeardPlain(bus, p1, answer.value, m);
    AR.HeardNumbered(bus, p1, answer);
    AR.NothingMissed(bus, cfg, l, rndA, env);
    AR.ExchangeReady(bus, cfg, l, Delivered, rndA, env);
    AR.OwedOutbox(bus, cfg, l, rndA);
    AR.SettledAfter(bus, p1, answer);
  }

  /** A capability report, dispatched. */
  lemma ReportDispatched(bus: P.Bus, d: P.Device, report: seq<Capability>)
    ensures var (e, event) := P.Dispatch(bus, d, Message(PDCAP, AppendCapabilities(report)));
            e == P.AfterCapabilities(bus, d.(caps := report)) && event.Ok?
  {
    hide P.AfterCapabilities, ParseCapabilities, AppendCapabilities;
    CapabilityRoundTrip(report);
  }

  /** The reader reports its capabilities: the panel gives the channel up, or tries the key it announced. */
  lemma AskedAgain(bus: P.Bus, cfg: R.Config, l: Link, rndA: Cipher.Nonce, env: R.Env, a: Cipher.Block, b: Cipher.Block)
    requires Mistaken(bus, cfg, l, a, b) && l.panel.state == P.Identifying
    requires l.panel.channel.session.None? && l.panel.channel.pending.None? && l.reader.session.None?
    ensures var l' := RunExchange(bus, cfg, l, Delivered, rndA, env);
            && Mistaken(bus, cfg, l', a, b)
            && (Blocked(bus, l'.panel) ||
                (l'.panel.state == P.SecureHandshake && HandshakeEnds(bus, cfg.suite, l'.panel, l'.reader) && l'.panel.channel.pending.None?))
  {
    hide RunExchange, AtMostOnce, Ready, P.Dispatch, P.Delivered, PR.Chosen, P.NextSequence, ClaimsSecureChannel, AppendCapabilities;
    var report := l.reader.capabilities;
    assert PR.PlainChoice(l.panel).0 == Message(CAP, [0]);
    assert R.Dispatch(cfg, Noticed(l.reader, env), Message(CAP, [0]), false, env).1 == Message(PDCAP, AppendCapabilities(report));
    ReportDispatched(bus, Hearing(l.panel), report);
    PlainHeard(bus, cfg, l, rndA, env);
  }

  /** The challenge on that key fails, and the queue never moves again. */
  lemma ChallengedInVain(bus: P.Bus, cfg: R.Config, l: Link, rndA: Cipher.Nonce, env: R.Env, a: Cipher.Block, b: Cipher.Block)
    requires Mistaken(bus, cfg, l, a, b) && TameHandler(env) && Unmistaken(bus, l, rndA, env)
    requires l.panel.state == P.SecureHandshake && HandshakeEnds(bus, cfg.suite, l.panel, l.reader) && l.panel.channel.pending.None?
    ensures var l' := RunExchange(bus, cfg, l, Delivered, rndA, env);
            Blocked(bus, l'.panel) && l'.panel.queue.outbox == l.panel.queue.outbox
  {
    hide Ready, RunExchange, Raised, AtMostOnce, HandshakeEnds, Fair, TameHandler, Timely, R.Established, Unmistaken, P.Next, PR.InExchange, P.Conclude,
      Processed;
    assert P.BaseKey(bus, l.panel) == Some(b);
    TimelyNow(bus, cfg, l);
    AR.HandshakeHeard(bus, cfg, l, rndA, env);
    AR.HandshakeFair(bus, cfg, l, rndA, env);
    ChallengeExchange(bus, cfg, l, Delivered, rndA, env);
    AR.HandshakeQueue(bus, cfg, l, rndA, env);
  }

  lemma TimelyNow(bus: P.Bus, cfg: R.Config, l: Link)
    requires Ready(bus, cfg, l) && SameAddress(l) && !l.panel.queue.repeatSequence && !l.missed
    ensures Timely(cfg, l) && !Processed(l)
  {
    hide Ready, Timely;
    TimelyExactly(bus, cfg, l);
  }

  /** Two more exchanges that get through after the mistaken announcement, and the key set with the second key is withheld for
      good, with everything behind it. */
  lemma TwoInstallsBlock(
    bus: P.Bus, cfg: R.Config, l: Link, rndA: Cipher.Nonce, env: R.Env, a: Cipher.Block, b: Cipher.Block, ops: seq<Op>)
    requires Idle(bus, cfg, l) && TameHandler(env) && a != b
    requires var l2 := Step(bus, cfg, Step(bus, cfg, l, Install(a)), Install(b));
             var l4 := RunExchange(bus, cfg, RunExchange(bus, cfg, l2, Delivered, rndA, env), Delivered, rndA, env);
             Unmistaken(bus, l4, rndA, env)
    ensures var l2 := Step(bus, cfg, Step(bus, cfg, l, Install(a)), Install(b));
            var l4 := RunExchange(bus, cfg, RunExchange(bus, cfg, l2, Delivered, rndA, env), Delivered, rndA, env);
            var l5 := RunExchange(bus, cfg, l4, Delivered, rndA, env);
            var l' := RunOps(bus, cfg, l5, ops);
            && l'.answered == l5.answered && l'.effects == l5.effects
            && l'.panel.queue.outbox != [] && l'.panel.queue.outbox[0] == KeySetCommand(b)
  {
    hide RunExchange, Idle, TameHandler, Unmistaken, Mistaken, Blocked, HandshakeEnds, KeySetCommand, Step, RunOps, Raised;
    var l2 := Step(bus, cfg, Step(bus, cfg, l, Install(a)), Install(b));
    FirstTakenForSecond(bus, cfg, l, rndA, env, a, b);
    var l3 := RunExchange(bus, cfg, l2, Delivered, rndA, env);
    AskedAgain(bus, cfg, l3, rndA, env, a, b);
    var l4 := RunExchange(bus, cfg, l3, Delivered, rndA, env);
    MistakenQueue(bus, cfg, l4, a, b);
    if Blocked(bus, l4.panel) {
      BlockedExchange(bus, cfg, l4, Delivered, rndA, env);
    } else {
      ChallengedInVain(bus, cfg, l4, rndA, env, a, b);
    }
    BlockedForever(bus, cfg, RunExchange(bus, cfg, l4, Delivered, rndA, env), ops);
  }

  lemma MistakenQueue(bus: P.Bus, cfg: R.Config, l: Link, a: Cipher.Block, b: Cipher.Block)
    requires Mistaken(bus, cfg, l, a, b)
    ensures l.panel.queue.outbox == [KeySetCommand(b)]
  {
  }

  lemma TakenAfresh(bus: P.Bus, cfg: R.Config, l: Link)
    requires Ready(bus, cfg, l) && SameAddress(l) && !l.panel.queue.repeatSequence && !l.missed && l.reader.session.None?
    ensures L.WillCarryOut(cfg, l.reader, NextNumber(l)) && Sound(cfg, l) && Patient(cfg) && l.panel.address < BROADCAST
  {
    hide RR.Orderly, PR.Settled, Lag, NextNumber;
    TimelyExactly(bus, cfg, l);
    NoStaleReplay(cfg, l);
  }
}
