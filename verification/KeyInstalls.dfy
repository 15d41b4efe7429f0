/** Key installs over a secure channel: when the panel announces one, and how it comes to forget one. */
module KeyInstalls {
  import opened Octets
  import opened Frames
  import opened Messages
  import opened Links
  import opened LinkRuns
  import opened Lockstep
  import opened Agreement
  import opened Retransmission
  import AR = AgreementRuns
  import CR = ChannelRuns
  import Cipher
  import P = Panel
  import PR = PanelRuns
  import R = Reader
  import RR = ReaderRuns

  // ----- A key install that gets through -----

  /** A key set with a base key is next. */
  predicate KeySetNext(p: P.Device, key: Cipher.Block) {
    hide KeyIn;
    PR.SendsHead(p) && p.queue.outbox[0].code == KEYSET && KeyIn(p.queue.outbox[0]) == Some(key)
  }

  /** What the reader holds once it has answered a key set in step. */
  lemma KeySetHandled(bus: P.Bus, cfg: R.Config, l: Link, rndA: Cipher.Nonce, env: R.Env, key: Cipher.Block)
    requires Channelled(bus, cfg, l) && InSync(l.panel, l.reader) && Receptive(cfg, l) && KeySetNext(l.panel, key)
    ensures Answering(bus, cfg, l, env).1 == Ack()
    ensures var f := P.Next(bus, l.panel, rndA).1;
            f.Some? && R.Handle(cfg, l.reader, f.value, env).0.key == key && R.Handle(cfg, l.reader, f.value, env).0.session.None?
  {
    hide Ready, P.Next, R.Handle, R.Dispatch, R.EncodeReply, R.ReplyBlock, PR.PlainChoice, PR.Chosen, P.NextSequence, NextMac, RR.Admitted, InSync,
      RR.Orderly, SameAddress, ValidAddress, CheckOK, Sequence, SchemeOf, RR.AfterDispatch, PR.Settled, Processed, TakesEffect, PR.Consistent, Timely,
      PR.InExchange, PR.SendsHead, KeyIn;
    ChannelledFacts(bus, cfg, l);
    Afresh(bus, cfg, l, rndA, env);
    SyncNoticed(l.panel, l.reader, env);
    CommandAdmitted(bus, cfg, l.panel, l.reader, rndA);
    CommandAdmitted(bus, cfg, l.panel, Noticed(l.reader, env), rndA);
    SecureSends(bus, cfg, l, rndA);
    SealedAdmitted(cfg, l.reader, P.Next(bus, l.panel, rndA).1.value, env);
    AR.SecureChoice(l.panel);
    InstallDispatch(cfg, Noticed(l.reader, env).(session := Some(l.reader.session.value.(cmac := NextMac(bus, l.panel)))), l.panel.queue.outbox[0], env);
  }

  /** A key set that gets through on a channel in step is taken by the reader. An install is announced exactly when the
      panel awaits one, and then it is the key awaited that the panel holds; so the two ends agree exactly when that is the
      key handed over. With none awaited the panel goes on with the key it had. */
  lemma KeyInstallAnnounced(bus: P.Bus, cfg: R.Config, l: Link, rndA: Cipher.Nonce, env: R.Env, key: Cipher.Block)
    requires Channelled(bus, cfg, l) && InSync(l.panel, l.reader) && Receptive(cfg, l) && KeySetNext(l.panel, key)
    ensures var l' := RunExchange(bus, cfg, l, Delivered, rndA, env);
            var awaited := l.panel.channel.pendingKey;
            && l'.reader.key == key && l'.reader.session.None?
            && (Raised(bus, cfg, l, Delivered, rndA, env) == P.KeyInstalled <==> awaited.Some?)
            && (KeyAgreed(l'.panel, l'.reader) <==> awaited == Some(key))
            && (if awaited.Some? then
                  l'.panel.state == P.Identifying && l'.panel.channel == P.DropSession(l.panel.channel.(installedKey := awaited, pendingKey := None))
                else l'.panel.channel.installedKey == l.panel.channel.installedKey && l'.panel.state == P.Secure)
  {
    hide Channelled, P.Next, P.Conclude, R.Handle, PR.PlainChoice, PR.InExchange, NextMac, PR.Read, P.OpenReply, RunExchange, TakesEffect, Awaits,
      NextNumber, Answering, PR.SendsHead, InSync, P.Dispatch, Processed, KeySetNext, PR.AtDispatch, Timely;
    SyncNoticed(l.panel, l.reader, env);
    InStepHandled(bus, cfg, l, rndA, env);
    KeySetHandled(bus, cfg, l, rndA, env, key);
    Parts(bus, cfg, l, Delivered, rndA, env);
    var p1 := P.Next(bus, l.panel, rndA).0;
    var answer := Returned(bus, cfg, l, Delivered, rndA, env);
    KeySetAcknowledged(bus, cfg, l, rndA, answer.value, key);
    AR.HeardNumbered(bus, p1, answer);
    ConcludeTurns(bus, p1, answer);
    DispatchTurns(bus, PR.AtDispatch(bus, p1, answer.value), Ack());
    HeardEvent(bus, p1, answer);
  }

  /** The acknowledgement of a key set is awaited exactly when the key is. */
  lemma KeySetAcknowledged(bus: P.Bus, cfg: R.Config, l: Link, rndA: Cipher.Nonce, f: Frame, key: Cipher.Block)
    requires Channelled(bus, cfg, l) && KeySetNext(l.panel, key)
    ensures var p1 := P.Next(bus, l.panel, rndA).0;
            var d := PR.AtDispatch(bus, p1, f);
            && PR.InExchange(p1) && (KeyAccepted(d, Ack()) <==> l.panel.channel.pendingKey.Some?)
            && d.state == P.Secure && d.channel == l.panel.channel.(session := d.channel.session) && d.channel.session.Some?
  {
    hide Ready, P.Next, P.OpenReply, PR.InExchange, PR.PlainChoice, PR.SendsHead, KeyIn;
    SecureSends(bus, cfg, l, rndA);
    PR.AtDispatchChannel(bus, P.Next(bus, l.panel, rndA).0, f);
  }

  // ----- A key install the panel forgets -----

  /** In step, a command the reader refuses leaves the channel as it was, and any install outstanding forgotten. */
  lemma RefusedInStep(bus: P.Bus, cfg: R.Config, l: Link, rndA: Cipher.Nonce, env: R.Env)
    requires Channelled(bus, cfg, l) && AtMostOnce(l) && InSync(l.panel, l.reader) && Receptive(cfg, l) && PR.SendsHead(l.panel)
    requires var m := Answering(bus, cfg, l, env).1; m.code == NAK && m.data != []
    ensures var l' := RunExchange(bus, cfg, l, Delivered, rndA, env);
            && Channelled(bus, cfg, l') && AtMostOnce(l') && InSync(l'.panel, l'.reader) && !l'.panel.queue.repeatSequence && !l'.missed
            && l'.panel.queue.outbox == l.panel.queue.outbox[1..] && !l'.panel.queue.deferCommands
            && l'.panel.channel.pendingKey.None? && l'.panel.channel.installedKey == l.panel.channel.installedKey
            && Raised(bus, cfg, l, Delivered, rndA, env) != P.KeyInstalled
  {
    hide Ready, P.Next, P.Conclude, R.Handle, R.Dispatch, PR.PlainChoice, PR.InExchange, NextMac, PR.Read, P.OpenReply, RunExchange, RR.Orderly,
      TakesEffect, AtMostOnce, Awaits, PR.Settled, NextNumber, Answering, PR.SendsHead, ValidAddress, InSync, P.Dispatch, PR.AtDispatch, Timely, PR.Answered;
    SyncNoticed(l.panel, l.reader, env);
    ChannelledFacts(bus, cfg, l);
    InStepHandled(bus, cfg, l, rndA, env);
    RefusalAdopts(bus, cfg, l, env);
    SecureSends(bus, cfg, l, rndA);
    AR.NothingMissed(bus, cfg, l, rndA, env);
    Parts(bus, cfg, l, Delivered, rndA, env);
    var p1 := P.Next(bus, l.panel, rndA).0;
    var answer := Returned(bus, cfg, l, Delivered, rndA, env);
    var m := Answering(bus, cfg, l, env).1;
    ReadCode(bus, p1, answer.value);
    AR.HeardNumbered(bus, p1, answer);
    ConcludeTurns(bus, p1, answer);
    HeardEvent(bus, p1, answer);
    PR.AtDispatchChannel(bus, p1, answer.value);
    RefusalDispatched(bus, PR.AtDispatch(bus, p1, answer.value), m);
    HeardInStep(bus, p1, RunExchange(bus, cfg, l, Delivered, rndA, env).reader, m);
    AR.ExchangeReady(bus, cfg, l, Delivered, rndA, env);
    OrdinaryStays(bus, cfg, l, rndA, env);
    AnsweredReleases(bus, cfg, l, rndA, answer);
  }

  lemma RefusalAdopts(bus: P.Bus, cfg: R.Config, l: Link, env: R.Env)
    requires Channelled(bus, cfg, l) && InSync(l.panel, l.reader) && Answering(bus, cfg, l, env).1.code == NAK
    ensures Answering(bus, cfg, l, env).0.adoptingKey.None?
  {
    hide Ready, R.Dispatch, PR.PlainChoice, NextMac, PR.Settled, RR.AllReportable, RR.Coalesced;
    ChannelledFacts(bus, cfg, l);
    RR.DispatchAdopts(cfg, Noticed(l.reader, env).(session := Some(l.reader.session.value.(cmac := NextMac(bus, l.panel)))),
                      PR.PlainChoice(l.panel).0, true, env);
  }

  lemma RefusalDispatched(bus: P.Bus, d: P.Device, m: Message)
    requires m.code == NAK && m.data != []
    ensures P.Dispatch(bus, d, m) == (d.(channel := d.channel.(pendingKey := None)), Ok(P.Refused))
  {
  }

  /** An answered command leaves the queue. */
  lemma AnsweredReleases(bus: P.Bus, cfg: R.Config, l: Link, rndA: Cipher.Nonce, answer: Option<Frame>)
    requires Channelled(bus, cfg, l) && PR.SendsHead(l.panel)
    requires answer.Some? && PR.Read(bus, P.Next(bus, l.panel, rndA).0, answer.value).Answer?
    requires var code := PR.Read(bus, P.Next(bus, l.panel, rndA).0, answer.value).message.code; code != BUSY && code != COM
    ensures var q := P.Conclude(bus, P.Next(bus, l.panel, rndA).0, answer).0.queue; q.outbox == l.panel.queue.outbox[1..] && !q.deferCommands
  {
    hide P.Next, PR.Read, P.Conclude, PR.InExchange, RR.Orderly, PR.SendsHead, PR.Settled, PR.QueueAfterDispatch, P.Timeout, P.Delivered;
    ChannelledFacts(bus, cfg, l);
    SentHead(bus, l.panel, rndA);
    SecureSends(bus, cfg, l, rndA);
    var p1 := P.Next(bus, l.panel, rndA).0;
    PR.ConcludeSettles(bus, p1, answer);
    NotDeferred(bus, p1, answer.value);
  }

  lemma NotDeferred(bus: P.Bus, p1: P.Device, f: Frame)
    requires PR.InExchange(p1) && p1.queue.inflight.Some? && PR.Read(bus, p1, f).Answer?
    requires PR.Read(bus, p1, f).message.code != BUSY && PR.Read(bus, p1, f).message.code != COM
    ensures !P.Conclude(bus, p1, Some(f)).0.queue.deferCommands
  {
    hide PR.Read, P.Reply, PR.Consistent;
    PR.ReplyQueue(bus, p1, f);
  }

  /** On the channel, in step, with nothing queued and nothing missed. */
  ghost predicate Idle(bus: P.Bus, cfg: R.Config, l: Link) {
    && Channelled(bus, cfg, l) && AtMostOnce(l) && InSync(l.panel, l.reader) && (cfg.strict ==> !l.missed)
    && !l.panel.queue.repeatSequence && l.panel.queue.outbox == [] && !l.panel.queue.deferCommands
  }

  /** Any refusal forgets the install outstanding, while its key set stays queued. On a channel in step with nothing queued,
      an osdp_OUT without entries and an install behind it: the reader refuses the first and takes the key, and the panel
      announces nothing and keeps the key it had. */
  lemma RefusalForgetsTheKey(bus: P.Bus, cfg: R.Config, l: Link, rndA: Cipher.Nonce, env: R.Env, key: Cipher.Block)
    requires Idle(bus, cfg, l)
    requires P.Fits(bus, l.panel, Message(OUT, []))
    ensures var l2 := Step(bus, cfg, Step(bus, cfg, l, Submit(Message(OUT, []))), Install(key));
            var l3 := RunExchange(bus, cfg, l2, Delivered, rndA, env);
            var l4 := RunExchange(bus, cfg, l3, Delivered, rndA, env);
            && l2.panel.channel.pendingKey == Some(key) && l2.accepted == l.accepted + [Message(OUT, []), KeySetCommand(key)]
            && Raised(bus, cfg, l2, Delivered, rndA, env) != P.KeyInstalled && Raised(bus, cfg, l3, Delivered, rndA, env) != P.KeyInstalled
            && l4.reader.key == key && l4.reader.session.None?
            && l4.panel.channel.installedKey == l.panel.channel.installedKey && l4.panel.state == P.Secure
  {
    hide RunExchange, Raised, P.Fits, InSync, KeySetCommand, AtMostOnce, Channelled, Receptive, PR.SendsHead, R.Dispatch, Ready, Answering;
    var m := Message(OUT, []);
    Queued(bus, cfg, l, m, key);
    var l2 := Step(bus, cfg, Step(bus, cfg, l, Submit(m)), Install(key));
    NothingOwed(bus, cfg, l2);
    EmptyOutRefused(bus, cfg, l2, env);
    RefusedInStep(bus, cfg, l2, rndA, env);
    var l3 := RunExchange(bus, cfg, l2, Delivered, rndA, env);
    NothingOwed(bus, cfg, l3);
    KeySetIsSent(bus, cfg, l3, key);
    KeyInstallAnnounced(bus, cfg, l3, rndA, env, key);
  }

  /** Nothing between exchanges disturbs a channel in step. */
  lemma StaysInStep(bus: P.Bus, cfg: R.Config, l: Link, op: Op)
    requires Channelled(bus, cfg, l) && AtMostOnce(l) && InSync(l.panel, l.reader) && !op.Exchange?
    ensures var l' := Step(bus, cfg, l, op);
            Channelled(bus, cfg, l') && AtMostOnce(l') && InSync(l'.panel, l'.reader) && l'.missed == l.missed
  {
    hide P.Fits, AtMostOnce, RR.Orderly, PR.Settled, InSync, KeySetCommand, RR.SameExchange, R.Established, Step;
    ChannelledFacts(bus, cfg, l);
    StepUndisturbed(bus, cfg, l, op);
    UndisturbedAtMostOnce(cfg, l, Step(bus, cfg, l, op));
    AR.StepQuiet(bus, cfg, l, op);
    CR.QuietSync(l, Step(bus, cfg, l, op));
  }

  /** The command and the key set behind it, on a channel in step. */
  lemma Queued(bus: P.Bus, cfg: R.Config, l: Link, m: Message, key: Cipher.Block)
    requires Idle(bus, cfg, l)
    requires P.Fits(bus, l.panel, m) && m.code == OUT
    ensures var l2 := Step(bus, cfg, Step(bus, cfg, l, Submit(m)), Install(key));
            && Channelled(bus, cfg, l2) && AtMostOnce(l2) && InSync(l2.panel, l2.reader) && (cfg.strict ==> !l2.missed)
            && l2.accepted == l.accepted + [m, KeySetCommand(key)]
            && l2.panel.queue == l.panel.queue.(outbox := [m, KeySetCommand(key)]) && PR.SendsHead(l2.panel)
            && l2.panel.channel == l.panel.channel.(pendingKey := Some(key))
  {
    hide P.Fits, AtMostOnce, Ready, InSync, KeySetCommand;
    ChannelledFacts(bus, cfg, l);
    StaysInStep(bus, cfg, l, Submit(m));
    StaysInStep(bus, cfg, Step(bus, cfg, l, Submit(m)), Install(key));
  }

  lemma EmptyOutRefused(bus: P.Bus, cfg: R.Config, l: Link, env: R.Env)
    requires Channelled(bus, cfg, l) && InSync(l.panel, l.reader) && PR.SendsHead(l.panel) && l.panel.queue.outbox[0] == Message(OUT, [])
    ensures Answering(bus, cfg, l, env).1 == Nak(NAK_COMMAND_LENGTH)
  {
    hide Ready, NextMac;
  }

  lemma KeySetIsSent(bus: P.Bus, cfg: R.Config, l: Link, key: Cipher.Block)
    requires Channelled(bus, cfg, l) && l.panel.queue.outbox == [KeySetCommand(key)] && !l.panel.queue.deferCommands
    ensures KeySetNext(l.panel, key)
  {
    hide RR.Orderly, Lag, KeyIn;
    KeySetRoundTrip(key);
  }
}
