/** A command whose frame outgrows the device's buffer between its submission and its turn. internal/bus/size.go. */
module SizeRuns {
  import opened Octets
  import opened Frames
  import opened Messages
  import opened Links
  import opened LinkRuns
  import opened Agreement
  import AR = AgreementRuns
  import Cipher
  import P = Panel
  import PR = PanelRuns
  import R = Reader
  import RR = ReaderRuns
  import Size

  /** A command that fits the buffer in the clear is submitted while the handshake is under way. It is accepted, the
      handshake succeeds, and the frame that carries the command is too long for the device. */
  lemma OutgrowsTheBuffer(
    bus: P.Bus, cfg: R.Config, l: Link, m: Message, rndA: Cipher.Nonce, env: R.Env, rndA': Cipher.Nonce, env': R.Env)
    requires AR.AboutToChallenge(bus, cfg, l) && TameHandler(env) && TameHandler(env') && P.BaseKey(bus, l.panel) == Some(l.reader.key)
    requires l.panel.queue.outbox == [] && !l.panel.queue.deferCommands && Size.Between(bus, l.panel, m)
    ensures var l1 := Step(bus, cfg, l, Submit(m));
            var l2 := RunExchange(bus, cfg, l1, Delivered, rndA, env);
            var l3 := RunExchange(bus, cfg, l2, Delivered, rndA', env');
            var f := P.Next(bus, l3.panel, rndA').1;
            && l1.accepted == l.accepted + [m] && l3.panel.state == P.Secure && PR.SendsHead(l3.panel) && l3.panel.queue.outbox == [m]
            && f.Some? && f.value.code == m.code && WireLen(f.value) > ReceiveBufferSize(l.panel.caps)
  {
    hide RunExchange, Ready, AR.AboutToChallenge, TameHandler, P.BaseKey, Raised, Size.Between, WireLen, P.Next, ReceiveBufferSize;
    SubmittedMeanwhile(bus, cfg, l, m);
    var l1 := Step(bus, cfg, l, Submit(m));
    AR.HandshakeSucceeds(bus, cfg, l1, rndA, env, rndA', env');
    var l2 := RunExchange(bus, cfg, l1, Delivered, rndA, env);
    var l3 := RunExchange(bus, cfg, l2, Delivered, rndA', env');
    AR.HandshakeQueue(bus, cfg, l1, rndA, env);
    AR.HandshakeQueue(bus, cfg, l2, rndA', env');
    Sent(bus, cfg, l, l3, m, rndA');
  }

  lemma SubmittedMeanwhile(bus: P.Bus, cfg: R.Config, l: Link, m: Message)
    requires AR.AboutToChallenge(bus, cfg, l) && Size.Between(bus, l.panel, m)
    ensures var l1 := Step(bus, cfg, l, Submit(m));
            && AR.AboutToChallenge(bus, cfg, l1) && l1.accepted == l.accepted + [m] && P.BaseKey(bus, l1.panel) == P.BaseKey(bus, l.panel)
            && l1.reader == l.reader && l1.panel == l.panel.(queue := l.panel.queue.(outbox := l.panel.queue.outbox + [m]))
            && Ready(bus, cfg, l1) && l1.panel.state == P.SecureHandshake && bus.suite.Lawful()
  {
    hide Agreed, Ready, Cipher.PaddedLen, ReceiveBufferSize;
    AR.ChallengeFacts(bus, cfg, l);
    AR.StepAgreed(bus, cfg, l, Submit(m));
    AR.AgreedParts(bus, cfg, Step(bus, cfg, l, Submit(m)));
    NotYet(bus, cfg, l);
  }

  lemma NotYet(bus: P.Bus, cfg: R.Config, l: Link)
    requires Ready(bus, cfg, l) && l.panel.state == P.SecureHandshake
    ensures !P.SecureEstablished(l.panel)
  {
    hide RR.Orderly, PR.Resting, Lag;
  }

  lemma Sent(bus: P.Bus, cfg: R.Config, l: Link, l3: Link, m: Message, rndA: Cipher.Nonce)
    requires Ready(bus, cfg, l3) && l3.panel.state == P.Secure && l3.panel.queue.outbox == [m] && !l3.panel.queue.deferCommands
    requires bus.suite.Lawful() && Size.Between(bus, l.panel, m)
    ensures var f := P.Next(bus, l3.panel, rndA).1;
            PR.SendsHead(l3.panel) && f.Some? && f.value.code == m.code && WireLen(f.value) > ReceiveBufferSize(l.panel.caps)
  {
    hide RR.Orderly, Lag, WireLen, P.Next, ReceiveBufferSize, PR.Resting, Size.LengthOn, PR.Chosen, P.NextSequence, PR.InExchange;
    RR.BelowBroadcast(l3.panel.address);
    assert PR.SendsHead(l3.panel);
    Size.ComposedLength(bus, l3.panel, m, rndA);
    SecureSends(bus, cfg, l3, rndA);
  }
}
