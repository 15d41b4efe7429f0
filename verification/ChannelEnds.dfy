/** What any exchange that gets through on a secure channel makes of the channel: key installs, address changes,
    identification and handshake replies included. Section 7.4 of SIA OSDP v2.2.2. */
module ChannelEnds {
  import opened Octets
  import opened Frames
  import opened Messages
  import opened Links
  import opened LinkRuns
  import opened Lockstep
  import opened Agreement
  import opened Retransmission
  import AR = AgreementRuns
  import Cipher
  import S = Sessions
  import P = Panel
  import PR = PanelRuns
  import R = Reader
  import RR = ReaderRuns

  predicate Identifies(m: Message) {
    m.code == PDID && |m.data| >= DEVICE_ID_SIZE
  }

  predicate Reports(m: Message) {
    m.code == PDCAP && ParseCapabilities(m.data).Some?
  }

  /** What the answer m leaves of the channel, when the reader has taken a key along with it or has not. */
  predicate Leaves(bus: P.Bus, l: Link, l': Link, m: Message, keyTaken: bool) {
    if PR.MovesDevice(m) then
      l'.panel.state == P.Offline && l'.panel.queue.sequence == 0 && l'.panel.channel.session.None? && l'.panel.address == m.data[0]
    else if keyTaken then
      && l'.reader.session.None?
      && (if l.panel.channel.pendingKey.Some? then l'.panel.state == P.Identifying && l'.panel.channel.session.None? else l'.panel.state == P.Secure)
    else if Identifies(m) then l'.panel.state == P.Identifying && InSync(l'.panel, l'.reader)
    else if Reports(m) then
      if PR.DeclinesSecure(bus, l.panel, ParseCapabilities(m.data).value) then l'.panel.state == P.Online && InSync(l'.panel, l'.reader)
      else l'.panel.state == P.SecureHandshake && !P.SecureEstablished(l'.panel)
    else if m.code == CCRYPT || m.code == RMAC_I then GivenUp(l'.panel) && R.Established(l'.reader)
    else l'.panel.state == P.Secure && InSync(l'.panel, l'.reader)
  }

  /** The panel's side of it. */
  lemma DispatchOnSecure(bus: P.Bus, d: P.Device, m: Message)
    requires d.state == P.Secure && P.SecureEstablished(d) && !PR.MovesDevice(m)
    requires d.channel.session.value.role == S.CP
    ensures var e := P.Dispatch(bus, d, m).0;
            if KeyAccepted(d, m) then e.state == P.Identifying && e.channel.session.None?
            else if Identifies(m) then e.state == P.Identifying && e.channel.session == d.channel.session
            else if Reports(m) then
              if PR.DeclinesSecure(bus, d, ParseCapabilities(m.data).value) then e.state == P.Online && e.channel.session == d.channel.session
              else e.state == P.SecureHandshake && !P.SecureEstablished(e)
            else if m.code == CCRYPT || m.code == RMAC_I then GivenUp(e)
            else e.state == P.Secure && e.channel.session == d.channel.session
  {
    hide PR.Status.Report, ParseCapabilities, ParseContacts, ParseLocalStatus, ClaimsSecureChannel, WholeCardRead, WholeKeypadEntry, P.AwaitingKeySet,
      P.Reclaim, P.BaseKey;
    if Reports(m) {
      PR.BaseKeyOf(bus, d, d.(caps := ParseCapabilities(m.data).value));
    }
  }

  lemma AwaitedInSync(bus: P.Bus, p: P.Device, r: R.Device)
    requires P.SecureEstablished(p) && Awaits(bus, p, r) && r.session.Some?
    ensures InSync(PR.AtDispatch(bus, p, r.cache.reply), r)
  {
    hide P.OpenReply, P.Delivered;
  }

  /** So the channel outlives the exchange exactly when the answer is none of these and no key was taken. */
  predicate Outlives(m: Message, keyTaken: bool) {
    !PR.MovesDevice(m) && !keyTaken && !Identifies(m) && !Reports(m) && m.code != CCRYPT && m.code != RMAC_I
  }

  /** Every exchange that gets through in step, whatever the command and whatever the application answers: what becomes of
      the channel is decided by the answer alone, and by whether the reader took a key. */
  lemma ChannelStep(bus: P.Bus, cfg: R.Config, l: Link, rndA: Cipher.Nonce, env: R.Env)
    requires Channelled(bus, cfg, l) && AtMostOnce(l) && InSync(l.panel, l.reader) && Receptive(cfg, l)
    ensures var (e, m) := Answering(bus, cfg, l, env);
            var l' := RunExchange(bus, cfg, l, Delivered, rndA, env);
            && Leaves(bus, l, l', m, e.adoptingKey.Some?)
            && (l'.panel.state == P.Secure && InSync(l'.panel, l'.reader) <==> Outlives(m, e.adoptingKey.Some?))
  {
    hide Ready, P.Next, P.Conclude, R.Handle, R.Dispatch, PR.PlainChoice, PR.InExchange, NextMac, PR.Read, P.OpenReply, RunExchange, RR.Orderly,
      TakesEffect, AtMostOnce, Awaits, PR.Settled, NextNumber, Answering, PR.SendsHead, ValidAddress, InSync, P.Dispatch, PR.AtDispatch, Timely,
      ParseCapabilities, KeyAccepted, PR.DeclinesSecure;
    SyncIsEstablished(RunExchange(bus, cfg, l, Delivered, rndA, env));
    SyncNoticed(l.panel, l.reader, env);
    ChannelledFacts(bus, cfg, l);
    InStepHandled(bus, cfg, l, rndA, env);
    SecureSends(bus, cfg, l, rndA);
    Parts(bus, cfg, l, Delivered, rndA, env);
    var p1 := P.Next(bus, l.panel, rndA).0;
    var answer := Returned(bus, cfg, l, Delivered, rndA, env);
    var l' := RunExchange(bus, cfg, l, Delivered, rndA, env);
    var (e, m) := Answering(bus, cfg, l, env);
    var d := PR.AtDispatch(bus, p1, answer.value);
    PR.AtDispatchChannel(bus, p1, answer.value);
    if PR.MovesDevice(m) {
      Moved(bus, p1, answer.value, m);
    } else {
      AR.HeardNumbered(bus, p1, answer);
      ConcludeTurns(bus, p1, answer);
      AcceptedWhenTaken(bus, cfg, l, rndA, env, answer.value);
      TakenAcknowledged(bus, cfg, l, env);
      ChannelRole(p1);
      DispatchOnSecure(bus, d, m);
      if Reports(m) {
        DeclinesAlike(bus, l.panel, d, m);
      }
      if e.adoptingKey.None? {
        AwaitedInSync(bus, p1, l'.reader);
        SameSync(d, l'.panel, l'.reader);
      }
    }
  }

  lemma Moved(bus: P.Bus, p: P.Device, f: Frame, m: Message)
    requires PR.Read(bus, p, f) == PR.Answer(m) && PR.MovesDevice(m)
    ensures var e := P.Conclude(bus, p, Some(f)).0;
            e.state == P.Offline && e.queue.sequence == 0 && e.channel.session.None? && e.address == m.data[0]
  {
    hide PR.Read, P.OpenReply, P.Requeue, P.Delivered, P.Reply;
    PR.ReplyIsDispatch(bus, p, f);
  }

  lemma ChannelRole(p: P.Device)
    requires PR.InExchange(p)
    ensures p.channel.session.Some? ==> p.channel.session.value.role == S.CP
  {
  }

  lemma DeclinesAlike(bus: P.Bus, p: P.Device, d: P.Device, m: Message)
    requires d.address == p.address && d.channel == p.channel.(session := d.channel.session) && Reports(m)
    ensures PR.DeclinesSecure(bus, d, ParseCapabilities(m.data).value) == PR.DeclinesSecure(bus, p, ParseCapabilities(m.data).value)
  {
    hide ParseCapabilities, ClaimsSecureChannel;
  }

  lemma SyncIsEstablished(l: Link)
    ensures InSync(l.panel, l.reader) ==> l.reader.session.Some?
  {
  }

  lemma SameSync(d: P.Device, e: P.Device, r: R.Device)
    requires InSync(d, r)
    ensures R.Established(r) && (e.channel.session == d.channel.session ==> InSync(e, r))
  {
  }

  /** A key is only ever taken with an acknowledgement. */
  lemma TakenAcknowledged(bus: P.Bus, cfg: R.Config, l: Link, env: R.Env)
    requires Channelled(bus, cfg, l) && InSync(l.panel, l.reader)
    ensures var (e, m) := Answering(bus, cfg, l, env); e.adoptingKey.Some? ==> m.code == ACK
  {
    hide Ready, R.Dispatch, PR.PlainChoice, NextMac, PR.Settled, RR.AllReportable, RR.Coalesced;
    ChannelledFacts(bus, cfg, l);
    RR.DispatchAdopts(cfg, Noticed(l.reader, env).(session := Some(l.reader.session.value.(cmac := NextMac(bus, l.panel)))),
                      PR.PlainChoice(l.panel).0, true, env);
  }
}
