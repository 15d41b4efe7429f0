/** What the two ends agree on over a lossy line: when the reader has a session, which key it holds, and
    which commands have taken effect. Sections 5.7 and 7.2 of SIA OSDP v2.2.2. */
module Agreement {
  import opened Octets
  import opened Frames
  import opened Messages
  import opened Links
  import opened LinkRuns
  import opened Lockstep
  import Cipher
  import S = Sessions
  import P = Panel
  import PR = PanelRuns
  import R = Reader
  import RR = ReaderRuns

  // ----- What each end knows of the other -----

  /** No channel, and the reader holds no established session. */
  predicate PlainEnds(p: P.Device, r: R.Device) {
    p.channel.session.None? && p.channel.pending.None? && !R.Established(r)
  }

  /** The reader's session that a panel session with a cryptogram in hand belongs to. */
  predicate Counterpart(s: S.Session, t: S.Session) {
    && t.role == S.PD && t.phase == S.Cryptogram && t.keys == s.keys && t.rndA == s.rndA && t.rndB == s.rndB
    && t.cmac == Cipher.ZeroBlock
  }

  /** A handshake under way on the panel's key. A cryptogram waiting to be sent is the one the reader's session
      expects, and a reader on another key has no session to speak of. */
  predicate HandshakeEnds(bus: P.Bus, su: S.Suite, p: P.Device, r: R.Device) {
    && p.channel.session.Some?
    && var s := p.channel.session.value;
    && P.BaseKey(bus, p) == Some(s.base) && s.role == S.CP && s.cmac == Cipher.ZeroBlock && s.phase != S.Established
    && (s.base != r.key ==> p.channel.pending.None? && !R.Established(r))
    && (p.channel.pending.Some? ==>
          && s.phase == S.Cryptogram && s.server == su.server(s.keys, s.rndA, s.rndB)
          && p.channel.pending.value == P.SecureStep(Message(SCRYPT, s.server), SCS_13)
          && r.session.Some? && Counterpart(s, r.session.value))
  }

  /** A channel: a reader that still holds its session still holds the key the panel holds. */
  predicate SecureEnds(bus: P.Bus, p: P.Device, r: R.Device) {
    && P.SecureEstablished(p) && p.channel.pending.None?
    && (R.Established(r) ==> P.BaseKey(bus, p) == Some(r.key))
  }

  /** The panel kept its session but went back to identifying the device: nothing it hears can be opened. */
  predicate Stuck(p: P.Device) {
    P.SecureEstablished(p) && p.state != P.Secure && p.state != P.SecureHandshake
  }

  predicate Ends(bus: P.Bus, su: S.Suite, p: P.Device, r: R.Device) {
    if p.state == P.Secure then SecureEnds(bus, p, r)
    else if p.state == P.SecureHandshake then HandshakeEnds(bus, su, p, r)
    else Stuck(p) || PlainEnds(p, r)
  }

  // ----- Key installs -----

  /** Every key set waiting hands over the key awaited, if one is. */
  predicate KeyQueue(p: P.Device) {
    p.channel.pendingKey.Some? ==>
      forall i :: 0 <= i < |p.queue.outbox| && p.queue.outbox[i].code == KEYSET ==> KeyIn(p.queue.outbox[i]) == p.channel.pendingKey
  }

  /** Without a matching session, and without a matching chain, the reader verifies no command: what the four
      octets of a tag are there for. */
  predicate Unforged(bus: P.Bus, cfg: R.Config, l: Link, rndA: Cipher.Nonce) {
    var f := P.Next(bus, l.panel, rndA).1;
    f.Some? && f.value.security.Some? && EstablishedBlock(f.value.security.value.kind) &&
    R.Established(l.reader) && !InSync(l.panel, l.reader) ==>
      R.Open(cfg.suite, l.reader.session.value, f.value).1.Err?
  }

  /** A cryptogram made under another key is not the one expected: what a cryptogram is there for. */
  predicate Unmistaken(bus: P.Bus, l: Link, rndA: Cipher.Nonce, env: R.Env) {
    var s := l.panel.channel.session;
    l.panel.state == P.SecureHandshake && s.Some? && s.value.base != l.reader.key ==>
      Proof(bus.suite, s.value.base, rndA, env.rndB) != Proof(bus.suite, l.reader.key, rndA, env.rndB)
  }

  /** The client cryptogram a key gives for two randoms. */
  function Proof(su: S.Suite, base: Cipher.Block, rndA: Cipher.Nonce, rndB: Cipher.Nonce): Cipher.Block {
    su.client(su.derive(base, rndA), rndA, rndB)
  }

  /** The same suite at both ends, and neither a tag nor a cryptogram that passes by accident. */
  ghost predicate Fair(bus: P.Bus, cfg: R.Config, l: Link, rndA: Cipher.Nonce, env: R.Env) {
    && bus.suite == cfg.suite && bus.suite.Lawful() && TameHandler(env)
    && Unforged(bus, cfg, l, rndA) && Unmistaken(bus, l, rndA, env)
  }

  predicate Plainly(p: P.Device) {
    p.state != P.Secure && p.state != P.SecureHandshake
  }

  // ----- What a plain exchange leaves -----

  lemma PlainTurns(bus: P.Bus, su: S.Suite, d: P.Device, r: R.Device, m: Message)
    requires PlainEnds(d, r) && d.state != P.Secure && d.state != P.SecureHandshake
    requires m.code != CCRYPT && m.code != RMAC_I && !KeyAccepted(d, m) && P.Dispatch(bus, d, m).0.queue.sequence != 0
    ensures Ends(bus, su, P.Dispatch(bus, d, m).0, r)
    ensures P.Dispatch(bus, d, m).1 != Ok(P.BecameSecure) && P.Dispatch(bus, d, m).1 != Ok(P.KeyInstalled)
  {
    hide P.Dispatch, P.AwaitingKeySet, P.OnCapabilities, R.Established, Ends;
    if m.code == PDCAP {
      CapabilitiesDispatch(bus, d, m);
      CapabilitiesTurn(bus, su, d, r, m.data);
    } else if m.code == PDID {
      IdentityDispatch(bus, d, m);
      StillPlain(bus, su, d, P.Dispatch(bus, d, m).0, r);
    } else {
      DispatchTurns(bus, d, m);
      StillPlain(bus, su, d, P.Dispatch(bus, d, m).0, r);
    }
  }

  lemma CapabilitiesDispatch(bus: P.Bus, d: P.Device, m: Message)
    requires m.code == PDCAP
    ensures P.Dispatch(bus, d, m) == P.OnCapabilities(bus, d, m.data)
  {
    hide P.OnCapabilities;
  }

  lemma IdentityDispatch(bus: P.Bus, d: P.Device, m: Message)
    requires m.code == PDID
    ensures var (e, event) := P.Dispatch(bus, d, m);
            e == d.(state := e.state) && (e.state == d.state || e.state == P.Identifying) && event != Ok(P.BecameSecure) && event != Ok(P.KeyInstalled)
  {
  }

  /** Once its capabilities are known the device goes online or into a handshake on the key it holds. */
  lemma CapabilitiesTurn(bus: P.Bus, su: S.Suite, d: P.Device, r: R.Device, data: seq<Octet>)
    requires d.channel.pending.None? && Plainly(d) && PlainEnds(d, r)
    ensures Ends(bus, su, P.OnCapabilities(bus, d, data).0, r)
    ensures P.OnCapabilities(bus, d, data).1 != Ok(P.BecameSecure) && P.OnCapabilities(bus, d, data).1 != Ok(P.KeyInstalled)
  {
    hide ParseCapabilities, ClaimsSecureChannel, R.Established;
  }

  lemma StillPlain(bus: P.Bus, su: S.Suite, d: P.Device, e: P.Device, r: R.Device)
    requires PlainEnds(d, r) && Plainly(e)
    requires e.address == d.address && e.channel == d.channel.(pendingKey := e.channel.pendingKey)
    ensures Ends(bus, su, e, r)
  {
  }

  // ----- One exchange, in parts -----

  /** The answer that comes back over the line. */
  function Returned(bus: P.Bus, cfg: R.Config, l: Link, outcome: Outcome, rndA: Cipher.Nonce, env: R.Env): Option<Frame> {
    hide P.Next, R.Handle;
    var f := P.Next(bus, l.panel, rndA).1;
    if f.None? || outcome.CommandLost? then None else Heard(outcome, R.Handle(cfg, l.reader, f.value, env).1)
  }

  /** The event the panel raises. */
  function Raised(bus: P.Bus, cfg: R.Config, l: Link, outcome: Outcome, rndA: Cipher.Nonce, env: R.Env): P.Event {
    hide P.Next, P.Conclude, Returned;
    P.Conclude(bus, P.Next(bus, l.panel, rndA).0, Returned(bus, cfg, l, outcome, rndA, env)).1
  }

  lemma Parts(bus: P.Bus, cfg: R.Config, l: Link, outcome: Outcome, rndA: Cipher.Nonce, env: R.Env)
    requires P.Next(bus, l.panel, rndA).1.Some?
    ensures var l' := RunExchange(bus, cfg, l, outcome, rndA, env);
            var (p1, f) := P.Next(bus, l.panel, rndA);
            && l'.panel == P.Conclude(bus, p1, Returned(bus, cfg, l, outcome, rndA, env)).0
            && l'.reader == if outcome.CommandLost? then l.reader else R.Handle(cfg, l.reader, f.value, env).0
  {
    hide P.Next, P.Conclude, R.Handle, PR.Answered, TakesEffect;
  }

  /** What is asked of every exchange below: it starts in a sound state on a shared address, and the panel does
      not start over at its end. */
  ghost predicate Underway(bus: P.Bus, cfg: R.Config, l: Link, outcome: Outcome, rndA: Cipher.Nonce, env: R.Env) {
    hide RunExchange, Ready, Unforged, Unmistaken;
    && Ready(bus, cfg, l) && SameAddress(l) && Fair(bus, cfg, l, rndA, env)
    && RunExchange(bus, cfg, l, outcome, rndA, env).panel.queue.sequence != 0
  }

  /** The panel heard nothing it could use: both ends are where the command left them. */
  lemma Unheard(bus: P.Bus, su: S.Suite, p1: P.Device, r1: R.Device, answer: Option<Frame>)
    requires PR.InExchange(p1) && P.Conclude(bus, p1, answer).0.queue.sequence != 0 && !Hears(bus, p1, answer)
    requires Ends(bus, su, p1, r1)
    ensures Ends(bus, su, P.Conclude(bus, p1, answer).0, r1)
    ensures P.Conclude(bus, p1, answer).1 != P.BecameSecure && P.Conclude(bus, p1, answer).1 != P.KeyInstalled
  {
    hide PR.InExchange, P.Conclude, R.Established, Hears;
    ConcludeTurns(bus, p1, answer);
    ConcludeAddress(bus, p1, answer);
    UnheardEvent(bus, p1, answer);
  }

  lemma UnheardEvent(bus: P.Bus, p: P.Device, answer: Option<Frame>)
    requires !Hears(bus, p, answer)
    ensures P.Conclude(bus, p, answer).1 != P.BecameSecure && P.Conclude(bus, p, answer).1 != P.KeyInstalled
  {
    hide P.OpenReply, Sequence, P.Accepted, P.Retransmit, P.Restart;
  }

  lemma HeardEvent(bus: P.Bus, p: P.Device, answer: Option<Frame>)
    requires Hears(bus, p, answer)
    ensures var (e, event) := P.Dispatch(bus, PR.AtDispatch(bus, p, answer.value), PR.Read(bus, p, answer.value).message);
            var raised := P.Conclude(bus, p, answer).1;
            && (raised == P.BecameSecure <==> event == Ok(P.BecameSecure)) && (raised == P.KeyInstalled <==> event == Ok(P.KeyInstalled))
  {
    hide PR.Read, P.Reply, P.Dispatch, PR.AtDispatch, P.Retransmit, P.Restart;
    PR.ReplyIsDispatch(bus, p, answer.value);
  }

  /** A repeat that reached the reader is answered from its cache. */
  lemma Replayed(bus: P.Bus, cfg: R.Config, l: Link, rndA: Cipher.Nonce, env: R.Env)
    requires Ready(bus, cfg, l) && Processed(l)
    ensures var f := P.Next(bus, l.panel, rndA).1;
            && f.Some? && !TakesEffect(cfg, l.reader, f.value, env)
            && var (r1, reply) := R.Handle(cfg, l.reader, f.value, env);
            r1 == l.reader.(seen := r1.seen, lastSeen := r1.lastSeen) && reply == Ok(l.reader.cache.reply)
  {
    hide RR.Orderly, PR.Settled, PR.InExchange, CheckOK, Sequence, P.Next, R.Handle, TakesEffect, PR.Choice, PR.Chosen, P.NextSequence, NextNumber, Rotate;
    Emission(bus, cfg, l, rndA);
    NoStaleReplay(cfg, l);
    var f := P.Next(bus, l.panel, rndA).1.value;
    ReplayedUntouched(cfg, l.reader, f, env);
    RR.HandleDiscipline(cfg, l.reader, f, env);
  }

  /** The next command comes in its turn for the reader, strict or not. */
  predicate Timely(cfg: R.Config, l: Link) {
    hide NextNumber;
    InTurn(cfg, l.reader, NextNumber(l))
  }

  /** Any other command that reached the reader in its turn is handled afresh. */
  lemma Afresh(bus: P.Bus, cfg: R.Config, l: Link, rndA: Cipher.Nonce, env: R.Env)
    requires Ready(bus, cfg, l) && SameAddress(l) && !Processed(l) && Timely(cfg, l)
    ensures var f := P.Next(bus, l.panel, rndA).1;
            f.Some? && Handled(cfg, l.reader, f.value, env)
  {
    hide RR.Orderly, PR.Settled, PR.InExchange, CheckOK, Sequence, P.Next, R.Handle, TakesEffect, PR.Choice, PR.Chosen, P.NextSequence, NextNumber, Rotate;
    Emission(bus, cfg, l, rndA);
    NoStaleReplay(cfg, l);
  }

  /** And one out of its turn is refused. */
  lemma Refused(bus: P.Bus, cfg: R.Config, l: Link, rndA: Cipher.Nonce, env: R.Env)
    requires Ready(bus, cfg, l) && SameAddress(l) && !Processed(l) && !Timely(cfg, l)
    ensures var f := P.Next(bus, l.panel, rndA).1;
            && f.Some?
            && var (r1, reply) := R.Handle(cfg, l.reader, f.value, env);
            && reply.Ok? && reply.value.isReply && reply.value.security.None? && reply.value.code == NAK
            && reply.value.address == l.panel.address && Sequence(reply.value.control) != 0
            && r1.cache.valid && r1.cache.reply == reply.value
            && r1.address == l.reader.address && r1.key == l.reader.key && r1.session == l.reader.session
            && !TakesEffect(cfg, l.reader, f.value, env)
  {
    hide RR.Orderly, PR.Settled, PR.InExchange, CheckOK, Sequence, P.Next, R.Handle, TakesEffect, PR.Choice, PR.Chosen, P.NextSequence, NextNumber, Rotate,
      InTurn;
    Emission(bus, cfg, l, rndA);
    NoStaleReplay(cfg, l);
    OutOfTurn(cfg, l.reader, P.Next(bus, l.panel, rndA).1.value, env);
  }

  /** A command is out of turn exactly for a strict reader that missed the freshly numbered command before it. */
  lemma TimelyExactly(bus: P.Bus, cfg: R.Config, l: Link)
    requires Ready(bus, cfg, l) && SameAddress(l) && !Processed(l)
    ensures Timely(cfg, l) <==> !(cfg.strict && l.reader.cache.valid && l.missed && !l.panel.queue.repeatSequence)
  {
    hide PR.Chosen, P.NextSequence, Rotate, RR.AllReportable, RR.Coalesced, NextNumber;
    NextNumberIs(l);
    if l.reader.cache.valid {
      RotateTwice(l.reader.cache.sequence);
      RotateThere(l.reader.cache.sequence);
    }
  }

  lemma RotateThere(n: Octet)
    requires 1 <= n <= SEQUENCE_ROTATION
    ensures Rotate(Rotate(n)) != Rotate(n)
  {
  }

  // ----- Exchanges without a channel -----

  /** A reply waiting to be repeated is not a handshake reply. */
  predicate TameCache(l: Link) {
    Processed(l) ==> l.reader.cache.reply.code != CCRYPT && l.reader.cache.reply.code != RMAC_I
  }

  lemma PlainSends(bus: P.Bus, cfg: R.Config, l: Link, rndA: Cipher.Nonce)
    requires Ready(bus, cfg, l) && Plainly(l.panel)
    ensures var (p1, f) := P.Next(bus, l.panel, rndA);
            && p1 == l.panel.(queue := p1.queue) && PR.InExchange(p1) && f.Some? && f.value.security.None?
  {
    hide RR.Orderly, P.Next, PR.InExchange, CheckOK, NewControl, Sequence, PR.Chosen, P.NextSequence, ValidAddress, PR.Owed, PR.Resting, Lag;
    RR.BelowBroadcast(l.panel.address);
    PR.EmitsPlain(bus, l.panel, rndA);
    PR.NextEmits(bus, l.panel, rndA);
  }

  lemma PlainReaderKept(bus: P.Bus, cfg: R.Config, l: Link, rndA: Cipher.Nonce, env: R.Env)
    requires Ready(bus, cfg, l) && SameAddress(l) && TameHandler(env) && Plainly(l.panel) && PlainEnds(l.panel, l.reader) && TameCache(l)
    ensures var f := P.Next(bus, l.panel, rndA).1;
            && f.Some?
            && var (r1, reply) := R.Handle(cfg, l.reader, f.value, env);
            && reply.Ok? && reply.value.code != CCRYPT && reply.value.code != RMAC_I
            && r1.key == l.reader.key && r1.session == l.reader.session
            && r1.cache.valid && r1.cache.reply == reply.value
            && (if Processed(l) then !TakesEffect(cfg, l.reader, f.value, env) && reply.value == l.reader.cache.reply
                else if !Timely(cfg, l) then !TakesEffect(cfg, l.reader, f.value, env)
                else TakesEffect(cfg, l.reader, f.value, env) <==> reply.value.code != BUSY)
  {
    hide Ready, P.Next, R.Handle, TakesEffect, R.Dispatch, Sequence, R.Established, P.BaseKey, Reaches, Timely, InTurn;
    PlainSends(bus, cfg, l, rndA);
    if Processed(l) {
      Replayed(bus, cfg, l, rndA, env);
    } else if !Timely(cfg, l) {
      Refused(bus, cfg, l, rndA, env);
    } else {
      Afresh(bus, cfg, l, rndA, env);
      PlainHandled(cfg, l.reader, P.Next(bus, l.panel, rndA).1.value, env);
    }
  }

  lemma PlainExchange(bus: P.Bus, cfg: R.Config, l: Link, outcome: Outcome, rndA: Cipher.Nonce, env: R.Env)
    requires Underway(bus, cfg, l, outcome, rndA, env) && Plainly(l.panel) && PlainEnds(l.panel, l.reader) && TameCache(l)
    ensures var l' := RunExchange(bus, cfg, l, outcome, rndA, env); Ends(bus, cfg.suite, l'.panel, l'.reader)
    ensures Raised(bus, cfg, l, outcome, rndA, env) != P.BecameSecure && Raised(bus, cfg, l, outcome, rndA, env) != P.KeyInstalled
  {
    hide Ready, Unforged, Unmistaken, RunExchange, P.Next, P.Conclude, P.Dispatch, PR.AtDispatch, PR.InExchange, R.Handle, TakesEffect, R.Established, P.BaseKey,
      PR.Read, KeyAccepted, Ends, TameCache;
    PlainSends(bus, cfg, l, rndA);
    PlainReaderKept(bus, cfg, l, rndA, env);
    Parts(bus, cfg, l, outcome, rndA, env);
    var p1 := P.Next(bus, l.panel, rndA).0;
    var l' := RunExchange(bus, cfg, l, outcome, rndA, env);
    var answer := Returned(bus, cfg, l, outcome, rndA, env);
    SamePlain(l.panel, p1, l.reader, l'.reader);
    if Hears(bus, p1, answer) {
      var m := PR.Read(bus, p1, answer.value).message;
      NothingAccepted(bus, p1, answer.value, m);
      ReadCode(bus, p1, answer.value);
      ConcludeTurns(bus, p1, answer);
      ConcludeAddress(bus, p1, answer);
      HeardEvent(bus, p1, answer);
      var d := PR.AtDispatch(bus, p1, answer.value);
      SamePlain(p1, d, l'.reader, l'.reader);
      PlainTurns(bus, cfg.suite, d, l'.reader, m);
      DispatchAddress(bus, d, m);
      SameEnds(bus, cfg.suite, P.Dispatch(bus, d, m).0, l'.panel, l'.reader);
    } else {
      PlainIsEnds(bus, cfg.suite, p1, l'.reader);
      Unheard(bus, cfg.suite, p1, l'.reader, answer);
    }
  }

  lemma SamePlain(p: P.Device, q: P.Device, r: R.Device, t: R.Device)
    requires PlainEnds(p, r) && q == p.(queue := q.queue) && t.key == r.key && t.session == r.session
    ensures PlainEnds(q, t)
  {
  }

  lemma PlainIsEnds(bus: P.Bus, su: S.Suite, p: P.Device, r: R.Device)
    requires PlainEnds(p, r) && Plainly(p)
    ensures Ends(bus, su, p, r)
  {
  }

  lemma SameEnds(bus: P.Bus, su: S.Suite, p: P.Device, q: P.Device, r: R.Device)
    requires Ends(bus, su, p, r) && q.state == p.state && q.channel == p.channel && q.address == p.address
    ensures Ends(bus, su, q, r)
  {
  }

  // ----- Exchanges the panel cannot make sense of -----

  /** A command in the clear is answered in the clear, whatever session the reader holds. */
  lemma PlainAnswered(cfg: R.Config, d: R.Device, f: Frame, env: R.Env)
    requires Handled(cfg, d, f, env) && TameHandler(env) && f.security.None?
    ensures var (d', r) := R.Handle(cfg, d, f, env);
            && r.Ok? && r.value.security.None? && r.value.code != CCRYPT && r.value.code != RMAC_I
            && d'.cache.valid && d'.cache.reply == r.value
  {
    hide RR.Orderly, CheckOK, Sequence, R.Dispatch, R.Handle, R.Answer, R.EncodeReply, TakesEffect, SchemeOf, NewControl, R.Established;
    if R.Established(d) {
      HandleFresh(cfg, d, f, env);
      Unadmitted(cfg, d, f, env);
      RR.AnswerUnadmitted(cfg, Noticed(d, env), f, env);
    } else {
      PlainHandled(cfg, d, f, env);
    }
  }

  lemma Unadmitted(cfg: R.Config, d: R.Device, f: Frame, env: R.Env)
    requires R.Established(d) && f.security.None?
    ensures RR.Admitted(cfg, Noticed(d, env), f).None?
  {
  }

  lemma Unreadable(bus: P.Bus, p: P.Device, f: Frame)
    requires P.SecureEstablished(p) && f.security.None?
    ensures !PR.Read(bus, p, f).Answer?
  {
    hide Sequence;
  }

  lemma StuckReaderKept(bus: P.Bus, cfg: R.Config, l: Link, rndA: Cipher.Nonce, env: R.Env)
    requires Ready(bus, cfg, l) && SameAddress(l) && TameHandler(env) && Plainly(l.panel) && TameCache(l)
    requires Processed(l) ==> l.reader.cache.reply.security.None?
    ensures var f := P.Next(bus, l.panel, rndA).1;
            && f.Some?
            && var (r1, reply) := R.Handle(cfg, l.reader, f.value, env);
            && reply.Ok? && reply.value.security.None? && reply.value.code != CCRYPT && reply.value.code != RMAC_I
            && r1.cache.valid && r1.cache.reply == reply.value
  {
    hide Ready, P.Next, R.Handle, TakesEffect, Sequence, Reaches, Timely, InTurn;
    PlainSends(bus, cfg, l, rndA);
    if Processed(l) {
      Replayed(bus, cfg, l, rndA, env);
    } else if !Timely(cfg, l) {
      Refused(bus, cfg, l, rndA, env);
    } else {
      Afresh(bus, cfg, l, rndA, env);
      PlainAnswered(cfg, l.reader, P.Next(bus, l.panel, rndA).1.value, env);
    }
  }

  /** Nothing is heard until the panel starts over. */
  lemma StuckExchange(bus: P.Bus, cfg: R.Config, l: Link, outcome: Outcome, rndA: Cipher.Nonce, env: R.Env)
    requires Underway(bus, cfg, l, outcome, rndA, env) && Stuck(l.panel) && TameCache(l)
    requires Processed(l) ==> l.reader.cache.reply.security.None?
    ensures var l' := RunExchange(bus, cfg, l, outcome, rndA, env); Ends(bus, cfg.suite, l'.panel, l'.reader)
    ensures !Hears(bus, P.Next(bus, l.panel, rndA).0, Returned(bus, cfg, l, outcome, rndA, env))
    ensures Raised(bus, cfg, l, outcome, rndA, env) != P.BecameSecure && Raised(bus, cfg, l, outcome, rndA, env) != P.KeyInstalled
  {
    hide Ready, Unforged, Unmistaken, RunExchange, P.Next, P.Conclude, PR.InExchange, R.Handle, TakesEffect, R.Established, PR.Read, TameCache;
    PlainSends(bus, cfg, l, rndA);
    StuckReaderKept(bus, cfg, l, rndA, env);
    Parts(bus, cfg, l, outcome, rndA, env);
    var p1 := P.Next(bus, l.panel, rndA).0;
    var answer := Returned(bus, cfg, l, outcome, rndA, env);
    if answer.Some? {
      Unreadable(bus, p1, answer.value);
    }
    Unheard(bus, cfg.suite, p1, RunExchange(bus, cfg, l, outcome, rndA, env).reader, answer);
  }

  // ----- The handshake -----

  lemma HandshakeSends(bus: P.Bus, cfg: R.Config, l: Link, rndA: Cipher.Nonce)
    requires Ready(bus, cfg, l) && l.panel.state == P.SecureHandshake
    ensures var (p1, f) := P.Next(bus, l.panel, rndA);
            var s := l.panel.channel.session;
            && f.Some? && PR.InExchange(p1) && s.Some? && !Processed(l) && !P.SecureEstablished(p1)
            && p1 == l.panel.(queue := p1.queue, channel := p1.channel)
            && (l.panel.channel.pending.Some? ==>
                  && f.value.security == Some(SecurityBlock(SCS_13, [])) && f.value.data == l.panel.channel.pending.value.message.data
                  && p1.channel == l.panel.channel.(pending := None))
            && (l.panel.channel.pending.None? ==>
                  && f.value.security == Some(SecurityBlock(SCS_11, [])) && f.value.data == rndA
                  && p1.channel == l.panel.channel.(session := Some(s.value.(rndA := rndA, phase := S.Challenged))))
  {
    hide RR.Orderly, PR.InExchange, CheckOK, NewControl, Sequence, PR.Chosen, P.NextSequence, ValidAddress, PR.Owed, PR.Resting, Lag, PR.Choice,
      P.CommandFor, P.ComposeHandshake;
    RR.BelowBroadcast(l.panel.address);
    PR.NextEmits(bus, l.panel, rndA);
    PR.CommandForHandshake(l.panel, rndA);
    var (d, m, block) := P.CommandFor(l.panel, rndA);
    PR.ComposeHandshakeCarries(bus, d, m, block.value);
  }

  /** The panel's session accepts the reader's cryptogram, and the two hold the same keys and randoms. */
  lemma CryptogramAgrees(su: S.Suite, s: S.Session, rndB: Cipher.Nonce, uid: Cipher.Nonce)
    requires s.role == S.CP && s.phase == S.Challenged && s.cmac == Cipher.ZeroBlock
    ensures var (t, c) := S.AnswerChallenge(su, S.NewSession(S.PD, s.base), s.rndA, rndB, uid);
            && c.Ok?
            && var (s', r) := S.AnswerCryptogram(su, s, c.value);
            && r == Ok(s'.server) && s'.phase == S.Cryptogram && s'.server == su.server(s'.keys, s'.rndA, s'.rndB)
            && Counterpart(s', t) && s'.role == S.CP && s'.base == s.base && s'.cmac == Cipher.ZeroBlock
  {
    var c := S.AnswerChallenge(su, S.NewSession(S.PD, s.base), s.rndA, rndB, uid).1.value;
    assert c[..8] == uid && c[8..16] == rndB && c[16..] == su.client(su.derive(s.base, s.rndA), s.rndA, rndB);
  }

  /** Established together: the same keys, the same reply chain, and command chains still at zero. */
  predicate EstablishedAlike(s: S.Session, t: S.Session) {
    && s.phase == S.Established && t.phase == S.Established && s.keys == t.keys && s.rmac == t.rmac
    && s.cmac == Cipher.ZeroBlock && t.cmac == Cipher.ZeroBlock
  }

  lemma RmacAgrees(su: S.Suite, s: S.Session, t: S.Session)
    requires s.role == S.CP && s.phase == S.Cryptogram && s.cmac == Cipher.ZeroBlock
    requires s.server == su.server(s.keys, s.rndA, s.rndB) && Counterpart(s, t)
    ensures var (t', c) := S.AnswerServerCryptogram(su, t, s.server);
            && c.Ok?
            && var (s', r) := S.CompleteHandshake(su, s, c.value);
            r.Ok? && EstablishedAlike(s', t') && s'.base == s.base
  {
  }

  /** Every answer to a command handled afresh comes from the address and under the number of the command. */
  lemma AnswerNumbered(cfg: R.Config, d: R.Device, f: Frame, env: R.Env)
    requires Handled(cfg, d, f, env)
    ensures var (d', r) := R.Handle(cfg, d, f, env);
            && r.Ok? && r.value.isReply && r.value.address == d.address && Sequence(r.value.control) == Sequence(f.control)
  {
    hide RR.Orderly, CheckOK, Sequence, R.Dispatch, R.Handle, R.Answer, R.EncodeReply, TakesEffect, SchemeOf, NewControl, R.Established;
    HandleFresh(cfg, d, f, env);
    var block := R.Answer(cfg, Noticed(d, env), f, env).2;
    RR.SequenceRange(f.control);
    PR.SequenceOfControl(Sequence(f.control), SchemeOf(f.control), block.Some?);
  }

  /** Without a session to open it, an answer of the right address and a nonzero number is taken as it is. */
  lemma ReadPlain(bus: P.Bus, p: P.Device, f: Frame)
    requires !P.SecureEstablished(p)
    ensures PR.Read(bus, p, f).Answer? ==> PR.Read(bus, p, f).message == Message(f.code, f.data)
    ensures f.isReply && f.address == p.address && Sequence(f.control) != 0 ==> PR.Read(bus, p, f).Answer?
  {
    hide Sequence;
  }

  /** A reply that is not a handshake step leaves the handshake as it is. */
  lemma HandshakeTurns(bus: P.Bus, su: S.Suite, d: P.Device, r: R.Device, m: Message)
    requires d.state == P.SecureHandshake && HandshakeEnds(bus, su, d, r) && m.code == NAK && P.Dispatch(bus, d, m).0.queue.sequence != 0
    ensures Ends(bus, su, P.Dispatch(bus, d, m).0, r)
    ensures P.Dispatch(bus, d, m).1 != Ok(P.BecameSecure) && P.Dispatch(bus, d, m).1 != Ok(P.KeyInstalled)
  {
    hide P.Dispatch, P.AwaitingKeySet;
    DispatchTurns(bus, d, m);
  }

  lemma CryptogramTurns(bus: P.Bus, su: S.Suite, d: P.Device, r: R.Device, rndB: Cipher.Nonce, uid: Cipher.Nonce, m: Message)
    requires bus.suite == su && d.state == P.SecureHandshake && HandshakeEnds(bus, su, d, r) && d.channel.pending.None?
    requires d.channel.session.value.phase == S.Challenged && d.channel.session.value.base == r.key
    requires var (t, c) := S.AnswerChallenge(su, S.NewSession(S.PD, r.key), d.channel.session.value.rndA, rndB, uid);
             r.session == Some(t) && c.Ok? && m == Message(CCRYPT, c.value)
    ensures var (e, event) := P.Dispatch(bus, d, m);
            && e.state == P.SecureHandshake && e.channel.pending.Some? && HandshakeEnds(bus, su, e, r) && event == Ok(P.NoEvent)
            && e.address == d.address
  {
    hide S.AnswerChallenge, S.AnswerCryptogram, Counterpart, P.BaseKey;
    CryptogramAgrees(su, d.channel.session.value, rndB, uid);
    CryptogramDispatch(bus, d, m);
    SameKey(bus, d, P.Dispatch(bus, d, m).0);
  }

  /** Online without a channel, and not to try for one again. */
  predicate GivenUp(p: P.Device) {
    p.state == P.Online && p.channel.session.None? && p.channel.pending.None? && p.channel.secureDeclined
  }

  /** A cryptogram under another key ends the handshake, and the reader is left without a session. */
  lemma CryptogramRejected(bus: P.Bus, su: S.Suite, d: P.Device, r: R.Device, rndB: Cipher.Nonce, uid: Cipher.Nonce, m: Message)
    requires bus.suite == su && d.state == P.SecureHandshake && HandshakeEnds(bus, su, d, r)
    requires var s := d.channel.session.value;
             s.phase == S.Challenged && Proof(su, s.base, s.rndA, rndB) != Proof(su, r.key, s.rndA, rndB)
    requires var (t, c) := S.AnswerChallenge(su, S.NewSession(S.PD, r.key), d.channel.session.value.rndA, rndB, uid);
             r.session == Some(t) && c.Ok? && m == Message(CCRYPT, c.value)
    ensures var (e, event) := P.Dispatch(bus, d, m);
            GivenUp(e) && PlainEnds(e, r) && event == Ok(P.SecureFailed) && e.address == d.address
  {
    hide P.BaseKey;
    CryptogramDispatch(bus, d, m);
    AnotherKey(su, d.channel.session.value, r.key, rndB, uid);
  }

  lemma AnotherKey(su: S.Suite, s: S.Session, key: Cipher.Block, rndB: Cipher.Nonce, uid: Cipher.Nonce)
    requires s.role == S.CP && s.phase == S.Challenged && Proof(su, s.base, s.rndA, rndB) != Proof(su, key, s.rndA, rndB)
    ensures var (t, c) := S.AnswerChallenge(su, S.NewSession(S.PD, key), s.rndA, rndB, uid);
            c.Ok? && t.phase == S.Cryptogram && S.AnswerCryptogram(su, s, c.value).1.Err?
  {
    var c := S.AnswerChallenge(su, S.NewSession(S.PD, key), s.rndA, rndB, uid).1.value;
    assert c[8..16] == rndB && c[16..] == Proof(su, key, s.rndA, rndB);
  }

  lemma CryptogramDispatch(bus: P.Bus, d: P.Device, m: Message)
    requires m.code == CCRYPT
    ensures P.Dispatch(bus, d, m) == P.OnCryptogram(bus, d, m.data)
  {
    hide P.OnCryptogram;
  }

  lemma SameKey(bus: P.Bus, d: P.Device, e: P.Device)
    requires e.address == d.address && e.channel.installedKey == d.channel.installedKey
    ensures P.BaseKey(bus, e) == P.BaseKey(bus, d)
  {
  }

  lemma RmacDispatch(bus: P.Bus, d: P.Device, m: Message)
    requires m.code == RMAC_I
    ensures P.Dispatch(bus, d, m) == P.OnInitialRMAC(bus, d, m.data)
  {
    hide P.OnInitialRMAC;
  }

  /** A challenge and its answer. One that gets through in its turn leaves a cryptogram to send when the reader is
      on the panel's key, and ends the handshake when it is on another. */
  lemma ChallengeExchange(bus: P.Bus, cfg: R.Config, l: Link, outcome: Outcome, rndA: Cipher.Nonce, env: R.Env)
    requires Underway(bus, cfg, l, outcome, rndA, env) && l.panel.state == P.SecureHandshake
    requires HandshakeEnds(bus, cfg.suite, l.panel, l.reader) && l.panel.channel.pending.None?
    ensures var l' := RunExchange(bus, cfg, l, outcome, rndA, env);
            && Ends(bus, cfg.suite, l'.panel, l'.reader)
            && (cfg.secure && outcome.Delivered? && Timely(cfg, l) ==>
                  if P.BaseKey(bus, l.panel) == Some(l.reader.key) then l'.panel.state == P.SecureHandshake && l'.panel.channel.pending.Some?
                  else GivenUp(l'.panel))
    ensures Raised(bus, cfg, l, outcome, rndA, env) != P.BecameSecure && Raised(bus, cfg, l, outcome, rndA, env) != P.KeyInstalled
  {
    hide Ready, Unforged, RunExchange, P.Next, P.Conclude, PR.InExchange, R.Handle, PR.Read, Ends, P.BaseKey, Sequence, P.SecureEstablished, Processed,
      TakesEffect, Timely, P.Dispatch, PR.AtDispatch, KeyAccepted, Counterpart, R.Established, MeetsChallenge, HandshakeEnds, CheckOK, RR.Orderly, Proof;
    HandshakeSends(bus, cfg, l, rndA);
    ChallengeAnswered(bus, cfg, l, rndA, env);
    Parts(bus, cfg, l, outcome, rndA, env);
    var p1 := P.Next(bus, l.panel, rndA).0;
    var l' := RunExchange(bus, cfg, l, outcome, rndA, env);
    var answer := Returned(bus, cfg, l, outcome, rndA, env);
    MetOrNot(cfg, l, rndA, env, l'.reader);
    ChallengeKeeps(bus, cfg.suite, l.panel, p1, l.reader, l'.reader, rndA);
    if answer.Some? {
      ReadPlain(bus, p1, answer.value);
    }
    if Hears(bus, p1, answer) {
      ChallengeHeard(bus, cfg, l, outcome, rndA, env);
    } else {
      HandshakeIsEnds(bus, cfg.suite, p1, l'.reader);
      Unheard(bus, cfg.suite, p1, l'.reader, answer);
    }
  }

  /** The reader holds a fresh session on a key, and the reply is its cryptogram. */
  predicate MeetsChallenge(cfg: R.Config, key: Cipher.Block, rndA: Cipher.Nonce, rndB: Cipher.Nonce, r: R.Device, reply: Frame) {
    var (s, c) := S.AnswerChallenge(cfg.suite, S.NewSession(S.PD, key), rndA, rndB, cfg.identity[..8]);
    c.Ok? && r.session == Some(s) && !R.Established(r) && reply.code == CCRYPT && reply.data == c.value
  }

  /** What the reader makes of a challenge: a cryptogram over a fresh session, or a refusal. */
  lemma ChallengeAnswered(bus: P.Bus, cfg: R.Config, l: Link, rndA: Cipher.Nonce, env: R.Env)
    requires Ready(bus, cfg, l) && SameAddress(l) && TameHandler(env) && l.panel.state == P.SecureHandshake
    requires HandshakeEnds(bus, cfg.suite, l.panel, l.reader) && l.panel.channel.pending.None?
    ensures var f := P.Next(bus, l.panel, rndA).1;
            && f.Some?
            && var (r1, reply) := R.Handle(cfg, l.reader, f.value, env);
            && reply.Ok? && reply.value.isReply && reply.value.address == l.panel.address && Sequence(reply.value.control) != 0
            && r1.key == l.reader.key && r1.address == l.reader.address
            && (if Timely(cfg, l) && cfg.secure then MeetsChallenge(cfg, l.reader.key, rndA, env.rndB, r1, reply.value)
                else r1.session == l.reader.session && reply.value.code == NAK)
  {
    hide Ready, P.Next, PR.InExchange, R.Handle, P.BaseKey, Sequence, P.SecureEstablished, Processed, TakesEffect, Timely, Counterpart, CheckOK, RR.Orderly,
      InTurn, R.Replays;
    HandshakeSends(bus, cfg, l, rndA);
    if Timely(cfg, l) {
      Afresh(bus, cfg, l, rndA, env);
      var f := P.Next(bus, l.panel, rndA).1.value;
      ChallengeHandled(cfg, l.reader, f, env);
      AnswerNumbered(cfg, l.reader, f, env);
      ChallengeNumbered(bus, cfg, l, rndA);
    } else {
      Refused(bus, cfg, l, rndA, env);
    }
  }

  lemma MetOrNot(cfg: R.Config, l: Link, rndA: Cipher.Nonce, env: R.Env, r: R.Device)
    ensures forall f: Frame :: MeetsChallenge(cfg, l.reader.key, rndA, env.rndB, r, f) ==> !R.Established(r)
  {
  }

  /** Sending a challenge keeps the handshake sound, whatever becomes of it at the reader. */
  lemma ChallengeKeeps(bus: P.Bus, su: S.Suite, p: P.Device, p1: P.Device, r: R.Device, r1: R.Device, rndA: Cipher.Nonce)
    requires HandshakeEnds(bus, su, p, r) && p.channel.pending.None?
    requires p1 == p.(queue := p1.queue, channel := p.channel.(session := Some(p.channel.session.value.(rndA := rndA, phase := S.Challenged))))
    requires r1.key == r.key && (r1.session == r.session || !R.Established(r1))
    ensures HandshakeEnds(bus, su, p1, r1)
  {
  }

  lemma ChallengeNumbered(bus: P.Bus, cfg: R.Config, l: Link, rndA: Cipher.Nonce)
    requires Ready(bus, cfg, l)
    ensures var f := P.Next(bus, l.panel, rndA).1; f.Some? && Sequence(f.value.control) != 0 && f.value.address == l.panel.address
  {
    hide Ready, P.Next, PR.InExchange, PR.Choice, CheckOK, Sequence, NextNumber, PR.Chosen, P.NextSequence;
    Emission(bus, cfg, l, rndA);
  }

  /** The panel hears the answer to its challenge. */
  lemma ChallengeHeard(bus: P.Bus, cfg: R.Config, l: Link, outcome: Outcome, rndA: Cipher.Nonce, env: R.Env)
    requires Underway(bus, cfg, l, outcome, rndA, env) && l.panel.state == P.SecureHandshake
    requires HandshakeEnds(bus, cfg.suite, l.panel, l.reader) && l.panel.channel.pending.None?
    requires Hears(bus, P.Next(bus, l.panel, rndA).0, Returned(bus, cfg, l, outcome, rndA, env))
    ensures var l' := RunExchange(bus, cfg, l, outcome, rndA, env);
            && Ends(bus, cfg.suite, l'.panel, l'.reader)
            && (cfg.secure && Timely(cfg, l) ==>
                  if P.BaseKey(bus, l.panel) == Some(l.reader.key) then l'.panel.state == P.SecureHandshake && l'.panel.channel.pending.Some?
                  else GivenUp(l'.panel))
    ensures Raised(bus, cfg, l, outcome, rndA, env) != P.BecameSecure && Raised(bus, cfg, l, outcome, rndA, env) != P.KeyInstalled
  {
    hide Ready, Unforged, RunExchange, P.Next, P.Conclude, P.Dispatch, PR.AtDispatch, PR.InExchange, R.Handle, TakesEffect, PR.Read, KeyAccepted, Ends,
      P.BaseKey, Counterpart, R.Established, MeetsChallenge, Sequence, CheckOK, P.SecureEstablished, Processed, RR.Orderly, Timely, Proof;
    HandshakeSends(bus, cfg, l, rndA);
    ChallengeAnswered(bus, cfg, l, rndA, env);
    Parts(bus, cfg, l, outcome, rndA, env);
    var p1 := P.Next(bus, l.panel, rndA).0;
    var l' := RunExchange(bus, cfg, l, outcome, rndA, env);
    var answer := Returned(bus, cfg, l, outcome, rndA, env);
    ReadPlain(bus, p1, answer.value);
    MetOrNot(cfg, l, rndA, env, l'.reader);
    ChallengeKeeps(bus, cfg.suite, l.panel, p1, l.reader, l'.reader, rndA);
    var m := PR.Read(bus, p1, answer.value).message;
    NothingAccepted(bus, p1, answer.value, m);
    ConcludeTurns(bus, p1, answer);
    ConcludeAddress(bus, p1, answer);
    HeardEvent(bus, p1, answer);
    var d := PR.AtDispatch(bus, p1, answer.value);
    SameHandshake(bus, cfg.suite, p1, d, l'.reader);
    ChallengeTurns(bus, cfg, d, l'.reader, rndA, env.rndB, m, Timely(cfg, l) && cfg.secure, answer.value);
    DispatchAddress(bus, d, m);
    SameEnds(bus, cfg.suite, P.Dispatch(bus, d, m).0, l'.panel, l'.reader);
  }

  /** The answer to a challenge, dispatched: a cryptogram to send, the end of the handshake, or nothing. */
  lemma ChallengeTurns(
    bus: P.Bus, cfg: R.Config, d: P.Device, r: R.Device, rndA: Cipher.Nonce, rndB: Cipher.Nonce, m: Message, met: bool, reply: Frame)
    requires bus.suite == cfg.suite && d.state == P.SecureHandshake && HandshakeEnds(bus, cfg.suite, d, r) && d.channel.pending.None?
    requires d.channel.session.value.phase == S.Challenged && d.channel.session.value.rndA == rndA
    requires m == Message(reply.code, reply.data) && P.Dispatch(bus, d, m).0.queue.sequence != 0
    requires if met then MeetsChallenge(cfg, r.key, rndA, rndB, r, reply) else m.code == NAK
    requires var base := d.channel.session.value.base; base != r.key ==> Proof(cfg.suite, base, rndA, rndB) != Proof(cfg.suite, r.key, rndA, rndB)
    ensures var (e, event) := P.Dispatch(bus, d, m);
            && Ends(bus, cfg.suite, e, r) && event != Ok(P.BecameSecure) && event != Ok(P.KeyInstalled)
            && (met ==> if d.channel.session.value.base == r.key then e.state == P.SecureHandshake && e.channel.pending.Some?
                        else GivenUp(e))
  {
    hide P.Dispatch, P.BaseKey, Counterpart, R.Established, S.AnswerChallenge, Proof, Ends, PlainEnds;
    var e := P.Dispatch(bus, d, m).0;
    if !met {
      HandshakeTurns(bus, cfg.suite, d, r, m);
    } else if d.channel.session.value.base == r.key {
      CryptogramTurns(bus, cfg.suite, d, r, rndB, cfg.identity[..8], m);
      HandshakeIsEnds(bus, cfg.suite, e, r);
    } else {
      CryptogramRejected(bus, cfg.suite, d, r, rndB, cfg.identity[..8], m);
      PlainIsEnds(bus, cfg.suite, e, r);
    }
  }

  lemma SameHandshake(bus: P.Bus, su: S.Suite, p: P.Device, q: P.Device, r: R.Device)
    requires HandshakeEnds(bus, su, p, r) && q == p.(queue := q.queue)
    ensures HandshakeEnds(bus, su, q, r)
  {
  }

  lemma HandshakeIsEnds(bus: P.Bus, su: S.Suite, p: P.Device, r: R.Device)
    ensures p.state == P.SecureHandshake && HandshakeEnds(bus, su, p, r) ==> Ends(bus, su, p, r)
  {
  }

  /** The panel and the reader after a handshake. */
  predicate TogetherSecure(p: P.Device, r: R.Device) {
    && p.state == P.Secure && p.channel.session.Some? && r.session.Some?
    && EstablishedAlike(p.channel.session.value, r.session.value)
  }

  lemma RmacTurns(bus: P.Bus, su: S.Suite, d: P.Device, t: S.Session, r: R.Device, m: Message)
    requires bus.suite == su && d.state == P.SecureHandshake && HandshakeEnds(bus, su, d, r) && d.channel.pending.None?
    requires var s := d.channel.session.value;
             && s.base == r.key && s.phase == S.Cryptogram && s.server == su.server(s.keys, s.rndA, s.rndB) && Counterpart(s, t)
             && var (t', c) := S.AnswerServerCryptogram(su, t, s.server);
             c.Ok? ==> r.session == Some(t') && m == Message(RMAC_I, c.value)
    ensures var (e, event) := P.Dispatch(bus, d, m);
            TogetherSecure(e, r) && SecureEnds(bus, e, r) && event == Ok(P.BecameSecure) && e.address == d.address
  {
    hide S.AnswerServerCryptogram, S.CompleteHandshake, P.BaseKey;
    RmacAgrees(su, d.channel.session.value, t);
    RmacDispatch(bus, d, m);
    SameKey(bus, d, P.Dispatch(bus, d, m).0);
  }

  /** What the reader makes of the cryptogram it expects: it is established, or it refuses. */
  lemma CryptogramAnswered(bus: P.Bus, cfg: R.Config, l: Link, rndA: Cipher.Nonce, env: R.Env)
    requires Ready(bus, cfg, l) && SameAddress(l) && TameHandler(env) && l.panel.state == P.SecureHandshake
    requires HandshakeEnds(bus, cfg.suite, l.panel, l.reader) && l.panel.channel.pending.Some?
    ensures var f := P.Next(bus, l.panel, rndA).1;
            && f.Some?
            && var (r1, reply) := R.Handle(cfg, l.reader, f.value, env);
            && reply.Ok? && reply.value.isReply && reply.value.address == l.panel.address && Sequence(reply.value.control) != 0
            && r1.key == l.reader.key && r1.address == l.reader.address
            && (if Timely(cfg, l) && cfg.secure then
                  var (s, c) := S.AnswerServerCryptogram(cfg.suite, l.reader.session.value, l.panel.channel.session.value.server);
                  c.Ok? && r1.session == Some(s) && reply.value.code == RMAC_I && reply.value.data == c.value
                else reply.value.code == NAK)
  {
    hide Ready, P.Next, PR.InExchange, R.Handle, P.BaseKey, Sequence, P.SecureEstablished, Processed, TakesEffect, Timely, CheckOK, RR.Orderly,
      InTurn, R.Replays, S.AnswerServerCryptogram;
    HandshakeSends(bus, cfg, l, rndA);
    RmacAgrees(cfg.suite, l.panel.channel.session.value, l.reader.session.value);
    if Timely(cfg, l) {
      Afresh(bus, cfg, l, rndA, env);
      var f := P.Next(bus, l.panel, rndA).1.value;
      CryptogramHandled(cfg, l.reader, f, env);
      AnswerNumbered(cfg, l.reader, f, env);
      ChallengeNumbered(bus, cfg, l, rndA);
    } else {
      Refused(bus, cfg, l, rndA, env);
    }
  }

  /** A server cryptogram and its answer. When the panel becomes secure the reader is established with the
      same keys and the same reply chain; one that gets through in its turn always gets there. */
  lemma CryptogramExchange(bus: P.Bus, cfg: R.Config, l: Link, outcome: Outcome, rndA: Cipher.Nonce, env: R.Env)
    requires Underway(bus, cfg, l, outcome, rndA, env) && l.panel.state == P.SecureHandshake
    requires HandshakeEnds(bus, cfg.suite, l.panel, l.reader) && l.panel.channel.pending.Some?
    ensures var l' := RunExchange(bus, cfg, l, outcome, rndA, env);
            && Ends(bus, cfg.suite, l'.panel, l'.reader)
            && (Raised(bus, cfg, l, outcome, rndA, env) == P.BecameSecure ==> TogetherSecure(l'.panel, l'.reader))
            && (cfg.secure && outcome.Delivered? && Timely(cfg, l) ==> Raised(bus, cfg, l, outcome, rndA, env) == P.BecameSecure)
    ensures Raised(bus, cfg, l, outcome, rndA, env) != P.KeyInstalled
  {
    hide Ready, Unforged, Unmistaken, RunExchange, P.Next, P.Conclude, P.Dispatch, PR.AtDispatch, PR.InExchange, R.Handle, TakesEffect, PR.Read, KeyAccepted, Ends,
      P.BaseKey, R.Established, S.AnswerServerCryptogram, Sequence, CheckOK, P.SecureEstablished, Processed, RR.Orderly, EstablishedAlike, Timely;
    HandshakeSends(bus, cfg, l, rndA);
    CryptogramAnswered(bus, cfg, l, rndA, env);
    Parts(bus, cfg, l, outcome, rndA, env);
    var p1 := P.Next(bus, l.panel, rndA).0;
    var l' := RunExchange(bus, cfg, l, outcome, rndA, env);
    var answer := Returned(bus, cfg, l, outcome, rndA, env);
    SameKey(bus, l.panel, p1);
    assert HandshakeEnds(bus, cfg.suite, p1, l'.reader);
    if answer.Some? {
      ReadPlain(bus, p1, answer.value);
    }
    if Hears(bus, p1, answer) {
      var m := PR.Read(bus, p1, answer.value).message;
      NothingAccepted(bus, p1, answer.value, m);
      ConcludeTurns(bus, p1, answer);
      ConcludeAddress(bus, p1, answer);
      HeardEvent(bus, p1, answer);
      var d := PR.AtDispatch(bus, p1, answer.value);
      SameHandshake(bus, cfg.suite, p1, d, l'.reader);
      var s := l.panel.channel.session.value;
      RmacAgrees(cfg.suite, s, l.reader.session.value);
      if m.code == RMAC_I {
        RmacTurns(bus, cfg.suite, d, l.reader.session.value, l'.reader, m);
        SecureIsEnds(bus, cfg.suite, P.Dispatch(bus, d, m).0, l'.reader);
      } else {
        HandshakeTurns(bus, cfg.suite, d, l'.reader, m);
      }
      DispatchAddress(bus, d, m);
      SameEnds(bus, cfg.suite, P.Dispatch(bus, d, m).0, l'.panel, l'.reader);
    } else {
      HandshakeIsEnds(bus, cfg.suite, p1, l'.reader);
      Unheard(bus, cfg.suite, p1, l'.reader, answer);
    }
  }

  lemma SecureIsEnds(bus: P.Bus, su: S.Suite, p: P.Device, r: R.Device)
    ensures p.state == P.Secure && SecureEnds(bus, p, r) ==> Ends(bus, su, p, r)
  {
  }

  // ----- Exchanges on the channel -----

  lemma SecureSends(bus: P.Bus, cfg: R.Config, l: Link, rndA: Cipher.Nonce)
    requires Ready(bus, cfg, l) && l.panel.state == P.Secure
    ensures var (p1, f) := P.Next(bus, l.panel, rndA);
            && PR.InExchange(p1) && f.Some? && P.SecureEstablished(l.panel) && P.SecureEstablished(p1)
            && p1 == l.panel.(queue := p1.queue, channel := p1.channel)
            && p1.channel == l.panel.channel.(session := p1.channel.session)
            && f.value.security.Some? && (f.value.security.value.kind == SCS_15 || f.value.security.value.kind == SCS_17)
            && f.value.code == PR.PlainChoice(l.panel).0.code
            && p1.queue.inflight == if PR.SendsHead(l.panel) then Some(l.panel.queue.outbox[0]) else None
  {
    hide RR.Orderly, P.Next, PR.InExchange, CheckOK, NewControl, Sequence, PR.Chosen, P.NextSequence, ValidAddress, PR.Owed, Lag, PR.PlainChoice,
      P.ComposeSealed, Untagged, Enciphered, MacOver, PR.Resting, PR.SendsHead, P.WithholdsKeySet;
    RR.BelowBroadcast(l.panel.address);
    PR.EmitsSealed(bus, l.panel, rndA);
    PR.NextEmits(bus, l.panel, rndA);
    PR.ChosenFacts(l.panel);
    SealedKinds(l.panel);
    PR.ComposeSealedCarries(bus, l.panel.(queue := PR.Chosen(l.panel)), PR.PlainChoice(l.panel).0, PR.PlainChoice(l.panel).1.value);
  }

  lemma InstallDispatch(cfg: R.Config, d: R.Device, m: Message, env: R.Env)
    requires m.code == KEYSET
    ensures var (e, answer) := R.Dispatch(cfg, d, m, true, env);
            if KeyIn(m).Some? then e == d.(adoptingKey := KeyIn(m)) && answer == Ack() else e == d && answer.code == NAK
  {
  }

  lemma KeyChoice(p: P.Device)
    requires p.state == P.Secure && PR.PlainChoice(p).0.code == KEYSET
    ensures PR.SendsHead(p) && p.queue.outbox != [] && PR.PlainChoice(p).0 == p.queue.outbox[0]
  {
  }

  /** Which key the reader holds once it has answered a sealed command. */
  predicate KeyAfter(p: P.Device, before: R.Device, after: R.Device, code: Octet, answer: Octet) {
    if code == KEYSET && answer == ACK then
      p.queue.outbox != [] && KeyIn(p.queue.outbox[0]) == Some(after.key) && after.session.None?
    else after.key == before.key
  }

  /** A sealed command handled afresh: refused in the clear, or opened to exactly the command the panel
      chose, carried out, and answered under seal. */
  lemma SealedFresh(bus: P.Bus, cfg: R.Config, l: Link, rndA: Cipher.Nonce, env: R.Env)
    requires Ready(bus, cfg, l) && SameAddress(l) && Fair(bus, cfg, l, rndA, env) && l.panel.state == P.Secure && !Processed(l) && Timely(cfg, l)
    ensures var f := P.Next(bus, l.panel, rndA).1;
            && f.Some?
            && var (r1, reply) := R.Handle(cfg, l.reader, f.value, env);
            && reply.Ok? && r1.cache.valid && r1.cache.reply == reply.value
            && reply.value.code != CCRYPT && reply.value.code != RMAC_I
            && (reply.value.security.None? ==>
                  r1.key == l.reader.key && (R.Established(r1) ==> R.Established(l.reader)) && !TakesEffect(cfg, l.reader, f.value, env))
            && (reply.value.security.Some? ==>
                  && R.Established(l.reader) && (TakesEffect(cfg, l.reader, f.value, env) <==> reply.value.code != BUSY)
                  && KeyAfter(l.panel, l.reader, r1, f.value.code, reply.value.code))
  {
    hide Ready, P.Next, R.Handle, TakesEffect, Sequence, Reaches, RR.Admitted, R.Dispatch, R.EncodeReply, SchemeOf, R.ReplyBlock, PR.PlainChoice,
      PR.SendsHead, RR.Orderly, RR.AfterDispatch, KeyAfter, P.SecureEstablished;
    SecureSends(bus, cfg, l, rndA);
    Afresh(bus, cfg, l, rndA, env);
    var f := P.Next(bus, l.panel, rndA).1.value;
    if RR.Admitted(cfg, l.reader, f).None? {
      SealedRefused(cfg, l.reader, f, env);
    } else {
      SealedAdmitted(cfg, l.reader, f, env);
      AdmittedOrderly(cfg, l.reader, f);
      SealedKeys(bus, cfg, l, rndA, env);
    }
  }

  lemma SealedKeys(bus: P.Bus, cfg: R.Config, l: Link, rndA: Cipher.Nonce, env: R.Env)
    requires Ready(bus, cfg, l) && SameAddress(l) && Fair(bus, cfg, l, rndA, env) && l.panel.state == P.Secure
    requires var f := P.Next(bus, l.panel, rndA).1;
             f.Some? && f.value.security.Some? && Handled(cfg, l.reader, f.value, env) && RR.Admitted(cfg, l.reader, f.value).Some?
    ensures var f := P.Next(bus, l.panel, rndA).1.value;
            var (r1, reply) := R.Handle(cfg, l.reader, f, env);
            reply.Ok? && KeyAfter(l.panel, l.reader, r1, f.code, reply.value.code)
  {
    hide Ready, P.Next, R.Handle, TakesEffect, Sequence, Reaches, RR.Admitted, R.Dispatch, R.EncodeReply, SchemeOf, R.ReplyBlock, PR.PlainChoice,
      PR.SendsHead, RR.Orderly, RR.AfterDispatch, P.SecureEstablished, KeyIn, R.Open;
    var f := P.Next(bus, l.panel, rndA).1.value;
    SecureSends(bus, cfg, l, rndA);
    SealedAdmitted(cfg, l.reader, f, env);
    if f.code == KEYSET {
      AdmittedExactly(bus, cfg, l, rndA, env);
      KeyChoice(l.panel);
      InstallDispatch(cfg, RR.Admitted(cfg, Noticed(l.reader, env), f).value.device, l.panel.queue.outbox[0], env);
    }
  }

  /** Barring forgery, what the reader admits is what the panel chose. */
  lemma AdmittedExactly(bus: P.Bus, cfg: R.Config, l: Link, rndA: Cipher.Nonce, env: R.Env)
    requires Ready(bus, cfg, l) && SameAddress(l) && Fair(bus, cfg, l, rndA, env) && l.panel.state == P.Secure
    requires var f := P.Next(bus, l.panel, rndA).1; f.Some? && f.value.security.Some? && RR.Admitted(cfg, l.reader, f.value).Some?
    ensures var f := P.Next(bus, l.panel, rndA).1.value;
            var a := RR.Admitted(cfg, Noticed(l.reader, env), f);
            a.Some? && a.value.message == PR.PlainChoice(l.panel).0 && InSync(l.panel, l.reader) && cfg.secure
  {
    hide RR.Orderly, P.Next, PR.PlainChoice, PR.Chosen, P.NextSequence, R.Open, NextMac, PR.Resting, Lag, P.WithholdsKeySet, InSync, ValidAddress;
    RR.BelowBroadcast(l.panel.address);
    var f := P.Next(bus, l.panel, rndA).1.value;
    AdmittedNoticed(cfg, l.reader, f, env);
    CommandAdmitted(bus, cfg, l.panel, l.reader, rndA);
  }

  /** The key the reader holds, given a command and a sealed answer to it. */
  predicate KeyHeld(bus: P.Bus, p: P.Device, r: R.Device, code: Octet, answer: Octet) {
    if code == KEYSET && answer == ACK then
      p.queue.outbox != [] && KeyIn(p.queue.outbox[0]) == Some(r.key) && r.session.None?
    else P.BaseKey(bus, p) == Some(r.key)
  }

  /** The same, for an answer waiting to be repeated. */
  predicate OwedKey(bus: P.Bus, l: Link) {
    Processed(l) && l.panel.state == P.Secure && l.panel.queue.outbox != [] && l.reader.cache.reply.security.Some? ==>
      KeyHeld(bus, l.panel, l.reader, l.panel.queue.outbox[0].code, l.reader.cache.reply.code)
  }

  lemma SecureReaderKept(bus: P.Bus, cfg: R.Config, l: Link, rndA: Cipher.Nonce, env: R.Env)
    requires Ready(bus, cfg, l) && SameAddress(l) && Fair(bus, cfg, l, rndA, env) && l.panel.state == P.Secure
    requires SecureEnds(bus, l.panel, l.reader) && TameCache(l) && OwedKey(bus, l)
    ensures var f := P.Next(bus, l.panel, rndA).1;
            && f.Some?
            && var (r1, reply) := R.Handle(cfg, l.reader, f.value, env);
            && reply.Ok? && r1.cache.valid && r1.cache.reply == reply.value
            && reply.value.code != CCRYPT && reply.value.code != RMAC_I
            && (R.Established(r1) ==> P.BaseKey(bus, l.panel) == Some(r1.key))
            && (reply.value.security.Some? ==> KeyHeld(bus, l.panel, r1, f.value.code, reply.value.code))
            && (if Processed(l) then !TakesEffect(cfg, l.reader, f.value, env) && reply.value == l.reader.cache.reply
                else if reply.value.security.None? then !TakesEffect(cfg, l.reader, f.value, env)
                else TakesEffect(cfg, l.reader, f.value, env) <==> reply.value.code != BUSY)
  {
    hide Ready, P.Next, R.Handle, TakesEffect, P.BaseKey, Fair, PR.PlainChoice, P.SecureEstablished, KeyIn, Timely, Sequence;
    FairTame(bus, cfg, l, rndA, env);
    SecureSends(bus, cfg, l, rndA);
    if Processed(l) {
      Replayed(bus, cfg, l, rndA, env);
      RepeatSendsHead(bus, cfg, l);
    } else if !Timely(cfg, l) {
      Refused(bus, cfg, l, rndA, env);
    } else {
      SealedFresh(bus, cfg, l, rndA, env);
      var reply := R.Handle(cfg, l.reader, P.Next(bus, l.panel, rndA).1.value, env).1;
      assert reply.value.security.None? || reply.value.security.Some?;
    }
  }

  lemma RepeatSendsHead(bus: P.Bus, cfg: R.Config, l: Link)
    requires Ready(bus, cfg, l) && Processed(l)
    ensures l.panel.queue.outbox != [] && PR.SendsHead(l.panel)
    ensures l.panel.state == P.Secure ==> PR.PlainChoice(l.panel).0 == l.panel.queue.outbox[0]
  {
    hide RR.Orderly, Lag;
  }

  /** An acknowledgement that confirms a key answers a key set, whose key the reader has taken. */
  lemma AcceptedKey(bus: P.Bus, cfg: R.Config, l: Link, rndA: Cipher.Nonce, r: R.Device, f: Frame, m: Message)
    requires Ready(bus, cfg, l) && l.panel.state == P.Secure
    requires var (p1, sent) := P.Next(bus, l.panel, rndA);
             sent.Some? && KeyAccepted(PR.AtDispatch(bus, p1, f), m) && KeyHeld(bus, l.panel, r, sent.value.code, m.code)
    ensures l.panel.channel.pendingKey.Some? && l.panel.queue.outbox != [] && l.panel.queue.outbox[0].code == KEYSET
    ensures KeyIn(l.panel.queue.outbox[0]) == Some(r.key) && r.session.None?
  {
    hide Ready, P.Next, P.BaseKey, KeyIn, P.OpenReply, PR.InExchange;
    SecureSends(bus, cfg, l, rndA);
    PR.AtDispatchChannel(bus, P.Next(bus, l.panel, rndA).0, f);
  }

  lemma SecureTurns(bus: P.Bus, su: S.Suite, d: P.Device, r: R.Device, m: Message)
    requires d.state == P.Secure && SecureEnds(bus, d, r) && m.code != CCRYPT && m.code != RMAC_I
    requires m.code != ACK ==> P.BaseKey(bus, d) == Some(r.key)
    requires KeyAccepted(d, m) ==> r.session.None?
    requires P.Dispatch(bus, d, m).0.queue.sequence != 0
    ensures Ends(bus, su, P.Dispatch(bus, d, m).0, r)
    ensures P.Dispatch(bus, d, m).1 != Ok(P.BecameSecure)
    ensures P.Dispatch(bus, d, m).1 == Ok(P.KeyInstalled) ==>
              var e := P.Dispatch(bus, d, m).0; KeyAccepted(d, m) && e.channel.installedKey == d.channel.pendingKey && e.channel.session.None?
  {
    hide P.Dispatch, P.AwaitingKeySet, P.OnCapabilities;
    if m.code == PDCAP {
      CapabilitiesDispatch(bus, d, m);
      CapabilitiesAgain(bus, su, d, r, m.data);
    } else if m.code == PDID {
      IdentityDispatch(bus, d, m);
    } else {
      DispatchTurns(bus, d, m);
    }
  }

  /** A capability report on an open channel starts a new handshake, or leaves the panel stuck. */
  lemma CapabilitiesAgain(bus: P.Bus, su: S.Suite, d: P.Device, r: R.Device, data: seq<Octet>)
    requires d.state == P.Secure && SecureEnds(bus, d, r) && P.BaseKey(bus, d) == Some(r.key)
    ensures Ends(bus, su, P.OnCapabilities(bus, d, data).0, r)
    ensures P.OnCapabilities(bus, d, data).1 != Ok(P.BecameSecure) && P.OnCapabilities(bus, d, data).1 != Ok(P.KeyInstalled)
  {
    hide ParseCapabilities, ClaimsSecureChannel, R.Established;
  }

  lemma ReadSealed(bus: P.Bus, p: P.Device, f: Frame)
    requires P.SecureEstablished(p) && PR.Read(bus, p, f).Answer?
    ensures f.security.Some? && PR.Read(bus, p, f).message.code == f.code
  {
    hide Sequence;
  }

  /** The reader holds the key the panel has installed, and neither end the old session. */
  predicate KeyAgreed(p: P.Device, r: R.Device) {
    p.channel.installedKey == Some(r.key) && p.channel.session.None? && r.session.None?
  }

  /** What an announced install comes to: the reader holds the key of the key set answered, the panel the one it awaited,
      and neither end the old session. */
  predicate KeyTaken(l: Link, l': Link) {
    && l.panel.queue.outbox != [] && l.panel.queue.outbox[0].code == KEYSET && KeyIn(l.panel.queue.outbox[0]) == Some(l'.reader.key)
    && l.panel.channel.pendingKey.Some? && l'.panel.channel.installedKey == l.panel.channel.pendingKey
    && l'.panel.channel.session.None? && l'.reader.session.None?
  }

  lemma SecureExchange(bus: P.Bus, cfg: R.Config, l: Link, outcome: Outcome, rndA: Cipher.Nonce, env: R.Env)
    requires Underway(bus, cfg, l, outcome, rndA, env) && l.panel.state == P.Secure && SecureEnds(bus, l.panel, l.reader)
    requires TameCache(l) && OwedKey(bus, l)
    ensures var l' := RunExchange(bus, cfg, l, outcome, rndA, env);
            && Ends(bus, cfg.suite, l'.panel, l'.reader)
            && (Raised(bus, cfg, l, outcome, rndA, env) == P.KeyInstalled ==> KeyTaken(l, l'))
    ensures Raised(bus, cfg, l, outcome, rndA, env) != P.BecameSecure
  {
    hide Ready, Fair, RunExchange, P.Next, P.Conclude, P.Dispatch, PR.AtDispatch, PR.InExchange, R.Handle, TakesEffect, PR.Read, KeyAccepted, Ends,
      P.BaseKey, R.Established, TameCache, OwedKey, PR.PlainChoice, KeyIn;
    SecureSends(bus, cfg, l, rndA);
    SecureReaderKept(bus, cfg, l, rndA, env);
    Parts(bus, cfg, l, outcome, rndA, env);
    var (p1, fo) := P.Next(bus, l.panel, rndA);
    var l' := RunExchange(bus, cfg, l, outcome, rndA, env);
    var answer := Returned(bus, cfg, l, outcome, rndA, env);
    SameKey(bus, l.panel, p1);
    if Hears(bus, p1, answer) {
      var m := PR.Read(bus, p1, answer.value).message;
      ReadSealed(bus, p1, answer.value);
      ConcludeTurns(bus, p1, answer);
      ConcludeAddress(bus, p1, answer);
      HeardEvent(bus, p1, answer);
      PR.AtDispatchChannel(bus, p1, answer.value);
      var d := PR.AtDispatch(bus, p1, answer.value);
      SameKey(bus, p1, d);
      if KeyAccepted(d, m) {
        AcceptedKey(bus, cfg, l, rndA, l'.reader, answer.value, m);
      }
      SecureTurns(bus, cfg.suite, d, l'.reader, m);
      DispatchAddress(bus, d, m);
      SameEnds(bus, cfg.suite, P.Dispatch(bus, d, m).0, l'.panel, l'.reader);
    } else {
      SecureIsEnds(bus, cfg.suite, p1, l'.reader);
      Unheard(bus, cfg.suite, p1, l'.reader, answer);
    }
  }

  // ----- Which commands have taken effect -----

  /** The panel will take this frame as the answer to the command in flight. */
  predicate Counts(p: P.Device, f: Frame) {
    f.code != BUSY && (P.SecureEstablished(p) ==> f.security.Some?)
  }

  lemma AnsweredCounts(bus: P.Bus, p: P.Device, answer: Option<Frame>)
    requires PR.Answered(bus, p, answer)
    ensures answer.Some? && Counts(p, answer.value)
  {
    hide PR.Read, P.SecureEstablished;
    ReadCode(bus, p, answer.value);
    if P.SecureEstablished(p) {
      ReadSealed(bus, p, answer.value);
    }
  }

  /** An answer waiting to be repeated, which will count, belongs to a command that took effect. */
  predicate OwedEffect(l: Link) {
    Processed(l) && Counts(l.panel, l.reader.cache.reply) ==> EffectPending(l)
  }

  predicate StuckOwes(l: Link) {
    Processed(l) && Stuck(l.panel) ==> l.reader.cache.reply.security.None?
  }

  /** What is known of an answer that is still outstanding. */
  predicate Outstanding(bus: P.Bus, l: Link) {
    TameCache(l) && OwedKey(bus, l) && StuckOwes(l) && OwedEffect(l)
  }

  /** Everything the two ends keep in common between exchanges. */
  ghost predicate Agreed(bus: P.Bus, cfg: R.Config, l: Link) {
    && Ready(bus, cfg, l) && AtMostOnce(l)
    && (SameAddress(l) ==> Ends(bus, cfg.suite, l.panel, l.reader) && Outstanding(bus, l))
    && Exact(l)
  }

  /** The reader has carried out the commands answered, as they were handed in and in that order, and the one whose
      answer is outstanding if it has. */
  predicate Exact(l: Link) {
    && |l.effects| == l.answered + (if EffectPending(l) then 1 else 0) && |l.effects| <= |l.accepted|
    && forall i :: 0 <= i < |l.effects| ==> l.effects[i] == Effect(i, l.accepted[i])
  }

  /** A strict reader refuses a command that does not follow the number it last answered, and without a channel the
      panel takes the refusal for an answer. */
  predicate NoRefusal(cfg: R.Config, l: Link) {
    cfg.strict && l.missed && !l.panel.queue.repeatSequence && PR.SendsHead(l.panel) ==>
      l.panel.state != P.Online || l.panel.channel.session.Some?
  }

  /** Whatever phase the link is in, an answer that will count comes from a command that took effect. */
  lemma EffectCounted(bus: P.Bus, cfg: R.Config, l: Link, rndA: Cipher.Nonce, env: R.Env)
    requires Agreed(bus, cfg, l) && SameAddress(l) && Fair(bus, cfg, l, rndA, env) && NoRefusal(cfg, l)
    ensures var (p1, f) := P.Next(bus, l.panel, rndA);
            && f.Some? && P.SecureEstablished(p1) == P.SecureEstablished(l.panel) && p1.state == l.panel.state
            && (p1.queue.inflight.Some? ==>
                  var (r1, reply) := R.Handle(cfg, l.reader, f.value, env);
                  && reply.Ok? && r1.cache.valid && r1.cache.reply == reply.value
                  && reply.value.code != CCRYPT && reply.value.code != RMAC_I
                  && (Stuck(l.panel) ==> reply.value.security.None?)
                  && (Counts(p1, reply.value) ==> EffectPending(l) || TakesEffect(cfg, l.reader, f.value, env)))
  {
    hide Ready, Fair, P.Next, R.Handle, TakesEffect, P.BaseKey, R.Established, PR.InExchange, TameCache, OwedKey, PlainEnds, SecureEnds,
      HandshakeEnds, Processed, SameAddress, PR.PlainChoice, PR.SendsHead, AtMostOnce, P.Established, Exact, EffectPending, Timely, NoRefusal;
    FairTame(bus, cfg, l, rndA, env);
    if l.panel.state == P.Secure {
      SecureSends(bus, cfg, l, rndA);
      SecureReaderKept(bus, cfg, l, rndA, env);
    } else if l.panel.state == P.SecureHandshake {
      HandshakeSends(bus, cfg, l, rndA);
      NothingInHandshake(bus, cfg, l, rndA);
    } else {
      PlainSends(bus, cfg, l, rndA);
      if Stuck(l.panel) {
        StuckReaderKept(bus, cfg, l, rndA, env);
      } else {
        PlainReaderKept(bus, cfg, l, rndA, env);
        if P.Next(bus, l.panel, rndA).0.queue.inflight.Some? && !Processed(l) {
          PlainTimely(bus, cfg, l, rndA);
        }
      }
    }
  }

  /** Without a channel, an application command that is sent is in its turn. */
  lemma PlainTimely(bus: P.Bus, cfg: R.Config, l: Link, rndA: Cipher.Nonce)
    requires Ready(bus, cfg, l) && SameAddress(l) && !Processed(l) && NoRefusal(cfg, l)
    requires Plainly(l.panel) && PlainEnds(l.panel, l.reader) && P.Next(bus, l.panel, rndA).0.queue.inflight.Some?
    ensures Timely(cfg, l)
  {
    hide Processed, SameAddress, RR.Orderly, P.Next, P.NextSequence, CheckOK, Sequence, PR.Owed, PR.Resting, Lag, R.Established, Timely, P.WithholdsKeySet;
    RR.BelowBroadcast(l.panel.address);
    PR.NextEmits(bus, l.panel, rndA);
    PR.ChosenFacts(l.panel);
    TimelyExactly(bus, cfg, l);
  }

  lemma FairTame(bus: P.Bus, cfg: R.Config, l: Link, rndA: Cipher.Nonce, env: R.Env)
    requires Fair(bus, cfg, l, rndA, env)
    ensures TameHandler(env)
  {
    hide Unforged, Unmistaken;
  }

  lemma NothingInHandshake(bus: P.Bus, cfg: R.Config, l: Link, rndA: Cipher.Nonce)
    requires Ready(bus, cfg, l) && l.panel.state == P.SecureHandshake
    ensures P.Next(bus, l.panel, rndA).0.queue.inflight.None? && P.SecureEstablished(l.panel) == false
  {
    hide RR.Orderly, P.Next, P.NextSequence, CheckOK, Sequence, PR.Owed, PR.Resting, Lag;
    RR.BelowBroadcast(l.panel.address);
    PR.NextEmits(bus, l.panel, rndA);
    PR.ChosenFacts(l.panel);
  }

  /** What the reader carries out of the application's is the head of the queue, payload and all. */
  lemma PerformedExactly(bus: P.Bus, cfg: R.Config, l: Link, rndA: Cipher.Nonce, env: R.Env)
    requires Ready(bus, cfg, l) && SameAddress(l) && Fair(bus, cfg, l, rndA, env)
    requires var (p1, f) := P.Next(bus, l.panel, rndA);
             f.Some? && p1.queue.inflight.Some? && TakesEffect(cfg, l.reader, f.value, env)
    ensures l.panel.queue.outbox != [] && Performed(cfg, l.reader, P.Next(bus, l.panel, rndA).1.value, env) == l.panel.queue.outbox[0]
  {
    hide Fair, P.Next, TakesEffect, Performed, PR.PlainChoice, PR.SendsHead, RR.Admitted, PR.InExchange;
    var f := P.Next(bus, l.panel, rndA).1.value;
    PerformedAdmitted(bus, cfg, l, rndA, env);
    SentChoice(bus, cfg, l, rndA);
    if l.panel.state == P.Secure {
      hide Ready;
      SecureSends(bus, cfg, l, rndA);
      AdmittedNoticed(cfg, l.reader, f, env);
      AdmittedExactly(bus, cfg, l, rndA, env);
    } else {
      PlainSends(bus, cfg, l, rndA);
      PlainFrame(bus, cfg, l, rndA);
      PlainAdmitted(cfg, Noticed(l.reader, env), f);
    }
  }

  lemma PerformedAdmitted(bus: P.Bus, cfg: R.Config, l: Link, rndA: Cipher.Nonce, env: R.Env)
    requires Ready(bus, cfg, l) && P.Next(bus, l.panel, rndA).1.Some? && TakesEffect(cfg, l.reader, P.Next(bus, l.panel, rndA).1.value, env)
    ensures var f := P.Next(bus, l.panel, rndA).1.value;
            var a := RR.Admitted(cfg, Noticed(l.reader, env), f);
            a.Some? && Performed(cfg, l.reader, f, env) == a.value.message
  {
    hide RR.Orderly, PR.Settled, PR.InExchange, CheckOK, Sequence, P.Next, PR.Choice, PR.Chosen, P.NextSequence, NextNumber, Rotate, RR.Admitted, R.Dispatch,
      Lag;
    Emission(bus, cfg, l, rndA);
  }

  /** An application command in flight is the one chosen, and the panel is online or secure. */
  lemma SentChoice(bus: P.Bus, cfg: R.Config, l: Link, rndA: Cipher.Nonce)
    requires Ready(bus, cfg, l) && P.Next(bus, l.panel, rndA).0.queue.inflight.Some?
    ensures l.panel.queue.outbox != [] && PR.PlainChoice(l.panel).0 == l.panel.queue.outbox[0]
    ensures l.panel.state == P.Secure || Plainly(l.panel)
  {
    hide RR.Orderly, P.Next, P.NextSequence, CheckOK, Sequence, PR.Owed, PR.Resting, Lag, P.WithholdsKeySet, PR.InStep;
    RR.BelowBroadcast(l.panel.address);
    PR.NextEmits(bus, l.panel, rndA);
    PR.ChosenFacts(l.panel);
  }

  lemma PlainFrame(bus: P.Bus, cfg: R.Config, l: Link, rndA: Cipher.Nonce)
    requires Ready(bus, cfg, l) && Plainly(l.panel)
    ensures var f := P.Next(bus, l.panel, rndA).1; f.Some? && Message(f.value.code, f.value.data) == PR.PlainChoice(l.panel).0
  {
    hide RR.Orderly, P.Next, CheckOK, NewControl, Sequence, PR.Chosen, P.NextSequence, ValidAddress, PR.Resting, Lag, PR.PlainChoice;
    RR.BelowBroadcast(l.panel.address);
    PR.EmitsPlain(bus, l.panel, rndA);
  }

  lemma PlainAdmitted(cfg: R.Config, d: R.Device, f: Frame)
    requires f.security.None? && RR.Admitted(cfg, d, f).Some?
    ensures RR.Admitted(cfg, d, f).value.message == Message(f.code, f.data)
  {
  }
}
