/** The agreement of the two ends over whole runs: exactly once, and what each announcement of the panel
    means for the reader. Sections 5.7 and 7.2 of SIA OSDP v2.2.2. */
module AgreementRuns {
  import opened Octets
  import opened Frames
  import opened Messages
  import opened Links
  import opened LinkRuns
  import opened Agreement
  import Cipher
  import S = Sessions
  import P = Panel
  import PR = PanelRuns
  import R = Reader
  import RR = ReaderRuns

  // ----- One exchange keeps the agreement -----

  lemma Ledger(bus: P.Bus, cfg: R.Config, l: Link, outcome: Outcome, rndA: Cipher.Nonce, env: R.Env)
    requires P.Next(bus, l.panel, rndA).1.Some?
    ensures var l' := RunExchange(bus, cfg, l, outcome, rndA, env);
            var (p1, f) := P.Next(bus, l.panel, rndA);
            var answer := Returned(bus, cfg, l, outcome, rndA, env);
            && l'.accepted == l.accepted
            && if outcome.CommandLost? then
              answer.None? && l'.answered == l.answered && l'.effects == l.effects && l'.missed == (l.missed || !l.panel.queue.repeatSequence)
            else
              && !l'.missed
              && l'.answered == (if p1.queue.inflight.Some? && PR.Answered(bus, p1, answer) then l.answered + 1 else l.answered)
              && l'.effects == (if p1.queue.inflight.Some? && TakesEffect(cfg, l.reader, f.value, env) then
                                l.effects + [Effect(l.answered, Performed(cfg, l.reader, f.value, env))]
                              else l.effects)
  {
    hide P.Next, P.Conclude, R.Handle, PR.Answered, TakesEffect, Performed;
  }

  /** A repeat is pending only when the panel heard nothing, and then state and channel are as it sent the
      command. */
  lemma RepeatUnheard(bus: P.Bus, p: P.Device, answer: Option<Frame>)
    requires PR.InExchange(p) && P.Conclude(bus, p, answer).0.queue.repeatSequence
    ensures p.queue.inflight.Some? && !Hears(bus, p, answer) && !PR.Answered(bus, p, answer)
    ensures P.Conclude(bus, p, answer).0.queue.outbox == PR.Owed(p.queue)
  {
    hide PR.InExchange, P.Reply, PR.Read, P.Dispatch, PR.AtDispatch, P.Timeout, PR.Owed, PR.QueueAfterDispatch, P.Delivered, PR.Settled;
    PR.ConcludeSettles(bus, p, answer);
    if Hears(bus, p, answer) {
      var m := PR.Read(bus, p, answer.value).message;
      PR.ReplyIsDispatch(bus, p, answer.value);
      PR.ReplyQueue(bus, p, answer.value);
      BusyDispatch(bus, PR.AtDispatch(bus, p, answer.value), m);
      StillBusy(p);
      PR.AnswerOwed(p.queue.(misses := 0), m);
    }
  }

  lemma BusyDispatch(bus: P.Bus, d: P.Device, m: Message)
    requires m.code == BUSY
    ensures P.Dispatch(bus, d, m).1.Ok?
  {
  }

  lemma StillBusy(p: P.Device)
    requires PR.InExchange(p)
    ensures PR.Busy(p.queue.(misses := 0))
  {
  }

  /** An exchange leaves the effects exact: what the panel counts as answered took effect, as it was handed in. */
  lemma ExchangeCounted(bus: P.Bus, cfg: R.Config, l: Link, outcome: Outcome, rndA: Cipher.Nonce, env: R.Env)
    requires Agreed(bus, cfg, l) && SameAddress(l) && Fair(bus, cfg, l, rndA, env) && (!outcome.CommandLost? ==> NoRefusal(cfg, l))
    requires RunExchange(bus, cfg, l, outcome, rndA, env).panel.queue.sequence != 0
    ensures Exact(RunExchange(bus, cfg, l, outcome, rndA, env))
  {
    hide Ready, Fair, P.Next, R.Handle, TakesEffect, Ends, Outstanding, SameAddress, RunExchange, PR.Answered, Counts, Stuck, P.SecureEstablished,
      NoRefusal, Performed, InSubmissionOrder, Accepted;
    Effects(bus, cfg, l, outcome, rndA, env);
    SendsAlike(bus, cfg, l, rndA);
    Ledger(bus, cfg, l, outcome, rndA, env);
    var (p1, f) := P.Next(bus, l.panel, rndA);
    if !outcome.CommandLost? && p1.queue.inflight.Some? {
      EffectCounted(bus, cfg, l, rndA, env);
      var answer := Returned(bus, cfg, l, outcome, rndA, env);
      if PR.Answered(bus, p1, answer) {
        AnsweredCounts(bus, p1, answer);
      }
      if TakesEffect(cfg, l.reader, f.value, env) {
        PerformedExactly(bus, cfg, l, rndA, env);
        assert l.accepted[l.answered..][0] == l.accepted[l.answered];
      }
    }
  }

  /** No command in effect with its answer outstanding takes effect again. */
  lemma Effects(bus: P.Bus, cfg: R.Config, l: Link, outcome: Outcome, rndA: Cipher.Nonce, env: R.Env)
    requires Ready(bus, cfg, l) && AtMostOnce(l) && RunExchange(bus, cfg, l, outcome, rndA, env).panel.queue.sequence != 0
    ensures EffectPending(l) ==> RunExchange(bus, cfg, l, outcome, rndA, env).effects == l.effects
  {
    hide RunExchange, Sound, AtMostOnce, Lag, ValidAddress, EffectPending;
    RR.BelowBroadcast(l.panel.address);
    ExchangeEffects(bus, cfg, l, outcome, rndA, env);
  }

  /** Sending a command changes neither the state nor whether the session is established. */
  lemma SendsAlike(bus: P.Bus, cfg: R.Config, l: Link, rndA: Cipher.Nonce)
    requires Ready(bus, cfg, l)
    ensures var (p1, f) := P.Next(bus, l.panel, rndA);
            f.Some? && P.SecureEstablished(p1) == P.SecureEstablished(l.panel) && p1.state == l.panel.state
  {
    hide RR.Orderly, PR.Settled, PR.InExchange, Carries, Sequence, P.Next, PR.Owed, PR.Choice, Lag, P.SecureEstablished;
    RR.BelowBroadcast(l.panel.address);
    PR.NextEmits(bus, l.panel, rndA);
  }

  /** What is owed after an exchange that left a repeat pending. */
  lemma ExchangeOwes(bus: P.Bus, cfg: R.Config, l: Link, outcome: Outcome, rndA: Cipher.Nonce, env: R.Env)
    requires Agreed(bus, cfg, l) && Underway(bus, cfg, l, outcome, rndA, env) && (!outcome.CommandLost? ==> NoRefusal(cfg, l))
    ensures var l' := RunExchange(bus, cfg, l, outcome, rndA, env); TameCache(l') && StuckOwes(l') && OwedEffect(l')
  {
    hide Ready, Fair, P.Next, R.Handle, TakesEffect, AtMostOnce, Ends, OwedKey, RunExchange, PR.Answered, P.Conclude, PR.InExchange,
      P.BaseKey, Hears, PR.Owed, P.Established, NoRefusal, Performed, Exact;
    SendsAlike(bus, cfg, l, rndA);
    if !outcome.CommandLost? {
      EffectCounted(bus, cfg, l, rndA, env);
    }
    Ledger(bus, cfg, l, outcome, rndA, env);
    Parts(bus, cfg, l, outcome, rndA, env);
    Emission(bus, cfg, l, rndA);
    AgreedParts(bus, cfg, l);
    Effects(bus, cfg, l, outcome, rndA, env);
    var p1 := P.Next(bus, l.panel, rndA).0;
    var l' := RunExchange(bus, cfg, l, outcome, rndA, env);
    var answer := Returned(bus, cfg, l, outcome, rndA, env);
    if Processed(l') {
      RepeatUnheard(bus, p1, answer);
      ConcludeTurns(bus, p1, answer);
      ConcludeAddress(bus, p1, answer);
    }
  }

  lemma ExchangeOwesKey(bus: P.Bus, cfg: R.Config, l: Link, outcome: Outcome, rndA: Cipher.Nonce, env: R.Env)
    requires Agreed(bus, cfg, l) && Underway(bus, cfg, l, outcome, rndA, env)
    ensures OwedKey(bus, RunExchange(bus, cfg, l, outcome, rndA, env))
  {
    hide Ready, Fair, P.Next, R.Handle, TakesEffect, AtMostOnce, Ends, RunExchange, PR.Answered, P.Conclude, PR.InExchange, P.BaseKey, Hears,
      KeyIn, SecureEnds, TameCache, StuckOwes, OwedEffect, PR.PlainChoice, PR.SendsHead, KeyHeld, P.SecureEstablished;
    var l' := RunExchange(bus, cfg, l, outcome, rndA, env);
    Emission(bus, cfg, l, rndA);
    Ledger(bus, cfg, l, outcome, rndA, env);
    Parts(bus, cfg, l, outcome, rndA, env);
    var (p1, f) := P.Next(bus, l.panel, rndA);
    var answer := Returned(bus, cfg, l, outcome, rndA, env);
    if Processed(l') && l'.panel.state == P.Secure && l'.panel.queue.outbox != [] && l'.reader.cache.reply.security.Some? {
      RepeatUnheard(bus, p1, answer);
      ConcludeTurns(bus, p1, answer);
      ConcludeAddress(bus, p1, answer);
      OwedOutbox(bus, cfg, l, rndA);
      SecureSends(bus, cfg, l, rndA);
      SecureChoice(l.panel);
      if !outcome.CommandLost? {
        EndsSecure(bus, cfg.suite, l.panel, l.reader);
        SecureReaderKept(bus, cfg, l, rndA, env);
      }
      SameKeyHeld(bus, l.panel, l'.panel, l'.reader, l'.panel.queue.outbox[0].code, l'.reader.cache.reply.code);
    }
  }

  lemma OwedOutbox(bus: P.Bus, cfg: R.Config, l: Link, rndA: Cipher.Nonce)
    requires Ready(bus, cfg, l)
    ensures PR.Owed(P.Next(bus, l.panel, rndA).0.queue) == l.panel.queue.outbox
  {
    hide RR.Orderly, PR.Settled, PR.InExchange, Carries, Sequence, P.Next, PR.Owed, PR.Choice, Lag;
    RR.BelowBroadcast(l.panel.address);
    PR.NextEmits(bus, l.panel, rndA);
  }

  lemma SecureChoice(p: P.Device)
    requires p.state == P.Secure
    ensures PR.SendsHead(p) ==> p.queue.outbox != [] && PR.PlainChoice(p).0 == p.queue.outbox[0]
  {
  }

  lemma EndsSecure(bus: P.Bus, su: S.Suite, p: P.Device, r: R.Device)
    requires Ends(bus, su, p, r) && p.state == P.Secure
    ensures SecureEnds(bus, p, r)
  {
  }

  lemma SameKeyHeld(bus: P.Bus, p: P.Device, q: P.Device, r: R.Device, code: Octet, answer: Octet)
    requires q.queue.outbox == p.queue.outbox && q.address == p.address && q.channel.installedKey == p.channel.installedKey
    ensures KeyHeld(bus, p, r, code, answer) == KeyHeld(bus, q, r, code, answer)
  {
  }

  // ----- The install outstanding -----

  lemma DispatchPendingKey(bus: P.Bus, d: P.Device, m: Message)
    ensures var e := P.Dispatch(bus, d, m).0; e.channel.pendingKey == d.channel.pendingKey || e.channel.pendingKey.None?
  {
    hide PR.Status.Report, S.AnswerCryptogram, S.CompleteHandshake, ParseCapabilities, ParseContacts, ParseLocalStatus, ClaimsSecureChannel,
      WholeCardRead, WholeKeypadEntry, P.AwaitingKeySet, P.Reclaim, P.BaseKey, P.Restart;
  }

  /** An exchange forgets an outstanding install or keeps it; it never makes one up. */
  lemma ExchangePendingKey(bus: P.Bus, p: P.Device, answer: Option<Frame>)
    requires PR.InExchange(p) && P.Conclude(bus, p, answer).0.queue.sequence != 0
    ensures var k := P.Conclude(bus, p, answer).0.channel.pendingKey; k == p.channel.pendingKey || k.None?
  {
    hide PR.InExchange, P.Conclude, PR.Read, P.Dispatch, PR.AtDispatch;
    ConcludeTurns(bus, p, answer);
    if Hears(bus, p, answer) {
      PR.AtDispatchChannel(bus, p, answer.value);
      DispatchPendingKey(bus, PR.AtDispatch(bus, p, answer.value), PR.Read(bus, p, answer.value).message);
    }
  }

  lemma NextPendingKey(bus: P.Bus, cfg: R.Config, l: Link, rndA: Cipher.Nonce)
    requires Ready(bus, cfg, l)
    ensures P.Next(bus, l.panel, rndA).0.channel.pendingKey == l.panel.channel.pendingKey
  {
    hide Ready, P.Next, PR.InExchange, PR.PlainChoice, PR.SendsHead, Processed;
    if l.panel.state == P.Secure {
      SecureSends(bus, cfg, l, rndA);
    } else if l.panel.state == P.SecureHandshake {
      HandshakeSends(bus, cfg, l, rndA);
    } else {
      PlainSends(bus, cfg, l, rndA);
    }
  }

  /** An exchange leaves the queue as it was, or releases its head. */
  lemma ExchangeOutbox(bus: P.Bus, cfg: R.Config, l: Link, outcome: Outcome, rndA: Cipher.Nonce, env: R.Env)
    requires Ready(bus, cfg, l)
    ensures var q, q' := l.panel.queue.outbox, RunExchange(bus, cfg, l, outcome, rndA, env).panel.queue.outbox;
            q' == q || (q != [] && q' == q[1..])
  {
    hide Ready, P.Next, P.Conclude, RunExchange, PR.InExchange, PR.Answered, PR.Settled, Returned, PR.Choice, CheckOK, Sequence, PR.Chosen, P.NextSequence;
    Emission(bus, cfg, l, rndA);
    Parts(bus, cfg, l, outcome, rndA, env);
    OwedOutbox(bus, cfg, l, rndA);
    PR.ConcludeSettles(bus, P.Next(bus, l.panel, rndA).0, Returned(bus, cfg, l, outcome, rndA, env));
  }

  lemma KeyQueueShrinks(p: P.Device, p': P.Device)
    requires KeyQueue(p)
    requires p'.queue.outbox == p.queue.outbox || (p.queue.outbox != [] && p'.queue.outbox == p.queue.outbox[1..])
    requires p'.channel.pendingKey == p.channel.pendingKey || p'.channel.pendingKey.None?
    ensures KeyQueue(p')
  {
    hide KeyIn;
    forall i | 0 <= i < |p'.queue.outbox| && p'.queue.outbox[i].code == KEYSET && p'.channel.pendingKey.Some?
      ensures KeyIn(p'.queue.outbox[i]) == p'.channel.pendingKey
    {
      assert p'.queue.outbox[i] == p.queue.outbox[if p'.queue.outbox == p.queue.outbox then i else i + 1];
    }
  }

  lemma ExchangeKeyQueue(bus: P.Bus, cfg: R.Config, l: Link, outcome: Outcome, rndA: Cipher.Nonce, env: R.Env)
    requires Ready(bus, cfg, l) && KeyQueue(l.panel) && RunExchange(bus, cfg, l, outcome, rndA, env).panel.queue.sequence != 0
    ensures KeyQueue(RunExchange(bus, cfg, l, outcome, rndA, env).panel)
  {
    hide Ready, P.Next, P.Conclude, RunExchange, PR.InExchange, Returned, PR.Choice, CheckOK, Sequence, KeyQueue;
    Emission(bus, cfg, l, rndA);
    Parts(bus, cfg, l, outcome, rndA, env);
    NextPendingKey(bus, cfg, l, rndA);
    ExchangePendingKey(bus, P.Next(bus, l.panel, rndA).0, Returned(bus, cfg, l, outcome, rndA, env));
    ExchangeOutbox(bus, cfg, l, outcome, rndA, env);
    KeyQueueShrinks(l.panel, RunExchange(bus, cfg, l, outcome, rndA, env).panel);
  }

  // ----- Every phase together -----

  lemma ExchangeEnds(bus: P.Bus, cfg: R.Config, l: Link, outcome: Outcome, rndA: Cipher.Nonce, env: R.Env)
    requires Agreed(bus, cfg, l) && Underway(bus, cfg, l, outcome, rndA, env)
    ensures var l' := RunExchange(bus, cfg, l, outcome, rndA, env);
            var event := Raised(bus, cfg, l, outcome, rndA, env);
            && Ends(bus, cfg.suite, l'.panel, l'.reader)
            && (event == P.BecameSecure ==> TogetherSecure(l'.panel, l'.reader))
            && (event == P.KeyInstalled ==> KeyTaken(l, l'))
  {
    hide Underway, RunExchange, Raised, AtMostOnce, Ready, PlainEnds, HandshakeEnds, SecureEnds, TameCache, OwedKey, OwedEffect, TogetherSecure,
      KeyTaken, Processed, SameAddress;
    UnderwayShares(bus, cfg, l, outcome, rndA, env);
    if l.panel.state == P.Secure {
      SecureExchange(bus, cfg, l, outcome, rndA, env);
    } else if l.panel.state == P.SecureHandshake {
      if l.panel.channel.pending.Some? {
        CryptogramExchange(bus, cfg, l, outcome, rndA, env);
      } else {
        ChallengeExchange(bus, cfg, l, outcome, rndA, env);
      }
    } else if Stuck(l.panel) {
      StuckExchange(bus, cfg, l, outcome, rndA, env);
    } else {
      PlainExchange(bus, cfg, l, outcome, rndA, env);
    }
  }

  lemma UnderwayShares(bus: P.Bus, cfg: R.Config, l: Link, outcome: Outcome, rndA: Cipher.Nonce, env: R.Env)
    requires Underway(bus, cfg, l, outcome, rndA, env)
    ensures SameAddress(l)
  {
    hide RunExchange, Ready, Fair;
  }

  /** A reader that has moved to another address hears nothing, and nothing is answered. */
  lemma ExchangeElsewhere(bus: P.Bus, cfg: R.Config, l: Link, outcome: Outcome, rndA: Cipher.Nonce, env: R.Env)
    requires Ready(bus, cfg, l) && !SameAddress(l) && RunExchange(bus, cfg, l, outcome, rndA, env).panel.queue.sequence != 0
    ensures var l' := RunExchange(bus, cfg, l, outcome, rndA, env);
            && !SameAddress(l') && l'.accepted == l.accepted && l'.answered == l.answered && l'.effects == l.effects
            && Raised(bus, cfg, l, outcome, rndA, env) != P.BecameSecure && Raised(bus, cfg, l, outcome, rndA, env) != P.KeyInstalled
  {
    hide RR.Orderly, PR.Settled, PR.InExchange, CheckOK, Sequence, P.Next, P.Conclude, PR.Answered, R.Handle, TakesEffect, PR.Choice, PR.Chosen,
      P.NextSequence, NextNumber, Rotate, Hears, RunExchange, Lag;
    Emission(bus, cfg, l, rndA);
    Parts(bus, cfg, l, outcome, rndA, env);
    Ledger(bus, cfg, l, outcome, rndA, env);
    var (p1, f) := P.Next(bus, l.panel, rndA);
    HandleElsewhere(cfg, l.reader, f.value, env);
    NotHeard(bus, p1);
    ConcludeAddress(bus, p1, None);
    UnheardEvent(bus, p1, None);
  }

  lemma NotHeard(bus: P.Bus, p: P.Device)
    ensures !Hears(bus, p, None) && !PR.Answered(bus, p, None)
  {
  }

  lemma ExchangeReady(bus: P.Bus, cfg: R.Config, l: Link, outcome: Outcome, rndA: Cipher.Nonce, env: R.Env)
    requires Ready(bus, cfg, l) && AtMostOnce(l) && NeverTwiceLost(l, outcome)
    requires RunExchange(bus, cfg, l, outcome, rndA, env).panel.queue.sequence != 0
    ensures var l' := RunExchange(bus, cfg, l, outcome, rndA, env); Ready(bus, cfg, l') && AtMostOnce(l') && l'.panel.address == l.panel.address
  {
    hide RunExchange, Sound, AtMostOnce, Lag, ValidAddress, NeverTwiceLost;
    RR.BelowBroadcast(l.panel.address);
    ExchangeLag(bus, cfg, l, outcome, rndA, env);
    ExchangeSound(bus, cfg, l, outcome, rndA, env);
    ExchangeAtMostOnce(bus, cfg, l, outcome, rndA, env);
    ExchangeAddress(bus, cfg, l, outcome, rndA, env);
  }

  lemma ExchangeAgreed(bus: P.Bus, cfg: R.Config, l: Link, outcome: Outcome, rndA: Cipher.Nonce, env: R.Env)
    requires Agreed(bus, cfg, l) && NeverTwiceLost(l, outcome) && Fair(bus, cfg, l, rndA, env) && (!outcome.CommandLost? ==> NoRefusal(cfg, l))
    requires RunExchange(bus, cfg, l, outcome, rndA, env).panel.queue.sequence != 0
    ensures var l' := RunExchange(bus, cfg, l, outcome, rndA, env);
            var event := Raised(bus, cfg, l, outcome, rndA, env);
            && Agreed(bus, cfg, l') && l'.panel.address == l.panel.address
            && (event == P.BecameSecure ==> TogetherSecure(l'.panel, l'.reader))
            && (event == P.KeyInstalled ==> KeyTaken(l, l'))
  {
    hide RunExchange, Raised, AtMostOnce, Ready, Ends, TameCache, OwedKey, OwedEffect, StuckOwes, TogetherSecure, KeyTaken, SameAddress,
      NeverTwiceLost, Fair, NoRefusal, Exact;
    ExchangeReady(bus, cfg, l, outcome, rndA, env);
    if SameAddress(l) {
      assert Underway(bus, cfg, l, outcome, rndA, env);
      ExchangeEnds(bus, cfg, l, outcome, rndA, env);
      ExchangeOwes(bus, cfg, l, outcome, rndA, env);
      ExchangeOwesKey(bus, cfg, l, outcome, rndA, env);
      ExchangeCounted(bus, cfg, l, outcome, rndA, env);
    } else {
      ExchangeElsewhere(bus, cfg, l, outcome, rndA, env);
      SameExact(l, RunExchange(bus, cfg, l, outcome, rndA, env));
    }
  }

  lemma SameExact(l: Link, l': Link)
    requires Exact(l) && l'.accepted == l.accepted && l'.answered == l.answered && l'.effects == l.effects
    ensures Exact(l')
  {
  }

  // ----- What happens between exchanges -----

  /** A step between exchanges: the queue may grow, an install may be noted, the reader's contacts may move. */
  predicate Quiet(l: Link, l': Link) {
    && l'.answered == l.answered && l'.effects == l.effects && l'.missed == l.missed
    && l'.panel.state == l.panel.state && l'.panel.address == l.panel.address
    && l'.panel.channel == l.panel.channel.(pendingKey := l'.panel.channel.pendingKey)
    && l'.panel.queue == l.panel.queue.(outbox := l'.panel.queue.outbox) && l.panel.queue.outbox <= l'.panel.queue.outbox
    && l.accepted <= l'.accepted
    && l'.reader.address == l.reader.address && l'.reader.key == l.reader.key && l'.reader.session == l.reader.session
    && l'.reader.cache == l.reader.cache
  }

  lemma QuietEnds(bus: P.Bus, su: S.Suite, l: Link, l': Link)
    requires Quiet(l, l') && Ends(bus, su, l.panel, l.reader)
    ensures Ends(bus, su, l'.panel, l'.reader)
  {
  }

  lemma QuietOutstanding(bus: P.Bus, cfg: R.Config, l: Link, l': Link)
    requires Quiet(l, l') && Ready(bus, cfg, l) && Outstanding(bus, l)
    ensures Outstanding(bus, l') && SameAddress(l) == SameAddress(l')
  {
    hide RR.Orderly, Lag, KeyIn;
    assert Processed(l') <==> Processed(l);
    if Processed(l) {
      RepeatSendsHead(bus, cfg, l);
      SameHead(l.panel.queue.outbox, l'.panel.queue.outbox);
    }
  }

  lemma SameHead(q: seq<Message>, q': seq<Message>)
    requires q != [] && q <= q'
    ensures q' != [] && q'[0] == q[0]
  {
  }

  lemma QuietAgreed(bus: P.Bus, cfg: R.Config, l: Link, l': Link)
    requires Agreed(bus, cfg, l) && Quiet(l, l') && Undisturbed(cfg, l, l')
    ensures Agreed(bus, cfg, l')
  {
    hide RR.Orderly, PR.Settled, Ends, Outstanding, AtMostOnce, RR.SameExchange, Exact, Grew;
    UndisturbedAtMostOnce(cfg, l, l');
    QuietExact(l, l');
    if SameAddress(l) {
      QuietEnds(bus, cfg.suite, l, l');
      QuietOutstanding(bus, cfg, l, l');
    }
  }

  lemma QuietExact(l: Link, l': Link)
    requires Quiet(l, l') && Exact(l)
    ensures Exact(l')
  {
  }

  lemma StepQuiet(bus: P.Bus, cfg: R.Config, l: Link, op: Op)
    requires !op.Exchange? && RR.Orderly(cfg, l.reader)
    ensures Quiet(l, Step(bus, cfg, l, op))
  {
    hide RR.Orderly, P.Fits, KeySetCommand, R.Happen;
    if op.Local? {
      RR.HappenOrderly(cfg, l.reader, op.happening);
    }
  }

  // ----- Whole runs -----

  /** What is asked of each exchange of a run: two freshly numbered commands in a row are never
      both lost, a strict reader is not sent a command that must follow a lost one, the application's handler does not
      imitate the handshake, no tag and no cryptogram passes by accident, and the panel does not start over. */
  ghost predicate TameOp(bus: P.Bus, cfg: R.Config, l: Link, op: Op) {
    hide Step, Unforged, Unmistaken;
    match op
    case Exchange(outcome, rndA, env) =>
      && NeverTwiceLost(l, outcome) && (!outcome.CommandLost? ==> NoRefusal(cfg, l)) && TameHandler(env)
      && Unforged(bus, cfg, l, rndA) && Unmistaken(bus, l, rndA, env)
      && Step(bus, cfg, l, op).panel.queue.sequence != 0
    case _ => true
  }

  ghost predicate TameRun(bus: P.Bus, cfg: R.Config, l: Link, ops: seq<Op>) {
    hide Step, TameOp;
    ops == [] || (TameRun(bus, cfg, l, ops[..|ops| - 1]) && TameOp(bus, cfg, RunOps(bus, cfg, l, ops[..|ops| - 1]), ops[|ops| - 1]))
  }

  /** Both ends use the same suite, and the reader does not time the panel out. */
  ghost predicate Matched(bus: P.Bus, cfg: R.Config, address: Octet) {
    bus.suite == cfg.suite && bus.suite.Lawful() && Patient(cfg) && address < BROADCAST
  }

  lemma FreshAgreed(bus: P.Bus, cfg: R.Config, address: Octet)
    requires Matched(bus, cfg, address)
    ensures Agreed(bus, cfg, Fresh(cfg, address))
  {
    hide Sound, AtMostOnce, R.CapabilitiesFor;
    FreshSound(cfg, address);
  }

  lemma StepAgreed(bus: P.Bus, cfg: R.Config, l: Link, op: Op)
    requires Agreed(bus, cfg, l) && bus.suite == cfg.suite && bus.suite.Lawful() && TameOp(bus, cfg, l, op)
    ensures Agreed(bus, cfg, Step(bus, cfg, l, op))
  {
    hide Agreed, Unforged, Unmistaken, RunExchange, NoRefusal, Quiet, Undisturbed, NeverTwiceLost, TameHandler;
    AgreedParts(bus, cfg, l);
    match op {
      case Exchange(outcome, rndA, env) =>
        ExchangeAgreed(bus, cfg, l, outcome, rndA, env);
      case _ =>
        hide Step, RR.Orderly;
        StepUndisturbed(bus, cfg, l, op);
        StepQuiet(bus, cfg, l, op);
        QuietAgreed(bus, cfg, l, Step(bus, cfg, l, op));
    }
  }

  lemma AgreedParts(bus: P.Bus, cfg: R.Config, l: Link)
    requires Agreed(bus, cfg, l)
    ensures Ready(bus, cfg, l) && Sound(cfg, l) && RR.Orderly(cfg, l.reader) && AtMostOnce(l)
  {
    hide RR.Orderly, PR.Settled, AtMostOnce;
  }

  lemma {:induction false} RunAgreed(bus: P.Bus, cfg: R.Config, address: Octet, ops: seq<Op>)
    requires Matched(bus, cfg, address) && TameRun(bus, cfg, Fresh(cfg, address), ops)
    ensures Agreed(bus, cfg, RunOps(bus, cfg, Fresh(cfg, address), ops))
    decreases |ops|
  {
    hide Step, Agreed, TameOp;
    if ops == [] {
      FreshAgreed(bus, cfg, address);
    } else {
      var n := |ops| - 1;
      RunAgreed(bus, cfg, address, ops[..n]);
      StepAgreed(bus, cfg, RunOps(bus, cfg, Fresh(cfg, address), ops[..n]), ops[n]);
    }
  }

  /** Section 5.7 of SIA OSDP v2.2.2: until the panel starts over, what the reader has carried out are the commands
      answered, each as it was handed in, each once and in submission order, followed at most by the one whose answer is
      outstanding. */
  lemma ExactlyOnce(bus: P.Bus, cfg: R.Config, address: Octet, ops: seq<Op>)
    requires Matched(bus, cfg, address) && TameRun(bus, cfg, Fresh(cfg, address), ops)
    ensures var l := RunOps(bus, cfg, Fresh(cfg, address), ops);
            && l.answered <= |l.effects| <= l.answered + 1 && |l.effects| <= |l.accepted|
            && (forall i :: 0 <= i < |l.effects| ==> l.effects[i] == Effect(i, l.accepted[i]))
            && l.accepted[l.answered..] == l.panel.queue.outbox
  {
    hide RunOps, Ready, Ends, Outstanding, InSubmissionOrder, Accepted;
    RunAgreed(bus, cfg, address, ops);
  }

  /** Section 7.2 of SIA OSDP v2.2.2: at whatever point of a run the panel announces a secure channel, however
      often the handshake was lost and restarted, the reader's session is established with the same keys and
      the same reply chain, and both command chains are still zero. */
  lemma HandshakeAgreement(bus: P.Bus, cfg: R.Config, address: Octet, ops: seq<Op>, outcome: Outcome, rndA: Cipher.Nonce, env: R.Env)
    requires Matched(bus, cfg, address) && TameRun(bus, cfg, Fresh(cfg, address), ops + [Exchange(outcome, rndA, env)])
    requires Raised(bus, cfg, RunOps(bus, cfg, Fresh(cfg, address), ops), outcome, rndA, env) == P.BecameSecure
    ensures var l := RunOps(bus, cfg, Fresh(cfg, address), ops + [Exchange(outcome, rndA, env)]);
            && l.panel.state == P.Secure && l.panel.channel.session.Some? && l.reader.session.Some?
            && EstablishedAlike(l.panel.channel.session.value, l.reader.session.value)
  {
    hide Agreed, Raised, RunExchange, Unforged, Unmistaken, NoRefusal, EstablishedAlike, NeverTwiceLost, TameHandler;
    LastExchange(bus, cfg, address, ops, outcome, rndA, env);
    ExchangeAgreed(bus, cfg, RunOps(bus, cfg, Fresh(cfg, address), ops), outcome, rndA, env);
  }

  /** Whenever the panel announces that a key was installed, neither end holds the old session, the reader holds the key of
      the key set it answered and the panel the key it awaited, whatever acknowledgements were lost and repeated on the
      way. So the two agree exactly when the key set at the head of the queue hands over the key awaited. */
  lemma KeyAgreement(bus: P.Bus, cfg: R.Config, address: Octet, ops: seq<Op>, outcome: Outcome, rndA: Cipher.Nonce, env: R.Env)
    requires Matched(bus, cfg, address) && TameRun(bus, cfg, Fresh(cfg, address), ops + [Exchange(outcome, rndA, env)])
    requires Raised(bus, cfg, RunOps(bus, cfg, Fresh(cfg, address), ops), outcome, rndA, env) == P.KeyInstalled
    ensures var l := RunOps(bus, cfg, Fresh(cfg, address), ops);
            var l' := RunOps(bus, cfg, Fresh(cfg, address), ops + [Exchange(outcome, rndA, env)]);
            && KeyTaken(l, l')
            && (KeyAgreed(l'.panel, l'.reader) <==> KeyIn(l.panel.queue.outbox[0]) == l.panel.channel.pendingKey)
  {
    hide Agreed, Raised, RunExchange, Unforged, Unmistaken, NoRefusal, NeverTwiceLost, TameHandler, KeyIn;
    LastExchange(bus, cfg, address, ops, outcome, rndA, env);
    ExchangeAgreed(bus, cfg, RunOps(bus, cfg, Fresh(cfg, address), ops), outcome, rndA, env);
  }

  // ----- One key at a time -----

  /** A key set is handed in only with the key awaited, and an install asked for only when no other key waits. */
  predicate OneKey(l: Link, op: Op) {
    && (op.Submit? && op.message.code == KEYSET && l.panel.channel.pendingKey.Some? ==> KeyIn(op.message) == l.panel.channel.pendingKey)
    && (op.Install? ==>
          forall i :: 0 <= i < |l.panel.queue.outbox| && l.panel.queue.outbox[i].code == KEYSET ==> KeyIn(l.panel.queue.outbox[i]) == Some(op.key))
  }

  predicate OneKeyRun(bus: P.Bus, cfg: R.Config, l: Link, ops: seq<Op>) {
    hide Step, OneKey;
    ops == [] || (OneKeyRun(bus, cfg, l, ops[..|ops| - 1]) && OneKey(RunOps(bus, cfg, l, ops[..|ops| - 1]), ops[|ops| - 1]))
  }

  lemma StepKeyQueue(bus: P.Bus, cfg: R.Config, l: Link, op: Op)
    requires !op.Exchange? && KeyQueue(l.panel) && OneKey(l, op)
    ensures KeyQueue(Step(bus, cfg, l, op).panel)
  {
    hide P.Fits, KeySetCommand, R.Happen, KeyIn;
    if op.Install? {
      KeySetRoundTrip(op.key);
    }
  }

  lemma {:induction false} RunKeyQueue(bus: P.Bus, cfg: R.Config, address: Octet, ops: seq<Op>)
    requires Matched(bus, cfg, address) && TameRun(bus, cfg, Fresh(cfg, address), ops) && OneKeyRun(bus, cfg, Fresh(cfg, address), ops)
    ensures KeyQueue(RunOps(bus, cfg, Fresh(cfg, address), ops).panel)
    decreases |ops|
  {
    hide KeyQueue, Agreed, OneKey, RunExchange, Unforged, Unmistaken, NoRefusal, NeverTwiceLost, TameHandler;
    if ops == [] {
      NothingQueued(cfg, address);
    } else {
      hide Step;
      var n := |ops| - 1;
      var l := RunOps(bus, cfg, Fresh(cfg, address), ops[..n]);
      RunKeyQueue(bus, cfg, address, ops[..n]);
      RunAgreed(bus, cfg, address, ops[..n]);
      AgreedParts(bus, cfg, l);
      match ops[n] {
        case Exchange(outcome, rndA, env) =>
          LastStep(bus, cfg, l, outcome, rndA, env);
          ExchangeKeyQueue(bus, cfg, l, outcome, rndA, env);
        case _ => StepKeyQueue(bus, cfg, l, ops[n]);
      }
    }
  }

  lemma LastStep(bus: P.Bus, cfg: R.Config, l: Link, outcome: Outcome, rndA: Cipher.Nonce, env: R.Env)
    ensures Step(bus, cfg, l, Exchange(outcome, rndA, env)) == RunExchange(bus, cfg, l, outcome, rndA, env)
  {
    hide RunExchange;
  }

  lemma NothingQueued(cfg: R.Config, address: Octet)
    ensures KeyQueue(Fresh(cfg, address).panel)
  {
  }

  /** With one key at a time, every announced install leaves the two ends with the same key. */
  lemma KeysInStep(bus: P.Bus, cfg: R.Config, address: Octet, ops: seq<Op>, outcome: Outcome, rndA: Cipher.Nonce, env: R.Env)
    requires Matched(bus, cfg, address) && TameRun(bus, cfg, Fresh(cfg, address), ops + [Exchange(outcome, rndA, env)])
    requires OneKeyRun(bus, cfg, Fresh(cfg, address), ops)
    requires Raised(bus, cfg, RunOps(bus, cfg, Fresh(cfg, address), ops), outcome, rndA, env) == P.KeyInstalled
    ensures var l' := RunOps(bus, cfg, Fresh(cfg, address), ops + [Exchange(outcome, rndA, env)]); KeyAgreed(l'.panel, l'.reader)
  {
    hide Raised, Matched, OneKeyRun, RunOps, KeyIn, KeyAgreed, TameOp;
    var all := ops + [Exchange(outcome, rndA, env)];
    assert all[..|all| - 1] == ops;
    RunKeyQueue(bus, cfg, address, ops);
    KeyAgreement(bus, cfg, address, ops, outcome, rndA, env);
  }

  lemma LastExchange(bus: P.Bus, cfg: R.Config, address: Octet, ops: seq<Op>, outcome: Outcome, rndA: Cipher.Nonce, env: R.Env)
    requires Matched(bus, cfg, address) && TameRun(bus, cfg, Fresh(cfg, address), ops + [Exchange(outcome, rndA, env)])
    ensures var l := RunOps(bus, cfg, Fresh(cfg, address), ops);
            && Agreed(bus, cfg, l) && TameOp(bus, cfg, l, Exchange(outcome, rndA, env))
            && RunOps(bus, cfg, Fresh(cfg, address), ops + [Exchange(outcome, rndA, env)]) == RunExchange(bus, cfg, l, outcome, rndA, env)
  {
    hide Agreed, RunExchange, TameOp;
    var all := ops + [Exchange(outcome, rndA, env)];
    assert all[..|all| - 1] == ops;
    RunAgreed(bus, cfg, address, ops);
  }

  // ----- A handshake that gets through -----

  /** A reply of the reader to a handshake step never makes the panel start over. */
  lemma HandshakeHeard(bus: P.Bus, cfg: R.Config, l: Link, rndA: Cipher.Nonce, env: R.Env)
    requires Ready(bus, cfg, l) && SameAddress(l) && TameHandler(env) && l.panel.state == P.SecureHandshake
    requires HandshakeEnds(bus, cfg.suite, l.panel, l.reader)
    ensures var l' := RunExchange(bus, cfg, l, Delivered, rndA, env);
            l'.panel.queue.sequence != 0 && l'.reader.address == l.reader.address
  {
    hide Ready, RunExchange, P.Next, P.Conclude, PR.InExchange, R.Handle, TakesEffect, PR.Read, P.BaseKey, R.Established, Sequence, CheckOK,
      P.SecureEstablished, Processed, RR.Orderly, HandshakeEnds, MeetsChallenge, Timely, S.AnswerServerCryptogram;
    HandshakeSends(bus, cfg, l, rndA);
    Parts(bus, cfg, l, Delivered, rndA, env);
    var p1 := P.Next(bus, l.panel, rndA).0;
    var answer := Returned(bus, cfg, l, Delivered, rndA, env);
    if l.panel.channel.pending.Some? {
      CryptogramAnswered(bus, cfg, l, rndA, env);
    } else {
      ChallengeAnswered(bus, cfg, l, rndA, env);
      ChallengeCode(cfg, l, rndA, env, R.Handle(cfg, l.reader, P.Next(bus, l.panel, rndA).1.value, env).0, answer.value);
    }
    ReadPlain(bus, p1, answer.value);
    HeardNumbered(bus, p1, answer);
  }

  lemma ChallengeCode(cfg: R.Config, l: Link, rndA: Cipher.Nonce, env: R.Env, r: R.Device, f: Frame)
    ensures MeetsChallenge(cfg, l.reader.key, rndA, env.rndB, r, f) ==> f.code == CCRYPT
  {
  }

  /** A reply the panel heard, and that does not move the device, ends the exchange under its own number. */
  lemma HeardNumbered(bus: P.Bus, p: P.Device, answer: Option<Frame>)
    requires PR.InExchange(p) && Hears(bus, p, answer) && !PR.MovesDevice(PR.Read(bus, p, answer.value).message)
    ensures var q := P.Conclude(bus, p, answer).0.queue; q.sequence == p.queue.sequence && q.sequence != 0 && !q.repeatSequence
  {
    hide PR.Read, P.Reply, P.Delivered, PR.QueueAfterDispatch, PR.Consistent;
    var f := answer.value;
    PR.ReplyQueue(bus, p, f);
    HeardQueue(p.queue, PR.Read(bus, p, f).message);
    PR.AnswerOwed(p.queue.(misses := 0), PR.Read(bus, p, f).message);
    QuietTimeoutQueue(P.Reply(bus, p, f).0);
  }

  lemma HeardQueue(q: P.Queue, m: Message)
    requires !PR.MovesDevice(m)
    ensures var q' := PR.QueueAfterDispatch(P.Delivered(q.(misses := 0)), m); q'.sequence == q.sequence && q'.misses == 0
  {
  }

  lemma QuietTimeoutQueue(d: P.Device)
    requires d.queue.misses == 0 && d.queue.inflight.None?
    ensures var q := P.Timeout(d).0.queue; q.sequence == d.queue.sequence && q.repeatSequence == d.queue.repeatSequence
  {
  }

  lemma HandshakeFair(bus: P.Bus, cfg: R.Config, l: Link, rndA: Cipher.Nonce, env: R.Env)
    requires Ready(bus, cfg, l) && TameHandler(env) && l.panel.state == P.SecureHandshake && bus.suite == cfg.suite && bus.suite.Lawful()
    requires Unmistaken(bus, l, rndA, env)
    ensures Fair(bus, cfg, l, rndA, env)
  {
    hide Ready, P.Next, R.Open, Unmistaken, R.Established, PR.InExchange, Processed;
    HandshakeSends(bus, cfg, l, rndA);
  }

  /** About to challenge a reader that has a secure channel and missed nothing. */
  ghost predicate AboutToChallenge(bus: P.Bus, cfg: R.Config, l: Link) {
    && Agreed(bus, cfg, l) && SameAddress(l) && bus.suite == cfg.suite && bus.suite.Lawful() && cfg.secure
    && l.panel.state == P.SecureHandshake && l.panel.channel.pending.None? && (cfg.strict ==> !l.missed)
  }

  lemma ChallengeFacts(bus: P.Bus, cfg: R.Config, l: Link)
    requires AboutToChallenge(bus, cfg, l)
    ensures Ready(bus, cfg, l) && HandshakeEnds(bus, cfg.suite, l.panel, l.reader) && !Processed(l) && Timely(cfg, l)
  {
    hide Ready, AtMostOnce, HandshakeEnds, SecureEnds, PlainEnds, Stuck, Outstanding, Timely, Exact;
    NothingProcessed(bus, cfg, l);
    TimelyExactly(bus, cfg, l);
  }

  lemma NothingProcessed(bus: P.Bus, cfg: R.Config, l: Link)
    requires Ready(bus, cfg, l) && l.panel.state == P.SecureHandshake
    ensures !Processed(l)
  {
    hide RR.Orderly, Lag;
  }

  /** From any agreed state about to challenge a reader on the panel's key, two exchanges that get through establish the
      channel at both ends, whatever was lost before. */
  lemma HandshakeSucceeds(
    bus: P.Bus, cfg: R.Config, l: Link, rndA: Cipher.Nonce, env: R.Env, rndA': Cipher.Nonce, env': R.Env)
    requires AboutToChallenge(bus, cfg, l) && TameHandler(env) && TameHandler(env') && P.BaseKey(bus, l.panel) == Some(l.reader.key)
    ensures var l1 := RunExchange(bus, cfg, l, Delivered, rndA, env);
            var l2 := RunExchange(bus, cfg, l1, Delivered, rndA', env');
            && Ready(bus, cfg, l1) && l1.panel.state == P.SecureHandshake && l1.panel.channel.pending.Some?
            && Raised(bus, cfg, l1, Delivered, rndA', env') == P.BecameSecure && TogetherSecure(l2.panel, l2.reader) && Ready(bus, cfg, l2)
  {
    hide Ready, RunExchange, Raised, AtMostOnce, SecureEnds, PlainEnds, Stuck, Outstanding, Fair, TogetherSecure, TameHandler, Exact, Timely,
      Processed, P.BaseKey, Counterpart, NextNumber;
    ChallengeFacts(bus, cfg, l);
    HandshakeHeard(bus, cfg, l, rndA, env);
    HandshakeFair(bus, cfg, l, rndA, env);
    ChallengeExchange(bus, cfg, l, Delivered, rndA, env);
    ExchangeAgreed(bus, cfg, l, Delivered, rndA, env);
    var l1 := RunExchange(bus, cfg, l, Delivered, rndA, env);
    NothingMissed(bus, cfg, l, rndA, env);
    NothingProcessed(bus, cfg, l1);
    TimelyExactly(bus, cfg, l1);
    HandshakeHeard(bus, cfg, l1, rndA', env');
    HandshakeFair(bus, cfg, l1, rndA', env');
    CryptogramExchange(bus, cfg, l1, Delivered, rndA', env');
    AgreedParts(bus, cfg, l1);
    ExchangeReady(bus, cfg, l1, Delivered, rndA', env');
  }

  lemma NothingMissed(bus: P.Bus, cfg: R.Config, l: Link, rndA: Cipher.Nonce, env: R.Env)
    requires Ready(bus, cfg, l)
    ensures !RunExchange(bus, cfg, l, Delivered, rndA, env).missed
  {
    hide Ready, RunExchange, P.Next, R.Handle, TakesEffect, Performed, PR.Answered, P.SecureEstablished;
    SendsAlike(bus, cfg, l, rndA);
    Ledger(bus, cfg, l, Delivered, rndA, env);
  }

  /** And a reader on another key is found out by one: the panel goes on without a channel and will not try again,
      and neither end holds an established session. */
  lemma HandshakeOnAnotherKey(bus: P.Bus, cfg: R.Config, l: Link, rndA: Cipher.Nonce, env: R.Env)
    requires AboutToChallenge(bus, cfg, l) && TameHandler(env) && P.BaseKey(bus, l.panel) != Some(l.reader.key) && Unmistaken(bus, l, rndA, env)
    ensures var l' := RunExchange(bus, cfg, l, Delivered, rndA, env);
            GivenUp(l'.panel) && !R.Established(l'.reader)
  {
    hide Ready, RunExchange, Raised, AtMostOnce, SecureEnds, HandshakeEnds, Outstanding, Fair, TameHandler, Exact, Timely, Processed, P.BaseKey,
      R.Established, Unmistaken;
    ChallengeFacts(bus, cfg, l);
    HandshakeHeard(bus, cfg, l, rndA, env);
    HandshakeFair(bus, cfg, l, rndA, env);
    ChallengeExchange(bus, cfg, l, Delivered, rndA, env);
  }

  // ----- The queue while a handshake runs -----

  lemma SettledAfter(bus: P.Bus, p1: P.Device, answer: Option<Frame>)
    requires PR.InExchange(p1) && p1.queue.inflight.None?
    ensures var q := P.Conclude(bus, p1, answer).0.queue; q.inflight.None? && q.outbox == PR.Owed(p1.queue)
  {
    hide PR.InExchange, PR.Answered, P.Conclude;
    PR.ConcludeSettles(bus, p1, answer);
  }

  /** Commands are deferred only by a busy device. */
  lemma ConcludeDefers(bus: P.Bus, p: P.Device, answer: Option<Frame>)
    requires !p.queue.deferCommands
    ensures var (e, event) := P.Conclude(bus, p, answer);
            e.queue.deferCommands ==> event == P.DeviceBusy && e.channel.pending == p.channel.pending
  {
    hide P.Reply, PR.Read, P.Dispatch, P.Timeout, P.Resync, P.OpenReply, P.Delivered;
    TimeoutDefers(p);
    if answer.Some? {
      var f := answer.value;
      TimeoutDefers(P.Reply(bus, p, f).0);
      match PR.Read(bus, p, f) {
        case Unattributed => PR.ReplyUnattributed(bus, p, f);
        case StartsOver =>
          PR.ReplyStartsOver(bus, p, f);
          ResyncDefers(p);
        case Answer(m) =>
          PR.ReplyIsDispatch(bus, p, f);
          PR.AtDispatchChannel(bus, p, f);
          ResyncDefers(p);
          DispatchDefers(bus, PR.AtDispatch(bus, p, f), m);
      }
    }
  }

  lemma TimeoutDefers(d: P.Device)
    ensures P.Timeout(d).0.queue.deferCommands == d.queue.deferCommands
  {
  }

  lemma ResyncDefers(d: P.Device)
    ensures P.Resync(d.(queue := d.queue.(misses := 0))).queue.deferCommands == d.queue.deferCommands
    ensures P.Delivered(d.queue.(misses := 0)).deferCommands == d.queue.deferCommands
  {
  }

  lemma DispatchDefers(bus: P.Bus, d: P.Device, m: Message)
    requires !d.queue.deferCommands
    ensures var (e, event) := P.Dispatch(bus, d, m); e.queue.deferCommands ==> event == Ok(P.DeviceBusy) && e.channel.pending == d.channel.pending
  {
    hide PR.Status.Report, S.AnswerCryptogram, S.CompleteHandshake, ParseCapabilities, ParseContacts, ParseLocalStatus, ClaimsSecureChannel,
      WholeCardRead, WholeKeypadEntry, P.AwaitingKeySet, P.BaseKey;
  }

  /** A handshake step leaves the queue alone. */
  lemma HandshakeQueue(bus: P.Bus, cfg: R.Config, l: Link, rndA: Cipher.Nonce, env: R.Env)
    requires Ready(bus, cfg, l) && l.panel.state == P.SecureHandshake
    ensures var l' := RunExchange(bus, cfg, l, Delivered, rndA, env);
            && l'.panel.queue.inflight.None? && l'.panel.queue.outbox == l.panel.queue.outbox
            && (l'.panel.queue.deferCommands && !l.panel.queue.deferCommands ==>
                  Raised(bus, cfg, l, Delivered, rndA, env) == P.DeviceBusy && l'.panel.channel.pending.None?)
  {
    hide Ready, RunExchange, P.Next, P.Conclude, Processed, PR.Consistent, PR.Choice, CheckOK, Sequence, NextNumber;
    HandshakeSends(bus, cfg, l, rndA);
    Parts(bus, cfg, l, Delivered, rndA, env);
    OwedOutbox(bus, cfg, l, rndA);
    var p1, answer := P.Next(bus, l.panel, rndA).0, Returned(bus, cfg, l, Delivered, rndA, env);
    SettledAfter(bus, p1, answer);
    Emission(bus, cfg, l, rndA);
    PR.ChosenInHandshake(l.panel);
    if !l.panel.queue.deferCommands {
      ConcludeDefers(bus, p1, answer);
    }
  }
}
