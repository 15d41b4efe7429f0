/** The panel and the reader composed over a line that may lose any command or any reply. */
module Links {
  import opened Octets
  import opened Frames
  import opened Messages
  import Cipher
  import P = Panel
  import PR = PanelRuns
  import R = Reader
  import RR = ReaderRuns

  datatype Outcome = CommandLost | ReplyLost | Delivered

  /** A command carried out at the reader: its place in submission order, and the message the reader dispatched. */
  datatype Effect = Effect(command: nat, message: Message)

  /** Both ends, and what has become of the application's commands. `accepted` lists them in submission order.
      The first `answered` of them have been answered, so the command at the head of the queue is number
      `answered`. `effects` lists what the reader carried out, in order, and `missed` says that the last freshly
      numbered command never reached the reader. */
  datatype Link = Link(
    panel: P.Device, reader: R.Device, accepted: seq<Message>, answered: nat, effects: seq<Effect>, missed: bool)

  datatype Op =
    | Submit(message: Message)
    | Install(key: Cipher.Block)
    | Local(happening: R.Happening)
    | Exchange(outcome: Outcome, rndA: Cipher.Nonce, env: R.Env)

  /** The reader dispatched the command and did not answer osdp_BUSY, which means it did not act. */
  predicate TakesEffect(cfg: R.Config, d: R.Device, f: Frame, env: R.Env) {
    && R.Screen(f).None? && R.Addressed(cfg, d, f.address)
    && var d1 := R.Observe(cfg, d, env.now);
    && !R.Replays(d1, Sequence(f.control))
    && var d2 := RR.Prepared(d1, f);
    && !(cfg.strict && d2.cache.valid && Sequence(f.control) != Rotate(d2.cache.sequence))
    && var a := RR.Admitted(cfg, d2, f);
    && a.Some?
    && R.Dispatch(cfg, a.value.device, a.value.message, a.value.secured, env).1.code != BUSY
  }

  /** The message the reader dispatched. */
  function Performed(cfg: R.Config, d: R.Device, f: Frame, env: R.Env): Message
    requires TakesEffect(cfg, d, f, env)
  {
    RR.Admitted(cfg, RR.Prepared(R.Observe(cfg, d, env.now), f), f).value.message
  }

  lemma PerformedCode(cfg: R.Config, d: R.Device, f: Frame, env: R.Env)
    requires TakesEffect(cfg, d, f, env)
    ensures Performed(cfg, d, f, env).code == f.code
  {
    hide CheckOK, Sequence, R.Dispatch, R.Open, R.Observe;
  }

  /** What reaches the panel of the reader's answer. */
  function Heard(outcome: Outcome, reply: Result<Frame, R.HandleError>): Option<Frame> {
    if outcome.Delivered? && reply.Ok? then Some(reply.value) else None
  }

  function RunExchange(bus: P.Bus, cfg: R.Config, l: Link, outcome: Outcome, rndA: Cipher.Nonce, env: R.Env): Link {
    hide P.Next, P.Conclude, R.Handle, PR.Answered, TakesEffect, Performed;
    var (p1, fo) := P.Next(bus, l.panel, rndA);
    match fo
    case None => l.(panel := p1)
    case Some(f) =>
      if outcome.CommandLost? then
        l.(panel := P.Conclude(bus, p1, None).0, missed := l.missed || !l.panel.queue.repeatSequence)
      else
        var (r1, reply) := R.Handle(cfg, l.reader, f, env);
        var answer := Heard(outcome, reply);
        var sent := p1.queue.inflight.Some?;
        Link(P.Conclude(bus, p1, answer).0, r1, l.accepted,
             if sent && PR.Answered(bus, p1, answer) then l.answered + 1 else l.answered,
             if sent && TakesEffect(cfg, l.reader, f, env) then l.effects + [Effect(l.answered, Performed(cfg, l.reader, f, env))] else l.effects,
             false)
  }

  function Step(bus: P.Bus, cfg: R.Config, l: Link, op: Op): Link {
    match op
    case Submit(m) =>
      var (p, ok) := P.Send(bus, l.panel, m);
      l.(panel := p, accepted := if ok then l.accepted + [m] else l.accepted)
    case Install(key) =>
      var (p, ok) := P.InstallKey(l.panel, key);
      l.(panel := p, accepted := if ok then l.accepted + [KeySetCommand(key)] else l.accepted)
    case Local(h) => l.(reader := R.Happen(cfg, l.reader, h).0)
    case Exchange(outcome, rndA, env) => RunExchange(bus, cfg, l, outcome, rndA, env)
  }

  function Fresh(cfg: R.Config, address: Octet): Link {
    Link(P.NewDevice(address), R.New(cfg, address), [], 0, [], false)
  }

  // ----- At most once -----

  /** In submission order, and so no command twice. */
  predicate InSubmissionOrder(effects: seq<Effect>) {
    forall i, j :: 0 <= i < j < |effects| ==> effects[i].command < effects[j].command
  }

  /** The command at the head of the queue has taken effect and its answer is outstanding. */
  predicate EffectPending(l: Link) {
    l.effects != [] && l.effects[|l.effects| - 1].command == l.answered
  }

  /** What is accepted and not answered is what is queued. */
  predicate Conserved(l: Link) {
    l.answered <= |l.accepted| && l.accepted[l.answered..] == l.panel.queue.outbox
  }

  /** An effect is that of a command handed in, or at least of its code. */
  predicate Accepted(l: Link, e: Effect) {
    e.command <= l.answered && e.command < |l.accepted| && e.message.code == l.accepted[e.command].code
  }

  /** Effects follow submission order and belong to commands already answered, except that the command at the
      head of the queue may have taken effect with its answer still outstanding. Then the panel is about to
      repeat its number, and the reader holds the answer to that number. */
  predicate AtMostOnce(l: Link) {
    && Conserved(l) && InSubmissionOrder(l.effects)
    && (forall i :: 0 <= i < |l.effects| ==> Accepted(l, l.effects[i]))
    && (EffectPending(l) ==>
          && l.panel.queue.repeatSequence && l.reader.cache.valid && l.reader.cache.sequence == l.panel.queue.sequence
          && l.reader.cache.reply.code != BUSY)
  }

  ghost predicate Sound(cfg: R.Config, l: Link) {
    PR.Settled(l.panel) && RR.Orderly(cfg, l.reader)
  }

  /** An unanswered application command is repeated under its own number, unless the panel starts over or
      the device was busy. */
  lemma ConcludeRepeats(bus: P.Bus, d: P.Device, answer: Option<Frame>)
    requires PR.InExchange(d) && d.queue.inflight.Some? && !PR.Answered(bus, d, answer)
    requires P.Conclude(bus, d, answer).0.queue.sequence != 0
    requires answer.Some? ==> answer.value.code != BUSY
    ensures var q := P.Conclude(bus, d, answer).0.queue; q.repeatSequence && q.sequence == d.queue.sequence
  {
    hide P.Reply, P.Timeout, PR.Read;
    if answer.Some? {
      var f := answer.value;
      ReadCode(bus, d, f);
      match PR.Read(bus, d, f) {
        case Unattributed =>
          PR.ReplyUnattributed(bus, d, f);
          TimeoutRepeats(d);
        case StartsOver =>
          PR.ReplyStartsOver(bus, d, f);
        case Answer(m) =>
      }
    } else {
      TimeoutRepeats(d);
    }
  }

  lemma ReadCode(bus: P.Bus, d: P.Device, f: Frame)
    ensures PR.Read(bus, d, f).Answer? ==> PR.Read(bus, d, f).message.code == f.code
  {
    hide P.OpenReply, Sequence;
  }

  lemma TimeoutRepeats(d: P.Device)
    requires d.queue.inflight.Some? && P.Timeout(d).0.queue.sequence != 0
    ensures var q := P.Timeout(d).0.queue; q.repeatSequence && q.sequence == d.queue.sequence
  {
  }

  /** With no communication timeout, a command numbered as the last one answered is answered from the cache
      and changes nothing but the time it was seen. */
  lemma ReplayedUntouched(cfg: R.Config, d: R.Device, f: Frame, env: R.Env)
    requires cfg.timeout == 0 && Sequence(f.control) != 0 && d.cache.valid && d.cache.sequence == Sequence(f.control)
    ensures !TakesEffect(cfg, d, f, env)
    ensures var (d', r) := R.Handle(cfg, d, f, env);
            && d' == d.(seen := d'.seen, lastSeen := d'.lastSeen)
            && (r.Ok? ==> r.value == d.cache.reply)
  {
    hide Sequence, CheckOK, R.Dispatch, RR.Admitted, RR.Prepared, R.Execute;
  }

  /** A command that takes effect leaves its answer in the cache, under its own number. */
  lemma EffectIsCached(cfg: R.Config, d: R.Device, f: Frame, env: R.Env)
    requires RR.Orderly(cfg, d) && cfg.timeout == 0 && Sequence(f.control) != 0 && TakesEffect(cfg, d, f, env)
    ensures var (d', r) := R.Handle(cfg, d, f, env);
            r.Ok? && r.value.code != BUSY && d'.cache == R.Cache(true, Sequence(f.control), r.value)
  {
    hide RR.Orderly, Sequence, CheckOK, R.Dispatch, RR.Admitted, R.Execute, R.Answer, R.EncodeReply, SchemeOf, NewControl;
    var d1 := R.Observe(cfg, d, env.now);
    RR.ObserveOrderly(cfg, d, env.now);
    RR.ExecuteDiscipline(cfg, d1, f, env);
    RR.AnswerAdmitted(cfg, d1, f, env);
  }

  /** What joins the queue is what is accepted. */
  predicate Grew(l: Link, l': Link) {
    var n := |l.panel.queue.outbox|;
    && n <= |l'.panel.queue.outbox| && l'.panel.queue.outbox[..n] == l.panel.queue.outbox
    && l'.accepted == l.accepted + l'.panel.queue.outbox[n..]
  }

  /** What a step other than an exchange keeps. */
  ghost predicate Undisturbed(cfg: R.Config, l: Link, l': Link) {
    && Sound(cfg, l') && l'.answered == l.answered && l'.effects == l.effects && l'.missed == l.missed
    && l'.panel == l.panel.(queue := l'.panel.queue, channel := l'.panel.channel)
    && l'.panel.queue == l.panel.queue.(outbox := l'.panel.queue.outbox) && Grew(l, l')
    && RR.SameExchange(l.reader, l'.reader)
  }

  lemma SubmitUndisturbed(bus: P.Bus, cfg: R.Config, l: Link, m: Message)
    requires Sound(cfg, l)
    ensures Undisturbed(cfg, l, Step(bus, cfg, l, Submit(m)))
  {
    hide RR.Orderly, P.Fits, PR.Settled;
    PR.EnqueueSettled(l.panel, m, None);
  }

  lemma InstallUndisturbed(bus: P.Bus, cfg: R.Config, l: Link, key: Cipher.Block)
    requires Sound(cfg, l)
    ensures Undisturbed(cfg, l, Step(bus, cfg, l, Install(key)))
  {
    hide RR.Orderly, KeySetCommand, PR.Settled, P.SecureEstablished;
    PR.EnqueueSettled(l.panel, KeySetCommand(key), Some(key));
  }

  lemma StepUndisturbed(bus: P.Bus, cfg: R.Config, l: Link, op: Op)
    requires Sound(cfg, l) && !op.Exchange?
    ensures Undisturbed(cfg, l, Step(bus, cfg, l, op))
  {
    match op {
      case Submit(m) => SubmitUndisturbed(bus, cfg, l, m);
      case Install(key) => InstallUndisturbed(bus, cfg, l, key);
      case Local(h) =>
        hide RR.Orderly, R.Happen, PR.Settled;
        RR.HappenOrderly(cfg, l.reader, h);
    }
  }

  /** A command in flight is the head of the queue, and the frame carries its code. */
  lemma SentHead(bus: P.Bus, d: P.Device, rndA: Cipher.Nonce)
    requires PR.Settled(d) && ValidAddress(d.address)
    ensures var (p1, f) := P.Next(bus, d, rndA);
            && f.Some? && PR.InExchange(p1) && PR.Owed(p1.queue) == d.queue.outbox
            && (p1.queue.inflight.Some? ==>
                  d.queue.outbox != [] && p1.queue.outbox == d.queue.outbox[1..] && f.value.code == d.queue.outbox[0].code)
  {
    hide P.Next, PR.InExchange, CheckOK, NewControl, Sequence, ValidAddress, PR.Resting, P.NextSequence;
    PR.NextEmits(bus, d, rndA);
    PR.ChosenFacts(d);
  }

  /** What is accepted and not answered stays what is queued. */
  lemma ExchangeConserved(bus: P.Bus, cfg: R.Config, l: Link, outcome: Outcome, rndA: Cipher.Nonce, env: R.Env)
    requires Sound(cfg, l) && Conserved(l) && ValidAddress(l.panel.address)
    ensures Conserved(RunExchange(bus, cfg, l, outcome, rndA, env))
  {
    hide RR.Orderly, PR.Settled, PR.InExchange, ValidAddress, P.Next, P.Conclude, PR.Answered, R.Handle, TakesEffect;
    SentHead(bus, l.panel, rndA);
    var (p1, fo) := P.Next(bus, l.panel, rndA);
    PR.ConcludeSettles(bus, p1, None);
    NoAnswer(bus, p1);
    PR.ConcludeSettles(bus, p1, Heard(outcome, R.Handle(cfg, l.reader, fo.value, env).1));
  }

  /** One exchange, seen from the effects: at most the head of the queue is carried out, and then its answer is
      in the cache until the panel has it. */
  lemma ExchangeEffects(bus: P.Bus, cfg: R.Config, l: Link, outcome: Outcome, rndA: Cipher.Nonce, env: R.Env)
    requires Sound(cfg, l) && AtMostOnce(l) && cfg.timeout == 0 && ValidAddress(l.panel.address)
    requires RunExchange(bus, cfg, l, outcome, rndA, env).panel.queue.sequence != 0
    ensures var l' := RunExchange(bus, cfg, l, outcome, rndA, env);
            && l'.accepted == l.accepted && (l'.answered == l.answered || l'.answered == l.answered + 1)
            && (l'.effects == l.effects ||
                (!EffectPending(l) && l.panel.queue.outbox != [] && |l'.effects| == |l.effects| + 1 && l'.effects[..|l.effects|] == l.effects
                 && l'.effects[|l.effects|].command == l.answered && l'.effects[|l.effects|].message.code == l.panel.queue.outbox[0].code))
            && (EffectPending(l') ==>
                  && l'.panel.queue.repeatSequence && l'.reader.cache.valid && l'.reader.cache.sequence == l'.panel.queue.sequence
                  && l'.reader.cache.reply.code != BUSY)
  {
    hide RR.Orderly, PR.Settled, PR.InExchange, Carries, ValidAddress, Sequence, P.Next, P.Conclude, PR.Answered, PR.Owed, R.Handle, TakesEffect,
      PR.Choice, Performed, Conserved, InSubmissionOrder;
    PR.NextEmits(bus, l.panel, rndA);
    SentHead(bus, l.panel, rndA);
    var (p1, fo) := P.Next(bus, l.panel, rndA);
    var f := fo.value;
    PR.ConcludeSettles(bus, p1, None);
    if outcome.CommandLost? {
      if p1.queue.inflight.Some? && P.Conclude(bus, p1, None).0.queue.sequence != 0 {
        NoAnswer(bus, p1);
        ConcludeRepeats(bus, p1, None);
      }
    } else {
      var (r1, reply) := R.Handle(cfg, l.reader, f, env);
      var answer := Heard(outcome, reply);
      if TakesEffect(cfg, l.reader, f, env) {
        EffectIsCached(cfg, l.reader, f, env);
        PerformedCode(cfg, l.reader, f, env);
      }
      if EffectPending(l) {
        ReplayedUntouched(cfg, l.reader, f, env);
      }
      if p1.queue.inflight.Some? && !PR.Answered(bus, p1, answer) && (answer.Some? ==> answer.value.code != BUSY) {
        ConcludeRepeats(bus, p1, answer);
      }
    }
  }

  lemma ExchangeAtMostOnce(bus: P.Bus, cfg: R.Config, l: Link, outcome: Outcome, rndA: Cipher.Nonce, env: R.Env)
    requires Sound(cfg, l) && AtMostOnce(l) && cfg.timeout == 0 && ValidAddress(l.panel.address)
    requires RunExchange(bus, cfg, l, outcome, rndA, env).panel.queue.sequence != 0
    ensures AtMostOnce(RunExchange(bus, cfg, l, outcome, rndA, env))
  {
    hide RunExchange, Sound, ValidAddress;
    ExchangeConserved(bus, cfg, l, outcome, rndA, env);
    ExchangeEffects(bus, cfg, l, outcome, rndA, env);
    var l' := RunExchange(bus, cfg, l, outcome, rndA, env);
    if l'.effects != l.effects {
      assert l.accepted[l.answered..][0] == l.accepted[l.answered];
      forall i | 0 <= i < |l'.effects|
        ensures Accepted(l', l'.effects[i])
      {
        if i < |l.effects| {
          assert l'.effects[i] == l'.effects[..|l.effects|][i];
        }
      }
      LaterEffect(l, l');
    }
  }

  lemma LaterEffect(l: Link, l': Link)
    requires InSubmissionOrder(l.effects) && !EffectPending(l) && forall i :: 0 <= i < |l.effects| ==> l.effects[i].command <= l.answered
    requires |l'.effects| == |l.effects| + 1 && l'.effects[..|l.effects|] == l.effects && l'.effects[|l.effects|].command == l.answered
    ensures InSubmissionOrder(l'.effects)
  {
    var n := |l.effects|;
    forall i, j | 0 <= i < j < |l'.effects|
      ensures l'.effects[i].command < l'.effects[j].command
    {
      assert l'.effects[i] == l'.effects[..n][i];
      if j < n {
        assert l'.effects[j] == l'.effects[..n][j];
      } else if i < n - 1 {
        assert l.effects[i].command < l.effects[n - 1].command;
      }
    }
  }

  lemma NoAnswer(bus: P.Bus, d: P.Device)
    ensures !PR.Answered(bus, d, None)
  {
  }

  lemma ExchangeSound(bus: P.Bus, cfg: R.Config, l: Link, outcome: Outcome, rndA: Cipher.Nonce, env: R.Env)
    requires Sound(cfg, l) && ValidAddress(l.panel.address)
    ensures Sound(cfg, RunExchange(bus, cfg, l, outcome, rndA, env))
  {
    hide RR.Orderly, PR.Settled, PR.InExchange, Carries, ValidAddress, Sequence, P.Next, P.Conclude, PR.Answered, PR.Owed, R.Handle, TakesEffect,
      PR.Choice;
    PR.NextEmits(bus, l.panel, rndA);
    var (p1, fo) := P.Next(bus, l.panel, rndA);
    PR.ConcludeSettles(bus, p1, None);
    RR.HandleDiscipline(cfg, l.reader, fo.value, env);
    PR.ConcludeSettles(bus, p1, Heard(outcome, R.Handle(cfg, l.reader, fo.value, env).1));
  }

  lemma DispatchAddress(bus: P.Bus, d: P.Device, m: Message)
    ensures var e := P.Dispatch(bus, d, m).0; e.address == d.address || e.queue.sequence == 0
  {
    hide PR.Status.Report, S.AnswerCryptogram, S.CompleteHandshake, ParseCapabilities, ParseContacts, ParseLocalStatus, ClaimsSecureChannel,
      WholeCardRead, WholeKeypadEntry, P.AwaitingKeySet, P.Reclaim, P.BaseKey;
  }

  /** Until it starts over, the panel keeps speaking to the same address. */
  lemma ConcludeAddress(bus: P.Bus, d: P.Device, answer: Option<Frame>)
    requires PR.InExchange(d) && P.Conclude(bus, d, answer).0.queue.sequence != 0
    ensures P.Conclude(bus, d, answer).0.address == d.address
  {
    hide P.Reply, PR.Read, P.Dispatch, PR.AtDispatch, P.Restart, P.Retransmit;
    if answer.Some? {
      var f := answer.value;
      match PR.Read(bus, d, f) {
        case Unattributed => PR.ReplyUnattributed(bus, d, f);
        case StartsOver => PR.ReplyStartsOver(bus, d, f);
        case Answer(m) =>
          PR.ReplyIsDispatch(bus, d, f);
          PR.AtDispatchChannel(bus, d, f);
          DispatchAddress(bus, PR.AtDispatch(bus, d, f), m);
          TimeoutKeepsZero(P.Reply(bus, d, f).0);
      }
    }
  }

  lemma TimeoutKeepsZero(d: P.Device)
    ensures d.queue.sequence == 0 ==> P.Timeout(d).0.queue.sequence == 0
  {
  }

  function RunOps(bus: P.Bus, cfg: R.Config, l: Link, ops: seq<Op>): Link {
    hide Step;
    if ops == [] then l else Step(bus, cfg, RunOps(bus, cfg, l, ops[..|ops| - 1]), ops[|ops| - 1])
  }

  /** The panel starts over by setting its number to zero, and nothing else does so: no exchange of this run
      ended that way. */
  predicate NoResync(bus: P.Bus, cfg: R.Config, l: Link, ops: seq<Op>) {
    hide Step;
    ops == [] ||
    (&& NoResync(bus, cfg, l, ops[..|ops| - 1])
     && (ops[|ops| - 1].Exchange? ==> RunOps(bus, cfg, l, ops).panel.queue.sequence != 0))
  }

  lemma ExchangeAddress(bus: P.Bus, cfg: R.Config, l: Link, outcome: Outcome, rndA: Cipher.Nonce, env: R.Env)
    requires Sound(cfg, l) && ValidAddress(l.panel.address)
    requires RunExchange(bus, cfg, l, outcome, rndA, env).panel.queue.sequence != 0
    ensures RunExchange(bus, cfg, l, outcome, rndA, env).panel.address == l.panel.address
  {
    hide RR.Orderly, PR.Settled, PR.InExchange, Carries, ValidAddress, Sequence, P.Next, P.Conclude, PR.Answered, PR.Owed, R.Handle, TakesEffect,
      PR.Choice;
    PR.NextEmits(bus, l.panel, rndA);
    var (p1, fo) := P.Next(bus, l.panel, rndA);
    if outcome.CommandLost? {
      ConcludeAddress(bus, p1, None);
    } else {
      ConcludeAddress(bus, p1, Heard(outcome, R.Handle(cfg, l.reader, fo.value, env).1));
    }
  }

  lemma FreshSound(cfg: R.Config, address: Octet)
    requires R.ValidConfig(cfg) && address < BROADCAST
    ensures Sound(cfg, Fresh(cfg, address)) && AtMostOnce(Fresh(cfg, address))
  {
    hide R.CapabilitiesFor;
  }

  lemma UndisturbedAtMostOnce(cfg: R.Config, l: Link, l': Link)
    requires AtMostOnce(l) && Undisturbed(cfg, l, l')
    ensures AtMostOnce(l')
  {
    hide RR.Orderly, PR.Settled;
    GrewConserved(l, l');
    assert forall i :: 0 <= i < |l.effects| ==> Accepted(l, l.effects[i]);
  }

  lemma GrewConserved(l: Link, l': Link)
    requires Conserved(l) && Grew(l, l') && l'.answered == l.answered
    ensures Conserved(l') && l.accepted <= l'.accepted
  {
    var n := |l.panel.queue.outbox|;
    assert l'.panel.queue.outbox == l'.panel.queue.outbox[..n] + l'.panel.queue.outbox[n..];
  }

  /** Section 5.7 of SIA OSDP v2.2.2: from a fresh start until the panel starts over, no application command
      takes effect twice, whatever is lost and however often it is retransmitted. */
  lemma {:induction false} NoCommandTakesEffectTwice(bus: P.Bus, cfg: R.Config, address: Octet, ops: seq<Op>)
    requires R.ValidConfig(cfg) && cfg.timeout == 0 && address < BROADCAST
    requires NoResync(bus, cfg, Fresh(cfg, address), ops)
    ensures var l := RunOps(bus, cfg, Fresh(cfg, address), ops);
            Sound(cfg, l) && AtMostOnce(l) && l.panel.address == address
    decreases |ops|
  {
    hide Step, Sound, AtMostOnce, Undisturbed;
    if ops == [] {
      FreshSound(cfg, address);
    } else {
      var n := |ops| - 1;
      NoCommandTakesEffectTwice(bus, cfg, address, ops[..n]);
      var l := RunOps(bus, cfg, Fresh(cfg, address), ops[..n]);
      RR.BelowBroadcast(address);
      StepAtMostOnce(bus, cfg, l, ops[n]);
    }
  }

  lemma StepAtMostOnce(bus: P.Bus, cfg: R.Config, l: Link, op: Op)
    requires Sound(cfg, l) && AtMostOnce(l) && cfg.timeout == 0 && ValidAddress(l.panel.address)
    requires op.Exchange? ==> Step(bus, cfg, l, op).panel.queue.sequence != 0
    ensures var l' := Step(bus, cfg, l, op); Sound(cfg, l') && AtMostOnce(l') && l'.panel.address == l.panel.address
  {
    hide RunExchange, Sound, AtMostOnce, ValidAddress;
    match op {
      case Exchange(outcome, rndA, env) =>
        ExchangeSound(bus, cfg, l, outcome, rndA, env);
        ExchangeAtMostOnce(bus, cfg, l, outcome, rndA, env);
        ExchangeAddress(bus, cfg, l, outcome, rndA, env);
      case _ =>
        hide RR.SameExchange;
        StepUndisturbed(bus, cfg, l, op);
        UndisturbedAtMostOnce(cfg, l, Step(bus, cfg, l, op));
    }
  }
}
