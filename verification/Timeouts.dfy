/** A reader that times the panel out, as internal/pd/handle.go does: while no silence is too long it is the reader that
    does not, and the first that is may cost a command its single effect. */
module Timeouts {
  import opened Octets
  import opened Frames
  import opened Messages
  import opened Links
  import opened LinkRuns
  import opened Agreement
  import opened Limits
  import AR = AgreementRuns
  import Check
  import Cipher
  import S = Sessions
  import P = Panel
  import PR = PanelRuns
  import R = Reader
  import RR = ReaderRuns

  function Untimed(cfg: R.Config): R.Config {
    cfg.(timeout := 0)
  }

  /** A command now breaks a silence longer than the reader allows. */
  predicate TooLate(cfg: R.Config, d: R.Device, now: int) {
    d.seen && cfg.timeout > 0 && now - d.lastSeen > cfg.timeout
  }

  /** The reader as a command finds it. */
  function Found(cfg: R.Config, d: R.Device, now: int): R.Device {
    if TooLate(cfg, d, now) then R.Restart(d) else d
  }

  // ----- One command -----

  lemma DispatchUntimed(cfg: R.Config, d: R.Device, m: Message, secured: bool, env: R.Env)
    ensures R.Dispatch(cfg, d, m, secured, env) == R.Dispatch(Untimed(cfg), d, m, secured, env)
  {
    hide R.ApplyOutputs, R.ApplyCommunication, R.InstallKey, R.Delegate, AppendCapabilities, R.ContactStatus, R.LocalStatus;
  }

  lemma AnswerUntimed(cfg: R.Config, d: R.Device, f: Frame, env: R.Env)
    ensures R.AnswerFor(cfg, d, f, env) == R.AnswerFor(Untimed(cfg), d, f, env)
  {
    hide R.Dispatch, R.Open, R.ReplyBlock, S.AnswerChallenge, S.AnswerServerCryptogram, Sequence, Rotate;
    DispatchUntimed(cfg, d, Message(f.code, f.data), false, env);
    if d.session.Some? {
      var (s, payload) := R.Open(cfg.suite, d.session.value, f);
      if payload.Ok? {
        DispatchUntimed(cfg, d.(session := Some(s)), Message(f.code, payload.value), true, env);
      }
    }
  }

  lemma EncodeUntimed(cfg: R.Config, d: R.Device, m: Message, sequence: Octet, scheme: Check.Scheme, block: Option<Octet>)
    ensures R.EncodeReply(cfg, d, m, sequence, scheme, block) == R.EncodeReply(Untimed(cfg), d, m, sequence, scheme, block)
  {
    hide S.Seal, S.Authenticate, Covered, Frames.Seal, Encode, EncodeSecure;
  }

  lemma AdoptUntimed(cfg: R.Config, d: R.Device)
    ensures R.AdoptKey(cfg, d) == R.AdoptKey(Untimed(cfg), d)
  {
  }

  lemma EmitUntimed(cfg: R.Config, d: R.Device, sequence: Octet, scheme: Check.Scheme, m: Message, block: Option<Octet>)
    ensures R.Emit(cfg, d, sequence, scheme, m, block) == R.Emit(Untimed(cfg), d, sequence, scheme, m, block)
  {
    hide R.EncodeReply, R.AdoptKey, R.AdoptAddress, Frames.Seal;
    EncodeUntimed(cfg, d, m, sequence, scheme, block);
    var (d1, f) := R.EncodeReply(cfg, d, m, sequence, scheme, block);
    if f.Some? {
      AdoptUntimed(cfg, R.AdoptAddress(d1.(cache := if sequence == 0 then d1.cache.(valid := false) else R.Cache(true, sequence, f.value))));
    }
  }

  lemma ExecuteUntimed(cfg: R.Config, d: R.Device, f: Frame, env: R.Env)
    ensures R.Execute(cfg, d, f, env) == R.Execute(Untimed(cfg), d, f, env)
  {
    hide R.AnswerFor, R.Emit, Sequence, SchemeOf;
    var d1 := if Sequence(f.control) == 0 then R.Restart(d) else d;
    AnswerUntimed(cfg, d1, f, env);
    var (d2, m, block) := R.AnswerFor(cfg, d1, f, env);
    EmitUntimed(cfg, d2, Sequence(f.control), SchemeOf(f.control), m, block);
  }

  /** A command meant for the reader is handled as by a reader that never times out, once the silence is accounted for. */
  lemma HandleUntimed(cfg: R.Config, d: R.Device, f: Frame, env: R.Env)
    requires !TooLate(cfg, d, env.now) || (R.Screen(f).None? && R.Addressed(cfg, d, f.address))
    ensures R.Handle(cfg, d, f, env) == R.Handle(Untimed(cfg), Found(cfg, d, env.now), f, env)
    ensures TakesEffect(cfg, d, f, env) <==> TakesEffect(Untimed(cfg), Found(cfg, d, env.now), f, env)
    ensures TakesEffect(cfg, d, f, env) ==> Performed(cfg, d, f, env) == Performed(Untimed(cfg), Found(cfg, d, env.now), f, env)
  {
    hide R.Execute, CheckOK, Sequence, R.Dispatch, R.Open, Rotate;
    var d1 := R.Observe(cfg, d, env.now);
    assert R.Observe(Untimed(cfg), Found(cfg, d, env.now), env.now) == d1;
    ExecuteUntimed(cfg, d1, f, env);
    var d2 := RR.Prepared(d1, f);
    assert RR.Admitted(Untimed(cfg), d2, f) == RR.Admitted(cfg, d2, f);
    if RR.Admitted(cfg, d2, f).Some? {
      var a := RR.Admitted(cfg, d2, f).value;
      DispatchUntimed(cfg, a.device, a.message, a.secured, env);
    }
  }

  // ----- Runs without too long a silence -----

  predicate OnTime(cfg: R.Config, l: Link, op: Op) {
    op.Exchange? && !op.outcome.CommandLost? ==> !TooLate(cfg, l.reader, op.env.now)
  }

  lemma ExchangeUntimed(bus: P.Bus, cfg: R.Config, l: Link, outcome: Outcome, rndA: Cipher.Nonce, env: R.Env)
    requires outcome.CommandLost? || !TooLate(cfg, l.reader, env.now)
    ensures RunExchange(bus, cfg, l, outcome, rndA, env) == RunExchange(bus, Untimed(cfg), l, outcome, rndA, env)
    ensures Raised(bus, cfg, l, outcome, rndA, env) == Raised(bus, Untimed(cfg), l, outcome, rndA, env)
  {
    hide P.Next, P.Conclude, R.Handle, PR.Answered, TakesEffect, Performed, TooLate;
    var f := P.Next(bus, l.panel, rndA).1;
    if f.Some? && !outcome.CommandLost? {
      HandleUntimed(cfg, l.reader, f.value, env);
    }
  }

  lemma StepUntimed(bus: P.Bus, cfg: R.Config, l: Link, op: Op)
    requires OnTime(cfg, l, op)
    ensures Step(bus, cfg, l, op) == Step(bus, Untimed(cfg), l, op)
  {
    hide RunExchange, P.Send, P.InstallKey, TooLate;
    match op {
      case Exchange(outcome, rndA, env) => ExchangeUntimed(bus, cfg, l, outcome, rndA, env);
      case Local(h) => HappenUntimed(cfg, l.reader, h);
      case _ =>
    }
  }

  lemma HappenUntimed(cfg: R.Config, d: R.Device, h: R.Happening)
    ensures R.Happen(cfg, d, h) == R.Happen(Untimed(cfg), d, h)
  {
    hide R.ContactStatus, R.LocalStatus, R.AppendCardRead, R.AppendKeypad;
  }

  /** No command of the run that gets through breaks too long a silence. */
  predicate AllOnTime(bus: P.Bus, cfg: R.Config, l: Link, ops: seq<Op>) {
    hide Step, OnTime;
    ops == [] || (AllOnTime(bus, cfg, l, ops[..|ops| - 1]) && OnTime(cfg, RunOps(bus, cfg, l, ops[..|ops| - 1]), ops[|ops| - 1]))
  }

  /** Then the run is that of a reader that never times the panel out, whatever its time-out is. */
  lemma {:induction false} RunUntimed(bus: P.Bus, cfg: R.Config, l: Link, ops: seq<Op>)
    requires AllOnTime(bus, cfg, l, ops)
    ensures RunOps(bus, cfg, l, ops) == RunOps(bus, Untimed(cfg), l, ops)
    decreases |ops|
  {
    hide Step, OnTime;
    if ops != [] {
      RunUntimed(bus, cfg, l, ops[..|ops| - 1]);
      StepUntimed(bus, cfg, RunOps(bus, cfg, l, ops[..|ops| - 1]), ops[|ops| - 1]);
    }
  }

  /** Section 5.7 of SIA OSDP v2.2.2 for a reader with any time-out: exactly once, as long as no silence is too long. */
  lemma ExactlyOnceOnTime(bus: P.Bus, cfg: R.Config, address: Octet, ops: seq<Op>)
    requires AR.Matched(bus, Untimed(cfg), address)
    requires AllOnTime(bus, cfg, Fresh(cfg, address), ops) && AR.TameRun(bus, Untimed(cfg), Fresh(cfg, address), ops)
    ensures var l := RunOps(bus, cfg, Fresh(cfg, address), ops);
            && l.answered <= |l.effects| <= l.answered + 1 && |l.effects| <= |l.accepted|
            && (forall i :: 0 <= i < |l.effects| ==> l.effects[i] == Effect(i, l.accepted[i]))
            && l.accepted[l.answered..] == l.panel.queue.outbox
  {
    hide RunOps, AR.Matched, AR.TameRun, AllOnTime;
    RunUntimed(bus, cfg, Fresh(cfg, address), ops);
    FreshUntimed(cfg, address);
    AR.ExactlyOnce(bus, Untimed(cfg), address, ops);
  }

  lemma FreshUntimed(cfg: R.Config, address: Octet)
    ensures Fresh(cfg, address) == Fresh(Untimed(cfg), address)
  {
  }

  // ----- One silence that is too long -----

  lemma LateExchange(bus: P.Bus, cfg: R.Config, l: Link, rndA: Cipher.Nonce, env: R.Env)
    requires Sound(cfg, l) && SameAddress(l) && l.panel.address < BROADCAST && Plainly(l.panel) && TooLate(cfg, l.reader, env.now)
    ensures RunExchange(bus, cfg, l, Delivered, rndA, env) ==
            RunExchange(bus, Untimed(cfg), l.(reader := R.Restart(l.reader)), Delivered, rndA, env)
  {
    hide RR.Orderly, PR.Settled, P.Next, P.Conclude, R.Handle, PR.Answered, TakesEffect, Performed, TooLate, CheckOK, Sequence, R.Restart, PR.PlainChoice,
      PR.InExchange, PR.SendsHead, PR.Chosen, P.NextSequence;
    PlainEmission(bus, l.panel, rndA);
    HandleUntimed(cfg, l.reader, P.Next(bus, l.panel, rndA).1.value, env);
  }

  lemma EmitKeepsClock(cfg: R.Config, d: R.Device, sequence: Octet, scheme: Check.Scheme, m: Message, block: Option<Octet>)
    ensures var e := R.Emit(cfg, d, sequence, scheme, m, block).0; e.seen == d.seen && e.lastSeen == d.lastSeen
  {
    hide S.Seal, S.Authenticate, Covered, Frames.Seal, Encode, EncodeSecure, R.CapabilitiesFor;
  }

  /** The reader notes the time of every command it takes. */
  lemma HandleNotes(cfg: R.Config, d: R.Device, f: Frame, env: R.Env)
    requires RR.Orderly(cfg, d)
    ensures var e := R.Handle(cfg, d, f, env).0; e == d || (e.seen && e.lastSeen == env.now)
  {
    hide RR.Orderly, R.AnswerFor, R.Emit, CheckOK, Sequence, SchemeOf;
    var d1 := R.Observe(cfg, d, env.now);
    RR.ObserveOrderly(cfg, d, env.now);
    RR.RestartOrderly(cfg, d1);
    var d2 := RR.Prepared(d1, f);
    RR.AnswerForDiscipline(cfg, d2, f, env);
    var (e, m, block) := R.AnswerFor(cfg, d2, f, env);
    EmitKeepsClock(cfg, e, Sequence(f.control), SchemeOf(f.control), m, block);
  }

  /** The reader was last spoken to at this moment, or never was and has answered nothing. */
  predicate Punctual(d: R.Device, now: int) {
    if d.seen then d.lastSeen == now else !d.cache.valid
  }

  lemma PunctualExchange(bus: P.Bus, cfg: R.Config, l: Link, outcome: Outcome, rndA: Cipher.Nonce, env: R.Env)
    requires RR.Orderly(cfg, l.reader) && Punctual(l.reader, env.now)
    ensures Punctual(RunExchange(bus, cfg, l, outcome, rndA, env).reader, env.now)
    ensures RunExchange(bus, cfg, l, outcome, rndA, env) == RunExchange(bus, Untimed(cfg), l, outcome, rndA, env)
  {
    hide RR.Orderly, P.Next, P.Conclude, R.Handle, PR.Answered, TakesEffect, Performed;
    var f := P.Next(bus, l.panel, rndA).1;
    if f.Some? {
      HandleNotes(cfg, l.reader, f.value, env);
    }
    ExchangeUntimed(bus, cfg, l, outcome, rndA, env);
  }

  /** The reply to an osdp_OUT is lost and the repeat comes after too long a silence: the reader has forgotten that it
      answered, and carries the command out a second time. */
  lemma CarriedOutAfterSilence(bus: P.Bus, cfg: R.Config, address: Octet, m: Message, rndA: Cipher.Nonce, env: R.Env, late: R.Env)
    requires Plain(bus, Untimed(cfg), address, env) && TameHandler(late) && m.code == OUT
    requires P.Fits(bus, RunOps(bus, cfg, Fresh(cfg, address), BringOnline(rndA, env)).panel, m)
    requires 0 < cfg.timeout < late.now - env.now
    ensures var ops := BringOnline(rndA, env) + [Submit(m)] + [Exchange(ReplyLost, rndA, env)] + [Exchange(Delivered, rndA, late)];
            var l := RunOps(bus, cfg, Fresh(cfg, address), ops);
            l.accepted == [m] && l.answered == 1 && l.effects == [Effect(0, m), Effect(0, m)]
  {
    hide RunOps, RunExchange, Repeating, BringOnline, P.Fits, Plain;
    var l := ReplyLostInTime(bus, cfg, address, m, rndA, env);
    RunOne(bus, cfg, Fresh(cfg, address), BringOnline(rndA, env) + [Submit(m)] + [Exchange(ReplyLost, rndA, env)], Exchange(Delivered, rndA, late));
    RepeatedTooLate(bus, cfg, l, m, rndA, late);
  }

  lemma ReplyLostInTime(bus: P.Bus, cfg: R.Config, address: Octet, m: Message, rndA: Cipher.Nonce, env: R.Env) returns (l: Link)
    requires Plain(bus, Untimed(cfg), address, env) && m.code == OUT && cfg.timeout > 0
    requires P.Fits(bus, RunOps(bus, cfg, Fresh(cfg, address), BringOnline(rndA, env)).panel, m)
    ensures l == RunOps(bus, cfg, Fresh(cfg, address), BringOnline(rndA, env) + [Submit(m)] + [Exchange(ReplyLost, rndA, env)])
    ensures Repeating(Untimed(cfg), l, 3, m, 1) && l.reader.seen && l.reader.lastSeen == env.now
    ensures l.accepted == [m] && l.answered == 0 && l.effects == [Effect(0, m)]
  {
    hide RunExchange, P.Fits, PR.SendsHead, R.Established, WillCarryOut, Sound, BringOnline;
    var start, ops := Fresh(cfg, address), BringOnline(rndA, env);
    OnlineInTime(bus, cfg, address, rndA, env);
    var l0 := RunOps(bus, cfg, start, ops);
    Submitted(bus, Untimed(cfg), l0, 2, m);
    var l1 := Step(bus, cfg, l0, Submit(m));
    NextIsNew(Untimed(cfg), l1, 2, [m]);
    FirstReplyLost(bus, Untimed(cfg), l1, 2, m, rndA, env);
    SoundOrderly(cfg, l1);
    PunctualExchange(bus, cfg, l1, ReplyLost, rndA, env);
    RunOne(bus, cfg, start, ops, Submit(m));
    RunOne(bus, cfg, start, ops + [Submit(m)], Exchange(ReplyLost, rndA, env));
    l := RunExchange(bus, cfg, l1, ReplyLost, rndA, env);
  }

  lemma SoundOrderly(cfg: R.Config, l: Link)
    requires Sound(Untimed(cfg), l)
    ensures RR.Orderly(cfg, l.reader) && Sound(cfg, l)
  {
    hide PR.Settled;
  }

  lemma OnlineInTime(bus: P.Bus, cfg: R.Config, address: Octet, rndA: Cipher.Nonce, env: R.Env)
    requires Plain(bus, Untimed(cfg), address, env)
    ensures var l := RunOps(bus, cfg, Fresh(cfg, address), BringOnline(rndA, env));
            && l == RunOps(bus, Untimed(cfg), Fresh(Untimed(cfg), address), BringOnline(rndA, env))
            && Between(Untimed(cfg), l, 2, []) && Answered(l, 2) && l.panel.state == P.Online && l.panel.queue.misses == 0
            && l.accepted == [] && l.answered == 0 && l.effects == [] && Punctual(l.reader, env.now)
  {
    hide RunExchange, Between, Answered;
    var start, heard := Fresh(cfg, address), Exchange(Delivered, rndA, env);
    FreshUntimed(cfg, address);
    BroughtOnline(bus, Untimed(cfg), address, rndA, env);
    FreshSound(cfg, address);
    PunctualExchange(bus, cfg, start, Delivered, rndA, env);
    var l1 := RunExchange(bus, cfg, start, Delivered, rndA, env);
    RR.BelowBroadcast(address);
    ExchangeSound(bus, cfg, start, Delivered, rndA, env);
    PunctualExchange(bus, cfg, l1, Delivered, rndA, env);
    RunOne(bus, cfg, start, [], heard);
    RunOne(bus, cfg, start, [heard], heard);
    RunOne(bus, Untimed(cfg), start, [], heard);
    RunOne(bus, Untimed(cfg), start, [heard], heard);
  }

  lemma RepeatedTooLate(bus: P.Bus, cfg: R.Config, l: Link, m: Message, rndA: Cipher.Nonce, late: R.Env)
    requires Repeating(Untimed(cfg), l, 3, m, 1) && TooLate(cfg, l.reader, late.now) && TameHandler(late) && m.code == OUT
    ensures var l' := RunExchange(bus, cfg, l, Delivered, rndA, late);
            l'.accepted == l.accepted && l'.answered == l.answered + 1 && l'.effects == l.effects + [Effect(l.answered, m)]
  {
    hide RunExchange, RR.Orderly, PR.Settled, TooLate, PR.SendsHead, NextNumber;
    SoundOrderly(cfg, l);
    RR.RestartOrderly(Untimed(cfg), l.reader);
    LateExchange(bus, cfg, l, rndA, late);
    RepeatsHead(l.panel);
    HeadChosen(l.panel);
    HeadCarriedOut(bus, Untimed(cfg), l.(reader := R.Restart(l.reader)), m, rndA, late);
  }
}
