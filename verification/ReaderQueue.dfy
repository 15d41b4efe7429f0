/** What the reader owes its panel: card reads in the order they were accepted, and outputs as the last command
    that named them left them. internal/pd/report.go and control.go. */
module ReaderQueue {
  import opened Octets
  import opened Frames
  import opened Messages
  import opened Reader
  import opened ReaderRuns
  import S = Sessions

  // ----- Card reads, first in first out -----

  /** The card reads among some messages, in order. */
  function Cards(messages: seq<Message>): seq<Message> {
    if messages == [] then []
    else if messages[0].code == RAW then [messages[0]] + Cards(messages[1..])
    else Cards(messages[1..])
  }

  lemma {:induction false} CardsJoin(a: seq<Message>, b: seq<Message>)
    ensures Cards(a + b) == Cards(a) + Cards(b)
  {
    if a == [] {
      assert a + b == b;
    } else {
      CardsJoin(a[1..], b);
      assert (a + b)[1..] == a[1..] + b;
    }
  }

  lemma CardsReplaced(messages: seq<Message>, k: nat, m: Message)
    requires k < |messages| && m.code != RAW && messages[k].code != RAW
    ensures Cards(messages[k := m]) == Cards(messages)
  {
    var a, b := messages[..k], messages[k + 1..];
    assert messages == a + [messages[k]] + b && messages[k := m] == a + [m] + b;
    CardsJoin(a + [m], b);
    CardsJoin(a, [m]);
    CardsJoin(a + [messages[k]], b);
    CardsJoin(a, [messages[k]]);
    assert Cards([m]) == [] && Cards([messages[k]]) == [];
  }

  datatype Op = Happens(happening: Happening) | Commanded(command: Frame, env: Env)

  /** A device, the card reads it accepted, and the reports its answers to polls carried off. */
  datatype Run = Run(device: Device, accepted: seq<Message>, reported: seq<Message>)

  /** The card read a happening is, when it is one. */
  function CardOf(h: Happening): seq<Message> {
    if h.CardPresented? then [Message(RAW, AppendCardRead(h.card))] else []
  }

  /** The report an answer carries off: the head of the queue, when the command dispatched was a poll. */
  function Carried(cfg: Config, d: Device, f: Frame, env: Env): seq<Message> {
    hide Handle;
    if |Handle(cfg, d, f, env).0.pending| < |d.pending| then [d.pending[0]] else []
  }

  function Step(cfg: Config, r: Run, op: Op): Run {
    match op
    case Happens(h) =>
      var (d, ok) := Happen(cfg, r.device, h);
      r.(device := d, accepted := if ok then r.accepted + CardOf(h) else r.accepted)
    case Commanded(f, env) =>
      r.(device := Handle(cfg, r.device, f, env).0, reported := r.reported + Carried(cfg, r.device, f, env))
  }

  /** Nothing accepted is lost, doubled or overtaken, and the queue stays within its bound. */
  ghost predicate InOrder(cfg: Config, r: Run) {
    && Orderly(cfg, r.device) && |r.device.pending| <= cfg.queue
    && r.accepted == Cards(r.reported) + Cards(r.device.pending)
  }

  lemma CoalesceKeepsCards(cfg: Config, pending: seq<Message>, m: Message)
    requires m.code != RAW
    ensures Cards(Coalesce(cfg, pending, m).0) == Cards(pending)
  {
    var k := FirstWith(pending, m.code);
    if k < |pending| {
      CardsReplaced(pending, k, m);
    } else {
      CardsJoin(pending, [m]);
    }
  }

  lemma QueueCards(cfg: Config, pending: seq<Message>, m: Message)
    ensures var (q, ok) := Queue(cfg, pending, m); Cards(q) == if ok then Cards(pending) + Cards([m]) else Cards(pending)
  {
    CardsJoin(pending, [m]);
  }

  /** A card read that is accepted joins the back; nothing else that happens moves the card reads. */
  lemma HappenCards(cfg: Config, d: Device, h: Happening)
    ensures var (d', ok) := Happen(cfg, d, h);
            Cards(d'.pending) == if ok then Cards(d.pending) + CardOf(h) else Cards(d.pending)
  {
    hide ContactStatus, LocalStatus, Coalesce, Queue, AppendCardRead, AppendKeypad, Cards;
    StatusCodes(Happen(cfg, d, h).0.points);
    match h {
      case CardPresented(c) =>
        QueueCards(cfg, d.pending, Message(RAW, AppendCardRead(c)));
        OneCard(Message(RAW, AppendCardRead(c)));
      case KeysPressed(reader, keys) =>
        QueueCards(cfg, d.pending, Message(KEYPAD, AppendKeypad(reader, keys)));
        OneCard(Message(KEYPAD, AppendKeypad(reader, keys)));
      case InputMoved(index, active) =>
        CoalesceKeepsCards(cfg, d.pending, ContactStatus(ISTATR, Happen(cfg, d, h).0.points.inputs));
      case TamperMoved(active) => CoalesceKeepsCards(cfg, d.pending, LocalStatus(Happen(cfg, d, h).0.points));
      case PowerMoved(failure) => CoalesceKeepsCards(cfg, d.pending, LocalStatus(Happen(cfg, d, h).0.points));
    }
  }

  lemma OneCard(m: Message)
    ensures Cards([m]) == if m.code == RAW then [m] else []
  {
    assert [m][1..] == [];
  }

  /** A command leaves the queue alone or takes its head. */
  lemma HandlePending(cfg: Config, d: Device, f: Frame, env: Env)
    requires Orderly(cfg, d)
    ensures var q := Handle(cfg, d, f, env).0.pending; q == d.pending || (d.pending != [] && q == d.pending[1..])
  {
    hide Orderly, CheckOK, Sequence, SchemeOf, AnswerFor, EncodeReply, HandshakeBlock;
    var d1 := Observe(cfg, d, env.now);
    ObserveOrderly(cfg, d, env.now);
    RestartOrderly(cfg, d1);
    AnswerForDiscipline(cfg, Prepared(d1, f), f, env);
    var (e, m, block) := AnswerFor(cfg, Prepared(d1, f), f, env);
    EmitPending(cfg, e, Sequence(f.control), SchemeOf(f.control), m, block);
  }

  lemma EmitPending(cfg: Config, e: Device, sequence: Octet, scheme: Reader.Check.Scheme, m: Message, block: Option<Octet>)
    ensures Emit(cfg, e, sequence, scheme, m, block).0.pending == e.pending
  {
    hide Encode, EncodeSecure, Frames.Seal, S.Seal, S.Authenticate, EncryptedBlock, HandshakeBlock, Covered, CapabilitiesFor;
  }

  lemma StepInOrder(cfg: Config, r: Run, op: Op)
    requires InOrder(cfg, r)
    ensures InOrder(cfg, Step(cfg, r, op))
  {
    hide Orderly, Handle, Happen, CardOf, Cards;
    match op {
      case Happens(h) =>
        HappenCards(cfg, r.device, h);
        HappenOrderly(cfg, r.device, h);
        WithinBound(cfg, Happen(cfg, r.device, h).0);
      case Commanded(f, env) =>
        HandlePending(cfg, r.device, f, env);
        HandleDiscipline(cfg, r.device, f, env);
        CardsJoin(r.reported, Carried(cfg, r.device, f, env));
        if r.device.pending != [] {
          CardsJoin([r.device.pending[0]], r.device.pending[1..]);
          assert r.device.pending == [r.device.pending[0]] + r.device.pending[1..];
        }
        NoCards();
    }
  }

  lemma NoCards()
    ensures Cards([]) == []
  {
  }

  lemma WithinBound(cfg: Config, d: Device)
    requires Orderly(cfg, d)
    ensures |d.pending| <= cfg.queue
  {
  }

  function RunOps(cfg: Config, r: Run, ops: seq<Op>): Run {
    hide Step;
    if ops == [] then r else Step(cfg, RunOps(cfg, r, ops[..|ops| - 1]), ops[|ops| - 1])
  }

  /** Over every run: the card reads accepted are those reported, in the order they were accepted, followed by
      those still waiting. */
  lemma {:induction false} CardReadsInOrder(cfg: Config, address: Octet, ops: seq<Op>)
    requires ValidConfig(cfg) && address < BROADCAST
    ensures InOrder(cfg, RunOps(cfg, Run(New(cfg, address), [], []), ops))
    decreases |ops|
  {
    hide Step, InOrder;
    if ops == [] {
      NewInOrder(cfg, address);
    } else {
      var n := |ops| - 1;
      CardReadsInOrder(cfg, address, ops[..n]);
      StepInOrder(cfg, RunOps(cfg, Run(New(cfg, address), [], []), ops[..n]), ops[n]);
    }
  }

  lemma NewInOrder(cfg: Config, address: Octet)
    requires ValidConfig(cfg) && address < BROADCAST
    ensures InOrder(cfg, Run(New(cfg, address), [], []))
  {
    hide CapabilitiesFor;
  }

  /** The answer that takes a report off the queue is the report. */
  lemma CarriedIsAnswered(cfg: Config, d: Device, f: Frame, env: Env)
    requires Orderly(cfg, d) && Carried(cfg, d, f, env) != []
    ensures d.pending != [] && AnswerFor(cfg, Prepared(Observe(cfg, d, env.now), f), f, env).1 == d.pending[0]
  {
    hide Orderly, CheckOK, Sequence, SchemeOf, Answer, EncodeReply;
    var d1 := Observe(cfg, d, env.now);
    ObserveOrderly(cfg, d, env.now);
    RestartOrderly(cfg, d1);
    var (e, m, block) := AnswerFor(cfg, Prepared(d1, f), f, env);
    EmitPending(cfg, e, Sequence(f.control), SchemeOf(f.control), m, block);
    if |Answer(cfg, Prepared(d1, f), f, env).0.pending| < |d.pending| {
      PendingTaken(cfg, Prepared(d1, f), f, env);
    }
  }

  lemma PendingTaken(cfg: Config, d: Device, f: Frame, env: Env)
    requires Orderly(cfg, d) && |Answer(cfg, d, f, env).0.pending| < |d.pending|
    ensures d.pending != [] && Answer(cfg, d, f, env).1 == d.pending[0]
  {
    hide Orderly, Answer, Dispatch, Open, ReplyBlock;
    if Admitted(cfg, d, f).Some? {
      AnswerAdmitted(cfg, d, f, env);
      var a := Admitted(cfg, d, f).value;
      OnlyPollsTake(cfg, a.device, a.message, a.secured, env);
    } else {
      AnswerUnadmitted(cfg, d, f, env);
    }
  }

  lemma OnlyPollsTake(cfg: Config, d: Device, m: Message, secured: bool, env: Env)
    ensures var (e, answer) := Dispatch(cfg, d, m, secured, env);
            |e.pending| < |d.pending| ==> m.code == POLL && answer == d.pending[0]
  {
    hide EntriesValid, FoldOutputs, ParseCommunication, ParseKeySet, Delegate, AppendCapabilities, ContactStatus, LocalStatus;
  }

  // ----- Outputs -----

  /** What the entries of a payload, taken from the last back, say of one output: the last that energises or
      releases it, if any does. */
  function LastWord(data: seq<Octet>, k: nat): Option<bool>
    requires |data| % OUTPUT_ENTRY_SIZE == 0
    decreases |data|
  {
    if data == [] then None
    else
      var later := LastWord(data[OUTPUT_ENTRY_SIZE..], k);
      if later.Some? then later
      else if Nat(data[0]) == k && OutputActionFor(data[1]) == Energise then Some(true)
      else if Nat(data[0]) == k && OutputActionFor(data[1]) == Deenergise then Some(false)
      else None
  }

  /** After an accepted osdp_OUT every output is as the last entry naming it says, and as it was when none does. */
  lemma {:induction false} LastEntryWins(outputs: seq<bool>, data: seq<Octet>, k: nat)
    requires |data| % OUTPUT_ENTRY_SIZE == 0 && EntriesValid(|outputs|, data) && k < |outputs|
    ensures FoldOutputs(outputs, data)[k] == if LastWord(data, k).Some? then LastWord(data, k).value else outputs[k]
    decreases |data|
  {
    hide OutputActionFor, Nat;
    if data != [] {
      LastEntryWins(ApplyEntry(outputs, Nat(data[0]), OutputActionFor(data[1])), data[OUTPUT_ENTRY_SIZE..], k);
    }
  }

  /** A refused osdp_OUT changes nothing; an accepted one leaves every output as its last entry says. It is
      accepted exactly when it is a whole, non-empty list of entries that name known outputs and known actions. */
  lemma OutputsExact(d: Device, data: seq<Octet>)
    ensures var (d', m) := ApplyOutputs(d, data);
            && (m == Ack() <==> data != [] && |data| % OUTPUT_ENTRY_SIZE == 0 && EntriesValid(|d.points.outputs|, data))
            && (m != Ack() ==> d' == d && m.code == NAK)
            && (m == Ack() ==> |d'.points.outputs| == |d.points.outputs|)
            && (m == Ack() ==> forall k :: 0 <= k < |d.points.outputs| ==>
                  d'.points.outputs[k] == if LastWord(data, k).Some? then LastWord(data, k).value else d.points.outputs[k])
  {
    hide FoldOutputs, EntriesValid, LastWord;
    if ApplyOutputs(d, data).1 == Ack() {
      forall k | 0 <= k < |d.points.outputs|
        ensures FoldOutputs(d.points.outputs, data)[k] == if LastWord(data, k).Some? then LastWord(data, k).value else d.points.outputs[k]
      {
        LastEntryWins(d.points.outputs, data, k);
      }
    }
  }
}
