/** The two device objects on one line, driven as internal/panel/cycle.go drives them. What is proved of runs of a link
    holds of the objects, because every operation on them is the step of the same name. */
module LinkObjects {
  import opened Octets
  import opened Frames
  import opened Messages
  import opened Links
  import opened AgreementRuns
  import Cipher
  import BD = BusDevices
  import RD = ReaderDevices
  import P = Panel
  import PR = PanelRuns
  import R = Reader

  class Line {
    const bus: P.Bus
    const panel: BD.Device
    const reader: RD.Device
    ghost var link: Link

    /** The link is what the two objects hold, and no session is shared. */
    ghost predicate Valid()
      reads this, panel, panel.session, panel.board, reader, reader.session, reader.inputs, reader.outputs
    {
      && panel.Uses(bus) && reader.Valid()
      && (panel.session != null ==> panel.session != reader.session)
      && link.panel == panel.View() && link.reader == reader.View()
    }

    constructor (bus: P.Bus, cfg: R.Config, address: Octet)
      ensures Valid() && this.bus == bus && reader.cfg == cfg && link == Fresh(cfg, address)
      ensures fresh(panel) && fresh(panel.board) && fresh(reader) && fresh(reader.inputs) && fresh(reader.outputs)
      ensures panel.session == null && reader.session == null
    {
      this.bus := bus;
      panel := new BD.Device(address);
      reader := new RD.Device(cfg, address);
      link := Fresh(cfg, address);
    }

    /** What the panel does with the answer, or with the lack of one. */
    method Await(answer: Option<Frame>) returns (event: P.Event)
      requires panel.Uses(bus)
      modifies panel, panel.session, panel.board
      ensures (panel.View(), event) == P.Conclude(bus, old(panel.View()), answer) && panel.Uses(bus)
      ensures panel.session == old(panel.session) || panel.session == null || fresh(panel.session)
    {
      hide P.Reply, P.Timeout;
      if answer.Some? {
        var r := panel.Reply(bus, answer.value);
        if r.Ok? { return r.value; }
      }
      event := panel.Timeout();
    }

    method Exchange(outcome: Outcome, rndA: Cipher.Nonce, env: R.Env)
      requires Valid()
      modifies this, panel, panel.session, panel.board, reader, reader.session, reader.outputs
      ensures Valid() && link == RunExchange(bus, reader.cfg, old(link), outcome, rndA, env)
      ensures panel.session == old(panel.session) || panel.session == null || fresh(panel.session)
      ensures reader.session == old(reader.session) || reader.session == null || fresh(reader.session)
    {
      hide P.Next, P.Conclude, R.Handle, PR.Answered, TakesEffect, Performed, BD.Device.View, RD.Device.View;
      link := RunExchange(bus, reader.cfg, link, outcome, rndA, env);
      var f := panel.Next(bus, rndA);
      if f.None? { return; }
      var heard: Option<Frame> := None;
      if !outcome.CommandLost? {
        var reply := reader.Handle(f.value, env);
        if outcome.Delivered? && reply.Ok? {
          heard := Some(reply.value);
        }
      }
      var _ := Await(heard);
    }

    method Submit(m: Message) returns (ok: bool)
      requires Valid()
      modifies this, panel
      ensures Valid() && link == Step(bus, reader.cfg, old(link), Op.Submit(m))
      ensures panel.session == old(panel.session)
      ensures ok <==> link.accepted == old(link.accepted) + [m]
    {
      hide P.Send, BD.Device.View, RD.Device.View;
      link := Step(bus, reader.cfg, link, Op.Submit(m));
      ok := panel.Send(bus, m);
    }

    method Install(key: Cipher.Block) returns (ok: bool)
      requires Valid()
      modifies this, panel
      ensures Valid() && link == Step(bus, reader.cfg, old(link), Op.Install(key))
      ensures panel.session == old(panel.session)
    {
      hide P.InstallKey, BD.Device.View, RD.Device.View;
      link := Step(bus, reader.cfg, link, Op.Install(key));
      ok := panel.InstallKey(key);
    }

    method Happen(h: R.Happening)
      requires Valid()
      modifies this, reader, reader.inputs
      ensures Valid() && link == Step(bus, reader.cfg, old(link), Local(h))
      ensures reader.session == old(reader.session)
    {
      hide R.Happen, BD.Device.View, RD.Device.View;
      link := Step(bus, reader.cfg, link, Local(h));
      var _ := Report(h);
    }

    method Report(h: R.Happening) returns (ok: bool)
      requires reader.Valid()
      modifies reader, reader.inputs
      ensures (reader.View(), ok) == R.Happen(reader.cfg, old(reader.View()), h) && reader.Valid()
      ensures reader.session == old(reader.session)
    {
      hide R.Happen;
      match h {
        case CardPresented(card) => ok := reader.ReportCardRead(card);
        case KeysPressed(which, keys) => ok := reader.ReportKeypad(which, keys);
        case InputMoved(index, active) => ok := reader.SetInput(index, active);
        case TamperMoved(active) => ok := reader.SetTamper(active);
        case PowerMoved(failure) => ok := reader.SetPower(failure);
      }
    }

    method Perform(op: Op)
      requires Valid()
      modifies this, panel, panel.session, panel.board, reader, reader.session, reader.inputs, reader.outputs
      ensures Valid() && link == Step(bus, reader.cfg, old(link), op)
      ensures panel.session == old(panel.session) || panel.session == null || fresh(panel.session)
      ensures reader.session == old(reader.session) || reader.session == null || fresh(reader.session)
    {
      hide P.Send, P.InstallKey, R.Happen, RunExchange;
      match op {
        case Submit(m) => var _ := Submit(m);
        case Install(key) => var _ := Install(key);
        case Local(h) => Happen(h);
        case Exchange(outcome, rndA, env) => Exchange(outcome, rndA, env);
      }
    }
  }

  /** What the reader carried out are the commands answered, each as it was handed in, each once and in order, followed at
      most by the one at the head of what the panel still holds. */
  predicate ExactlyOnceWith(l: Link, queued: seq<Message>) {
    && l.answered <= |l.effects| <= l.answered + 1 && |l.effects| <= |l.accepted|
    && (forall i :: 0 <= i < |l.effects| ==> l.effects[i] == Effect(i, l.accepted[i]))
    && l.accepted[l.answered..] == queued
  }

  /** Section 5.7 of SIA OSDP v2.2.2, of the objects: two devices made fresh and driven through any operations go through
      the run of the link, so every command handed in is carried out once. */
  method Drive(bus: P.Bus, cfg: R.Config, address: Octet, ops: seq<Op>) returns (line: Line)
    ensures fresh(line) && line.Valid() && line.bus == bus && line.reader.cfg == cfg
    ensures line.link == RunOps(bus, cfg, Fresh(cfg, address), ops)
    ensures Matched(bus, cfg, address) && TameRun(bus, cfg, Fresh(cfg, address), ops) ==>
              ExactlyOnceWith(line.link, line.panel.outbox)
  {
    hide Step, Matched, TameRun, ExactlyOnceWith;
    line := new Line(bus, cfg, address);
    for i := 0 to |ops|
      invariant fresh(line) && fresh(line.panel) && fresh(line.panel.board)
      invariant fresh(line.reader) && fresh(line.reader.inputs) && fresh(line.reader.outputs)
      invariant line.panel.session == null || fresh(line.panel.session)
      invariant line.reader.session == null || fresh(line.reader.session)
      invariant line.Valid() && line.bus == bus && line.reader.cfg == cfg
      invariant line.link == RunOps(bus, cfg, Fresh(cfg, address), ops[..i])
    {
      assert ops[..i + 1][..i] == ops[..i];
      line.Perform(ops[i]);
    }
    assert ops[..|ops|] == ops;
    DrivenOnce(bus, cfg, address, ops);
  }

  lemma DrivenOnce(bus: P.Bus, cfg: R.Config, address: Octet, ops: seq<Op>)
    ensures var l := RunOps(bus, cfg, Fresh(cfg, address), ops);
            Matched(bus, cfg, address) && TameRun(bus, cfg, Fresh(cfg, address), ops) ==>
              ExactlyOnceWith(l, l.panel.queue.outbox)
  {
    hide RunOps, Matched, TameRun;
    if Matched(bus, cfg, address) && TameRun(bus, cfg, Fresh(cfg, address), ops) {
      ExactlyOnce(bus, cfg, address, ops);
    }
  }
}
