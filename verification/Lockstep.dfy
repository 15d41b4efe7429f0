/** Two established sessions with the same keys and the same reply chain. Section 7.4 of SIA OSDP v2.2.2. */
module Lockstep {
  import opened Octets
  import opened Frames
  import opened Messages
  import Check
  import Cipher
  import S = Sessions
  import P = Panel
  import PR = PanelRuns
  import R = Reader
  import RR = ReaderRuns

  /** A frame finished from an untagged one: the tag is in place and only the check differs. */
  predicate Finishes(f: Frame, g: Frame, tag: seq<Octet>) {
    f == g.(data := g.data + tag, check := f.check)
  }

  lemma BodyOfTagged(f: Frame, g: Frame, tag: seq<Octet>)
    requires |tag| == S.MAC_TAG_SIZE && Finishes(f, g, tag)
    ensures Covered(f) == Header(g, Len(f)) + BlockOctets(g.security) + [g.code] + g.data
    ensures Len(f) == Len(g) + S.MAC_TAG_SIZE
  {
    hide Header, BlockOctets, SchemeOf, BlockLen;
    assert Header(f, Len(f)) == Header(g, Len(f)) by {
      SameHeader(f, g, Len(f));
    }
    assert Body(f) == Header(g, Len(f)) + BlockOctets(g.security) + [g.code] + g.data + tag;
  }

  lemma SameHeader(f: Frame, g: Frame, n: nat)
    requires f.isReply == g.isReply && f.address == g.address && f.control == g.control
    ensures Header(f, n) == Header(g, n)
  {
  }

  /** The octets the tag covers do not depend on the tag: what the sender authenticates with the room
      reserved is what the receiver verifies. */
  lemma CoveredAlike(f: Frame, g: Frame, tag: seq<Octet>)
    requires |tag| == S.MAC_TAG_SIZE && Finishes(f, g, tag)
    ensures Covered(f) == Covered(g.(data := g.data + Zeros(S.MAC_TAG_SIZE)))
  {
    hide Covered, Header, BlockOctets, Len;
    BodyOfTagged(f, g, tag);
    BodyOfTagged(g.(data := g.data + Zeros(S.MAC_TAG_SIZE)), g, Zeros(S.MAC_TAG_SIZE));
  }

  lemma CarriesFinishes(
    f: Frame, isReply: bool, address: Octet, sequence: Octet, scheme: Check.Scheme, code: Octet, kind: Octet, data: seq<Octet>,
    tag: seq<Octet>)
    requires Carries(f, isReply, address, sequence, scheme, code, Some(kind)) && f.data == data + tag
    ensures Finishes(f, Untagged(isReply, address, sequence, scheme, code, kind, data), tag)
  {
    hide CheckOK, NewControl;
  }

  /** A command sealed from one chain opens, at an end that holds the same keys and the same chain, to the
      very code and payload it was made from, and moves both command chains to the same value. */
  lemma CommandOpens(su: S.Suite, rs: S.Session, f: Frame, g: Frame, data: seq<Octet>, kind: Octet)
    requires su.Lawful() && rs.phase == S.Established
    requires g.security == Some(SecurityBlock(kind, [])) && g.data == Enciphered(su, rs.keys, rs.rmac, kind, data)
    requires Finishes(f, g, S.Tag(MacOver(su, rs.keys, rs.rmac, g)))
    ensures R.Open(su, rs, f) == (rs.(cmac := MacOver(su, rs.keys, rs.rmac, g)), Ok(data))
  {
    hide Covered, EncryptedBlock, S.Tag;
    var mac := MacOver(su, rs.keys, rs.rmac, g);
    CoveredAlike(f, g, S.Tag(mac));
    var split := |f.data| - S.MAC_TAG_SIZE;
    assert f.data[split..] == S.Tag(mac) && f.data[..split] == g.data;
    if EncryptedBlock(kind) {
      assert su.open(rs.keys, rs.rmac, su.seal(rs.keys, rs.rmac, data)) == Ok(data);
    }
  }

  /** And the same for the reply, which is opened after the reply chain has already moved. */
  lemma ReplyOpens(su: S.Suite, ps: S.Session, f: Frame, g: Frame, data: seq<Octet>, kind: Octet)
    requires su.Lawful() && ps.phase == S.Established
    requires g.security == Some(SecurityBlock(kind, [])) && g.data == Enciphered(su, ps.keys, ps.cmac, kind, data)
    requires Finishes(f, g, S.Tag(MacOver(su, ps.keys, ps.cmac, g)))
    ensures P.OpenReply(su, ps, f) == (ps.(rmac := MacOver(su, ps.keys, ps.cmac, g)), Ok(data))
  {
    hide Covered, EncryptedBlock, S.Tag;
    var mac := MacOver(su, ps.keys, ps.cmac, g);
    CoveredAlike(f, g, S.Tag(mac));
    var split := |f.data| - S.MAC_TAG_SIZE;
    assert f.data[split..] == S.Tag(mac) && f.data[..split] == g.data;
    if EncryptedBlock(kind) {
      assert su.open(ps.keys, ps.cmac, su.seal(ps.keys, ps.cmac, data)) == Ok(data);
    }
  }

  // ----- One command and its answer, end to end -----

  /** Both ends hold an established session with the same keys and the same reply chain. */
  predicate InSync(d: P.Device, r: R.Device) {
    && P.SecureEstablished(d) && R.Established(r)
    && d.channel.session.value.keys == r.session.value.keys
    && d.channel.session.value.rmac == r.session.value.rmac
  }

  /** The code the next sealed command is authenticated with. */
  function NextMac(bus: P.Bus, d: P.Device): Cipher.Block
    requires d.channel.session.Some?
  {
    var s := d.channel.session.value;
    var (m, block) := PR.PlainChoice(d);
    var kind := if block.Some? then block.value else 0;
    var sequence := P.NextSequence(PR.Chosen(d)).sequence;
    MacOver(bus.suite, s.keys, s.rmac,
            Untagged(false, d.address, sequence, bus.scheme, m.code, kind, Enciphered(bus.suite, s.keys, s.rmac, kind, m.data)))
  }

  /** The panel's command is admitted by the reader as exactly the command that was chosen, and both command
      chains take the same value. */
  lemma CommandAdmitted(bus: P.Bus, cfg: R.Config, d: P.Device, r: R.Device, rndA: Cipher.Nonce)
    requires bus.suite == cfg.suite && bus.suite.Lawful() && cfg.secure
    requires PR.Consistent(d) && ValidAddress(d.address) && d.state == P.Secure && InSync(d, r)
    ensures var (p1, f) := P.Next(bus, d, rndA);
            var mac := NextMac(bus, d);
            && f.Some?
            && p1 == d.(queue := P.NextSequence(PR.Chosen(d)),
                        channel := d.channel.(session := Some(d.channel.session.value.(cmac := mac))))
            && RR.Admitted(cfg, r, f.value) ==
               Some(RR.Admission(r.(session := Some(r.session.value.(cmac := mac))), PR.PlainChoice(d).0, true))
  {
    hide P.Next, P.ComposeSealed, PR.PlainChoice, PR.Chosen, P.NextSequence, ValidAddress, Untagged, Enciphered, MacOver, R.Open, Finishes,
      EstablishedBlock, CheckOK, NewControl;
    PR.EmitsSealed(bus, d, rndA);
    PR.ChoiceBlocks(d);
    SealedKinds(d);
    var (m, block) := PR.PlainChoice(d);
    var kind := block.value;
    var q := P.NextSequence(PR.Chosen(d));
    var s := d.channel.session.value;
    PR.ComposeSealedCarries(bus, d.(queue := PR.Chosen(d)), m, kind);
    var f := P.Next(bus, d, rndA).1.value;
    var g := Untagged(false, d.address, q.sequence, bus.scheme, m.code, kind, Enciphered(bus.suite, s.keys, s.rmac, kind, m.data));
    var tag := S.Tag(MacOver(bus.suite, s.keys, s.rmac, g));
    CarriesFinishes(f, false, d.address, q.sequence, bus.scheme, m.code, kind, g.data, tag);
    UntaggedBlock(false, d.address, q.sequence, bus.scheme, m.code, kind, Enciphered(bus.suite, s.keys, s.rmac, kind, m.data));
    CommandOpens(bus.suite, r.session.value, f, g, m.data, kind);
  }

  lemma UntaggedBlock(isReply: bool, address: Octet, sequence: Octet, scheme: Check.Scheme, code: Octet, kind: Octet, data: seq<Octet>)
    ensures var g := Untagged(isReply, address, sequence, scheme, code, kind, data);
            g.security == Some(SecurityBlock(kind, [])) && g.data == data
  {
  }

  lemma SealedKinds(d: P.Device)
    requires d.state == P.Secure
    ensures PR.PlainChoice(d).1 == Some(SCS_15) || PR.PlainChoice(d).1 == Some(SCS_17)
  {
  }

  /** The reader's sealed reply is read by the panel as exactly the message that was sealed, and both reply
      chains take the same value. */
  lemma ReplyRead(bus: P.Bus, cfg: R.Config, p: P.Device, e: R.Device, m: Message, sequence: Octet, scheme: Check.Scheme)
    requires bus.suite == cfg.suite && bus.suite.Lawful()
    requires P.SecureEstablished(p) && R.Established(e) && ValidAddress(e.address) && p.address == e.address
    requires p.channel.session.value.keys == e.session.value.keys && p.channel.session.value.cmac == e.session.value.cmac
    requires 1 <= sequence <= SEQUENCE_ROTATION
    ensures var (e', f) := R.EncodeReply(cfg, e, m, sequence, scheme, Some(R.ReplyBlock(|m.data|)));
            && f.Some? && e'.session.Some?
            && PR.Read(bus, p, f.value) == PR.Answer(m)
            && P.OpenReply(bus.suite, p.channel.session.value, f.value).0 == p.channel.session.value.(rmac := e'.session.value.rmac)
            && e' == e.(session := Some(e.session.value.(rmac := e'.session.value.rmac)))
  {
    hide R.EncodeReply, R.ReplyBlock, P.OpenReply, ValidAddress, Untagged, Enciphered, MacOver, Finishes, CheckOK, NewControl, Sequence;
    var kind := R.ReplyBlock(|m.data|);
    var s := e.session.value;
    ReplyKinds(|m.data|);
    SealReplyEncoded(cfg, e, m, sequence, scheme, kind);
    RR.SealReplyCarries(cfg, e, m, sequence, scheme, kind);
    var f := R.EncodeReply(cfg, e, m, sequence, scheme, Some(kind)).1.value;
    var data := Enciphered(cfg.suite, s.keys, s.cmac, kind, m.data);
    var g := Untagged(true, e.address, sequence, scheme, m.code, kind, data);
    UntaggedBlock(true, e.address, sequence, scheme, m.code, kind, data);
    CarriesFinishes(f, true, e.address, sequence, scheme, m.code, kind, g.data, S.Tag(MacOver(cfg.suite, s.keys, s.cmac, g)));
    ReplyOpens(bus.suite, p.channel.session.value, f, g, m.data, kind);
    PR.SequenceOfControl(sequence, scheme, true);
  }

  lemma ReplyKinds(n: nat)
    ensures R.ReplyBlock(n) == SCS_16 || R.ReplyBlock(n) == SCS_18
    ensures !HandshakeBlock(R.ReplyBlock(n))
  {
  }

  lemma SealReplyEncoded(cfg: R.Config, e: R.Device, m: Message, sequence: Octet, scheme: Check.Scheme, kind: Octet)
    requires !HandshakeBlock(kind)
    ensures R.EncodeReply(cfg, e, m, sequence, scheme, Some(kind)) == R.SealReply(cfg, e, m, sequence, scheme, kind)
  {
    hide R.SealReply;
  }
}
