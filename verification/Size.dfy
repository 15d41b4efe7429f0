/** What a composed command becomes on the line: its octets, and how many there are. internal/bus/size.go. */
module Size {
  import opened Octets
  import opened Frames
  import opened Messages
  import opened Lockstep
  import Check
  import Cipher
  import S = Sessions
  import P = Panel
  import PR = PanelRuns

  /** The octets of a frame that carries a message, whatever follows them on the line, decode to that frame. */
  lemma CarriedIntact(
    f: Frame, isReply: bool, address: Octet, sequence: Octet, scheme: Check.Scheme, code: Octet, block: Option<Octet>, more: seq<Octet>)
    requires Carries(f, isReply, address, sequence, scheme, code, block) && Append(f).Ok?
    ensures Decode(Append(f).value + more) == Decoded(f)
  {
    hide Decode, Append, NewControl, HasSecurityBlock, SchemeOf, Body, Check.Crc, Check.SumCheck;
    NewControlFields(sequence, scheme, block.Some?);
    EncodeThenDecode(f, more);
  }

  lemma PaddedMore(n: nat)
    ensures Cipher.PaddedLen(n) >= n
  {
  }

  /** A command sent in the clear. */
  lemma PlainLength(bus: P.Bus, d: P.Device, rndA: Cipher.Nonce)
    requires PR.Consistent(d) && ValidAddress(d.address) && d.state == P.Online
    ensures var f := P.Next(bus, d, rndA).1;
            f.Some? && WireLen(f.value) == HEADER_SIZE + 1 + |PR.PlainChoice(d).0.data| + bus.scheme.Size()
  {
    hide P.Next, PR.PlainChoice, NewControl, CheckOK, SchemeOf, PR.Chosen, P.NextSequence, ValidAddress;
    PR.EmitsPlain(bus, d, rndA);
    PR.ChoiceBlocks(d);
    NewControlFields(P.Next(bus, d, rndA).0.queue.sequence, bus.scheme, false);
  }

  /** A command sent sealed: the security block, the padding and the tag included. */
  lemma SealedLength(bus: P.Bus, d: P.Device, rndA: Cipher.Nonce)
    requires PR.Consistent(d) && ValidAddress(d.address) && d.state == P.Secure && bus.suite.Lawful()
    ensures var f := P.Next(bus, d, rndA).1;
            var n := |PR.PlainChoice(d).0.data|;
            && f.Some?
            && WireLen(f.value) == HEADER_SIZE + 2 + 1 + ((if n > 0 then Cipher.PaddedLen(n) else 0) + S.MAC_TAG_SIZE) + bus.scheme.Size()
  {
    hide P.Next, PR.PlainChoice, NewControl, CheckOK, SchemeOf, PR.Chosen, P.NextSequence, ValidAddress, Untagged, Enciphered, MacOver, P.ComposeSealed,
      Cipher.PaddedLen, Carries;
    PR.EmitsSealed(bus, d, rndA);
    SealedKind(d);
    var (m, block) := PR.PlainChoice(d);
    var s := d.channel.session.value;
    PR.ComposeSealedCarries(bus, d.(queue := PR.Chosen(d)), m, block.value);
    var sequence := P.NextSequence(PR.Chosen(d)).sequence;
    var data := Enciphered(bus.suite, s.keys, s.rmac, block.value, m.data);
    UntaggedBlock(false, d.address, sequence, bus.scheme, m.code, block.value, data);
    EncipheredLength(bus.suite, s.keys, s.rmac, m.data);
    CarriedLength(P.Next(bus, d, rndA).1.value, false, d.address, sequence, bus.scheme, m.code, block.value);
  }

  lemma SealedKind(d: P.Device)
    requires d.state == P.Secure
    ensures PR.PlainChoice(d).1 == Some(P.BlockForCommand(|PR.PlainChoice(d).0.data|))
  {
  }

  lemma EncipheredLength(su: S.Suite, keys: Cipher.SessionKeys, chain: Cipher.Block, data: seq<Octet>)
    requires su.Lawful()
    ensures |Enciphered(su, keys, chain, P.BlockForCommand(|data|), data)| == if |data| > 0 then Cipher.PaddedLen(|data|) else 0
  {
    hide Cipher.PaddedLen;
  }

  lemma CarriedLength(f: Frame, isReply: bool, address: Octet, sequence: Octet, scheme: Check.Scheme, code: Octet, kind: Octet)
    requires Carries(f, isReply, address, sequence, scheme, code, Some(kind))
    ensures WireLen(f) == HEADER_SIZE + 2 + 1 + |f.data| + scheme.Size()
  {
    hide NewControl, CheckOK, SchemeOf;
    NewControlFields(sequence, scheme, true);
  }

  /** The size checked when a command is submitted is the number of octets its frame will occupy, exactly when
      the panel has a session then if and only if the command goes out on a secure channel. */
  lemma PredictedSizeExact(bus: P.Bus, submitted: P.Device, composed: P.Device, m: Message, rndA: Cipher.Nonce)
    requires bus.suite.Lawful() && PR.Settled(composed) && ValidAddress(composed.address)
    requires PR.SendsHead(composed) && composed.queue.outbox[0] == m
    ensures var f := P.Next(bus, composed, rndA).1;
            && f.Some?
            && (WireLen(f.value) == P.WireLength(bus, submitted, m) <==>
                (P.SecureEstablished(submitted) <==> composed.state == P.Secure))
            && (Append(f.value).Ok? ==> |Append(f.value).value| == WireLen(f.value))
  {
    hide P.Next, Append, WireLen, Cipher.PaddedLen, ValidAddress, PR.Resting, P.WithholdsKeySet, PR.InStep;
    PaddedMore(|m.data|);
    if composed.state == P.Secure {
      SealedLength(bus, composed, rndA);
    } else {
      PlainLength(bus, composed, rndA);
    }
  }

  /** The octets a command occupies on the channel and off it. */
  function LengthOn(bus: P.Bus, m: Message, sealed: bool): nat {
    var n := |m.data|;
    if sealed then HEADER_SIZE + 2 + 1 + ((if n > 0 then Cipher.PaddedLen(n) else 0) + S.MAC_TAG_SIZE) + bus.scheme.Size()
    else HEADER_SIZE + 1 + n + bus.scheme.Size()
  }

  lemma SealedIsLonger(bus: P.Bus, m: Message)
    ensures LengthOn(bus, m, false) < LengthOn(bus, m, true)
  {
    hide Cipher.PaddedLen;
    PaddedMore(|m.data|);
  }

  lemma ComposedLength(bus: P.Bus, d: P.Device, m: Message, rndA: Cipher.Nonce)
    requires bus.suite.Lawful() && PR.Settled(d) && ValidAddress(d.address) && PR.SendsHead(d) && d.queue.outbox[0] == m
    ensures var f := P.Next(bus, d, rndA).1; f.Some? && WireLen(f.value) == LengthOn(bus, m, d.state == P.Secure)
  {
    hide P.Next, WireLen, Cipher.PaddedLen, ValidAddress, PR.Resting, P.WithholdsKeySet, PR.InStep;
    if d.state == P.Secure {
      SealedLength(bus, d, rndA);
    } else {
      PlainLength(bus, d, rndA);
    }
  }

  /** The buffer a device reported holds the command off the channel and not on it. */
  predicate Between(bus: P.Bus, d: P.Device, m: Message) {
    var size := ReceiveBufferSize(d.caps);
    size != 0 && LengthOn(bus, m, false) <= size < LengthOn(bus, m, true)
  }

  /** The check lets a command through whose frame will not fit exactly when it is submitted without a session and composed
      on the channel, and the buffer lies between the two lengths; it turns one away that would have fitted exactly in
      the reverse case. Otherwise it accepts a command exactly when its frame fits. */
  lemma AcceptedExactlyWhenItFits(bus: P.Bus, submitted: P.Device, composed: P.Device, m: Message, rndA: Cipher.Nonce)
    requires bus.suite.Lawful() && PR.Settled(composed) && ValidAddress(composed.address)
    requires PR.SendsHead(composed) && composed.queue.outbox[0] == m
    ensures var f := P.Next(bus, composed, rndA).1;
            var size := ReceiveBufferSize(submitted.caps);
            && f.Some?
            && var fits := size == 0 || WireLen(f.value) <= size;
            var accepted := P.Send(bus, submitted, m).1;
            && (accepted && !fits <==> Between(bus, submitted, m) && !P.SecureEstablished(submitted) && composed.state == P.Secure)
            && (!accepted && fits <==> Between(bus, submitted, m) && P.SecureEstablished(submitted) && composed.state != P.Secure)
  {
    hide P.Next, WireLen, Cipher.PaddedLen, PR.Settled, PR.SendsHead, ValidAddress, ReceiveBufferSize;
    ComposedLength(bus, composed, m, rndA);
    SealedIsLonger(bus, m);
  }
}
