/** One secure channel session: internal/secure/session.go, handshake.go and message.go.
    Sections 7.2 to 7.4 of SIA OSDP v2.2.2. */
module Sessions {
  import opened Octets
  import opened Cipher

  const MAC_TAG_SIZE: nat := 4
  const CCRYPT_SIZE: nat := 32

  /** The primitives a session needs, as internal/secure/suite.go lists them. */
  datatype Suite = Suite(
    derive: (Block, Nonce) -> SessionKeys,
    client: (SessionKeys, Nonce, Nonce) -> Block,
    server: (SessionKeys, Nonce, Nonce) -> Block,
    initialRMAC: (SessionKeys, Block) -> Block,
    seal: (SessionKeys, Block, seq<Octet>) -> seq<Octet>,
    open: (SessionKeys, Block, seq<Octet>) -> Result<seq<Octet>, SecureError>,
    mac: (SessionKeys, Block, seq<Octet>) -> Block)
  {
    /** What the session code relies on: opening undoes sealing, and sealing pads to the block. */
    ghost predicate Lawful() {
      && (forall k, chain: Block, p :: open(k, chain, seal(k, chain, p)) == Ok(p))
      && (forall k, chain: Block, p :: |seal(k, chain, p)| == PaddedLen(|p|))
    }
  }

  /** The mandated suite, over a given block cipher. */
  function AES128(c: BlockCipher): Suite {
    Suite((base: Block, rndA: Nonce) => DeriveSessionKeys(c, base, rndA),
          (k: SessionKeys, rndA: Nonce, rndB: Nonce) => ClientCryptogram(c, k, rndA, rndB),
          (k: SessionKeys, rndA: Nonce, rndB: Nonce) => ServerCryptogram(c, k, rndA, rndB),
          (k: SessionKeys, sc: Block) => InitialRMAC(c, k, sc),
          (k: SessionKeys, chain: Block, p: seq<Octet>) => Cipher.Seal(c, k, chain, p),
          (k: SessionKeys, chain: Block, p: seq<Octet>) => Cipher.Open(c, k, chain, p),
          (k: SessionKeys, chain: Block, p: seq<Octet>) => Mac(c, k, chain, p))
  }

  /** Every law holds of the mandated suite, whatever invertible block cipher it runs on. */
  lemma AES128Lawful(c: BlockCipher)
    requires c.Inverts()
    ensures AES128(c).Lawful()
  {
    var s := AES128(c);
    forall k, chain: Block, p
      ensures s.open(k, chain, s.seal(k, chain, p)) == Ok(p) && |s.seal(k, chain, p)| == PaddedLen(|p|)
    {
      OpenAfterSeal(c, k, chain, p);
    }
  }

  datatype Role = CP | PD

  datatype Phase = Idle | Challenged | Cryptogram | Established | Failed

  const NoKeys := SessionKeys(ZeroBlock, ZeroBlock, ZeroBlock)
  const NoNonce: Nonce := Zeros(8)

  datatype Session = Session(
    role: Role, base: Block, phase: Phase, keys: SessionKeys, rndA: Nonce, rndB: Nonce, uid: Nonce,
    cmac: Block, rmac: Block, client: Block, server: Block)

  function NewSession(role: Role, base: Block): Session {
    Session(role, base, Idle, NoKeys, NoNonce, NoNonce, NoNonce, ZeroBlock, ZeroBlock, ZeroBlock, ZeroBlock)
  }

  function Teardown(s: Session): Session {
    s.(keys := NoKeys, cmac := ZeroBlock, rmac := ZeroBlock, rndA := NoNonce, rndB := NoNonce, phase := Idle)
  }

  function Fail(s: Session): Session {
    Teardown(s).(phase := Failed)
  }

  type Step<T> = (Session, Result<T, SecureError>)

  // ----- The handshake -----

  function BeginChallenge(s: Session, rndA: Nonce): Step<seq<Octet>> {
    if s.role != CP then (s, Err(WrongRole))
    else (s.(rndA := rndA, phase := Challenged), Ok(rndA))
  }

  function AnswerChallenge(su: Suite, s: Session, chlng: seq<Octet>, rndB: Nonce, uid: Nonce): Step<seq<Octet>> {
    if s.role != PD then (s, Err(WrongRole))
    else if |chlng| != 8 then (s, Err(MalformedHandshake))
    else
      var keys := su.derive(s.base, chlng);
      var client := su.client(keys, chlng, rndB);
      (s.(rndA := chlng, rndB := rndB, uid := uid, keys := keys, client := client, phase := Cryptogram),
       Ok(uid + rndB + client))
  }

  function AnswerCryptogram(su: Suite, s: Session, ccrypt: seq<Octet>): Step<seq<Octet>> {
    if s.role != CP then (s, Err(WrongRole))
    else if s.phase != Challenged || |ccrypt| != CCRYPT_SIZE then (s, Err(MalformedHandshake))
    else
      var uid, rndB, claimed := ccrypt[..8], ccrypt[8..16], ccrypt[16..];
      var keys := su.derive(s.base, s.rndA);
      var expected := su.client(keys, s.rndA, rndB);
      var s1 := s.(uid := uid, rndB := rndB, keys := keys);
      if claimed != expected then (Fail(s1), Err(CryptogramMismatch))
      else
        var server := su.server(keys, s.rndA, rndB);
        (s1.(client := expected, server := server, phase := Cryptogram), Ok(server))
  }

  function AnswerServerCryptogram(su: Suite, s: Session, scrypt: seq<Octet>): Step<seq<Octet>> {
    if s.role != PD then (s, Err(WrongRole))
    else if s.phase != Cryptogram || |scrypt| != BLOCK_SIZE then (s, Err(MalformedHandshake))
    else
      var expected := su.server(s.keys, s.rndA, s.rndB);
      if scrypt != expected then (Fail(s), Err(CryptogramMismatch))
      else
        var rmac := su.initialRMAC(s.keys, expected);
        (s.(server := expected, rmac := rmac, phase := Established), Ok(rmac))
  }

  function CompleteHandshake(su: Suite, s: Session, rmacI: seq<Octet>): Step<()> {
    if s.role != CP then (s, Err(WrongRole))
    else if s.phase != Cryptogram || |rmacI| != BLOCK_SIZE then (s, Err(MalformedHandshake))
    else
      var expected := su.initialRMAC(s.keys, s.server);
      if rmacI != expected then (Fail(s), Err(CryptogramMismatch))
      else (s.(rmac := expected, phase := Established), Ok(()))
  }

  // ----- Messages on an established session -----

  /** Each direction is keyed to where the other one stands. */
  function ChainFor(s: Session, isCommand: bool): Block {
    if isCommand then s.rmac else s.cmac
  }

  function Commit(s: Session, isCommand: bool, mac: Block): Session {
    if isCommand then s.(cmac := mac) else s.(rmac := mac)
  }

  function Seal(su: Suite, s: Session, plaintext: seq<Octet>, isCommand: bool): Result<seq<Octet>, SecureError> {
    if s.phase != Established then Err(NotEstablished)
    else Ok(su.seal(s.keys, ChainFor(s, isCommand), plaintext))
  }

  function Open(su: Suite, s: Session, ciphertext: seq<Octet>, isCommand: bool): Result<seq<Octet>, SecureError> {
    if s.phase != Established then Err(NotEstablished)
    else su.open(s.keys, ChainFor(s, isCommand), ciphertext)
  }

  function Tag(mac: Block): (t: seq<Octet>)
    ensures |t| == MAC_TAG_SIZE
  {
    mac[..MAC_TAG_SIZE]
  }

  function Authenticate(su: Suite, s: Session, frame: seq<Octet>, isCommand: bool): Step<seq<Octet>> {
    if s.phase != Established then (s, Err(NotEstablished))
    else
      var mac := su.mac(s.keys, ChainFor(s, isCommand), frame);
      (Commit(s, isCommand, mac), Ok(Tag(mac)))
  }

  function Verify(su: Suite, s: Session, frame: seq<Octet>, tag: seq<Octet>, isCommand: bool): Step<()> {
    if s.phase != Established then (s, Err(NotEstablished))
    else if |tag| != MAC_TAG_SIZE then (s, Err(MACMismatch))
    else
      var mac := su.mac(s.keys, ChainFor(s, isCommand), frame);
      if tag != Tag(mac) then (s, Err(MACMismatch))
      else (Commit(s, isCommand, mac), Ok(()))
  }
}
