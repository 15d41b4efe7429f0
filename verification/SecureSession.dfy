/** The session object both ends hold: its methods update it in place, and each is the step of the same name on
    session values. internal/secure/session.go, handshake.go and message.go. */
module SecureSessions {
  import opened Octets
  import opened Cipher
  import V = Sessions

  class Session {
    const suite: V.Suite
    const role: V.Role
    const base: Block
    var phase: V.Phase
    var keys: SessionKeys
    var rndA: Nonce
    var rndB: Nonce
    var uid: Nonce
    var cmac: Block
    var rmac: Block
    var clientCryptogram: Block
    var serverCryptogram: Block

    ghost function View(): V.Session
      reads this
    {
      V.Session(role, base, phase, keys, rndA, rndB, uid, cmac, rmac, clientCryptogram, serverCryptogram)
    }

    constructor (suite: V.Suite, role: V.Role, base: Block)
      ensures View() == V.NewSession(role, base) && this.suite == suite
    {
      this.suite := suite;
      this.role := role;
      this.base := base;
      phase := V.Idle;
      keys := V.NoKeys;
      rndA, rndB, uid := V.NoNonce, V.NoNonce, V.NoNonce;
      cmac, rmac, clientCryptogram, serverCryptogram := ZeroBlock, ZeroBlock, ZeroBlock, ZeroBlock;
    }

    predicate Established()
      reads this
    {
      phase == V.Established
    }

    method Teardown()
      modifies this
      ensures View() == V.Teardown(old(View()))
    {
      keys := V.NoKeys;
      cmac := ZeroBlock;
      rmac := ZeroBlock;
      rndA := V.NoNonce;
      rndB := V.NoNonce;
      phase := V.Idle;
    }

    method Fail() returns (e: SecureError)
      modifies this
      ensures View() == V.Fail(old(View())) && e == CryptogramMismatch
    {
      Teardown();
      phase := V.Failed;
      return CryptogramMismatch;
    }

    method BeginChallenge(challenge: Nonce) returns (r: Result<seq<Octet>, SecureError>)
      modifies this
      ensures (View(), r) == V.BeginChallenge(old(View()), challenge)
    {
      if role != V.CP { return Err(WrongRole); }
      rndA := challenge;
      phase := V.Challenged;
      return Ok(challenge);
    }

    method AnswerChallenge(chlng: seq<Octet>, answer: Nonce, cUID: Nonce) returns (r: Result<seq<Octet>, SecureError>)
      modifies this
      ensures (View(), r) == V.AnswerChallenge(suite, old(View()), chlng, answer, cUID)
    {
      if role != V.PD { return Err(WrongRole); }
      if |chlng| != 8 { return Err(MalformedHandshake); }
      rndA, rndB, uid := chlng, answer, cUID;
      keys := suite.derive(base, rndA);
      clientCryptogram := suite.client(keys, rndA, rndB);
      phase := V.Cryptogram;
      return Ok(cUID + answer + clientCryptogram);
    }

    method AnswerCryptogram(ccrypt: seq<Octet>) returns (r: Result<seq<Octet>, SecureError>)
      modifies this
      ensures (View(), r) == V.AnswerCryptogram(suite, old(View()), ccrypt)
    {
      if role != V.CP { return Err(WrongRole); }
      if phase != V.Challenged || |ccrypt| != V.CCRYPT_SIZE { return Err(MalformedHandshake); }
      uid := ccrypt[..8];
      rndB := ccrypt[8..16];
      var claimed := ccrypt[16..];
      keys := suite.derive(base, rndA);
      var expected := suite.client(keys, rndA, rndB);
      if claimed != expected {
        var e := Fail();
        return Err(e);
      }
      clientCryptogram := expected;
      serverCryptogram := suite.server(keys, rndA, rndB);
      phase := V.Cryptogram;
      return Ok(serverCryptogram);
    }

    method AnswerServerCryptogram(scrypt: seq<Octet>) returns (r: Result<seq<Octet>, SecureError>)
      modifies this
      ensures (View(), r) == V.AnswerServerCryptogram(suite, old(View()), scrypt)
    {
      if role != V.PD { return Err(WrongRole); }
      if phase != V.Cryptogram || |scrypt| != BLOCK_SIZE { return Err(MalformedHandshake); }
      var expected := suite.server(keys, rndA, rndB);
      if scrypt != expected {
        var e := Fail();
        return Err(e);
      }
      serverCryptogram := expected;
      rmac := suite.initialRMAC(keys, expected);
      phase := V.Established;
      return Ok(rmac);
    }

    method CompleteHandshake(rmacI: seq<Octet>) returns (r: Result<(), SecureError>)
      modifies this
      ensures (View(), r) == V.CompleteHandshake(suite, old(View()), rmacI)
    {
      if role != V.CP { return Err(WrongRole); }
      if phase != V.Cryptogram || |rmacI| != BLOCK_SIZE { return Err(MalformedHandshake); }
      var expected := suite.initialRMAC(keys, serverCryptogram);
      if rmacI != expected {
        var e := Fail();
        return Err(e);
      }
      rmac := expected;
      phase := V.Established;
      return Ok(());
    }

    function ChainFor(isCommand: bool): Block
      reads this
    {
      if isCommand then rmac else cmac
    }

    method Commit(isCommand: bool, mac: Block)
      modifies this
      ensures View() == V.Commit(old(View()), isCommand, mac)
    {
      if isCommand {
        cmac := mac;
        return;
      }
      rmac := mac;
    }

    method Seal(plaintext: seq<Octet>, isCommand: bool) returns (r: Result<seq<Octet>, SecureError>)
      ensures r == V.Seal(suite, View(), plaintext, isCommand)
    {
      if !Established() { return Err(NotEstablished); }
      return Ok(suite.seal(keys, ChainFor(isCommand), plaintext));
    }

    method Open(ciphertext: seq<Octet>, isCommand: bool) returns (r: Result<seq<Octet>, SecureError>)
      ensures r == V.Open(suite, View(), ciphertext, isCommand)
    {
      if !Established() { return Err(NotEstablished); }
      return suite.open(keys, ChainFor(isCommand), ciphertext);
    }

    method Authenticate(frame: seq<Octet>, isCommand: bool) returns (r: Result<seq<Octet>, SecureError>)
      modifies this
      ensures (View(), r) == V.Authenticate(suite, old(View()), frame, isCommand)
    {
      if !Established() { return Err(NotEstablished); }
      var mac := suite.mac(keys, ChainFor(isCommand), frame);
      Commit(isCommand, mac);
      return Ok(mac[..V.MAC_TAG_SIZE]);
    }

    method Verify(frame: seq<Octet>, tag: seq<Octet>, isCommand: bool) returns (r: Result<(), SecureError>)
      modifies this
      ensures (View(), r) == V.Verify(suite, old(View()), frame, tag, isCommand)
    {
      if !Established() { return Err(NotEstablished); }
      if |tag| != V.MAC_TAG_SIZE { return Err(MACMismatch); }
      var mac := suite.mac(keys, ChainFor(isCommand), frame);
      if tag != mac[..V.MAC_TAG_SIZE] { return Err(MACMismatch); }
      Commit(isCommand, mac);
      return Ok(());
    }
  }
}
