/** The cipher layer of the secure channel: internal/secure/crypt.go, mac.go and aes128.go, over a block
    cipher that is a parameter. Section 7.5 of SIA OSDP v2.2.2. */
module Cipher {
  import opened Octets

  const BLOCK_SIZE: nat := 16
  const EOM: Octet := 0x80

  type Block = s: seq<Octet> | |s| == BLOCK_SIZE witness Zeros(BLOCK_SIZE)
  type Nonce = s: seq<Octet> | |s| == 8 witness Zeros(8)

  /** One block under one key, each way. Nothing is known of it but that deciphering undoes enciphering. */
  datatype BlockCipher = BlockCipher(encrypt: (Block, Block) -> Block, decrypt: (Block, Block) -> Block) {
    ghost predicate Inverts() {
      forall k: Block, x: Block :: decrypt(k, encrypt(k, x)) == x
    }
  }

  datatype SessionKeys = SessionKeys(enc: Block, mac1: Block, mac2: Block)

  datatype SecureError =
    | NotBlockAligned | BadPadding | MACMismatch | CryptogramMismatch | WrongRole | MalformedHandshake | NotEstablished

  const ZeroBlock: Block := Zeros(BLOCK_SIZE)

  function Xor(a: Octet, b: Octet): Octet {
    a ^ b
  }

  function XorBlock(a: Block, b: Block): (r: Block)
    ensures forall i :: 0 <= i < BLOCK_SIZE ==> r[i] == Xor(a[i], b[i])
  {
    seq(BLOCK_SIZE, i requires 0 <= i < BLOCK_SIZE => Xor(a[i], b[i]))
  }

  lemma XorTwice(a: Octet, b: Octet)
    ensures Xor(Xor(a, b), b) == a
  {
  }

  lemma XorBlockTwice(a: Block, b: Block)
    ensures XorBlock(XorBlock(a, b), b) == a
  {
    hide Xor;
    forall i | 0 <= i < BLOCK_SIZE
      ensures XorBlock(XorBlock(a, b), b)[i] == a[i]
    {
      XorTwice(a[i], b[i]);
    }
  }

  /** The initialisation vector of a payload: the complement of the chain it continues. */
  function ChainIV(chain: Block): Block {
    seq(BLOCK_SIZE, i requires 0 <= i < BLOCK_SIZE => !chain[i])
  }

  // ----- Cipher block chaining -----

  predicate Aligned(data: seq<Octet>) {
    |data| % BLOCK_SIZE == 0
  }

  function CbcEncrypt(c: BlockCipher, key: Block, iv: Block, data: seq<Octet>): (r: seq<Octet>)
    requires Aligned(data)
    ensures |r| == |data|
    decreases |data|
  {
    if data == [] then []
    else
      var e := c.encrypt(key, XorBlock(data[..BLOCK_SIZE], iv));
      e + CbcEncrypt(c, key, e, data[BLOCK_SIZE..])
  }

  function CbcDecrypt(c: BlockCipher, key: Block, iv: Block, data: seq<Octet>): (r: seq<Octet>)
    requires Aligned(data)
    ensures |r| == |data|
    decreases |data|
  {
    if data == [] then []
    else
      XorBlock(c.decrypt(key, data[..BLOCK_SIZE]), iv) + CbcDecrypt(c, key, data[..BLOCK_SIZE], data[BLOCK_SIZE..])
  }

  lemma {:induction false} CbcInverse(c: BlockCipher, key: Block, iv: Block, data: seq<Octet>)
    requires c.Inverts() && Aligned(data)
    ensures CbcDecrypt(c, key, iv, CbcEncrypt(c, key, iv, data)) == data
    decreases |data|
  {
    hide XorBlock;
    if data != [] {
      var first, rest := data[..BLOCK_SIZE], data[BLOCK_SIZE..];
      var e := c.encrypt(key, XorBlock(first, iv));
      var out := CbcEncrypt(c, key, iv, data);
      assert out[..BLOCK_SIZE] == e && out[BLOCK_SIZE..] == CbcEncrypt(c, key, e, rest);
      XorBlockTwice(first, iv);
      CbcInverse(c, key, e, rest);
      assert data == first + rest;
    }
  }

  // ----- Padding -----

  /** The next block boundary strictly above n: the end-of-message marker is always added. */
  function PaddedLen(n: nat): (m: nat)
    ensures m % BLOCK_SIZE == 0 && n < m <= n + BLOCK_SIZE
  {
    (n + 1 + BLOCK_SIZE - 1) / BLOCK_SIZE * BLOCK_SIZE
  }

  function Pad(p: seq<Octet>): (r: seq<Octet>)
    ensures |r| == PaddedLen(|p|)
  {
    p + [EOM] + Zeros(PaddedLen(|p|) - |p| - 1)
  }

  /** The position of the marker, looking back over zero fill from position i. */
  function MarkerFrom(b: seq<Octet>, i: nat): (r: Option<nat>)
    requires i < |b|
    ensures r.Some? ==> r.value <= i && b[r.value] == EOM
  {
    if i > 0 && b[i] == 0 then MarkerFrom(b, i - 1)
    else if b[i] == EOM then Some(i)
    else None
  }

  lemma {:induction false} MarkerOfPad(p: seq<Octet>, i: nat)
    requires |p| <= i < |Pad(p)|
    ensures MarkerFrom(Pad(p), i) == Some(|p|)
    decreases i
  {
    if i > |p| {
      MarkerOfPad(p, i - 1);
    }
  }

  /** The scan back over the padding. */
  method Unpad(b: seq<Octet>) returns (r: Option<nat>)
    requires |b| > 0
    ensures r == MarkerFrom(b, |b| - 1)
    ensures r.Some? <==> exists k :: 0 <= k < |b| && b[k] == EOM && forall j :: k < j < |b| ==> b[j] == 0
    ensures r.Some? ==> r.value < |b| && b[r.value] == EOM && forall j :: r.value < j < |b| ==> b[j] == 0
  {
    var i := |b| - 1;
    while i > 0 && b[i] == 0
      invariant 0 <= i < |b|
      invariant forall j :: i < j < |b| ==> b[j] == 0
      invariant MarkerFrom(b, |b| - 1) == MarkerFrom(b, i)
    {
      i := i - 1;
    }
    if b[i] != EOM {
      return None;
    }
    return Some(i);
  }

  // ----- Sealing and opening a payload -----

  function Seal(c: BlockCipher, k: SessionKeys, chain: Block, plaintext: seq<Octet>): (r: seq<Octet>)
    ensures |r| == PaddedLen(|plaintext|)
  {
    CbcEncrypt(c, k.enc, ChainIV(chain), Pad(plaintext))
  }

  function Open(c: BlockCipher, k: SessionKeys, chain: Block, ciphertext: seq<Octet>): Result<seq<Octet>, SecureError> {
    if ciphertext == [] || !Aligned(ciphertext) then Err(NotBlockAligned)
    else
      var out := CbcDecrypt(c, k.enc, ChainIV(chain), ciphertext);
      match MarkerFrom(out, |out| - 1)
      case None => Err(BadPadding)
      case Some(n) => Ok(out[..n])
  }

  /** The padded buffer is filled in place and enciphered. */
  method SealBuffer(c: BlockCipher, k: SessionKeys, chain: Block, plaintext: seq<Octet>) returns (r: seq<Octet>)
    ensures r == Seal(c, k, chain, plaintext)
  {
    var padded := new Octet[PaddedLen(|plaintext|)](_ => 0);
    Store(padded, plaintext);
    padded[|plaintext|] := EOM;
    assert padded[..] == Pad(plaintext);
    r := CbcEncrypt(c, k.enc, ChainIV(chain), padded[..]);
  }

  /** Deciphers into a fresh buffer and strips the padding. */
  method OpenBuffer(c: BlockCipher, k: SessionKeys, chain: Block, ciphertext: seq<Octet>)
    returns (r: Result<seq<Octet>, SecureError>)
    ensures r == Open(c, k, chain, ciphertext)
  {
    if |ciphertext| == 0 || |ciphertext| % BLOCK_SIZE != 0 {
      return Err(NotBlockAligned);
    }
    var out := CbcDecrypt(c, k.enc, ChainIV(chain), ciphertext);
    var n := Unpad(out);
    if n.None? {
      return Err(BadPadding);
    }
    return Ok(out[..n.value]);
  }

  /** Opening undoes sealing for a payload of any length, empty and block-aligned ones included. */
  lemma OpenAfterSeal(c: BlockCipher, k: SessionKeys, chain: Block, plaintext: seq<Octet>)
    requires c.Inverts()
    ensures Open(c, k, chain, Seal(c, k, chain, plaintext)) == Ok(plaintext)
  {
    hide CbcEncrypt, CbcDecrypt, ChainIV;
    var padded := Pad(plaintext);
    CbcInverse(c, k.enc, ChainIV(chain), padded);
    MarkerOfPad(plaintext, |padded| - 1);
    assert padded[..|plaintext|] == plaintext;
  }

  // ----- The message authentication code -----

  /** The last block of a message: as it stands when whole, otherwise marked and zero filled. */
  function LastBlock(rest: seq<Octet>): Block
    requires |rest| <= BLOCK_SIZE
  {
    if |rest| == BLOCK_SIZE then rest else rest + [EOM] + Zeros(BLOCK_SIZE - |rest| - 1)
  }

  /** Two-key CBC-MAC: every block but the last under the first key, the last under the second. */
  function Mac(c: BlockCipher, k: SessionKeys, chain: Block, data: seq<Octet>): Block
    decreases |data|
  {
    if |data| <= BLOCK_SIZE then c.encrypt(k.mac2, XorBlock(LastBlock(data), chain))
    else Mac(c, k, c.encrypt(k.mac1, XorBlock(data[..BLOCK_SIZE], chain)), data[BLOCK_SIZE..])
  }

  method XorInto(dst: array<Octet>, src: Block)
    requires dst.Length == BLOCK_SIZE
    modifies dst
    ensures dst[..] == XorBlock(old(dst[..]), src)
  {
    hide Xor;
    for i := 0 to BLOCK_SIZE
      invariant forall j :: 0 <= j < i ==> dst[j] == Xor(old(dst[j]), src[j])
      invariant forall j :: i <= j < BLOCK_SIZE ==> dst[j] == old(dst[j])
    {
      dst[i] := Xor(dst[i], src[i]);
    }
  }

  method Store(dst: array<Octet>, src: seq<Octet>)
    requires |src| <= dst.Length
    modifies dst
    ensures dst[..] == src + old(dst[..])[|src|..]
  {
    forall i | 0 <= i < |src| {
      dst[i] := src[i];
    }
    assert dst[..] == src + old(dst[..])[|src|..];
  }

  /** The MAC loop, one scratch block updated in place. */
  method ComputeMac(c: BlockCipher, k: SessionKeys, chain: Block, data: seq<Octet>) returns (mac: Block)
    ensures mac == Mac(c, k, chain, data)
  {
    hide XorBlock;
    var full, rem := |data| / BLOCK_SIZE, |data| % BLOCK_SIZE;
    var blocks := full;
    if rem != 0 {
      blocks := blocks + 1;
    }
    if blocks == 0 {
      blocks := 1;
    }
    var iv, rest := chain, data;
    var block := new Octet[BLOCK_SIZE](_ => 0);
    for i := 0 to blocks - 1
      invariant |rest| == |data| - i * BLOCK_SIZE
      invariant Mac(c, k, iv, rest) == Mac(c, k, chain, data)
    {
      ghost var before := rest;
      Store(block, rest[..BLOCK_SIZE]);
      assert block[..] == rest[..BLOCK_SIZE];
      XorInto(block, iv);
      iv := c.encrypt(k.mac1, block[..]);
      rest := rest[BLOCK_SIZE..];
    }
    Store(block, ZeroBlock);
    assert block[..] == ZeroBlock;
    if rem == 0 && full > 0 {
      Store(block, rest[..BLOCK_SIZE]);
    } else {
      Store(block, rest[..rem]);
      block[rem] := EOM;
    }
    assert block[..] == LastBlock(rest);
    XorInto(block, iv);
    mac := c.encrypt(k.mac2, block[..]);
  }

  // ----- Keys and cryptograms -----

  const TAG_ENC: Octet := 0x82
  const TAG_MAC1: Octet := 0x01
  const TAG_MAC2: Octet := 0x02

  /** What a session key is the encipherment of; the three keys differ by the tag alone. */
  function DerivationBlock(tag: Octet, rndA: Nonce): Block {
    [0x01, tag] + rndA[..6] + Zeros(8)
  }

  function DeriveSessionKeys(c: BlockCipher, base: Block, rndA: Nonce): SessionKeys {
    SessionKeys(c.encrypt(base, DerivationBlock(TAG_ENC, rndA)),
                c.encrypt(base, DerivationBlock(TAG_MAC1, rndA)),
                c.encrypt(base, DerivationBlock(TAG_MAC2, rndA)))
  }

  /** With an invertible cipher the three session keys are always three different keys. */
  lemma SessionKeysDiffer(c: BlockCipher, base: Block, rndA: Nonce)
    requires c.Inverts()
    ensures var k := DeriveSessionKeys(c, base, rndA);
            k.enc != k.mac1 && k.mac1 != k.mac2 && k.enc != k.mac2
  {
    var e, m, n := DerivationBlock(TAG_ENC, rndA), DerivationBlock(TAG_MAC1, rndA), DerivationBlock(TAG_MAC2, rndA);
    assert e[1] != m[1] && m[1] != n[1] && e[1] != n[1];
    assert c.decrypt(base, c.encrypt(base, e)) == e;
    assert c.decrypt(base, c.encrypt(base, m)) == m;
    assert c.decrypt(base, c.encrypt(base, n)) == n;
  }

  function ClientCryptogram(c: BlockCipher, k: SessionKeys, rndA: Nonce, rndB: Nonce): Block {
    c.encrypt(k.enc, rndA + rndB)
  }

  function ServerCryptogram(c: BlockCipher, k: SessionKeys, rndA: Nonce, rndB: Nonce): Block {
    c.encrypt(k.enc, rndB + rndA)
  }

  /** The panel's proof is the device's own proof only when the two randoms are equal. */
  lemma CryptogramsDiffer(c: BlockCipher, k: SessionKeys, rndA: Nonce, rndB: Nonce)
    requires c.Inverts()
    ensures ClientCryptogram(c, k, rndA, rndB) == ServerCryptogram(c, k, rndA, rndB) <==> rndA == rndB
  {
    var x, y := rndA + rndB, rndB + rndA;
    assert c.decrypt(k.enc, c.encrypt(k.enc, x)) == x;
    assert c.decrypt(k.enc, c.encrypt(k.enc, y)) == y;
    assert x[..8] == rndA && y[..8] == rndB;
  }

  function InitialRMAC(c: BlockCipher, k: SessionKeys, server: Block): Block {
    c.encrypt(k.mac2, c.encrypt(k.mac1, server))
  }
}
