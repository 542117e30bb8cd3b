/** Password hashing (pbkdf2.go) against section 5.2 of RFC 8018. HMAC-SHA256 is a
    parameter: any function from a key and a message to 32 bytes. */
module Pbkdf2 {
  import opened Model
  import FileFormat

  const HASH_LEN: nat := 32
  const SALT_LEN: nat := 16
  const KEY_LEN: nat := 32
  const ITERATIONS: nat := 600_000
  const MAX_BLOCKS: nat := 0xFFFF_FFFF

  type Digest = d: Bytes | |d| == HASH_LEN witness seq(HASH_LEN, _ => 0)
  type Prf = (Bytes, Bytes) -> Digest

  // ----- section 5.2 of RFC 8018 -------------------------------------------------------

  function Xor(a: Digest, b: Digest): Digest {
    seq(HASH_LEN, i requires 0 <= i < HASH_LEN => a[i] ^ b[i])
  }

  /** Four octets, most significant first. */
  function Int(i: nat): Bytes { FileFormat.Field(i, 4) }

  function U(prf: Prf, password: Bytes, salt: Bytes, block: nat, j: nat): Digest
    requires j >= 1
  {
    if j == 1 then prf(password, salt + Int(block)) else prf(password, U(prf, password, salt, block, j - 1))
  }

  /** F(P, S, c, i): the exclusive or of U_1 to U_c. */
  function F(prf: Prf, password: Bytes, salt: Bytes, c: nat, block: nat): Digest
    requires c >= 1
  {
    if c == 1 then U(prf, password, salt, block, 1)
    else Xor(F(prf, password, salt, c - 1, block), U(prf, password, salt, block, c))
  }

  /** T_1 to T_l, one after the other. */
  function Blocks(prf: Prf, password: Bytes, salt: Bytes, c: nat, l: nat): (r: Bytes)
    requires c >= 1
    ensures |r| == l * HASH_LEN
  {
    if l == 0 then [] else Blocks(prf, password, salt, c, l - 1) + F(prf, password, salt, c, l)
  }

  function BlockCount(keyLen: nat): (l: nat)
    ensures keyLen <= l * HASH_LEN < keyLen + HASH_LEN
  {
    (keyLen + HASH_LEN - 1) / HASH_LEN
  }

  /** The derived key: the first keyLen octets of the blocks. */
  function DerivedKey(prf: Prf, password: Bytes, salt: Bytes, c: nat, keyLen: nat): (r: Bytes)
    requires c >= 1
    ensures |r| == keyLen
  {
    Blocks(prf, password, salt, c, BlockCount(keyLen))[..keyLen]
  }

  // ----- the loops ------------------------------------------------------------------------

  /** `hmac.New(sha256.New, key)`: collects what is written until it is reset. */
  class Hmac {
    const prf: Prf
    const key: Bytes
    var written: Bytes

    constructor (prf: Prf, key: Bytes)
      ensures this.prf == prf && this.key == key && written == []
    {
      this.prf, this.key, written := prf, key, [];
    }

    method Reset()
      modifies this
      ensures written == []
    {
      written := [];
    }

    method Write(b: Bytes)
      modifies this
      ensures written == old(written) + b
    {
      written := written + b;
    }

    method Sum() returns (d: Digest)
      ensures d == prf(key, written)
    {
      d := prf(key, written);
    }
  }

  /** How many rounds are made: asking for none, or fewer, makes one. */
  function Rounds(iterations: int): (c: nat)
    ensures c >= 1
  {
    if iterations < 1 then 1 else iterations
  }

  method XorInto(t: array<bv8>, u: Digest)
    requires t.Length == HASH_LEN
    modifies t
    ensures t[..] == Xor(old(t[..]), u)
  {
    for j := 0 to HASH_LEN
      invariant forall k :: 0 <= k < j ==> t[k] == old(t[k]) ^ u[k]
      invariant forall k :: j <= k < HASH_LEN ==> t[k] == old(t[k])
    {
      t[j] := t[j] ^ u[j];
    }
  }

  method DeriveBlock(mac: Hmac, salt: Bytes, iterations: int, block: nat) returns (t: array<bv8>)
    modifies mac
    ensures fresh(t) && t[..] == F(mac.prf, mac.key, salt, Rounds(iterations), block)
  {
    hide FileFormat.Field, Xor;
    mac.Reset();
    mac.Write(salt);
    mac.Write(Int(block));
    assert mac.written == salt + Int(block);
    var u := mac.Sum();
    t := new bv8[HASH_LEN](k requires 0 <= k < HASH_LEN => u[k]);
    assert t[..] == u;
    var i := 1;
    while i < iterations
      invariant 1 <= i <= Rounds(iterations)
      invariant u == U(mac.prf, mac.key, salt, block, i)
      invariant t[..] == F(mac.prf, mac.key, salt, i, block)
    {
      mac.Reset();
      mac.Write(u);
      assert mac.written == u;
      u := mac.Sum();
      XorInto(t, u);
      i := i + 1;
    }
  }

  /** The key derivation of the program is that of the standard, for every key
      length the standard allows. */
  method DeriveKey(prf: Prf, password: Bytes, salt: Bytes, iterations: int, keyLen: nat) returns (dk: Bytes)
    requires BlockCount(keyLen) <= MAX_BLOCKS
    ensures dk == DerivedKey(prf, password, salt, Rounds(iterations), keyLen)
  {
    hide F;
    var mac := new Hmac(prf, password);
    var numBlocks := (keyLen + HASH_LEN - 1) / HASH_LEN;
    dk := [];
    for block := 1 to numBlocks + 1
      invariant dk == Blocks(prf, password, salt, Rounds(iterations), block - 1)
    {
      var t := DeriveBlock(mac, salt, iterations, block);
      dk := dk + t[..];
    }
    dk := dk[..keyLen];
  }

  // ----- what follows ----------------------------------------------------------------------

  /** More blocks begin with fewer blocks. */
  lemma {:induction false} BlocksExtend(prf: Prf, password: Bytes, salt: Bytes, c: nat, l: nat, m: nat)
    requires c >= 1 && l <= m
    ensures Blocks(prf, password, salt, c, l) <= Blocks(prf, password, salt, c, m)
    decreases m
  {
    hide F;
    if l < m { BlocksExtend(prf, password, salt, c, l, m - 1); }
  }

  /** A shorter key is a prefix of a longer one. */
  lemma ShorterKeyIsPrefix(prf: Prf, password: Bytes, salt: Bytes, c: nat, short: nat, long: nat)
    requires c >= 1 && short <= long
    ensures DerivedKey(prf, password, salt, c, short) == DerivedKey(prf, password, salt, c, long)[..short]
  {
    hide F;
    BlockCountGrows(short, long);
    BlocksExtend(prf, password, salt, c, BlockCount(short), BlockCount(long));
    var a, b := Blocks(prf, password, salt, c, BlockCount(short)), Blocks(prf, password, salt, c, BlockCount(long));
    assert a == b[..|a|];
    assert a[..short] == b[..|a|][..short] == b[..short];
    assert b[..long][..short] == b[..short];
  }

  lemma BlockCountGrows(short: nat, long: nat)
    requires short <= long
    ensures BlockCount(short) <= BlockCount(long)
  {
  }

  /** Byte n of the key is the exclusive or of byte n % 32 of the U of block n / 32 + 1. */
  lemma KeyByte(prf: Prf, password: Bytes, salt: Bytes, c: nat, keyLen: nat, n: nat)
    requires c >= 1 && n < keyLen
    ensures DerivedKey(prf, password, salt, c, keyLen)[n]
         == XorOfBytes(prf, password, salt, n / HASH_LEN + 1, n % HASH_LEN, c)
  {
    hide F;
    BlockByte(prf, password, salt, c, BlockCount(keyLen), n);
    FByte(prf, password, salt, c, n / HASH_LEN + 1, n % HASH_LEN);
  }

  function XorOfBytes(prf: Prf, password: Bytes, salt: Bytes, block: nat, k: nat, c: nat): bv8
    requires c >= 1 && k < HASH_LEN
  {
    if c == 1 then U(prf, password, salt, block, 1)[k]
    else XorOfBytes(prf, password, salt, block, k, c - 1) ^ U(prf, password, salt, block, c)[k]
  }

  lemma {:induction false} FByte(prf: Prf, password: Bytes, salt: Bytes, c: nat, block: nat, k: nat)
    requires c >= 1 && k < HASH_LEN
    ensures F(prf, password, salt, c, block)[k] == XorOfBytes(prf, password, salt, block, k, c)
    decreases c
  {
    if c > 1 { FByte(prf, password, salt, c - 1, block, k); }
  }

  lemma {:induction false} BlockByte(prf: Prf, password: Bytes, salt: Bytes, c: nat, l: nat, n: nat)
    requires c >= 1 && n < l * HASH_LEN
    ensures Blocks(prf, password, salt, c, l)[n] == F(prf, password, salt, c, n / HASH_LEN + 1)[n % HASH_LEN]
    decreases l
  {
    hide F;
    if n < (l - 1) * HASH_LEN { BlockByte(prf, password, salt, c, l - 1, n); }
  }

  // ----- the same by an explicit chain -------------------------------------------------------

  /** The block number in four octets, the most significant first. */
  predicate Octets(o: Bytes, block: nat) {
    |o| == 4
    && 0x100_0000 * (o[0] as int) + 0x1_0000 * (o[1] as int) + 0x100 * (o[2] as int) + o[3] as int == block
  }

  /** The pseudorandom function applied to the salt and the block number, and then again
      and again to what it returned. */
  ghost predicate Chain(prf: Prf, password: Bytes, salt: Bytes, block: nat, chain: seq<Digest>) {
    && (chain != [] ==> exists o :: Octets(o, block) && chain[0] == prf(password, salt + o))
    && (forall j :: 0 < j < |chain| ==> chain[j] == prf(password, chain[j - 1]))
  }

  lemma IntIsOctets(o: Bytes, block: nat)
    requires Octets(o, block)
    ensures o == Int(block)
  {
    var a, b, c := o[..3], o[..2], o[..1];
    assert o[..4] == o && a[..2] == b && b[..1] == c && c[..0] == [];
    assert FileFormat.BigEndian(c) == o[0] as int;
    assert FileFormat.BigEndian(b) == 0x100 * (o[0] as int) + o[1] as int;
    assert FileFormat.BigEndian(a) == 0x1_0000 * (o[0] as int) + 0x100 * (o[1] as int) + o[2] as int;
    assert FileFormat.BigEndian(o) == block;
    assert FileFormat.Power(4) == 0x1_0000_0000 by { assert FileFormat.Power(2) == 0x1_0000; }
    FileFormat.FieldValue(block, 4);
    FileFormat.BigEndianInjective(o, Int(block));
  }

  lemma {:induction false} ChainIsU(prf: Prf, password: Bytes, salt: Bytes, block: nat, chain: seq<Digest>, j: nat)
    requires Chain(prf, password, salt, block, chain) && j < |chain|
    ensures chain[j] == U(prf, password, salt, block, j + 1)
    decreases j
  {
    if j == 0 {
      var o :| Octets(o, block) && chain[0] == prf(password, salt + o);
      IntIsOctets(o, block);
    } else {
      ChainIsU(prf, password, salt, block, chain, j - 1);
    }
    hide Octets, Int;
  }

  /** The exclusive or of the k-th bytes. */
  function XorColumn(chain: seq<Digest>, k: nat): bv8
    requires k < HASH_LEN
  {
    if chain == [] then 0 else XorColumn(chain[..|chain| - 1], k) ^ chain[|chain| - 1][k]
  }

  lemma {:induction false} ColumnIsXor(prf: Prf, password: Bytes, salt: Bytes, block: nat, k: nat, chain: seq<Digest>)
    requires Chain(prf, password, salt, block, chain) && chain != [] && k < HASH_LEN
    ensures XorColumn(chain, k) == XorOfBytes(prf, password, salt, block, k, |chain|)
    decreases |chain|
  {
    var n := |chain| - 1;
    var front := chain[..n];
    ChainIsU(prf, password, salt, block, chain, n);
    if n > 0 {
      assert Chain(prf, password, salt, block, front) by { assert front[0] == chain[0]; }
      ColumnIsXor(prf, password, salt, block, k, front);
    } else {
      assert XorColumn(front, k) == 0;
    }
    hide Octets, U;
  }

  /** Byte n of the key, for every number of rounds and every key length the standard
      allows: 32 bytes come from each block, and blocks count from one. */
  lemma KeyByteOfChain(prf: Prf, password: Bytes, salt: Bytes, c: nat, keyLen: nat, n: nat, chain: seq<Digest>)
    requires |chain| == c >= 1 && n < keyLen && Chain(prf, password, salt, n / 32 + 1, chain)
    ensures DerivedKey(prf, password, salt, c, keyLen)[n] == XorColumn(chain, n % 32)
  {
    KeyByte(prf, password, salt, c, keyLen, n);
    ColumnIsXor(prf, password, salt, n / 32 + 1, n % 32, chain);
    hide DerivedKey, Chain, XorColumn, XorOfBytes;
  }

  // ----- passwords -----------------------------------------------------------------------------

  function Verifies(prf: Prf, password: Bytes, hash: Bytes, salt: Bytes, iterations: int): bool {
    hash == DerivedKey(prf, password, salt, Rounds(iterations), |hash|)
  }

  method VerifyPassword(prf: Prf, password: Bytes, hash: Bytes, salt: Bytes, iterations: int) returns (ok: bool)
    requires BlockCount(|hash|) <= MAX_BLOCKS
    ensures ok == Verifies(prf, password, hash, salt, iterations)
  {
    var got := DeriveKey(prf, password, salt, iterations, |hash|);
    ok := got == hash;
  }

  /** A stored hash verifies the password it was made of, and any other password
      exactly when the two have the same derived key. */
  lemma VerifiesItsOwn(prf: Prf, password: Bytes, other: Bytes, salt: Bytes, c: nat, keyLen: nat)
    requires c >= 1
    ensures var hash := DerivedKey(prf, password, salt, c, keyLen);
      Verifies(prf, password, hash, salt, c)
      && (Verifies(prf, other, hash, salt, c) <==> DerivedKey(prf, other, salt, c, keyLen) == hash)
  {
    hide F, Blocks;
  }

  /** `random` is what crypto/rand delivers. What is stored verifies this password, and
      any other exactly when it has the same derived key. */
  method HashPassword(prf: Prf, password: Bytes, random: Bytes) returns (hash: Bytes, salt: Bytes, iterations: int)
    requires |random| == SALT_LEN
    ensures salt == random && iterations == ITERATIONS && |hash| == KEY_LEN
    ensures hash == DerivedKey(prf, password, salt, ITERATIONS, KEY_LEN)
    ensures Verifies(prf, password, hash, salt, iterations)
    ensures forall other :: Verifies(prf, other, hash, salt, iterations)
                            <==> DerivedKey(prf, other, salt, ITERATIONS, KEY_LEN) == hash
  {
    salt, iterations := random, ITERATIONS;
    hash := DeriveKey(prf, password, salt, ITERATIONS, KEY_LEN);
    forall other
      ensures Verifies(prf, other, hash, salt, iterations)
              <==> DerivedKey(prf, other, salt, ITERATIONS, KEY_LEN) == hash
    {
      VerifiesItsOwn(prf, password, other, salt, ITERATIONS, KEY_LEN);
    }
    VerifiesItsOwn(prf, password, password, salt, ITERATIONS, KEY_LEN);
    hide DerivedKey;
  }

  /** A hash cut short verifies at least the passwords the whole hash does, and an
      empty one verifies them all: ValidateState refuses empty hashes. */
  lemma ShortHashVerifiesMore(prf: Prf, password: Bytes, hash: Bytes, salt: Bytes, iterations: int, n: nat)
    requires n <= |hash| && Verifies(prf, password, hash, salt, iterations)
    ensures Verifies(prf, password, hash[..n], salt, iterations)
    ensures Verifies(prf, password, [], salt, iterations)
  {
    hide F, Blocks;
    ShorterKeyIsPrefix(prf, password, salt, Rounds(iterations), n, |hash|);
    assert |DerivedKey(prf, password, salt, Rounds(iterations), 0)| == 0;
  }
}
