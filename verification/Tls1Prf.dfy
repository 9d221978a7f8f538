/**
 The TLS 1.0 pseudo-random function of section 5 of RFC 2246, computed over a mutable HMAC handle
 that accumulates its input. HMAC itself is a parameter: any function with the digest's fixed
 output length.
 */
module Tls1Prf {

  type Byte = bv8

  datatype Digest = MD4 | MD5 | SHA1 | SHA224 | SHA256 | SHA384 | SHA512

  function Size(digest: Digest): (n: nat)
    ensures 0 < n <= MAX_HMAC_SIZE
  {
    match digest
    case MD4 => 16
    case MD5 => 16
    case SHA1 => 20
    case SHA224 => 28
    case SHA256 => 32
    case SHA384 => 48
    case SHA512 => 64
  }

  const MAX_HMAC_SIZE: nat := 64

  /** HMAC of a key and a message. */
  type Mac = (Digest, seq<Byte>, seq<Byte>) -> seq<Byte>

  ghost predicate IsMac(mac: Mac) {
    forall d, key, text :: |mac(d, key, text)| == Size(d)
  }

  /** The backend handle: updates extend the buffer, final hashes it and keeps it. */
  class HmacHandle {
    const mac: Mac
    const digest: Digest
    const key: seq<Byte>
    var data: seq<Byte>

    constructor (mac: Mac, digest: Digest, key: seq<Byte>)
      ensures this.mac == mac && this.digest == digest && this.key == key && data == []
    {
      this.mac, this.digest, this.key, this.data := mac, digest, key, [];
    }

    method Reset()
      modifies this
      ensures data == []
    {
      data := [];
    }

    method Update(input: seq<Byte>)
      modifies this
      ensures data == old(data) + input
    {
      data := data + input;
    }

    /** Writes the whole digest and returns its length, or writes nothing and returns 0 when the
        output is too small. */
    method Final(output: array<Byte>) returns (written: nat)
      modifies output
      ensures var value := mac(digest, key, data);
              && written == (if |value| > output.Length then 0 else |value|)
              && output[..written] == value[..written]
              && output[written..] == old(output[..])[written..]
    {
      var value := mac(digest, key, data);
      if |value| > output.Length {
        return 0;
      }
      for i := 0 to |value|
        invariant output[..i] == value[..i]
        invariant output[i..] == old(output[..])[i..]
      {
        output[i] := value[i];
      }
      written := |value|;
    }
  }

  // ---------------------------------------------------------------- the expansion of RFC 2246

  /** A(0) is the seed and A(i) the HMAC of A(i-1). */
  function A(mac: Mac, d: Digest, secret: seq<Byte>, seed: seq<Byte>, i: nat): seq<Byte> {
    if i == 0 then seed else mac(d, secret, A(mac, d, secret, seed, i - 1))
  }

  function Block(mac: Mac, d: Digest, secret: seq<Byte>, seed: seq<Byte>, i: nat): seq<Byte> {
    mac(d, secret, A(mac, d, secret, seed, i + 1) + seed)
  }

  /** The first `m` blocks, HMAC(A(1) + seed) to HMAC(A(m) + seed), one after the other. */
  function Expansion(mac: Mac, d: Digest, secret: seq<Byte>, seed: seq<Byte>, m: nat): seq<Byte> {
    if m == 0 then [] else Expansion(mac, d, secret, seed, m - 1) + Block(mac, d, secret, seed, m - 1)
  }

  /** Byte `k` of the unbounded expansion. */
  function PByte(mac: Mac, d: Digest, secret: seq<Byte>, seed: seq<Byte>, k: nat): Byte
    requires IsMac(mac)
  {
    DivModBounds(k, Size(d));
    Block(mac, d, secret, seed, k / Size(d))[k % Size(d)]
  }

  lemma DivModBounds(k: nat, n: nat)
    requires n > 0
    ensures 0 <= k % n < n && k == (k / n) * n + k % n
  {
  }

  lemma QuotientBound(p: nat, m: nat, q: nat, n: nat, r: nat)
    requires m < n && r < n && p * n + m == q * n + r
    ensures p <= q
  {
    if p > q {
      assert p * n == q * n + (p - q) * n;
      AtLeastOnce(p - q, n);
      assert false;
    }
  }

  lemma AtLeastOnce(g: nat, n: nat)
    requires g >= 1
    ensures g * n >= n
  {
  }

  lemma DivModUnique(q: nat, n: nat, r: nat)
    requires r < n
    ensures (q * n + r) / n == q && (q * n + r) % n == r
  {
    var k := q * n + r;
    DivModBounds(k, n);
    QuotientBound(k / n, k % n, q, n, r);
    QuotientBound(q, r, k / n, n, k % n);
  }

  /** The blocks laid end to end are the bytes of the expansion, and more blocks only extend it. */
  lemma {:induction false} ExpansionBytes(mac: Mac, d: Digest, secret: seq<Byte>, seed: seq<Byte>, m: nat)
    requires IsMac(mac)
    ensures |Expansion(mac, d, secret, seed, m)| == m * Size(d)
    ensures forall k :: 0 <= k < m * Size(d) ==> Expansion(mac, d, secret, seed, m)[k] == PByte(mac, d, secret, seed, k)
  {
    if m > 0 {
      ExpansionBytes(mac, d, secret, seed, m - 1);
      var n, prefix := Size(d), Expansion(mac, d, secret, seed, m - 1);
      assert m * n == (m - 1) * n + n;
      forall k | (m - 1) * n <= k < m * n
        ensures Expansion(mac, d, secret, seed, m)[k] == PByte(mac, d, secret, seed, k)
      {
        DivModUnique(m - 1, n, k - (m - 1) * n);
      }
    }
  }

  /** The chain of section 5: the seed first, then each value the HMAC of the one before. */
  ghost predicate IsChain(mac: Mac, d: Digest, secret: seq<Byte>, seed: seq<Byte>, a: seq<seq<Byte>>) {
    a != [] && a[0] == seed && forall j :: 0 < j < |a| ==> a[j] == mac(d, secret, a[j - 1])
  }

  /** Position `k` is byte `r` of block `i`, in blocks of `n` bytes. */
  predicate InBlock(n: nat, i: nat, r: nat, k: nat) {
    k == i * n + r && r < n
  }

  lemma {:induction false} ChainIsA(mac: Mac, d: Digest, secret: seq<Byte>, seed: seq<Byte>, a: seq<seq<Byte>>, j: nat)
    requires IsChain(mac, d, secret, seed, a) && j < |a|
    ensures a[j] == A(mac, d, secret, seed, j)
  {
    if j > 0 { ChainIsA(mac, d, secret, seed, a, j - 1); }
  }

  /** Byte `r` of block `i` of the expansion is that of the HMAC of the next chain value and the seed. */
  lemma ExpansionMeans(
    mac: Mac, d: Digest, secret: seq<Byte>, seed: seq<Byte>, a: seq<seq<Byte>>, i: nat, r: nat, k: nat)
    requires IsMac(mac) && IsChain(mac, d, secret, seed, a) && i + 1 < |a| && InBlock(Size(d), i, r, k)
    ensures PByte(mac, d, secret, seed, k) == mac(d, secret, a[i + 1] + seed)[r]
  {
    ChainIsA(mac, d, secret, seed, a, i + 1);
    DivModUnique(i, Size(d), r);
  }

  /** The bytes of the expansion, said without computing it. */
  ghost predicate IsExpansion(mac: Mac, d: Digest, secret: seq<Byte>, seed: seq<Byte>, output: seq<Byte>)
    requires IsMac(mac)
  {
    forall a, i: nat, r: nat, k: nat {:trigger IsChain(mac, d, secret, seed, a), InBlock(Size(d), i, r, k)} ::
      IsChain(mac, d, secret, seed, a) && i + 1 < |a| && InBlock(Size(d), i, r, k) && k < |output| ==>
        output[k] == mac(d, secret, a[i + 1] + seed)[r]
  }

  lemma PBytesExpand(mac: Mac, d: Digest, secret: seq<Byte>, seed: seq<Byte>, output: seq<Byte>)
    requires IsMac(mac) && forall k :: 0 <= k < |output| ==> output[k] == PByte(mac, d, secret, seed, k)
    ensures IsExpansion(mac, d, secret, seed, output)
  {
    forall a, i: nat, r: nat, k: nat |
      IsChain(mac, d, secret, seed, a) && i + 1 < |a| && InBlock(Size(d), i, r, k) && k < |output|
      ensures output[k] == mac(d, secret, a[i + 1] + seed)[r]
    {
      ExpansionMeans(mac, d, secret, seed, a, i, r, k);
    }
  }

  /** The output of the whole function, byte by byte: blocks of 16 bytes over the first half of the
      secret, blocks of 20 bytes over the second. */
  lemma PrfMeans(
    mac: Mac, secret: seq<Byte>, seed: seq<Byte>, output: seq<Byte>, k: nat,
    a: seq<seq<Byte>>, i: nat, r: nat, b: seq<seq<Byte>>, j: nat, q: nat)
    requires IsMac(mac) && k < |output|
    requires forall k :: 0 <= k < |output| ==>
               output[k] == PByte(mac, MD5, FirstHalf(secret), seed, k) ^ PByte(mac, SHA1, SecondHalf(secret), seed, k)
    requires IsChain(mac, MD5, secret[..(|secret| + 1) / 2], seed, a) && i + 1 < |a| && InBlock(16, i, r, k)
    requires IsChain(mac, SHA1, secret[|secret| / 2..], seed, b) && j + 1 < |b| && InBlock(20, j, q, k)
    ensures output[k] == mac(MD5, secret[..(|secret| + 1) / 2], a[i + 1] + seed)[r]
                         ^ mac(SHA1, secret[|secret| / 2..], b[j + 1] + seed)[q]
  {
    assert SecondHalf(secret) == secret[|secret| / 2..];
    ExpansionMeans(mac, MD5, FirstHalf(secret), seed, a, i, r, k);
    ExpansionMeans(mac, SHA1, SecondHalf(secret), seed, b, j, q, k);
  }

  /** Shorter expansions are prefixes of longer ones. */
  lemma ExpansionPrefix(mac: Mac, d: Digest, secret: seq<Byte>, seed: seq<Byte>, m: nat, m': nat)
    requires IsMac(mac) && m <= m'
    ensures Expansion(mac, d, secret, seed, m) <= Expansion(mac, d, secret, seed, m')
  {
    ExpansionBytes(mac, d, secret, seed, m);
    ExpansionBytes(mac, d, secret, seed, m');
    assert m * Size(d) <= m' * Size(d);
  }

  // ---------------------------------------------------------------- the code

  /** Copies the first `take` bytes of `block` to `output` at `pos`. */
  method CopyBlock(output: array<Byte>, pos: nat, block: array<Byte>, take: nat)
    requires pos + take <= output.Length && take <= block.Length && output != block
    modifies output
    ensures forall k :: 0 <= k < pos ==> output[k] == old(output[k])
    ensures forall k :: pos <= k < pos + take ==> output[k] == block[k - pos]
  {
    for i := 0 to take
      invariant forall k :: 0 <= k < pos ==> output[k] == old(output[k])
      invariant forall k :: pos <= k < pos + i ==> output[k] == block[k - pos]
    {
      output[pos + i] := block[i];
    }
  }

  lemma BlockBytes(mac: Mac, d: Digest, secret: seq<Byte>, seed: seq<Byte>, i: nat, pos: nat)
    requires IsMac(mac) && pos == i * Size(d)
    ensures forall k :: pos <= k < pos + Size(d) ==>
            PByte(mac, d, secret, seed, k) == Block(mac, d, secret, seed, i)[k - pos]
  {
    forall k | pos <= k < pos + Size(d)
      ensures PByte(mac, d, secret, seed, k) == Block(mac, d, secret, seed, i)[k - pos]
    {
      DivModUnique(i, Size(d), k - pos);
    }
  }

  /** One round of the loop: appends as much of block `i` as fits. */
  method AppendBlock(hmac: HmacHandle, a: seq<Byte>, seed: seq<Byte>, output: array<Byte>, pos: nat, ghost i: nat)
    returns (take: nat)
    requires IsMac(hmac.mac) && pos < output.Length && pos == i * Size(hmac.digest)
    requires a == A(hmac.mac, hmac.digest, hmac.key, seed, i + 1)
    modifies hmac, output
    ensures take == (if output.Length - pos < Size(hmac.digest) then output.Length - pos else Size(hmac.digest))
    ensures forall k :: 0 <= k < pos ==> output[k] == old(output[k])
    ensures forall k :: pos <= k < pos + take ==> output[k] == PByte(hmac.mac, hmac.digest, hmac.key, seed, k)
  {
    hmac.Reset();
    hmac.Update(a);
    hmac.Update(seed);
    assert hmac.data == a + seed;
    var block := new Byte[MAX_HMAC_SIZE](_ => 0);
    var blockLen := hmac.Final(block);
    assert block[..blockLen] == Block(hmac.mac, hmac.digest, hmac.key, seed, i);
    take := if output.Length - pos < blockLen then output.Length - pos else blockLen;
    CopyBlock(output, pos, block, take);
    BlockBytes(hmac.mac, hmac.digest, hmac.key, seed, i, pos);
    assert forall k :: pos <= k < pos + take ==> output[k] == block[..blockLen][k - pos];
  }

  /** `p_hash`: fills the whole output with the first bytes of the expansion. */
  method PHash(mac: Mac, d: Digest, secret: seq<Byte>, seed: seq<Byte>, output: array<Byte>)
    requires IsMac(mac)
    modifies output
    ensures forall k :: 0 <= k < output.Length ==> output[k] == PByte(mac, d, secret, seed, k)
    ensures IsExpansion(mac, d, secret, seed, output[..])
  {
    var hmac := new HmacHandle(mac, d, secret);
    var a := new Byte[MAX_HMAC_SIZE](_ => 0);
    hmac.Update(seed);
    assert hmac.data == seed;
    var aLen := hmac.Final(a);
    var pos := 0;
    ghost var i: nat := 0;
    assert A(mac, d, secret, seed, 1) == mac(d, secret, seed);
    while pos < output.Length
      invariant fresh(hmac) && fresh(a) && hmac.mac == mac && hmac.digest == d && hmac.key == secret
      invariant a.Length == MAX_HMAC_SIZE && aLen == Size(d)
      invariant a[..aLen] == A(mac, d, secret, seed, i + 1)
      invariant pos <= output.Length && (pos == i * Size(d) || pos == output.Length)
      invariant forall k :: 0 <= k < pos ==> output[k] == PByte(mac, d, secret, seed, k)
    {
      var take := AppendBlock(hmac, a[..aLen], seed, output, pos, i);
      pos := pos + take;
      hmac.Reset();
      hmac.Update(a[..aLen]);
      assert hmac.data == A(mac, d, secret, seed, i + 1);
      aLen := hmac.Final(a);
      i := i + 1;
      assert a[..aLen] == A(mac, d, secret, seed, i + 1);
    }
    PBytesExpand(mac, d, secret, seed, output[..]);
  }

  /** The two halves of the secret; they share the middle byte when its length is odd. */
  function FirstHalf(secret: seq<Byte>): seq<Byte> {
    secret[..(|secret| + 1) / 2]
  }

  function SecondHalf(secret: seq<Byte>): seq<Byte> {
    secret[|secret| / 2..|secret| / 2 + (|secret| + 1) / 2]
  }

  lemma Halves(secret: seq<Byte>)
    ensures |FirstHalf(secret)| == |SecondHalf(secret)|
    ensures |secret| % 2 == 0 ==> FirstHalf(secret) + SecondHalf(secret) == secret
    ensures |secret| % 2 == 1 ==>
              && FirstHalf(secret)[..|secret| / 2] + SecondHalf(secret) == secret
              && FirstHalf(secret)[|secret| / 2] == SecondHalf(secret)[0]
  {
    assert |secret| / 2 + (|secret| + 1) / 2 == |secret|;
  }

  method XorInto(output: array<Byte>, other: array<Byte>)
    requires output != other && output.Length == other.Length
    modifies output
    ensures forall k :: 0 <= k < output.Length ==> output[k] == old(output[k]) ^ other[k]
  {
    for index := 0 to output.Length
      invariant forall k :: 0 <= k < index ==> output[k] == old(output[k]) ^ other[k]
      invariant forall k :: index <= k < output.Length ==> output[k] == old(output[k])
    {
      output[index] := output[index] ^ other[index];
    }
  }

  /** `PRF`: the byte-wise exclusive or of the MD5 and SHA-1 expansions. */
  method Prf(mac: Mac, seed: seq<Byte>, secret: seq<Byte>, output: array<Byte>)
    requires IsMac(mac)
    modifies output
    ensures forall k :: 0 <= k < output.Length ==>
              output[k] == PByte(mac, MD5, FirstHalf(secret), seed, k) ^ PByte(mac, SHA1, SecondHalf(secret), seed, k)
  {
    var half := (|secret| + 1) / 2;
    var md5 := new Byte[output.Length](_ => 0);
    PHash(mac, MD5, secret[..half], seed, md5);
    PHash(mac, SHA1, secret[|secret| / 2..|secret| / 2 + half], seed, output);
    XorInto(output, md5);
  }
}
