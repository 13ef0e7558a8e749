/**
  utility/decrypt_mii.go: the console's encrypted Mii is opened with a CTR stream whose whole 16-byte counter counts,
  which is the CCM of RFC 3610 only as long as the carry stays inside CCM's own counter field. The block cipher is any
  function from blocks to blocks.
 */
module MiiCipher {
  import opened Basics

  type byte = x: int | 0 <= x < 256
  type Bytes = seq<byte>

  const BLOCK_SIZE: nat := 16

  type Block = b: Bytes | |b| == BLOCK_SIZE witness Zeros(BLOCK_SIZE)

  function Zeros(n: nat): (z: Bytes)
    ensures |z| == n
  {
    if n == 0 then [] else Zeros(n - 1) + [0]
  }

  function Pow2(n: nat): (p: nat)
    ensures 0 < p
  {
    if n == 0 then 1 else 2 * Pow2(n - 1)
  }

  /** Exclusive or of the low `n` bits. */
  function XorBits(a: nat, b: nat, n: nat): (r: nat)
    ensures r < Pow2(n)
  {
    if n == 0 then 0 else (if a % 2 == b % 2 then 0 else 1) + 2 * XorBits(a / 2, b / 2, n - 1)
  }

  function Xor(a: byte, b: byte): byte {
    assert Pow2(8) == 256 by {
      assert Pow2(4) == 16;
    }
    XorBits(a, b, 8)
  }

  /** Bit `i` of `x` is set. */
  predicate Bit(x: nat, i: nat) {
    if i == 0 then x % 2 == 1 else Bit(x / 2, i - 1)
  }

  lemma {:induction false} BitIs(x: nat, i: nat)
    ensures Bit(x, i) <==> (x / Pow2(i)) % 2 == 1
  {
    if 0 < i {
      BitIs(x / 2, i - 1);
      HalfFirst(x, Pow2(i - 1));
    }
  }

  lemma HalfFirst(x: nat, p: nat)
    requires 0 < p
    ensures x / (2 * p) == (x / 2) / p
  {
    var q, rest := (x / 2) / p, (x / 2) % p;
    assert x == 2 * (q * p + rest) + x % 2;
    assert x == q * (2 * p) + (2 * rest + x % 2);
    Quotient(x, 2 * p, q, 2 * rest + x % 2);
  }

  lemma Quotient(x: nat, d: nat, q: nat, rest: nat)
    requires 0 < d && rest < d && x == q * d + rest
    ensures x / d == q
  {
    var over := x / d - q;
    assert over * d == rest - x % d;
  }

  /** Exclusive or, bit by bit. */
  lemma XorBit(a: byte, b: byte, i: nat)
    requires i < 8
    ensures Bit(Xor(a, b), i) <==> (Bit(a, i) <==> !Bit(b, i))
  {
    XorBitsAt(a, b, 8, i);
  }

  lemma {:induction false} XorBitsAt(a: nat, b: nat, n: nat, i: nat)
    requires i < n
    ensures Bit(XorBits(a, b, n), i) <==> (Bit(a, i) <==> !Bit(b, i))
  {
    var bit, rest := if a % 2 == b % 2 then 0 else 1, XorBits(a / 2, b / 2, n - 1);
    assert (bit + 2 * rest) % 2 == bit && (bit + 2 * rest) / 2 == rest;
    if 0 < i {
      XorBitsAt(a / 2, b / 2, n - 1, i - 1);
    }
  }

  /** A byte is its eight bits, so `XorBit` says which byte the exclusive or is. */
  lemma BitsDecide(a: byte, b: byte)
    requires forall i :: 0 <= i < 8 ==> (Bit(a, i) <==> Bit(b, i))
    ensures a == b
  {
    assert Pow2(4) == 16;
    assert Pow2(8) == 256;
    BitsDecideBelow(a, b, 8);
  }

  lemma {:induction false} BitsDecideBelow(a: nat, b: nat, n: nat)
    requires a < Pow2(n) && b < Pow2(n) && forall i :: 0 <= i < n ==> (Bit(a, i) <==> Bit(b, i))
    ensures a == b
  {
    if 0 < n {
      assert Bit(a, 0) <==> Bit(b, 0);
      forall i | 0 <= i < n - 1 ensures Bit(a / 2, i) <==> Bit(b / 2, i) {
        assert Bit(a, i + 1) <==> Bit(b, i + 1);
      }
      BitsDecideBelow(a / 2, b / 2, n - 1);
    }
  }

  lemma {:induction false} ZeroBits(i: nat)
    ensures !Bit(0, i)
  {
    if 0 < i {
      ZeroBits(i - 1);
    }
  }

  /** What CTR mode needs of it: a second time undoes it, zero does nothing, a byte clears itself, and the order is free. */
  lemma XorLaws(a: byte, b: byte)
    ensures Xor(Xor(a, b), b) == a && Xor(a, 0) == a && Xor(a, a) == 0 && Xor(a, b) == Xor(b, a)
  {
    forall i | 0 <= i < 8
      ensures Bit(Xor(Xor(a, b), b), i) <==> Bit(a, i)
      ensures Bit(Xor(a, 0), i) <==> Bit(a, i)
      ensures Bit(Xor(a, a), i) <==> Bit(0, i)
      ensures Bit(Xor(a, b), i) <==> Bit(Xor(b, a), i)
    {
      XorBit(Xor(a, b), b, i);
      XorBit(a, b, i);
      XorBit(b, a, i);
      XorBit(a, 0, i);
      XorBit(a, a, i);
      ZeroBits(i);
    }
    BitsDecide(Xor(Xor(a, b), b), a);
    BitsDecide(Xor(a, 0), a);
    BitsDecide(Xor(a, a), 0);
    BitsDecide(Xor(a, b), Xor(b, a));
  }

  // --- big-endian counters ---

  function Pow256(n: nat): (p: nat)
    ensures 0 < p
  {
    if n == 0 then 1 else 256 * Pow256(n - 1)
  }

  /** `k` in `n` bytes, most significant first, as RFC 3610 writes the counter of A_i. */
  function BigEndian(k: nat, n: nat): (b: Bytes)
    ensures |b| == n
  {
    if n == 0 then [] else BigEndian(k / 256, n - 1) + [k % 256]
  }

  /** One step of the counter of CTR mode: all of the block counts, and wraps. */
  function Inc(b: Bytes): (r: Bytes)
    ensures |r| == |b|
  {
    if b == [] then []
    else if b[|b| - 1] == 255 then Inc(b[..|b| - 1]) + [0]
    else b[..|b| - 1] + [b[|b| - 1] + 1]
  }

  function IncBy(b: Bytes, k: nat): (r: Bytes)
    ensures |r| == |b|
  {
    if k == 0 then b else Inc(IncBy(b, k - 1))
  }

  lemma IncSnoc(b: Bytes, x: byte)
    ensures Inc(b + [x]) == if x == 255 then Inc(b) + [0] else b + [x + 1]
  {
    assert (b + [x])[..|b|] == b;
  }

  lemma {:induction false} BigEndianZero(n: nat)
    ensures BigEndian(0, n) == Zeros(n)
  {
    if 0 < n {
      BigEndianZero(n - 1);
    }
  }

  lemma NextDigits(k: nat)
    ensures k % 256 == 255 ==> (k + 1) / 256 == k / 256 + 1 && (k + 1) % 256 == 0
    ensures k % 256 != 255 ==> (k + 1) / 256 == k / 256 && (k + 1) % 256 == k % 256 + 1
  {
  }

  lemma BigEndianSnoc(prefix: Bytes, k: nat, n: nat)
    requires 0 < n
    ensures prefix + BigEndian(k, n) == (prefix + BigEndian(k / 256, n - 1)) + [k % 256]
  {
  }

  /** Below the last value of the field, a step counts inside the field and leaves what precedes it alone. */
  lemma {:induction false} IncCounts(prefix: Bytes, k: nat, n: nat)
    requires k + 1 < Pow256(n)
    ensures Inc(prefix + BigEndian(k, n)) == prefix + BigEndian(k + 1, n)
  {
    hide BigEndian, Inc;
    BigEndianSnoc(prefix, k, n);
    BigEndianSnoc(prefix, k + 1, n);
    NextDigits(k);
    IncSnoc(prefix + BigEndian(k / 256, n - 1), k % 256);
    if k % 256 == 255 {
      CarryFits(k, n);
      IncCounts(prefix, k / 256, n - 1);
    }
  }

  lemma CarryFits(k: nat, n: nat)
    requires k + 1 < Pow256(n) && k % 256 == 255
    ensures 0 < n && k / 256 + 1 < Pow256(n - 1)
  {
    assert k == 256 * (k / 256) + 255;
  }

  /** At the last value the carry leaves the field. */
  lemma {:induction false} IncOverflows(prefix: Bytes, n: nat)
    ensures Inc(prefix + BigEndian(Pow256(n) - 1, n)) == Inc(prefix) + Zeros(n)
  {
    if n == 0 {
      assert prefix + [] == prefix;
      assert Inc(prefix) + [] == Inc(prefix);
    } else {
      hide BigEndian, Inc;
      var k := Pow256(n) - 1;
      LastDigits(n);
      BigEndianSnoc(prefix, k, n);
      IncSnoc(prefix + BigEndian(k / 256, n - 1), 255);
      IncOverflows(prefix, n - 1);
      assert Inc(prefix) + Zeros(n) == (Inc(prefix) + Zeros(n - 1)) + [0];
    }
  }

  lemma LastDigits(n: nat)
    requires 0 < n
    ensures (Pow256(n) - 1) / 256 == Pow256(n - 1) - 1 && (Pow256(n) - 1) % 256 == 255
  {
    assert Pow256(n) - 1 == 256 * (Pow256(n - 1) - 1) + 255;
  }

  lemma {:induction false} IncChanges(b: Bytes)
    requires b != []
    ensures Inc(b) != b
  {
    var n := |b| - 1;
    if b[n] == 255 {
      assert Inc(b)[n] == 0;
    } else {
      assert Inc(b)[n] == b[n] + 1;
    }
  }

  // --- RFC 3610 ---

  /** Section 2.3: the counter block A_i, flags byte L-1, the nonce, and i in the last L = 15 - |nonce| bytes. */
  function CounterBlock(nonce: Bytes, i: nat): (a: Block)
    requires |nonce| <= 15
  {
    Prefix(nonce) + BigEndian(i, 15 - |nonce|)
  }

  function Prefix(nonce: Bytes): (p: Bytes)
    requires |nonce| <= 15
    ensures |p| == 1 + |nonce|
  {
    [(14 - |nonce|) % 256] + nonce
  }

  /** How many counter blocks A_0, A_1, ... there are. */
  function Counters(nonce: Bytes): nat
    requires |nonce| <= 15
  {
    Pow256(15 - |nonce|)
  }

  /** Encryption and decryption of CCM: the message XORed with S_1, S_2, ..., where S_i is the cipher applied to A_i. */
  function Ccm(cipher: Block -> Block, nonce: Bytes, message: Bytes): (r: Bytes)
    requires |nonce| <= 15
    ensures |r| == |message|
  {
    seq(|message|, p requires 0 <= p < |message| => Xor(message[p], cipher(CounterBlock(nonce, 1 + p / 16))[p % 16]))
  }

  /** The number of counter blocks a message needs, S_0 included. */
  function BlocksFor(length: nat): nat {
    1 + (length + 15) / 16
  }

  /** With a nonce of 12 bytes: the byte 2, the nonce, and i in three bytes. */
  lemma CounterBlockIs(nonce: Bytes, i: nat)
    requires |nonce| == 12
    ensures CounterBlock(nonce, i) == [2] + nonce + [(i / 65536) % 256, (i / 256) % 256, i % 256]
  {
    assert i / 256 / 256 == i / 65536;
    assert BigEndian(i / 256 / 256, 1) == BigEndian(i / 256 / 256 / 256, 0) + [(i / 256 / 256) % 256];
    assert BigEndian(i / 256, 2) == BigEndian(i / 256 / 256, 1) + [(i / 256) % 256];
    assert BigEndian(i, 3) == BigEndian(i / 256, 2) + [i % 256];
  }

  /** The full-width counter runs through A_0, A_1, ... up to the last of them. */
  lemma {:induction false} CounterRunsThrough(nonce: Bytes, k: nat)
    requires |nonce| <= 15 && k < Counters(nonce)
    ensures IncBy(CounterBlock(nonce, 0), k) == CounterBlock(nonce, k)
  {
    if 0 < k {
      CounterRunsThrough(nonce, k - 1);
      IncCounts(Prefix(nonce), k - 1, 15 - |nonce|);
    }
  }

  /** And not beyond: the next step carries into the nonce, or into the flags. */
  lemma CounterLeavesNonce(nonce: Bytes)
    requires |nonce| <= 15
    ensures IncBy(CounterBlock(nonce, 0), Counters(nonce))[..1 + |nonce|] != Prefix(nonce)
  {
    var n := 15 - |nonce|;
    CounterRunsThrough(nonce, Counters(nonce) - 1);
    IncOverflows(Prefix(nonce), n);
    IncChanges(Prefix(nonce));
    assert (Inc(Prefix(nonce)) + Zeros(n))[..1 + |nonce|] == Inc(Prefix(nonce));
  }

  /** The code's first `n` counter blocks keep CCM's flags and nonce exactly when there are that many counters. */
  lemma StreamKeepsNonceIff(nonce: Bytes, n: nat)
    requires |nonce| <= 15
    ensures (forall k :: 0 <= k < n ==> IncBy(CounterBlock(nonce, 0), k)[..1 + |nonce|] == Prefix(nonce))
      <==> n <= Counters(nonce)
  {
    if Counters(nonce) < n {
      CounterLeavesNonce(nonce);
    } else {
      forall k | 0 <= k < n ensures IncBy(CounterBlock(nonce, 0), k)[..1 + |nonce|] == Prefix(nonce) {
        CounterRunsThrough(nonce, k);
      }
    }
  }

  // --- the code ---

  /** The increment of Go's CTR stream, in place. */
  method Increment(counter: array<byte>)
    modifies counter
    ensures counter[..] == Inc(old(counter[..]))
  {
    ghost var before := counter[..];
    var i := counter.Length;
    assert before[..i] == before;
    assert counter[i..] == [];
    while 0 < i
      invariant 0 <= i <= counter.Length
      invariant counter[..i] == before[..i]
      invariant Inc(before) == Inc(before[..i]) + counter[i..]
    {
      i := i - 1;
      assert before[..i + 1] == before[..i] + [before[i]];
      IncSnoc(before[..i], before[i]);
      counter[i] := if counter[i] == 255 then 0 else counter[i] + 1;
      if counter[i] != 0 {
        assert counter[..] == before[..i] + [counter[i]] + counter[i + 1..];
        return;
      }
      assert counter[i..] == [0] + counter[i + 1..];
    }
    assert before[..0] == [];
  }

  /**
    cipher.Stream.XORKeyStream, which writes the key stream's blocks over the source as far as it goes. `counter` ends
    one step per block further.
   */
  method XorKeyStream(cipher: Block -> Block, counter: array<byte>, dst: array<byte>, src: array<byte>)
    requires counter.Length == BLOCK_SIZE && dst.Length == src.Length
    requires counter != dst && counter != src && dst != src
    modifies counter, dst
    ensures forall p :: 0 <= p < dst.Length ==> dst[p] == Xor(src[p], cipher(IncBy(old(counter[..]), p / 16))[p % 16])
  {
    ghost var start := counter[..];
    var pos := 0;
    ghost var k: nat := 0;
    while pos < dst.Length
      invariant pos == 16 * k && counter[..] == IncBy(start, k)
      invariant forall p :: 0 <= p < dst.Length && p < pos ==> dst[p] == Xor(src[p], cipher(IncBy(start, p / 16))[p % 16])
    {
      var block: Block := counter[..];
      var keyStream := cipher(block);
      XorBlock(keyStream, dst, src, pos);
      forall p | pos <= p < dst.Length && p < pos + 16
        ensures dst[p] == Xor(src[p], cipher(IncBy(start, p / 16))[p % 16])
      {
        assert p / 16 == k && p % 16 == p - pos;
      }
      Increment(counter);
      pos := pos + 16;
      k := k + 1;
    }
  }

  /** One block of the key stream, cut off at the end of the data. */
  method XorBlock(keyStream: Block, dst: array<byte>, src: array<byte>, pos: nat)
    requires dst.Length == src.Length && dst != src
    modifies dst
    ensures forall p :: 0 <= p < dst.Length ==>
      dst[p] == if pos <= p < pos + 16 then Xor(src[p], keyStream[p - pos]) else old(dst[p])
  {
    var j := 0;
    while j < 16 && pos + j < dst.Length
      invariant 0 <= j <= 16
      invariant forall p :: 0 <= p < dst.Length ==>
        dst[p] == if pos <= p < pos + j then Xor(src[p], keyStream[p - pos]) else old(dst[p])
    {
      dst[pos + j] := Xor(src[pos + j], keyStream[j]);
      j := j + 1;
    }
  }

  predicate KeyLengthOk(key: Bytes) {
    |key| == 16 || |key| == 24 || |key| == 32
  }

  /** The counter ccmDecrypt starts from: flags, nonce and zeros, which is A_0. */
  method FirstCounter(nonce: Bytes) returns (counter: array<byte>)
    requires |nonce| <= 15
    ensures fresh(counter) && counter.Length == BLOCK_SIZE && counter[..] == CounterBlock(nonce, 0)
  {
    counter := new byte[BLOCK_SIZE](i => 0);
    counter[0] := (14 - |nonce|) % 256;
    for i := 0 to |nonce|
      invariant counter[0] == (14 - |nonce|) % 256
      invariant forall p :: 1 <= p < 16 ==> counter[p] == if p <= i then nonce[p - 1] else 0
    {
      counter[1 + i] := nonce[i];
    }
    ZerosAt(15 - |nonce|);
    BigEndianZero(15 - |nonce|);
  }

  /** A block of zeros, to use up S_0, and the ciphertext. */
  method Padded(ciphertext: Bytes) returns (padded: array<byte>)
    ensures fresh(padded) && padded.Length == BLOCK_SIZE + |ciphertext|
    ensures padded[BLOCK_SIZE..] == ciphertext
  {
    padded := new byte[BLOCK_SIZE + |ciphertext|](i => 0);
    for i := 0 to |ciphertext|
      invariant forall p :: 0 <= p < i ==> padded[BLOCK_SIZE + p] == ciphertext[p]
    {
      padded[BLOCK_SIZE + i] := ciphertext[i];
    }
  }

  /** Past the first block, the key stream of the full-width counter is S_1, S_2, ... */
  lemma StreamBlock(nonce: Bytes, p: nat, length: nat)
    requires |nonce| <= 15 && p < length && BlocksFor(length) <= Counters(nonce)
    ensures (BLOCK_SIZE + p) % 16 == p % 16
    ensures IncBy(CounterBlock(nonce, 0), (BLOCK_SIZE + p) / 16) == CounterBlock(nonce, 1 + p / 16)
  {
    assert (BLOCK_SIZE + p) / 16 == 1 + p / 16;
    CounterRunsThrough(nonce, 1 + p / 16);
  }

  /** The whole stream with its first block dropped. */
  lemma StreamIsCcm(cipher: Block -> Block, nonce: Bytes, ciphertext: Bytes, padded: Bytes, plain: Bytes)
    requires |nonce| <= 15 && BlocksFor(|ciphertext|) <= Counters(nonce)
    requires |plain| == |padded| == BLOCK_SIZE + |ciphertext| && padded[BLOCK_SIZE..] == ciphertext
    requires forall p :: 0 <= p < |plain| ==>
               plain[p] == Xor(padded[p], cipher(IncBy(CounterBlock(nonce, 0), p / 16))[p % 16])
    ensures plain[BLOCK_SIZE..] == Ccm(cipher, nonce, ciphertext)
  {
    hide CounterBlock, IncBy, Counters, BlocksFor, Xor;
    forall p | 0 <= p < |ciphertext|
      ensures plain[BLOCK_SIZE..][p] == Ccm(cipher, nonce, ciphertext)[p]
    {
      StreamBlock(nonce, p, |ciphertext|);
      assert ciphertext[p] == padded[BLOCK_SIZE..][p] == padded[BLOCK_SIZE + p];
    }
  }

  /**
    ccmDecrypt. `aes` is the block cipher of a key; None is the error of a key of the wrong length. A nonce of more than
    15 bytes does not fit the counter block, and the source panics on it.
   */
  method CcmDecrypt(aes: Bytes -> (Block -> Block), key: Bytes, nonce: Bytes, ciphertext: Bytes) returns (out: Option<Bytes>)
    requires |nonce| <= 15
    ensures out.Some? <==> |key| == 16 || |key| == 24 || |key| == 32
    ensures out.Some? && BlocksFor(|ciphertext|) <= Counters(nonce) ==> out.value == Ccm(aes(key), nonce, ciphertext)
  {
    hide CounterBlock, IncBy, Counters, BlocksFor, Xor, Ccm;
    if !KeyLengthOk(key) {
      return None;
    }
    var counter := FirstCounter(nonce);
    var padded := Padded(ciphertext);
    var plain := new byte[padded.Length](i => 0);
    XorKeyStream(aes(key), counter, plain, padded);
    out := Some(plain[BLOCK_SIZE..]);
    if BlocksFor(|ciphertext|) <= Counters(nonce) {
      StreamIsCcm(aes(key), nonce, ciphertext, padded[..], plain[..]);
    }
  }

  lemma {:induction false} ZerosAt(n: nat)
    ensures forall i :: 0 <= i < n ==> Zeros(n)[i] == 0
  {
    if 0 < n {
      ZerosAt(n - 1);
    }
  }

  // --- the Mii ---

  const MII_NONCE: nat := 8          // of the console's 12-byte nonce, which ends in four zeros
  const MII_CIPHERTEXT: nat := 0x58
  const MII_MIN: nat := 0x70         // nonce, ciphertext and a 16-byte tag
  const MII_NONCE_AT: nat := 12      // where the nonce sits in the Mii itself

  function MiiNonce(nonce: Bytes): (n: Bytes)
    requires |nonce| == MII_NONCE
    ensures |n| == 12
  {
    nonce + [0, 0, 0, 0]
  }

  datatype MiiError = BadLength | BadKey

  datatype MiiResult = Mii(data: Bytes) | Failed(error: MiiError)

  /** What DecryptMiiData returns for data that is long enough. */
  function OpenedMii(cipher: Block -> Block, data: Bytes): (mii: Bytes)
    requires MII_MIN <= |data|
    ensures |mii| == MII_NONCE + MII_CIPHERTEXT
  {
    var nonce := data[..MII_NONCE];
    var content := Ccm(cipher, MiiNonce(nonce), data[MII_NONCE..MII_NONCE + MII_CIPHERTEXT]);
    content[..MII_NONCE_AT] + nonce + content[MII_NONCE_AT..]
  }

  /** Byte `q` of the key stream of a console whose nonce is `nonce`. */
  function KeyByte(cipher: Block -> Block, nonce: Bytes, q: nat): byte
    requires |nonce| == 8 && q < 88
  {
    cipher([2] + nonce + [0, 0, 0, 0] + [0, 0, 1 + q / 16])[q % 16]
  }

  /** Where each byte of the Mii comes from. */
  lemma MiiLayout(cipher: Block -> Block, data: Bytes)
    requires 0x70 <= |data|
    ensures
      var mii, nonce := OpenedMii(cipher, data), data[..8];
      && |mii| == 96 && mii[12..20] == nonce
      && (forall p :: 0 <= p < 12 ==> mii[p] == Xor(data[8 + p], KeyByte(cipher, nonce, p)))
      && (forall p :: 20 <= p < 96 ==> mii[p] == Xor(data[p], KeyByte(cipher, nonce, p - 8)))
  {
    hide Xor, CounterBlock;
    var mii, nonce, ciphertext := OpenedMii(cipher, data), data[..8], data[8..96];
    var content := Ccm(cipher, MiiNonce(nonce), ciphertext);
    forall q | 0 <= q < 88 ensures content[q] == Xor(data[8 + q], KeyByte(cipher, nonce, q)) {
      CounterBlockIs(MiiNonce(nonce), 1 + q / 16);
      assert (1 + q / 16) / 65536 == 0 && (1 + q / 16) / 256 == 0 && (1 + q / 16) % 256 == 1 + q / 16;
      assert [2] + MiiNonce(nonce) == [2] + nonce + [0, 0, 0, 0];
    }
  }

  /** DecryptMiiData. `key` is the configured key, None when it is not hex. */
  method DecryptMiiData(aes: Bytes -> (Block -> Block), key: Option<Bytes>, data: Bytes) returns (r: MiiResult)
    ensures r == if |data| < 0x70 then Failed(BadLength)
                 else if key.None? || (|key.value| != 16 && |key.value| != 24 && |key.value| != 32) then Failed(BadKey)
                 else Mii(OpenedMii(aes(key.value), data))
  {
    if |data| < MII_MIN {
      return Failed(BadLength);
    }
    if key.None? {
      return Failed(BadKey);
    }
    var nonce := data[..MII_NONCE];
    var ciphertext := data[MII_NONCE..MII_NONCE + MII_CIPHERTEXT];
    assert Counters(MiiNonce(nonce)) == 256 * 256 * 256 by {
      assert Pow256(1) == 256 && Pow256(2) == 256 * 256;
    }
    var content := CcmDecrypt(aes, key.value, nonce + [0, 0, 0, 0], ciphertext);
    if content.None? {
      return Failed(BadKey);
    }
    return Mii(content.value[..MII_NONCE_AT] + nonce + content.value[MII_NONCE_AT..]);
  }

  /** The console's side: the 8 bytes at offset 12 become the nonce, the rest is encrypted, and a tag follows. */
  function SealedMii(cipher: Block -> Block, mii: Bytes, tag: Bytes): (data: Bytes)
    requires |mii| == MII_NONCE + MII_CIPHERTEXT
    ensures |data| == MII_NONCE + MII_CIPHERTEXT + |tag|
  {
    var nonce := mii[MII_NONCE_AT..MII_NONCE_AT + MII_NONCE];
    nonce + Ccm(cipher, MiiNonce(nonce), mii[..MII_NONCE_AT] + mii[MII_NONCE_AT + MII_NONCE..]) + tag
  }

  lemma CcmTwice(cipher: Block -> Block, nonce: Bytes, message: Bytes)
    requires |nonce| <= 15
    ensures Ccm(cipher, nonce, Ccm(cipher, nonce, message)) == message
  {
    var sealed := Ccm(cipher, nonce, message);
    forall p | 0 <= p < |message| ensures Ccm(cipher, nonce, sealed)[p] == message[p] {
      XorLaws(message[p], cipher(CounterBlock(nonce, 1 + p / 16))[p % 16]);
    }
  }

  /** Whatever Mii a console sealed, and whatever its tag, opening the data gives back the Mii, the nonce in its place. */
  lemma OpenSealed(cipher: Block -> Block, mii: Bytes, tag: Bytes)
    requires |mii| == MII_NONCE + MII_CIPHERTEXT && MII_MIN <= MII_NONCE + MII_CIPHERTEXT + |tag|
    ensures OpenedMii(cipher, SealedMii(cipher, mii, tag)) == mii
  {
    var nonce := mii[MII_NONCE_AT..MII_NONCE_AT + MII_NONCE];
    var plain := mii[..MII_NONCE_AT] + mii[MII_NONCE_AT + MII_NONCE..];
    var data := SealedMii(cipher, mii, tag);
    assert data[..MII_NONCE] == nonce;
    assert data[MII_NONCE..MII_NONCE + MII_CIPHERTEXT] == Ccm(cipher, MiiNonce(nonce), plain);
    CcmTwice(cipher, MiiNonce(nonce), plain);
  }

  /** And the other way: sealing what was opened gives back the data, so no two inputs open to the same Mii but by their tags. */
  lemma SealOpened(cipher: Block -> Block, data: Bytes)
    requires MII_MIN <= |data|
    ensures SealedMii(cipher, OpenedMii(cipher, data), data[MII_NONCE + MII_CIPHERTEXT..]) == data
  {
    var nonce := data[..MII_NONCE];
    var ciphertext := data[MII_NONCE..MII_NONCE + MII_CIPHERTEXT];
    var content := Ccm(cipher, MiiNonce(nonce), ciphertext);
    var mii := OpenedMii(cipher, data);
    assert mii[MII_NONCE_AT..MII_NONCE_AT + MII_NONCE] == nonce;
    assert mii[..MII_NONCE_AT] + mii[MII_NONCE_AT + MII_NONCE..] == content;
    CcmTwice(cipher, MiiNonce(nonce), ciphertext);
  }
}
