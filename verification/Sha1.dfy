// sha1: padding, message schedule, 80 rounds and chaining, proved equal to the recursive
// definition in section 6.1.2 of FIPS 180-4. The schedule and the rounds can be run backwards,
// and the padding is injective and suffix-free.
//
// The recursions take the word-level operation as a function parameter, so that facts about
// the shape of the computation are proved once for any operation with the properties they need.
module Sha1 {
  type Byte = bv8
  type Word = bv32

  datatype Hash = Hash(a: Word, b: Word, c: Word, d: Word, e: Word)

  const BLOCK: nat := 64

  type Block = s: seq<Byte> | |s| == 64 witness seq(64, _ => 0)
  type Words16 = s: seq<Word> | |s| == 16 witness seq(16, _ => 0)
  type Words80 = s: seq<Word> | |s| == 80 witness seq(80, _ => 0)

  const H0: Hash := Hash(0x67452301, 0xEFCDAB89, 0x98BADCFE, 0x10325476, 0xC3D2E1F0)

  // ---------------------------------------------------------------- FIPS 180-4, functions and constants

  function Ch(x: Word, y: Word, z: Word): Word { (x & y) ^ (!x & z) }

  function Parity(x: Word, y: Word, z: Word): Word { x ^ y ^ z }

  function Maj(x: Word, y: Word, z: Word): Word { (x & y) ^ (x & z) ^ (y & z) }

  function F(t: nat, x: Word, y: Word, z: Word): Word {
    if t < 20 then Ch(x, y, z) else if t < 40 then Parity(x, y, z)
    else if t < 60 then Maj(x, y, z) else Parity(x, y, z)
  }

  function K(t: nat): Word {
    if t < 20 then 0x5A827999 else if t < 40 then 0x6ED9EBA1
    else if t < 60 then 0x8F1BBCDC else 0xCA62C1D6
  }

  // ---------------------------------------------------------------- padding

  /** The number of zero bytes after 0x80: the least that leaves eight bytes in the last block. */
  function Zeros(n: nat): (z: nat)
    ensures z < BLOCK && (n + 1 + z) % BLOCK == 56
  {
    (55 - n) % BLOCK
  }

  lemma LeastZeros(n: nat, z: nat)
    requires z <= Zeros(n)
    ensures (n + 1 + z) % BLOCK == 56 <==> z == Zeros(n)
    ensures (n + 9 + Zeros(n)) % BLOCK == 0
  {
  }

  /** The k-th byte of a 64-bit number, least significant first. */
  function ByteOf64(v: bv64, k: nat): Byte
    requires k < 8
  {
    match k
    case 0 => (v & 0xff) as Byte
    case 1 => ((v >> 8) & 0xff) as Byte
    case 2 => ((v >> 16) & 0xff) as Byte
    case 3 => ((v >> 24) & 0xff) as Byte
    case 4 => ((v >> 32) & 0xff) as Byte
    case 5 => ((v >> 40) & 0xff) as Byte
    case 6 => ((v >> 48) & 0xff) as Byte
    case _ => ((v >> 56) & 0xff) as Byte
  }

  /** The 64-bit number with the given bytes, most significant first. */
  function Join64(b7: Byte, b6: Byte, b5: Byte, b4: Byte, b3: Byte, b2: Byte, b1: Byte, b0: Byte): bv64 {
    ((b7 as bv64) << 56) | ((b6 as bv64) << 48) | ((b5 as bv64) << 40) | ((b4 as bv64) << 32) |
    ((b3 as bv64) << 24) | ((b2 as bv64) << 16) | ((b1 as bv64) << 8) | (b0 as bv64)
  }

  lemma JoinOfBytes(v: bv64)
    ensures Join64(ByteOf64(v, 7), ByteOf64(v, 6), ByteOf64(v, 5), ByteOf64(v, 4),
                   ByteOf64(v, 3), ByteOf64(v, 2), ByteOf64(v, 1), ByteOf64(v, 0)) == v
  {
  }

  /** A number as uint64_t holds it. */
  function Bits64(x: nat): bv64 {
    (x % 0x1_0000_0000_0000_0000) as bv64
  }

  predicate Represents(v: bv64, x: nat) { v as int == x }

  lemma Bits64AsInt(x: nat)
    requires x < 0x1_0000_0000_0000_0000
    ensures Bits64(x) as int == x
  {
    assert x % 0x1_0000_0000_0000_0000 == x;
    assert Represents(x as bv64, x);
    assert Bits64(x) == x as bv64;
    assert Represents(Bits64(x), x);
  }

  /** The length field: the length in bits, big-endian in eight bytes. */
  function LengthField(n: nat): seq<Byte> {
    var v := Bits64(8 * n);
    [ByteOf64(v, 7), ByteOf64(v, 6), ByteOf64(v, 5), ByteOf64(v, 4),
     ByteOf64(v, 3), ByteOf64(v, 2), ByteOf64(v, 1), ByteOf64(v, 0)]
  }

  lemma LengthFieldInjective(x: nat, y: nat)
    requires 8 * x < 0x1_0000_0000_0000_0000 && 8 * y < 0x1_0000_0000_0000_0000
    requires LengthField(x) == LengthField(y)
    ensures x == y
  {
    forall k | 0 <= k < 8 ensures ByteOf64(Bits64(8 * x), k) == ByteOf64(Bits64(8 * y), k) {
      assert LengthField(x)[7 - k] == LengthField(y)[7 - k];
    }
    JoinOfBytes(Bits64(8 * x));
    JoinOfBytes(Bits64(8 * y));
    Bits64AsInt(8 * x);
    Bits64AsInt(8 * y);
  }

  function PadWith(field: nat -> seq<Byte>, m: seq<Byte>): seq<Byte> {
    m + [0x80] + seq(Zeros(|m|), _ => 0) + field(|m|)
  }

  function Pad(m: seq<Byte>): (p: seq<Byte>)
    ensures |p| % BLOCK == 0 && m <= p
  {
    LeastZeros(|m|, 0);
    PadWith(LengthField, m)
  }

  /** Padding fits the message, 0x80 and the length into the least number of whole blocks. */
  lemma PadIsLeast(m: seq<Byte>, n: nat)
    requires n % BLOCK == 0 && |m| + 9 <= n
    ensures |m| + 9 <= |Pad(m)| <= n
  {
    LeastMultiple(|Pad(m)|, n);
  }

  lemma LeastMultiple(p: nat, n: nat)
    requires p % BLOCK == 0 && n % BLOCK == 0 && p < n + BLOCK
    ensures p <= n
  {
  }

  lemma PaddedSuffix(field: nat -> seq<Byte>, x: seq<Byte>, y: seq<Byte>, front: seq<Byte>)
    requires |field(|x|)| == |field(|y|)| == 8
    requires field(|x|) == field(|y|) ==> |x| == |y|
    requires PadWith(field, y) == front + PadWith(field, x)
    ensures x == y && front == []
  {
    var p, q := PadWith(field, x), PadWith(field, y);
    assert field(|x|) == p[|p| - 8..] == q[|q| - 8..] == field(|y|);
    assert |p| == |q|;
    assert x == p[..|x|] == q[..|y|] == y;
  }

  /** No padded message is a suffix of another; in particular padding is injective. */
  lemma PadSuffixFree(x: seq<Byte>, y: seq<Byte>, front: seq<Byte>)
    requires 8 * |x| < 0x1_0000_0000_0000_0000 && 8 * |y| < 0x1_0000_0000_0000_0000
    requires Pad(y) == front + Pad(x)
    ensures x == y && front == []
  {
    if LengthField(|x|) == LengthField(|y|) {
      LengthFieldInjective(|x|, |y|);
    }
    PaddedSuffix(LengthField, x, y, front);
  }

  // ---------------------------------------------------------------- message schedule

  function Pack(b0: Byte, b1: Byte, b2: Byte, b3: Byte): Word {
    ((b0 as Word) << 24) | ((b1 as Word) << 16) | ((b2 as Word) << 8) | (b3 as Word)
  }

  /** The k-th byte of a word, most significant first. */
  function ByteAt(w: Word, k: nat): Byte
    requires k < 4
  {
    match k
    case 0 => ((w >> 24) & 0xff) as Byte
    case 1 => ((w >> 16) & 0xff) as Byte
    case 2 => ((w >> 8) & 0xff) as Byte
    case _ => (w & 0xff) as Byte
  }

  lemma PackIsBijective(b0: Byte, b1: Byte, b2: Byte, b3: Byte, w: Word)
    ensures var p := Pack(b0, b1, b2, b3);
            ByteAt(p, 0) == b0 && ByteAt(p, 1) == b1 && ByteAt(p, 2) == b2 && ByteAt(p, 3) == b3
    ensures Pack(ByteAt(w, 0), ByteAt(w, 1), ByteAt(w, 2), ByteAt(w, 3)) == w
  {
  }

  function MessageWords(block: Block): Words16 {
    seq(16, t requires 0 <= t < 16 => Pack(block[4 * t], block[4 * t + 1], block[4 * t + 2], block[4 * t + 3]))
  }

  lemma MessageWordsInjective(x: Block, y: Block)
    requires MessageWords(x) == MessageWords(y)
    ensures x == y
  {
    forall k | 0 <= k < 64 ensures x[k] == y[k] {
      var j := k / 4;
      assert MessageWords(x)[j] == MessageWords(y)[j];
      PackIsBijective(x[4 * j], x[4 * j + 1], x[4 * j + 2], x[4 * j + 3], 0);
      PackIsBijective(y[4 * j], y[4 * j + 1], y[4 * j + 2], y[4 * j + 3], 0);
    }
  }

  /** Section 6.1.2, step 1, for 16 <= t. */
  function Mix(w3: Word, w8: Word, w14: Word, w16: Word): Word {
    (w3 ^ w8 ^ w14 ^ w16).RotateLeft(1)
  }

  type Mixer = (Word, Word, Word, Word) -> Word

  function Expand(mix: Mixer, first: Words16, t: nat): Word {
    if t < 16 then first[t]
    else mix(Expand(mix, first, t - 3), Expand(mix, first, t - 8), Expand(mix, first, t - 14), Expand(mix, first, t - 16))
  }

  function Schedule(block: Block): Words80 {
    seq(80, t requires 0 <= t < 80 => Expand(Mix, MessageWords(block), t))
  }

  ghost predicate Mixed(mix: Mixer, w: Words80, t: nat)
    requires 16 <= t < 80
  {
    w[t] == mix(w[t - 3], w[t - 8], w[t - 14], w[t - 16])
  }

  ghost predicate Recurs(mix: Mixer, w: Words80) {
    forall t :: 16 <= t < 80 ==> Mixed(mix, w, t)
  }

  /** The oldest of the four words is determined by the result and the other three. */
  ghost predicate Cancels(mix: Mixer) {
    forall w3, w8, w14, x, y :: mix(w3, w8, w14, x) == mix(w3, w8, w14, y) ==> x == y
  }

  lemma {:induction false} AgreeBelow(mix: Mixer, w: Words80, v: Words80, t: nat)
    requires Cancels(mix) && Recurs(mix, w) && Recurs(mix, v) && t <= 64
    requires forall k :: t <= k < t + 16 ==> w[k] == v[k]
    ensures forall k :: 0 <= k < t + 16 ==> w[k] == v[k]
  {
    if t > 0 {
      var j := t + 15;
      assert Mixed(mix, w, j) && Mixed(mix, v, j);
      AgreeBelow(mix, w, v, t - 1);
    }
  }

  lemma {:induction false} AgreeAbove(mix: Mixer, w: Words80, v: Words80, n: nat)
    requires Recurs(mix, w) && Recurs(mix, v) && 16 <= n <= 80
    requires forall k :: 0 <= k < n ==> w[k] == v[k]
    ensures w == v
    decreases 80 - n
  {
    if n < 80 {
      assert Mixed(mix, w, n) && Mixed(mix, v, n);
      AgreeAbove(mix, w, v, n + 1);
    }
  }

  lemma MixOfRest(w3: Word, w8: Word, w14: Word, w16: Word)
    ensures (w3 ^ w8 ^ w14) ^ Mix(w3, w8, w14, w16).RotateRight(1) == w16
  {
  }

  /** The recurrence can be run backwards. */
  lemma MixCancels()
    ensures Cancels(Mix)
  {
    forall w3, w8, w14, x, y | Mix(w3, w8, w14, x) == Mix(w3, w8, w14, y) ensures x == y {
      MixOfRest(w3, w8, w14, x);
      MixOfRest(w3, w8, w14, y);
    }
  }

  lemma ScheduleRecurs(block: Block)
    ensures Recurs(Mix, Schedule(block))
  {
    ExpandRecurs(Mix, MessageWords(block), Schedule(block));
  }

  lemma ExpandRecurs(mix: Mixer, first: Words16, w: Words80)
    requires forall t :: 0 <= t < 80 ==> w[t] == Expand(mix, first, t)
    ensures Recurs(mix, w)
  {
  }

  /** Any sixteen consecutive words of a schedule determine all eighty. */
  lemma WindowDeterminesSchedule(w: Words80, v: Words80, t: nat)
    requires Recurs(Mix, w) && Recurs(Mix, v) && t <= 64
    requires forall k :: t <= k < t + 16 ==> w[k] == v[k]
    ensures w == v
  {
    MixCancels();
    AgreeBelow(Mix, w, v, t);
    AgreeAbove(Mix, w, v, t + 16);
  }

  /** Different blocks have schedules that differ inside every window of sixteen words. */
  lemma ScheduleInjective(x: Block, y: Block, t: nat)
    requires t <= 64
    requires forall k :: t <= k < t + 16 ==> Schedule(x)[k] == Schedule(y)[k]
    ensures x == y
  {
    ScheduleRecurs(x);
    ScheduleRecurs(y);
    WindowDeterminesSchedule(Schedule(x), Schedule(y), t);
    forall k | 0 <= k < 16 ensures MessageWords(x)[k] == MessageWords(y)[k] {
      assert Schedule(x)[k] == Schedule(y)[k];
    }
    MessageWordsInjective(x, y);
  }

  // ---------------------------------------------------------------- rounds

  function Sum(x: Word, f: Word, e: Word, k: Word, w: Word): Word { x + f + e + k + w }

  function Rest(sum: Word, x: Word, f: Word, k: Word, w: Word): Word { sum - x - f - k - w }

  function Rol5(x: Word): Word { x.RotateLeft(5) }

  function Rol30(x: Word): Word { x.RotateLeft(30) }

  function Ror30(x: Word): Word { x.RotateRight(30) }

  /** The word operations of a round, and the inverses of two of them. */
  datatype Ops = Ops(
    sum: (Word, Word, Word, Word, Word) -> Word, rest: (Word, Word, Word, Word, Word) -> Word,
    rol5: Word -> Word, rol30: Word -> Word, ror30: Word -> Word,
    f: (nat, Word, Word, Word) -> Word, k: nat -> Word)

  const SHA: Ops := Ops(Sum, Rest, Rol5, Rol30, Ror30, F, K)

  /** Section 6.1.2, step 3. */
  function Round(o: Ops, t: nat, w: Word, s: Hash): Hash {
    Hash(o.sum(o.rol5(s.a), o.f(t, s.b, s.c, s.d), s.e, o.k(t), w), s.a, o.rol30(s.b), s.c, s.d)
  }

  function Unround(o: Ops, t: nat, w: Word, s: Hash): Hash {
    var b := o.ror30(s.c);
    Hash(s.b, b, s.d, s.e, o.rest(s.a, o.rol5(s.b), o.f(t, b, s.d, s.e), o.k(t), w))
  }

  function Rounds(o: Ops, w: seq<Word>, s: Hash, n: nat): Hash
    requires n <= |w|
  {
    if n == 0 then s else Round(o, n - 1, w[n - 1], Rounds(o, w, s, n - 1))
  }

  /** The rounds undone one by one, the last first. */
  function Unrounds(o: Ops, w: seq<Word>, s: Hash, n: nat): Hash
    requires n <= |w|
    decreases n
  {
    if n == 0 then s else Unrounds(o, w, Unround(o, n - 1, w[n - 1], s), n - 1)
  }

  ghost predicate Invertible(o: Ops) {
    && (forall x :: o.ror30(o.rol30(x)) == x)
    && (forall x :: o.rol30(o.ror30(x)) == x)
    && (forall x, f, e, k, w :: o.rest(o.sum(x, f, e, k, w), x, f, k, w) == e)
    && (forall x, f, k, w, sum :: o.sum(x, f, o.rest(sum, x, f, k, w), k, w) == sum)
  }

  predicate Sums(x: Word, f: Word, e: Word, k: Word, w: Word, sum: Word) { x + f + e + k + w == sum }

  predicate Leaves(x: Word, f: Word, e: Word, k: Word, w: Word, sum: Word) { sum - x - f - k - w == e }

  lemma ModularSums(x: Word, f: Word, e: Word, k: Word, w: Word, sum: Word)
    ensures Sums(x, f, sum - x - f - k - w, k, w, sum)
    ensures Leaves(x, f, e, k, w, x + f + e + k + w)
  {
  }

  lemma SumOfRest(x: Word, f: Word, k: Word, w: Word, sum: Word)
    ensures Sum(x, f, Rest(sum, x, f, k, w), k, w) == sum
  {
    ModularSums(x, f, x, k, w, sum);
    assert Sums(x, f, Rest(sum, x, f, k, w), k, w, sum);
  }

  lemma RestOfSum(x: Word, f: Word, e: Word, k: Word, w: Word)
    ensures Rest(Sum(x, f, e, k, w), x, f, k, w) == e
  {
    ModularSums(x, f, e, k, w, x);
    assert Leaves(x, f, e, k, w, Sum(x, f, e, k, w));
  }

  lemma RotationsCancel(x: Word)
    ensures Ror30(Rol30(x)) == x && Rol30(Ror30(x)) == x
  {
  }

  lemma ShaIsInvertible()
    ensures Invertible(SHA)
  {
    forall x ensures SHA.ror30(SHA.rol30(x)) == x && SHA.rol30(SHA.ror30(x)) == x {
      RotationsCancel(x);
    }
    forall x, f, e, k, w ensures SHA.rest(SHA.sum(x, f, e, k, w), x, f, k, w) == e {
      RestOfSum(x, f, e, k, w);
    }
    forall x, f, k, w, sum ensures SHA.sum(x, f, SHA.rest(sum, x, f, k, w), k, w) == sum {
      SumOfRest(x, f, k, w, sum);
    }
  }

  lemma UnroundOfRound(o: Ops, t: nat, w: Word, s: Hash)
    requires Invertible(o)
    ensures Unround(o, t, w, Round(o, t, w, s)) == s
  {
    var x, f, k := o.rol5(s.a), o.f(t, s.b, s.c, s.d), o.k(t);
    assert o.ror30(o.rol30(s.b)) == s.b;
    assert o.rest(o.sum(x, f, s.e, k, w), x, f, k, w) == s.e;
  }

  lemma RoundOfUnround(o: Ops, t: nat, w: Word, s: Hash)
    requires Invertible(o)
    ensures Round(o, t, w, Unround(o, t, w, s)) == s
  {
    var x, f, k := o.rol5(s.b), o.f(t, o.ror30(s.c), s.d, s.e), o.k(t);
    assert o.rol30(o.ror30(s.c)) == s.c;
    assert o.sum(x, f, o.rest(s.a, x, f, k, w), k, w) == s.a;
  }

  lemma {:induction false} UnroundsOfRounds(o: Ops, w: seq<Word>, s: Hash, n: nat)
    requires n <= |w| && Invertible(o)
    ensures Unrounds(o, w, Rounds(o, w, s, n), n) == s
  {
    if n > 0 {
      UnroundOfRound(o, n - 1, w[n - 1], Rounds(o, w, s, n - 1));
      UnroundsOfRounds(o, w, s, n - 1);
    }
  }

  lemma {:induction false} RoundsOfUnrounds(o: Ops, w: seq<Word>, s: Hash, n: nat)
    requires n <= |w| && Invertible(o)
    ensures Rounds(o, w, Unrounds(o, w, s, n), n) == s
    decreases n
  {
    if n > 0 {
      RoundOfUnround(o, n - 1, w[n - 1], s);
      RoundsOfUnrounds(o, w, Unround(o, n - 1, w[n - 1], s), n - 1);
    }
  }

  /** For any schedule the rounds are a bijection on the five-word state, with Unrounds as the inverse. */
  lemma RoundsAreInvertible(w: seq<Word>, s: Hash, n: nat)
    requires n <= |w|
    ensures Unrounds(SHA, w, Rounds(SHA, w, s, n), n) == s
    ensures Rounds(SHA, w, Unrounds(SHA, w, s, n), n) == s
  {
    ShaIsInvertible();
    UnroundsOfRounds(SHA, w, s, n);
    RoundsOfUnrounds(SHA, w, s, n);
  }

  // ---------------------------------------------------------------- chaining and digest

  function Add(x: Hash, y: Hash): Hash {
    Hash(x.a + y.a, x.b + y.b, x.c + y.c, x.d + y.d, x.e + y.e)
  }

  /** Section 6.1.2, steps 2 to 4. */
  function Compress(h: Hash, block: Block): Hash {
    Add(h, Rounds(SHA, Schedule(block), h, 80))
  }

  /** The hash value after the first n blocks. */
  function Chain(compress: (Hash, Block) -> Hash, data: seq<Byte>, n: nat): Hash
    requires n * BLOCK <= |data|
  {
    if n == 0 then H0 else compress(Chain(compress, data, n - 1), data[(n - 1) * BLOCK..n * BLOCK])
  }

  lemma ChainStep(compress: (Hash, Block) -> Hash, data: seq<Byte>, n: nat)
    requires n * BLOCK + BLOCK <= |data|
    ensures Chain(compress, data, n + 1) ==
            compress(Chain(compress, data, n), data[n * BLOCK..n * BLOCK + BLOCK])
  {
  }

  function WordBytes(w: Word): (s: seq<Byte>)
    ensures |s| == 4
  {
    [ByteAt(w, 0), ByteAt(w, 1), ByteAt(w, 2), ByteAt(w, 3)]
  }

  function HashBytes(h: Hash): (d: seq<Byte>)
    ensures |d| == 20
  {
    WordBytes(h.a) + WordBytes(h.b) + WordBytes(h.c) + WordBytes(h.d) + WordBytes(h.e)
  }

  function Digest(m: seq<Byte>): seq<Byte> {
    HashBytes(Chain(Compress, Pad(m), |Pad(m)| / BLOCK))
  }

  // ---------------------------------------------------------------- the code

  function LeftRotate(value: Word, count: nat): Word
    requires 0 < count < 32
  {
    (value << count) | (value >> (32 - count))
  }

  lemma LeftRotateIsRotation(x: Word)
    ensures LeftRotate(x, 1) == x.RotateLeft(1)
    ensures LeftRotate(x, 5) == Rol5(x)
    ensures LeftRotate(x, 30) == Rol30(x)
  {
  }

  lemma OrFormOfCh(b: Word, c: Word, d: Word)
    ensures (b & c) | (!b & d) == Ch(b, c, d)
  {
  }

  lemma OrFormOfMaj(b: Word, c: Word, d: Word)
    ensures (b & c) | (b & d) | (c & d) == Maj(b, c, d)
  {
  }

  /** Line 28: the OR form in the code is the XOR form of section 4.1.1. */
  function ChByOr(b: Word, c: Word, d: Word): (f: Word)
    ensures f == Ch(b, c, d)
  {
    OrFormOfCh(b, c, d);
    (b & c) | (!b & d)
  }

  /** Line 30, likewise. */
  function MajByOr(b: Word, c: Word, d: Word): (f: Word)
    ensures f == Maj(b, c, d)
  {
    OrFormOfMaj(b, c, d);
    (b & c) | (b & d) | (c & d)
  }

  /** The byte that line 17 shifts out in iteration i. */
  method ShiftOut(bitLen: bv64, i: nat) returns (b: Byte)
    requires i < 8
    ensures b == ByteOf64(bitLen, i)
  {
    b := ((bitLen >> (i * 8)) & 0xff) as Byte;
  }

  /** Lines 15 and 16. */
  method FillZeros(input: seq<Byte>) returns (data: seq<Byte>)
    ensures data == input + [0x80] + seq(Zeros(|input|), _ => 0)
  {
    data := input + [0x80];
    ghost var z := 0;
    while |data| % BLOCK != 56
      invariant z <= Zeros(|input|)
      invariant data == input + [0x80] + seq(z, _ => 0)
      decreases Zeros(|input|) - z
    {
      LeastZeros(|input|, z);
      data := data + [0];
      z := z + 1;
    }
    LeastZeros(|input|, z);
  }

  /** Line 17. */
  method AppendLength(front: seq<Byte>, n: nat) returns (data: seq<Byte>)
    ensures data == front + LengthField(n)
  {
    forall k | 0 <= k < 8 ensures LengthField(n)[7 - k] == ByteOf64(Bits64(8 * n), k) {
      FieldByte(n, k);
    }
    data := AppendBytes(front, Bits64(n * 8), LengthField(n));
  }

  method AppendBytes(front: seq<Byte>, bitLen: bv64, ghost field: seq<Byte>) returns (data: seq<Byte>)
    requires |field| == 8 && forall k {:trigger ByteOf64(bitLen, k)} :: 0 <= k < 8 ==> field[7 - k] == ByteOf64(bitLen, k)
    ensures data == front + field
  {
    data := front;
    var i := 7;
    while i >= 0
      invariant -1 <= i <= 7
      invariant data == front + field[..7 - i]
    {
      var b := ShiftOut(bitLen, i);
      assert field[..7 - i + 1] == field[..7 - i] + [b];
      data := data + [b];
      i := i - 1;
    }
    assert field[..8] == field;
  }

  lemma FieldByte(n: nat, k: nat)
    requires k < 8
    ensures LengthField(n)[7 - k] == ByteOf64(Bits64(8 * n), k)
  {
  }

  method PadMessage(input: seq<Byte>) returns (data: seq<Byte>)
    ensures data == Pad(input)
  {
    data := FillZeros(input);
    data := AppendLength(data, |input|);
  }

  /** Line 24: the recurrence as the code computes it. */
  function NextWord(w3: Word, w8: Word, w14: Word, w16: Word): (w: Word)
    ensures w == Mix(w3, w8, w14, w16)
  {
    LeftRotateIsRotation(w3 ^ w8 ^ w14 ^ w16);
    LeftRotate(w3 ^ w8 ^ w14 ^ w16, 1)
  }

  method LoadWords(w: array<Word>, data: seq<Byte>, i: nat)
    requires w.Length == 80 && i + BLOCK <= |data|
    modifies w
    ensures w[..16] == MessageWords(data[i..i + BLOCK])
  {
    ghost var block := data[i..i + BLOCK];
    for j := 0 to 16
      invariant forall t :: 0 <= t < j ==> w[t] == MessageWords(block)[t]
    {
      assert data[i + j * 4] == block[4 * j] && data[i + j * 4 + 1] == block[4 * j + 1];
      assert data[i + j * 4 + 2] == block[4 * j + 2] && data[i + j * 4 + 3] == block[4 * j + 3];
      w[j] := Pack(data[i + j * 4], data[i + j * 4 + 1], data[i + j * 4 + 2], data[i + j * 4 + 3]);
    }
  }

  method ExpandWords(w: array<Word>)
    requires w.Length == 80
    modifies w
    ensures forall t :: 0 <= t < 80 ==> w[t] == Expand(Mix, old(w[..16]), t)
  {
    ghost var first := w[..16];
    for j := 16 to 80
      invariant forall t :: 0 <= t < j ==> w[t] == Expand(Mix, first, t)
    {
      w[j] := NextWord(w[j - 3], w[j - 8], w[j - 14], w[j - 16]);
    }
  }

  /** Lines 27-31: the function and the constant of round j. */
  method SelectFunction(j: nat, b: Word, c: Word, d: Word) returns (f: Word, k: Word)
    ensures f == F(j, b, c, d) && k == K(j)
  {
    if j < 20 {
      f, k := ChByOr(b, c, d), 0x5A827999;
    } else if j < 40 {
      f, k := Parity(b, c, d), 0x6ED9EBA1;
    } else if j < 60 {
      f, k := MajByOr(b, c, d), 0x8F1BBCDC;
    } else {
      f, k := Parity(b, c, d), 0xCA62C1D6;
    }
  }

  method RunRounds(w: array<Word>, h: Hash) returns (r: Hash)
    requires w.Length == 80
    ensures r == Rounds(SHA, w[..], h, 80)
  {
    var a, b, c, d, e := h.a, h.b, h.c, h.d, h.e;
    for j := 0 to 80
      invariant Hash(a, b, c, d, e) == Rounds(SHA, w[..], h, j)
    {
      var f, k := SelectFunction(j, b, c, d);
      LeftRotateIsRotation(a);
      LeftRotateIsRotation(b);
      var temp := Sum(LeftRotate(a, 5), f, e, k, w[j]);
      e := d;
      d := c;
      c := LeftRotate(b, 30);
      b := a;
      a := temp;
    }
    r := Hash(a, b, c, d, e);
  }

  /** One of the five output loops (lines 39-43). */
  method EmitWord(hash: array<Byte>, at: nat, h: Word)
    requires at + 4 <= hash.Length
    modifies hash
    ensures hash[..at + 4] == old(hash[..at]) + WordBytes(h)
  {
    ghost var before := hash[..at];
    for i := 0 to 4
      invariant hash[..at + i] == before + WordBytes(h)[..i]
    {
      ghost var sofar := hash[..at + i];
      hash[at + i] := OutputByte(h, i);
      WordByte(h, i);
      assert hash[..at + i + 1] == sofar + [ByteAt(h, i)];
    }
  }

  lemma WordByte(h: Word, i: nat)
    requires i < 4
    ensures WordBytes(h)[..i + 1] == WordBytes(h)[..i] + [ByteAt(h, i)]
    ensures WordBytes(h)[..4] == WordBytes(h)
  {
    var s := WordBytes(h);
    assert s[i] == ByteAt(h, i);
    assert s[..i + 1] == s[..i] + [s[i]];
  }

  function OutputByte(h: Word, i: nat): (b: Byte)
    requires i < 4
    ensures b == ByteAt(h, i)
  {
    ((h >> (24 - i * 8)) & 0xff) as Byte
  }

  method EmitHash(h: Hash) returns (hash: seq<Byte>)
    ensures hash == HashBytes(h)
  {
    var bytes := new Byte[20];
    EmitWord(bytes, 0, h.a);
    EmitWord(bytes, 4, h.b);
    EmitWord(bytes, 8, h.c);
    EmitWord(bytes, 12, h.d);
    EmitWord(bytes, 16, h.e);
    hash := bytes[..20];
  }

  /** A name for Compress that the block loop can use without looking inside it. */
  ghost predicate IsCompress(f: (Hash, Block) -> Hash) {
    forall h, b {:trigger Compress(h, b)} :: f(h, b) == Compress(h, b)
  }

  /** One turn of the block loop (lines 20-35). */
  method RunBlock(w: array<Word>, h: Hash, data: seq<Byte>, i: nat, ghost compress: (Hash, Block) -> Hash)
    returns (r: Hash)
    requires w.Length == 80 && i + BLOCK <= |data| && IsCompress(compress)
    modifies w
    ensures r == compress(h, data[i..i + BLOCK])
  {
    LoadWords(w, data, i);
    ExpandWords(w);
    assert w[..] == Schedule(data[i..i + BLOCK]);
    r := RunRounds(w, h);
    r := Add(h, r);
    assert r == Compress(h, data[i..i + BLOCK]);
  }

  method HashBlocks(data: seq<Byte>, ghost compress: (Hash, Block) -> Hash) returns (h: Hash)
    requires |data| % BLOCK == 0 && IsCompress(compress)
    ensures h == Chain(compress, data, |data| / BLOCK)
  {
    h := H0;
    var w := new Word[80];
    var i := 0;
    ghost var n := 0;
    while i < |data|
      invariant i == n * BLOCK <= |data|
      invariant h == Chain(compress, data, n)
    {
      h := RunBlock(w, h, data, i, compress);
      ChainStep(compress, data, n);
      i := i + BLOCK;
      n := n + 1;
    }
  }

  method Sha1(input: seq<Byte>) returns (hash: seq<Byte>)
    ensures hash == Digest(input)
  {
    var data := PadMessage(input);
    var h := HashBlocks(data, Compress);
    hash := EmitHash(h);
  }
}
