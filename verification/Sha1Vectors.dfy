// The published examples of SHA-1: "abc" and the message of two blocks (FIPS 180-4 examples), and the
// handshake key of section 1.3 of RFC 6455. Each block's schedule and the new word of each round are
// given as literals, sixteen at a time.
module Sha1Vectors {
  import opened Sha1

  datatype Sixteen = Sixteen(x0: Word, x1: Word, x2: Word, x3: Word, x4: Word, x5: Word, x6: Word, x7: Word,
                             x8: Word, x9: Word, x10: Word, x11: Word, x12: Word, x13: Word, x14: Word, x15: Word)

  predicate Holds(w: Words80, t: nat, x: Sixteen)
    requires t + 16 <= 80
  {
    && w[t + 0] == x.x0 && w[t + 1] == x.x1 && w[t + 2] == x.x2 && w[t + 3] == x.x3
    && w[t + 4] == x.x4 && w[t + 5] == x.x5 && w[t + 6] == x.x6 && w[t + 7] == x.x7
    && w[t + 8] == x.x8 && w[t + 9] == x.x9 && w[t + 10] == x.x10 && w[t + 11] == x.x11
    && w[t + 12] == x.x12 && w[t + 13] == x.x13 && w[t + 14] == x.x14 && w[t + 15] == x.x15
  }

  /** The next sixteen words of a schedule. */
  predicate Follows(mix: Mixer, x: Sixteen, y: Sixteen) {
    && y.x0 == mix(x.x13, x.x8, x.x2, x.x0) && y.x1 == mix(x.x14, x.x9, x.x3, x.x1)
    && y.x2 == mix(x.x15, x.x10, x.x4, x.x2) && y.x3 == mix(y.x0, x.x11, x.x5, x.x3)
    && y.x4 == mix(y.x1, x.x12, x.x6, x.x4) && y.x5 == mix(y.x2, x.x13, x.x7, x.x5)
    && y.x6 == mix(y.x3, x.x14, x.x8, x.x6) && y.x7 == mix(y.x4, x.x15, x.x9, x.x7)
    && y.x8 == mix(y.x5, y.x0, x.x10, x.x8) && y.x9 == mix(y.x6, y.x1, x.x11, x.x9)
    && y.x10 == mix(y.x7, y.x2, x.x12, x.x10) && y.x11 == mix(y.x8, y.x3, x.x13, x.x11)
    && y.x12 == mix(y.x9, y.x4, x.x14, x.x12) && y.x13 == mix(y.x10, y.x5, x.x15, x.x13)
    && y.x14 == mix(y.x11, y.x6, y.x0, x.x14) && y.x15 == mix(y.x12, y.x7, y.x1, x.x15)
  }

  lemma Extend(mix: Mixer, w: Words80, t: nat, x: Sixteen, y: Sixteen)
    requires Recurs(mix, w) && t + 32 <= 80 && Holds(w, t, x) && Follows(mix, x, y)
    ensures Holds(w, t + 16, y)
  {
    assert Mixed(mix, w, t + 16);
    assert Mixed(mix, w, t + 17);
    assert Mixed(mix, w, t + 18);
    assert Mixed(mix, w, t + 19);
    assert Mixed(mix, w, t + 20);
    assert Mixed(mix, w, t + 21);
    assert Mixed(mix, w, t + 22);
    assert Mixed(mix, w, t + 23);
    assert Mixed(mix, w, t + 24);
    assert Mixed(mix, w, t + 25);
    assert Mixed(mix, w, t + 26);
    assert Mixed(mix, w, t + 27);
    assert Mixed(mix, w, t + 28);
    assert Mixed(mix, w, t + 29);
    assert Mixed(mix, w, t + 30);
    assert Mixed(mix, w, t + 31);
  }

  /** The word a round computes, and the state it leads to. */
  function NewWord(o: Ops, t: nat, h: Hash, w: Word): Word { o.sum(o.rol5(h.a), o.f(t, h.b, h.c, h.d), h.e, o.k(t), w) }

  function Turn(o: Ops, h: Hash, x: Word): Hash { Hash(x, h.a, o.rol30(h.b), h.c, h.d) }

  lemma OneRound(o: Ops, w: Words80, s: Hash, n: nat, h: Hash)
    requires n < 80 && Rounds(o, w, s, n) == h
    ensures Rounds(o, w, s, n + 1) == Turn(o, h, NewWord(o, n, h, w[n]))
  {
  }

  /** The state after sixteen rounds with these new words. */
  function End(o: Ops, a: Sixteen): Hash { Hash(a.x15, a.x14, o.rol30(a.x13), o.rol30(a.x12), o.rol30(a.x11)) }

  /** Sixteen rounds from round t and state h, with schedule words w, compute the words a. */
  predicate Steps(o: Ops, t: nat, h: Hash, w: Sixteen, a: Sixteen) {
    var h1 := Turn(o, h, a.x0);
    var h2 := Turn(o, h1, a.x1);
    var h3 := Turn(o, h2, a.x2);
    var h4 := Turn(o, h3, a.x3);
    var h5 := Turn(o, h4, a.x4);
    var h6 := Turn(o, h5, a.x5);
    var h7 := Turn(o, h6, a.x6);
    var h8 := Turn(o, h7, a.x7);
    var h9 := Turn(o, h8, a.x8);
    var h10 := Turn(o, h9, a.x9);
    var h11 := Turn(o, h10, a.x10);
    var h12 := Turn(o, h11, a.x11);
    var h13 := Turn(o, h12, a.x12);
    var h14 := Turn(o, h13, a.x13);
    var h15 := Turn(o, h14, a.x14);
    && a.x0 == NewWord(o, t + 0, h, w.x0) && a.x1 == NewWord(o, t + 1, h1, w.x1)
    && a.x2 == NewWord(o, t + 2, h2, w.x2) && a.x3 == NewWord(o, t + 3, h3, w.x3)
    && a.x4 == NewWord(o, t + 4, h4, w.x4) && a.x5 == NewWord(o, t + 5, h5, w.x5)
    && a.x6 == NewWord(o, t + 6, h6, w.x6) && a.x7 == NewWord(o, t + 7, h7, w.x7)
    && a.x8 == NewWord(o, t + 8, h8, w.x8) && a.x9 == NewWord(o, t + 9, h9, w.x9)
    && a.x10 == NewWord(o, t + 10, h10, w.x10) && a.x11 == NewWord(o, t + 11, h11, w.x11)
    && a.x12 == NewWord(o, t + 12, h12, w.x12) && a.x13 == NewWord(o, t + 13, h13, w.x13)
    && a.x14 == NewWord(o, t + 14, h14, w.x14) && a.x15 == NewWord(o, t + 15, h15, w.x15)
  }

  lemma SixteenRounds(o: Ops, w: Words80, s: Hash, t: nat, h: Hash, x: Sixteen, a: Sixteen)
    requires t + 16 <= 80 && Holds(w, t, x) && Rounds(o, w, s, t) == h && Steps(o, t, h, x, a)
    ensures Rounds(o, w, s, t + 16) == End(o, a)
  {
    OneRound(o, w, s, t + 0, h);
    var h1 := Turn(o, h, a.x0);
    OneRound(o, w, s, t + 1, h1);
    var h2 := Turn(o, h1, a.x1);
    OneRound(o, w, s, t + 2, h2);
    var h3 := Turn(o, h2, a.x2);
    OneRound(o, w, s, t + 3, h3);
    var h4 := Turn(o, h3, a.x3);
    OneRound(o, w, s, t + 4, h4);
    var h5 := Turn(o, h4, a.x4);
    OneRound(o, w, s, t + 5, h5);
    var h6 := Turn(o, h5, a.x5);
    OneRound(o, w, s, t + 6, h6);
    var h7 := Turn(o, h6, a.x6);
    OneRound(o, w, s, t + 7, h7);
    var h8 := Turn(o, h7, a.x7);
    OneRound(o, w, s, t + 8, h8);
    var h9 := Turn(o, h8, a.x8);
    OneRound(o, w, s, t + 9, h9);
    var h10 := Turn(o, h9, a.x9);
    OneRound(o, w, s, t + 10, h10);
    var h11 := Turn(o, h10, a.x10);
    OneRound(o, w, s, t + 11, h11);
    var h12 := Turn(o, h11, a.x11);
    OneRound(o, w, s, t + 12, h12);
    var h13 := Turn(o, h12, a.x12);
    OneRound(o, w, s, t + 13, h13);
    var h14 := Turn(o, h13, a.x13);
    OneRound(o, w, s, t + 14, h14);
    var h15 := Turn(o, h14, a.x14);
    OneRound(o, w, s, t + 15, h15);
  }

  /** The first sixteen words of the block's schedule. */
  predicate Starts(block: Block, x: Sixteen) { Holds(Schedule(block), 0, x) }

  // Names for Follows, Holds and Steps, from which a block can be put together without looking inside them.
  type Follower = (Sixteen, Sixteen) -> bool
  type Holder = (nat, Sixteen) -> bool
  type Stepper = (nat, Hash, Sixteen, Sixteen) -> bool

  ghost predicate IsFollower(follows: Follower, mix: Mixer) {
    forall x, y {:trigger Follows(mix, x, y)} :: follows(x, y) == Follows(mix, x, y)
  }

  ghost predicate IsHolder(holds: Holder, w: Words80) {
    forall t, x {:trigger Holds(w, t, x)} :: t + 16 <= 80 ==> holds(t, x) == Holds(w, t, x)
  }

  ghost predicate IsStepper(steps: Stepper, o: Ops) {
    forall t, h, w, a {:trigger Steps(o, t, h, w, a)} :: steps(t, h, w, a) == Steps(o, t, h, w, a)
  }

  lemma MoreWords(mix: Mixer, follows: Follower, holds: Holder, w: Words80, t: nat, x: Sixteen, y: Sixteen)
    requires IsFollower(follows, mix) && IsHolder(holds, w) && Recurs(mix, w) && t + 32 <= 80 && holds(t, x) && follows(x, y)
    ensures holds(t + 16, y)
  {
    assert Holds(w, t, x) && Follows(mix, x, y);
    Extend(mix, w, t, x, y);
    assert Holds(w, t + 16, y);
  }

  lemma MoreRounds(o: Ops, holds: Holder, steps: Stepper, w: Words80, s: Hash, t: nat, h: Hash, x: Sixteen, a: Sixteen)
    requires IsHolder(holds, w) && IsStepper(steps, o) && t + 16 <= 80
    requires holds(t, x) && Rounds(o, w, s, t) == h && steps(t, h, x, a)
    ensures Rounds(o, w, s, t + 16) == End(o, a)
  {
    assert Holds(w, t, x) && Steps(o, t, h, x, a);
    SixteenRounds(o, w, s, t, h, x, a);
  }

  /** The words and rounds of a block, sixteen by sixteen. */
  datatype Trace = Trace(w0: Sixteen, w1: Sixteen, w2: Sixteen, w3: Sixteen, w4: Sixteen,
                         a0: Sixteen, a1: Sixteen, a2: Sixteen, a3: Sixteen, a4: Sixteen)

  predicate Traced(o: Ops, follows: Follower, steps: Stepper, h: Hash, r: Trace) {
    && follows(r.w0, r.w1) && follows(r.w1, r.w2) && follows(r.w2, r.w3) && follows(r.w3, r.w4)
    && steps(0, h, r.w0, r.a0) && steps(16, End(o, r.a0), r.w1, r.a1) && steps(32, End(o, r.a1), r.w2, r.a2)
    && steps(48, End(o, r.a2), r.w3, r.a3) && steps(64, End(o, r.a3), r.w4, r.a4)
  }

  lemma WholeBlock(o: Ops, mix: Mixer, follows: Follower, holds: Holder, steps: Stepper, h: Hash, w: Words80, r: Trace)
    requires IsFollower(follows, mix) && IsHolder(holds, w) && IsStepper(steps, o) && Recurs(mix, w)
    requires holds(0, r.w0) && Traced(o, follows, steps, h, r)
    ensures Rounds(o, w, h, 80) == End(o, r.a4)
  {
    MoreWords(mix, follows, holds, w, 0, r.w0, r.w1);
    MoreWords(mix, follows, holds, w, 16, r.w1, r.w2);
    MoreWords(mix, follows, holds, w, 32, r.w2, r.w3);
    MoreWords(mix, follows, holds, w, 48, r.w3, r.w4);
    MoreRounds(o, holds, steps, w, h, 0, h, r.w0, r.a0);
    MoreRounds(o, holds, steps, w, h, 16, End(o, r.a0), r.w1, r.a1);
    MoreRounds(o, holds, steps, w, h, 32, End(o, r.a1), r.w2, r.a2);
    MoreRounds(o, holds, steps, w, h, 48, End(o, r.a2), r.w3, r.a3);
    MoreRounds(o, holds, steps, w, h, 64, End(o, r.a3), r.w4, r.a4);
  }

  /** A block whose schedule starts with the first words of a trace is compressed as the trace says. */
  lemma BlockIs(follows: Follower, steps: Stepper, h: Hash, block: Block, r: Trace)
    requires IsFollower(follows, Mix) && IsStepper(steps, SHA) && Holds(Schedule(block), 0, r.w0)
    requires Traced(SHA, follows, steps, h, r)
    ensures Compress(h, block) == Add(h, End(SHA, r.a4))
  {
    var w := Schedule(block);
    ghost var holds: Holder := (t: nat, x: Sixteen) => t + 16 <= 80 && Holds(w, t, x);
    ScheduleRecurs(block);
    WholeBlock(SHA, Mix, follows, holds, steps, h, w, r);
  }

  const FOLLOWS: Follower := (x: Sixteen, y: Sixteen) => Follows(Mix, x, y)
  const STEPS: Stepper := (t: nat, h: Hash, w: Sixteen, a: Sixteen) => Steps(SHA, t, h, w, a)

  /** The bytes of four words: a row. */
  function FourWords(p: Word, q: Word, r: Word, s: Word): (b: seq<Byte>)
    ensures |b| == 16
  {
    WordBytes(p) + WordBytes(q) + WordBytes(r) + WordBytes(s)
  }

  function BlockOf(x: Sixteen): Block {
    FourWords(x.x0, x.x1, x.x2, x.x3) + FourWords(x.x4, x.x5, x.x6, x.x7)
      + FourWords(x.x8, x.x9, x.x10, x.x11) + FourWords(x.x12, x.x13, x.x14, x.x15)
  }

  lemma WordOf(b: Block, t: nat)
    requires t < 16
    ensures Schedule(b)[t] == Pack(b[4 * t], b[4 * t + 1], b[4 * t + 2], b[4 * t + 3])
  {
  }

  lemma SliceOfSlice<T>(s: seq<T>, o: nat, k: nat)
    requires o + 16 <= |s| && k + 4 <= 16
    ensures s[o..o + 16][k..k + 4] == [s[o + k], s[o + k + 1], s[o + k + 2], s[o + k + 3]]
  {
  }

  lemma Packs(four: seq<Byte>, x: Word)
    requires four == WordBytes(x)
    ensures Pack(four[0], four[1], four[2], four[3]) == x
  {
    PackIsBijective(0, 0, 0, 0, x);
  }

  lemma WordInRow(b: Block, i: nat, j: nat, x: Word)
    requires i < 4 && j < 4 && b[16 * i..16 * i + 16][4 * j..4 * j + 4] == WordBytes(x)
    ensures Schedule(b)[4 * i + j] == x
  {
    var n := 4 * i + j;
    SliceOfSlice(b, 16 * i, 4 * j);
    Packs([b[4 * n], b[4 * n + 1], b[4 * n + 2], b[4 * n + 3]], x);
    WordOf(b, n);
  }

  lemma Quarters(row: seq<Byte>, p: seq<Byte>, q: seq<Byte>, r: seq<Byte>, s: seq<Byte>)
    requires |p| == |q| == |r| == |s| && row == p + q + r + s
    ensures var n := |p|; row[..n] == p && row[n..2 * n] == q && row[2 * n..3 * n] == r && row[3 * n..] == s
  {
  }

  lemma RowParts(row: seq<Byte>, p: Word, q: Word, r: Word, s: Word)
    requires row == FourWords(p, q, r, s)
    ensures row[0..4] == WordBytes(p) && row[4..8] == WordBytes(q) && row[8..12] == WordBytes(r) && row[12..16] == WordBytes(s)
  {
    Quarters(row, WordBytes(p), WordBytes(q), WordBytes(r), WordBytes(s));
    assert row[0..4] == row[..4] && row[12..16] == row[12..];
  }

  lemma RowWords(b: Block, i: nat, p: Word, q: Word, r: Word, s: Word)
    requires i < 4 && b[16 * i..16 * i + 16] == FourWords(p, q, r, s)
    ensures Schedule(b)[4 * i] == p && Schedule(b)[4 * i + 1] == q && Schedule(b)[4 * i + 2] == r && Schedule(b)[4 * i + 3] == s
  {
    RowParts(b[16 * i..16 * i + 16], p, q, r, s);
    WordInRow(b, i, 0, p);
    WordInRow(b, i, 1, q);
    WordInRow(b, i, 2, r);
    WordInRow(b, i, 3, s);
  }

  lemma StartsWithRows(b: Block, x: Sixteen)
    requires b[0..16] == FourWords(x.x0, x.x1, x.x2, x.x3) && b[16..32] == FourWords(x.x4, x.x5, x.x6, x.x7)
    requires b[32..48] == FourWords(x.x8, x.x9, x.x10, x.x11) && b[48..64] == FourWords(x.x12, x.x13, x.x14, x.x15)
    ensures Holds(Schedule(b), 0, x)
  {
    RowWords(b, 0, x.x0, x.x1, x.x2, x.x3);
    RowWords(b, 1, x.x4, x.x5, x.x6, x.x7);
    RowWords(b, 2, x.x8, x.x9, x.x10, x.x11);
    RowWords(b, 3, x.x12, x.x13, x.x14, x.x15);
  }

  /** A schedule starts with the words of its block. */
  lemma StartsWith(x: Sixteen)
    ensures Holds(Schedule(BlockOf(x)), 0, x)
  {
    var b := BlockOf(x);
    Quarters(b, FourWords(x.x0, x.x1, x.x2, x.x3), FourWords(x.x4, x.x5, x.x6, x.x7),
             FourWords(x.x8, x.x9, x.x10, x.x11), FourWords(x.x12, x.x13, x.x14, x.x15));
    assert b[..16] == b[0..16] && b[48..] == b[48..64];
    StartsWithRows(b, x);
  }

  // ---------------------------------------------------------------- padding and chaining

  function Nulls(n: nat): seq<Byte> { seq(n, _ => 0) }

  lemma NullRow()
    ensures FourWords(0, 0, 0, 0) == Nulls(16)
  {
    assert WordBytes(0) == Nulls(4);
  }

  lemma OneBlockRows(field: nat -> seq<Byte>, m: seq<Byte>, z: nat)
    requires |m| + 1 + z == 16
    ensures PadWith(field, m) == (m + [0x80] + Nulls(z)) + Nulls(16) + Nulls(16) + (Nulls(8) + field(|m|))
  {
    assert Zeros(|m|) == z + 40;
    assert Nulls(z + 40) == Nulls(z) + Nulls(16) + Nulls(16) + Nulls(8);
    assert PadWith(field, m) == m + [0x80] + Nulls(z + 40) + field(|m|);
  }

  lemma TwoBlockRows(field: nat -> seq<Byte>, front: seq<Byte>, t: seq<Byte>, z: nat)
    requires |front| == 48 && |t| >= 8 && |t| + 1 + z == 16
    ensures PadWith(field, front + t) ==
            (front + (t + [0x80] + Nulls(z))) + (Nulls(16) + Nulls(16) + Nulls(16) + (Nulls(8) + field(48 + |t|)))
  {
    assert Zeros(48 + |t|) == z + 56;
    assert Nulls(z + 56) == Nulls(z) + Nulls(16) + Nulls(16) + Nulls(16) + Nulls(8);
    assert PadWith(field, front + t) == (front + t) + [0x80] + Nulls(z + 56) + field(48 + |t|);
  }

  /** A message that ends in the first row of its only block. */
  lemma OneBlockPad(m: seq<Byte>, z: nat, x: Sixteen)
    requires |m| + 1 + z == 16 && FourWords(x.x0, x.x1, x.x2, x.x3) == m + [0x80] + Nulls(z)
    requires FourWords(x.x4, x.x5, x.x6, x.x7) == FourWords(x.x8, x.x9, x.x10, x.x11) == Nulls(16)
    requires FourWords(x.x12, x.x13, x.x14, x.x15) == Nulls(8) + LengthField(|m|)
    ensures Pad(m) == BlockOf(x)
  {
    OneBlockRows(LengthField, m, z);
  }

  /** A message that ends in the last row of the first of two blocks. */
  lemma TwoBlockPad(a: seq<Byte>, b: seq<Byte>, c: seq<Byte>, t: seq<Byte>, z: nat, x: Sixteen, y: Sixteen)
    requires |a| == |b| == |c| == 16 && |t| >= 8 && |t| + 1 + z == 16
    requires FourWords(x.x0, x.x1, x.x2, x.x3) == a && FourWords(x.x4, x.x5, x.x6, x.x7) == b
    requires FourWords(x.x8, x.x9, x.x10, x.x11) == c && FourWords(x.x12, x.x13, x.x14, x.x15) == t + [0x80] + Nulls(z)
    requires FourWords(y.x0, y.x1, y.x2, y.x3) == FourWords(y.x4, y.x5, y.x6, y.x7) == FourWords(y.x8, y.x9, y.x10, y.x11) == Nulls(16)
    requires FourWords(y.x12, y.x13, y.x14, y.x15) == Nulls(8) + LengthField(48 + |t|)
    ensures Pad(a + b + c + t) == BlockOf(x) + BlockOf(y)
  {
    TwoBlockRows(LengthField, a + b + c, t, z);
  }

  lemma OneBlock(m: seq<Byte>, b: Block, h: Hash)
    requires Pad(m) == b && Compress(H0, b) == h
    ensures Digest(m) == HashBytes(h)
  {
    var data := Pad(m);
    assert data[0..64] == b;
    assert Chain(Compress, data, 0) == H0;
    assert Chain(Compress, data, 1) == h;
  }

  lemma TwoBlocks(m: seq<Byte>, b0: Block, b1: Block, h0: Hash, h1: Hash)
    requires Pad(m) == b0 + b1 && Compress(H0, b0) == h0 && Compress(h0, b1) == h1
    ensures Digest(m) == HashBytes(h1)
  {
    var data := Pad(m);
    assert data[0..64] == b0 && data[64..128] == b1;
    assert Chain(Compress, data, 0) == H0;
    assert Chain(Compress, data, 1) == h0;
    assert Chain(Compress, data, 2) == h1;
  }
  // ---------------------------------------------------------------- "abc"

  const ABC: seq<Byte> := [0x61, 0x62, 0x63]

  const ABC_W0: Sixteen := Sixteen(0x61626380, 0x00000000, 0x00000000, 0x00000000, 0x00000000, 0x00000000, 0x00000000, 0x00000000,
    0x00000000, 0x00000000, 0x00000000, 0x00000000, 0x00000000, 0x00000000, 0x00000000, 0x00000018)
  const ABC_W1: Sixteen := Sixteen(0xc2c4c700, 0x00000000, 0x00000030, 0x85898e01, 0x00000000, 0x00000060, 0x0b131c03, 0x00000030,
    0x85898ec1, 0x16263806, 0x00000000, 0x00000180, 0x2c4c700c, 0x000000f0, 0x93afb507, 0x5898e048)
  const ABC_W2: Sixteen := Sixteen(0x8e9a9202, 0x00000600, 0xb131c0f0, 0x16263bc6, 0x4ebed41e, 0x626380a1, 0x16263806, 0x000018c0,
    0xd2e138c4, 0x00000f00, 0x3afb5079, 0x898e04e5, 0xe2ba3c2b, 0x000060c0, 0x053a37cd, 0x74458547)
  const ABC_W3: Sixteen := Sixteen(0xda9415ed, 0x26380a16, 0x626383a1, 0x4ebf54de, 0x3835b44b, 0x0000f600, 0x1e84c7a3, 0x98e04d98,
    0x651d16a0, 0x62658ca1, 0x458544d6, 0x44584cb7, 0x7ba06619, 0x6380aea2, 0x0ae55269, 0x627b49a1)
  const ABC_W4: Sixteen := Sixteen(0x7cd45c9d, 0x000f0000, 0xfb50753a, 0xec6765e8, 0xba3c2be2, 0x0060c000, 0x3a37cd05, 0x458546f4,
    0xb8599dd6, 0x380a1a26, 0x01e02203, 0xe7cc3456, 0xe6e60b69, 0x00f60a00, 0x5795ef4f, 0x822e0879)
  const ABC_A0: Sixteen := Sixteen(0x0116fc33, 0x8990536d, 0xa1390f08, 0xcdd8e11b, 0xcfd499de, 0x3fc7ca40, 0x993e30c1, 0x9e8c07d4,
    0x4b6ae328, 0x8351f929, 0xfbda9e89, 0x63188fe4, 0x4607b664, 0x9128f695, 0x196bee77, 0x20bdd62f)
  const ABC_A1: Sixteen := Sixteen(0x4e925823, 0x82aa6728, 0xdc64901d, 0xfd9e1d7d, 0x1a37b0ca, 0x33a23bfc, 0x21283486, 0xd541f12d,
    0xc7567dc6, 0x48413ba4, 0xbe35fbd5, 0x4aa84d97, 0x8370b52e, 0xc5fbaf5d, 0x1267b407, 0x3b845d33)
  const ABC_A2: Sixteen := Sixteen(0x046faa0a, 0x2c0ebc11, 0x21796ad4, 0xdcbbb0cb, 0x0f511fd8, 0xdc63973f, 0x4c986405, 0x32de1cba,
    0xfc87dedf, 0x970a0d5c, 0x7f193dc5, 0xee1b1aaf, 0x40f28e09, 0x1c51e1f2, 0xa01b846c, 0xbead02ca)
  const ABC_A3: Sixteen := Sixteen(0xbaf39337, 0x120731c5, 0x641db2ce, 0x3847ad66, 0xe490436d, 0x27e9f1d8, 0x7b71f76d, 0x5e6456af,
    0xc846093f, 0xd262ff50, 0x09d785fd, 0x3f52de5a, 0xd756c147, 0x548c9cb2, 0xb66c020b, 0x6b61c9e1)
  const ABC_A4: Sixteen := Sixteen(0x19dfa7ac, 0x101655f9, 0x0c3df2b4, 0x78dd4d2b, 0x497093c0, 0x3f2588c2, 0xc199f8c7, 0x39859de7,
    0xedb42de4, 0x11793f6f, 0x5ee76897, 0x63f7dab7, 0xa079b7d9, 0x860d21cc, 0x5738d5e1, 0x42541b35)
  const ABC_HASH: Hash := Hash(0xa9993e36, 0x4706816a, 0xba3e2571, 0x7850c26c, 0x9cd0d89d)
  const ABC_TRACE: Trace := Trace(ABC_W0, ABC_W1, ABC_W2, ABC_W3, ABC_W4, ABC_A0, ABC_A1, ABC_A2, ABC_A3, ABC_A4)

  lemma AbcWords1(follows: Follower)
    requires IsFollower(follows, Mix)
    ensures follows(ABC_W0, ABC_W1)
  {
    assert Follows(Mix, ABC_W0, ABC_W1);
  }

  lemma AbcWords2(follows: Follower)
    requires IsFollower(follows, Mix)
    ensures follows(ABC_W1, ABC_W2)
  {
    assert Follows(Mix, ABC_W1, ABC_W2);
  }

  lemma AbcWords3(follows: Follower)
    requires IsFollower(follows, Mix)
    ensures follows(ABC_W2, ABC_W3)
  {
    assert Follows(Mix, ABC_W2, ABC_W3);
  }

  lemma AbcWords4(follows: Follower)
    requires IsFollower(follows, Mix)
    ensures follows(ABC_W3, ABC_W4)
  {
    assert Follows(Mix, ABC_W3, ABC_W4);
  }

  lemma AbcRounds0(steps: Stepper)
    requires IsStepper(steps, SHA)
    ensures steps(0, H0, ABC_W0, ABC_A0)
  {
    assert Steps(SHA, 0, H0, ABC_W0, ABC_A0);
  }

  lemma AbcRounds1(steps: Stepper)
    requires IsStepper(steps, SHA)
    ensures steps(16, End(SHA, ABC_A0), ABC_W1, ABC_A1)
  {
    assert Steps(SHA, 16, End(SHA, ABC_A0), ABC_W1, ABC_A1);
  }

  lemma AbcRounds2(steps: Stepper)
    requires IsStepper(steps, SHA)
    ensures steps(32, End(SHA, ABC_A1), ABC_W2, ABC_A2)
  {
    assert Steps(SHA, 32, End(SHA, ABC_A1), ABC_W2, ABC_A2);
  }

  lemma AbcRounds3(steps: Stepper)
    requires IsStepper(steps, SHA)
    ensures steps(48, End(SHA, ABC_A2), ABC_W3, ABC_A3)
  {
    assert Steps(SHA, 48, End(SHA, ABC_A2), ABC_W3, ABC_A3);
  }

  lemma AbcRounds4(steps: Stepper)
    requires IsStepper(steps, SHA)
    ensures steps(64, End(SHA, ABC_A3), ABC_W4, ABC_A4)
  {
    assert Steps(SHA, 64, End(SHA, ABC_A3), ABC_W4, ABC_A4);
  }

  lemma AbcTraced(follows: Follower, steps: Stepper)
    requires IsFollower(follows, Mix) && IsStepper(steps, SHA)
    ensures Traced(SHA, follows, steps, H0, ABC_TRACE)
  {
    AbcWords1(follows);
    AbcWords2(follows);
    AbcWords3(follows);
    AbcWords4(follows);
    AbcRounds0(steps);
    AbcRounds1(steps);
    AbcRounds2(steps);
    AbcRounds3(steps);
    AbcRounds4(steps);
  }

  lemma AbcSum()
    ensures Add(H0, End(SHA, ABC_A4)) == ABC_HASH
  {
  }

  lemma AbcBlock(block: Block, follows: Follower, steps: Stepper)
    requires IsFollower(follows, Mix) && IsStepper(steps, SHA) && Holds(Schedule(block), 0, ABC_W0)
    ensures Compress(H0, block) == ABC_HASH
  {
    AbcTraced(follows, steps);
    BlockIs(follows, steps, H0, block, ABC_TRACE);
    AbcSum();
  }

  lemma AbcLength()
    ensures LengthField(3) == [0x00, 0x00, 0x00, 0x00, 0x00, 0x00, 0x00, 0x18]
  {
    assert 24 % 0x1_0000_0000_0000_0000 == 24;
    assert Bits64(24) == 0x18;
  }

  lemma AbcRow0()
    ensures FourWords(ABC_W0.x0, ABC_W0.x1, ABC_W0.x2, ABC_W0.x3) == ABC + [0x80] + Nulls(12)
  {
    assert FourWords(ABC_W0.x0, ABC_W0.x1, ABC_W0.x2, ABC_W0.x3) == [
      0x61, 0x62, 0x63, 0x80, 0x00, 0x00, 0x00, 0x00, 0x00, 0x00, 0x00, 0x00, 0x00, 0x00, 0x00, 0x00];
  }

  lemma AbcRow1()
    ensures FourWords(ABC_W0.x12, ABC_W0.x13, ABC_W0.x14, ABC_W0.x15) == Nulls(8) + LengthField(3)
  {
    AbcLength();
    assert FourWords(ABC_W0.x12, ABC_W0.x13, ABC_W0.x14, ABC_W0.x15) == [
      0x00, 0x00, 0x00, 0x00, 0x00, 0x00, 0x00, 0x00, 0x00, 0x00, 0x00, 0x00, 0x00, 0x00, 0x00, 0x18];
  }

  lemma AbcPads()
    ensures Pad(ABC) == BlockOf(ABC_W0)
  {
    AbcRow0();
    AbcRow1();
    NullRow();
    OneBlockPad(ABC, 12, ABC_W0);
  }

  lemma AbcHashBytes()
    ensures HashBytes(ABC_HASH) == [
      0xa9, 0x99, 0x3e, 0x36, 0x47, 0x06, 0x81, 0x6a, 0xba, 0x3e,
      0x25, 0x71, 0x78, 0x50, 0xc2, 0x6c, 0x9c, 0xd0, 0xd8, 0x9d]
  {
  }

  /** The digest of "abc". */
  lemma AbcDigest()
    ensures Digest(ABC) == [
      0xa9, 0x99, 0x3e, 0x36, 0x47, 0x06, 0x81, 0x6a, 0xba, 0x3e,
      0x25, 0x71, 0x78, 0x50, 0xc2, 0x6c, 0x9c, 0xd0, 0xd8, 0x9d]
  {
    AbcPads();
    StartsWith(ABC_W0);
    AbcBlock(BlockOf(ABC_W0), FOLLOWS, STEPS);
    OneBlock(ABC, BlockOf(ABC_W0), ABC_HASH);
    AbcHashBytes();
  }

  // ---------------------------------------------------------------- the message of 56 bytes

  const LONG_R0: seq<Byte> := [0x61, 0x62, 0x63, 0x64, 0x62, 0x63, 0x64, 0x65, 0x63, 0x64, 0x65, 0x66, 0x64, 0x65, 0x66, 0x67]
  const LONG_R1: seq<Byte> := [0x65, 0x66, 0x67, 0x68, 0x66, 0x67, 0x68, 0x69, 0x67, 0x68, 0x69, 0x6a, 0x68, 0x69, 0x6a, 0x6b]
  const LONG_R2: seq<Byte> := [0x69, 0x6a, 0x6b, 0x6c, 0x6a, 0x6b, 0x6c, 0x6d, 0x6b, 0x6c, 0x6d, 0x6e, 0x6c, 0x6d, 0x6e, 0x6f]
  const LONG_TAIL: seq<Byte> := [0x6d, 0x6e, 0x6f, 0x70, 0x6e, 0x6f, 0x70, 0x71]
  const LONG: seq<Byte> := LONG_R0 + LONG_R1 + LONG_R2 + LONG_TAIL

  const LONG_0_W0: Sixteen := Sixteen(0x61626364, 0x62636465, 0x63646566, 0x64656667, 0x65666768, 0x66676869, 0x6768696a, 0x68696a6b,
    0x696a6b6c, 0x6a6b6c6d, 0x6b6c6d6e, 0x6c6d6e6f, 0x6d6e6f70, 0x6e6f7071, 0x80000000, 0x00000000)
  const LONG_0_W1: Sixteen := Sixteen(0x0a063a3e, 0xd8dadcdf, 0xdadcdec0, 0xc8d2b4be, 0x6f757b5b, 0x757b5967, 0x8da16d70, 0xdaeefaba,
    0xfaf6cab6, 0xa6fb675a, 0x0c604cc8, 0x604cc02c, 0x49c0e6e2, 0x2ee8cbbc, 0xcfd72ec4, 0x97e9810e)
  const LONG_0_W2: Sixteen := Sixteen(0x0989cbe8, 0xf24843fe, 0x5c40d0ba, 0xa8d9cc3b, 0xb2b9666e, 0xba7b71b7, 0x20b28a72, 0xb28af500,
    0x8ac87842, 0x289addf4, 0x56d51f21, 0xd96b7fd2, 0x3868e778, 0xab5e4848, 0x7f0e2118, 0xde87a111)
  const LONG_0_W3: Sixteen := Sixteen(0xe8be56b0, 0x1a0ae652, 0xcd5611c8, 0x46ef29dc, 0x60d3da6d, 0xddf3ba6e, 0x2737f5e9, 0x4888a710,
    0xd2a1177b, 0x9999633b, 0xd6c69d03, 0xccf6127b, 0x7c58fe6d, 0xfdd99c68, 0xf8e32074, 0xe0ba3c7d)
  const LONG_0_W4: Sixteen := Sixteen(0x152198d6, 0x7b3f1982, 0x37f2d5b7, 0x8596323e, 0x810790d6, 0xbea0a942, 0x11c7e1b1, 0x6158d101,
    0x5fcd77d9, 0x7f2f12e6, 0xf868cfb1, 0xd6e997e9, 0xf526b852, 0xb7578dcc, 0x55d99df4, 0x1ff69958)
  const LONG_0_A0: Sixteen := Sixteen(0x0116fc17, 0xebf3b452, 0x5109913a, 0x2c4f6eac, 0x33f4ae5b, 0x96b85189, 0xdb04cb58, 0x45833f0f,
    0xc565c35e, 0x6350afda, 0x8993ea77, 0xe19ecaa2, 0x8603481e, 0x32f94a85, 0xb2e7a8be, 0x42637e39)
  const LONG_0_A1: Sixteen := Sixteen(0x6b068048, 0x426b9c35, 0x944b1bd1, 0x6c445652, 0x95836da5, 0x09511177, 0xe2b92dc4, 0xfd224575,
    0xeeb82d9a, 0x5a142c1a, 0x2972f7c7, 0xd526a644, 0xe1122421, 0x05b457b2, 0xa9c84bec, 0x52e31f60)
  const LONG_0_A2: Sixteen := Sixteen(0x5af3242c, 0x31c756a9, 0xe9ac987c, 0xab7c32ee, 0x5933fc99, 0x43f87ae9, 0x24957f22, 0xadeb7478,
    0xd70e5010, 0x79bcfb08, 0xf9bcb8de, 0x633e9561, 0x98c1ea64, 0xc6ea241e, 0xa2ad4f02, 0xc8a69090)
  const LONG_0_A3: Sixteen := Sixteen(0x88341600, 0x7e846f58, 0x86e358ba, 0x8d2e76c8, 0xce892e10, 0xedea95b1, 0x36d1230a, 0x776c3910,
    0xa681b723, 0xac0a794f, 0xf03d3782, 0x9ef775c3, 0x36254b13, 0x4080d4dc, 0x2bfaf7a8, 0x513f9ca0)
  const LONG_0_A4: Sixteen := Sixteen(0xe5895c81, 0x1037d2d5, 0x14a82da9, 0x6d17c9fd, 0x2c7b07bd, 0xfdf6efff, 0x112b96e3, 0x84065712,
    0xab89fb71, 0xc5210e35, 0x352d9f4b, 0x1a0e0e0a, 0xd0d47349, 0xad38620d, 0xd3ad7c25, 0x8ce34517)
  const LONG_1_W0: Sixteen := Sixteen(0x00000000, 0x00000000, 0x00000000, 0x00000000, 0x00000000, 0x00000000, 0x00000000, 0x00000000,
    0x00000000, 0x00000000, 0x00000000, 0x00000000, 0x00000000, 0x00000000, 0x00000000, 0x000001c0)
  const LONG_1_W1: Sixteen := Sixteen(0x00000000, 0x00000000, 0x00000380, 0x00000000, 0x00000000, 0x00000700, 0x00000000, 0x00000380,
    0x00000e00, 0x00000000, 0x00000000, 0x00001c00, 0x00000000, 0x00000d80, 0x00003800, 0x00000480)
  const LONG_1_W2: Sixteen := Sixteen(0x00000000, 0x00007000, 0x00000e00, 0x00003600, 0x0000e000, 0x00000e00, 0x00000000, 0x0001ce00,
    0x00000000, 0x0000d800, 0x00038000, 0x00004f00, 0x00000000, 0x00070e00, 0x0000ee00, 0x00037500)
  const LONG_1_W3: Sixteen := Sixteen(0x000e0000, 0x0000e000, 0x00003600, 0x001cee00, 0x00000000, 0x000df000, 0x00380000, 0x0004c600,
    0x0000e000, 0x0070ee00, 0x000ee000, 0x00369e00, 0x00e00000, 0x000ed600, 0x0000e000, 0x01cea600)
  const LONG_1_W4: Sixteen := Sixteen(0x00000000, 0x00d80000, 0x0380e000, 0x004f0000, 0x00000000, 0x070e0000, 0x00ee0000, 0x03751c00,
    0x0e000000, 0x00e0e000, 0x00363800, 0x1cee9000, 0x00000000, 0x0df09000, 0x3800e000, 0x04c77400)
  const LONG_1_A0: Sixteen := Sixteen(0x2df257e9, 0x4d3dc58f, 0xc352bb05, 0xeef743c6, 0x41e34277, 0x5443915c, 0xe7fa0377, 0xc6946813,
    0xfdde1de1, 0xb8538aca, 0x6ba94f63, 0x43a2792f, 0xfecd7bbf, 0xa2604ca8, 0x258b0baa, 0xd9772360)
  const LONG_1_A1: Sixteen := Sixteen(0x5507db6e, 0xa51b58bc, 0xc2eb709f, 0xd8992153, 0x37482f5f, 0xee8700bd, 0x9ad594b9, 0x8fbaa5b9,
    0x88fb5867, 0xeec50521, 0x50bce434, 0x5c416daf, 0x2429be5f, 0x0a2fb108, 0x17986223, 0x8a4af384)
  const LONG_1_A2: Sixteen := Sixteen(0x6b629993, 0xf15f04f3, 0x295cc25b, 0x696da404, 0xcef5ae12, 0x87d5b80c, 0x84e2a5f2, 0x03bb6310,
    0xc2d8f75f, 0xbfb25768, 0x28589152, 0xec1d3d61, 0x3caed7af, 0xc3d033ea, 0x7316056a, 0x46f93b68)
  const LONG_1_A3: Sixteen := Sixteen(0xdc8e7f26, 0x850d411c, 0x7e4672c0, 0x89fbd41d, 0x1797e228, 0x431d65bc, 0x2bdbb8cb, 0x6da72e7f,
    0xa8495a9b, 0xe785655a, 0x5b086c42, 0xa65818f7, 0x7aab101b, 0x93614c9c, 0xf66d9bf4, 0xd504902b)
  const LONG_1_A4: Sixteen := Sixteen(0x60a9da62, 0x8b687819, 0x083e90c3, 0xf6226bbf, 0x76c0563b, 0x989dd165, 0x8b2c7573, 0xae1b8e7b,
    0xca1840de, 0x16f3babb, 0xd28d83ad, 0x6bc02dfe, 0xd3a6e275, 0xda955482, 0x58c0aac0, 0x906fd62c)
  const LONG_0_HASH: Hash := Hash(0xf4286818, 0xc37b27ae, 0x0408f581, 0x84677148, 0x4a566572)
  const LONG_0_TRACE: Trace := Trace(LONG_0_W0, LONG_0_W1, LONG_0_W2, LONG_0_W3, LONG_0_W4, LONG_0_A0, LONG_0_A1, LONG_0_A2, LONG_0_A3, LONG_0_A4)

  lemma Long0Words1(follows: Follower)
    requires IsFollower(follows, Mix)
    ensures follows(LONG_0_W0, LONG_0_W1)
  {
    assert Follows(Mix, LONG_0_W0, LONG_0_W1);
  }

  lemma Long0Words2(follows: Follower)
    requires IsFollower(follows, Mix)
    ensures follows(LONG_0_W1, LONG_0_W2)
  {
    assert Follows(Mix, LONG_0_W1, LONG_0_W2);
  }

  lemma Long0Words3(follows: Follower)
    requires IsFollower(follows, Mix)
    ensures follows(LONG_0_W2, LONG_0_W3)
  {
    assert Follows(Mix, LONG_0_W2, LONG_0_W3);
  }

  lemma Long0Words4(follows: Follower)
    requires IsFollower(follows, Mix)
    ensures follows(LONG_0_W3, LONG_0_W4)
  {
    assert Follows(Mix, LONG_0_W3, LONG_0_W4);
  }

  lemma Long0Rounds0(steps: Stepper)
    requires IsStepper(steps, SHA)
    ensures steps(0, H0, LONG_0_W0, LONG_0_A0)
  {
    assert Steps(SHA, 0, H0, LONG_0_W0, LONG_0_A0);
  }

  lemma Long0Rounds1(steps: Stepper)
    requires IsStepper(steps, SHA)
    ensures steps(16, End(SHA, LONG_0_A0), LONG_0_W1, LONG_0_A1)
  {
    assert Steps(SHA, 16, End(SHA, LONG_0_A0), LONG_0_W1, LONG_0_A1);
  }

  lemma Long0Rounds2(steps: Stepper)
    requires IsStepper(steps, SHA)
    ensures steps(32, End(SHA, LONG_0_A1), LONG_0_W2, LONG_0_A2)
  {
    assert Steps(SHA, 32, End(SHA, LONG_0_A1), LONG_0_W2, LONG_0_A2);
  }

  lemma Long0Rounds3(steps: Stepper)
    requires IsStepper(steps, SHA)
    ensures steps(48, End(SHA, LONG_0_A2), LONG_0_W3, LONG_0_A3)
  {
    assert Steps(SHA, 48, End(SHA, LONG_0_A2), LONG_0_W3, LONG_0_A3);
  }

  lemma Long0Rounds4(steps: Stepper)
    requires IsStepper(steps, SHA)
    ensures steps(64, End(SHA, LONG_0_A3), LONG_0_W4, LONG_0_A4)
  {
    assert Steps(SHA, 64, End(SHA, LONG_0_A3), LONG_0_W4, LONG_0_A4);
  }

  lemma Long0Traced(follows: Follower, steps: Stepper)
    requires IsFollower(follows, Mix) && IsStepper(steps, SHA)
    ensures Traced(SHA, follows, steps, H0, LONG_0_TRACE)
  {
    Long0Words1(follows);
    Long0Words2(follows);
    Long0Words3(follows);
    Long0Words4(follows);
    Long0Rounds0(steps);
    Long0Rounds1(steps);
    Long0Rounds2(steps);
    Long0Rounds3(steps);
    Long0Rounds4(steps);
  }

  lemma Long0Sum()
    ensures Add(H0, End(SHA, LONG_0_A4)) == LONG_0_HASH
  {
  }

  lemma Long0Block(block: Block, follows: Follower, steps: Stepper)
    requires IsFollower(follows, Mix) && IsStepper(steps, SHA) && Holds(Schedule(block), 0, LONG_0_W0)
    ensures Compress(H0, block) == LONG_0_HASH
  {
    Long0Traced(follows, steps);
    BlockIs(follows, steps, H0, block, LONG_0_TRACE);
    Long0Sum();
  }

  const LONG_1_HASH: Hash := Hash(0x84983e44, 0x1c3bd26e, 0xbaae4aa1, 0xf95129e5, 0xe54670f1)
  const LONG_1_TRACE: Trace := Trace(LONG_1_W0, LONG_1_W1, LONG_1_W2, LONG_1_W3, LONG_1_W4, LONG_1_A0, LONG_1_A1, LONG_1_A2, LONG_1_A3, LONG_1_A4)

  lemma Long1Words1(follows: Follower)
    requires IsFollower(follows, Mix)
    ensures follows(LONG_1_W0, LONG_1_W1)
  {
    assert Follows(Mix, LONG_1_W0, LONG_1_W1);
  }

  lemma Long1Words2(follows: Follower)
    requires IsFollower(follows, Mix)
    ensures follows(LONG_1_W1, LONG_1_W2)
  {
    assert Follows(Mix, LONG_1_W1, LONG_1_W2);
  }

  lemma Long1Words3(follows: Follower)
    requires IsFollower(follows, Mix)
    ensures follows(LONG_1_W2, LONG_1_W3)
  {
    assert Follows(Mix, LONG_1_W2, LONG_1_W3);
  }

  lemma Long1Words4(follows: Follower)
    requires IsFollower(follows, Mix)
    ensures follows(LONG_1_W3, LONG_1_W4)
  {
    assert Follows(Mix, LONG_1_W3, LONG_1_W4);
  }

  lemma Long1Rounds0(steps: Stepper)
    requires IsStepper(steps, SHA)
    ensures steps(0, LONG_0_HASH, LONG_1_W0, LONG_1_A0)
  {
    assert Steps(SHA, 0, LONG_0_HASH, LONG_1_W0, LONG_1_A0);
  }

  lemma Long1Rounds1(steps: Stepper)
    requires IsStepper(steps, SHA)
    ensures steps(16, End(SHA, LONG_1_A0), LONG_1_W1, LONG_1_A1)
  {
    assert Steps(SHA, 16, End(SHA, LONG_1_A0), LONG_1_W1, LONG_1_A1);
  }

  lemma Long1Rounds2(steps: Stepper)
    requires IsStepper(steps, SHA)
    ensures steps(32, End(SHA, LONG_1_A1), LONG_1_W2, LONG_1_A2)
  {
    assert Steps(SHA, 32, End(SHA, LONG_1_A1), LONG_1_W2, LONG_1_A2);
  }

  lemma Long1Rounds3(steps: Stepper)
    requires IsStepper(steps, SHA)
    ensures steps(48, End(SHA, LONG_1_A2), LONG_1_W3, LONG_1_A3)
  {
    assert Steps(SHA, 48, End(SHA, LONG_1_A2), LONG_1_W3, LONG_1_A3);
  }

  lemma Long1Rounds4(steps: Stepper)
    requires IsStepper(steps, SHA)
    ensures steps(64, End(SHA, LONG_1_A3), LONG_1_W4, LONG_1_A4)
  {
    assert Steps(SHA, 64, End(SHA, LONG_1_A3), LONG_1_W4, LONG_1_A4);
  }

  lemma Long1Traced(follows: Follower, steps: Stepper)
    requires IsFollower(follows, Mix) && IsStepper(steps, SHA)
    ensures Traced(SHA, follows, steps, LONG_0_HASH, LONG_1_TRACE)
  {
    Long1Words1(follows);
    Long1Words2(follows);
    Long1Words3(follows);
    Long1Words4(follows);
    Long1Rounds0(steps);
    Long1Rounds1(steps);
    Long1Rounds2(steps);
    Long1Rounds3(steps);
    Long1Rounds4(steps);
  }

  lemma Long1Sum()
    ensures Add(LONG_0_HASH, End(SHA, LONG_1_A4)) == LONG_1_HASH
  {
  }

  lemma Long1Block(block: Block, follows: Follower, steps: Stepper)
    requires IsFollower(follows, Mix) && IsStepper(steps, SHA) && Holds(Schedule(block), 0, LONG_1_W0)
    ensures Compress(LONG_0_HASH, block) == LONG_1_HASH
  {
    Long1Traced(follows, steps);
    BlockIs(follows, steps, LONG_0_HASH, block, LONG_1_TRACE);
    Long1Sum();
  }

  lemma LongLength()
    ensures LengthField(56) == [0x00, 0x00, 0x00, 0x00, 0x00, 0x00, 0x01, 0xc0]
  {
    assert 448 % 0x1_0000_0000_0000_0000 == 448;
    assert Bits64(448) == 0x1c0;
  }

  lemma LongRow0()
    ensures FourWords(LONG_0_W0.x0, LONG_0_W0.x1, LONG_0_W0.x2, LONG_0_W0.x3) == LONG_R0
  {
    assert FourWords(LONG_0_W0.x0, LONG_0_W0.x1, LONG_0_W0.x2, LONG_0_W0.x3) == [
      0x61, 0x62, 0x63, 0x64, 0x62, 0x63, 0x64, 0x65, 0x63, 0x64, 0x65, 0x66, 0x64, 0x65, 0x66, 0x67];
  }

  lemma LongRow1()
    ensures FourWords(LONG_0_W0.x4, LONG_0_W0.x5, LONG_0_W0.x6, LONG_0_W0.x7) == LONG_R1
  {
    assert FourWords(LONG_0_W0.x4, LONG_0_W0.x5, LONG_0_W0.x6, LONG_0_W0.x7) == [
      0x65, 0x66, 0x67, 0x68, 0x66, 0x67, 0x68, 0x69, 0x67, 0x68, 0x69, 0x6a, 0x68, 0x69, 0x6a, 0x6b];
  }

  lemma LongRow2()
    ensures FourWords(LONG_0_W0.x8, LONG_0_W0.x9, LONG_0_W0.x10, LONG_0_W0.x11) == LONG_R2
  {
    assert FourWords(LONG_0_W0.x8, LONG_0_W0.x9, LONG_0_W0.x10, LONG_0_W0.x11) == [
      0x69, 0x6a, 0x6b, 0x6c, 0x6a, 0x6b, 0x6c, 0x6d, 0x6b, 0x6c, 0x6d, 0x6e, 0x6c, 0x6d, 0x6e, 0x6f];
  }

  lemma LongRow3()
    ensures FourWords(LONG_0_W0.x12, LONG_0_W0.x13, LONG_0_W0.x14, LONG_0_W0.x15) == LONG_TAIL + [0x80] + Nulls(7)
  {
    assert FourWords(LONG_0_W0.x12, LONG_0_W0.x13, LONG_0_W0.x14, LONG_0_W0.x15) == [
      0x6d, 0x6e, 0x6f, 0x70, 0x6e, 0x6f, 0x70, 0x71, 0x80, 0x00, 0x00, 0x00, 0x00, 0x00, 0x00, 0x00];
  }

  lemma LongRow4()
    ensures FourWords(LONG_1_W0.x12, LONG_1_W0.x13, LONG_1_W0.x14, LONG_1_W0.x15) == Nulls(8) + LengthField(56)
  {
    LongLength();
    assert FourWords(LONG_1_W0.x12, LONG_1_W0.x13, LONG_1_W0.x14, LONG_1_W0.x15) == [
      0x00, 0x00, 0x00, 0x00, 0x00, 0x00, 0x00, 0x00, 0x00, 0x00, 0x00, 0x00, 0x00, 0x00, 0x01, 0xc0];
  }

  lemma LongPads()
    ensures Pad(LONG) == BlockOf(LONG_0_W0) + BlockOf(LONG_1_W0)
  {
    LongRow0();
    LongRow1();
    LongRow2();
    LongRow3();
    LongRow4();
    NullRow();
    TwoBlockPad(LONG_R0, LONG_R1, LONG_R2, LONG_TAIL, 7, LONG_0_W0, LONG_1_W0);
  }

  lemma LongHashBytes()
    ensures HashBytes(LONG_1_HASH) == [
      0x84, 0x98, 0x3e, 0x44, 0x1c, 0x3b, 0xd2, 0x6e, 0xba, 0xae,
      0x4a, 0xa1, 0xf9, 0x51, 0x29, 0xe5, 0xe5, 0x46, 0x70, 0xf1]
  {
  }

  /** The digest of a message of two blocks. */
  lemma LongDigest()
    ensures Digest(LONG) == [
      0x84, 0x98, 0x3e, 0x44, 0x1c, 0x3b, 0xd2, 0x6e, 0xba, 0xae,
      0x4a, 0xa1, 0xf9, 0x51, 0x29, 0xe5, 0xe5, 0x46, 0x70, 0xf1]
  {
    LongPads();
    StartsWith(LONG_0_W0);
    Long0Block(BlockOf(LONG_0_W0), FOLLOWS, STEPS);
    StartsWith(LONG_1_W0);
    Long1Block(BlockOf(LONG_1_W0), FOLLOWS, STEPS);
    TwoBlocks(LONG, BlockOf(LONG_0_W0), BlockOf(LONG_1_W0), LONG_0_HASH, LONG_1_HASH);
    LongHashBytes();
  }

  // ---------------------------------------------------------------- the key of section 1.3 of RFC 6455, with the GUID

  const KEY_R0: seq<Byte> := [0x64, 0x47, 0x68, 0x6c, 0x49, 0x48, 0x4e, 0x68, 0x62, 0x58, 0x42, 0x73, 0x5a, 0x53, 0x42, 0x75]
  const KEY_R1: seq<Byte> := [0x62, 0x32, 0x35, 0x6a, 0x5a, 0x51, 0x3d, 0x3d, 0x32, 0x35, 0x38, 0x45, 0x41, 0x46, 0x41, 0x35]
  const KEY_R2: seq<Byte> := [0x2d, 0x45, 0x39, 0x31, 0x34, 0x2d, 0x34, 0x37, 0x44, 0x41, 0x2d, 0x39, 0x35, 0x43, 0x41, 0x2d]
  const KEY_TAIL: seq<Byte> := [0x43, 0x35, 0x41, 0x42, 0x30, 0x44, 0x43, 0x38, 0x35, 0x42, 0x31, 0x31]
  const KEY: seq<Byte> := KEY_R0 + KEY_R1 + KEY_R2 + KEY_TAIL

  const KEY_0_W0: Sixteen := Sixteen(0x6447686c, 0x49484e68, 0x62584273, 0x5a534275, 0x6232356a, 0x5a513d3d, 0x32353845, 0x41464135,
    0x2d453931, 0x342d3437, 0x44412d39, 0x3543412d, 0x43354142, 0x30444338, 0x35423131, 0x80000000)
  const KEY_0_W1: Sixteen := Sixteen(0x363ca02c, 0x24e81236, 0x8856b441, 0x06fb3c92, 0x6fb4bcb6, 0x460b16e3, 0x599219ae, 0x35bf9369,
    0x3267458e, 0xf828fd04, 0x753a96a7, 0x6336f612, 0xc3d66383, 0x06eb86f9, 0x73b4fd42, 0xa503c5b8)
  const KEY_0_W2: Sixteen := Sixteen(0x15cdae35, 0x531e5dc5, 0x6fb6b7d0, 0x6c16e4ac, 0x4ddd36bd, 0x35d36946, 0xe8ae8b9c, 0x4a933ad0,
    0xce8628b4, 0x415dba9e, 0x2792f049, 0x8e9b79e7, 0x79c425c5, 0x6353b49d, 0x00994218, 0x8a950ed1)
  const KEY_0_W3: Sixteen := Sixteen(0xaf5d0b99, 0xfd9883de, 0x1ed8ffeb, 0xf007ff28, 0x425e3674, 0x059631c0, 0xad6c3c31, 0x860b71d7,
    0x87bfc548, 0x3e64f92d, 0x8d0ab761, 0x34e1ee35, 0x0acf5108, 0xc2b479da, 0x6c93370a, 0xf7935ba1)
  const KEY_0_W4: Sixteen := Sixteen(0xe91c91c1, 0xbed165a2, 0x4c3e4abe, 0x50d96238, 0xb6587dde, 0x1a2ee6e6, 0x2d335896, 0xf3495d0b,
    0xf30e0a1d, 0x32ce5459, 0x7165e3b8, 0xab05ff94, 0xc5949f0b, 0xbcd84e4a, 0x07720392, 0xff3ff806)
  const KEY_0_A0: Sixteen := Sixteen(0x03fc011f, 0x2f793f55, 0xbe90ee8f, 0x53e039ac, 0xdd8c7c12, 0x7320b969, 0x73553e84, 0x2e0ce601,
    0x32beb05a, 0xfaad2675, 0x5ff4238c, 0x34ceb986, 0x61bdb2bf, 0xae1a096e, 0xe922cc9d, 0xa004c468)
  const KEY_0_A1: Sixteen := Sixteen(0xd7daf575, 0x7ebb296b, 0x8dc510b6, 0x091ab97c, 0x518470a3, 0xd12f0b56, 0xbeafd554, 0x250e26ef,
    0x23d1c91b, 0x748b39a0, 0xef012f20, 0x571f7d82, 0x1abb1c37, 0x081b63e5, 0xb7dabc8b, 0xa6680a1f)
  const KEY_0_A2: Sixteen := Sixteen(0x1ae360a9, 0xeeaba35a, 0x149bb4d3, 0x9de793c8, 0x4ccd2227, 0x68760824, 0xd0869081, 0x2ba2c83e,
    0xcb8c52d0, 0x4f589a44, 0x868829b7, 0x6dc6a3d7, 0x5f5f3452, 0x72ff334d, 0xdee4b7a8, 0xabe1748a)
  const KEY_0_A3: Sixteen := Sixteen(0x7510d04f, 0x065f8486, 0x0e5d77c4, 0x10e7f671, 0x26c69395, 0x4c608ac4, 0x50c9104c, 0x7e1242f2,
    0x6ef6fef4, 0x0c247c2e, 0xd284f163, 0x4872d85a, 0xcd4200b8, 0x90f00d8f, 0x840054d3, 0x685e2ff6)
  const KEY_0_A4: Sixteen := Sixteen(0xa4cee018, 0xc3c2e45b, 0x53131a40, 0xcf8658ec, 0x966e049a, 0x07381b7e, 0x80d59773, 0x7e65e044,
    0x628e7b47, 0x143a8388, 0xe20983f9, 0x69cf0bca, 0x29171009, 0x97047bec, 0x835995e1, 0xf48a5426)
  const KEY_1_W0: Sixteen := Sixteen(0x00000000, 0x00000000, 0x00000000, 0x00000000, 0x00000000, 0x00000000, 0x00000000, 0x00000000,
    0x00000000, 0x00000000, 0x00000000, 0x00000000, 0x00000000, 0x00000000, 0x00000000, 0x000001e0)
  const KEY_1_W1: Sixteen := Sixteen(0x00000000, 0x00000000, 0x000003c0, 0x00000000, 0x00000000, 0x00000780, 0x00000000, 0x000003c0,
    0x00000f00, 0x00000000, 0x00000000, 0x00001e00, 0x00000000, 0x00000cc0, 0x00003c00, 0x00000440)
  const KEY_1_W2: Sixteen := Sixteen(0x00000000, 0x00007800, 0x00000f00, 0x00003300, 0x0000f000, 0x00000f00, 0x00000000, 0x0001ef00,
    0x00000000, 0x0000cc00, 0x0003c000, 0x00004380, 0x00000000, 0x00078f00, 0x0000ff00, 0x00032680)
  const KEY_1_W3: Sixteen := Sixteen(0x000f0000, 0x0000f000, 0x00003300, 0x001eff00, 0x00000000, 0x000cb800, 0x003c0000, 0x00040b00,
    0x0000f000, 0x0078ff00, 0x000ff000, 0x00338700, 0x00f00000, 0x000fc300, 0x0000f000, 0x01efbb00)
  const KEY_1_W4: Sixteen := Sixteen(0x00000000, 0x00cc0000, 0x03c0f000, 0x00438000, 0x00000000, 0x078f0000, 0x00ff0000, 0x03269e00,
    0x0f000000, 0x00f0f000, 0x00333c00, 0x1eff8800, 0x00000000, 0x0cb88800, 0x3c00f000, 0x040a4a00)
  const KEY_1_A0: Sixteen := Sixteen(0x6d335cde, 0x186006b8, 0xf9fb295d, 0x15855523, 0xe43dd2f2, 0x93a5efbb, 0xb3bbcafe, 0x25c018be,
    0x80946593, 0x0b0814c3, 0x4ce92417, 0x250601ad, 0x6576d2dc, 0xad43f39e, 0x990b7be7, 0x986df268)
  const KEY_1_A1: Sixteen := Sixteen(0x3ad7440e, 0x72198f06, 0x2f193a09, 0x2a008b51, 0x12315b2b, 0x40fbcf98, 0x3e5179e7, 0x53c73650,
    0x1d24c44a, 0x646c677d, 0xd2e726da, 0x9327df6f, 0xf57cb53e, 0x243ee057, 0xf4ddd7b7, 0x3cf6eb58)
  const KEY_1_A2: Sixteen := Sixteen(0x730e9170, 0x96d9e59e, 0x942ac4d3, 0x76922a14, 0x7dbcf2ed, 0x796adef3, 0xc6ff0cd3, 0x6f698f1a,
    0x78716769, 0xfc343a02, 0xedfcd85b, 0x1e934acf, 0xfc7bd35f, 0x3bd9203b, 0xc8cda3da, 0xa3ef857e)
  const KEY_1_A3: Sixteen := Sixteen(0xa39f2041, 0xa516f265, 0xa3abe4f5, 0x5fe2a3db, 0x9e540637, 0x2c73bd78, 0x660dd0b1, 0xa1b68141,
    0x05033fa3, 0x21289715, 0x085eb2fe, 0x56119f19, 0x77489e23, 0x11132f8f, 0xd5ef1ed7, 0xa5937450)
  const KEY_1_A4: Sixteen := Sixteen(0x9ecfa66c, 0x17a22ef7, 0xc97f1968, 0x097a511c, 0x4e363db9, 0xbf3a7f95, 0xf6d1afee, 0xc90888ca,
    0xc7652edb, 0x26f99990, 0xe22b36d1, 0x51e08021, 0xd3010335, 0x49e92837, 0x4d3b0dac, 0x57aad805)
  const KEY_0_HASH: Hash := Hash(0x5bcf7727, 0x7327416a, 0xbe7bfbf9, 0x5a781878, 0x5e46a4e2)
  const KEY_0_TRACE: Trace := Trace(KEY_0_W0, KEY_0_W1, KEY_0_W2, KEY_0_W3, KEY_0_W4, KEY_0_A0, KEY_0_A1, KEY_0_A2, KEY_0_A3, KEY_0_A4)

  lemma Key0Words1(follows: Follower)
    requires IsFollower(follows, Mix)
    ensures follows(KEY_0_W0, KEY_0_W1)
  {
    assert Follows(Mix, KEY_0_W0, KEY_0_W1);
  }

  lemma Key0Words2(follows: Follower)
    requires IsFollower(follows, Mix)
    ensures follows(KEY_0_W1, KEY_0_W2)
  {
    assert Follows(Mix, KEY_0_W1, KEY_0_W2);
  }

  lemma Key0Words3(follows: Follower)
    requires IsFollower(follows, Mix)
    ensures follows(KEY_0_W2, KEY_0_W3)
  {
    assert Follows(Mix, KEY_0_W2, KEY_0_W3);
  }

  lemma Key0Words4(follows: Follower)
    requires IsFollower(follows, Mix)
    ensures follows(KEY_0_W3, KEY_0_W4)
  {
    assert Follows(Mix, KEY_0_W3, KEY_0_W4);
  }

  lemma Key0Rounds0(steps: Stepper)
    requires IsStepper(steps, SHA)
    ensures steps(0, H0, KEY_0_W0, KEY_0_A0)
  {
    assert Steps(SHA, 0, H0, KEY_0_W0, KEY_0_A0);
  }

  lemma Key0Rounds1(steps: Stepper)
    requires IsStepper(steps, SHA)
    ensures steps(16, End(SHA, KEY_0_A0), KEY_0_W1, KEY_0_A1)
  {
    assert Steps(SHA, 16, End(SHA, KEY_0_A0), KEY_0_W1, KEY_0_A1);
  }

  lemma Key0Rounds2(steps: Stepper)
    requires IsStepper(steps, SHA)
    ensures steps(32, End(SHA, KEY_0_A1), KEY_0_W2, KEY_0_A2)
  {
    assert Steps(SHA, 32, End(SHA, KEY_0_A1), KEY_0_W2, KEY_0_A2);
  }

  lemma Key0Rounds3(steps: Stepper)
    requires IsStepper(steps, SHA)
    ensures steps(48, End(SHA, KEY_0_A2), KEY_0_W3, KEY_0_A3)
  {
    assert Steps(SHA, 48, End(SHA, KEY_0_A2), KEY_0_W3, KEY_0_A3);
  }

  lemma Key0Rounds4(steps: Stepper)
    requires IsStepper(steps, SHA)
    ensures steps(64, End(SHA, KEY_0_A3), KEY_0_W4, KEY_0_A4)
  {
    assert Steps(SHA, 64, End(SHA, KEY_0_A3), KEY_0_W4, KEY_0_A4);
  }

  lemma Key0Traced(follows: Follower, steps: Stepper)
    requires IsFollower(follows, Mix) && IsStepper(steps, SHA)
    ensures Traced(SHA, follows, steps, H0, KEY_0_TRACE)
  {
    Key0Words1(follows);
    Key0Words2(follows);
    Key0Words3(follows);
    Key0Words4(follows);
    Key0Rounds0(steps);
    Key0Rounds1(steps);
    Key0Rounds2(steps);
    Key0Rounds3(steps);
    Key0Rounds4(steps);
  }

  lemma Key0Sum()
    ensures Add(H0, End(SHA, KEY_0_A4)) == KEY_0_HASH
  {
  }

  lemma Key0Block(block: Block, follows: Follower, steps: Stepper)
    requires IsFollower(follows, Mix) && IsStepper(steps, SHA) && Holds(Schedule(block), 0, KEY_0_W0)
    ensures Compress(H0, block) == KEY_0_HASH
  {
    Key0Traced(follows, steps);
    BlockIs(follows, steps, H0, block, KEY_0_TRACE);
    Key0Sum();
  }

  const KEY_1_HASH: Hash := Hash(0xb37a4f2c, 0xc0624f16, 0x90f64606, 0xcf385945, 0xb2bec4ea)
  const KEY_1_TRACE: Trace := Trace(KEY_1_W0, KEY_1_W1, KEY_1_W2, KEY_1_W3, KEY_1_W4, KEY_1_A0, KEY_1_A1, KEY_1_A2, KEY_1_A3, KEY_1_A4)

  lemma Key1Words1(follows: Follower)
    requires IsFollower(follows, Mix)
    ensures follows(KEY_1_W0, KEY_1_W1)
  {
    assert Follows(Mix, KEY_1_W0, KEY_1_W1);
  }

  lemma Key1Words2(follows: Follower)
    requires IsFollower(follows, Mix)
    ensures follows(KEY_1_W1, KEY_1_W2)
  {
    assert Follows(Mix, KEY_1_W1, KEY_1_W2);
  }

  lemma Key1Words3(follows: Follower)
    requires IsFollower(follows, Mix)
    ensures follows(KEY_1_W2, KEY_1_W3)
  {
    assert Follows(Mix, KEY_1_W2, KEY_1_W3);
  }

  lemma Key1Words4(follows: Follower)
    requires IsFollower(follows, Mix)
    ensures follows(KEY_1_W3, KEY_1_W4)
  {
    assert Follows(Mix, KEY_1_W3, KEY_1_W4);
  }

  lemma Key1Rounds0(steps: Stepper)
    requires IsStepper(steps, SHA)
    ensures steps(0, KEY_0_HASH, KEY_1_W0, KEY_1_A0)
  {
    assert Steps(SHA, 0, KEY_0_HASH, KEY_1_W0, KEY_1_A0);
  }

  lemma Key1Rounds1(steps: Stepper)
    requires IsStepper(steps, SHA)
    ensures steps(16, End(SHA, KEY_1_A0), KEY_1_W1, KEY_1_A1)
  {
    assert Steps(SHA, 16, End(SHA, KEY_1_A0), KEY_1_W1, KEY_1_A1);
  }

  lemma Key1Rounds2(steps: Stepper)
    requires IsStepper(steps, SHA)
    ensures steps(32, End(SHA, KEY_1_A1), KEY_1_W2, KEY_1_A2)
  {
    assert Steps(SHA, 32, End(SHA, KEY_1_A1), KEY_1_W2, KEY_1_A2);
  }

  lemma Key1Rounds3(steps: Stepper)
    requires IsStepper(steps, SHA)
    ensures steps(48, End(SHA, KEY_1_A2), KEY_1_W3, KEY_1_A3)
  {
    assert Steps(SHA, 48, End(SHA, KEY_1_A2), KEY_1_W3, KEY_1_A3);
  }

  lemma Key1Rounds4(steps: Stepper)
    requires IsStepper(steps, SHA)
    ensures steps(64, End(SHA, KEY_1_A3), KEY_1_W4, KEY_1_A4)
  {
    assert Steps(SHA, 64, End(SHA, KEY_1_A3), KEY_1_W4, KEY_1_A4);
  }

  lemma Key1Traced(follows: Follower, steps: Stepper)
    requires IsFollower(follows, Mix) && IsStepper(steps, SHA)
    ensures Traced(SHA, follows, steps, KEY_0_HASH, KEY_1_TRACE)
  {
    Key1Words1(follows);
    Key1Words2(follows);
    Key1Words3(follows);
    Key1Words4(follows);
    Key1Rounds0(steps);
    Key1Rounds1(steps);
    Key1Rounds2(steps);
    Key1Rounds3(steps);
    Key1Rounds4(steps);
  }

  lemma Key1Sum()
    ensures Add(KEY_0_HASH, End(SHA, KEY_1_A4)) == KEY_1_HASH
  {
  }

  lemma Key1Block(block: Block, follows: Follower, steps: Stepper)
    requires IsFollower(follows, Mix) && IsStepper(steps, SHA) && Holds(Schedule(block), 0, KEY_1_W0)
    ensures Compress(KEY_0_HASH, block) == KEY_1_HASH
  {
    Key1Traced(follows, steps);
    BlockIs(follows, steps, KEY_0_HASH, block, KEY_1_TRACE);
    Key1Sum();
  }

  lemma KeyLength()
    ensures LengthField(60) == [0x00, 0x00, 0x00, 0x00, 0x00, 0x00, 0x01, 0xe0]
  {
    assert 480 % 0x1_0000_0000_0000_0000 == 480;
    assert Bits64(480) == 0x1e0;
  }

  lemma KeyRow0()
    ensures FourWords(KEY_0_W0.x0, KEY_0_W0.x1, KEY_0_W0.x2, KEY_0_W0.x3) == KEY_R0
  {
    assert FourWords(KEY_0_W0.x0, KEY_0_W0.x1, KEY_0_W0.x2, KEY_0_W0.x3) == [
      0x64, 0x47, 0x68, 0x6c, 0x49, 0x48, 0x4e, 0x68, 0x62, 0x58, 0x42, 0x73, 0x5a, 0x53, 0x42, 0x75];
  }

  lemma KeyRow1()
    ensures FourWords(KEY_0_W0.x4, KEY_0_W0.x5, KEY_0_W0.x6, KEY_0_W0.x7) == KEY_R1
  {
    assert FourWords(KEY_0_W0.x4, KEY_0_W0.x5, KEY_0_W0.x6, KEY_0_W0.x7) == [
      0x62, 0x32, 0x35, 0x6a, 0x5a, 0x51, 0x3d, 0x3d, 0x32, 0x35, 0x38, 0x45, 0x41, 0x46, 0x41, 0x35];
  }

  lemma KeyRow2()
    ensures FourWords(KEY_0_W0.x8, KEY_0_W0.x9, KEY_0_W0.x10, KEY_0_W0.x11) == KEY_R2
  {
    assert FourWords(KEY_0_W0.x8, KEY_0_W0.x9, KEY_0_W0.x10, KEY_0_W0.x11) == [
      0x2d, 0x45, 0x39, 0x31, 0x34, 0x2d, 0x34, 0x37, 0x44, 0x41, 0x2d, 0x39, 0x35, 0x43, 0x41, 0x2d];
  }

  lemma KeyRow3()
    ensures FourWords(KEY_0_W0.x12, KEY_0_W0.x13, KEY_0_W0.x14, KEY_0_W0.x15) == KEY_TAIL + [0x80] + Nulls(3)
  {
    assert FourWords(KEY_0_W0.x12, KEY_0_W0.x13, KEY_0_W0.x14, KEY_0_W0.x15) == [
      0x43, 0x35, 0x41, 0x42, 0x30, 0x44, 0x43, 0x38, 0x35, 0x42, 0x31, 0x31, 0x80, 0x00, 0x00, 0x00];
  }

  lemma KeyRow4()
    ensures FourWords(KEY_1_W0.x12, KEY_1_W0.x13, KEY_1_W0.x14, KEY_1_W0.x15) == Nulls(8) + LengthField(60)
  {
    KeyLength();
    assert FourWords(KEY_1_W0.x12, KEY_1_W0.x13, KEY_1_W0.x14, KEY_1_W0.x15) == [
      0x00, 0x00, 0x00, 0x00, 0x00, 0x00, 0x00, 0x00, 0x00, 0x00, 0x00, 0x00, 0x00, 0x00, 0x01, 0xe0];
  }

  lemma KeyPads()
    ensures Pad(KEY) == BlockOf(KEY_0_W0) + BlockOf(KEY_1_W0)
  {
    KeyRow0();
    KeyRow1();
    KeyRow2();
    KeyRow3();
    KeyRow4();
    NullRow();
    TwoBlockPad(KEY_R0, KEY_R1, KEY_R2, KEY_TAIL, 3, KEY_0_W0, KEY_1_W0);
  }

  lemma KeyHashBytes()
    ensures HashBytes(KEY_1_HASH) == [
      0xb3, 0x7a, 0x4f, 0x2c, 0xc0, 0x62, 0x4f, 0x16, 0x90, 0xf6,
      0x46, 0x06, 0xcf, 0x38, 0x59, 0x45, 0xb2, 0xbe, 0xc4, 0xea]
  {
  }

  /** The digest behind the accept key in the example of RFC 6455. */
  lemma KeyDigest()
    ensures Digest(KEY) == [
      0xb3, 0x7a, 0x4f, 0x2c, 0xc0, 0x62, 0x4f, 0x16, 0x90, 0xf6,
      0x46, 0x06, 0xcf, 0x38, 0x59, 0x45, 0xb2, 0xbe, 0xc4, 0xea]
  {
    KeyPads();
    StartsWith(KEY_0_W0);
    Key0Block(BlockOf(KEY_0_W0), FOLLOWS, STEPS);
    StartsWith(KEY_1_W0);
    Key1Block(BlockOf(KEY_1_W0), FOLLOWS, STEPS);
    TwoBlocks(KEY, BlockOf(KEY_0_W0), BlockOf(KEY_1_W0), KEY_0_HASH, KEY_1_HASH);
    KeyHashBytes();
  }
}
