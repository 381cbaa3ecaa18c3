// base64_encode: a byte-at-a-time accumulator over two small buffers, proved equal to the
// group-of-three encoding of section 4 of RFC 4648, which a strict decoder inverts exactly.
module Base64 {
  import opened Wrappers

  const UPPER: string := "ABCDEFGHIJKLMNOPQRSTUVWXYZ"
  const LOWER: string := "abcdefghijklmnopqrstuvwxyz"
  const DIGITS: string := "0123456789"
  const TABLE: string := UPPER + LOWER + DIGITS + "+/"
  const PAD: char := '='

  // ---------------------------------------------------------------- reference encoding

  /** The 24-bit input group of three bytes, first byte in the high bits. */
  function Group(a: bv8, b: bv8, c: bv8): bv24 {
    ((a as bv24) << 16) | ((b as bv24) << 8) | (c as bv24)
  }

  /** The k-th 6-bit group of a 24-bit group, counted from the left. */
  function Sextet(g: bv24, k: nat): (x: bv8)
    requires k < 4
    ensures x < 64
  {
    match k
    case 0 => ((g >> 18) & 63) as bv8
    case 1 => ((g >> 12) & 63) as bv8
    case 2 => ((g >> 6) & 63) as bv8
    case _ => (g & 63) as bv8
  }

  function Letter(x: bv8): char
    requires x < 64
  {
    TABLE[x as int]
  }

  function Letters(g: bv24, n: nat): string
    requires n <= 4
  {
    seq(n, k requires 0 <= k < n => Letter(Sextet(g, k)))
  }

  function Padding(n: nat): string {
    seq(n, _ => PAD)
  }

  /** One group of one to three bytes: missing bytes count as zero, missing letters become padding. */
  function EncodeGroup(s: seq<bv8>): string {
    if |s| == 0 || |s| > 3 then ""
    else Letters(Group(s[0], if |s| > 1 then s[1] else 0, if |s| > 2 then s[2] else 0), |s| + 1) + Padding(3 - |s|)
  }

  /** Groups of three from the left, each coded by f; only the last may be short. */
  function ByGroups(f: seq<bv8> -> string, s: seq<bv8>): string {
    if |s| == 0 then "" else if |s| <= 3 then f(s) else f(s[..3]) + ByGroups(f, s[3..])
  }

  function Encode(s: seq<bv8>): string {
    ByGroups(EncodeGroup, s)
  }

  // ---------------------------------------------------------------- strict decoder

  /** The position of a letter in table 1 of RFC 4648. */
  function Index(c: char): (i: Option<nat>)
    ensures i.Some? ==> i.value < 64
  {
    if 'A' <= c <= 'Z' then Some(c as int - 65)
    else if 'a' <= c <= 'z' then Some(c as int - 71)
    else if '0' <= c <= '9' then Some(c as int + 4)
    else if c == '+' then Some(62)
    else if c == '/' then Some(63)
    else None
  }

  function Value(c: char): Option<bv8> {
    if Index(c).Some? then Some(Index(c).value as bv8) else None
  }

  function Join(w: bv8, x: bv8, y: bv8, z: bv8): bv24 {
    ((w as bv24) << 18) | ((x as bv24) << 12) | ((y as bv24) << 6) | (z as bv24)
  }

  function ByteOf(g: bv24, k: nat): bv8
    requires k < 3
  {
    match k
    case 0 => ((g >> 16) & 255) as bv8
    case 1 => ((g >> 8) & 255) as bv8
    case _ => (g & 255) as bv8
  }

  /** The group that four characters stand for, the last `pads` of them being padding. */
  function Quad(t: string, pads: nat): Option<bv24>
    requires |t| == 4 && pads <= 2
  {
    var w, x := Value(t[0]), Value(t[1]);
    var y := if pads == 2 then (if t[2] == PAD then Some(0) else None) else Value(t[2]);
    var z := if pads >= 1 then (if t[3] == PAD then Some(0) else None) else Value(t[3]);
    if w.Some? && x.Some? && y.Some? && z.Some?
    then Some(Join(w.value, x.value, y.value, z.value)) else None
  }

  /** The bytes of one group, from the number of padding characters; unused bits must be zero. */
  function DecodeGroup(t: string): Option<seq<bv8>>
    requires |t| == 4
  {
    var pads := if t[3] != PAD then 0 else if t[2] != PAD then 1 else 2;
    var g := Quad(t, pads);
    if g.None? then None
    else if pads == 0 then Some([ByteOf(g.value, 0), ByteOf(g.value, 1), ByteOf(g.value, 2)])
    else if pads == 1 then (if ByteOf(g.value, 2) == 0 then Some([ByteOf(g.value, 0), ByteOf(g.value, 1)]) else None)
    else if ByteOf(g.value, 1) == 0 && ByteOf(g.value, 2) == 0 then Some([ByteOf(g.value, 0)])
    else None
  }

  /** Only the last group may be short. */
  function Decode(t: string): Option<seq<bv8>> {
    if |t| == 0 then Some([])
    else if |t| < 4 then None
    else if |t| == 4 then DecodeGroup(t)
    else
      var first, rest := DecodeGroup(t[..4]), Decode(t[4..]);
      if first.Some? && rest.Some? && |first.value| == 3 then Some(first.value + rest.value) else None
  }

  // ---------------------------------------------------------------- alphabet and bit facts

  lemma TableEntry(i: nat)
    requires i < 64
    ensures TABLE[i] == if i < 26 then (i + 65) as char else if i < 52 then (i + 71) as char
                        else if i < 62 then (i - 4) as char else if i == 62 then '+' else '/'
  {
    if i < 26 {
      assert TABLE[i] == UPPER[i];
    } else if i < 52 {
      assert TABLE[i] == LOWER[i - 26];
    } else if i < 62 {
      assert TABLE[i] == DIGITS[i - 52];
    }
  }

  lemma EntryOfIndex(c: char)
    requires Index(c).Some?
    ensures TABLE[Index(c).value] == c
  {
    TableEntry(Index(c).value);
  }

  lemma ByteOrder(x: bv8)
    ensures x < 64 <==> (x as int) < 64
  {
  }

  lemma IntThroughByte(i: nat)
    requires i < 64
    ensures (i as bv8) as int == i
  {
  }

  lemma SmallByte(i: nat)
    requires i < 64
    ensures (i as bv8) as int == i && i as bv8 < 64
  {
    IntThroughByte(i);
    ByteOrder(i as bv8);
  }

  lemma ByteThroughInt(x: bv8)
    ensures (x as int) as bv8 == x
  {
  }

  lemma ValueOfLetter(x: bv8)
    requires x < 64
    ensures Value(Letter(x)) == Some(x) && Letter(x) != PAD
  {
    TableEntry(x as int);
    ByteThroughInt(x);
  }

  lemma LetterOfValue(c: char)
    requires Value(c).Some?
    ensures Value(c).value < 64 && Letter(Value(c).value) == c && c != PAD
  {
    SmallByte(Index(c).value);
    EntryOfIndex(c);
  }

  lemma JoinOfSextets(g: bv24)
    ensures Join(Sextet(g, 0), Sextet(g, 1), Sextet(g, 2), Sextet(g, 3)) == g
  {
  }

  lemma SextetsOfJoin(w: bv8, x: bv8, y: bv8, z: bv8)
    requires w < 64 && x < 64 && y < 64 && z < 64
    ensures var g := Join(w, x, y, z);
            Sextet(g, 0) == w && Sextet(g, 1) == x && Sextet(g, 2) == y && Sextet(g, 3) == z
  {
  }

  lemma BytesOfGroup(a: bv8, b: bv8, c: bv8)
    ensures var g := Group(a, b, c); ByteOf(g, 0) == a && ByteOf(g, 1) == b && ByteOf(g, 2) == c
    ensures c == 0 ==> Sextet(Group(a, b, c), 3) == 0
    ensures b == 0 && c == 0 ==> Sextet(Group(a, b, c), 2) == 0
  {
  }

  lemma GroupOfBytes(g: bv24)
    ensures Group(ByteOf(g, 0), ByteOf(g, 1), ByteOf(g, 2)) == g
  {
  }

  /** The byte-wise masks and shifts of the code cut out exactly the sextets of the group. */
  lemma MasksAreSextets(a: bv8, b: bv8, c: bv8)
    ensures (a & 0xfc) >> 2 == Sextet(Group(a, b, c), 0)
    ensures ((a & 0x03) << 4) + ((b & 0xf0) >> 4) == Sextet(Group(a, b, c), 1)
    ensures ((b & 0x0f) << 2) + ((c & 0xc0) >> 6) == Sextet(Group(a, b, c), 2)
    ensures c & 0x3f == Sextet(Group(a, b, c), 3)
  {
  }

  // ---------------------------------------------------------------- main results

  lemma {:induction false} ByGroupsConcat(f: seq<bv8> -> string, x: seq<bv8>, y: seq<bv8>)
    requires |x| % 3 == 0
    ensures ByGroups(f, x + y) == ByGroups(f, x) + ByGroups(f, y)
  {
    if |x| == 0 || |y| == 0 {
      assert x + y == if |x| == 0 then y else x;
    } else {
      assert (x + y)[..3] == x[..3];
      assert (x + y)[3..] == x[3..] + y;
      ByGroupsConcat(f, x[3..], y);
      if |x| == 3 {
        assert x[..3] == x;
      }
    }
  }

  /** A whole number of groups can be encoded separately. */
  lemma EncodeConcat(x: seq<bv8>, y: seq<bv8>)
    requires |x| % 3 == 0
    ensures Encode(x + y) == Encode(x) + Encode(y)
  {
    ByGroupsConcat(EncodeGroup, x, y);
  }

  lemma {:induction false} EncodeLength(s: seq<bv8>)
    ensures |Encode(s)| == 4 * ((|s| + 2) / 3)
  {
    if |s| > 3 {
      EncodeLength(s[3..]);
    }
  }

  /** The padding of section 4: two signs after one odd byte, one after two. */
  function Signs(n: nat): string { if n % 3 == 1 then "==" else if n % 3 == 2 then "=" else "" }

  predicate EndsInSigns(t: string, n: nat) {
    var p := |Signs(n)|;
    |t| >= p && t[|t| - p..] == Signs(n) && forall k :: 0 <= k < |t| - p ==> t[k] != '='
  }

  lemma GroupPadding(s: seq<bv8>)
    requires 0 < |s| <= 3
    ensures EndsInSigns(EncodeGroup(s), |s|)
  {
    var g := Group(s[0], if |s| > 1 then s[1] else 0, if |s| > 2 then s[2] else 0);
    var l := Letters(g, |s| + 1);
    forall k | 0 <= k < |l| ensures l[k] != '=' {
      ValueOfLetter(Sextet(g, k));
    }
    assert EncodeGroup(s)[|s| + 1..] == Padding(3 - |s|);
    assert Padding(3 - |s|) == Signs(|s|);
  }

  /** An encoding ends in the signs for its length, and has no other. */
  lemma {:induction false} PaddingSigns(s: seq<bv8>)
    ensures EndsInSigns(Encode(s), |s|)
  {
    if 0 < |s| <= 3 {
      GroupPadding(s);
    } else if |s| > 3 {
      GroupPadding(s[..3]);
      PaddingSigns(s[3..]);
      assert Signs(|s|) == Signs(|s[3..]|);
    }
  }

  /** A whole group, by the places of its letters in the table. */
  lemma GroupIs(a: bv8, b: bv8, c: bv8, i: nat, j: nat, k: nat, l: nat)
    requires i < 64 && j < 64 && k < 64 && l < 64
    requires Sextet(Group(a, b, c), 0) as int == i && Sextet(Group(a, b, c), 1) as int == j
    requires Sextet(Group(a, b, c), 2) as int == k && Sextet(Group(a, b, c), 3) as int == l
    ensures Encode([a, b, c]) == [TABLE[i], TABLE[j], TABLE[k], TABLE[l]]
  {
  }

  /** Two bytes left over. */
  lemma PairIs(a: bv8, b: bv8, i: nat, j: nat, k: nat)
    requires i < 64 && j < 64 && k < 64
    requires Sextet(Group(a, b, 0), 0) as int == i && Sextet(Group(a, b, 0), 1) as int == j && Sextet(Group(a, b, 0), 2) as int == k
    ensures Encode([a, b]) == [TABLE[i], TABLE[j], TABLE[k], '=']
  {
  }

  lemma QuadOfLetters(g: bv24, t: string, pads: nat)
    requires pads <= 2 && t == Letters(g, 4 - pads) + Padding(pads)
    requires pads >= 1 ==> Sextet(g, 3) == 0
    requires pads == 2 ==> Sextet(g, 2) == 0
    ensures Quad(t, pads) == Some(g)
    ensures pads == if t[3] != PAD then 0 else if t[2] != PAD then 1 else 2
  {
    forall k | 0 <= k < 4 - pads
      ensures t[k] == Letter(Sextet(g, k)) && Value(t[k]) == Some(Sextet(g, k)) && t[k] != PAD
    {
      ValueOfLetter(Sextet(g, k));
    }
    JoinOfSextets(g);
  }

  lemma GroupRoundTrip(s: seq<bv8>)
    requires 1 <= |s| <= 3
    ensures DecodeGroup(EncodeGroup(s)) == Some(s)
  {
    var a, b, c := s[0], if |s| > 1 then s[1] else 0, if |s| > 2 then s[2] else 0;
    BytesOfGroup(a, b, c);
    QuadOfLetters(Group(a, b, c), EncodeGroup(s), 3 - |s|);
    assert s == if |s| == 1 then [a] else if |s| == 2 then [a, b] else [a, b, c];
  }

  lemma {:induction false} RoundTrip(s: seq<bv8>)
    ensures Decode(Encode(s)) == Some(s)
  {
    if |s| > 3 {
      GroupRoundTrip(s[..3]);
      RoundTrip(s[3..]);
      EncodeLength(s[3..]);
      assert Encode(s)[..4] == EncodeGroup(s[..3]);
      assert Encode(s)[4..] == Encode(s[3..]);
      assert s[..3] + s[3..] == s;
    } else if |s| > 0 {
      GroupRoundTrip(s);
    }
  }

  lemma LettersOfQuad(t: string, pads: nat)
    requires pads <= 2 && |t| == 4 && Quad(t, pads).Some?
    ensures t == Letters(Quad(t, pads).value, 4 - pads) + Padding(pads)
  {
    var w, x := Value(t[0]).value, Value(t[1]).value;
    var y := if pads == 2 then 0 else Value(t[2]).value;
    var z := if pads >= 1 then 0 else Value(t[3]).value;
    LetterOfValue(t[0]);
    LetterOfValue(t[1]);
    if pads < 2 {
      LetterOfValue(t[2]);
    }
    if pads < 1 {
      LetterOfValue(t[3]);
    }
    SextetsOfJoin(w, x, y, z);
    LettersAre(Join(w, x, y, z), t, 4 - pads);
  }

  lemma LettersAre(g: bv24, t: string, n: nat)
    requires n <= 4 && n <= |t|
    requires forall k :: 0 <= k < n ==> t[k] == Letter(Sextet(g, k))
    ensures t[..n] == Letters(g, n)
  {
  }

  lemma DecodeGroupIsExact(t: string)
    requires |t| == 4 && DecodeGroup(t).Some?
    ensures 1 <= |DecodeGroup(t).value| <= 3 && EncodeGroup(DecodeGroup(t).value) == t
  {
    var pads := if t[3] != PAD then 0 else if t[2] != PAD then 1 else 2;
    LettersOfQuad(t, pads);
    GroupOfBytes(Quad(t, pads).value);
  }

  /** The decoder accepts nothing but encodings, so encodings and accepted texts correspond one to one. */
  lemma {:induction false} DecodeIsExact(t: string)
    requires Decode(t).Some?
    ensures Encode(Decode(t).value) == t
  {
    if |t| == 4 {
      DecodeGroupIsExact(t);
    } else if |t| > 4 {
      DecodeGroupIsExact(t[..4]);
      DecodeIsExact(t[4..]);
      var first, rest := DecodeGroup(t[..4]).value, Decode(t[4..]).value;
      EncodeConcat(first, rest);
      assert t[..4] + t[4..] == t;
    }
  }

  lemma EncodeInjective(x: seq<bv8>, y: seq<bv8>)
    requires Encode(x) == Encode(y)
    ensures x == y
  {
    RoundTrip(x);
    RoundTrip(y);
  }

  // ---------------------------------------------------------------- the code

  /** Fills the first n entries of the letter buffer from the byte buffer (lines 18-21, and 28-30 for the tail). */
  method SplitGroup(three: array<bv8>, four: array<bv8>, n: nat)
    requires three.Length == 3 && four.Length == 4 && 3 <= n <= 4 && three != four
    modifies four
    ensures var g := Group(three[0], three[1], three[2]);
            four[0] == Sextet(g, 0) && four[1] == Sextet(g, 1) && four[2] == Sextet(g, 2) &&
            (n == 4 ==> four[3] == Sextet(g, 3))
  {
    var a, b, c := three[0], three[1], three[2];
    var w := (a & 0xfc) >> 2;
    var x := ((a & 0x03) << 4) + ((b & 0xf0) >> 4);
    var y := ((b & 0x0f) << 2) + ((c & 0xc0) >> 6);
    var z := c & 0x3f;
    MasksAreSextets(a, b, c);
    four[0], four[1], four[2] := w, x, y;
    if n == 4 {
      four[3] := z;
    }
  }

  /** Appends the table entries of the first n buffered sextets (lines 22 and 31). */
  method AppendLetters(ret: string, four: array<bv8>, n: nat, ghost g: bv24) returns (out: string)
    requires n <= four.Length == 4
    requires forall k :: 0 <= k < n ==> four[k] == Sextet(g, k)
    ensures out == ret + Letters(g, n)
  {
    out := ret;
    for j := 0 to n
      invariant out == ret + Letters(g, j)
    {
      out := out + [Letter(four[j])];
    }
  }

  /** The bytes left over after the last whole group (lines 27-32). */
  method EncodeTail(ret: string, three: array<bv8>, four: array<bv8>, n: nat)
    returns (out: string)
    requires three.Length == 3 && four.Length == 4 && three != four
    requires 1 <= n < 3
    modifies three, four
    ensures out == ret + EncodeGroup(old(three[..n]))
  {
    ghost var last := three[..n];
    var i, j := n, n;
    while j < 3
      invariant n <= j <= 3
      invariant three[..n] == last
      invariant forall k :: n <= k < j ==> three[k] == 0
    {
      three[j] := 0;
      j := j + 1;
    }
    ghost var g := Group(three[0], three[1], three[2]);
    assert three[0] == last[0] && (n == 2 ==> three[1] == last[1]);
    SplitGroup(three, four, 3);
    out := AppendLetters(ret, four, i + 1, g);
    ghost var unpadded := out;
    while i < 3
      invariant n <= i <= 3
      invariant out == unpadded + Padding(i - n)
    {
      i := i + 1;
      out := out + [PAD];
    }
    assert EncodeGroup(last) == Letters(g, n + 1) + Padding(3 - n);
  }

  /** A full byte buffer becomes four letters (lines 18-22). */
  method EncodeWhole(ret: string, three: array<bv8>, four: array<bv8>) returns (out: string)
    requires three.Length == 3 && four.Length == 4 && three != four
    modifies four
    ensures out == ret + EncodeGroup(three[..])
  {
    SplitGroup(three, four, 4);
    out := AppendLetters(ret, four, 4, Group(three[0], three[1], three[2]));
  }

  lemma SplitLast(f: seq<bv8> -> string, buf: seq<bv8>, n: nat)
    requires n % 3 == 0 && n < |buf| <= n + 3
    ensures ByGroups(f, buf) == ByGroups(f, buf[..n]) + f(buf[n..])
  {
    ByGroupsConcat(f, buf[..n], buf[n..]);
    assert buf[..n] + buf[n..] == buf;
  }

  /** The accumulator's state once `read` has been consumed: its last i bytes are buffered, the rest encoded. */
  ghost predicate Accumulated(f: seq<bv8> -> string, read: seq<bv8>, ret: string, three: seq<bv8>, i: nat) {
    && |three| == 3 && i == |read| % 3
    && ret == ByGroups(f, read[..|read| - i])
    && three[..i] == read[|read| - i..]
  }

  lemma StartEmpty(f: seq<bv8> -> string, three: seq<bv8>)
    requires |three| == 3
    ensures Accumulated(f, [], "", three, 0)
  {
  }

  lemma BufferByte(f: seq<bv8> -> string, read: seq<bv8>, b: bv8, ret: string, three: seq<bv8>, i: nat)
    requires Accumulated(f, read, ret, three, i)
    ensures i < 2 ==> Accumulated(f, read + [b], ret, three[i := b], i + 1)
    ensures i == 2 ==> Accumulated(f, read + [b], ret + f(three[i := b]), three[i := b], 0)
  {
    var all, n := read + [b], |read| - i;
    assert all[..n] == read[..n];
    assert all[n..] == read[n..] + [b] == three[i := b][..i + 1];
    if i == 2 {
      SplitLast(f, all, n);
      assert all[..|all|] == all;
      assert three[i := b][..3] == three[i := b];
    }
  }

  lemma Finish(f: seq<bv8> -> string, buf: seq<bv8>, ret: string, three: seq<bv8>, i: nat)
    requires Accumulated(f, buf, ret, three, i)
    ensures i < 3 == |three| && ByGroups(f, buf) == if i == 0 then ret else ret + f(three[..i])
  {
    var n := |buf| - i;
    WholeGroups(|buf|, i);
    if i == 0 {
      assert buf[..n] == buf;
    } else {
      SplitLast(f, buf, n);
      assert ret == ByGroups(f, buf[..n]) && three[..i] == buf[n..];
    }
  }

  lemma WholeGroups(n: nat, i: nat)
    requires i == n % 3
    ensures i < 3 && i <= n && (n - i) % 3 == 0
  {
  }

  /** A name for EncodeGroup that the loop can use without looking inside it. */
  ghost predicate EncodesGroups(f: seq<bv8> -> string) {
    forall s {:trigger EncodeGroup(s)} :: f(s) == EncodeGroup(s)
  }

  /** Likewise for Accumulated: what has been read, the output, the buffer, and how much of it is filled. */
  type Accumulator = (seq<bv8>, string, seq<bv8>, nat) -> bool

  ghost predicate Accumulates(acc: Accumulator, f: seq<bv8> -> string) {
    forall read, ret, three, i {:trigger Accumulated(f, read, ret, three, i)} ::
      acc(read, ret, three, i) == Accumulated(f, read, ret, three, i)
  }

  /** One turn of the loop (lines 16-24): buffer a byte, and empty the buffer when it is full. */
  method PushByte(ret: string, three: array<bv8>, four: array<bv8>, i: nat, b: bv8, ghost read: seq<bv8>,
                  ghost f: seq<bv8> -> string, ghost acc: Accumulator)
    returns (out: string, next: nat)
    requires three.Length == 3 && four.Length == 4 && three != four
    requires EncodesGroups(f) && Accumulates(acc, f) && acc(read, ret, three[..], i)
    modifies three, four
    ensures acc(read + [b], out, three[..], next)
  {
    assert Accumulated(f, read, ret, three[..], i);
    BufferByte(f, read, b, ret, three[..], i);
    ghost var filled := three[..][i := b];
    three[i] := b;
    assert three[..] == filled;
    out, next := ret, i + 1;
    if next == 3 {
      out := EncodeWhole(ret, three, four);
      next := 0;
    }
    assert Accumulated(f, read + [b], out, three[..], next);
  }

  method Base64Encode(buf: seq<bv8>) returns (ret: string)
    ensures ret == Encode(buf)
  {
    ret := EncodeBytes(buf, EncodeGroup);
  }

  method EncodeBytes(buf: seq<bv8>, ghost f: seq<bv8> -> string) returns (ret: string)
    requires EncodesGroups(f)
    ensures ret == ByGroups(f, buf)
  {
    var three := new bv8[3];
    var four := new bv8[4];
    var i: nat;
    ghost var acc: Accumulator := (read: seq<bv8>, ret: string, three: seq<bv8>, i: nat) => Accumulated(f, read, ret, three, i);
    ret, i := ReadBytes(buf, three, four, f, acc);
    Finish(f, buf, ret, three[..], i);
    if i != 0 {
      ret := EncodeTail(ret, three, four, i);
    }
  }

  /** The loop of lines 15-25. */
  method ReadBytes(buf: seq<bv8>, three: array<bv8>, four: array<bv8>, ghost f: seq<bv8> -> string, ghost acc: Accumulator)
    returns (ret: string, i: nat)
    requires three.Length == 3 && four.Length == 4 && three != four && EncodesGroups(f) && Accumulates(acc, f)
    modifies three, four
    ensures acc(buf, ret, three[..], i)
  {
    ret, i := "", 0;
    var bufLen := |buf|;
    ghost var read := [];
    StartEmpty(f, three[..]);
    while bufLen != 0
      invariant 0 <= bufLen <= |buf| && read == buf[..|buf| - bufLen]
      invariant acc(read, ret, three[..], i)
    {
      bufLen := bufLen - 1;
      ret, i := PushByte(ret, three, four, i, buf[|buf| - bufLen - 1], read, f, acc);
      read := read + [buf[|buf| - bufLen - 1]];
    }
    assert read == buf;
  }

  lemma {:induction false} DecodedText(t: string, k: nat)
    requires Decode(t).Some? && k < |t|
    ensures Index(t[k]).Some? || t[k] == '='
    decreases |t|
  {
    if k < 4 {
      DecodedGroup(t[..4], k);
    } else {
      DecodedText(t[4..], k - 4);
    }
  }

  lemma DecodedGroup(t: string, k: nat)
    requires |t| == 4 && DecodeGroup(t).Some? && k < 4
    ensures Index(t[k]).Some? || t[k] == '='
  {
  }

  /** Encoded text has letters, digits, two more signs and the padding, and nothing else. */
  lemma EncodedText(s: seq<bv8>, k: nat)
    requires k < |Encode(s)|
    ensures Index(Encode(s)[k]).Some? || Encode(s)[k] == '='
  {
    RoundTrip(s);
    DecodedText(Encode(s), k);
  }
}
