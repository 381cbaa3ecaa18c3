// The accept key of the opening handshake: SHA-1 of the client's key and the fixed GUID, in base64
// (section 4.2.2 of RFC 6455).
module Handshake {
  import opened Wrappers
  import Base64
  import Sha1
  import Sha1Vectors

  const GUID: string := ("258E" + "AFA5") + (("-E91" + "4-47") + ("DA-9" + "5CA-")) + (("C5AB" + "0DC8") + "5B11")

  function ByteOf(c: char): bv8 { (c as int % 256) as bv8 }

  function Bytes(s: string): seq<bv8> {
    seq(|s|, i requires 0 <= i < |s| => ByteOf(s[i]))
  }

  function Chars(b: seq<bv8>): string { seq(|b|, i requires 0 <= i < |b| => (b[i] as int) as char) }

  function Hashed(key: string): seq<bv8> { Sha1.Digest(Bytes(key + GUID)) }

  function AcceptKey(key: string): string { Base64.Encode(Hashed(key)) }

  /** Lines 50-53. */
  method ComputeAcceptKey(key: string) returns (accept: string)
    ensures accept == AcceptKey(key)
  {
    var magic := key + GUID;
    var hash := Sha1.Sha1(Bytes(magic));
    accept := Base64.Base64Encode(hash);
  }

  lemma TwentyBytes(d: seq<bv8>)
    requires |d| == 20
    ensures |Base64.Encode(d)| == 28 && Base64.Decode(Base64.Encode(d)) == Some(d)
  {
    Base64.EncodeLength(d);
    assert 4 * ((20 + 2) / 3) == 28;
    Base64.RoundTrip(d);
  }

  /** A digest of twenty bytes always takes 28 characters, and a client can read the digest back. */
  lemma AcceptKeyCarriesDigest(key: string)
    ensures |AcceptKey(key)| == 28
    ensures Base64.Decode(AcceptKey(key)) == Some(Sha1.Digest(Bytes(key + GUID)))
  {
    TwentyBytes(Sha1.Digest(Bytes(key + GUID)));
  }

  /** Two handshakes are answered alike exactly when the digests agree. */
  lemma AcceptKeyInjective(x: string, y: string)
    ensures AcceptKey(x) == AcceptKey(y) <==>
            Sha1.Digest(Bytes(x + GUID)) == Sha1.Digest(Bytes(y + GUID))
  {
    AcceptKeyCarriesDigest(x);
    AcceptKeyCarriesDigest(y);
  }

  /** Every accept key ends in one padding sign and has no other. */
  lemma AcceptKeyPadding(key: string)
    ensures |AcceptKey(key)| == 28 && AcceptKey(key)[27] == '=' && forall k :: 0 <= k < 27 ==> AcceptKey(key)[k] != '='
  {
    AcceptKeyCarriesDigest(key);
    Base64.PaddingSigns(Sha1.Digest(Bytes(key + GUID)));
  }

  // ---------------------------------------------------------------- the example of section 1.3 of RFC 6455

  const SAMPLE: string := ("dGhl" + "IHNh") + ("bXBs" + "ZSBu") + ("b25j" + "ZQ==")

  lemma ByteOfChar(b: bv8)
    ensures ByteOf((b as int) as char) == b
  {
    assert b as int % 256 == b as int;
  }

  lemma BytesOfChars(b: seq<bv8>)
    ensures Bytes(Chars(b)) == b
  {
    forall i | 0 <= i < |b| ensures Bytes(Chars(b))[i] == b[i] {
      ByteOfChar(b[i]);
    }
  }

  lemma CharsConcat(x: seq<bv8>, y: seq<bv8>)
    ensures Chars(x + y) == Chars(x) + Chars(y)
  {
  }

  lemma SampleRow0()
    ensures Chars(Sha1Vectors.KEY_R0) == ("dGhl" + "IHNh") + ("bXBs" + "ZSBu")
  {
  }

  lemma SampleRow1()
    ensures Chars(Sha1Vectors.KEY_R1) == ("b25j" + "ZQ==") + ("258E" + "AFA5")
  {
  }

  lemma SampleRow2()
    ensures Chars(Sha1Vectors.KEY_R2) == ("-E91" + "4-47") + ("DA-9" + "5CA-")
  {
  }

  lemma SampleTail()
    ensures Chars(Sha1Vectors.KEY_TAIL) == ("C5AB" + "0DC8") + "5B11"
  {
  }

  lemma SampleBytes()
    ensures Bytes(SAMPLE + GUID) == Sha1Vectors.KEY
  {
    var r0, r1, r2, tail := Sha1Vectors.KEY_R0, Sha1Vectors.KEY_R1, Sha1Vectors.KEY_R2, Sha1Vectors.KEY_TAIL;
    SampleRow0();
    SampleRow1();
    SampleRow2();
    SampleTail();
    CharsConcat(r0, r1);
    CharsConcat(r0 + r1, r2);
    CharsConcat(r0 + r1 + r2, tail);
    Regroup(Chars(r0), "b25j" + "ZQ==", "258E" + "AFA5", Chars(r2), Chars(tail));
    BytesOfChars(Sha1Vectors.KEY);
  }

  lemma Regroup(p: string, q: string, r: string, s: string, t: string)
    ensures (p + q) + (r + s + t) == p + (q + r) + s + t
  {
  }

  lemma Concat(x: seq<bv8>, y: seq<bv8>, tx: string, ty: string)
    requires |x| % 3 == 0 && Base64.Encode(x) == tx && Base64.Encode(y) == ty
    ensures Base64.Encode(x + y) == tx + ty
  {
    Base64.EncodeConcat(x, y);
  }

  lemma SampleGroup0()
    ensures Base64.Encode([0xb3, 0x7a, 0x4f]) == "s3pP"
  {
    Base64.TableEntry(15);
    Base64.TableEntry(41);
    Base64.TableEntry(44);
    Base64.TableEntry(55);
    Base64.GroupIs(0xb3, 0x7a, 0x4f, 44, 55, 41, 15);
  }

  lemma SampleGroup1()
    ensures Base64.Encode([0x2c, 0xc0, 0x62]) == "LMBi"
  {
    Base64.TableEntry(1);
    Base64.TableEntry(11);
    Base64.TableEntry(12);
    Base64.TableEntry(34);
    Base64.GroupIs(0x2c, 0xc0, 0x62, 11, 12, 1, 34);
  }

  lemma SampleGroup2()
    ensures Base64.Encode([0x4f, 0x16, 0x90]) == "TxaQ"
  {
    Base64.TableEntry(16);
    Base64.TableEntry(19);
    Base64.TableEntry(26);
    Base64.TableEntry(49);
    Base64.GroupIs(0x4f, 0x16, 0x90, 19, 49, 26, 16);
  }

  lemma SampleGroup3()
    ensures Base64.Encode([0xf6, 0x46, 0x06]) == "9kYG"
  {
    Base64.TableEntry(6);
    Base64.TableEntry(24);
    Base64.TableEntry(36);
    Base64.TableEntry(61);
    Base64.GroupIs(0xf6, 0x46, 0x06, 61, 36, 24, 6);
  }

  lemma SampleGroup4()
    ensures Base64.Encode([0xcf, 0x38, 0x59]) == "zzhZ"
  {
    Base64.TableEntry(25);
    Base64.TableEntry(33);
    Base64.TableEntry(51);
    Base64.GroupIs(0xcf, 0x38, 0x59, 51, 51, 33, 25);
  }

  lemma SampleGroup5()
    ensures Base64.Encode([0x45, 0xb2, 0xbe]) == "RbK+"
  {
    Base64.TableEntry(10);
    Base64.TableEntry(17);
    Base64.TableEntry(27);
    Base64.TableEntry(62);
    Base64.GroupIs(0x45, 0xb2, 0xbe, 17, 27, 10, 62);
  }

  lemma SampleGroup6()
    ensures Base64.Encode([0xc4, 0xea]) == "xOo="
  {
    Base64.TableEntry(14);
    Base64.TableEntry(40);
    Base64.TableEntry(49);
    Base64.PairIs(0xc4, 0xea, 49, 14, 40);
  }

  lemma SampleSix0()
    ensures Base64.Encode([0xb3, 0x7a, 0x4f, 0x2c, 0xc0, 0x62]) == "s3pP" + "LMBi"
  {
    SampleGroup0();
    SampleGroup1();
    Concat([0xb3, 0x7a, 0x4f], [0x2c, 0xc0, 0x62], "s3pP", "LMBi");
    assert [0xb3, 0x7a, 0x4f, 0x2c, 0xc0, 0x62] == [0xb3, 0x7a, 0x4f] + [0x2c, 0xc0, 0x62];
  }

  lemma SampleSix1()
    ensures Base64.Encode([0x4f, 0x16, 0x90, 0xf6, 0x46, 0x06]) == "TxaQ" + "9kYG"
  {
    SampleGroup2();
    SampleGroup3();
    Concat([0x4f, 0x16, 0x90], [0xf6, 0x46, 0x06], "TxaQ", "9kYG");
    assert [0x4f, 0x16, 0x90, 0xf6, 0x46, 0x06] == [0x4f, 0x16, 0x90] + [0xf6, 0x46, 0x06];
  }

  lemma SampleSix2()
    ensures Base64.Encode([0xcf, 0x38, 0x59, 0x45, 0xb2, 0xbe]) == "zzhZ" + "RbK+"
  {
    SampleGroup4();
    SampleGroup5();
    Concat([0xcf, 0x38, 0x59], [0x45, 0xb2, 0xbe], "zzhZ", "RbK+");
    assert [0xcf, 0x38, 0x59, 0x45, 0xb2, 0xbe] == [0xcf, 0x38, 0x59] + [0x45, 0xb2, 0xbe];
  }

  lemma FourParts(x: seq<bv8>, y: seq<bv8>, z: seq<bv8>, w: seq<bv8>, tx: string, ty: string, tz: string, tw: string)
    requires |x| == |y| == |z| == 6
    requires Base64.Encode(x) == tx && Base64.Encode(y) == ty && Base64.Encode(z) == tz && Base64.Encode(w) == tw
    ensures Base64.Encode(x + y + z + w) == tx + ty + tz + tw
  {
    Concat(x, y, tx, ty);
    Concat(x + y, z, tx + ty, tz);
    Concat(x + y + z, w, tx + ty + tz, tw);
  }

  const ANSWER: string := ("s3pP" + "LMBi") + ("TxaQ" + "9kYG") + ("zzhZ" + "RbK+") + "xOo="

  lemma SampleText()
    ensures Base64.Encode([0xb3, 0x7a, 0x4f, 0x2c, 0xc0, 0x62] + [0x4f, 0x16, 0x90, 0xf6, 0x46, 0x06]
                          + [0xcf, 0x38, 0x59, 0x45, 0xb2, 0xbe] + [0xc4, 0xea]) == ANSWER
  {
    SampleSix0();
    SampleSix1();
    SampleSix2();
    SampleGroup6();
    FourParts([0xb3, 0x7a, 0x4f, 0x2c, 0xc0, 0x62], [0x4f, 0x16, 0x90, 0xf6, 0x46, 0x06],
      [0xcf, 0x38, 0x59, 0x45, 0xb2, 0xbe], [0xc4, 0xea],
      "s3pP" + "LMBi", "TxaQ" + "9kYG", "zzhZ" + "RbK+", "xOo=");
  }

  lemma SampleDigest()
    ensures Sha1.Digest(Sha1Vectors.KEY) == [0xb3, 0x7a, 0x4f, 0x2c, 0xc0, 0x62] + [0x4f, 0x16, 0x90, 0xf6, 0x46, 0x06]
                                            + [0xcf, 0x38, 0x59, 0x45, 0xb2, 0xbe] + [0xc4, 0xea]
  {
    Sha1Vectors.KeyDigest();
  }

  /** The key "dGhlIHNhbXBsZSBub25jZQ==" is answered "s3pPLMBiTxaQ9kYGzzhZRbK+xOo=". */
  lemma SampleKeyIsAnswered()
    ensures AcceptKey(SAMPLE) == ANSWER
  {
    SampleBytes();
    SampleDigest();
    SampleText();
  }
}
