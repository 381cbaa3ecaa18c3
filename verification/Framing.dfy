// WebSocket framing, sections 5.2 and 5.3 of RFC 6455: the frame broadcastMessage builds, the
// masked frame a browser sends, and the unmasking and "/rollback " rule of handleClient.
module Framing {
  import opened Wrappers

  type Byte = bv8

  const BUFFER: nat := 4096
  const TEXT: Byte := 0x81  // FIN and the text opcode

  // ---------------------------------------------------------------- bytes and numbers

  lemma ByteAsInt(n: nat)
    requires n < 256
    ensures (n as Byte) as int == n
  {
    assert n % 256 == n;
  }

  lemma LowBits(b: Byte)
    ensures (b & 0x80 != 0) <==> b as int >= 128
    ensures (b & 0x7f) as int == b as int % 128
  {
  }

  lemma HighBit(b: Byte)
    requires b < 128
    ensures (0x80 | b) & 0x7f == b
  {
  }

  /** A number in k bytes, most significant first. */
  function BigEndian(n: nat, k: nat): (s: seq<Byte>)
    ensures |s| == k
  {
    if k == 0 then [] else BigEndian(n / 256, k - 1) + [(n % 256) as Byte]
  }

  function ValueOf(s: seq<Byte>): nat {
    if |s| == 0 then 0 else 256 * ValueOf(s[..|s| - 1]) + s[|s| - 1] as int
  }

  /** How many numbers k bytes hold. */
  function Range(k: nat): nat {
    if k == 0 then 1 else 256 * Range(k - 1)
  }

  lemma {:induction false} BigEndianValue(n: nat, k: nat)
    requires n < Range(k)
    ensures ValueOf(BigEndian(n, k)) == n
  {
    if k > 0 {
      BigEndianValue(n / 256, k - 1);
      ByteAsInt(n % 256);
      assert BigEndian(n, k)[..k - 1] == BigEndian(n / 256, k - 1);
    }
  }

  // ---------------------------------------------------------------- server to client

  /** The frame of lines 19-25: the length goes into one byte whatever it is. */
  function Frame(m: seq<Byte>): seq<Byte> {
    [TEXT, (|m| % 256) as Byte] + m
  }

  lemma LowBitsOfText(b: Byte)
    requires b == TEXT
    ensures b & 0x80 != 0 && b & 0x70 == 0 && b & 0x0f == 1
  {
  }

  /**
   * Section 5.2: every broadcast is one final text frame, without reserved bits. Its second byte is the
   * length up to 255 bytes, which stays clear of the mask bit and the extended forms up to 125.
   */
  lemma FrameIsText(m: seq<Byte>)
    ensures var f := Frame(m);
            |f| == 2 + |m| && f[0] & 0x80 != 0 && f[0] & 0x70 == 0 && f[0] & 0x0f == 1 && f[2..] == m &&
            (f[1] as int == |m| <==> |m| <= 255) && (f[1] as int == |m| <= 125 <==> |m| <= 125)
  {
    LowBitsOfText(TEXT);
    ByteAsInt(|m| % 256);
  }

  datatype Parsed = Parsed(payload: seq<Byte>, rest: seq<Byte>)

  /** The payload of n bytes starting at `at`, if it has arrived. */
  function TakePayload(s: seq<Byte>, at: nat, n: nat): Option<Parsed> {
    if at + n <= |s| then Some(Parsed(s[at..at + n], s[at + n..])) else None
  }

  /** Section 5.2 for a client that expects a final text frame; a masked frame is refused (section 5.1). */
  function ParseServerFrame(s: seq<Byte>): Option<Parsed> {
    if |s| < 2 || s[0] != TEXT || s[1] & 0x80 != 0 then None
    else
      var n := (s[1] & 0x7f) as int;
      if n <= 125 then TakePayload(s, 2, n)
      else if n == 126 then (if |s| < 4 then None else TakePayload(s, 4, ValueOf(s[2..4])))
      else if |s| < 10 then None else TakePayload(s, 10, ValueOf(s[2..10]))
  }

  /** A frame of at most 125 bytes is read back exactly, whatever follows it on the stream. */
  lemma ShortFrameParses(m: seq<Byte>, rest: seq<Byte>)
    requires |m| <= 125
    ensures ParseServerFrame(Frame(m) + rest) == Some(Parsed(m, rest))
  {
    var s := Frame(m) + rest;
    ByteAsInt(|m|);
    LowBits(s[1]);
    assert s[2..2 + |m|] == m && s[2 + |m|..] == rest;
  }

  lemma TwoByteValue(s: seq<Byte>)
    requires |s| == 2
    ensures ValueOf(s) == 256 * s[0] as int + s[1] as int
  {
    assert ValueOf(s[..1]) == 256 * ValueOf(s[..1][..0]) + s[..1][0] as int;
  }

  /** What the client would read of a message whose length is sent in the extended form of 16 bits. */
  lemma ExtendedFrameParses(hi: Byte, lo: Byte, m: seq<Byte>, rest: seq<Byte>)
    requires |m| == 256 * hi as int + lo as int
    ensures ParseServerFrame([0x81, 0x7e, hi, lo] + m + rest) == Some(Parsed(m, rest))
  {
    var s := [0x81, 0x7e, hi, lo] + m + rest;
    assert s[2..4] == [hi, lo];
    TwoByteValue(s[2..4]);
    assert s[4..4 + |m|] == m && s[4 + |m|..] == rest;
  }

  /** Likewise in the form of 64 bits. */
  lemma LongestFrameParses(length: seq<Byte>, m: seq<Byte>, rest: seq<Byte>)
    requires |length| == 8 && ValueOf(length) == |m|
    ensures ParseServerFrame([0x81, 0x7f] + length + m + rest) == Some(Parsed(m, rest))
  {
    var s := [0x81, 0x7f] + length + m + rest;
    LowBits(s[1]);
    assert s[2..10] == length;
    assert s[10..10 + |m|] == m && s[10 + |m|..] == rest;
  }

  /** A message of 128 to 255 bytes sets the mask bit, and the client refuses its frame whatever follows. */
  lemma MaskBitIsRefused(m: seq<Byte>, rest: seq<Byte>)
    requires 128 <= |m| <= 255
    ensures ParseServerFrame(Frame(m) + rest) == None
  {
    var s := Frame(m) + rest;
    ByteAsInt(|m|);
    LowBits(s[1]);
  }

  lemma LongFrameIsMisread(m: seq<Byte>)
    requires 125 < |m|
    ensures ParseServerFrame(Frame(m)).Some? ==> |ParseServerFrame(Frame(m)).value.payload| < |m|
  {
    var s := Frame(m);
    var n := |m| % 256;
    ByteAsInt(n);
    LowBits(s[1]);
  }

  /** A browser recovers a broadcast message exactly when it has at most 125 bytes. */
  lemma BroadcastIsReadable(m: seq<Byte>)
    ensures (exists rest :: ParseServerFrame(Frame(m)) == Some(Parsed(m, rest))) <==> |m| <= 125
  {
    if |m| <= 125 {
      ShortFrameParses(m, []);
      assert Frame(m) + [] == Frame(m);
    } else {
      LongFrameIsMisread(m);
    }
  }

  function FrameAll(ms: seq<seq<Byte>>): seq<Byte> {
    if |ms| == 0 then [] else Frame(ms[0]) + FrameAll(ms[1..])
  }

  function ParseStream(s: seq<Byte>): Option<seq<seq<Byte>>>
    decreases |s|
  {
    if |s| == 0 then Some([])
    else
      var p := ParseServerFrame(s);
      if p.None? || |p.value.rest| >= |s| then None
      else
        var tail := ParseStream(p.value.rest);
        if tail.None? then None else Some([p.value.payload] + tail.value)
  }

  /** A stream of short broadcasts is read back as the same messages in the same order. */
  lemma {:induction false} StreamIsReadable(ms: seq<seq<Byte>>)
    requires AllShort(ms)
    ensures ParseStream(FrameAll(ms)) == Some(ms)
  {
    if |ms| > 0 {
      ShortFrameParses(ms[0], FrameAll(ms[1..]));
      StreamIsReadable(ms[1..]);
      assert [ms[0]] + ms[1..] == ms;
    }
  }

  predicate AllShort(ms: seq<seq<Byte>>) {
    forall m <- ms :: |m| <= 125
  }

  /** The bytes of messages framed with the two-byte header. */
  function Size(ms: seq<seq<Byte>>): nat {
    if |ms| == 0 then 0 else 2 + |ms[0]| + Size(ms[1..])
  }

  lemma {:induction false} FramesSize(ms: seq<seq<Byte>>)
    ensures |FrameAll(ms)| == Size(ms)
  {
    if |ms| > 0 {
      FramesSize(ms[1..]);
    }
  }

  /** A parsed payload took up its length and a header, and a longer header if it is long. */
  lemma ParsedSize(s: seq<Byte>)
    requires ParseServerFrame(s).Some?
    ensures var p := ParseServerFrame(s).value;
            |s| >= 2 + |p.payload| + |p.rest| && (|p.payload| > 125 ==> |s| > 2 + |p.payload| + |p.rest|)
  {
  }

  lemma {:induction false} StreamSize(s: seq<Byte>)
    requires ParseStream(s).Some?
    ensures var ms := ParseStream(s).value; |s| >= Size(ms) && (!AllShort(ms) ==> |s| > Size(ms))
    decreases |s|
  {
    if |s| > 0 {
      ParsedSize(s);
      var p := ParseServerFrame(s).value;
      StreamSize(p.rest);
      var tail := ParseStream(p.rest).value;
      assert ([p.payload] + tail)[1..] == tail;
    }
  }

  /** A stream of broadcasts is read back as the same messages exactly when all of them are short. */
  lemma StreamIsReadableExactlyWhen(ms: seq<seq<Byte>>)
    ensures ParseStream(FrameAll(ms)) == Some(ms) <==> AllShort(ms)
  {
    if AllShort(ms) {
      StreamIsReadable(ms);
    } else if ParseStream(FrameAll(ms)) == Some(ms) {
      StreamSize(FrameAll(ms));
      FramesSize(ms);
      assert false;
    }
  }

  /** Lines 19-25; a message that does not fit the buffer is outside what the code is written for. */
  method BuildFrame(message: seq<Byte>) returns (bytes: seq<Byte>)
    requires |message| + 2 <= BUFFER
    ensures bytes == Frame(message)
  {
    var frame := new Byte[BUFFER];
    frame[0] := TEXT;
    frame[1] := (|message| % 256) as Byte;
    for i := 0 to |message|
      invariant frame[..2 + i] == [TEXT, (|message| % 256) as Byte] + message[..i]
    {
      frame[2 + i] := message[i];
    }
    bytes := frame[..2 + |message|];
  }

  // ---------------------------------------------------------------- client to server

  type Key = k: seq<Byte> | |k| == 4 witness [0, 0, 0, 0]

  /** Section 5.3; masking and unmasking are the same operation. */
  function Mask(s: seq<Byte>, key: Key): (r: seq<Byte>)
    ensures |r| == |s|
  {
    seq(|s|, i requires 0 <= i < |s| => s[i] ^ key[i % 4])
  }

  /** The length field of a masked frame: 7 bits, or 126 and 16 bits, or 127 and 64 bits. */
  function MaskedLength(n: nat): seq<Byte> {
    if n <= 125 then [0x80 | n as Byte]
    else if n < 0x1_0000 then [0xfe] + BigEndian(n, 2)
    else [0xff] + BigEndian(n, 8)
  }

  /** The field has the mask bit, and tells the length in all three forms. */
  lemma MaskedLengthTells(n: nat)
    requires n < 0x1_0000_0000_0000_0000
    ensures var f := MaskedLength(n);
            (n <= 125 ==> |f| == 1 && f[0] as int == 128 + n) &&
            (125 < n < 0x1_0000 ==> |f| == 3 && f[0] == 0xfe && ValueOf(f[1..]) == n) &&
            (0x1_0000 <= n ==> |f| == 9 && f[0] == 0xff && ValueOf(f[1..]) == n)
  {
    if n <= 125 {
      ByteAsInt(n);
      SetMaskBit(n as Byte);
    } else if n < 0x1_0000 {
      assert Range(2) == 0x1_0000;
      BigEndianValue(n, 2);
      assert MaskedLength(n)[1..] == BigEndian(n, 2);
    } else {
      RangeOfEight();
      BigEndianValue(n, 8);
      assert MaskedLength(n)[1..] == BigEndian(n, 8);
    }
  }

  lemma RangeOfEight()
    ensures Range(8) == 0x1_0000_0000_0000_0000
  {
    assert Range(4) == 0x1_0000_0000;
  }

  lemma SetMaskBit(b: Byte)
    requires b as int <= 125
    ensures (0x80 | b) as int == 128 + b as int
  {
    LowBits(0x80 | b);
    ByteOrder(b);
    HighBit(b);
    MaskBitSet(b);
  }

  lemma MaskBitSet(b: Byte)
    ensures (0x80 | b) & 0x80 != 0
  {
  }

  function ClientFrame(payload: seq<Byte>, key: Key): seq<Byte> {
    [TEXT] + MaskedLength(|payload|) + key + Mask(payload, key)
  }

  /** One recv into the zeroed buffer. */
  function Received(frame: seq<Byte>): (b: seq<Byte>)
    ensures |b| == BUFFER
  {
    if |frame| <= BUFFER then frame + seq(BUFFER - |frame|, _ => 0) else frame[..BUFFER]
  }

  /** The buffer holds 4096 bytes: the frame, as far as it goes, and zeros after it. */
  lemma ReceivedIs(frame: seq<Byte>, i: nat)
    requires i < 4096
    ensures |Received(frame)| == 4096 && Received(frame)[i] == if i < |frame| then frame[i] else 0
  {
  }

  /** Lines 95-105: the length byte is taken as it stands and the key is read right after it. */
  function Unmasked(buf: seq<Byte>): seq<Byte>
    requires |buf| == BUFFER
  {
    LowBits(buf[1]);
    Mask(buf[6..6 + (buf[1] & 0x7f) as int], buf[2..6])
  }

  lemma MaskTwice(s: seq<Byte>, key: Key)
    ensures Mask(Mask(s, key), key) == s
  {
    forall i | 0 <= i < |s| ensures Mask(Mask(s, key), key)[i] == s[i] {
      XorTwice(s[i], key[i % 4]);
    }
  }

  lemma XorTwice(x: Byte, k: Byte)
    ensures (x ^ k) ^ k == x
  {
  }

  lemma ShortFrameUnmasks(payload: seq<Byte>, key: Key)
    requires |payload| <= 125
    ensures Unmasked(Received(ClientFrame(payload, key))) == payload
  {
    var n := |payload|;
    var buf := Received(ClientFrame(payload, key));
    ByteAsInt(n);
    LowBits(n as Byte);
    SmallByte(n);
    HighBit(n as Byte);
    assert buf[2..6] == key;
    assert buf[6..6 + n] == Mask(payload, key);
    MaskTwice(payload, key);
  }

  lemma MaskIs(s: seq<Byte>, key: Key, payload: seq<Byte>)
    requires |s| == |payload|
    requires forall i :: 0 <= i < |s| ==> s[i] == payload[i] ^ key[i % 4]
    ensures Mask(s, key) == payload
  {
    forall i | 0 <= i < |s| ensures Mask(s, key)[i] == payload[i] {
      XorTwice(payload[i], key[i % 4]);
    }
  }

  /** What the server makes of a short masked frame: from its bytes alone, by sections 5.2 and 5.3. */
  lemma ShortFrameBytes(frame: seq<Byte>, key: Key, payload: seq<Byte>)
    requires |payload| <= 125 && |frame| == 6 + |payload|
    requires frame[1] as int == 128 + |payload| && frame[2..6] == key
    requires forall i :: 0 <= i < |payload| ==> frame[6..][i] == payload[i] ^ key[i % 4]
    ensures Unmasked(Received(frame)) == payload
  {
    var buf := Received(frame);
    LowBits(buf[1]);
    assert buf[2..6] == key && buf[6..6 + |payload|] == frame[6..];
    MaskIs(frame[6..], key, payload);
  }

  /** The two samples of a single frame in section 5.7 of RFC 6455: "Hello" from a server and from a client. */
  lemma SectionSamples()
    ensures Frame(HELLO) == [0x81, 0x05, 0x48, 0x65, 0x6c, 0x6c, 0x6f]
    ensures ClientFrame(HELLO, [0x37, 0xfa, 0x21, 0x3d]) == [0x81, 0x85, 0x37, 0xfa, 0x21, 0x3d, 0x7f, 0x9f, 0x4d, 0x51, 0x58]
    ensures Unmasked(Received([0x81, 0x85, 0x37, 0xfa, 0x21, 0x3d, 0x7f, 0x9f, 0x4d, 0x51, 0x58])) == HELLO
  {
    HelloMasked();
    ShortFrameUnmasks(HELLO, [0x37, 0xfa, 0x21, 0x3d]);
  }

  const HELLO: seq<Byte> := [0x48, 0x65, 0x6c, 0x6c, 0x6f]

  lemma HelloMasked()
    ensures Mask(HELLO, [0x37, 0xfa, 0x21, 0x3d]) == [0x7f, 0x9f, 0x4d, 0x51, 0x58]
  {
  }

  lemma SmallByte(n: nat)
    requires n < 128
    ensures n as Byte < 128
  {
    ByteAsInt(n);
    ByteOrder(n as Byte);
  }

  lemma ByteOrder(b: Byte)
    ensures b < 128 <==> b as int < 128
  {
  }

  lemma XorOne(x: Byte)
    ensures x ^ 1 != x && x ^ 0 == x
  {
  }

  lemma UnmaskedLength(payload: seq<Byte>, key: Key)
    requires 125 < |payload|
    ensures |Unmasked(Received(ClientFrame(payload, key)))| == if |payload| < 0x1_0000 then 126 else 127
  {
    var buf := Received(ClientFrame(payload, key));
    assert buf[1] == if |payload| < 0x1_0000 then 0xfe else 0xff;
    LowBits(buf[1]);
  }

  /** The header of a frame of 126 bytes, as the server's buffer holds it. */
  lemma Header126(payload: seq<Byte>, key: Key)
    requires |payload| == 126
    ensures var buf := Received(ClientFrame(payload, key));
            buf[1] == 0xfe && buf[2] == 0 && buf[6] == key[2]
  {
    var length := BigEndian(126, 2);
    assert BigEndian(0, 1) == BigEndian(0, 0) + [0];
    assert length == BigEndian(0, 1) + [126];
    assert length[0] == 0;
    var frame := ClientFrame(payload, key);
    assert frame[..8] == [TEXT] + ([0xfe] + length) + key;
    assert frame[2] == frame[..8][2] && frame[6] == frame[..8][6];
  }

  lemma FirstUnmasked(buf: seq<Byte>)
    requires |buf| == BUFFER && buf[1] == 0xfe
    ensures |Unmasked(buf)| == 126 && Unmasked(buf)[0] == buf[6] ^ buf[2]
  {
    LowBits(buf[1]);
  }

  /** With an extended length the server reads 126 or 127 bytes and a key that starts inside the length. */
  lemma LongFrameIsGarbled(payload: seq<Byte>) returns (key: Key)
    requires 125 < |payload|
    ensures Unmasked(Received(ClientFrame(payload, key))) != payload
  {
    key := [0, 0, payload[0] ^ 1, 0];
    UnmaskedLength(payload, key);
    if |payload| == 126 {
      Header126(payload, key);
      FirstUnmasked(Received(ClientFrame(payload, key)));
      XorOne(payload[0]);
      XorOne(payload[0] ^ 1);
    } else if |payload| == 127 {
      assert |Unmasked(Received(ClientFrame(payload, key)))| == 126;
    }
  }

  /** The server recovers what the browser sent, under every masking key, exactly up to 125 bytes. */
  lemma ClientFrameIsReadable(payload: seq<Byte>)
    ensures (forall key: Key :: Unmasked(Received(ClientFrame(payload, key))) == payload) <==> |payload| <= 125
  {
    if |payload| <= 125 {
      forall key: Key ensures Unmasked(Received(ClientFrame(payload, key))) == payload {
        ShortFrameUnmasks(payload, key);
      }
    } else {
      var key := LongFrameIsGarbled(payload);
    }
  }

  // ---------------------------------------------------------------- the rollback prefix

  /** The bytes of "/rollback ". */
  const PREFIX: seq<Byte> := [0x2f, 0x72, 0x6f, 0x6c, 0x6c, 0x62, 0x61, 0x63, 0x6b, 0x20]

  /** What the user asks for, as bytes. */
  datatype Wish = Wish(rollback: bool, text: seq<Byte>)

  /** The payload rule of sendMessage in the browser (App.jsx, line 105). */
  function Payload(r: Wish): seq<Byte> {
    if r.rollback then PREFIX + r.text else r.text
  }

  /** Lines 108-112. */
  function Interpret(decoded: seq<Byte>): Wish {
    if PREFIX <= decoded then Wish(true, decoded[10..]) else Wish(false, decoded)
  }

  lemma InterpretIsInjective(decoded: seq<Byte>)
    ensures Payload(Interpret(decoded)) == decoded
  {
  }

  lemma PayloadIsInterpreted(r: Wish)
    ensures Interpret(Payload(r)) == r <==> r.rollback || !(PREFIX <= r.text)
  {
    if r.rollback {
      assert PREFIX <= Payload(r) && Payload(r)[10..] == r.text;
    }
  }

  /** What the server makes of what the browser sends. */
  function Understood(r: Wish, key: Key): Wish { Interpret(Unmasked(Received(ClientFrame(Payload(r), key)))) }

  /**
   * Under every masking key the server sees the user's choice and text, exactly when the payload has
   * at most 125 bytes and unforced text does not start with the prefix.
   */
  lemma RequestIsUnderstood(r: Wish)
    ensures (forall key: Key :: Understood(r, key) == r) <==> |Payload(r)| <= 125 && (r.rollback || !(PREFIX <= r.text))
  {
    PayloadIsInterpreted(r);
    if |Payload(r)| <= 125 {
      forall key: Key ensures Understood(r, key) == Interpret(Payload(r)) {
        ShortFrameUnmasks(Payload(r), key);
      }
      var key: Key := [0, 0, 0, 0];
      assert Understood(r, key) == Interpret(Payload(r));
    } else {
      var key := LongFrameIsGarbled(Payload(r));
      InterpretIsInjective(Unmasked(Received(ClientFrame(Payload(r), key))));
      assert Understood(r, key) != r;
    }
  }

  /** Lines 101-105. */
  method DecodeBytes(frame: array<Byte>, length: nat, key: array<Byte>) returns (decoded: seq<Byte>)
    requires key.Length == 4 && 6 + length <= frame.Length
    ensures decoded == Mask(frame[6..6 + length], key[..])
  {
    ghost var whole := Mask(frame[6..6 + length], key[..]);
    decoded := [];
    for i := 0 to length
      invariant decoded == whole[..i]
    {
      assert whole[..i + 1] == whole[..i] + [frame[6 + i] ^ key[i % 4]];
      decoded := decoded + [frame[6 + i] ^ key[i % 4]];
    }
  }

  /** Lines 95-112 on the receive buffer. */
  method ReadFrame(frame: array<Byte>) returns (request: Wish)
    requires frame.Length == BUFFER
    ensures request == Interpret(Unmasked(frame[..]))
  {
    LowBits(frame[1]);
    var length := (frame[1] & 0x7f) as int;
    var key := new Byte[4];
    for i := 0 to 4
      invariant forall k :: 0 <= k < i ==> key[k] == frame[2 + k]
    {
      key[i] := frame[2 + i];
    }
    assert key[..] == frame[..][2..6];
    assert frame[6..6 + length] == frame[..][6..6 + length];
    var decoded := DecodeBytes(frame, length, key);
    request := Wish(false, decoded);
    if PREFIX <= decoded {
      request := Wish(true, decoded[10..]);
    }
  }
}
