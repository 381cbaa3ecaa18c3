// The opening handshake as text (section 4 of RFC 6455): finding the client's key in its request, and the
// accept key in the server's response.
module Opening {
  import opened Wrappers
  import Base64
  import Handshake

  const KEY_HEADER: string := "Sec-WebSocket-" + "Key: "
  const ACCEPT_HEADER: string := "Sec-WebSocket-" + "Accept: "
  const LINE_END: string := "\r\n"
  const SWITCHING: string := "HTTP/1.1 101 " + "Switching " + "Protocols" + "\r\n"
  const UPGRADE: string := "Upgrade: " + "websocket" + "\r\n"
  const CONNECTION: string := "Connection: " + "Upgrade" + "\r\n"

  predicate OccursAt(s: string, pattern: string, k: nat) {
    k + |pattern| <= |s| && s[k..k + |pattern|] == pattern
  }

  /** std::string::find: the first occurrence at or after `from`. */
  function Find(s: string, pattern: string, from: nat): (k: Option<nat>)
    ensures k.Some? ==> from <= k.value && OccursAt(s, pattern, k.value)
    ensures k.Some? ==> forall i: nat :: from <= i < k.value ==> !OccursAt(s, pattern, i)
    ensures k.None? ==> forall i: nat :: from <= i ==> !OccursAt(s, pattern, i)
    decreases |s| - from
  {
    if from + |pattern| > |s| then None
    else if OccursAt(s, pattern, from) then Some(from)
    else Find(s, pattern, from + 1)
  }

  /** Lines 43-50: up to 24 characters after the header. */
  function KeyIn(request: string): Option<string> {
    var at := Find(request, KEY_HEADER, 0);
    if at.None? then None
    else
      var rest := request[at.value + |KEY_HEADER|..];
      Some(if |rest| <= 24 then rest else rest[..24])
  }

  /** Lines 55-58. */
  function Response(accept: string): string {
    SWITCHING + UPGRADE + CONNECTION + (ACCEPT_HEADER + accept + LINE_END) + LINE_END
  }

  function RestOfLine(s: string, start: nat): Option<string> {
    var end := Find(s, LINE_END, start);
    if end.None? then None else Some(s[start..end.value])
  }

  /** What a client finds in a response: the rest of the header's line. */
  function HeaderIn(response: string, header: string): Option<string> {
    var at := Find(response, header, 0);
    if at.None? then None else RestOfLine(response, at.value + |header|)
  }

  lemma OccursInside(before: string, pattern: string, after: string)
    ensures OccursAt(before + pattern + after, pattern, |before|)
  {
    assert (before + pattern + after)[|before|..|before| + |pattern|] == pattern;
  }

  lemma FoundFirst(s: string, pattern: string, from: nat, k: nat)
    requires from <= k && OccursAt(s, pattern, k) && forall i: nat :: from <= i < k ==> !OccursAt(s, pattern, i)
    ensures Find(s, pattern, from) == Some(k)
  {
    var found := Find(s, pattern, from);
    assert found.Some? && !(found.value < k) && !(k < found.value);
  }

  /** A request is refused exactly when the header does not occur in it, in just this spelling. */
  lemma RefusedExactlyWhen(request: string)
    ensures KeyIn(request) == None <==> forall k: nat :: !OccursAt(request, "Sec-WebSocket-Key: ", k)
  {
    assert KEY_HEADER == "Sec-WebSocket-Key: ";
    var found := Find(request, KEY_HEADER, 0);
  }

  /** A key of 24 characters after the first such header is found, whatever stands around it. */
  lemma KeyIsFound(before: string, key: string, after: string)
    requires |key| == 24
    requires forall k: nat :: k < |before| ==> !OccursAt(before + KEY_HEADER + (key + after), KEY_HEADER, k)
    ensures KeyIn(before + KEY_HEADER + (key + after)) == Some(key)
  {
    var request := before + KEY_HEADER + (key + after);
    OccursInside(before, KEY_HEADER, key + after);
    FoundFirst(request, KEY_HEADER, 0, |before|);
    assert request[|before| + |KEY_HEADER|..] == key + after;
    assert (key + after)[..24] == key && (|after| == 0 ==> key + after == key);
  }

  // ---------------------------------------------------------------- the response

  /** No "Se" within, and none begins at the end. */
  predicate NoSe(s: string) {
    forall k :: 0 <= k < |s| && s[k] == 'S' ==> k + 1 < |s| && s[k + 1] != 'e'
  }

  lemma NoSeConcat(x: string, y: string)
    requires NoSe(x) && NoSe(y)
    ensures NoSe(x + y)
  {
    forall k | 0 <= k < |x + y| && (x + y)[k] == 'S' ensures k + 1 < |x + y| && (x + y)[k + 1] != 'e' {
      if k < |x| {
        assert x[k] == 'S';
      } else {
        assert y[k - |x|] == 'S';
      }
    }
  }

  lemma NoSeInHead()
    ensures NoSe(SWITCHING + UPGRADE + CONNECTION)
  {
    NoSeConcat(SWITCHING, UPGRADE);
    NoSeConcat(SWITCHING + UPGRADE, CONNECTION);
  }

  lemma FirstLetters(s: string, pattern: string, k: nat)
    requires |pattern| > 0
    ensures OccursAt(s, pattern, k) ==> s[k] == pattern[0] && (|pattern| > 1 ==> s[k + 1] == pattern[1])
  {
    if OccursAt(s, pattern, k) {
      var part := s[k..k + |pattern|];
      assert part[0] == s[k] && (|pattern| > 1 ==> part[1] == s[k + 1]);
    }
  }

  lemma AcceptOccursOnce(head: string, tail: string, k: nat)
    requires NoSe(head) && k < |head|
    ensures !OccursAt(head + ACCEPT_HEADER + tail, ACCEPT_HEADER, k)
  {
    var s := head + ACCEPT_HEADER + tail;
    FirstLetters(s, ACCEPT_HEADER, k);
    assert ACCEPT_HEADER[0] == 'S' && ACCEPT_HEADER[1] == 'e';
    assert s[k] == head[k] && (k + 1 < |head| ==> s[k + 1] == head[k + 1]);
  }

  lemma ResponseParts(accept: string)
    ensures Response(accept) == (SWITCHING + UPGRADE + CONNECTION) + ACCEPT_HEADER + (accept + (LINE_END + LINE_END))
  {
  }

  lemma NoLineEnd(s: string, accept: string, start: nat, i: nat)
    requires start + |accept| <= |s| && s[start..start + |accept|] == accept && '\r' !in accept
    requires start <= i < start + |accept|
    ensures !OccursAt(s, LINE_END, i)
  {
    FirstLetters(s, LINE_END, i);
    assert s[start..start + |accept|][i - start] == s[i];
  }

  /** The rest of a line ends at the first line end. */
  lemma LineFound(s: string, value: string, start: nat)
    requires start + |value| <= |s| && s[start..start + |value|] == value && '\r' !in value
    requires OccursAt(s, LINE_END, start + |value|)
    ensures RestOfLine(s, start) == Some(value)
  {
    forall i: nat | start <= i < start + |value| ensures !OccursAt(s, LINE_END, i) {
      NoLineEnd(s, value, start, i);
    }
    FoundFirst(s, LINE_END, start, start + |value|);
  }

  lemma Middles(s: string, head: string, header: string, value: string, end: string, tail: string)
    requires s == head + header + (value + (end + tail))
    ensures OccursAt(s, header, |head|) && OccursAt(s, end, |head| + |header| + |value|)
    ensures s[|head| + |header|..|head| + |header| + |value|] == value
  {
    OccursInside(head, header, value + (end + tail));
    OccursInside(head + header + value, end, tail);
    assert s == head + header + value + end + tail;
  }

  lemma HeaderAt(s: string, header: string, k: nat, value: string)
    requires OccursAt(s, header, k) && RestOfLine(s, k + |header|) == Some(value)
    requires forall i: nat :: i < k ==> !OccursAt(s, header, i)
    ensures HeaderIn(s, header) == Some(value)
  {
    FoundFirst(s, header, 0, k);
  }

  lemma HeaderFound(s: string, head: string, header: string, value: string, tail: string)
    requires s == head + header + (value + (LINE_END + tail)) && '\r' !in value
    requires forall k: nat :: k < |head| ==> !OccursAt(s, header, k)
    ensures HeaderIn(s, header) == Some(value)
  {
    Middles(s, head, header, value, LINE_END, tail);
    LineFound(s, value, |head| + |header|);
    HeaderAt(s, header, |head|, value);
  }

  lemma NotBefore(head: string, header: string, rest: string, k: nat)
    requires k < |head| && |header| > 0 && header[0] !in head
    ensures !OccursAt(head + header + rest, header, k)
  {
    var s := head + header + rest;
    FirstLetters(s, header, k);
    assert s[k] == head[k];
  }

  lemma HeaderFoundAfter(s: string, head: string, header: string, value: string, tail: string)
    requires s == head + header + (value + (LINE_END + tail)) && '\r' !in value
    requires |header| > 0 && header[0] !in head
    ensures HeaderIn(s, header) == Some(value)
  {
    forall k: nat | k < |head| ensures !OccursAt(s, header, k) {
      NotBefore(head, header, value + (LINE_END + tail), k);
    }
    HeaderFound(s, head, header, value, tail);
  }

  /**
   * What a client checks in a response (section 4.1 of RFC 6455): the status, the protocol it switches to, and
   * the accept key, which is the one the response was built with.
   */
  lemma ResponseCarries(accept: string)
    requires '\r' !in accept
    ensures var r := Response(accept);
            "HTTP/1.1 101 Switching Protocols\r\n" <= r && |r| >= 4 && r[|r| - 4..] == "\r\n\r\n" &&
            HeaderIn(r, "Upgrade: ") == Some("websocket") && HeaderIn(r, "Connection: ") == Some("Upgrade") &&
            HeaderIn(r, "Sec-WebSocket-Accept: ") == Some(accept)
  {
    StatusFound(accept);
    EndFound(accept);
    UpgradeFound(accept);
    ConnectionFound(accept);
    AcceptFound(accept);
  }

  lemma StatusLine()
    ensures SWITCHING == "HTTP/1.1 101 Switching Protocols\r\n"
  {
  }

  lemma StatusFound(accept: string)
    ensures "HTTP/1.1 101 Switching Protocols\r\n" <= Response(accept)
  {
    StatusLine();
    assert SWITCHING <= Response(accept);
  }

  lemma EndsInEmptyLine(start: string)
    ensures var r := (start + LINE_END) + LINE_END; |r| >= 4 && r[|r| - 4..] == "\r\n\r\n"
  {
  }

  lemma EndFound(accept: string)
    ensures var r := Response(accept); |r| >= 4 && r[|r| - 4..] == "\r\n\r\n"
  {
    EndsInEmptyLine(SWITCHING + UPGRADE + CONNECTION + (ACCEPT_HEADER + accept));
    EndRegroup(SWITCHING + UPGRADE + CONNECTION, ACCEPT_HEADER + accept, LINE_END);
  }

  lemma EndRegroup(a: string, b: string, e: string)
    ensures a + (b + e) + e == ((a + b) + e) + e
  {
  }

  lemma Regroup(head: string, header: string, value: string, end: string, next: string, last: string)
    ensures head + (header + value + end) + next + last == head + header + (value + (end + (next + last)))
  {
  }

  lemma HeadLetters()
    ensures 'U' !in SWITCHING && 'C' !in SWITCHING && 'C' !in UPGRADE
  {
  }

  lemma UpgradeFound(accept: string)
    ensures HeaderIn(Response(accept), "Upgrade: ") == Some("websocket")
  {
    var next := CONNECTION + (ACCEPT_HEADER + accept + LINE_END);
    HeadLetters();
    Regroup(SWITCHING, "Upgrade: ", "websocket", LINE_END, next, LINE_END);
    ResponseFrom(SWITCHING, UPGRADE, CONNECTION, ACCEPT_HEADER + accept + LINE_END, LINE_END);
    HeaderFoundAfter(Response(accept), SWITCHING, "Upgrade: ", "websocket", next + LINE_END);
  }

  lemma ResponseFrom(a: string, b: string, c: string, d: string, e: string)
    ensures a + b + c + d + e == a + b + (c + d) + e
  {
  }

  lemma ConnectionFound(accept: string)
    ensures HeaderIn(Response(accept), "Connection: ") == Some("Upgrade")
  {
    var head, next := SWITCHING + UPGRADE, ACCEPT_HEADER + accept + LINE_END;
    HeadLetters();
    Regroup(head, "Connection: ", "Upgrade", LINE_END, next, LINE_END);
    HeaderFoundAfter(Response(accept), head, "Connection: ", "Upgrade", next + LINE_END);
  }

  lemma AcceptFound(accept: string)
    requires '\r' !in accept
    ensures HeaderIn(Response(accept), "Sec-WebSocket-Accept: ") == Some(accept)
  {
    var head := SWITCHING + UPGRADE + CONNECTION;
    assert ACCEPT_HEADER == "Sec-WebSocket-Accept: ";
    ResponseParts(accept);
    NoSeInHead();
    forall k: nat | k < |head| ensures !OccursAt(Response(accept), ACCEPT_HEADER, k) {
      AcceptOccursOnce(head, accept + (LINE_END + LINE_END), k);
    }
    HeaderFound(Response(accept), head, ACCEPT_HEADER, accept, LINE_END);
  }

  /** What the server answers a request, if it does. */
  function Answer(request: string): Option<string> {
    var key := KeyIn(request);
    if key.None? then None else Some(Response(Handshake.AcceptKey(key.value)))
  }

  /** A client that sends its key of 24 characters reads in the answer the accept key for it. */
  lemma KeyIsAnswered(before: string, key: string, after: string)
    requires |key| == 24
    requires forall k: nat :: k < |before| ==> !OccursAt(before + KEY_HEADER + (key + after), KEY_HEADER, k)
    ensures var answer := Answer(before + KEY_HEADER + (key + after));
            answer.Some? && HeaderIn(answer.value, "Sec-WebSocket-Accept: ") == Some(Handshake.AcceptKey(key))
  {
    KeyIsFound(before, key, after);
    AcceptKeyInOneLine(key);
    ResponseCarries(Handshake.AcceptKey(key));
  }

  lemma AcceptKeyInOneLine(key: string)
    ensures '\r' !in Handshake.AcceptKey(key)
  {
    var accept := Handshake.AcceptKey(key);
    forall k | 0 <= k < |accept| ensures accept[k] != '\r' {
      Base64.EncodedText(Handshake.Hashed(key), k);
    }
  }
}
