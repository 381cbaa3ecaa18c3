// The JSON texts of the broadcasts, and which of them fit a frame and the send buffer.
module Json {
  import opened Broadcasts
  import opened Browser
  import opened Database
  import opened Delivery
  import opened Framing
  import opened Handshake
  import opened ServerMachine
  import opened Sessions
  import opened WebSocketServer
  import opened Wrappers

  const OS_EVENT: string := "{" + ("\"type\"" + ": " + "\"os_event\"") + ", " + ("\"event\"" + ": \"")
  const DB_EVENT: string := "{" + ("\"type\"" + ": " + "\"db_event\"") + ", " + ("\"event\"" + ": \"")
  const CHAT: string := "{" + ("\"type\"" + ": " + "\"chat\"") + ", " + ("\"sender\"" + ": \"") + "Client (T-"
  const CHAT_TEXT: string := ")" + ("\"" + ", " + ("\"text\"" + ": \""))
  const THREAD_ID: string := "\"" + ", " + ("\"thread_id\"" + ": \"")
  const END: string := "\"" + "}"
  const INSERT: string := "INSERT INTO " + "messages: "
  const LOCKED: string := "Mutex Locked " + "(Broadcasting...)"
  const BEGUN: string := "[BEGIN TRANSACTION]"
  const FAILED: string := "[ROLLBACK] ERROR"

  /** How the system prints the identifier of each pool thread: a 64-bit number has at most 20 digits. */
  type Names = nat -> string

  predicate ShortName(names: Names, i: nat) { |names(i)| <= 20 }

  function Text(names: Names, m: Msg): string {
    match m
    case Spawned(i) => OS_EVENT + "Thread Spawned" + THREAD_ID + names(i) + END
    case Terminated(i) => OS_EVENT + "Thread Terminated" + THREAD_ID + names(i) + END
    case MutexLocked(i) => OS_EVENT + LOCKED + THREAD_ID + names(i) + END
    case Begun => DB_EVENT + BEGUN + END
    case Inserted(x) => DB_EVENT + INSERT + x + END
    case Committed => DB_EVENT + "[COMMIT]" + END
    case RolledBack => DB_EVENT + FAILED + END
    case Chat(i, x) => CHAT + names(i) + CHAT_TEXT + x + END
  }

  function Encoded(names: Names): Render { (m: Msg) => Bytes(Text(names, m)) }

  lemma Lengths()
    ensures |OS_EVENT| == 31 && |DB_EVENT| == 31 && |CHAT| == 38 && |CHAT_TEXT| == 13
    ensures |THREAD_ID| == 17 && |END| == 2 && |INSERT| == 22 && |LOCKED| == 30 && |BEGUN| == 19 && |FAILED| == 16
  {
  }

  /** The length of a message without the text it carries. */
  function Fixed(names: Names, m: Msg): nat {
    match m
    case Spawned(i) => 64 + |names(i)|
    case Terminated(i) => 67 + |names(i)|
    case MutexLocked(i) => 80 + |names(i)|
    case Begun => 52
    case Inserted(_) => 55
    case Committed => 41
    case RolledBack => 49
    case Chat(i, _) => 53 + |names(i)|
  }

  lemma LengthOf(names: Names, m: Msg)
    ensures |Encoded(names)(m)| == Fixed(names, m) + |TextIn(m)|
  {
    Lengths();
  }

  ghost predicate AllShortNames(names: Names) { forall i: nat :: ShortName(names, i) }

  /** No broadcast of a received text overflows the send buffer. */
  lemma EveryBroadcastFits(names: Names)
    requires AllShortNames(names)
    ensures Fits(Encoded(names))
  {
    forall m: Msg | |TextIn(m)| <= 127 ensures |Encoded(names)(m)| + 2 <= BUFFER {
      LengthOf(names, m);
      assert ShortName(names, if m.Spawned? || m.Terminated? || m.MutexLocked? || m.Chat? then m.thread else 0);
    }
  }

  /** The texts that can be read in the messages that carry them. */
  predicate Readable(names: Names, m: Msg) {
    match m
    case Inserted(x) => |x| <= 70
    case Chat(i, x) => |x| + |names(i)| <= 72
    case _ => true
  }

  lemma MessageIsShort(names: Names, m: Msg)
    requires AllShortNames(names)
    ensures |Encoded(names)(m)| <= 125 <==> Readable(names, m)
  {
    LengthOf(names, m);
    assert ShortName(names, if m.Spawned? || m.Terminated? || m.MutexLocked? || m.Chat? then m.thread else 0);
  }

  /** Browsers can read all five broadcasts about a text exactly when it is short enough for two of them. */
  lemma RoundIsReadable(names: Names, thread: nat, r: Round)
    requires AllShortNames(names)
    ensures (forall m <- RoundOf(thread, r) :: |Encoded(names)(m)| <= 125) <==>
            |r.text| <= 70 && |r.text| + |names(thread)| <= 72
  {
    var ms := RoundOf(thread, r);
    assert ms[1] == Inserted(r.text) && ms[4] == Chat(thread, r.text);
    forall m | m in ms ensures |Encoded(names)(m)| <= 125 <==> Readable(names, m) {
      MessageIsShort(names, m);
    }
    assert Readable(names, ms[1]) <==> |r.text| <= 70;
    assert Readable(names, ms[4]) <==> |r.text| + |names(thread)| <= 72;
  }

  /**
   * Under every interleaving, the bytes sent to a client parse as exactly the JSON texts broadcast
   * from its join to its leave, or so far, if and only if no text among them is too long.
   */
  lemma ClientReadsTheLog(names: Names, b: Backend, n: nat, table: Table, es: seq<Event>, t: State, c: Socket)
    requires AllShortNames(names) && Exec(b, Initial(n, table), es) == Some(t) && (c in t.clients || c in t.left)
    ensures c in t.joined && c in t.inbox && t.joined[c] <= EndOf(t, c) <= |t.log|
    ensures var part := Segment(t.log, t.joined[c], EndOf(t, c));
            ParseStream(BytesSent(Encoded(names), b, Initial(n, table), es, c)) == Some(Texts(Encoded(names), part)) <==>
            forall m <- part :: Readable(names, m)
  {
    BytesAreTheLog(Encoded(names), b, n, table, es, t, c);
    var part := Segment(t.log, t.joined[c], EndOf(t, c));
    forall m | m in part ensures |Encoded(names)(m)| <= 125 <==> Readable(names, m) {
      MessageIsShort(names, m);
    }
  }
}
