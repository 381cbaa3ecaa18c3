// What the page shows, as text: onmessage on the JSON it receives (App.jsx), against the page of Browser.
module Screen {
  import opened Broadcasts
  import opened Browser
  import opened Delivery
  import opened Framing
  import opened Json
  import opened JsonReader
  import opened WebSocketServer
  import opened Wrappers
  import Handshake
  import ServerMachine

  // ---------------------------------------------------------------- the fields of the broadcasts

  function Fields(names: Names, m: Msg): (fs: seq<Field>)
    ensures |fs| > 0
  {
    match m
    case Spawned(i) => [Field("type", "os_event"), Field("event", "Thread Spawned"), Field("thread_id", names(i))]
    case Terminated(i) => [Field("type", "os_event"), Field("event", "Thread Terminated"), Field("thread_id", names(i))]
    case MutexLocked(i) => [Field("type", "os_event"), Field("event", "Mutex Locked (Broadcasting...)"), Field("thread_id", names(i))]
    case Begun => [Field("type", "db_event"), Field("event", "[BEGIN TRANSACTION]")]
    case Inserted(x) => [Field("type", "db_event"), Field("event", "INSERT INTO messages: " + x)]
    case Committed => [Field("type", "db_event"), Field("event", "[COMMIT]")]
    case RolledBack => [Field("type", "db_event"), Field("event", "[ROLLBACK] ERROR")]
    case Chat(i, x) => [Field("type", "chat"), Field("sender", "Client (T-" + names(i) + ")"), Field("text", x)]
  }

  function KeyOf(key: string): string { Quoted(key) + ": \"" }

  /** A first field and the key of a second, up to where its value starts. */
  function Head(f: Field, key: string): string { "{" + PrintField(f) + ", " + KeyOf(key) }

  function Between(key: string): string { "\"" + ", " + KeyOf(key) }

  lemma FieldIs(key: string, v: string)
    ensures PrintField(Field(key, v)) == KeyOf(key) + v + "\""
  {
  }

  lemma FlattenTwo(o: string, a: string, c: string, k: string, v: string, q: string, e: string)
    ensures o + (a + (c + ((k + v + q) + e))) == (o + a + c + k) + v + (q + e)
  {
  }

  lemma FlattenThree(o: string, a: string, c: string, k: string, v: string, q: string, more: string)
    ensures o + (a + (c + ((k + v + q) + (c + more)))) == (o + a + c + k) + v + ((q + c) + more)
  {
    FlattenTwo(o, a, c, k, v, q, c + more);
    assert q + (c + more) == (q + c) + more;
  }

  lemma PrintTwo(f: Field, key: string, v: string)
    ensures Print([f, Field(key, v)]) == Head(f, key) + v + END
  {
    var g := Field(key, v);
    assert [f, g][1..] == [g];
    PrintMore([f, g]);
    FieldIs(key, v);
    FlattenTwo("{", PrintField(f), ", ", KeyOf(key), v, "\"", "}");
  }

  lemma PrintThree(f: Field, key: string, v: string, last: string, w: string)
    ensures Print([f, Field(key, v), Field(last, w)]) == Head(f, key) + v + Between(last) + w + END
  {
    var g, h := Field(key, v), Field(last, w);
    assert [f, g, h][1..] == [g, h] && [g, h][1..] == [h];
    PrintMore([f, g, h]);
    PrintMore([g, h]);
    FieldIs(key, v);
    FieldIs(last, w);
    FlattenThree("{", PrintField(f), ", ", KeyOf(key), v, "\"", PrintField(h) + "}");
    Ending(Head(f, key) + v, "\"" + ", ", KeyOf(last), w, "\"", "}");
  }

  lemma Ending(start: string, c: string, k: string, w: string, q: string, e: string)
    ensures start + (c + ((k + w + q) + e)) == start + (c + k) + w + (q + e)
  {
  }

  lemma Quotations()
    ensures Quoted("type") == "\"type\"" && Quoted("event") == "\"event\"" && Quoted("sender") == "\"sender\""
    ensures Quoted("text") == "\"text\"" && Quoted("thread_id") == "\"thread_id\""
  {
  }

  lemma QuotedTypes()
    ensures Quoted("os_event") == "\"os_event\"" && Quoted("db_event") == "\"db_event\"" && Quoted("chat") == "\"chat\""
  {
  }

  lemma Heads()
    ensures Head(Field("type", "os_event"), "event") == OS_EVENT
    ensures Head(Field("type", "db_event"), "event") == DB_EVENT
    ensures Head(Field("type", "chat"), "sender") + "Client (T-" == CHAT
    ensures Between("thread_id") == THREAD_ID && ")" + Between("text") == CHAT_TEXT
  {
    Quotations();
    QuotedTypes();
  }

  lemma Locked()
    ensures LOCKED == "Mutex Locked (Broadcasting...)"
  {
  }

  lemma Insert()
    ensures INSERT == "INSERT INTO messages: "
  {
  }

  lemma OsText(event: string, name: string)
    ensures OS_EVENT + event + THREAD_ID + name + END ==
            Print([Field("type", "os_event"), Field("event", event), Field("thread_id", name)])
  {
    Heads();
    PrintThree(Field("type", "os_event"), "event", event, "thread_id", name);
  }

  lemma DbText(event: string)
    ensures DB_EVENT + event + END == Print([Field("type", "db_event"), Field("event", event)])
  {
    Heads();
    PrintTwo(Field("type", "db_event"), "event", event);
  }

  lemma Sender(h: string, c: string, n: string, p: string, b: string)
    ensures ((h + c) + n) + (p + b) == h + (c + n + p) + b
  {
  }

  lemma ChatText(name: string, x: string)
    ensures CHAT + name + CHAT_TEXT + x + END ==
            Print([Field("type", "chat"), Field("sender", "Client (T-" + name + ")"), Field("text", x)])
  {
    Heads();
    PrintThree(Field("type", "chat"), "sender", "Client (T-" + name + ")", "text", x);
    Sender(Head(Field("type", "chat"), "sender"), "Client (T-", name, ")", Between("text"));
  }

  /** Every broadcast is the JSON object of its fields. */
  lemma TextIsPrinted(names: Names, m: Msg)
    ensures Text(names, m) == Print(Fields(names, m))
  {
    Locked();
    Insert();
    match m
    case Spawned(i) => OsText("Thread Spawned", names(i));
    case Terminated(i) => OsText("Thread Terminated", names(i));
    case MutexLocked(i) => OsText(LOCKED, names(i));
    case Begun => DbText(BEGUN);
    case Inserted(x) => InsertText(x);
    case Committed => DbText("[COMMIT]");
    case RolledBack => DbText(FAILED);
    case Chat(i, x) => ChatText(names(i), x);
  }

  lemma InsertText(x: string)
    ensures DB_EVENT + INSERT + x + END == Print([Field("type", "db_event"), Field("event", INSERT + x)])
  {
    DbText(INSERT + x);
    assert DB_EVENT + INSERT + x == DB_EVENT + (INSERT + x);
  }

  // ---------------------------------------------------------------- read back

  ghost predicate CleanNames(names: Names) { forall i: nat :: CleanName(names, i) }

  predicate CleanName(names: Names, i: nat) { Clean(names(i)) }

  lemma CleanConcat(x: string, y: string)
    ensures Clean(x + y) <==> Clean(x) && Clean(y)
  {
    if Clean(x + y) {
      assert forall i :: 0 <= i < |x| ==> x[i] == (x + y)[i];
      assert forall i :: 0 <= i < |y| ==> y[i] == (x + y)[|x| + i];
    }
  }

  lemma CleanKeys()
    ensures Clean("type") && Clean("event") && Clean("thread_id") && Clean("sender") && Clean("text")
    ensures Clean("os_event") && Clean("db_event") && Clean("chat") && Clean("Client (T-") && Clean(")")
  {
  }

  lemma CleanEvents()
    ensures Clean("Thread Spawned") && Clean("Thread Terminated") && Clean(LOCKED)
    ensures Clean(BEGUN) && Clean("[COMMIT]") && Clean(FAILED) && Clean(INSERT)
  {
  }

  lemma FieldsAreClean(names: Names, m: Msg)
    requires CleanNames(names)
    ensures var fs := Fields(names, m);
            CleanButLast(fs) && (Clean(fs[|fs| - 1].value) <==> Clean(TextIn(m)))
  {
    CleanKeys();
    CleanEvents();
    Locked();
    Insert();
    if m.Inserted? {
      CleanConcat(INSERT, m.text);
    } else if m.Chat? {
      assert CleanName(names, m.thread);
      CleanConcat("Client (T-", names(m.thread));
      CleanConcat("Client (T-" + names(m.thread), ")");
    } else if m.Spawned? || m.Terminated? || m.MutexLocked? {
      assert CleanName(names, m.thread);
    }
  }

  /**
   * A page reads the fields of a broadcast from its JSON exactly when the text it carries needs no escape: no quote,
   * no backslash, no control character. Otherwise it reads nothing, or only values shorter than the last one.
   */
  lemma BroadcastIsReadBack(names: Names, m: Msg)
    requires CleanNames(names)
    ensures ReadObject(Text(names, m)) == Some(Fields(names, m)) <==> Clean(TextIn(m))
    ensures ReadBack(ReadObject(Text(names, m)), Fields(names, m))
  {
    TextIsPrinted(names, m);
    FieldsAreClean(names, m);
    ReadBackExactlyWhen(Fields(names, m));
  }

  // ---------------------------------------------------------------- onmessage on the text

  datatype Row = Row(sender: string, text: string)

  /** The page as it is rendered, but for the time stamps. */
  datatype Screen = Screen(messages: seq<Row>, osLogs: seq<string>, dbLogs: seq<string>, activeThreads: set<string>)

  function Stamp(thread: string, event: string): string { "[Thread " + thread + "] " + event }

  function OnFields(s: Screen, fs: seq<Field>): Screen {
    var kind, event, thread := Get(fs, "type"), Get(fs, "event"), Get(fs, "thread_id");
    if kind == "chat" then s.(messages := s.messages + [Row(Get(fs, "sender"), Get(fs, "text"))])
    else if kind == "db_event" then s.(dbLogs := s.dbLogs + [event])
    else if kind == "os_event" then
      s.(osLogs := s.osLogs + [Stamp(thread, event)],
         activeThreads := if event == "Thread Spawned" then s.activeThreads + {thread}
                          else if event == "Thread Terminated" then s.activeThreads - {thread}
                          else s.activeThreads)
    else s
  }

  /** What cannot be read is shown raw. */
  function OnText(s: Screen, text: string): Screen {
    var fs := ReadObject(text);
    if fs.Some? then OnFields(s, fs.value) else s.(messages := s.messages + [Row("Server (Raw)", text)])
  }

  // ---------------------------------------------------------------- the page of Browser on the screen

  function Each<T, U>(f: T -> U, xs: seq<T>): seq<U> { seq(|xs|, i requires 0 <= i < |xs| => f(xs[i])) }

  function ChatRow(names: Names, m: Msg): Row {
    if m.Chat? then Row("Client (T-" + names(m.thread) + ")", m.text) else Row("", "")
  }

  function RowOf(names: Names): Line -> Row {
    (line: Line) => if line.Own? then Row("You", line.text) else ChatRow(names, line.msg)
  }

  function OsLine(names: Names): Msg -> string {
    (m: Msg) =>
      match m
      case Spawned(i) => Stamp(names(i), "Thread Spawned")
      case Terminated(i) => Stamp(names(i), "Thread Terminated")
      case MutexLocked(i) => Stamp(names(i), "Mutex Locked (Broadcasting...)")
      case _ => ""
  }

  function DbLine(m: Msg): string {
    match m
    case Begun => "[BEGIN TRANSACTION]"
    case Inserted(x) => "INSERT INTO messages: " + x
    case Committed => "[COMMIT]"
    case RolledBack => "[ROLLBACK] ERROR"
    case _ => ""
  }

  function ScreenOf(names: Names, p: Page): Screen {
    Screen(Each(RowOf(names), p.messages), Each(OsLine(names), p.osLogs), Each(DbLine, p.dbLogs),
           set t <- p.activeThreads :: names(t))
  }

  lemma EachOne<T, U>(f: T -> U, xs: seq<T>, x: T)
    ensures Each(f, xs + [x]) == Each(f, xs) + [f(x)]
  {
  }

  ghost predicate Unlike(names: Names) { forall i: nat, j: nat :: names(i) == names(j) ==> i == j }

  lemma ThreadShown(names: Names, threads: set<nat>, t: nat)
    requires Unlike(names)
    ensures (set u <- threads + {t} :: names(u)) == (set u <- threads :: names(u)) + {names(t)}
    ensures (set u <- threads - {t} :: names(u)) == (set u <- threads :: names(u)) - {names(t)}
  {
  }

  lemma GetTwo(f: Field, g: Field, key: string)
    ensures Get([f, g], key) == if key == g.key then g.value else if key == f.key then f.value else "undefined"
  {
    assert [f, g][..1] == [f] && [f][..0] == [];
    assert Get([f], key) == if key == f.key then f.value else Get([], key);
  }

  lemma GetThree(f: Field, g: Field, h: Field, key: string)
    ensures Get([f, g, h], key) ==
            if key == h.key then h.value else if key == g.key then g.value else if key == f.key then f.value else "undefined"
  {
    assert [f, g, h][..2] == [f, g];
    GetTwo(f, g, key);
  }

  lemma OsFields(s: Screen, event: string, thread: string)
    ensures OnFields(s, [Field("type", "os_event"), Field("event", event), Field("thread_id", thread)]) ==
            s.(osLogs := s.osLogs + [Stamp(thread, event)],
               activeThreads := if event == "Thread Spawned" then s.activeThreads + {thread}
                                else if event == "Thread Terminated" then s.activeThreads - {thread}
                                else s.activeThreads)
  {
    var f, g, h := Field("type", "os_event"), Field("event", event), Field("thread_id", thread);
    GetThree(f, g, h, "type");
    GetThree(f, g, h, "event");
    GetThree(f, g, h, "thread_id");
  }

  lemma DbFields(s: Screen, event: string)
    ensures OnFields(s, [Field("type", "db_event"), Field("event", event)]) == s.(dbLogs := s.dbLogs + [event])
  {
    var f, g := Field("type", "db_event"), Field("event", event);
    GetTwo(f, g, "type");
    GetTwo(f, g, "event");
  }

  lemma ChatFields(s: Screen, sender: string, x: string)
    ensures OnFields(s, [Field("type", "chat"), Field("sender", sender), Field("text", x)]) ==
            s.(messages := s.messages + [Row(sender, x)])
  {
    var f, g, h := Field("type", "chat"), Field("sender", sender), Field("text", x);
    GetThree(f, g, h, "type");
    GetThree(f, g, h, "sender");
    GetThree(f, g, h, "text");
  }

  lemma ShowsFields(names: Names, p: Page, m: Msg)
    requires Unlike(names)
    ensures OnFields(ScreenOf(names, p), Fields(names, m)) == ScreenOf(names, OnMessage(p, m))
  {
    var s := ScreenOf(names, p);
    EachOne(RowOf(names), p.messages, Broadcast(m));
    EachOne(OsLine(names), p.osLogs, m);
    EachOne(DbLine, p.dbLogs, m);
    match m
    case Spawned(i) => ThreadShown(names, p.activeThreads, i); OsFields(s, "Thread Spawned", names(i));
    case Terminated(i) => ThreadShown(names, p.activeThreads, i); OsFields(s, "Thread Terminated", names(i));
    case MutexLocked(i) => OsFields(s, "Mutex Locked (Broadcasting...)", names(i));
    case Begun => DbFields(s, "[BEGIN TRANSACTION]");
    case Inserted(x) => DbFields(s, "INSERT INTO messages: " + x);
    case Committed => DbFields(s, "[COMMIT]");
    case RolledBack => DbFields(s, "[ROLLBACK] ERROR");
    case Chat(i, x) => ChatFields(s, "Client (T-" + names(i) + ")", x);
  }

  // ---------------------------------------------------------------- a text that breaks the JSON

  /** From the n-th field on every value is shorter than k, so a key of the n-th field is too. */
  lemma {:induction false} GetsShort(fs: seq<Field>, n: nat, k: nat)
    requires n < |fs| && forall j :: n <= j < |fs| ==> |fs[j].value| < k
    ensures |Get(fs, fs[n].key)| < k
  {
    if fs[|fs| - 1].key != fs[n].key {
      GetsShort(fs[..|fs| - 1], n, k);
    }
  }

  lemma GetsFallen(gs: seq<Field>, fs: seq<Field>)
    requires |fs| > 0 && !Clean(fs[|fs| - 1].value) && ReadBack(Some(gs), fs)
    ensures |Get(gs, fs[|fs| - 1].key)| < |fs[|fs| - 1].value|
  {
    var n := |fs| - 1;
    var tail := gs[n..];
    forall j | n <= j < |gs| ensures |gs[j].value| < |fs[n].value| {
      assert gs[j] == tail[j - n];
    }
    assert gs[n] == tail[0];
    GetsShort(gs, n, |fs[n].value|);
  }

  lemma LastDiffers<T>(xs: seq<T>, x: T, y: T)
    requires x != y
    ensures xs + [x] != xs + [y] && xs + [x] != xs
  {
    assert (xs + [x])[|xs|] != (xs + [y])[|xs|];
  }

  lemma BreaksChat(names: Names, p: Page, i: nat, x: string)
    requires CleanNames(names) && !Clean(x)
    ensures OnText(ScreenOf(names, p), Text(names, Chat(i, x))) != ScreenOf(names, OnMessage(p, Chat(i, x)))
  {
    var m, s := Chat(i, x), ScreenOf(names, p);
    var fs, gs, row := Fields(names, m), ReadObject(Text(names, m)), Row("Client (T-" + names(i) + ")", x);
    BroadcastIsReadBack(names, m);
    EachOne(RowOf(names), p.messages, Broadcast(m));
    if gs.None? {
      assert row.sender[0] != "Server (Raw)"[0];
      LastDiffers(s.messages, Row("Server (Raw)", Text(names, m)), row);
    } else {
      GetsFallen(gs.value, fs);
      LastDiffers(s.messages, Row(Get(gs.value, "sender"), Get(gs.value, "text")), row);
      LastDiffers(s.messages, row, Row("", ""));
    }
  }

  lemma BreaksInserted(names: Names, p: Page, x: string)
    requires CleanNames(names) && !Clean(x)
    ensures OnText(ScreenOf(names, p), Text(names, Inserted(x))) != ScreenOf(names, OnMessage(p, Inserted(x)))
  {
    var m, s := Inserted(x), ScreenOf(names, p);
    var fs, gs, line := Fields(names, m), ReadObject(Text(names, m)), "INSERT INTO messages: " + x;
    BroadcastIsReadBack(names, m);
    EachOne(DbLine, p.dbLogs, m);
    assert s.dbLogs + [line] != s.dbLogs;
    if gs.Some? {
      FieldsAreClean(names, m);
      GetsFallen(gs.value, fs);
      LastDiffers(s.dbLogs, Get(gs.value, "event"), line);
    }
  }

  /**
   * onmessage on the JSON text of a broadcast does what it should to the screen, exactly when the text that the
   * broadcast carries has no quote, backslash or control character.
   */
  lemma ShowsExactlyWhen(names: Names, p: Page, m: Msg)
    requires CleanNames(names) && Unlike(names)
    ensures OnText(ScreenOf(names, p), Text(names, m)) == ScreenOf(names, OnMessage(p, m)) <==> Clean(TextIn(m))
  {
    if Clean(TextIn(m)) {
      BroadcastIsReadBack(names, m);
      ShowsFields(names, p, m);
    } else if m.Chat? {
      BreaksChat(names, p, m.thread, m.text);
    } else {
      BreaksInserted(names, p, m.text);
    }
  }

  // ---------------------------------------------------------------- from the bytes to the screen

  const BLANK: Screen := Screen([], [], [], {})

  /** The screen after frames whose payloads are ASCII text. */
  function ShowFrames(frames: seq<seq<Byte>>): Screen {
    if |frames| == 0 then BLANK else OnText(ShowFrames(frames[..|frames| - 1]), Handshake.Chars(frames[|frames| - 1]))
  }

  predicate Ascii(s: string) { forall i :: 0 <= i < |s| ==> s[i] as int < 128 }

  ghost predicate AsciiNames(names: Names) { forall i: nat :: AsciiName(names, i) }

  predicate AsciiName(names: Names, i: nat) { Ascii(names(i)) }

  lemma AsciiConcat(x: string, y: string)
    requires Ascii(x) && Ascii(y)
    ensures Ascii(x + y)
  {
  }

  lemma AsciiStarts()
    ensures Ascii(OS_EVENT) && Ascii(DB_EVENT) && Ascii(CHAT)
  {
  }

  lemma AsciiMiddles()
    ensures Ascii(CHAT_TEXT) && Ascii(THREAD_ID) && Ascii(END)
  {
  }

  lemma AsciiEvents()
    ensures Ascii(INSERT) && Ascii(LOCKED) && Ascii(BEGUN) && Ascii(FAILED)
    ensures Ascii("Thread Spawned") && Ascii("Thread Terminated") && Ascii("[COMMIT]")
  {
  }

  lemma AsciiThree(x: string, y: string, z: string)
    requires Ascii(x) && Ascii(y) && Ascii(z)
    ensures Ascii(x + y + z)
  {
  }

  lemma AsciiFive(x: string, y: string, z: string, v: string, w: string)
    requires Ascii(x) && Ascii(y) && Ascii(z) && Ascii(v) && Ascii(w)
    ensures Ascii(x + y + z + v + w)
  {
    AsciiThree(x, y, z);
    AsciiThree(x + y + z, v, w);
  }

  lemma TextIsAscii(names: Names, m: Msg)
    requires AsciiNames(names) && Ascii(TextIn(m))
    ensures Ascii(Text(names, m))
  {
    AsciiStarts();
    AsciiMiddles();
    AsciiEvents();
    match m
    case Spawned(i) => assert AsciiName(names, i); AsciiFive(OS_EVENT, "Thread Spawned", THREAD_ID, names(i), END);
    case Terminated(i) => assert AsciiName(names, i); AsciiFive(OS_EVENT, "Thread Terminated", THREAD_ID, names(i), END);
    case MutexLocked(i) => assert AsciiName(names, i); AsciiFive(OS_EVENT, LOCKED, THREAD_ID, names(i), END);
    case Begun => AsciiThree(DB_EVENT, BEGUN, END);
    case Inserted(x) => AsciiThree(DB_EVENT, INSERT, x); AsciiConcat(DB_EVENT + INSERT + x, END);
    case Committed => AsciiThree(DB_EVENT, "[COMMIT]", END);
    case RolledBack => AsciiThree(DB_EVENT, FAILED, END);
    case Chat(i, x) => assert AsciiName(names, i); AsciiFive(CHAT, names(i), CHAT_TEXT, x, END);
  }

  /** Short, ASCII, and with nothing to escape. */
  predicate Plain(names: Names, m: Msg) { Readable(names, m) && Clean(TextIn(m)) && Ascii(TextIn(m)) }

  /** What the names of threads have to be: as numbers of up to 64 bits are printed. */
  ghost predicate Numerals(names: Names) {
    AllShortNames(names) && CleanNames(names) && AsciiNames(names) && Unlike(names)
  }

  lemma FrameShown(names: Names, p: Page, m: Msg)
    requires Numerals(names) && Plain(names, m)
    ensures OnText(ScreenOf(names, p), Handshake.Chars(Encoded(names)(m))) == ScreenOf(names, OnMessage(p, m))
  {
    TextIsAscii(names, m);
    CharsOfBytes(Text(names, m));
    ShowsExactlyWhen(names, p, m);
  }

  lemma OneMoreFrame(frames: seq<seq<Byte>>, frame: seq<Byte>)
    ensures ShowFrames(frames + [frame]) == OnText(ShowFrames(frames), Handshake.Chars(frame))
  {
    assert (frames + [frame])[..|frames|] == frames;
  }

  lemma {:induction false} FramesShown(names: Names, ms: seq<Msg>)
    requires Numerals(names) && forall m <- ms :: Plain(names, m)
    ensures ShowFrames(Texts(Encoded(names), ms)) == ScreenOf(names, Consume(ms))
  {
    if |ms| == 0 {
      assert ScreenOf(names, EMPTY) == BLANK;
    } else {
      var front, m := ms[..|ms| - 1], ms[|ms| - 1];
      FramesShown(names, front);
      FrameShown(names, Consume(front), m);
      OneMoreFrame(Texts(Encoded(names), front), Encoded(names)(m));
    }
  }

  /**
   * Under every interleaving, a page that parses the bytes sent to it, and their JSON, shows what the page of a
   * listener shows for the messages broadcast from its join to its leave, or so far, if the texts among them are plain.
   */
  lemma BytesToScreen(names: Names, b: ServerMachine.Backend, n: nat, table: seq<string>, es: seq<ServerMachine.Event>,
                      t: ServerMachine.State, c: Socket)
    requires Numerals(names)
    requires ServerMachine.Exec(b, ServerMachine.Initial(n, table), es) == Some(t) && (c in t.clients || c in t.left)
    ensures c in t.joined && c in t.inbox && t.joined[c] <= EndOf(t, c) <= |t.log|
    ensures var part := Segment(t.log, t.joined[c], EndOf(t, c));
            var frames := ParseStream(BytesSent(Encoded(names), b, ServerMachine.Initial(n, table), es, c));
            (forall m <- part :: Plain(names, m)) ==>
              frames.Some? && ShowFrames(frames.value) == ScreenOf(names, Consume(part))
  {
    ClientReadsTheLog(names, b, n, table, es, t, c);
    var part := Segment(t.log, t.joined[c], EndOf(t, c));
    if forall m <- part :: Plain(names, m) {
      FramesShown(names, part);
    }
  }
}
