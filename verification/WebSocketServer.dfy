// The server's client list and its sends, and handleClient from accept to disconnect, as the code
// runs them when no other session interleaves (ServerMachine has the interleavings).
module WebSocketServer {
  import opened Browser
  import opened Database
  import opened Framing
  import opened Wrappers
  import opened Sessions
  import Handshake
  import Opening
  import ServerMachine

  type Socket = ServerMachine.Socket
  type Request = ServerMachine.Request

  /** The text of a broadcast message as bytes. */
  type Render = Msg -> seq<Byte>

  function TextIn(m: Msg): string { if m.Inserted? || m.Chat? then m.text else "" }

  /** A text of one short client frame makes a message that fits the send buffer. */
  ghost predicate Fits(render: Render) {
    forall m: Msg :: |TextIn(m)| <= 127 ==> |render(m)| + 2 <= BUFFER
  }

  // ---------------------------------------------------------------- what each socket was sent

  /** One call of broadcastMessage and the client list it went through. */
  datatype Cast = Cast(msg: Msg, clients: seq<Socket>)

  function CastsOf(ms: seq<Msg>, clients: seq<Socket>): seq<Cast> {
    seq(|ms|, i requires 0 <= i < |ms| => Cast(ms[i], clients))
  }

  /** The broadcasts of a session: only the middle ones go to its own client c0 too. */
  function SessionCasts(thread: nat, rs: seq<Round>, clients: seq<Socket>, c0: Socket): seq<Cast> {
    [Cast(Spawned(thread), clients)] + CastsOf(Rounds(thread, rs), clients + [c0]) + [Cast(Terminated(thread), clients)]
  }

  lemma RoundCasts(before: seq<Cast>, thread: nat, r: Round, clients: seq<Socket>)
    ensures before + CastsOf(RoundOf(thread, r), clients) ==
            before + [Cast(Begun, clients)] + [Cast(Inserted(r.text), clients)] + [Cast(Outcome(r.ok), clients)]
              + [Cast(MutexLocked(thread), clients)] + [Cast(Chat(thread, r.text), clients)]
  {
  }

  lemma CastsAppend(before: seq<Cast>, x: seq<Msg>, y: seq<Msg>, clients: seq<Socket>)
    ensures before + CastsOf(x, clients) + CastsOf(y, clients) == before + CastsOf(x + y, clients)
  {
  }

  lemma RoundsAppend(thread: nat, rs: seq<Round>, r: Round)
    ensures Rounds(thread, rs + [r]) == Rounds(thread, rs) + RoundOf(thread, r)
  {
    assert (rs + [r])[..|rs|] == rs;
  }

  lemma SessionCastsAre(before: seq<Cast>, thread: nat, rs: seq<Round>, clients: seq<Socket>, c0: Socket)
    ensures before + [Cast(Spawned(thread), clients)] + CastsOf(Rounds(thread, rs), clients + [c0])
              + [Cast(Terminated(thread), clients)] == before + SessionCasts(thread, rs, clients, c0)
  {
  }

  type Outbox = map<Socket, seq<Byte>>

  function Out(o: Outbox, c: Socket): seq<Byte> { if c in o then o[c] else [] }

  /** What the broadcasts put on socket c: one frame each while it is listed. */
  function Heard(render: Render, casts: seq<Cast>, c: Socket): seq<Byte> {
    if |casts| == 0 then []
    else
      var last := casts[|casts| - 1];
      Heard(render, casts[..|casts| - 1], c) + if c in last.clients then Frame(render(last.msg)) else []
  }

  ghost predicate AllSent(render: Render, casts: seq<Cast>, o: Outbox) {
    forall c: Socket :: Out(o, c) == Heard(render, casts, c)
  }

  /** The broadcasts before were sent, and of the last one the clients in `served` have their frame. */
  ghost predicate SentSoFar(render: Render, casts: seq<Cast>, o: Outbox, served: seq<Socket>, frame: seq<Byte>) {
    forall c: Socket :: Out(o, c) == Heard(render, casts, c) + if c in served then frame else []
  }

  lemma SentToNobody(render: Render, casts: seq<Cast>, o: Outbox, frame: seq<Byte>)
    requires AllSent(render, casts, o)
    ensures SentSoFar(render, casts, o, [], frame)
  {
    forall c: Socket ensures Out(o, c) == Heard(render, casts, c) + [] {
    }
  }

  lemma OutGrows(o: Outbox, served: seq<Socket>, client: Socket, frame: seq<Byte>, c: Socket, was: seq<Byte>)
    requires Out(o, c) == was + (if c in served then frame else []) && client !in served
    ensures Out(o[client := Out(o, client) + frame], c) == was + if c in served + [client] then frame else []
  {
    if c == client {
      assert was + [] == was;
    }
  }

  lemma SentToOneMore(render: Render, casts: seq<Cast>, o: Outbox, served: seq<Socket>, client: Socket, frame: seq<Byte>)
    requires SentSoFar(render, casts, o, served, frame) && client !in served
    ensures SentSoFar(render, casts, o[client := Out(o, client) + frame], served + [client], frame)
  {
    var o' := o[client := Out(o, client) + frame];
    forall c: Socket ensures Out(o', c) == Heard(render, casts, c) + if c in served + [client] then frame else [] {
      OutGrows(o, served, client, frame, c, Heard(render, casts, c));
    }
  }

  lemma SentToAll(render: Render, casts: seq<Cast>, o: Outbox, now: Cast)
    requires SentSoFar(render, casts, o, now.clients, Frame(render(now.msg)))
    ensures AllSent(render, casts + [now], o)
  {
    forall c: Socket ensures Out(o, c) == Heard(render, casts + [now], c) {
      HeardGrows(render, casts, now, c);
    }
  }

  function Stream(render: Render, ms: seq<Msg>): seq<Byte> {
    if |ms| == 0 then [] else Stream(render, ms[..|ms| - 1]) + Frame(render(ms[|ms| - 1]))
  }

  lemma {:induction false} StreamAppend(render: Render, a: seq<Msg>, b: seq<Msg>)
    ensures Stream(render, a + b) == Stream(render, a) + Stream(render, b)
  {
    if |b| == 0 {
      assert a + b == a;
    } else {
      var n := |b| - 1;
      assert (a + b)[..|a| + n] == a + b[..n] && (a + b)[|a| + n] == b[n];
      assert Stream(render, a + b) == Stream(render, a + b[..n]) + Frame(render(b[n]));
      StreamAppend(render, a, b[..n]);
      Associative(Stream(render, a), Stream(render, b[..n]), Frame(render(b[n])));
    }
  }

  lemma StreamOfOne(render: Render, m: Msg)
    ensures Stream(render, [m]) == Frame(render(m))
  {
    assert [m][..0] == [];
  }

  lemma Associative(a: seq<Byte>, b: seq<Byte>, c: seq<Byte>)
    ensures (a + b) + c == a + (b + c)
  {
  }

  lemma HeardGrows(render: Render, casts: seq<Cast>, x: Cast, c: Socket)
    ensures Heard(render, casts + [x], c) == Heard(render, casts, c) + if c in x.clients then Frame(render(x.msg)) else []
  {
    assert (casts + [x])[..|casts|] == casts;
  }

  lemma CastsGrow(before: seq<Cast>, ms: seq<Msg>, clients: seq<Socket>)
    requires |ms| > 0
    ensures before + CastsOf(ms, clients) ==
            before + CastsOf(ms[..|ms| - 1], clients) + [Cast(ms[|ms| - 1], clients)]
  {
  }

  lemma {:induction false} ListHears(render: Render, before: seq<Cast>, ms: seq<Msg>, clients: seq<Socket>, c: Socket)
    ensures Heard(render, before + CastsOf(ms, clients), c) ==
            Heard(render, before, c) + if c in clients then Stream(render, ms) else []
  {
    if |ms| == 0 {
      assert before + CastsOf(ms, clients) == before;
    } else {
      var fewer, m := ms[..|ms| - 1], ms[|ms| - 1];
      ListHears(render, before, fewer, clients, c);
      CastsGrow(before, ms, clients);
      HeardGrows(render, before + CastsOf(fewer, clients), Cast(m, clients), c);
      if c in clients {
        Associative(Heard(render, before, c), Stream(render, fewer), Frame(render(m)));
      }
    }
  }

  /** Clients listed before a session hear its whole script, its own client all but the ends, others nothing. */
  lemma SessionIsHeard(render: Render, before: seq<Cast>, thread: nat, rs: seq<Round>, clients: seq<Socket>, c0: Socket, c: Socket)
    requires c0 !in clients
    ensures Heard(render, before + SessionCasts(thread, rs, clients, c0), c) ==
            Heard(render, before, c) + if c in clients then Stream(render, Script(thread, rs))
                                       else if c == c0 then Stream(render, Rounds(thread, rs))
                                       else []
  {
    var h0 := before + [Cast(Spawned(thread), clients)];
    var h1 := h0 + CastsOf(Rounds(thread, rs), clients + [c0]);
    SessionCastsAre(before, thread, rs, clients, c0);
    HeardGrows(render, before, Cast(Spawned(thread), clients), c);
    ListHears(render, h0, Rounds(thread, rs), clients + [c0], c);
    HeardGrows(render, h1, Cast(Terminated(thread), clients), c);
    if c in clients {
      ScriptStream(render, thread, rs);
      Chain(Heard(render, before, c), Heard(render, h0, c), Heard(render, h1, c), Heard(render, h1 + [Cast(Terminated(thread), clients)], c),
        Frame(render(Spawned(thread))), Stream(render, Rounds(thread, rs)), Frame(render(Terminated(thread))));
    }
  }

  lemma Chain(w: seq<Byte>, w1: seq<Byte>, w2: seq<Byte>, w3: seq<Byte>, a: seq<Byte>, b: seq<Byte>, c: seq<Byte>)
    requires w1 == w + a && w2 == w1 + b && w3 == w2 + c
    ensures w3 == w + ((a + b) + c)
  {
    Associative(w, a, b);
    Associative(w, a + b, c);
  }

  lemma ScriptStream(render: Render, thread: nat, rs: seq<Round>)
    ensures Stream(render, Script(thread, rs)) ==
            (Frame(render(Spawned(thread))) + Stream(render, Rounds(thread, rs))) + Frame(render(Terminated(thread)))
  {
    StreamOfOne(render, Spawned(thread));
    StreamAppend(render, [Spawned(thread)], Rounds(thread, rs));
    StreamOfOne(render, Terminated(thread));
    StreamAppend(render, Opened(thread, rs), [Terminated(thread)]);
  }

  function Texts(render: Render, ms: seq<Msg>): seq<seq<Byte>> {
    if |ms| == 0 then [] else Texts(render, ms[..|ms| - 1]) + [render(ms[|ms| - 1])]
  }

  lemma {:induction false} FramesAppendOne(a: seq<seq<Byte>>, m: seq<Byte>)
    ensures FrameAll(a + [m]) == FrameAll(a) + Frame(m)
  {
    if |a| == 0 {
      assert FrameAll([m][1..]) == [];
    } else {
      FramesAppendOne(a[1..], m);
      assert (a + [m])[0] == a[0] && (a + [m])[1..] == a[1..] + [m];
      assert FrameAll(a + [m]) == Frame(a[0]) + (FrameAll(a[1..]) + Frame(m));
    }
  }

  lemma {:induction false} StreamIsFrames(render: Render, ms: seq<Msg>)
    ensures Stream(render, ms) == FrameAll(Texts(render, ms))
  {
    if |ms| > 0 {
      StreamIsFrames(render, ms[..|ms| - 1]);
      FramesAppendOne(Texts(render, ms[..|ms| - 1]), render(ms[|ms| - 1]));
    }
  }

  lemma {:induction false} TextsAreShort(render: Render, ms: seq<Msg>)
    ensures AllShort(Texts(render, ms)) <==> forall m <- ms :: |render(m)| <= 125
  {
    if |ms| > 0 {
      var front, m := ms[..|ms| - 1], ms[|ms| - 1];
      TextsAreShort(render, front);
      assert ms == front + [m] && Texts(render, ms) == Texts(render, front) + [render(m)];
    }
  }

  /** A browser reads its stream back as the messages sent exactly when all of them are short. */
  lemma StreamIsTheMessages(render: Render, ms: seq<Msg>)
    ensures ParseStream(Stream(render, ms)) == Some(Texts(render, ms)) <==> forall m <- ms :: |render(m)| <= 125
  {
    StreamIsFrames(render, ms);
    TextsAreShort(render, ms);
    StreamIsReadableExactlyWhen(Texts(render, ms));
  }

  // ---------------------------------------------------------------- what a session does to the table

  type Statement = Request -> string

  /** Which control statements work in the call for each request. */
  type Controls = nat -> Control

  /** One call of executeTransaction, on a handle that may be null. */
  function Call(sql: Sql, e: Option<Engine>, query: string, c: Control): (Option<Engine>, bool) {
    if e.None? then (None, false)
    else
      var (after, ok) := Transaction(sql, e.value, [query], c);
      (Some(after), ok)
  }

  /** What the call for the i-th request does to the engine, and what it returns. */
  type Calls = (Option<Engine>, nat, Request) -> (Option<Engine>, bool)

  function CallsOf(sql: Sql, statement: Statement, cs: Controls): Calls {
    (e: Option<Engine>, i: nat, r: Request) => Call(sql, e, statement(r), cs(i))
  }

  /** The engine after a session's requests. */
  function EngineAfter(calls: Calls, e: Option<Engine>, rs: seq<Request>): Option<Engine>
    decreases |rs|
  {
    if |rs| == 0 then e
    else
      var n := |rs| - 1;
      calls(EngineAfter(calls, e, rs[..n]), n, rs[n]).0
  }

  /** What a session reports of its requests. */
  function RoundsFor(calls: Calls, e: Option<Engine>, rs: seq<Request>): seq<Round>
    decreases |rs|
  {
    if |rs| == 0 then []
    else
      var n := |rs| - 1;
      RoundsFor(calls, e, rs[..n]) + [Round(rs[n].text, calls(EngineAfter(calls, e, rs[..n]), n, rs[n]).1)]
  }

  /** Each statement adds its text as a row, or fails. */
  ghost predicate StoresText(sql: Sql, statement: Statement) {
    forall r: Request, t :: sql(statement(r), t).None? || sql(statement(r), t) == Some(t + [r.text])
  }

  function RowsOf(rounds: seq<Round>): Table {
    if |rounds| == 0 then []
    else RowsOf(rounds[..|rounds| - 1]) + if rounds[|rounds| - 1].ok then [rounds[|rounds| - 1].text] else []
  }

  /** No transaction is open, or only one in which nothing has been written. */
  predicate Resting(e: Engine) { e.open.None? || e.open == Some(e.committed) }

  lemma CallIs(sql: Sql, e: Engine, query: string, c: Control)
    requires Resting(e)
    ensures var begun, r := Begin(e, c.begin), sql(query, e.committed);
            Call(sql, Some(e), query, c) ==
            if r.Some? then (Some(Commit(Write(begun, r.value), c.commit)), true) else (Some(Rollback(begun, c.rollback)), false)
  {
    RunOne(sql, Begin(e, c.begin), query);
  }

  /**
   * A call adds the row it reports and no other exactly when it fails, or its COMMIT works, or its
   * BEGIN was refused and the row committed itself.
   */
  lemma CallIsAccounted(sql: Sql, statement: Statement, e: Engine, r: Request, c: Control)
    requires StoresText(sql, statement) && Resting(e)
    ensures var (after, ok) := Call(sql, Some(e), statement(r), c);
            after.Some? &&
            (after.value.committed == e.committed + (if ok then [r.text] else []) <==>
             !ok || c.commit || (e.open.None? && !c.begin)) &&
            (!ok || c.commit ==> Resting(after.value))
  {
    CallIs(sql, e, statement(r), c);
    assert |e.committed + [r.text]| > |e.committed|;
  }

  /** A session whose COMMITs work adds to the table exactly the texts it reports as committed, in order. */
  lemma {:induction false} RowsAreTheCommitted(sql: Sql, statement: Statement, cs: Controls, t: Table, rs: seq<Request>)
    requires StoresText(sql, statement)
    requires forall k: nat :: k < |rs| ==> cs(k).commit
    decreases |rs|
    ensures var e := Engine(t, None);
            var after := EngineAfter(CallsOf(sql, statement, cs), Some(e), rs);
            after.Some? && Resting(after.value) &&
            after.value.committed == t + RowsOf(RoundsFor(CallsOf(sql, statement, cs), Some(e), rs))
  {
    var calls, e := CallsOf(sql, statement, cs), Some(Engine(t, None));
    if |rs| == 0 {
      assert RoundsFor(calls, e, rs) == [] && t + [] == t;
    } else {
      var n := |rs| - 1;
      RowsAreTheCommitted(sql, statement, cs, t, rs[..n]);
      var rounds := RoundsFor(calls, e, rs[..n]);
      var now := EngineAfter(calls, e, rs[..n]).value;
      CallIsAccounted(sql, statement, now, rs[n], cs(n));
      var ok := Call(sql, Some(now), statement(rs[n]), cs(n)).1;
      assert RoundsFor(calls, e, rs) == rounds + [Round(rs[n].text, ok)];
      OneMoreRow(t, rounds, Round(rs[n].text, ok));
    }
  }

  lemma OneMoreRow(t: Table, rounds: seq<Round>, now: Round)
    ensures t + RowsOf(rounds + [now]) == t + RowsOf(rounds) + if now.ok then [now.text] else []
  {
    assert (rounds + [now])[..|rounds|] == rounds;
  }

  function RequestOf(frame: seq<Byte>): Request {
    var wish := Interpret(Unmasked(Received(frame)));
    ServerMachine.Request(Handshake.Chars(wish.text), wish.rollback)
  }

  // ---------------------------------------------------------------- what a browser's frame is read as

  lemma CharOf(b: Byte)
    ensures 0 <= b as int < 256 && ((b as int) as char) as int == b as int
  {
  }

  lemma SameChar(b: Byte, d: Byte)
    requires (b as int) as char == (d as int) as char
    ensures b == d
  {
    CharOf(b);
    CharOf(d);
    SameByte(b, d);
  }

  lemma SameByte(b: Byte, d: Byte)
    requires b as int == d as int
    ensures b == d
  {
  }

  lemma CharsInjective(x: seq<Byte>, y: seq<Byte>)
    requires Handshake.Chars(x) == Handshake.Chars(y)
    ensures x == y
  {
    assert |Handshake.Chars(x)| == |x| && |Handshake.Chars(y)| == |y|;
    forall i | 0 <= i < |x| ensures x[i] == y[i] {
      assert Handshake.Chars(x)[i] == Handshake.Chars(y)[i];
      SameChar(x[i], y[i]);
    }
  }

  lemma PrefixChars()
    ensures Handshake.Chars(PREFIX) == "/rollback "
  {
  }

  lemma PrefixInChars(q: seq<Byte>)
    ensures PREFIX <= q <==> "/rollback " <= Handshake.Chars(q)
    ensures PREFIX <= q ==> Handshake.Chars(q[10..]) == Handshake.Chars(q)[10..]
  {
    PrefixChars();
    if |q| >= 10 {
      assert Handshake.Chars(q[..10]) == Handshake.Chars(q)[..10];
      if Handshake.Chars(q[..10]) == Handshake.Chars(PREFIX) {
        CharsInjective(q[..10], PREFIX);
      }
    }
  }

  lemma CharsOfBytes(p: string)
    requires forall i :: 0 <= i < |p| ==> p[i] as int < 128
    ensures Handshake.Chars(Handshake.Bytes(p)) == p
  {
    forall i | 0 <= i < |p| ensures Handshake.Chars(Handshake.Bytes(p))[i] == p[i] {
      CharOfByte(p[i]);
    }
  }

  lemma CharOfByte(c: char)
    requires c as int < 128
    ensures (Handshake.ByteOf(c) as int) as char == c
    ensures Handshake.ByteOf(c) == (c as int) as Byte
  {
    ByteAsInt(c as int);
    assert c as int % 256 == c as int;
  }

  /** An interpreted payload, in characters. */
  lemma InterpretedChars(q: seq<Byte>, x: string, rollback: bool)
    requires Handshake.Chars(q) == if rollback then "/rollback " + x else x
    ensures Handshake.Chars(Interpret(q).text) == x && Interpret(q).rollback == rollback <==> rollback || !("/rollback " <= x)
  {
    PrefixInChars(q);
    if rollback {
      assert Handshake.Chars(q)[10..] == x;
    }
  }

  /**
   * The frame a browser sends for the text x, forced or not, under any masking key, told from its bytes: the
   * server reads the text and the choice back, exactly when unforced text does not start with "/rollback ".
   */
  lemma BrowserFrameIsRead(x: string, rollback: bool, p: string, key: Key, frame: seq<Byte>)
    requires p == if rollback then "/rollback " + x else x
    requires |p| <= 125 && forall i :: 0 <= i < |p| ==> p[i] as int < 128
    requires |frame| == 6 + |p| && frame[0] == 0x81 && frame[1] as int == 0x80 + |p| && frame[2..6] == key
    requires forall i :: 0 <= i < |p| ==> frame[6..][i] == ((p[i] as int) as Byte) ^ key[i % 4]
    ensures RequestOf(frame).text == x && RequestOf(frame).rollback == rollback <==> rollback || !("/rollback " <= x)
  {
    var q := Handshake.Bytes(p);
    forall i | 0 <= i < |q| ensures frame[6..][i] == q[i] ^ key[i % 4] {
      CharOfByte(p[i]);
    }
    ShortFrameBytes(frame, key, q);
    CharsOfBytes(p);
    InterpretedChars(q, x, rollback);
  }

  type Decoder = seq<Byte> -> Request

  /** A name for RequestOf that the read loop can use without looking inside it. */
  ghost predicate Decodes(decode: Decoder) {
    forall f {:trigger RequestOf(f)} :: decode(f) == RequestOf(f)
  }

  function Requests(decode: Decoder, frames: seq<seq<Byte>>): seq<Request> {
    seq(|frames|, i requires 0 <= i < |frames| => decode(frames[i]))
  }

  /** After the first i requests: what was reported, and the engine now. */
  predicate ServedSoFar(calls: Calls, e: Option<Engine>, rs: seq<Request>, i: nat, rounds: seq<Round>, now: Option<Engine>) {
    i <= |rs| && rounds == RoundsFor(calls, e, rs[..i]) && now == EngineAfter(calls, e, rs[..i])
  }

  lemma ServeOneMore(calls: Calls, e: Option<Engine>, rs: seq<Request>, i: nat, rounds: seq<Round>, now: Option<Engine>,
                     round: Round, after: Option<Engine>)
    requires i < |rs| && ServedSoFar(calls, e, rs, i, rounds, now)
    requires round.text == rs[i].text && (after, round.ok) == calls(now, i, rs[i])
    ensures ServedSoFar(calls, e, rs, i + 1, rounds + [round], after)
  {
    assert rs[..i + 1][..i] == rs[..i];
  }

  lemma RequestIsShort(frame: seq<Byte>)
    ensures |RequestOf(frame).text| <= 127
  {
    LowBits(Received(frame)[1]);
  }

  /** Lines 77-112. */
  method ReceiveRequest(frames: seq<seq<Byte>>, i: nat, ghost decode: Decoder) returns (request: Request)
    requires i < |frames| && Decodes(decode)
    ensures request == Requests(decode, frames)[i] && |request.text| <= 127
  {
    var received := Received(frames[i]);
    var buffer := new Byte[BUFFER](i requires 0 <= i < |received| => received[i]);
    assert buffer[..] == received;
    RequestIsShort(frames[i]);
    var wish := ReadFrame(buffer);
    request := ServerMachine.Request(Handshake.Chars(wish.text), wish.rollback);
    assert request == RequestOf(frames[i]);
  }

  // ---------------------------------------------------------------- the server

  class WebSocketServer {
    var connectedClients: seq<Socket>
    const dbConnection: DBConnection
    const render: Render
    /** Every broadcast made, and the bytes sent on each socket. */
    ghost var casts: seq<Cast>
    ghost var outbox: Outbox

    ghost predicate Valid()
      reads this
    {
      ServerMachine.Distinct(connectedClients) && AllSent(render, casts, outbox)
    }

    function Store(): set<object>
      reads dbConnection
    {
      if dbConnection.db == null then {} else {dbConnection.db, dbConnection.db.file}
    }

    function EngineNow(): Option<Engine>
      reads dbConnection, Store()
    {
      if dbConnection.db == null then None else Some(dbConnection.db.Now())
    }

    constructor (db: DBConnection, render: Render)
      ensures Valid() && connectedClients == [] && casts == []
      ensures dbConnection == db && this.render == render
    {
      dbConnection := db;
      this.render := render;
      connectedClients := [];
      casts := [];
      outbox := map[];
    }

    /** One frame for each client of the list, and nothing for anyone else. */
    method BroadcastMessage(m: Msg)
      requires Valid() && |render(m)| + 2 <= BUFFER
      modifies this`casts, this`outbox
      ensures Valid() && casts == old(casts) + [Cast(m, connectedClients)]
    {
      var bytes := BuildFrame(render(m));
      SentToNobody(render, casts, outbox, bytes);
      for i := 0 to |connectedClients|
        invariant SentSoFar(render, casts, outbox, connectedClients[..i], bytes)
        invariant casts == old(casts)
      {
        var client := connectedClients[i];
        SentToOneMore(render, casts, outbox, connectedClients[..i], client, bytes);
        assert connectedClients[..i + 1] == connectedClients[..i] + [client];
        outbox := outbox[client := Out(outbox, client) + bytes];
      }
      assert connectedClients[..|connectedClients|] == connectedClients;
      SentToAll(render, casts, outbox, Cast(m, connectedClients));
      casts := casts + [Cast(m, connectedClients)];
    }

    /** Lines 70-73. */
    method JoinClient(c: Socket)
      requires Valid() && c !in connectedClients
      modifies this`connectedClients
      ensures Valid() && connectedClients == old(connectedClients) + [c]
    {
      connectedClients := connectedClients + [c];
    }

    /** Lines 83-90. */
    method LeaveClient(c: Socket)
      requires Valid()
      modifies this`connectedClients
      ensures Valid() && connectedClients == ServerMachine.RemoveFirst(old(connectedClients), c)
    {
      ServerMachine.RemoveFirstRemoves(connectedClients, c);
      var i := 0;
      while i < |connectedClients|
        invariant i <= |connectedClients| && connectedClients == old(connectedClients)
        invariant c !in connectedClients[..i]
      {
        if connectedClients[i] == c {
          RemoveFirstAt(connectedClients, c, i);
          connectedClients := connectedClients[..i] + connectedClients[i + 1..];
          return;
        }
        i := i + 1;
      }
      RemoveFirstAbsent(connectedClients, c);
    }

    /** Lines 114-150, for one request received. */
    method ServeRequest(thread: nat, request: Request, sql: Sql, statement: Statement, i: nat, cs: Controls)
      returns (ghost round: Round)
      requires Valid() && Fits(render) && |request.text| <= 127
      modifies this`casts, this`outbox, Store()
      ensures Valid() && casts == old(casts) + CastsOf(RoundOf(thread, round), connectedClients)
      ensures round.text == request.text
      ensures (EngineNow(), round.ok) == CallsOf(sql, statement, cs)(old(EngineNow()), i, request)
    {
      var text := request.text;
      BroadcastMessage(Begun);
      BroadcastMessage(Inserted(text));
      var success := dbConnection.ExecuteTransaction(sql, [statement(request)], cs(i));
      var outcome := Outcome(success);
      BroadcastMessage(outcome);
      BroadcastMessage(MutexLocked(thread));
      BroadcastMessage(Chat(thread, text));
      round := Round(text, success);
      assert (EngineNow(), success) == Call(sql, old(EngineNow()), statement(request), cs(i));
      RoundCasts(old(casts), thread, round, connectedClients);
    }

    /** A session from its opening request to its end, given the frames received until the client disconnects. */
    method HandleClient(thread: nat, socket: Socket, request: string, frames: seq<seq<Byte>>, sql: Sql, statement: Statement,
                        cs: Controls)
      returns (response: Option<string>, ghost rounds: seq<Round>)
      requires Valid() && Fits(render) && socket !in connectedClients
      modifies this, Store()
      ensures Valid() && connectedClients == old(connectedClients)
      ensures response == Opening.Answer(request)
      ensures response.None? ==> casts == old(casts) && EngineNow() == old(EngineNow())
      ensures response.Some? ==>
                rounds == RoundsFor(CallsOf(sql, statement, cs), old(EngineNow()), Requests(RequestOf, frames)) &&
                EngineNow() == EngineAfter(CallsOf(sql, statement, cs), old(EngineNow()), Requests(RequestOf, frames)) &&
                casts == old(casts) + SessionCasts(thread, rounds, connectedClients, socket)
    {
      response, rounds := None, [];
      var key := Opening.KeyIn(request);
      if key.Some? {
        var accept := Handshake.ComputeAcceptKey(key.value);
        response := Some(Opening.Response(accept));
        rounds := RunSession(thread, socket, frames, sql, statement, cs);
      }
    }

    /** Lines 61-158: a session after its handshake. */
    method RunSession(thread: nat, socket: Socket, frames: seq<seq<Byte>>, sql: Sql, statement: Statement, cs: Controls)
      returns (ghost rounds: seq<Round>)
      requires Valid() && Fits(render) && socket !in connectedClients
      modifies this, Store()
      ensures Valid() && connectedClients == old(connectedClients)
      ensures rounds == RoundsFor(CallsOf(sql, statement, cs), old(EngineNow()), Requests(RequestOf, frames))
      ensures EngineNow() == EngineAfter(CallsOf(sql, statement, cs), old(EngineNow()), Requests(RequestOf, frames))
      ensures casts == old(casts) + SessionCasts(thread, rounds, connectedClients, socket)
    {
      ghost var clients, e := connectedClients, EngineNow();
      BroadcastMessage(Spawned(thread));
      JoinClient(socket);
      assert EngineNow() == e;
      rounds := ReadLoop(thread, frames, sql, statement, cs, RequestOf);
      LastIsRemoved(clients, socket);
      LeaveClient(socket);
      BroadcastMessage(Terminated(thread));
      SessionCastsAre(old(casts), thread, rounds, clients, socket);
    }

    /** Lines 76-151. */
    method ReadLoop(thread: nat, frames: seq<seq<Byte>>, sql: Sql, statement: Statement, cs: Controls, ghost decode: Decoder)
      returns (ghost rounds: seq<Round>)
      requires Valid() && Fits(render) && Decodes(decode)
      modifies this`casts, this`outbox, Store()
      ensures Valid() && casts == old(casts) + CastsOf(Rounds(thread, rounds), connectedClients)
      ensures rounds == RoundsFor(CallsOf(sql, statement, cs), old(EngineNow()), Requests(decode, frames))
      ensures EngineNow() == EngineAfter(CallsOf(sql, statement, cs), old(EngineNow()), Requests(decode, frames))
    {
      ghost var calls, rs := CallsOf(sql, statement, cs), Requests(decode, frames);
      ghost var e, before, clients := EngineNow(), casts, connectedClients;
      ghost var said: seq<Msg> := [];
      rounds := [];
      for i := 0 to |frames|
        invariant Valid() && connectedClients == clients
        invariant casts == before + CastsOf(said, clients) && said == Rounds(thread, rounds)
        invariant ServedSoFar(calls, e, rs, i, rounds, EngineNow())
      {
        ghost var now := EngineNow();
        var request := ReceiveRequest(frames, i, decode);
        ghost var round := ServeRequest(thread, request, sql, statement, i, cs);
        ServeOneMore(calls, e, rs, i, rounds, now, round, EngineNow());
        CastsAppend(before, said, RoundOf(thread, round), clients);
        RoundsAppend(thread, rounds, round);
        rounds, said := rounds + [round], said + RoundOf(thread, round);
      }
      assert rs[..|frames|] == rs;
    }
  }

  lemma {:induction false} RemoveFirstAt(cs: seq<Socket>, c: Socket, i: nat)
    requires i < |cs| && cs[i] == c && c !in cs[..i]
    ensures ServerMachine.RemoveFirst(cs, c) == cs[..i] + cs[i + 1..]
  {
    if i > 0 {
      var rest := cs[1..];
      assert cs[0] == cs[..i][0] && rest[..i - 1] == cs[..i][1..];
      RemoveFirstAt(rest, c, i - 1);
      assert rest[i..] == cs[i + 1..];
      assert [cs[0]] + (rest[..i - 1] + rest[i..]) == cs[..i] + cs[i + 1..];
    } else {
      assert cs[..0] + cs[1..] == cs[1..];
    }
  }

  lemma LastIsRemoved(cs: seq<Socket>, c: Socket)
    requires c !in cs
    ensures ServerMachine.RemoveFirst(cs + [c], c) == cs
  {
    RemoveFirstAt(cs + [c], c, |cs|);
  }

  lemma {:induction false} RemoveFirstAbsent(cs: seq<Socket>, c: Socket)
    requires c !in cs
    ensures ServerMachine.RemoveFirst(cs, c) == cs
  {
    if |cs| > 0 {
      RemoveFirstAbsent(cs[1..], c);
    }
  }
}
