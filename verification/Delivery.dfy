// Broadcasting and framing together: what a browser can read from the bytes sent to it, under
// every interleaving.
module Delivery {
  import opened Broadcasts
  import opened Browser
  import opened Database
  import opened Framing
  import opened ServerMachine
  import opened WebSocketServer
  import opened Wrappers

  /** The bytes a run has sent on socket c since c was last accepted: one frame for each send. */
  function BytesSent(render: Render, b: Backend, s: State, es: seq<Event>, c: Socket): seq<Byte>
    requires Exec(b, s, es).Some?
  {
    if |es| == 0 then []
    else
      var front, last := es[..|es| - 1], es[|es| - 1];
      var before, sofar := Exec(b, s, front).value, BytesSent(render, b, s, front, c);
      if last == Accept(c) then []
      else if last.SendOne? && Recipient(before, last.w) == c then sofar + Frame(render(SentNow(before, last.w)))
      else sofar
  }

  /** The client and the message of a send. */
  function Recipient(s: State, w: nat): Socket
    requires Enabled(s, SendOne(w))
  {
    s.clients[s.workers[w].sent.value]
  }

  function SentNow(s: State, w: nat): Msg
    requires Enabled(s, SendOne(w))
  {
    MsgAt(w, s.workers[w].pc, s.workers[w].request)
  }

  function Inbox(s: State, c: Socket): seq<Msg> { if c in s.inbox then s.inbox[c] else [] }

  lemma InboxStep(b: Backend, s: State, e: Event, c: Socket)
    requires Enabled(s, e)
    ensures Inbox(Apply(b, s, e), c) ==
            if e == Accept(c) then []
            else if e.SendOne? && Recipient(s, e.w) == c then Inbox(s, c) + [SentNow(s, e.w)]
            else Inbox(s, c)
  {
  }

  lemma {:induction false} BytesAreTheInbox(render: Render, b: Backend, s: State, es: seq<Event>, t: State, c: Socket)
    requires Exec(b, s, es) == Some(t) && Inbox(s, c) == []
    ensures BytesSent(render, b, s, es, c) == Stream(render, Inbox(t, c))
  {
    if |es| > 0 {
      var before, e := Exec(b, s, es[..|es| - 1]).value, es[|es| - 1];
      BytesAreTheInbox(render, b, s, es[..|es| - 1], before, c);
      InboxStep(b, before, e, c);
      if e.SendOne? && Recipient(before, e.w) == c {
        assert (Inbox(before, c) + [SentNow(before, e.w)])[..|Inbox(before, c)|] == Inbox(before, c);
      }
    }
  }

  /**
   * Under every interleaving, the bytes sent to a client parse as exactly the broadcasts made from
   * its join to its leave, or so far, if and only if each of these has at most 125 bytes.
   */
  lemma BytesAreTheLog(render: Render, b: Backend, n: nat, table: Table, es: seq<Event>, t: State, c: Socket)
    requires Exec(b, Initial(n, table), es) == Some(t) && (c in t.clients || c in t.left)
    ensures c in t.joined && c in t.inbox && t.joined[c] <= EndOf(t, c) <= |t.log|
    ensures var part := Segment(t.log, t.joined[c], EndOf(t, c));
            ParseStream(BytesSent(render, b, Initial(n, table), es, c)) == Some(Texts(render, part)) <==>
            forall m <- part :: |render(m)| <= 125
  {
    TotalOrderBroadcast(b, n, table, es, t, c);
    BytesAreTheInbox(render, b, Initial(n, table), es, t, c);
    StreamIsTheMessages(render, t.inbox[c]);
  }
}
