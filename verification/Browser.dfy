// The messages the server broadcasts, and what a browser's page makes of them (App.jsx).
module Browser {
  /** The broadcast JSON objects; a thread is named by the pool worker it runs on. */
  datatype Msg = Spawned(thread: nat) | Begun | Inserted(text: string) | Committed | RolledBack
               | MutexLocked(thread: nat) | Chat(thread: nat, text: string) | Terminated(thread: nat)

  /** A line of the chat panel: a broadcast, or what the user has sent from this page. */
  datatype Line = Broadcast(msg: Msg) | Own(text: string)

  /** The page's state; the time stamps of the log entries are left out. */
  datatype Page = Page(messages: seq<Line>, osLogs: seq<Msg>, dbLogs: seq<Msg>, activeThreads: set<nat>)

  const EMPTY: Page := Page([], [], [], {})

  /** The onmessage handler. */
  function OnMessage(p: Page, m: Msg): Page {
    match m
    case Chat(_, _) => p.(messages := p.messages + [Broadcast(m)])
    case Begun => p.(dbLogs := p.dbLogs + [m])
    case Inserted(_) => p.(dbLogs := p.dbLogs + [m])
    case Committed => p.(dbLogs := p.dbLogs + [m])
    case RolledBack => p.(dbLogs := p.dbLogs + [m])
    case Spawned(t) => p.(osLogs := p.osLogs + [m], activeThreads := p.activeThreads + {t})
    case Terminated(t) => p.(osLogs := p.osLogs + [m], activeThreads := p.activeThreads - {t})
    case MutexLocked(_) => p.(osLogs := p.osLogs + [m])
  }

  /** sendMessage with an open socket: what is sent is echoed at once. */
  function OnSend(p: Page, text: string): Page {
    if text == "" then p else p.(messages := p.messages + [Own(text)])
  }

  datatype Input = Arrival(msg: Msg) | Typed(text: string)

  /** The page after frames received and messages sent, in the order they happened. */
  function Show(inputs: seq<Input>): Page {
    if |inputs| == 0 then EMPTY
    else
      var last, before := inputs[|inputs| - 1], Show(inputs[..|inputs| - 1]);
      if last.Arrival? then OnMessage(before, last.msg) else OnSend(before, last.text)
  }

  function FramesOf(inputs: seq<Input>): seq<Msg> {
    if |inputs| == 0 then []
    else
      var last, before := inputs[|inputs| - 1], FramesOf(inputs[..|inputs| - 1]);
      if last.Arrival? then before + [last.msg] else before
  }

  /** The page of a user who only listens. */
  function Consume(frames: seq<Msg>): Page {
    if |frames| == 0 then EMPTY else OnMessage(Consume(frames[..|frames| - 1]), frames[|frames| - 1])
  }

  lemma ConsumeOne(frames: seq<Msg>, m: Msg)
    ensures Consume(frames + [m]) == OnMessage(Consume(frames), m)
  {
    assert (frames + [m])[..|frames|] == frames;
  }

  predicate IsChat(m: Msg) { m.Chat? }

  predicate IsOsEvent(m: Msg) { m.Spawned? || m.Terminated? || m.MutexLocked? }

  predicate IsDbEvent(m: Msg) { !IsChat(m) && !IsOsEvent(m) }

  function Select(keep: Msg -> bool, ms: seq<Msg>): seq<Msg> {
    if |ms| == 0 then []
    else
      var last, before := ms[|ms| - 1], Select(keep, ms[..|ms| - 1]);
      if keep(last) then before + [last] else before
  }

  /** The texts sent from the page; an empty one is not sent. */
  function SentOf(inputs: seq<Input>): seq<string> {
    if |inputs| == 0 then []
    else
      var last, before := inputs[|inputs| - 1], SentOf(inputs[..|inputs| - 1]);
      if last.Typed? && last.text != "" then before + [last.text] else before
  }

  function BroadcastsIn(lines: seq<Line>): seq<Msg> {
    if |lines| == 0 then []
    else
      var last, before := lines[|lines| - 1], BroadcastsIn(lines[..|lines| - 1]);
      if last.Broadcast? then before + [last.msg] else before
  }

  function OwnIn(lines: seq<Line>): seq<string> {
    if |lines| == 0 then []
    else
      var last, before := lines[|lines| - 1], OwnIn(lines[..|lines| - 1]);
      if last.Own? then before + [last.text] else before
  }

  lemma OneMoreLine(lines: seq<Line>, line: Line)
    ensures BroadcastsIn(lines + [line]) == if line.Broadcast? then BroadcastsIn(lines) + [line.msg] else BroadcastsIn(lines)
    ensures OwnIn(lines + [line]) == if line.Own? then OwnIn(lines) + [line.text] else OwnIn(lines)
  {
    assert (lines + [line])[..|lines|] == lines;
  }

  lemma SelectOne(keep: Msg -> bool, ms: seq<Msg>, m: Msg)
    ensures Select(keep, ms + [m]) == if keep(m) then Select(keep, ms) + [m] else Select(keep, ms)
  {
    assert (ms + [m])[..|ms|] == ms;
  }

  /**
   * The panels hold the frames of their kind, in order; the chat panel also holds what the user has
   * sent, in order, and every frame and every text sent is in exactly one place.
   */
  predicate Holds(p: Page, frames: seq<Msg>, sent: seq<string>) {
    && BroadcastsIn(p.messages) == Select(IsChat, frames) && OwnIn(p.messages) == sent
    && p.osLogs == Select(IsOsEvent, frames) && p.dbLogs == Select(IsDbEvent, frames)
    && |p.messages| + |p.osLogs| + |p.dbLogs| == |frames| + |sent|
  }

  lemma HoldsFrame(p: Page, frames: seq<Msg>, sent: seq<string>, m: Msg)
    requires Holds(p, frames, sent)
    ensures Holds(OnMessage(p, m), frames + [m], sent)
  {
    SelectOne(IsChat, frames, m);
    SelectOne(IsOsEvent, frames, m);
    SelectOne(IsDbEvent, frames, m);
    OneMoreLine(p.messages, Broadcast(m));
  }

  lemma HoldsSent(p: Page, frames: seq<Msg>, sent: seq<string>, text: string)
    requires Holds(p, frames, sent)
    ensures Holds(OnSend(p, text), frames, if text == "" then sent else sent + [text])
  {
    OneMoreLine(p.messages, Own(text));
  }

  lemma {:induction false} PanelsHoldTheFrames(inputs: seq<Input>)
    ensures Holds(Show(inputs), FramesOf(inputs), SentOf(inputs)) && "" !in OwnIn(Show(inputs).messages)
  {
    if |inputs| > 0 {
      var front, last := inputs[..|inputs| - 1], inputs[|inputs| - 1];
      PanelsHoldTheFrames(front);
      if last.Arrival? {
        HoldsFrame(Show(front), FramesOf(front), SentOf(front), last.msg);
      } else {
        HoldsSent(Show(front), FramesOf(front), SentOf(front), last.text);
      }
    }
  }

  /** What the user sends does not change which threads the page shows. */
  lemma {:induction false} SendingKeepsThreads(inputs: seq<Input>)
    ensures Show(inputs).activeThreads == Consume(FramesOf(inputs)).activeThreads
  {
    if |inputs| > 0 {
      var front, last := inputs[..|inputs| - 1], inputs[|inputs| - 1];
      SendingKeepsThreads(front);
      if last.Arrival? {
        ConsumeOne(FramesOf(front), last.msg);
      }
    }
  }
}
