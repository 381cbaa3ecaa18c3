// What a session broadcasts, in terms of the messages it has received and of what came of each.
module Transcripts {
  import opened Browser
  import opened Database
  import opened ServerMachine
  import opened Sessions
  import opened Wrappers

  /** The texts a session has received, and whether the statement for each was carried out, as far as that is known. */
  datatype History = History(texts: seq<string>, oks: seq<bool>)

  const NOTHING: History := History([], [])

  function Noted(h: History, s: State, e: Event, k: nat): History
    requires Enabled(s, e)
  {
    if e.Message? && s.workers[e.w].session == k then h.(texts := h.texts + [e.request.text])
    else if e.Query? && s.workers[e.w].session == k && s.workers[e.w].pc.TxInsert? then h.(oks := h.oks + [e.ok])
    else h
  }

  function HistoryOf(b: Backend, s: State, es: seq<Event>, k: nat): History
    requires Exec(b, s, es).Some?
  {
    if |es| == 0 then NOTHING
    else Noted(HistoryOf(b, s, es[..|es| - 1], k), Exec(b, s, es[..|es| - 1]).value, es[|es| - 1], k)
  }

  /** The rounds whose outcome is known. */
  function Known(h: History): (rs: seq<Round>)
    requires |h.oks| <= |h.texts|
    ensures |rs| == |h.oks|
  {
    seq(|h.oks|, i requires 0 <= i < |h.oks| => Round(h.texts[i], h.oks[i]))
  }

  /** Received, and the statement not yet run. */
  predicate Waiting(v: Worker) {
    v.Busy? && (v.pc.BeginCast? || v.pc.InsertCast? || v.pc.TxBegin? || v.pc.TxInsert?)
  }

  /** The statement has been run, and the chat message not yet broadcast. */
  predicate Reporting(v: Worker) {
    v.Busy? && (v.pc.TxCommit? || v.pc.TxRollback? || v.pc.OutcomeCast? || v.pc.MutexCast? || (v.pc.ChatCast? && v.sent.None?))
  }

  function Complete(v: Worker, h: History): seq<Round>
    requires |h.oks| <= |h.texts| && (Reporting(v) ==> |h.oks| > 0)
  {
    if Reporting(v) then Known(h)[..|h.oks| - 1] else Known(h)
  }

  predicate CountsAgree(v: Worker, h: History) {
    && |h.texts| == |h.oks| + (if Waiting(v) then 1 else 0)
    && (Reporting(v) ==> |h.oks| > 0)
  }

  /** The request at hand is the last one received, and its outcome the last one known. */
  predicate AtHand(v: Worker, h: History)
    requires v.Busy? && CountsAgree(v, h)
  {
    && (Waiting(v) || Reporting(v) ==> v.request.text == h.texts[|h.texts| - 1])
    && (Reporting(v) && v.pc.TxCommit? ==> h.oks[|h.oks| - 1])
    && (Reporting(v) && v.pc.TxRollback? ==> !h.oks[|h.oks| - 1])
    && (Reporting(v) && v.pc.OutcomeCast? ==> h.oks[|h.oks| - 1] == v.pc.ok)
  }

  /** The session of worker i has broadcast ms, and h is its history. */
  predicate Tells(i: nat, v: Worker, ms: seq<Msg>, h: History) {
    && v.Busy? && CountsAgree(v, h) && AtHand(v, h)
    && SpelledOut(ms, PhaseNow(i, v), Complete(v, h), Reporting(v) ==> h.oks[|h.oks| - 1])
    && (PhaseNow(i, v).Fresh? ==> h == NOTHING)
  }

  /** A session that no worker runs. */
  predicate Told(ms: seq<Msg>, h: History) {
    var p := Scan(ms);
    && (p.Fresh? || p.Ended?) && |h.texts| == |h.oks| && SpelledOut(ms, p, Known(h), true)
    && (p.Fresh? ==> h == NOTHING)
  }

  ghost predicate Transcribed(s: State, k: nat, h: History) {
    && (forall i :: 0 <= i < |s.workers| && Runs(s.workers[i], k) ==> Tells(i, s.workers[i], Projection(s.log, k), h))
    && (Running(s.workers, k) || Told(Projection(s.log, k), h))
  }

  // ---------------------------------------------------------------- step by step

  lemma KnownGrows(h: History, ok: bool)
    requires |h.texts| == |h.oks| + 1
    ensures var longer := h.(oks := h.oks + [ok]); Known(longer)[..|h.oks|] == Known(h)
  {
  }

  lemma KnownLater(h: History, text: string)
    requires |h.texts| == |h.oks|
    ensures Known(h.(texts := h.texts + [text])) == Known(h)
  {
  }

  lemma LastKnown(h: History)
    requires |h.texts| == |h.oks| > 0
    ensures Known(h) == Known(h)[..|h.oks| - 1] + [Round(h.texts[|h.oks| - 1], h.oks[|h.oks| - 1])]
  {
  }

  lemma TellsChat(i: nat, v: Worker, u: Worker, ms: seq<Msg>, h: History)
    requires Tells(i, v, ms, h) && v.sent.None? && v.pc.ChatCast?
    requires u.Busy? && u.sent.Some? && u.pc == v.pc && u.request == v.request
    ensures Tells(i, u, ms + [MsgAt(i, v.pc, v.request)], h)
  {
    LastKnown(h);
    var rs', ok' := SpelledOutStep(ms, PhaseNow(i, v), MsgAt(i, v.pc, v.request), Complete(v, h), h.oks[|h.oks| - 1]);
  }

  /** A broadcast by the session itself. */
  lemma TellsMore(i: nat, v: Worker, u: Worker, ms: seq<Msg>, h: History)
    requires Tells(i, v, ms, h) && v.sent.None? && IsCast(v.pc)
    requires u.Busy? && u.sent.Some? && u.pc == v.pc && u.request == v.request
    ensures Tells(i, u, ms + [MsgAt(i, v.pc, v.request)], h)
  {
    if v.pc.ChatCast? {
      TellsChat(i, v, u, ms, h);
    } else {
      var p, m := PhaseNow(i, v), MsgAt(i, v.pc, v.request);
      assert Next(p, m) == PhaseNow(i, u) && !Next(p, m).Wrong?;
      assert Waiting(u) == Waiting(v) && Reporting(u) == Reporting(v);
      assert v.pc.SpawnCast? ==> Known(h) == [];
      var rs', ok' := SpelledOutStep(ms, p, m, Complete(v, h), Reporting(v) ==> h.oks[|h.oks| - 1]);
    }
  }

  /** A step that is not one of the conversation. */
  predicate GoesOn(i: nat, v: Worker, u: Worker) {
    && v.Busy? && u.Busy? && u.request == v.request && PhaseNow(i, u) == PhaseNow(i, v)
    && Waiting(u) == Waiting(v) && Reporting(u) == Reporting(v)
    && (Reporting(v) ==> u.pc == v.pc || u.pc.MutexCast? || u.pc.ChatCast? ||
                         (v.pc.TxCommit? && u.pc == OutcomeCast(true)) || (v.pc.TxRollback? && u.pc == OutcomeCast(false)))
  }

  lemma TellsStill(i: nat, v: Worker, u: Worker, ms: seq<Msg>, h: History)
    requires Tells(i, v, ms, h) && GoesOn(i, v, u)
    ensures Tells(i, u, ms, h)
  {
  }

  lemma GoesOnQuery(i: nat, v: Worker, u: Worker, ok: bool)
    requires v.Busy? && v.sent.None? && IsTx(v.pc) && !v.pc.TxInsert? && u == v.(pc := AfterQuery(v.pc, ok))
    ensures GoesOn(i, v, u)
  {
  }

  lemma GoesOnCast(i: nat, v: Worker, u: Worker)
    requires v.Busy? && v.sent.Some? && IsCast(v.pc) && !v.pc.KillCast? && u == v.(sent := None, pc := AfterCast(v.pc))
    ensures GoesOn(i, v, u)
  {
  }

  lemma GoesOnAfter(b: Backend, s: State, e: Event)
    requires MutexSound(s) && Enabled(s, e) && !e.Accept? && !e.Take? && !e.StartCast? && !e.Message? && !e.HandshakeFailed?
    requires !(e.Query? && At(s, e.w, TxInsert)) && !(e.EndCast? && s.workers[e.w].pc.KillCast?)
    ensures GoesOn(e.w, s.workers[e.w], Moved(s, e))
  {
    var v, u := s.workers[e.w], Moved(s, e);
    if e.Query? {
      GoesOnQuery(e.w, v, u, e.ok);
    } else if e.EndCast? {
      assert Sending(v);
      GoesOnCast(e.w, v, u);
    } else if e.SendOne? {
      assert Reporting(u) == Reporting(v);
    } else {
      assert !Reporting(v) && !Reporting(u) && !Waiting(v) && !Waiting(u);
    }
  }

  lemma TellsReceived(w: nat, v: Worker, u: Worker, r: Request, ms: seq<Msg>, h: History)
    requires Tells(w, v, ms, h) && v.pc.Receive? && v.sent.None? && u == v.(pc := BeginCast, request := r)
    ensures Tells(w, u, ms, h.(texts := h.texts + [r.text]))
  {
    KnownLater(h, r.text);
  }

  lemma TellsInserted(w: nat, v: Worker, u: Worker, ok: bool, ms: seq<Msg>, h: History)
    requires Tells(w, v, ms, h) && v.pc.TxInsert? && v.sent.None? && u == v.(pc := AfterQuery(TxInsert, ok))
    ensures Tells(w, u, ms, h.(oks := h.oks + [ok]))
  {
    KnownGrows(h, ok);
  }

  /** A step of the session that broadcasts nothing. */
  lemma TellsOn(b: Backend, s: State, e: Event, ms: seq<Msg>, h: History)
    requires MutexSound(s) && Enabled(s, e) && !e.Accept? && !e.Take? && !e.StartCast?
    requires Tells(e.w, s.workers[e.w], ms, h) && Moved(s, e).Busy?
    ensures Tells(e.w, Moved(s, e), ms, Noted(h, s, e, s.workers[e.w].session))
  {
    var v, u := s.workers[e.w], Moved(s, e);
    if e.Message? {
      TellsReceived(e.w, v, u, e.request, ms, h);
    } else if e.Query? && v.pc.TxInsert? {
      TellsInserted(e.w, v, u, e.ok, ms, h);
    } else {
      GoesOnAfter(b, s, e);
      TellsStill(e.w, v, u, ms, h);
    }
  }

  lemma TellsTheEnd(b: Backend, s: State, e: Event, ms: seq<Msg>, h: History)
    requires MutexSound(s) && Enabled(s, e) && !e.Accept? && !e.Take? && !e.StartCast?
    requires Tells(e.w, s.workers[e.w], ms, h) && Moved(s, e).Idle? && Scan(ms) == PhaseNow(e.w, s.workers[e.w])
    ensures Told(ms, Noted(h, s, e, s.workers[e.w].session))
  {
    SilentStep(b, s, e);
  }

  /** Nothing about session k has changed. */
  predicate Unconcerned(s: State, t: State, k: nat) {
    && |t.workers| == |s.workers| && Projection(t.log, k) == Projection(s.log, k)
    && forall i :: 0 <= i < |s.workers| && (Runs(s.workers[i], k) || Runs(t.workers[i], k)) ==> t.workers[i] == s.workers[i]
  }

  lemma StillTranscribed(s: State, t: State, k: nat, h: History)
    requires Transcribed(s, k, h) && Unconcerned(s, t, k)
    ensures Transcribed(t, k, h)
  {
    if Running(s.workers, k) {
      StillRunning(s.workers, t.workers, k);
    }
  }

  /** Another session's event, or an accepted connection. */
  lemma NotConcerned(b: Backend, s: State, e: Event, k: nat, h: History)
    requires Enabled(s, e) && (e.Accept? || (!Runs(s.workers[e.w], k) && !Runs(Moved(s, e), k)))
    ensures Unconcerned(s, Apply(b, s, e), k) && Noted(h, s, e, k) == h
  {
    var t := Apply(b, s, e);
    if e.StartCast? {
      StartIs(b, s, e.w);
      ProjectionGrows(s.log, t.log[|s.log|], k);
    } else {
      assert t.log == s.log;
      assert t.workers == if e.Accept? then s.workers else s.workers[e.w := Moved(s, e)];
    }
  }

  lemma Starts(b: Backend, s: State, w: nat, k: nat, h: History)
    requires Numbered(s) && Tracked(s) && Transcribed(s, k, h) && Enabled(s, Take(w)) && k == s.sessions
    ensures Transcribed(Apply(b, s, Take(w)), k, h)
  {
    var t := Apply(b, s, Take(w));
    forall i | 0 <= i < |s.workers| ensures !Runs(s.workers[i], k) {
    }
    assert !Running(s.workers, k) && Projection(s.log, k) == [];
    assert Known(h) == [];
    assert Runs(t.workers[w], k);
  }

  lemma OneRunner(s: State, w: nat, k: nat)
    requires Numbered(s) && w < |s.workers| && Runs(s.workers[w], k)
    ensures forall i :: 0 <= i < |s.workers| && Runs(s.workers[i], k) ==> i == w
  {
  }

  lemma ByItsRunner(t: State, w: nat, k: nat, h: History)
    requires w < |t.workers| && Runs(t.workers[w], k) && Tells(w, t.workers[w], Projection(t.log, k), h)
    requires forall i :: 0 <= i < |t.workers| && Runs(t.workers[i], k) ==> i == w
    ensures Transcribed(t, k, h)
  {
  }

  /** Worker w starts the broadcast it stands at. */
  predicate StartsCast(s: State, t: State, w: nat) {
    && w < |s.workers| == |t.workers| && t.workers == s.workers[w := t.workers[w]]
    && s.workers[w].Busy? && t.workers[w].Busy? && IsCast(s.workers[w].pc) && s.workers[w].sent.None? && t.workers[w].sent.Some?
    && t.workers[w].pc == s.workers[w].pc && t.workers[w].request == s.workers[w].request
    && t.workers[w].session == s.workers[w].session
    && t.log == s.log + [Entry(s.workers[w].session, MsgAt(w, s.workers[w].pc, s.workers[w].request))]
  }

  lemma StartIs(b: Backend, s: State, w: nat)
    requires Enabled(s, StartCast(w))
    ensures StartsCast(s, Apply(b, s, StartCast(w)), w)
  {
  }

  lemma OwnBroadcast(s: State, t: State, w: nat, k: nat, h: History)
    requires Numbered(s) && Transcribed(s, k, h) && StartsCast(s, t, w) && Runs(s.workers[w], k)
    ensures Transcribed(t, k, h)
  {
    var v := s.workers[w];
    ProjectionGrows(s.log, Entry(v.session, MsgAt(w, v.pc, v.request)), k);
    TellsMore(w, v, t.workers[w], Projection(s.log, k), h);
    OneRunner(s, w, k);
    ByItsRunner(t, w, k, h);
  }

  lemma OwnStep(b: Backend, s: State, e: Event, k: nat, h: History)
    requires MutexSound(s) && Numbered(s) && Tracked(s) && Transcribed(s, k, h) && Enabled(s, e)
    requires !e.Accept? && !e.Take? && !e.StartCast? && Runs(s.workers[e.w], k)
    ensures Transcribed(Apply(b, s, e), k, Noted(h, s, e, k))
  {
    var t := Apply(b, s, e);
    SilentStep(b, s, e);
    OneRunner(s, e.w, k);
    var ms := Projection(s.log, k);
    if t.workers[e.w].Busy? {
      TellsOn(b, s, e, ms, h);
      ByItsRunner(t, e.w, k, Noted(h, s, e, k));
    } else {
      TellsTheEnd(b, s, e, ms, h);
    }
  }

  lemma TranscribedStep(b: Backend, s: State, e: Event, k: nat, h: History)
    requires MutexSound(s) && Numbered(s) && Tracked(s) && Transcribed(s, k, h) && Enabled(s, e)
    ensures Transcribed(Apply(b, s, e), k, Noted(h, s, e, k))
  {
    if e.Accept? {
      NotConcerned(b, s, e, k, h);
      StillTranscribed(s, Apply(b, s, e), k, h);
    } else if e.Take? && k == s.sessions {
      Starts(b, s, e.w, k, h);
    } else if !e.Take? && Runs(s.workers[e.w], k) {
      if e.StartCast? {
        StartIs(b, s, e.w);
        OwnBroadcast(s, Apply(b, s, e), e.w, k, h);
      } else {
        OwnStep(b, s, e, k, h);
      }
    } else {
      NotConcerned(b, s, e, k, h);
      StillTranscribed(s, Apply(b, s, e), k, h);
    }
  }

  lemma {:induction false} TranscribedRun(b: Backend, n: nat, table: Table, es: seq<Event>, t: State, k: nat)
    requires Exec(b, Initial(n, table), es) == Some(t)
    ensures Transcribed(t, k, HistoryOf(b, Initial(n, table), es, k))
  {
    if |es| > 0 {
      var before, e := Exec(b, Initial(n, table), es[..|es| - 1]).value, es[|es| - 1];
      TranscribedRun(b, n, table, es[..|es| - 1], before, k);
      TrackedRun(b, n, table, es[..|es| - 1], before);
      WiredRun(b, n, table, es[..|es| - 1], before);
      TranscribedStep(b, before, e, k, HistoryOf(b, Initial(n, table), es[..|es| - 1], k));
    }
  }

  // ---------------------------------------------------------------- the theorem

  /** All rounds of a history, the last one with a guess for an outcome not yet known. */
  function AllRounds(h: History, guess: bool): seq<Round>
    requires |h.oks| <= |h.texts|
  {
    Known(h) + if |h.texts| > |h.oks| then [Round(h.texts[|h.texts| - 1], guess)] else []
  }

  /**
   * The broadcasts ms are, on one thread, those of the rounds of the history h: every text received but
   * the last has been dealt with in full, and of the last they are the beginning, or all.
   */
  ghost predicate Transcript(ms: seq<Msg>, thread: nat, h: History)
    requires |h.oks| <= |h.texts| <= |h.oks| + 1
  {
    && (forall guess :: FollowsScript(ms, thread, AllRounds(h, guess)))
    && (|h.texts| > 0 ==> Opened(thread, AllRounds(h, true)[..|h.texts| - 1]) <= ms)
  }

  lemma OpenedPrefix(thread: nat, rs: seq<Round>, r: Round, part: seq<Msg>)
    requires part <= RoundOf(thread, r)
    ensures Opened(thread, rs) + part <= Script(thread, rs + [r])
  {
    OneMoreRound(thread, rs, r);
  }

  lemma ReportingFits(i: nat, v: Worker, ok: bool)
    requires Reporting(v) && (v.sent.Some? ==> IsCast(v.pc))
    ensures var p := PhaseNow(i, v);
            !p.Fresh? && !p.Ended? && !p.Wrong? && p.thread == i && Partial(p, ok) <= RoundOf(i, Round(v.request.text, ok))
  {
  }

  lemma WaitingFits(i: nat, v: Worker, guess: bool)
    requires Waiting(v) && (v.sent.Some? ==> IsCast(v.pc))
    ensures var p := PhaseNow(i, v);
            !p.Fresh? && !p.Ended? && !p.Wrong? && p.thread == i && Partial(p, true) <= RoundOf(i, Round(v.request.text, guess))
  {
  }

  lemma RestFits(i: nat, v: Worker)
    requires v.Busy? && !Reporting(v) && !Waiting(v) && (v.sent.Some? ==> IsCast(v.pc))
    ensures var p := PhaseNow(i, v); p.Fresh? || ((p.Ready? || p.Ended?) && p.thread == i)
  {
  }

  lemma TellsTranscript(i: nat, v: Worker, ms: seq<Msg>, h: History)
    requires Tells(i, v, ms, h) && (v.sent.Some? ==> IsCast(v.pc))
    ensures Transcript(ms, i, h)
  {
    var p := PhaseNow(i, v);
    if Reporting(v) {
      ReportingFits(i, v, h.oks[|h.oks| - 1]);
      ReportingTranscript(i, p, ms, h);
    } else if Waiting(v) {
      forall guess ensures Partial(p, true) <= RoundOf(i, Round(h.texts[|h.oks|], guess)) {
        WaitingFits(i, v, guess);
      }
      WaitingFits(i, v, true);
      WaitingTranscript(i, p, ms, h);
    } else {
      RestFits(i, v);
      if p.Fresh? {
        SilentTranscript(i, ms, h);
      } else {
        RestTranscript(i, p, ms, h);
      }
    }
  }

  lemma SilentTranscript(i: nat, ms: seq<Msg>, h: History)
    requires ms == [] && h == NOTHING
    ensures Transcript(ms, i, h)
  {
  }

  lemma ReportingTranscript(i: nat, p: Phase, ms: seq<Msg>, h: History)
    requires |h.texts| == |h.oks| > 0 && !p.Fresh? && !p.Ended? && !p.Wrong? && p.thread == i
    requires SpelledOut(ms, p, Known(h)[..|h.oks| - 1], h.oks[|h.oks| - 1])
    requires Partial(p, h.oks[|h.oks| - 1]) <= RoundOf(i, Round(h.texts[|h.oks| - 1], h.oks[|h.oks| - 1]))
    ensures Transcript(ms, i, h)
  {
    var n := |h.oks| - 1;
    LastKnown(h);
    OpenedPrefix(i, Known(h)[..n], Round(h.texts[n], h.oks[n]), Partial(p, h.oks[n]));
    assert forall guess :: AllRounds(h, guess) == Known(h);
  }

  lemma WaitingTranscript(i: nat, p: Phase, ms: seq<Msg>, h: History)
    requires |h.texts| == |h.oks| + 1 && !p.Fresh? && !p.Ended? && !p.Wrong? && p.thread == i
    requires SpelledOut(ms, p, Known(h), true)
    requires forall guess :: Partial(p, true) <= RoundOf(i, Round(h.texts[|h.oks|], guess))
    ensures Transcript(ms, i, h)
  {
    forall guess ensures FollowsScript(ms, i, AllRounds(h, guess)) {
      OpenedPrefix(i, Known(h), Round(h.texts[|h.oks|], guess), Partial(p, true));
    }
    assert AllRounds(h, true)[..|h.oks|] == Known(h);
  }

  lemma RestTranscript(i: nat, p: Phase, ms: seq<Msg>, h: History)
    requires |h.texts| == |h.oks| && (p.Ready? || p.Ended?) && p.thread == i && SpelledOut(ms, p, Known(h), true)
    ensures Transcript(ms, i, h)
  {
    assert forall guess :: AllRounds(h, guess) == Known(h);
    if |h.texts| > 0 {
      LastKnown(h);
      OneMoreRound(i, Known(h)[..|h.oks| - 1], Round(h.texts[|h.oks| - 1], h.oks[|h.oks| - 1]));
    }
  }

  lemma ToldTranscript(ms: seq<Msg>, h: History) returns (thread: nat)
    requires Told(ms, h)
    ensures Transcript(ms, thread, h) && (ms == [] || ms == Script(thread, Known(h)))
  {
    var p := Scan(ms);
    thread := if p.Fresh? then 0 else p.thread;
    assert AllRounds(h, true) == Known(h) == AllRounds(h, false);
    if p.Ended? && |h.texts| > 0 {
      LastKnown(h);
      OneMoreRound(thread, Known(h)[..|h.oks| - 1], Round(h.texts[|h.oks| - 1], h.oks[|h.oks| - 1]));
    }
  }

  /**
   * In every reachable state the broadcasts of a session are the transcript of the messages it has
   * received and of what came of them; if it is over, the complete one.
   */
  lemma TranscriptIsTheRequests(b: Backend, n: nat, table: Table, es: seq<Event>, t: State, k: nat)
    requires Exec(b, Initial(n, table), es) == Some(t)
    ensures var h := HistoryOf(b, Initial(n, table), es, k);
            |h.oks| <= |h.texts| <= |h.oks| + 1 && exists thread :: Transcript(Projection(t.log, k), thread, h)
    ensures var h := HistoryOf(b, Initial(n, table), es, k);
            !Running(t.workers, k) ==>
              |h.texts| == |h.oks| &&
              (Projection(t.log, k) == [] || exists thread :: Projection(t.log, k) == Script(thread, Known(h)))
  {
    TranscribedRun(b, n, table, es, t, k);
    WiredRun(b, n, table, es, t);
    var h, ms := HistoryOf(b, Initial(n, table), es, k), Projection(t.log, k);
    if Running(t.workers, k) {
      var i :| 0 <= i < |t.workers| && Runs(t.workers[i], k);
      TellsTranscript(i, t.workers[i], ms, h);
    } else {
      var thread := ToldTranscript(ms, h);
    }
  }
}
