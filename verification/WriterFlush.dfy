/**
 That the write buffer writes: when a flush starts and what it takes, that nothing replaces one under
 way, what it reports as seen, and that the buffer can always be drained.
 */
module WriterFlush {
  import opened Writer

  lemma {:induction false} RunStaysBounded(cfg: Config, h: History, events: seq<Event>)
    requires cfg.Valid() && Bounded(cfg, h.w)
    ensures Bounded(cfg, Replay(cfg, h, events).w)
    decreases |events|
  {
    hide Bounded;
    if events != [] {
      BoundedStep(cfg, h.w, events[0]);
      RunStaysBounded(cfg, Advance(cfg, h, events[0]), events[1..]);
    }
  }

  lemma ReplayTwo(cfg: Config, h: History, d: Event, e: Event)
    ensures Replay(cfg, h, [d, e]) == Advance(cfg, Advance(cfg, h, d), e)
  {
    assert [d, e][1..] == [e] && [e][1..] == [];
    assert Replay(cfg, Advance(cfg, h, d), [e]) == Advance(cfg, Advance(cfg, h, d), e);
  }

  /**
   In any state with no flush under way, a timer tick hands the whole buffer to the database, in order, with the
   sensors touched since the last one, and a write that succeeds leaves nothing behind.
   */
  lemma FlushWritesTheBuffer(cfg: Config, h: History, n: nat)
    requires !h.w.flushing
    ensures var out, done := Advance(cfg, h, Tick), Replay(cfg, h, [Tick, Succeeded(n)]);
            && out.w.flushing == (h.w.buffer != [])
            && (h.w.buffer != [] ==> out.w.batch == h.w.buffer && out.w.batchTouched == h.w.touched && out.w.buffer == [] && out.w.touched == {})
            && done.flushed == h.flushed + h.w.buffer && done.w.buffer == [] && !done.w.flushing
            && done.w.batch == (if h.w.buffer == [] then h.w.batch else [])
            && done.shed == h.shed && done.stream == h.stream
            && done.w.written == h.w.written + (if h.w.buffer == [] then 0 else n)
            && done.w.flushes == h.w.flushes + (if h.w.buffer == [] then 0 else 1)
  {
    ReplayTwo(cfg, h, Tick, Succeeded(n));
  }

  /** The newest rows of a sequence, as many as fit. */
  function Newest(cfg: Config, rows: seq<Reading>): seq<Reading> {
    if |rows| <= cfg.maxRows then rows else rows[|rows| - cfg.maxRows..]
  }

  /**
   With no flush under way, an enqueue that leaves at least the threshold of rows starts one that takes all of them; one that
   leaves fewer starts none. Either way only what does not fit is shed, oldest first.
   */
  lemma EnqueueFlushesAtTheThreshold(cfg: Config, h: History, rs: seq<Reading>)
    requires cfg.Valid() && Bounded(cfg, h.w) && !h.w.flushing
    ensures var v, kept := Advance(cfg, h, Enqueue(rs)), Newest(cfg, h.w.buffer + rs);
            && v.shed + kept == h.shed + (h.w.buffer + rs)
            && (if |kept| >= cfg.flushRows then v.w.flushing && v.w.batch == kept && v.w.buffer == []
                else !v.w.flushing && v.w.batch == [] && v.w.buffer == kept)
  {
    var all := h.w.buffer + rs;
    var over := if |all| > cfg.maxRows then |all| - cfg.maxRows else 0;
    assert h.shed + all[..over] + all[over..] == h.shed + all;
    assert all[0..] == all;
  }

  /** A flush under way is not replaced: until it ends its batch stays as it is, and new readings wait in the buffer. */
  lemma FlushUnderWayStays(cfg: Config, h: History, e: Event)
    requires h.w.flushing && |h.w.buffer| <= cfg.maxRows && (e.Tick? || e.Enqueue?)
    ensures var v, all := Advance(cfg, h, e), h.w.buffer + (if e.Enqueue? then e.readings else []);
            && v.w.flushing && v.w.batch == h.w.batch && v.w.batchTouched == h.w.batchTouched && v.flushed == h.flushed
            && v.w.buffer == Newest(cfg, all) && v.shed + v.w.buffer == h.shed + all
  {
    var all := h.w.buffer + (if e.Enqueue? then e.readings else []);
    var over := if |all| > cfg.maxRows then |all| - cfg.maxRows else 0;
    assert h.shed + all[..over] + all[over..] == h.shed + all;
    assert all[0..] == all;
  }

  /** A flush that fails is as if it had not started: its batch is back in front, with only what no longer fits shed. */
  lemma FailureUndoesTheFlush(cfg: Config, h: History)
    requires h.w.flushing
    ensures var v := Advance(cfg, h, Failed);
            && !v.w.flushing && v.w.batch == [] && v.flushed == h.flushed
            && v.w.buffer == Newest(cfg, h.w.batch + h.w.buffer) && v.shed + v.w.buffer == h.shed + (h.w.batch + h.w.buffer)
            && v.w.touched == h.w.touched + h.w.batchTouched && v.w.failedFlushes == h.w.failedFlushes + 1
  {
    var all := h.w.batch + h.w.buffer;
    var over := if |all| > cfg.maxRows then |all| - cfg.maxRows else 0;
    assert h.shed + all[..over] + all[over..] == h.shed + all;
    assert all[0..] == all;
  }

  /** After any run, letting the flush under way end well and one more run writes everything that was not shed. */
  lemma BufferDrains(cfg: Config, events: seq<Event>, m: nat, n: nat)
    requires cfg.Valid()
    ensures var h := Replay(cfg, START, events);
            var end := Replay(cfg, Advance(cfg, h, Succeeded(m)), [Tick, Succeeded(n)]);
            && end.stream == h.stream && end.shed == h.shed && end.w.buffer == [] && end.w.batch == []
            && multiset(h.stream) == multiset(end.flushed) + multiset(end.shed)
  {
    var h := Replay(cfg, START, events);
    BufferIsASuffixAndNothingIsLost(cfg, START, events);
    var g := Advance(cfg, h, Succeeded(m));
    RunStaysBounded(cfg, START, events);
    hide Replay;
    assert h.stream + [] == h.stream && h.shed + [] == h.shed && h.flushed + [] == h.flushed;
    assert g.stream == h.stream && g.shed == h.shed && g.w.buffer == h.w.buffer && !g.w.flushing;
    assert g.w.batch == [];
    assert multiset(g.flushed) == multiset(h.flushed) + multiset(h.w.batch);
    FlushWritesTheBuffer(cfg, g, n);
    assert multiset(g.flushed + g.w.buffer) == multiset(g.flushed) + multiset(g.w.buffer);
  }

  // ----- what is reported as seen -----

  /** The (tenant, sensor) pairs that successful flushes of a run marked as seen. */
  function Marked(cfg: Config, w: State, events: seq<Event>): set<(string, string)>
    decreases |events|
  {
    if events == [] then {}
    else (if events[0].Succeeded? && w.flushing then w.batchTouched else {}) + Marked(cfg, Step(cfg, w, events[0]), events[1..])
  }

  /** Which pairs a state still has to mark. */
  function Owing(w: State): set<(string, string)> { w.touched + w.batchTouched }

  lemma MarkingStep(cfg: Config, w: State, e: Event)
    requires cfg.Valid() && Bounded(cfg, w)
    ensures (if e.Succeeded? && w.flushing then w.batchTouched else {}) + Owing(Step(cfg, w, e))
            == Owing(w) + (if e.Enqueue? then Pairs(e.readings) else {})
  {}

  /**
   Over every run, the sensors marked as seen and those still owed a mark are together exactly the sensors of everything
   enqueued: none that sent something is forgotten, not even when its readings were shed, and no other is marked.
   */
  lemma {:induction false} MarkedOrOwed(cfg: Config, h: History, events: seq<Event>, marked: set<(string, string)>)
    requires cfg.Valid() && Bounded(cfg, h.w) && marked + Owing(h.w) == Pairs(h.stream)
    ensures var end := Replay(cfg, h, events);
            marked + Marked(cfg, h.w, events) + Owing(end.w) == Pairs(end.stream)
    decreases |events|
  {
    if events != [] {
      hide Step;
      hide Owing;
      hide Pairs;
      hide Bounded;
      var e := events[0];
      var now := if e.Succeeded? && h.w.flushing then h.w.batchTouched else {};
      var next := Advance(cfg, h, e);
      MarkingStep(cfg, h.w, e);
      BoundedStep(cfg, h.w, e);
      PairsJoin(h.stream, if e.Enqueue? then e.readings else []);
      NoPairs();
      assert next.w == Step(cfg, h.w, e) && Pairs(next.stream) == Pairs(h.stream) + (if e.Enqueue? then Pairs(e.readings) else {});
      hide Advance;
      Joined(marked, now, Owing(next.w), Owing(h.w), if e.Enqueue? then Pairs(e.readings) else {}, Pairs(h.stream));
      MarkedOrOwed(cfg, next, events[1..], marked + now);
      Regrouped(marked, now, Marked(cfg, next.w, events[1..]));
    }
  }

  lemma Joined<T>(marked: set<T>, now: set<T>, owing: set<T>, before: set<T>, more: set<T>, all: set<T>)
    requires now + owing == before + more && marked + before == all
    ensures marked + now + owing == all + more
  {
    forall x ensures x in marked + now + owing <==> x in all + more { assert x in now + owing <==> x in before + more; }
  }

  lemma Regrouped<T>(a: set<T>, b: set<T>, c: set<T>)
    ensures a + (b + c) == a + b + c
  {}

  lemma NoPairs()
    ensures Pairs([]) == {}
  {}

  lemma EverySensorIsMarkedOrOwed(cfg: Config, events: seq<Event>)
    requires cfg.Valid()
    ensures Marked(cfg, EMPTY, events) + Owing(Replay(cfg, START, events).w) == Pairs(Replay(cfg, START, events).stream)
  {
    MarkedOrOwed(cfg, START, events, {});
  }
}
