/**
 The telemetry write buffer of apps/ingest/src/writer.ts.

 A flush is two steps, because other calls run while the write is awaited: the swap
 that takes the batch out, and the continuation that ends it well or puts it back.
 */
module Writer {
  datatype Reading = Reading(tenant: string, sensor: string, ts: int, value: real)

  /** INGEST_BUFFER_MAX_ROWS and INGEST_FLUSH_MAX_ROWS, both positive in the configuration schema. */
  datatype Config = Config(maxRows: nat, flushRows: nat) {
    predicate Valid() { maxRows > 0 && flushRows > 0 }
  }

  /** `touched` holds (tenant, sensor) pairs; `batch` and `batchTouched` are what an awaited flush holds. */
  datatype State = State(
    buffer: seq<Reading>, touched: set<(string, string)>,
    flushing: bool, batch: seq<Reading>, batchTouched: set<(string, string)>,
    written: nat, dropped: nat, flushes: nat, failedFlushes: nat)

  const EMPTY := State([], {}, false, [], {}, 0, 0, 0, 0)

  function Pairs(rs: seq<Reading>): set<(string, string)> {
    set r | r in rs :: (r.tenant, r.sensor)
  }

  /** How many rows a buffer of `n` is over the cap. */
  function Overflow(cfg: Config, n: nat): nat {
    if n > cfg.maxRows then n - cfg.maxRows else 0
  }

  function Shed(cfg: Config, w: State): State {
    var over := Overflow(cfg, |w.buffer|);
    w.(buffer := w.buffer[over..], dropped := w.dropped + over)
  }

  function BeginFlush(w: State): State {
    if w.flushing || w.buffer == [] then w
    else w.(buffer := [], touched := {}, flushing := true, batch := w.buffer, batchTouched := w.touched)
  }

  function Enqueued(cfg: Config, w: State, rs: seq<Reading>): State {
    var v := Shed(cfg, w.(buffer := w.buffer + rs, touched := w.touched + Pairs(rs)));
    if |v.buffer| >= cfg.flushRows then BeginFlush(v) else v
  }

  function FlushDone(w: State, written: nat): State {
    if !w.flushing then w
    else w.(flushing := false, batch := [], batchTouched := {}, written := w.written + written, flushes := w.flushes + 1)
  }

  function FlushFailed(cfg: Config, w: State): State {
    if !w.flushing then w
    else
      Shed(cfg, w.(buffer := w.batch + w.buffer, touched := w.touched + w.batchTouched,
                   flushing := false, batch := [], batchTouched := {}, failedFlushes := w.failedFlushes + 1))
  }

  datatype Event = Enqueue(readings: seq<Reading>) | Tick | Succeeded(written: nat) | Failed

  function Step(cfg: Config, w: State, e: Event): State {
    match e
    case Enqueue(rs) => Enqueued(cfg, w, rs)
    case Tick => BeginFlush(w)
    case Succeeded(n) => FlushDone(w, n)
    case Failed => FlushFailed(cfg, w)
  }

  // ----- the history a run leaves behind -----

  /** Everything enqueued so far, everything flushed, everything shed, each in the order it happened. */
  datatype History = History(w: State, stream: seq<Reading>, flushed: seq<Reading>, shed: seq<Reading>)

  /** The rows a step cuts off the front of the buffer. */
  function Cut(cfg: Config, w: State, e: Event): seq<Reading> {
    match e
    case Enqueue(rs) => (w.buffer + rs)[..Overflow(cfg, |w.buffer + rs|)]
    case Failed => if w.flushing then (w.batch + w.buffer)[..Overflow(cfg, |w.batch + w.buffer|)] else []
    case _ => []
  }

  function Advance(cfg: Config, h: History, e: Event): History {
    History(
      Step(cfg, h.w, e),
      h.stream + (if e.Enqueue? then e.readings else []),
      h.flushed + (if e.Succeeded? && h.w.flushing then h.w.batch else []),
      h.shed + Cut(cfg, h.w, e))
  }

  function Replay(cfg: Config, h: History, events: seq<Event>): History
    decreases |events|
  {
    if events == [] then h else Replay(cfg, Advance(cfg, h, events[0]), events[1..])
  }

  predicate IsSuffix<T(==)>(s: seq<T>, t: seq<T>) {
    |s| <= |t| && t[|t| - |s|..] == s
  }

  /** The state's own share of the bookkeeping. */
  ghost predicate Bounded(cfg: Config, w: State) {
    && |w.buffer| <= cfg.maxRows && |w.batch| <= cfg.maxRows
    && (!w.flushing ==> w.batch == [] && w.batchTouched == {})
    && Pairs(w.buffer) <= w.touched && Pairs(w.batch) <= w.batchTouched
  }

  /**
   The buffer is a suffix of the stream. While a batch is out, either the two still join
   up at the end of the stream or shedding has cut between them, and then the buffer is at its cap.
   */
  ghost predicate InStep(cfg: Config, h: History) {
    && IsSuffix(h.w.buffer, h.stream)
    && (h.w.flushing ==> IsSuffix(h.w.batch + h.w.buffer, h.stream) || |h.w.buffer| == cfg.maxRows)
  }

  /** Every enqueued reading is flushed, shed, buffered or in flight, and counted once. */
  ghost predicate Conserved(h: History) {
    && multiset(h.stream) == multiset(h.flushed) + multiset(h.shed) + (multiset(h.w.buffer) + multiset(h.w.batch))
    && h.w.dropped == |h.shed|
  }

  lemma SuffixOfSuffix<T>(s: seq<T>, t: seq<T>, k: nat)
    requires IsSuffix(s, t) && k <= |s|
    ensures IsSuffix(s[k..], t)
  {
    assert t[|t| - |s[k..]|..] == t[|t| - |s|..][k..];
  }

  lemma SuffixNone<T>(t: seq<T>)
    ensures IsSuffix([], t)
  {}

  lemma SuffixExtends<T>(s: seq<T>, t: seq<T>, more: seq<T>)
    requires IsSuffix(s, t)
    ensures IsSuffix(s + more, t + more)
  {
    assert (t + more)[|t| - |s|..] == t[|t| - |s|..] + more;
  }

  lemma CutSplits(s: seq<Reading>, k: nat)
    requires k <= |s|
    ensures multiset(s) == multiset(s[..k]) + multiset(s[k..])
  {
    assert s == s[..k] + s[k..];
  }

  lemma PairsJoin(a: seq<Reading>, b: seq<Reading>)
    ensures Pairs(a + b) == Pairs(a) + Pairs(b)
  {}

  lemma PairsDrop(a: seq<Reading>, k: nat)
    requires k <= |a|
    ensures Pairs(a[k..]) <= Pairs(a)
  {}

  lemma BoundedStep(cfg: Config, w: State, e: Event)
    requires cfg.Valid() && Bounded(cfg, w)
    ensures Bounded(cfg, Step(cfg, w, e))
  {
    match e
    case Enqueue(rs) =>
      PairsJoin(w.buffer, rs);
      PairsDrop(w.buffer + rs, Overflow(cfg, |w.buffer + rs|));
    case Failed =>
      PairsJoin(w.batch, w.buffer);
      PairsDrop(w.batch + w.buffer, Overflow(cfg, |w.batch + w.buffer|));
    case _ =>
  }

  lemma EnqueueInStep(cfg: Config, h: History, rs: seq<Reading>)
    requires cfg.Valid() && Bounded(cfg, h.w) && InStep(cfg, h)
    ensures InStep(cfg, Advance(cfg, h, Enqueue(rs)))
  {
    hide Pairs;
    hide Bounded;
    hide Cut;
    hide IsSuffix;
    var w, h' := h.w, Advance(cfg, h, Enqueue(rs));
    SuffixNone(h'.stream);
    assert h'.w.batch + [] == h'.w.batch;
    var whole := w.buffer + rs;
    var over := Overflow(cfg, |whole|);
    SuffixExtends(w.buffer, h.stream, rs);
    SuffixOfSuffix(whole, h'.stream, over);
    if w.flushing && over == 0 && IsSuffix(w.batch + w.buffer, h.stream) {
      SuffixExtends(w.batch + w.buffer, h.stream, rs);
      assert w.batch + w.buffer + rs == w.batch + whole;
    }
    assert whole[over..] + [] == whole[over..];
  }

  /** Putting a batch back never leaves a hole: if shedding cut one, the whole batch goes with it. */
  lemma FailedInStep(cfg: Config, h: History)
    requires cfg.Valid() && Bounded(cfg, h.w) && InStep(cfg, h)
    ensures InStep(cfg, Advance(cfg, h, Failed))
  {
    var w := h.w;
    if w.flushing {
      var whole := w.batch + w.buffer;
      var over := Overflow(cfg, |whole|);
      if IsSuffix(whole, h.stream) {
        SuffixOfSuffix(whole, h.stream, over);
      } else {
        assert whole[over..] == w.buffer;
      }
      assert h.stream + [] == h.stream;
    }
  }

  lemma InStepStep(cfg: Config, h: History, e: Event)
    requires cfg.Valid() && Bounded(cfg, h.w) && InStep(cfg, h)
    ensures InStep(cfg, Advance(cfg, h, e))
  {
    match e
    case Enqueue(rs) => EnqueueInStep(cfg, h, rs);
    case Failed => FailedInStep(cfg, h);
    case _ => assert h.stream + [] == h.stream; assert h.w.buffer + [] == h.w.buffer;
  }

  type Rows = multiset<Reading>

  lemma Regroup(stream: Rows, flushed: Rows, shed: Rows, buffer: Rows, batch: Rows, more: Rows, cut: Rows, rest: Rows)
    requires stream == flushed + shed + (buffer + batch) && buffer + more == cut + rest
    ensures stream + more == flushed + (shed + cut) + (rest + batch)
  {
    forall r: Reading ensures (stream + more)[r] == (flushed + (shed + cut) + (rest + batch))[r] {
      assert (buffer + more)[r] == (cut + rest)[r];
    }
  }

  lemma ConservedEnqueue(cfg: Config, h: History, rs: seq<Reading>)
    requires cfg.Valid() && Bounded(cfg, h.w) && Conserved(h)
    ensures Conserved(Advance(cfg, h, Enqueue(rs)))
  {
    var w, h' := h.w, Advance(cfg, h, Enqueue(rs));
    var whole := w.buffer + rs;
    var over := Overflow(cfg, |whole|);
    CutSplits(whole, over);
    assert h'.flushed == h.flushed;
    Regroup(multiset(h.stream), multiset(h.flushed), multiset(h.shed), multiset(w.buffer), multiset(w.batch),
            multiset(rs), multiset(whole[..over]), multiset(whole[over..]));
    assert multiset(h'.w.buffer) + multiset(h'.w.batch) == multiset(whole[over..]) + multiset(w.batch);
  }

  lemma ConservedFailed(cfg: Config, h: History)
    requires cfg.Valid() && Bounded(cfg, h.w) && Conserved(h) && h.w.flushing
    ensures Conserved(Advance(cfg, h, Failed))
  {
    var w, h' := h.w, Advance(cfg, h, Failed);
    var whole := w.batch + w.buffer;
    var over := Overflow(cfg, |whole|);
    CutSplits(whole, over);
    assert h'.flushed == h.flushed && h'.stream == h.stream;
    assert multiset(whole) + multiset{} == multiset(w.buffer) + multiset(w.batch);
    Regroup(multiset(h.stream), multiset(h.flushed), multiset(h.shed), multiset(whole), multiset{},
            multiset{}, multiset(whole[..over]), multiset(whole[over..]));
    assert multiset(h.stream) + multiset{} == multiset(h.stream);
  }

  lemma ConservedStep(cfg: Config, h: History, e: Event)
    requires cfg.Valid() && Bounded(cfg, h.w) && Conserved(h)
    ensures Conserved(Advance(cfg, h, e))
  {
    match e
    case Enqueue(rs) => ConservedEnqueue(cfg, h, rs);
    case Failed =>
      if h.w.flushing { ConservedFailed(cfg, h); } else { assert Advance(cfg, h, e) == h; }
    case _ =>
      var h' := Advance(cfg, h, e);
      assert h'.stream == h.stream && h'.shed == h.shed;
      assert !e.Succeeded? ==> h'.flushed == h.flushed;
      assert e.Succeeded? && h.w.flushing ==> multiset(h'.flushed) == multiset(h.flushed) + multiset(h.w.batch);
      assert e.Succeeded? && !h.w.flushing ==> h'.flushed == h.flushed;
  }

  const START := History(EMPTY, [], [], [])

  /**
   Over every interleaving of arrivals, timer ticks and writes that end well or badly: the
   buffer is a contiguous suffix of all that was ever enqueued, within the cap, and every
   enqueued reading is in exactly one place.
   */
  lemma {:induction false} BufferIsASuffixAndNothingIsLost(cfg: Config, h: History, events: seq<Event>)
    requires cfg.Valid() && Bounded(cfg, h.w) && InStep(cfg, h) && Conserved(h)
    ensures var r := Replay(cfg, h, events);
            && IsSuffix(r.w.buffer, r.stream) && |r.w.buffer| <= cfg.maxRows
            && multiset(r.stream) == multiset(r.flushed) + multiset(r.shed) + (multiset(r.w.buffer) + multiset(r.w.batch))
            && |r.stream| == |r.flushed| + r.w.dropped + |r.w.buffer| + |r.w.batch|
            && Pairs(r.w.buffer) <= r.w.touched && Pairs(r.w.batch) <= r.w.batchTouched
    decreases |events|
  {
    if events == [] {
      assert |multiset(h.stream)| == |h.stream|;
    } else {
      BoundedStep(cfg, h.w, events[0]);
      InStepStep(cfg, h, events[0]);
      ConservedStep(cfg, h, events[0]);
      BufferIsASuffixAndNothingIsLost(cfg, Advance(cfg, h, events[0]), events[1..]);
    }
  }

  /** A fresh writer starts in such a state. */
  lemma FreshWriterKeepsTheStream(cfg: Config, events: seq<Event>)
    requires cfg.Valid()
    ensures var r := Replay(cfg, START, events);
            && IsSuffix(r.w.buffer, r.stream) && |r.w.buffer| <= cfg.maxRows
            && multiset(r.stream) == multiset(r.flushed) + multiset(r.shed) + (multiset(r.w.buffer) + multiset(r.w.batch))
            && |r.stream| == |r.flushed| + r.w.dropped + |r.w.buffer| + |r.w.batch|
            && Pairs(r.w.buffer) <= r.w.touched && Pairs(r.w.batch) <= r.w.batchTouched
  {
    BufferIsASuffixAndNothingIsLost(cfg, START, events);
  }

  /** Shedding is oldest-first: whenever a step sheds, what it keeps is exactly the newest `maxRows` readings. */
  lemma ShedsOldestFirst(cfg: Config, h: History, e: Event)
    requires cfg.Valid() && Bounded(cfg, h.w) && InStep(cfg, h)
    requires Step(cfg, h.w, e).dropped > h.w.dropped
    ensures var r := Advance(cfg, h, e);
            var kept := if !h.w.flushing && r.w.flushing then r.w.batch else r.w.buffer;
            |kept| == cfg.maxRows && IsSuffix(kept, r.stream)
  {
    InStepStep(cfg, h, e);
    if e.Enqueue? {
      SuffixExtends(h.w.buffer, h.stream, e.readings);
      var whole := h.w.buffer + e.readings;
      SuffixOfSuffix(whole, h.stream + e.readings, Overflow(cfg, |whole|));
    }
  }

  // ----- the rows a flush writes -----

  type Key = (string, int)

  function KeyOf(r: Reading): Key { (r.sensor, r.ts) }

  ghost predicate HasKey(rs: seq<Reading>, k: Key) {
    exists i :: 0 <= i < |rs| && KeyOf(rs[i]) == k
  }

  /** The last reading with this key. */
  ghost function Last(rs: seq<Reading>, k: Key): (r: Reading)
    requires HasKey(rs, k)
    ensures KeyOf(r) == k && r in rs
  {
    if KeyOf(rs[|rs| - 1]) == k then rs[|rs| - 1] else Last(rs[..|rs| - 1], k)
  }

  /** Where this key first appears. */
  ghost function First(rs: seq<Reading>, k: Key): (i: nat)
    requires HasKey(rs, k)
    ensures i < |rs| && KeyOf(rs[i]) == k && forall j :: 0 <= j < i ==> KeyOf(rs[j]) != k
  {
    if KeyOf(rs[0]) == k then 0
    else
      assert HasKey(rs[1..], k) by { var i :| 0 <= i < |rs| && KeyOf(rs[i]) == k; assert rs[1..][i - 1] == rs[i]; }
      1 + First(rs[1..], k)
  }

  /** Keys in the order in which they first appear: the iteration order of a JavaScript Map. */
  ghost predicate KeyOrder(rs: seq<Reading>, order: seq<Key>) {
    KeysOf(rs, order) && forall a, b :: 0 <= a < b < |order| ==> First(rs, order[a]) < First(rs, order[b])
  }

  ghost predicate KeysOf(rs: seq<Reading>, order: seq<Key>) {
    forall k :: k in order <==> HasKey(rs, k)
  }

  /** Last write wins for each key, and each key keeps the place where it first appeared. */
  ghost predicate Deduped(rs: seq<Reading>, out: seq<Reading>, order: seq<Key>) {
    KeyOrder(rs, order) && |out| == |order|
    && forall a :: 0 <= a < |order| ==> out[a] == Last(rs, order[a])
  }

  lemma HasKeyGrows(rs: seq<Reading>, n: nat, k: Key)
    requires n < |rs|
    ensures HasKey(rs[..n + 1], k) <==> HasKey(rs[..n], k) || KeyOf(rs[n]) == k
    ensures HasKey(rs[..n], k) ==> First(rs[..n + 1], k) == First(rs[..n], k)
    ensures !HasKey(rs[..n], k) && KeyOf(rs[n]) == k ==> First(rs[..n + 1], k) == n
  {
    var s, t := rs[..n], rs[..n + 1];
    assert t[n] == rs[n] && forall i :: 0 <= i < n ==> t[i] == s[i];
    if HasKey(s, k) { assert KeyOf(t[First(s, k)]) == k; }
    if KeyOf(rs[n]) == k { assert KeyOf(t[n]) == k; }
    if HasKey(t, k) {
      var i := First(t, k);
      if i < n { assert KeyOf(s[i]) == k; }
      if HasKey(s, k) { assert KeyOf(s[First(s, k)]) == k; assert i <= First(s, k); }
    }
  }

  lemma KeyOrderGrows(rs: seq<Reading>, n: nat, order: seq<Key>)
    requires n < |rs| && KeyOrder(rs[..n], order)
    ensures KeyOrder(rs[..n + 1], if KeyOf(rs[n]) in order then order else order + [KeyOf(rs[n])])
  {
    var order' := if KeyOf(rs[n]) in order then order else order + [KeyOf(rs[n])];
    hide First;
    hide HasKey;
    forall q ensures q in order' <==> HasKey(rs[..n + 1], q) { HasKeyGrows(rs, n, q); }
    forall q | q in order' ensures HasKey(rs[..n + 1], q) {}
    forall a, b | 0 <= a < b < |order'|
      ensures HasKey(rs[..n + 1], order'[a]) && HasKey(rs[..n + 1], order'[b]) && First(rs[..n + 1], order'[a]) < First(rs[..n + 1], order'[b])
    {
      assert order'[a] in order' && order'[b] in order' && order'[a] in order;
      HasKeyGrows(rs, n, order'[a]);
      HasKeyGrows(rs, n, order'[b]);
    }
  }

  lemma LastGrows(rs: seq<Reading>, n: nat, k: Key)
    requires n < |rs| && HasKey(rs[..n + 1], k)
    ensures k == KeyOf(rs[n]) ==> Last(rs[..n + 1], k) == rs[n]
    ensures k != KeyOf(rs[n]) ==> HasKey(rs[..n], k) && Last(rs[..n + 1], k) == Last(rs[..n], k)
  {
    var t := rs[..n + 1];
    assert t[n] == rs[n] && t[..n] == rs[..n];
    if k != KeyOf(rs[n]) {
      var i :| 0 <= i < |t| && KeyOf(t[i]) == k;
      assert KeyOf(rs[..n][i]) == k;
    }
  }

  lemma ShortIsDeduped(rs: seq<Reading>)
    requires |rs| < 2
    ensures Deduped(rs, rs, if rs == [] then [] else [KeyOf(rs[0])])
  {
    if rs != [] {
      forall k ensures k in [KeyOf(rs[0])] <==> HasKey(rs, k) {}
      assert HasKey(rs, KeyOf(rs[0]));
    }
  }

  /** What the second variable of `dedupe` holds after the readings `rs`. */
  ghost predicate Collected(rs: seq<Reading>, keys: seq<Key>, seen: map<Key, Reading>) {
    forall k :: (k in seen <==> k in keys) && (k in keys ==> HasKey(rs, k) && seen[k] == Last(rs, k))
  }

  lemma CollectedGrows(rs: seq<Reading>, n: nat, keys: seq<Key>, seen: map<Key, Reading>)
    requires n < |rs| && Collected(rs[..n], keys, seen)
    ensures Collected(rs[..n + 1], if KeyOf(rs[n]) in seen then keys else keys + [KeyOf(rs[n])], seen[KeyOf(rs[n]) := rs[n]])
  {
    var last := KeyOf(rs[n]);
    var keys', seen' := if last in seen then keys else keys + [last], seen[last := rs[n]];
    forall k
      ensures (k in seen' <==> k in keys') && (k in keys' ==> HasKey(rs[..n + 1], k) && seen'[k] == Last(rs[..n + 1], k))
    {
      HasKeyGrows(rs, n, k);
      if k in keys' { LastGrows(rs, n, k); }
    }
  }

  function Values(keys: seq<Key>, seen: map<Key, Reading>): (out: seq<Reading>)
    requires forall k :: k in keys ==> k in seen
    ensures |out| == |keys| && forall a :: 0 <= a < |keys| ==> out[a] == seen[keys[a]]
  {
    seq(|keys|, a requires 0 <= a < |keys| => seen[keys[a]])
  }

  lemma CollectedDedupes(rs: seq<Reading>, keys: seq<Key>, seen: map<Key, Reading>)
    requires KeyOrder(rs, keys) && Collected(rs, keys, seen)
    ensures forall k :: k in keys ==> k in seen
    ensures Deduped(rs, Values(keys, seen), keys)
  {
    forall a | 0 <= a < |keys| ensures HasKey(rs, keys[a]) && Values(keys, seen)[a] == Last(rs, keys[a]) {
      assert keys[a] in keys;
    }
  }

  ghost predicate DedupedSoFar(rs: seq<Reading>, n: int, keys: seq<Key>, seen: map<Key, Reading>) {
    0 <= n <= |rs| && KeyOrder(rs[..n], keys) && Collected(rs[..n], keys, seen)
  }

  lemma DedupedSoFarGrows(rs: seq<Reading>, n: nat, keys: seq<Key>, seen: map<Key, Reading>)
    requires n < |rs| && DedupedSoFar(rs, n, keys, seen)
    ensures DedupedSoFar(rs, n + 1, if KeyOf(rs[n]) in seen then keys else keys + [KeyOf(rs[n])], seen[KeyOf(rs[n]) := rs[n]])
  {
    KeyOrderGrows(rs, n, keys);
    CollectedGrows(rs, n, keys, seen);
  }

  method CollectLatest(rs: seq<Reading>) returns (keys: seq<Key>, seen: map<Key, Reading>)
    ensures DedupedSoFar(rs, |rs|, keys, seen)
  {
    keys, seen := [], map[];
    for n := 0 to |rs|
      invariant DedupedSoFar(rs, n, keys, seen)
    {
      DedupedSoFarGrows(rs, n, keys, seen);
      var k := KeyOf(rs[n]);
      if k !in seen { keys := keys + [k]; }
      seen := seen[k := rs[n]];
    }
  }

  /** One reading per key, its last, in the order the keys first appear. */
  ghost predicate IsDeduped(rs: seq<Reading>, out: seq<Reading>) {
    exists order :: Deduped(rs, out, order)
  }

  method Dedupe(rs: seq<Reading>) returns (out: seq<Reading>)
    ensures IsDeduped(rs, out)
  {
    if |rs| < 2 {
      ShortIsDeduped(rs);
      return rs;
    }
    var keys, seen := CollectLatest(rs);
    assert rs[..|rs|] == rs;
    CollectedDedupes(rs, keys, seen);
    out := Values(keys, seen);
  }

  function Of(rs: seq<Reading>, tenant: string): seq<Reading> {
    if rs == [] then []
    else
      var rest := Of(rs[..|rs| - 1], tenant);
      var r := rs[|rs| - 1];
      if r.tenant == tenant then rest + [r] else rest
  }

  lemma OfMembers(rs: seq<Reading>, tenant: string, r: Reading)
    ensures r in Of(rs, tenant) <==> r in rs && r.tenant == tenant
  {
    if rs != [] { assert rs == rs[..|rs| - 1] + [rs[|rs| - 1]]; }
  }

  method GroupByTenant(rs: seq<Reading>) returns (out: map<string, seq<Reading>>)
    ensures out.Keys == set r | r in rs :: r.tenant
    ensures forall t :: t in out ==> out[t] == Of(rs, t)
  {
    out := map[];
    for n := 0 to |rs|
      invariant out.Keys == set r | r in rs[..n] :: r.tenant
      invariant forall t :: t in out ==> out[t] == Of(rs[..n], t)
      invariant forall t :: t !in out ==> Of(rs[..n], t) == []
    {
      var r := rs[n];
      assert rs[..n + 1][..n] == rs[..n] && rs[..n + 1] == rs[..n] + [r];
      var list := if r.tenant in out then out[r.tenant] else [];
      out := out[r.tenant := list + [r]];
    }
    assert rs[..|rs|] == rs;
  }

  lemma RowsAreLast(batch: seq<Reading>, rows: seq<Reading>, order: seq<Key>, r: Reading)
    requires Deduped(batch, rows, order)
    ensures r in rows ==> HasKey(batch, KeyOf(r)) && r == Last(batch, KeyOf(r))
    ensures HasKey(batch, KeyOf(r)) && r == Last(batch, KeyOf(r)) ==> r in rows
  {
    if r in rows {
      var a :| 0 <= a < |rows| && rows[a] == r;
      assert order[a] in order;
    }
    if HasKey(batch, KeyOf(r)) && r == Last(batch, KeyOf(r)) {
      var a :| 0 <= a < |order| && order[a] == KeyOf(r);
      assert rows[a] == r;
    }
  }

  /**
   What a flush hands to the database: for each (sensor, time) of the batch its last reading, under that
   reading's tenant, and nothing else.
   */
  method FlushRows(batch: seq<Reading>) returns (groups: map<string, seq<Reading>>)
    ensures forall t, r :: t in groups && r in groups[t] ==>
      r.tenant == t && HasKey(batch, KeyOf(r)) && r == Last(batch, KeyOf(r))
    ensures forall r :: HasKey(batch, KeyOf(r)) && r == Last(batch, KeyOf(r)) ==> r.tenant in groups && r in groups[r.tenant]
  {
    var rows := Dedupe(batch);
    ghost var order :| Deduped(batch, rows, order);
    groups := GroupByTenant(rows);
    forall r ensures r in rows <==> HasKey(batch, KeyOf(r)) && r == Last(batch, KeyOf(r)) {
      RowsAreLast(batch, rows, order, r);
    }
    forall t, r ensures r in Of(rows, t) <==> r in rows && r.tenant == t { OfMembers(rows, t, r); }
  }

  // ----- the class -----

  class TelemetryWriter {
    const cfg: Config
    var buffer: seq<Reading>
    var touched: set<(string, string)>
    var flushing: bool
    var batch: seq<Reading>
    var batchTouched: set<(string, string)>
    var written: nat
    var dropped: nat
    var flushes: nat
    var failedFlushes: nat

    function View(): State
      reads this
    {
      State(buffer, touched, flushing, batch, batchTouched, written, dropped, flushes, failedFlushes)
    }

    constructor (config: Config)
      requires config.Valid()
      ensures cfg == config && View() == EMPTY
    {
      cfg := config;
      buffer, touched, flushing, batch, batchTouched := [], {}, false, [], {};
      written, dropped, flushes, failedFlushes := 0, 0, 0, 0;
    }

    method EnqueueReadings(readings: seq<Reading>)
      modifies this
      ensures View() == Enqueued(cfg, old(View()), readings)
    {
      buffer := buffer + readings;
      for n := 0 to |readings|
        invariant touched == old(touched) + Pairs(readings[..n])
        invariant View() == old(View()).(buffer := old(buffer) + readings, touched := touched)
      {
        touched := touched + {(readings[n].tenant, readings[n].sensor)};
        assert readings[..n + 1] == readings[..n] + [readings[n]];
      }
      assert readings[..|readings|] == readings;
      ShedOverflow();
      if |buffer| >= cfg.flushRows { StartFlush(); }
    }

    method ShedOverflow()
      modifies `buffer, `dropped
      ensures View() == Shed(cfg, old(View()))
    {
      if |buffer| > cfg.maxRows {
        var overflow := |buffer| - cfg.maxRows;
        buffer := buffer[overflow..];
        dropped := dropped + overflow;
      }
    }

    /** The part of `flush` before its first await. */
    method StartFlush()
      modifies this
      ensures View() == BeginFlush(old(View()))
    {
      if flushing || buffer == [] { return; }
      flushing := true;
      batch, batchTouched := buffer, touched;
      buffer, touched := [], {};
    }

    /** The continuation once every tenant's rows are written. */
    method EndFlush(rowsWritten: nat)
      requires flushing
      modifies this
      ensures View() == FlushDone(old(View()), rowsWritten)
    {
      written := written + rowsWritten;
      flushes := flushes + 1;
      flushing, batch, batchTouched := false, [], {};
    }

    /** The continuation when a write threw: the batch goes back in front. */
    method AbortFlush()
      requires flushing
      modifies this
      ensures View() == FlushFailed(cfg, old(View()))
    {
      failedFlushes := failedFlushes + 1;
      buffer := batch + buffer;
      touched := touched + batchTouched;
      flushing, batch, batchTouched := false, [], {};
      ShedOverflow();
    }
  }
}
