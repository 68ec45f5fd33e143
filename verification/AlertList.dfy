/**
 The dashboard's alert list of apps/web/lib/alerts.ts: a snapshot over HTTP reconciled with
 a compacted list of socket events.
 */
module AlertList {
  import opened Wrappers

  type AlertId = nat

  datatype AlertState = Open | Acknowledged | Resolved

  datatype Alert = Alert(id: AlertId, state: AlertState, severity: string, openedAt: int)

  datatype Kind = Upsert | Removed

  /** `at` is the browser's clock when the frame arrived. */
  datatype Event = Event(kind: Kind, alert: Alert, at: int)

  const MAX_ALERT_EVENTS := 500

  type OpenMap = map<AlertId, Alert>

  // ----- appendAlertEvent -----

  function Without(es: seq<Event>, id: AlertId): seq<Event> {
    if es == [] then []
    else Without(es[..|es| - 1], id) + (if es[|es| - 1].alert.id == id then [] else [es[|es| - 1]])
  }

  function LastFew<T>(s: seq<T>, k: nat): seq<T> { if |s| > k then s[|s| - k..] else s }

  function Append(es: seq<Event>, e: Event): seq<Event> {
    LastFew(Without(es, e.alert.id) + [e], MAX_ALERT_EVENTS)
  }

  /** What the browser remembers after the events `h`. */
  function Compact(h: seq<Event>): seq<Event> {
    if h == [] then [] else Append(Compact(h[..|h| - 1]), h[|h| - 1])
  }

  /** The same without the ceiling: the last event of every alert, in the order of those last events. */
  function Latest(h: seq<Event>): seq<Event> {
    if h == [] then [] else Without(Latest(h[..|h| - 1]), h[|h| - 1].alert.id) + [h[|h| - 1]]
  }

  predicate DistinctIds(es: seq<Event>) {
    forall i, j :: 0 <= i < j < |es| ==> es[i].alert.id != es[j].alert.id
  }

  lemma {:induction false} WithoutKeeps(es: seq<Event>, id: AlertId)
    ensures forall e :: e in Without(es, id) <==> e in es && e.alert.id != id
    ensures |Without(es, id)| <= |es|
    ensures DistinctIds(es) ==> DistinctIds(Without(es, id))
  {
    if es != [] {
      var init, e := es[..|es| - 1], es[|es| - 1];
      assert es == init + [e];
      WithoutKeeps(init, id);
      if DistinctIds(es) {
        assert DistinctIds(init);
        var w := Without(init, id);
        forall i | 0 <= i < |w| ensures w[i].alert.id != e.alert.id {
          assert w[i] in w;
          var j :| 0 <= j < |init| && init[j] == w[i];
          assert es[j].alert.id != es[|es| - 1].alert.id;
        }
      }
    }
  }

  lemma {:induction false} LatestIsDistinct(h: seq<Event>)
    ensures DistinctIds(Latest(h))
  {
    if h != [] {
      var prev, e := Latest(h[..|h| - 1]), h[|h| - 1];
      LatestIsDistinct(h[..|h| - 1]);
      WithoutKeeps(prev, e.alert.id);
      var w := Without(prev, e.alert.id);
      forall i | 0 <= i < |w| ensures w[i].alert.id != e.alert.id { assert w[i] in w; }
    }
  }

  lemma {:induction false} WithoutConcat(a: seq<Event>, b: seq<Event>, id: AlertId)
    ensures Without(a + b, id) == Without(a, id) + Without(b, id)
  {
    if b == [] {
      assert a + b == a;
    } else {
      assert (a + b)[..|a + b| - 1] == a + b[..|b| - 1];
      WithoutConcat(a, b[..|b| - 1], id);
    }
  }

  lemma {:induction false} WithoutAbsent(es: seq<Event>, id: AlertId)
    requires forall e :: e in es ==> e.alert.id != id
    ensures Without(es, id) == es
  {
    if es != [] {
      assert es == es[..|es| - 1] + [es[|es| - 1]];
      WithoutAbsent(es[..|es| - 1], id);
    }
  }

  lemma {:induction false} WithoutOne(es: seq<Event>, id: AlertId)
    requires DistinctIds(es)
    ensures |Without(es, id)| >= |es| - 1
  {
    if es != [] {
      var init, e := es[..|es| - 1], es[|es| - 1];
      if e.alert.id == id {
        forall x | x in init ensures x.alert.id != id { var i :| 0 <= i < |init| && init[i] == x; assert es[i] == x; }
        WithoutAbsent(init, id);
      } else {
        WithoutOne(init, id);
      }
    }
  }

  lemma LastFewOfJoined<T>(c: seq<T>, k: seq<T>, limit: nat)
    requires |k| >= limit
    ensures LastFew(c + k, limit) == LastFew(k, limit)
  {
    assert |c| + |k| - limit == |c| + (|k| - limit);
    assert (c + k)[|c| + (|k| - limit)..] == k[|k| - limit..];
  }

  /** Appending to the last few is appending to all and keeping the last few. */
  lemma AppendToLastFew(cut: seq<Event>, kept: seq<Event>, e: Event)
    requires DistinctIds(kept) && |kept| <= MAX_ALERT_EVENTS && (cut != [] ==> |kept| == MAX_ALERT_EVENTS)
    ensures Append(kept, e) == LastFew(Without(cut + kept, e.alert.id) + [e], MAX_ALERT_EVENTS)
  {
    WithoutConcat(cut, kept, e.alert.id);
    var c, k := Without(cut, e.alert.id), Without(kept, e.alert.id);
    assert (c + k) + [e] == c + (k + [e]);
    if cut == [] {
      assert c + (k + [e]) == k + [e];
    } else {
      WithoutOne(kept, e.alert.id);
      LastFewOfJoined(c, k + [e], MAX_ALERT_EVENTS);
    }
  }

  /**
   However the ceiling cuts, and whatever arrives for an alert whose event was cut, the
   remembered list is exactly the last 500 of the latest events.
   */
  lemma {:induction false} CompactIsTheLastFewOfLatest(h: seq<Event>)
    ensures Compact(h) == if |Latest(h)| > 500 then Latest(h)[|Latest(h)| - 500..] else Latest(h)
  {
    if h != [] {
      var all, kept := Latest(h[..|h| - 1]), Compact(h[..|h| - 1]);
      CompactIsTheLastFewOfLatest(h[..|h| - 1]);
      LatestIsDistinct(h[..|h| - 1]);
      var cut := all[..|all| - |kept|];
      assert all == cut + kept;
      assert DistinctIds(kept) by { assert forall i :: 0 <= i < |kept| ==> kept[i] == all[|cut| + i]; }
      AppendToLastFew(cut, kept, h[|h| - 1]);
    }
  }

  /** An event of the history that no later one of its alert replaces. */
  predicate IsLast(h: seq<Event>, i: nat) {
    i < |h| && forall j :: i < j < |h| ==> h[j].alert.id != h[i].alert.id
  }

  ghost predicate Places(h: seq<Event>, ps: seq<nat>) {
    (forall k :: 0 <= k < |ps| ==> ps[k] < |h|) && forall k, l :: 0 <= k < l < |ps| ==> ps[k] < ps[l]
  }

  ghost function Read(h: seq<Event>, ps: seq<nat>): seq<Event>
    requires Places(h, ps)
  {
    if ps == [] then [] else Read(h, ps[..|ps| - 1]) + [h[ps[|ps| - 1]]]
  }

  ghost function PlacesWithout(h: seq<Event>, ps: seq<nat>, id: AlertId): (qs: seq<nat>)
    requires Places(h, ps)
    ensures forall p :: p in qs <==> p in ps && p < |h| && h[p].alert.id != id
    ensures Places(h, qs) && |qs| <= |ps|
  {
    if ps == [] then []
    else
      var n := |ps| - 1;
      assert ps == ps[..n] + [ps[n]];
      var qs := PlacesWithout(h, ps[..n], id);
      assert forall k :: 0 <= k < |qs| ==> qs[k] in ps[..n];
      if h[ps[n]].alert.id == id then qs else qs + [ps[n]]
  }

  lemma WithoutOneMore(es: seq<Event>, e: Event, id: AlertId)
    ensures Without(es + [e], id) == Without(es, id) + (if e.alert.id == id then [] else [e])
  {
    assert (es + [e])[..|es|] == es;
  }

  lemma {:induction false} ReadWithout(h: seq<Event>, ps: seq<nat>, id: AlertId)
    requires Places(h, ps)
    ensures Read(h, PlacesWithout(h, ps, id)) == Without(Read(h, ps), id)
  {
    if ps != [] {
      var n := |ps| - 1;
      ReadWithout(h, ps[..n], id);
      var qs, e := PlacesWithout(h, ps[..n], id), h[ps[n]];
      assert PlacesWithout(h, ps, id) == if e.alert.id == id then qs else qs + [ps[n]];
      assert Read(h, ps) == Read(h, ps[..n]) + [e];
      WithoutOneMore(Read(h, ps[..n]), e, id);
      if e.alert.id != id { ReadOneMore(h, qs, ps[n]); }
      hide Read;
      hide Without;
      hide PlacesWithout;
    }
  }

  /** Reading places that all lie in a prefix. */
  lemma {:induction false} ReadPrefix(h: seq<Event>, n: nat, ps: seq<nat>)
    requires n <= |h| && Places(h[..n], ps)
    ensures Places(h, ps) && Read(h, ps) == Read(h[..n], ps)
  {
    if ps != [] {
      assert ps[|ps| - 1] in ps;
      ReadPrefix(h, n, ps[..|ps| - 1]);
    }
  }

  lemma PlacesInPrefix(h: seq<Event>, n: nat, ps: seq<nat>, id: AlertId)
    requires n < |h| && Places(h[..n], ps)
    ensures Places(h, ps) && Places(h, PlacesWithout(h, ps, id) + [n])
  {
    var qs := PlacesWithout(h, ps, id);
    forall k | 0 <= k < |qs| ensures qs[k] < n { assert qs[k] in qs && qs[k] in ps; }
  }

  /** Where the latest events stand in the history. */
  ghost function LatestAt(h: seq<Event>): (ps: seq<nat>)
    ensures Places(h, ps)
  {
    if h == [] then []
    else
      var n := |h| - 1;
      PlacesInPrefix(h, n, LatestAt(h[..n]), h[n].alert.id);
      PlacesWithout(h, LatestAt(h[..n]), h[n].alert.id) + [n]
  }

  lemma {:induction false} LatestAtMembers(h: seq<Event>, p: nat)
    ensures p in LatestAt(h) <==> IsLast(h, p)
  {
    hide IsLast;
    if h == [] {
      NothingIsLast(p);
    } else {
      var n := |h| - 1;
      PlacesInPrefix(h, n, LatestAt(h[..n]), h[n].alert.id);
      LatestAtMembers(h[..n], p);
      LastInPrefix(h, p);
      LastIsInRange(h[..n], p);
      hide PlacesWithout;
      var kept := PlacesWithout(h, LatestAt(h[..n]), h[n].alert.id);
      assert p in kept + [n] <==> p in kept || p == n;
    }
  }

  lemma NothingIsLast(p: nat)
    ensures !IsLast([], p)
  {}

  lemma LastIsInRange(h: seq<Event>, p: nat)
    ensures IsLast(h, p) ==> p < |h|
  {}

  lemma {:induction false} LatestAtReads(h: seq<Event>)
    ensures Latest(h) == Read(h, LatestAt(h))
  {
    if h != [] {
      var n := |h| - 1;
      var before, id := LatestAt(h[..n]), h[n].alert.id;
      PlacesInPrefix(h, n, before, id);
      LatestAtReads(h[..n]);
      ReadPrefix(h, n, before);
      ReadWithout(h, before, id);
      ReadOneMore(h, PlacesWithout(h, before, id), n);
    }
  }

  /** The latest events are the last ones of their alerts, in the order in which they arrived. */
  lemma LatestAreTheLast(h: seq<Event>) returns (ps: seq<nat>)
    ensures Places(h, ps) && Latest(h) == Read(h, ps)
    ensures forall p :: p in ps <==> IsLast(h, p)
  {
    ps := LatestAt(h);
    LatestAtReads(h);
    forall p: nat ensures p in ps <==> IsLast(h, p) { LatestAtMembers(h, p); }
  }

  lemma ReadOneMore(h: seq<Event>, ps: seq<nat>, p: nat)
    requires Places(h, ps) && Places(h, ps + [p])
    ensures p < |h| && Read(h, ps + [p]) == Read(h, ps) + [h[p]]
  {
    assert (ps + [p])[..|ps|] == ps && (ps + [p])[|ps|] == p;
  }

  lemma LastInPrefix(h: seq<Event>, p: nat)
    requires h != []
    ensures var n := |h| - 1; IsLast(h, p) <==> p == n || (IsLast(h[..n], p) && h[p].alert.id != h[n].alert.id)
  {
    var n := |h| - 1;
    assert forall j :: 0 <= j < n ==> h[..n][j] == h[j];
  }

  // ----- reconcileAlerts -----

  /** Whether the event is applied over a snapshot requested at this time. */
  predicate Applies(at: Option<int>, e: Event) { at.None? || e.at >= at.value }

  function Apply(open: OpenMap, at: Option<int>, e: Event): OpenMap {
    if !Applies(at, e) then open
    else if e.kind == Removed then open - {e.alert.id}
    else open[e.alert.id := e.alert]
  }

  function Fold(open: OpenMap, at: Option<int>, es: seq<Event>): OpenMap {
    if es == [] then open else Apply(Fold(open, at, es[..|es| - 1]), at, es[|es| - 1])
  }

  /** The last event of the alert that counts: none of it arrived before the snapshot was asked for. */
  predicate LastWord(at: Option<int>, es: seq<Event>, id: AlertId, i: nat) {
    && i < |es| && es[i].alert.id == id && (at != None ==> at.value <= es[i].at)
    && forall j :: i < j < |es| && es[j].alert.id == id ==> at != None && es[j].at < at.value
  }

  /** Of each alert the reconciled map says what the last event that counts says, and without one what the snapshot said. */
  lemma {:induction false} LastWordDecides(open: OpenMap, at: Option<int>, es: seq<Event>, id: AlertId)
    ensures forall i: nat :: LastWord(at, es, id, i) ==>
              (id in Fold(open, at, es) <==> es[i].kind != Removed) && (id in Fold(open, at, es) ==> Fold(open, at, es)[id] == es[i].alert)
    ensures (forall i: nat :: !LastWord(at, es, id, i)) ==>
              (id in Fold(open, at, es) <==> id in open) && (id in open ==> Fold(open, at, es)[id] == open[id])
  {
    if es != [] {
      var n := |es| - 1;
      var init := es[..n];
      LastWordDecides(open, at, init, id);
      forall i: nat ensures LastWord(at, es, id, i) <==> if Counts(at, es[n], id) then i == n else LastWord(at, init, id, i) {
        LastWordOneMore(at, es, id, i);
      }
      if Counts(at, es[n], id) { assert LastWord(at, es, id, n); }
      ApplyOne(Fold(open, at, init), at, es[n], id);
      hide Apply;
      hide LastWord;
      hide Counts;
    }
  }

  predicate Counts(at: Option<int>, e: Event, id: AlertId) { e.alert.id == id && (at == None || at.value <= e.at) }

  lemma LastWordOneMore(at: Option<int>, es: seq<Event>, id: AlertId, i: nat)
    requires es != []
    ensures var n := |es| - 1; LastWord(at, es, id, i) <==> if Counts(at, es[n], id) then i == n else LastWord(at, es[..n], id, i)
  {
    var n := |es| - 1;
    assert forall j :: 0 <= j < n ==> es[..n][j] == es[j];
  }

  lemma ApplyOne(open: OpenMap, at: Option<int>, e: Event, id: AlertId)
    ensures var u := Apply(open, at, e);
            if Counts(at, e, id) then (id in u <==> e.kind != Removed) && (id in u ==> u[id] == e.alert)
            else (id in u <==> id in open) && (id in u ==> u[id] == open[id])
  {}

  function Look(open: OpenMap, id: AlertId): Option<Alert> { if id in open then Some(open[id]) else None }

  /** What the list says of an alert after its event. */
  function Outcome(e: Event): Option<Alert> { if e.kind == Removed then None else Some(e.alert) }

  lemma SameMap(a: OpenMap, b: OpenMap)
    requires forall id :: Look(a, id) == Look(b, id)
    ensures a == b
  {
    forall id ensures id in a <==> id in b { assert Look(a, id) == Look(b, id); }
    forall id | id in a ensures a[id] == b[id] { assert Look(a, id) == Look(b, id); }
  }

  lemma ApplyLook(open: OpenMap, at: Option<int>, e: Event, id: AlertId)
    ensures Look(Apply(open, at, e), id) == if Applies(at, e) && e.alert.id == id then Outcome(e) else Look(open, id)
  {}

  lemma {:induction false} FoldConcat(open: OpenMap, at: Option<int>, a: seq<Event>, b: seq<Event>)
    ensures Fold(open, at, a + b) == Fold(Fold(open, at, a), at, b)
  {
    if b == [] {
      assert a + b == a;
    } else {
      assert (a + b)[..|a + b| - 1] == a + b[..|b| - 1];
      FoldConcat(open, at, a, b[..|b| - 1]);
    }
  }

  /** Only events that apply and carry this alert matter to it. */
  lemma {:induction false} FoldOfOthers(open: OpenMap, at: Option<int>, es: seq<Event>, id: AlertId)
    requires forall e :: e in es && e.alert.id == id ==> !Applies(at, e)
    ensures Look(Fold(open, at, es), id) == Look(open, id)
  {
    if es != [] {
      assert es == es[..|es| - 1] + [es[|es| - 1]];
      FoldOfOthers(open, at, es[..|es| - 1], id);
      ApplyLook(Fold(open, at, es[..|es| - 1]), at, es[|es| - 1], id);
    }
  }

  lemma {:induction false} FoldWithout(open: OpenMap, at: Option<int>, es: seq<Event>, gone: AlertId, id: AlertId)
    requires id != gone
    ensures Look(Fold(open, at, Without(es, gone)), id) == Look(Fold(open, at, es), id)
  {
    if es != [] {
      var init, e := es[..|es| - 1], es[|es| - 1];
      FoldWithout(open, at, init, gone, id);
      ApplyLook(Fold(open, at, init), at, e, id);
      if e.alert.id == gone {
        assert Without(es, gone) == Without(init, gone);
      } else {
        var w := Without(init, gone) + [e];
        assert Without(es, gone) == w && w[..|w| - 1] == Without(init, gone);
        ApplyLook(Fold(open, at, Without(init, gone)), at, e, id);
      }
    }
  }

  ghost predicate Ordered(h: seq<Event>) {
    forall i, j :: 0 <= i < j < |h| ==> h[i].at <= h[j].at
  }

  lemma {:induction false} LatestIsPartOf(h: seq<Event>)
    ensures forall e :: e in Latest(h) ==> e in h
  {
    if h != [] {
      assert h == h[..|h| - 1] + [h[|h| - 1]];
      LatestIsPartOf(h[..|h| - 1]);
      WithoutKeeps(Latest(h[..|h| - 1]), h[|h| - 1].alert.id);
    }
  }

  /** Every earlier event of an alert is dead once a later one arrives. */
  lemma {:induction false} LatestReconcilesAsAll(open: OpenMap, at: Option<int>, h: seq<Event>, id: AlertId)
    requires Ordered(h)
    ensures Look(Fold(open, at, Latest(h)), id) == Look(Fold(open, at, h), id)
  {
    if h != [] {
      var init, e := h[..|h| - 1], h[|h| - 1];
      var prev, w := Latest(init), Without(Latest(init), e.alert.id) + [e];
      LatestReconcilesAsAll(open, at, init, id);
      assert w[..|w| - 1] == Without(prev, e.alert.id);
      ApplyLook(Fold(open, at, init), at, e, id);
      ApplyLook(Fold(open, at, Without(prev, e.alert.id)), at, e, id);
      if e.alert.id != id {
        FoldWithout(open, at, prev, e.alert.id, id);
      } else if !Applies(at, e) {
        forall x | x in init ensures !Applies(at, x) { var i :| 0 <= i < |init| && init[i] == x; assert h[i].at <= h[|h| - 1].at; }
        FoldOfOthers(open, at, init, id);
        WithoutKeeps(prev, e.alert.id);
        FoldOfOthers(open, at, Without(prev, e.alert.id), id);
      }
    }
  }

  /** What the ceiling has cut off. */
  function Dropped(h: seq<Event>): seq<Event> {
    var all := Latest(h);
    if |all| > MAX_ALERT_EVENTS then all[..|all| - MAX_ALERT_EVENTS] else []
  }

  lemma DroppedAndKept(h: seq<Event>)
    ensures Latest(h) == Dropped(h) + Compact(h)
  {
    CompactIsTheLastFewOfLatest(h);
  }

  lemma {:induction false} FoldDistinct(open: OpenMap, at: Option<int>, es: seq<Event>, e: Event)
    requires DistinctIds(es) && e in es && Applies(at, e)
    ensures Look(Fold(open, at, es), e.alert.id) == Outcome(e)
  {
    var init, last := es[..|es| - 1], es[|es| - 1];
    assert es == init + [last];
    ApplyLook(Fold(open, at, init), at, last, e.alert.id);
    if e != last {
      var i :| 0 <= i < |init| && init[i] == e;
      assert es[i].alert.id != last.alert.id;
      FoldDistinct(open, at, init, e);
    }
  }

  /** An alert whose event is kept comes out alike; for the others the dropped events decide. */
  lemma SplitLook(open: OpenMap, at: Option<int>, d: seq<Event>, k: seq<Event>, id: AlertId)
    requires DistinctIds(k)
    ensures (forall e :: e in k && e.alert.id == id ==> !Applies(at, e)) ==>
              Look(Fold(open, at, k), id) == Look(open, id) && Look(Fold(open, at, d + k), id) == Look(Fold(open, at, d), id)
    ensures (exists e :: e in k && e.alert.id == id && Applies(at, e)) ==>
              Look(Fold(open, at, d + k), id) == Look(Fold(open, at, k), id)
  {
    FoldConcat(open, at, d, k);
    if e :| e in k && e.alert.id == id && Applies(at, e) {
      FoldDistinct(open, at, k, e);
      FoldDistinct(Fold(open, at, d), at, k, e);
    } else {
      FoldOfOthers(open, at, k, id);
      FoldOfOthers(Fold(open, at, d), at, k, id);
    }
  }

  /**
   When remembering only the last 500 latest events loses nothing: exactly when the snapshot
   already says what each dropped event that is not older than it says.
   */
  lemma CompactionLosesNothingExactly(open: OpenMap, at: Option<int>, h: seq<Event>)
    requires Ordered(h)
    ensures Fold(open, at, Compact(h)) == Fold(open, at, h)
            <==> forall e :: e in Dropped(h) && Applies(at, e) ==> Look(open, e.alert.id) == Outcome(e)
  {
    var d, k := Dropped(h), Compact(h);
    DroppedAndKept(h);
    LatestIsDistinct(h);
    assert DistinctIds(d) by { assert forall i :: 0 <= i < |d| ==> d[i] == Latest(h)[i]; }
    assert DistinctIds(k) by { assert forall i :: 0 <= i < |k| ==> k[i] == Latest(h)[|d| + i]; }
    if Fold(open, at, k) == Fold(open, at, h) {
      forall e | e in d && Applies(at, e) ensures Look(open, e.alert.id) == Outcome(e) {
        LatestReconcilesAsAll(open, at, h, e.alert.id);
        SplitLook(open, at, d, k, e.alert.id);
        DroppedIsNotKept(h, e);
        FoldDistinct(open, at, d, e);
      }
    }
    if forall e :: e in d && Applies(at, e) ==> Look(open, e.alert.id) == Outcome(e) {
      forall id ensures Look(Fold(open, at, k), id) == Look(Fold(open, at, h), id) {
        LatestReconcilesAsAll(open, at, h, id);
        SplitLook(open, at, d, k, id);
        if e :| e in d && e.alert.id == id && Applies(at, e) {
          FoldDistinct(open, at, d, e);
        } else {
          FoldOfOthers(open, at, d, id);
        }
      }
      SameMap(Fold(open, at, k), Fold(open, at, h));
    }
  }

  lemma DroppedIsNotKept(h: seq<Event>, e: Event)
    requires e in Dropped(h)
    ensures forall x :: x in Compact(h) ==> x.alert.id != e.alert.id
  {
    var d, k, all := Dropped(h), Compact(h), Latest(h);
    DroppedAndKept(h);
    LatestIsDistinct(h);
    var i :| 0 <= i < |d| && d[i] == e;
    forall x | x in k ensures x.alert.id != e.alert.id {
      var j :| 0 <= j < |k| && k[j] == x;
      assert all[i] == e && all[|d| + j] == x;
    }
  }

  /** In particular nothing is lost while no event newer than the snapshot has been cut off. */
  lemma CompactionLosesNothing(open: OpenMap, at: Option<int>, h: seq<Event>)
    requires Ordered(h) && forall e :: e in Dropped(h) ==> !Applies(at, e)
    ensures Fold(open, at, Compact(h)) == Fold(open, at, h)
  {
    CompactionLosesNothingExactly(open, at, h);
  }

  // ----- replaying over a snapshot -----

  lemma {:induction false} FoldAgain(a: OpenMap, b: OpenMap, es: seq<Event>, id: AlertId)
    requires exists e :: e in es && e.alert.id == id
    ensures Look(Fold(a, None, es), id) == Look(Fold(b, None, es), id)
  {
    var init, e := es[..|es| - 1], es[|es| - 1];
    assert es == init + [e];
    ApplyLook(Fold(a, None, init), None, e, id);
    ApplyLook(Fold(b, None, init), None, e, id);
    if e.alert.id != id { FoldAgain(a, b, init, id); }
  }

  predicate Mentions(es: seq<Event>, id: AlertId) { exists e :: e in es && e.alert.id == id }

  /**
   Replaying the end of a history over some snapshot gives what the whole history gives exactly when the snapshot
   is right about every alert that end does not mention.
   */
  lemma ReplayIsTheHistoryExactly(base: OpenMap, es: seq<Event>, from: nat, snapshot: OpenMap)
    requires from <= |es|
    ensures Fold(snapshot, None, es[from..]) == Fold(base, None, es)
            <==> forall id :: !Mentions(es[from..], id) ==> Look(snapshot, id) == Look(Fold(base, None, es[..from]), id)
  {
    var before, tail := Fold(base, None, es[..from]), es[from..];
    assert es == es[..from] + tail;
    FoldConcat(base, None, es[..from], tail);
    forall id
      ensures Mentions(tail, id) ==> Look(Fold(snapshot, None, tail), id) == Look(Fold(before, None, tail), id)
      ensures !Mentions(tail, id) ==> Look(Fold(snapshot, None, tail), id) == Look(snapshot, id)
      ensures !Mentions(tail, id) ==> Look(Fold(before, None, tail), id) == Look(before, id)
    {
      if Mentions(tail, id) {
        FoldAgain(snapshot, before, tail, id);
      } else {
        FoldOfOthers(snapshot, None, tail, id);
        FoldOfOthers(before, None, tail, id);
      }
    }
    if forall id :: !Mentions(tail, id) ==> Look(snapshot, id) == Look(before, id) {
      SameMap(Fold(snapshot, None, tail), Fold(before, None, tail));
    }
  }

  /** In particular when the snapshot is the history up to some read point and the replay starts at or before it. */
  lemma ReplayReachesTheHistory(base: OpenMap, es: seq<Event>, from: nat, read: nat)
    requires from <= read <= |es|
    ensures Fold(Fold(base, None, es[..read]), None, es[from..]) == Fold(base, None, es)
  {
    var before, during := Fold(base, None, es[..from]), es[from..read];
    assert es[..read] == es[..from] + during && es[from..] == during + es[read..];
    FoldConcat(base, None, es[..from], during);
    forall id | !Mentions(es[from..], id) ensures Look(Fold(before, None, during), id) == Look(before, id) {
      forall e | e in during ensures e.alert.id != id { assert e in es[from..]; }
      FoldOfOthers(before, None, during, id);
    }
    ReplayIsTheHistoryExactly(base, es, from, Fold(base, None, es[..read]));
  }

  lemma {:induction false} FoldSkips(open: OpenMap, at: Option<int>, es: seq<Event>)
    requires forall e :: e in es ==> !Applies(at, e)
    ensures Fold(open, at, es) == open
  {
    if es != [] {
      assert es == es[..|es| - 1] + [es[|es| - 1]];
      FoldSkips(open, at, es[..|es| - 1]);
    }
  }

  lemma {:induction false} FoldAll(open: OpenMap, at: Option<int>, es: seq<Event>)
    requires forall e :: e in es ==> Applies(at, e)
    ensures Fold(open, at, es) == Fold(open, None, es)
  {
    if es != [] {
      assert es == es[..|es| - 1] + [es[|es| - 1]];
      FoldAll(open, at, es[..|es| - 1]);
    }
  }

  /** The first event that applies; everything from there on does. */
  lemma {:induction false} FirstApplies(at: Option<int>, es: seq<Event>) returns (j: nat)
    requires Ordered(es)
    ensures j <= |es|
    ensures forall i :: 0 <= i < j ==> !Applies(at, es[i])
    ensures forall i :: j <= i < |es| ==> Applies(at, es[i])
  {
    if es == [] || Applies(at, es[0]) {
      j := 0;
      forall i | 0 <= i < |es| ensures Applies(at, es[i]) { if i > 0 { assert es[0].at <= es[i].at; } }
    } else {
      assert Ordered(es[1..]);
      var k := FirstApplies(at, es[1..]);
      j := k + 1;
      forall i | 0 <= i < j ensures !Applies(at, es[i]) { if i > 0 { assert es[i] == es[1..][i - 1]; } }
      forall i | j <= i < |es| ensures Applies(at, es[i]) { assert es[i] == es[1..][i - 1]; }
    }
  }

  /** Reconciling applies everything from the first event that applies, and nothing before it. */
  lemma FoldFromFirst(open: OpenMap, at: Option<int>, es: seq<Event>) returns (j: nat)
    requires Ordered(es)
    ensures j <= |es| && (forall i :: 0 <= i < j ==> !Applies(at, es[i])) && (j < |es| ==> Applies(at, es[j]))
    ensures Fold(open, at, es) == Fold(open, None, es[j..])
  {
    j := FirstApplies(at, es);
    assert es == es[..j] + es[j..];
    FoldConcat(open, at, es[..j], es[j..]);
    FoldSkips(open, at, es[..j]);
    FoldAll(open, at, es[j..]);
  }

  /**
   The browser holds the compacted events `seen` and a snapshot it asked for at time `requested`; only events from
   `read` on can be newer than the snapshot, and the ceiling cut nothing that recent. Then reconciling is replaying,
   from a point no later than `read`, everything there was over the snapshot.
   */
  lemma ReconcilingIsReplaying(snapshot: OpenMap, seen: seq<Event>, read: nat, requested: int) returns (j: nat)
    requires read <= |seen| && Ordered(seen)
    requires forall i :: read <= i < |seen| ==> seen[i].at >= requested
    requires forall e :: e in Dropped(seen) ==> e.at < requested
    ensures j <= read && Fold(snapshot, Some(requested), Compact(seen)) == Fold(snapshot, None, seen[j..])
    ensures j < |seen| ==> seen[j].at >= requested
  {
    CompactionLosesNothing(snapshot, Some(requested), seen);
    j := FoldFromFirst(snapshot, Some(requested), seen);
    if read < j { assert Applies(Some(requested), seen[read]); }
  }

  /** A snapshot asked for after every event so far is shown as it is, whatever those events said. */
  lemma FreshSnapshotPrevails(snapshot: OpenMap, seen: seq<Event>, requested: int)
    requires Ordered(seen) && forall e :: e in seen ==> e.at < requested
    ensures Fold(snapshot, Some(requested), Compact(seen)) == snapshot
  {
    forall e | e in Dropped(seen) ensures !Applies(Some(requested), e) { DroppedIsSeen(seen, e); }
    CompactionLosesNothing(snapshot, Some(requested), seen);
    FoldSkips(snapshot, Some(requested), seen);
  }

  lemma DroppedIsSeen(seen: seq<Event>, e: Event)
    requires e in Dropped(seen)
    ensures e in seen
  {
    LatestIsPartOf(seen);
  }

  // ----- the program -----

  method AppendAlertEvent(events: seq<Event>, event: Event) returns (next: seq<Event>)
    ensures next == Append(events, event)
  {
    next := [];
    for i := 0 to |events|
      invariant next == Without(events[..i], event.alert.id)
    {
      assert events[..i + 1][..i] == events[..i];
      if events[i].alert.id != event.alert.id { next := next + [events[i]]; }
    }
    assert events[..|events|] == events;
    next := next + [event];
    if |next| > MAX_ALERT_EVENTS { next := next[|next| - MAX_ALERT_EVENTS..]; }
  }

  function SeverityRank(severity: string): int {
    if severity == "critical" then 0 else if severity == "warning" then 1 else 2
  }

  /** The comparator: most severe first, then newest first. */
  predicate InOrder(a: Alert, b: Alert) {
    SeverityRank(a.severity) < SeverityRank(b.severity)
    || (SeverityRank(a.severity) == SeverityRank(b.severity) && a.openedAt >= b.openedAt)
  }

  predicate Sorted(list: seq<Alert>) { forall i, j :: 0 <= i < j < |list| ==> InOrder(list[i], list[j]) }

  function Insert(a: Alert, list: seq<Alert>): seq<Alert> {
    if list == [] || InOrder(a, list[0]) then [a] + list else [list[0]] + Insert(a, list[1..])
  }

  lemma {:induction false} InsertSorts(a: Alert, list: seq<Alert>)
    requires Sorted(list)
    ensures Sorted(Insert(a, list))
  {
    if list != [] && !InOrder(a, list[0]) {
      var rest := Insert(a, list[1..]);
      InsertSorts(a, list[1..]);
      assert list == [list[0]] + list[1..];
      InsertMembers(a, list[1..]);
      forall i | 0 <= i < |rest| ensures InOrder(list[0], rest[i]) {
        assert rest[i] in rest;
        if rest[i] != a { assert rest[i] in list[1..]; }
      }
    }
  }

  /** `new Map(snapshot.map(a => [a.id, a]))`. */
  function FromSnapshot(snapshot: seq<Alert>): OpenMap {
    if snapshot == [] then map[]
    else FromSnapshot(snapshot[..|snapshot| - 1])[snapshot[|snapshot| - 1].id := snapshot[|snapshot| - 1]]
  }

  /** The alert stands in the snapshot at `i`, and not after it. */
  predicate LastOf(snapshot: seq<Alert>, id: AlertId, i: nat) {
    i < |snapshot| && snapshot[i].id == id && forall j :: i < j < |snapshot| ==> snapshot[j].id != id
  }

  /** The map of a snapshot holds its alerts by their ids, the last of each. */
  lemma {:induction false} SnapshotIsRead(snapshot: seq<Alert>, id: AlertId)
    ensures id in FromSnapshot(snapshot) <==> exists a :: a in snapshot && a.id == id
    ensures forall i: nat :: LastOf(snapshot, id, i) ==> id in FromSnapshot(snapshot) && FromSnapshot(snapshot)[id] == snapshot[i]
  {
    if snapshot != [] {
      var n := |snapshot| - 1;
      var init := snapshot[..n];
      assert snapshot == init + [snapshot[n]];
      SnapshotIsRead(init, id);
      forall i: nat | LastOf(snapshot, id, i) ensures id in FromSnapshot(snapshot) && FromSnapshot(snapshot)[id] == snapshot[i] {
        if i < n {
          assert forall j :: i < j < n ==> init[j] == snapshot[j];
          assert LastOf(init, id, i);
        }
      }
    }
  }

  predicate KeyedById(open: OpenMap) { forall id :: id in open ==> open[id].id == id }

  /** Alerts of the reconciled map that are not resolved, each once, in display order. */
  ghost predicate Shows(list: seq<Alert>, open: OpenMap) {
    Sorted(list)
    && (forall a :: a in list <==> a.id in open && open[a.id] == a && a.state != Resolved)
    && forall i, j :: 0 <= i < j < |list| ==> list[i].id != list[j].id
  }

  /** Criticals first, then warnings, then the rest, and the newest first within each of these. */
  predicate MostSevereFirst(list: seq<Alert>) {
    forall i, j :: 0 <= i < j < |list| ==>
      && (list[j].severity == "critical" ==> list[i].severity == "critical")
      && (list[j].severity == "warning" ==> list[i].severity in {"critical", "warning"})
      && (AlikeSevere(list[i].severity, list[j].severity) ==> list[i].openedAt >= list[j].openedAt)
  }

  predicate AlikeSevere(s: string, t: string) { s == t || (s !in {"critical", "warning"} && t !in {"critical", "warning"}) }

  /** The comparator sorts exactly so. */
  lemma SortedIsMostSevereFirst(list: seq<Alert>)
    ensures Sorted(list) <==> MostSevereFirst(list)
  {}

  method ReconcileAlerts(snapshot: seq<Alert>, snapshotAt: Option<int>, events: seq<Event>) returns (list: seq<Alert>)
    ensures Shows(list, Fold(FromSnapshot(snapshot), snapshotAt, events)) && MostSevereFirst(list)
  {
    var open: OpenMap := map[];
    for i := 0 to |snapshot|
      invariant open == FromSnapshot(snapshot[..i]) && KeyedById(open)
    {
      assert snapshot[..i + 1][..i] == snapshot[..i];
      open := open[snapshot[i].id := snapshot[i]];
    }
    assert snapshot[..|snapshot|] == snapshot;
    for i := 0 to |events|
      invariant open == Fold(FromSnapshot(snapshot), snapshotAt, events[..i]) && KeyedById(open)
    {
      assert events[..i + 1][..i] == events[..i];
      var event := events[i];
      if snapshotAt.Some? && event.at < snapshotAt.value { continue; }
      if event.kind == Removed { open := open - {event.alert.id}; } else { open := open[event.alert.id := event.alert]; }
    }
    assert events[..|events|] == events;
    list := SortedValues(open);
    SortedIsMostSevereFirst(list);
  }

  ghost predicate ShowsKeys(list: seq<Alert>, open: OpenMap, keys: set<AlertId>) {
    Sorted(list)
    && (forall a :: a in list <==> a.id in keys && a.id in open && open[a.id] == a && a.state != Resolved)
    && forall i, j :: 0 <= i < j < |list| ==> list[i].id != list[j].id
  }

  lemma InsertShows(list: seq<Alert>, open: OpenMap, keys: set<AlertId>, id: AlertId)
    requires KeyedById(open) && ShowsKeys(list, open, keys) && id in open && id !in keys
    ensures ShowsKeys(if open[id].state != Resolved then Insert(open[id], list) else list, open, keys + {id})
  {
    hide Sorted;
    hide Insert;
    var a := open[id];
    if a.state != Resolved {
      InsertSorts(a, list);
      InsertMembers(a, list);
      var r := Insert(a, list);
      forall i, j | 0 <= i < j < |r| ensures r[i].id != r[j].id { InsertDistinct(a, list, i, j); }
    }
  }

  lemma {:induction false} InsertDistinct(a: Alert, list: seq<Alert>, i: nat, j: nat)
    requires forall x :: x in list ==> x.id != a.id
    requires forall i, j :: 0 <= i < j < |list| ==> list[i].id != list[j].id
    requires i < j < |Insert(a, list)|
    ensures Insert(a, list)[i].id != Insert(a, list)[j].id
  {
    if list != [] && !InOrder(a, list[0]) {
      var rest := list[1..];
      if i > 0 {
        InsertDistinct(a, rest, i - 1, j - 1);
      } else {
        InsertMembers(a, rest);
        var y := Insert(a, rest)[j - 1];
        assert y in Insert(a, rest);
        if y in rest { var k :| 0 <= k < |rest| && rest[k] == y; assert list[k + 1] == y; }
      }
    }
  }

  lemma {:induction false} InsertMembers(a: Alert, list: seq<Alert>)
    ensures forall x :: x in Insert(a, list) <==> x == a || x in list
  {
    if list != [] && !InOrder(a, list[0]) {
      assert list == [list[0]] + list[1..];
      InsertMembers(a, list[1..]);
    }
  }

  method SortedValues(open: OpenMap) returns (list: seq<Alert>)
    requires KeyedById(open)
    ensures Shows(list, open)
  {
    list := [];
    var todo := open.Keys;
    while todo != {}
      invariant todo <= open.Keys && ShowsKeys(list, open, open.Keys - todo)
    {
      var id :| id in todo;
      InsertShows(list, open, open.Keys - todo, id);
      if open[id].state != Resolved { list := Insert(open[id], list); }
      assert open.Keys - todo + {id} == open.Keys - (todo - {id});
      todo := todo - {id};
    }
  }
}
