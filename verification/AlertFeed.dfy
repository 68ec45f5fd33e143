/**
 What the alert engine's clients are told, against what the store holds
 (apps/ingest/src/rules/index.ts over apps/ingest/src/rules/store.ts), and what a browser that
 reconciles a snapshot with those events then shows (apps/web/lib/alerts.ts).
 */
module AlertFeed {
  import opened Wrappers
  import opened AlertStore
  import opened AlertEngine
  import opened AlertProtocol
  import L = AlertList

  predicate IsOpen(db: Db, id: Id) { id in db.alerts && !db.alerts[id].resolved }

  /** The server's open alerts. */
  function OpenIds(db: Db): set<Id> { set id | id in db.alerts && !db.alerts[id].resolved }

  function Tell(open: set<Id>, m: Emission): set<Id> {
    if m.Closed? then open - {m.id} else open + {m.id}
  }

  /** The alerts a client believes open that started from `open` and heard `ms`. */
  function Told(open: set<Id>, ms: seq<Emission>): set<Id> {
    if ms == [] then open else Tell(Told(open, ms[..|ms| - 1]), ms[|ms| - 1])
  }

  /** A store call has committed and its continuation will emit `m`. */
  predicate Due(w: World, m: Emission) { exists c :: c in w.calls && Tells(w.calls[c]) == [m] }

  /** Nothing committed is still to be told. */
  ghost predicate Quiet(w: World) { forall m :: !Due(w, m) }

  /** The store's open alerts are those told of and those about to be, less those about to be told closed. */
  ghost predicate Faithful(w: World, base: set<Id>) {
    forall id :: IsOpen(w.db, id) <==> (id in Told(base, w.emitted) || Due(w, Raised(id))) && !Due(w, Closed(id))
  }

  ghost predicate FeedWf(w: World, base: set<Id>) {
    Wf(w) && Told(base, w.emitted) <= w.db.alerts.Keys && w.acks <= w.db.alerts.Keys
  }

  /** Between calls, clients know exactly what is open. */
  lemma QuietFeedIsTheTruth(w: World, base: set<Id>)
    requires Faithful(w, base) && Quiet(w)
    ensures OpenIds(w.db) == Told(base, w.emitted)
  {
    forall id ensures id in OpenIds(w.db) <==> id in Told(base, w.emitted) { assert IsOpen(w.db, id) <==> id in OpenIds(w.db); }
  }

  /**
   The three ways for the feed to part from the store: a call that changed the store is reported as an error; an
   acknowledgement is told after its alert has been told closed; or the process ends with something due that its
   clients do not know.
   */
  ghost predicate Misleads(w: World, base: set<Id>, e: Event) {
    && Enabled(w, e)
    && match e
       case Commit(c, id, _, thenThrow) => thenThrow && CommitResult(w.db, w.calls[c], id).alert.Some?
       case AckReturns(id) => !IsOpen(w.db, id) && !Due(w, Closed(id))
       case Restart(_, _) =>
         exists id :: (Due(w, Raised(id)) && id !in Told(base, w.emitted)) || (Due(w, Closed(id)) && id in Told(base, w.emitted))
       case _ => false
  }

  lemma ToldSnoc(open: set<Id>, ms: seq<Emission>, m: Emission)
    ensures Told(open, ms + [m]) == Tell(Told(open, ms), m)
  {
    assert (ms + [m])[..|ms|] == ms;
  }

  /** `m` is due from another call than `c`. */
  predicate DueElsewhere(w: World, m: Emission, c: nat) {
    exists d :: d in w.calls && d != c && Tells(w.calls[d]) == [m]
  }

  lemma DueSplits(w: World, m: Emission, c: nat)
    ensures Due(w, m) <==> DueElsewhere(w, m, c) || (c in w.calls && Tells(w.calls[c]) == [m])
  {}

  lemma DueElsewhereStays(w: World, v: World, m: Emission, c: nat)
    requires forall d :: d != c ==> (d in w.calls <==> d in v.calls) && (d in w.calls ==> v.calls[d] == w.calls[d])
    ensures DueElsewhere(w, m, c) <==> DueElsewhere(v, m, c)
  {
    if DueElsewhere(w, m, c) {
      var d :| d in w.calls && d != c && Tells(w.calls[d]) == [m];
      assert d in v.calls && Tells(v.calls[d]) == [m];
    }
    if DueElsewhere(v, m, c) {
      var d :| d in v.calls && d != c && Tells(v.calls[d]) == [m];
      assert d in w.calls && Tells(w.calls[d]) == [m];
    }
  }

  /** Two calls never owe news of one alert. */
  lemma OneTeller(w: World, c: nat, m: Emission)
    requires Wf(w) && c in w.calls && Owned(w.db, m.id, w.calls[c].key)
    ensures !DueElsewhere(w, m, c)
  {
    forall d | d in w.calls && Tells(w.calls[d]) == [m] ensures d == c { assert CallOwned(w.db, w.calls[d]); }
  }

  lemma TellsOwned(w: World, c: nat, m: Emission)
    requires Wf(w) && c in w.calls && Tells(w.calls[c]) == [m]
    ensures Owned(w.db, m.id, w.calls[c].key)
  {
    assert CallOwned(w.db, w.calls[c]);
  }

  lemma DueIsKnown(w: World, m: Emission)
    requires Wf(w) && Due(w, m)
    ensures m.id in w.db.alerts
  {
    var c :| c in w.calls && Tells(w.calls[c]) == [m];
    TellsOwned(w, c, m);
  }

  lemma CommitOpens(db: Db, call: Call, id: Id, targets: set<Target>, other: Id)
    requires id !in db.alerts && (call.kind.Closing? ==> call.kind.id in db.alerts)
    ensures var r := CommitResult(db, call, id).alert;
            && (call.kind.Opening? && r.Some? ==> r.value == id)
            && (call.kind.Closing? && r.Some? ==> r.value == call.kind.id && IsOpen(db, r.value))
            && (IsOpen(CommitDb(db, call, id, targets), other)
                <==> if r.Some? && other == r.value then call.kind.Opening? else IsOpen(db, other))
  {}

  lemma AlertsStay(w: World, e: Event)
    ensures w.db.alerts.Keys <= Next(w, e).db.alerts.Keys
  {
    hide Evaluate;
    hide Continue;
    hide IsLive;
    hide Holds;
    hide Tells;
  }

  lemma NewsIsKnown(w: World, base: set<Id>, e: Event)
    requires FeedWf(w, base) && Enabled(w, e)
    ensures Told(base, Next(w, e).emitted) <= w.db.alerts.Keys
  {
    hide Told;
    hide Tells;
    hide Wf;
    hide Evaluate;
    hide Continue;
    hide CommitDb;
    if e.Return? {
      if Tells(w.calls[e.c]) == [] {
        assert w.emitted + [] == w.emitted;
      } else {
        var m := TheNews(w.calls[e.c]);
        TellsOwned(w, e.c, m);
        ToldSnoc(base, w.emitted, m);
      }
    }
    if e.AckReturns? { ToldSnoc(base, w.emitted, Acknowledged(e.id)); }
  }

  lemma AcksAreKnown(w: World, e: Event)
    requires w.acks <= w.db.alerts.Keys
    ensures Next(w, e).acks <= w.db.alerts.Keys
  {
    hide Evaluate;
    hide Continue;
    hide IsLive;
    hide CommitDb;
    hide Tells;
  }

  lemma NextKeepsFeedWf(w: World, base: set<Id>, e: Event)
    requires FeedWf(w, base)
    ensures FeedWf(Next(w, e), base)
  {
    hide Sound;
    hide OneCallEach;
    hide Ownership;
    hide Told;
    hide Next;
    hide Enabled;
    NextKeepsSound(w, e);
    NextKeepsOneCallEach(w, e);
    NextKeepsOwnership(w, e);
    AlertsStay(w, e);
    AcksAreKnown(w, e);
    if Enabled(w, e) { NewsIsKnown(w, base, e); } else { DisabledStays(w, e); }
  }

  lemma OwnershipOf(w: World, c: nat)
    requires Ownership(w) && c in w.calls
    ensures CallOwned(w.db, w.calls[c])
  {}

  /** Steps that change no call's news, nothing told and nothing open. */
  lemma NoNewsStays(w: World, v: World, base: set<Id>)
    requires v.emitted == w.emitted && (forall m :: Due(v, m) <==> Due(w, m)) && (forall id :: IsOpen(v.db, id) <==> IsOpen(w.db, id))
    ensures Faithful(v, base) <==> Faithful(w, base)
  {}

  lemma QuietCallStays(w: World, v: World, base: set<Id>, c: nat)
    requires forall d :: d != c ==> (d in w.calls <==> d in v.calls) && (d in w.calls ==> v.calls[d] == w.calls[d])
    requires (c in w.calls ==> Tells(w.calls[c]) == []) && (c in v.calls ==> Tells(v.calls[c]) == [])
    requires v.emitted == w.emitted && (forall id :: IsOpen(v.db, id) <==> IsOpen(w.db, id))
    ensures Faithful(v, base) <==> Faithful(w, base)
  {
    forall m ensures Due(v, m) <==> Due(w, m) {
      DueSplits(w, m, c);
      DueSplits(v, m, c);
      DueElsewhereStays(w, v, m, c);
    }
    NoNewsStays(w, v, base);
  }

  lemma EvaluationStaysFaithful(w: World, base: set<Id>, e: Event)
    requires FeedWf(w, base) && (e.Evaluation? || e.Fail?) && Enabled(w, e)
    ensures Faithful(Next(w, e), base) <==> Faithful(w, base)
  {
    hide Evaluate;
    hide Wf;
    hide Told;
    QuietCallStays(w, Next(w, e), base, e.c);
  }

  lemma ReturnStaysFaithful(w: World, base: set<Id>, e: Event)
    requires FeedWf(w, base) && Faithful(w, base) && e.Return? && Enabled(w, e)
    ensures Faithful(Next(w, e), base)
  {
    hide Wf;
    hide Told;
    hide Tells;
    hide Continue;
    hide IsOpen;
    var v, ms := Next(w, e), Tells(w.calls[e.c]);
    if ms == [] {
      assert w.emitted + [] == w.emitted;
      QuietCallStays(w, v, base, e.c);
    } else {
      var m := TheNews(w.calls[e.c]);
      ToldSnoc(base, w.emitted, m);
      TellsOwned(w, e.c, m);
      forall id ensures IsOpen(v.db, id) <==> (id in Told(base, v.emitted) || Due(v, Raised(id))) && !Due(v, Closed(id)) {
        assert IsOpen(w.db, id) <==> (id in Told(base, w.emitted) || Due(w, Raised(id))) && !Due(w, Closed(id));
        DueSplits(w, Raised(id), e.c);
        DueSplits(w, Closed(id), e.c);
        DueSplits(v, Raised(id), e.c);
        DueSplits(v, Closed(id), e.c);
        DueElsewhereStays(w, v, Raised(id), e.c);
        DueElsewhereStays(w, v, Closed(id), e.c);
        if id == m.id {
          OneTeller(w, e.c, Raised(id));
          OneTeller(w, e.c, Closed(id));
        }
      }
    }
  }

  lemma TheNews(call: Call) returns (m: Emission)
    requires Tells(call) != []
    ensures Tells(call) == [m] && !m.Acknowledged?
  {
    m := Tells(call)[0];
  }

  lemma CommitStaysFaithfulExactly(w: World, base: set<Id>, e: Event)
    requires FeedWf(w, base) && Faithful(w, base) && e.Commit? && Enabled(w, e)
    ensures Faithful(Next(w, e), base) <==> !Misleads(w, base, e)
  {
    hide Told;
    hide Sound;
    hide OneCallEach;
    hide Ownership;
    hide CommitDb;
    hide CommitResult;
    hide IsOpen;
    var v, call := Next(w, e), w.calls[e.c];
    CommitGives(w.db, call, e.id);
    var r := CommitResult(w.db, call, e.id).alert;
    OwnershipOf(w, e.c);
    forall id ensures IsOpen(v.db, id) <==> if r.Some? && id == r.value then call.kind.Opening? else IsOpen(w.db, id) {
      CommitOpens(w.db, call, e.id, e.targets, id);
    }
    if r.None? {
      QuietCallStays(w, v, base, e.c);
    } else {
      CommitOpens(w.db, call, e.id, e.targets, r.value);
      forall id
        ensures id != r.value ==>
          (IsOpen(v.db, id) <==> (id in Told(base, v.emitted) || Due(v, Raised(id))) && !Due(v, Closed(id)))
        ensures id == r.value ==>
          ((IsOpen(v.db, id) <==> (id in Told(base, v.emitted) || Due(v, Raised(id))) && !Due(v, Closed(id))) <==> !e.thenThrow)
      {
        assert IsOpen(w.db, id) <==> (id in Told(base, w.emitted) || Due(w, Raised(id))) && !Due(w, Closed(id));
        DueSplits(w, Raised(id), e.c);
        DueSplits(w, Closed(id), e.c);
        DueSplits(v, Raised(id), e.c);
        DueSplits(v, Closed(id), e.c);
        DueElsewhereStays(w, v, Raised(id), e.c);
        DueElsewhereStays(w, v, Closed(id), e.c);
        if id == r.value {
          if call.kind.Opening? {
            FreshIsUntold(w, id);
          } else {
            OneTeller(w, e.c, Raised(id));
            OneTeller(w, e.c, Closed(id));
          }
        }
      }
    }
  }

  lemma CommitGives(db: Db, call: Call, id: Id)
    ensures CommitResult(db, call, id).Committed?
  {}

  lemma FreshIsUntold(w: World, id: Id)
    requires Wf(w) && id !in w.db.alerts
    ensures !Due(w, Raised(id)) && !Due(w, Closed(id))
  {
    if Due(w, Raised(id)) { DueIsKnown(w, Raised(id)); }
    if Due(w, Closed(id)) { DueIsKnown(w, Closed(id)); }
  }

  lemma AckStaysFaithfulExactly(w: World, base: set<Id>, e: Event)
    requires FeedWf(w, base) && Faithful(w, base) && (e.Acknowledge? || e.AckReturns? || e.AckThrows?) && Enabled(w, e)
    ensures Faithful(Next(w, e), base) <==> !Misleads(w, base, e)
  {
    hide Told;
    hide Wf;
    var v := Next(w, e);
    assert forall m :: Due(v, m) <==> Due(w, m);
    if e.AckReturns? {
      ToldSnoc(base, w.emitted, Acknowledged(e.id));
      assert IsOpen(w.db, e.id) <==> (e.id in Told(base, w.emitted) || Due(w, Raised(e.id))) && !Due(w, Closed(e.id));
      forall id | id != e.id ensures IsOpen(v.db, id) <==> (id in Told(base, v.emitted) || Due(v, Raised(id))) && !Due(v, Closed(id)) {
        assert IsOpen(w.db, id) <==> (id in Told(base, w.emitted) || Due(w, Raised(id))) && !Due(w, Closed(id));
      }
    } else {
      NoNewsStays(w, v, base);
    }
  }

  /** Raised and closed news of one alert are never due together. */
  lemma NotBothDue(w: World, id: Id)
    requires Wf(w)
    ensures !(Due(w, Raised(id)) && Due(w, Closed(id)))
  {
    if Due(w, Raised(id)) {
      var c :| c in w.calls && Tells(w.calls[c]) == [Raised(id)];
      TellsOwned(w, c, Raised(id));
      OneTeller(w, c, Closed(id));
      DueSplits(w, Closed(id), c);
    }
  }

  lemma RefreshStaysFaithfulExactly(w: World, base: set<Id>, e: Event)
    requires FeedWf(w, base) && Faithful(w, base) && (e.RefreshTo? || e.Restart?) && Enabled(w, e)
    ensures Faithful(Next(w, e), base) <==> !Misleads(w, base, e)
  {
    hide Told;
    hide Wf;
    hide IsLive;
    var v := Next(w, e);
    if e.RefreshTo? {
      assert forall m :: Due(v, m) <==> Due(w, m);
      NoNewsStays(w, v, base);
    } else {
      assert forall m :: !Due(v, m);
      forall id
        ensures (IsOpen(v.db, id) <==> (id in Told(base, v.emitted) || Due(v, Raised(id))) && !Due(v, Closed(id)))
                <==> !((Due(w, Raised(id)) && id !in Told(base, w.emitted)) || (Due(w, Closed(id)) && id in Told(base, w.emitted)))
      {
        assert IsOpen(w.db, id) <==> (id in Told(base, w.emitted) || Due(w, Raised(id))) && !Due(w, Closed(id));
        NotBothDue(w, id);
      }
    }
  }

  /** One step keeps what clients are told in line with the store exactly when it is none of the three. */
  lemma StepStaysFaithfulExactly(w: World, base: set<Id>, e: Event)
    requires FeedWf(w, base) && Faithful(w, base)
    ensures FeedWf(Next(w, e), base)
    ensures Faithful(Next(w, e), base) <==> !Misleads(w, base, e)
  {
    hide Faithful;
    hide FeedWf;
    hide Next;
    NextKeepsFeedWf(w, base, e);
    if !Enabled(w, e) {
      DisabledStays(w, e);
    } else {
      match e
      case Evaluation(_, _, _, _, _) => EvaluationStaysFaithful(w, base, e);
      case Fail(_) => EvaluationStaysFaithful(w, base, e);
      case Return(_) => ReturnStaysFaithful(w, base, e);
      case Commit(_, _, _, _) => CommitStaysFaithfulExactly(w, base, e);
      case RefreshTo(_) => RefreshStaysFaithfulExactly(w, base, e);
      case Restart(_, _) => RefreshStaysFaithfulExactly(w, base, e);
      case _ => AckStaysFaithfulExactly(w, base, e);
    }
  }

  lemma DisabledStays(w: World, e: Event)
    requires !Enabled(w, e)
    ensures Next(w, e) == w
  {}

  // ----- whole runs -----

  ghost predicate MisleadsAt(w: World, base: set<Id>, es: seq<Event>, i: nat)
    requires i < |es|
  {
    Misleads(After(w, es[..i]), base, es[i])
  }

  ghost predicate FaithfulAfter(w: World, base: set<Id>, es: seq<Event>, i: nat)
    requires i <= |es|
  {
    Faithful(After(w, es[..i]), base)
  }

  ghost predicate Honest(w: World, base: set<Id>, es: seq<Event>) {
    forall i :: 0 <= i < |es| ==> !MisleadsAt(w, base, es, i)
  }

  lemma {:induction false} AlwaysFeedWf(w: World, base: set<Id>, es: seq<Event>)
    requires FeedWf(w, base)
    ensures FeedWf(After(w, es), base)
  {
    hide FeedWf;
    hide Next;
    if es != [] {
      AlwaysFeedWf(w, base, es[..|es| - 1]);
      NextKeepsFeedWf(After(w, es[..|es| - 1]), base, es[|es| - 1]);
    }
  }

  lemma StepOfRun(w: World, base: set<Id>, es: seq<Event>, i: nat)
    requires FeedWf(w, base) && i < |es| && FaithfulAfter(w, base, es, i)
    ensures FaithfulAfter(w, base, es, i + 1) <==> !MisleadsAt(w, base, es, i)
  {
    hide Faithful;
    hide FeedWf;
    hide Misleads;
    hide Next;
    assert es[..i + 1][..i] == es[..i];
    AlwaysFeedWf(w, base, es[..i]);
    StepStaysFaithfulExactly(After(w, es[..i]), base, es[i]);
  }

  lemma {:induction false} HonestRunsStayFaithful(w: World, base: set<Id>, es: seq<Event>, i: nat)
    requires FeedWf(w, base) && Faithful(w, base) && Honest(w, base, es) && i <= |es|
    ensures FaithfulAfter(w, base, es, i)
  {
    hide Faithful;
    hide FeedWf;
    hide Misleads;
    hide Next;
    if i == 0 {
      assert es[..0] == [];
    } else {
      HonestRunsStayFaithful(w, base, es, i - 1);
      assert !MisleadsAt(w, base, es, i - 1);
      StepOfRun(w, base, es, i - 1);
    }
  }

  /** What clients are told stays in line with the store throughout a run exactly when no step of it misleads them. */
  lemma FeedIsFaithfulExactly(w: World, base: set<Id>, es: seq<Event>)
    requires FeedWf(w, base) && Faithful(w, base)
    ensures (forall i :: 0 <= i <= |es| ==> FaithfulAfter(w, base, es, i)) <==> Honest(w, base, es)
  {
    hide Faithful;
    hide FeedWf;
    hide Misleads;
    hide After;
    if Honest(w, base, es) {
      forall i | 0 <= i <= |es| ensures FaithfulAfter(w, base, es, i) { HonestRunsStayFaithful(w, base, es, i); }
    }
    if forall i :: 0 <= i <= |es| ==> FaithfulAfter(w, base, es, i) {
      forall i | 0 <= i < |es| ensures !MisleadsAt(w, base, es, i) {
        assert FaithfulAfter(w, base, es, i) && FaithfulAfter(w, base, es, i + 1);
        StepOfRun(w, base, es, i);
      }
    }
  }

  // ----- what a misleading step does for good -----

  /** An alert the store has resolved, that clients believe open, with no news of it due. */
  ghost predicate ShownInVain(w: World, base: set<Id>, id: Id) {
    id in w.db.alerts && w.db.alerts[id].resolved && id in Told(base, w.emitted) && !Due(w, Closed(id))
  }

  lemma ResolvedStays(w: World, e: Event, id: Id)
    requires id in w.db.alerts && w.db.alerts[id].resolved
    ensures id in Next(w, e).db.alerts && Next(w, e).db.alerts[id].resolved
  {
    hide Evaluate;
    hide Continue;
    hide IsLive;
    hide Holds;
    hide Tells;
  }

  lemma ResolvedIsNotDueAgain(w: World, e: Event, id: Id)
    requires Wf(w) && id in w.db.alerts && w.db.alerts[id].resolved && !Due(w, Closed(id))
    ensures !Due(Next(w, e), Closed(id))
  {
    hide Wf;
    hide Evaluate;
    hide Continue;
    hide CommitDb;
    hide IsLive;
    var v := Next(w, e);
    forall c | c in v.calls ensures Tells(v.calls[c]) != [Closed(id)] {
      if c in w.calls && v.calls[c] == w.calls[c] {
        assert Tells(w.calls[c]) != [Closed(id)];
      }
    }
  }

  /**
   No event ever takes such an alert off the clients' lists: neither asking the store again nor a restart emits
   one.
   */
  lemma {:induction false} ShownInVainForEver(w: World, base: set<Id>, es: seq<Event>, id: Id)
    requires FeedWf(w, base) && ShownInVain(w, base, id)
    ensures FeedWf(After(w, es), base) && ShownInVain(After(w, es), base, id)
  {
    hide FeedWf;
    hide Next;
    hide Told;
    if es != [] {
      var v, e := After(w, es[..|es| - 1]), es[|es| - 1];
      ShownInVainForEver(w, base, es[..|es| - 1], id);
      NextKeepsFeedWf(v, base, e);
      FeedWfIsWf(v, base);
      ResolvedStays(v, e, id);
      ResolvedIsNotDueAgain(v, e, id);
      StillTold(v, base, e, id);
    }
  }

  lemma FeedWfIsWf(w: World, base: set<Id>)
    requires FeedWf(w, base)
    ensures Wf(w)
  {}

  lemma StillTold(w: World, base: set<Id>, e: Event, id: Id)
    requires id in Told(base, w.emitted) && !Due(w, Closed(id))
    ensures id in Told(base, Next(w, e).emitted)
  {
    hide Told;
    hide Tells;
    hide Evaluate;
    hide Continue;
    hide CommitDb;
    hide IsLive;
    if Enabled(w, e) {
      if e.Return? {
        if Tells(w.calls[e.c]) == [] {
          assert w.emitted + [] == w.emitted;
        } else {
          var m := TheNews(w.calls[e.c]);
          ToldSnoc(base, w.emitted, m);
        }
      }
      if e.AckReturns? { ToldSnoc(base, w.emitted, Acknowledged(e.id)); }
    }
  }

  /** A close that commits and is reported as an error leaves its alert on the clients' lists, where it stays. */
  lemma LostCloseIsNeverTold(w: World, base: set<Id>, c: nat, id: Id, targets: set<Target>)
    requires FeedWf(w, base) && Faithful(w, base) && c in w.calls && w.calls[c].stage.Called? && id !in w.db.alerts
    requires w.calls[c].kind.Closing? && IsOpen(w.db, w.calls[c].kind.id)
    ensures ShownInVain(Next(w, Commit(c, id, targets, true)), base, w.calls[c].kind.id)
    ensures Misleads(w, base, Commit(c, id, targets, true))
  {
    hide Told;
    hide Sound;
    hide OneCallEach;
    var a, v := w.calls[c].kind.id, Next(w, Commit(c, id, targets, true));
    OwnershipOf(w, c);
    OneTeller(w, c, Raised(a));
    OneTeller(w, c, Closed(a));
    DueSplits(w, Raised(a), c);
    DueSplits(v, Closed(a), c);
    DueElsewhereStays(w, v, Closed(a), c);
    assert IsOpen(w.db, a) <==> (a in Told(base, w.emitted) || Due(w, Raised(a))) && !Due(w, Closed(a));
  }

  /**
   An alert the store holds open, that clients were not told of, with no news of it due and nobody acknowledging
   it.
   */
  ghost predicate Unheard(w: World, base: set<Id>, id: Id) {
    id in w.db.alerts && id !in Told(base, w.emitted) && !Due(w, Raised(id)) && id !in w.acks
  }

  lemma UnheardStays(w: World, base: set<Id>, e: Event, id: Id)
    requires FeedWf(w, base) && Unheard(w, base, id) && e != AlertProtocol.Acknowledge(id)
    ensures Unheard(Next(w, e), base, id)
  {
    hide Told;
    hide Wf;
    hide Evaluate;
    hide Continue;
    hide IsLive;
    hide OpenAlert;
    hide ResolveAlert;
    AlertsStay(w, e);
    if Enabled(w, e) {
      var v := Next(w, e);
      if e.Return? {
        if Tells(w.calls[e.c]) == [] {
          assert w.emitted + [] == w.emitted;
        } else {
          var m := TheNews(w.calls[e.c]);
          ToldSnoc(base, w.emitted, m);
        }
      }
      if e.AckReturns? { ToldSnoc(base, w.emitted, Acknowledged(e.id)); }
      forall c | c in v.calls ensures Tells(v.calls[c]) != [Raised(id)] {
        if c in w.calls && v.calls[c] == w.calls[c] { assert Tells(w.calls[c]) != [Raised(id)]; }
      }
    }
  }

  /** Such an alert is never told of unless somebody acknowledges it, not even when the engine adopts or resolves it. */
  lemma {:induction false} UnheardForEver(w: World, base: set<Id>, es: seq<Event>, id: Id)
    requires FeedWf(w, base) && Unheard(w, base, id) && forall i :: 0 <= i < |es| ==> es[i] != AlertProtocol.Acknowledge(id)
    ensures FeedWf(After(w, es), base) && Unheard(After(w, es), base, id)
  {
    hide FeedWf;
    hide Next;
    hide Unheard;
    if es != [] {
      UnheardForEver(w, base, es[..|es| - 1], id);
      NextKeepsFeedWf(After(w, es[..|es| - 1]), base, es[|es| - 1]);
      UnheardStays(After(w, es[..|es| - 1]), base, es[|es| - 1], id);
    }
  }

  /** An open that commits and is reported as an error makes such an alert. */
  lemma LostOpenIsNeverTold(w: World, base: set<Id>, c: nat, id: Id, targets: set<Target>)
    requires FeedWf(w, base) && c in w.calls && w.calls[c].stage.Called? && id !in w.db.alerts
    requires w.calls[c].kind.Opening? && !Holds(w.db, w.calls[c].key)
    ensures var v := Next(w, Commit(c, id, targets, true));
            IsOpen(v.db, id) && Unheard(v, base, id) && Misleads(w, base, Commit(c, id, targets, true))
  {
    hide Told;
    hide Sound;
    hide OneCallEach;
    var v := Next(w, Commit(c, id, targets, true));
    FreshIsUntold(w, id);
    DueSplits(w, Raised(id), c);
    DueSplits(v, Raised(id), c);
    DueElsewhereStays(w, v, Raised(id), c);
  }

  // ----- the browser -----

  lemma {:induction false} ToldConcat(open: set<Id>, a: seq<Emission>, b: seq<Emission>)
    ensures Told(open, a + b) == Told(Told(open, a), b)
    decreases |b|
  {
    if b == [] {
      assert a + b == a;
    } else {
      ToldConcat(open, a, b[..|b| - 1]);
      assert (a + b)[..|a + b| - 1] == a + b[..|b| - 1];
    }
  }

  predicate Names(ms: seq<Emission>, id: Id) { exists m :: m in ms && m.id == id }

  /** Only the news that names an alert matters to it, and then where one started does not. */
  lemma {:induction false} ToldByName(open: set<Id>, other: set<Id>, ms: seq<Emission>, id: Id)
    ensures !Names(ms, id) ==> (id in Told(open, ms) <==> id in open)
    ensures Names(ms, id) ==> (id in Told(open, ms) <==> id in Told(other, ms))
  {
    if ms != [] {
      var init, m := ms[..|ms| - 1], ms[|ms| - 1];
      assert ms == init + [m];
      ToldByName(open, other, init, id);
      assert Names(ms, id) <==> m.id == id || Names(init, id);
    }
  }

  /** Events as a browser receives them: what they say of which alert is what was emitted. */
  predicate Carries(events: seq<L.Event>, ms: seq<Emission>) {
    |events| == |ms| && forall i :: 0 <= i < |ms| ==> events[i].alert.id == ms[i].id && (events[i].kind == L.Removed <==> ms[i].Closed?)
  }

  lemma {:induction false} FoldTells(open: L.OpenMap, events: seq<L.Event>, ms: seq<Emission>)
    requires Carries(events, ms)
    ensures L.Fold(open, None, events).Keys == Told(open.Keys, ms)
  {
    if ms != [] {
      FoldTells(open, events[..|ms| - 1], ms[..|ms| - 1]);
    }
  }

  /** News that is due and would change what clients believe. */
  ghost predicate Owed(w: World, base: set<Id>, m: Emission) {
    Due(w, m) && ((m.Raised? && m.id !in Told(base, w.emitted)) || (m.Closed? && m.id in Told(base, w.emitted)))
  }

  /** What is emitted from one world to a later one. */
  function News(w: World, v: World): seq<Emission> {
    if |w.emitted| <= |v.emitted| then v.emitted[|w.emitted|..] else []
  }

  lemma ReturnNames(w: World, c: nat, m: Emission)
    requires Enabled(w, Return(c)) && Tells(w.calls[c]) == [m]
    ensures Names(News(w, Next(w, Return(c))), m.id)
  {
    EmittedGrows(w, Return(c));
    assert m in News(w, Next(w, Return(c)));
  }

  lemma OwedStays(w: World, base: set<Id>, e: Event, m: Emission)
    requires FeedWf(w, base) && Owed(w, base, m) && !Misleads(w, base, e)
    requires !Names(News(w, Next(w, e)), m.id)
    ensures Owed(Next(w, e), base, m)
  {
    hide Told;
    hide Wf;
    hide Evaluate;
    hide Continue;
    hide CommitDb;
    hide IsLive;
    if Enabled(w, e) {
      var v := Next(w, e);
      var c :| c in w.calls && Tells(w.calls[c]) == [m];
      var news := v.emitted[|w.emitted|..];
      EmittedGrows(w, e);
      ToldConcat(base, w.emitted, news);
      ToldByName(Told(base, w.emitted), {}, news, m.id);
      if e.Return? && e.c == c { ReturnNames(w, c, m); }
      assert Due(w, m);
      assert c in v.calls && Tells(v.calls[c]) == [m];
    } else {
      DisabledStays(w, e);
    }
  }

  lemma EmittedGrows(w: World, e: Event)
    ensures |w.emitted| <= |Next(w, e).emitted| && Next(w, e).emitted == w.emitted + Next(w, e).emitted[|w.emitted|..]
    ensures Enabled(w, e) && e.Return? ==> Next(w, e).emitted[|w.emitted|..] == Tells(w.calls[e.c])
  {
    hide Evaluate;
    hide Continue;
    hide CommitDb;
    hide IsLive;
    hide Tells;
  }

  lemma {:induction false} RunEmittedGrows(w: World, es: seq<Event>)
    ensures |w.emitted| <= |After(w, es).emitted| && After(w, es).emitted[..|w.emitted|] == w.emitted
  {
    hide Next;
    if es != [] {
      RunEmittedGrows(w, es[..|es| - 1]);
      EmittedGrows(After(w, es[..|es| - 1]), es[|es| - 1]);
    }
  }

  lemma HonestPrefix(w: World, base: set<Id>, es: seq<Event>)
    requires es != [] && Honest(w, base, es)
    ensures Honest(w, base, es[..|es| - 1]) && !Misleads(After(w, es[..|es| - 1]), base, es[|es| - 1])
  {
    hide After;
    hide Misleads;
    var fs := es[..|es| - 1];
    forall i | 0 <= i < |fs| ensures !MisleadsAt(w, base, fs, i) {
      assert !MisleadsAt(w, base, es, i);
      assert fs[..i] == es[..i];
    }
    assert !MisleadsAt(w, base, es, |es| - 1);
  }

  /** What is owed stays owed through an honest run until it is told. */
  lemma {:induction false} OwedUntilTold(w: World, base: set<Id>, es: seq<Event>, m: Emission)
    requires FeedWf(w, base) && Owed(w, base, m) && Honest(w, base, es)
    requires !Names(News(w, After(w, es)), m.id)
    ensures Owed(After(w, es), base, m)
  {
    hide FeedWf;
    hide Owed;
    hide Honest;
    hide Misleads;
    hide Next;
    if es != [] {
      var fs, e := es[..|es| - 1], es[|es| - 1];
      var v := After(w, fs);
      HonestPrefix(w, base, es);
      RunEmittedGrows(w, fs);
      EmittedGrows(v, e);
      var more := After(w, es).emitted;
      assert more[|w.emitted|..] == v.emitted[|w.emitted|..] + more[|v.emitted|..];
      NamesOfConcat(v.emitted[|w.emitted|..], more[|v.emitted|..], m.id);
      OwedUntilTold(w, base, fs, m);
      AlwaysFeedWf(w, base, fs);
      OwedStays(v, base, e, m);
    }
  }

  lemma NamesOfConcat(a: seq<Emission>, b: seq<Emission>, id: Id)
    ensures Names(a + b, id) <==> Names(a, id) || Names(b, id)
  {
    if Names(a, id) { var m :| m in a && m.id == id; assert m in a + b; }
    if Names(b, id) { var m :| m in b && m.id == id; assert m in a + b; }
  }

  /**
   An alert not named between a snapshot's read and a quiet end was as open at the read as clients believe in the
   end.
   */
  lemma UnnamedIsSettled(w: World, base: set<Id>, es: seq<Event>, id: Id)
    requires FeedWf(w, base) && Faithful(w, base) && Honest(w, base, es) && Quiet(After(w, es))
    requires !Names(News(w, After(w, es)), id)
    ensures IsOpen(w.db, id) <==> id in Told(base, After(w, es).emitted)
  {
    hide Told;
    hide FeedWf;
    hide Honest;
    hide After;
    hide Due;
    var v := After(w, es);
    RunEmittedGrows(w, es);
    var news := v.emitted[|w.emitted|..];
    assert v.emitted == w.emitted + news;
    ToldConcat(base, w.emitted, news);
    ToldByName(Told(base, w.emitted), {}, news, id);
    assert IsOpen(w.db, id) <==> (id in Told(base, w.emitted) || Due(w, Raised(id))) && !Due(w, Closed(id));
    if Owed(w, base, Raised(id)) {
      OwedUntilTold(w, base, es, Raised(id));
    }
    if Owed(w, base, Closed(id)) {
      OwedUntilTold(w, base, es, Closed(id));
    }
    FeedWfIsWf(w, base);
    NotBothDue(w, id);
  }

  /**
   End to end. A browser asks at time `requested` for a snapshot, which reads the store's open alerts in world `w`,
   and holds the compacted events from number `first` on, some of them emitted before that read. Whatever the engine
   and its store calls then do in an honest run, once nothing is due the reconciled list shows exactly the store's
   open alerts, if the ceiling cut nothing as new as the request.
   */
  lemma ReconciledListIsTheTruth(w: World, base: set<Id>, es: seq<Event>, first: nat, events: seq<L.Event>, requested: int, snapshot: L.OpenMap)
    requires FeedWf(w, base) && Faithful(w, base) && Honest(w, base, es) && Quiet(After(w, es))
    requires first <= |w.emitted| && first <= |After(w, es).emitted| && Carries(events, After(w, es).emitted[first..])
    requires snapshot.Keys == OpenIds(w.db)
    requires L.Ordered(events) && forall i :: |w.emitted| - first <= i < |events| ==> events[i].at >= requested
    requires forall e :: e in L.Dropped(events) ==> e.at < requested
    ensures L.Fold(snapshot, Some(requested), L.Compact(events)).Keys == OpenIds(After(w, es).db)
  {
    hide Told;
    hide FeedWf;
    hide Faithful;
    hide Honest;
    hide After;
    var v := After(w, es);
    RunEmittedGrows(w, es);
    var j := L.ReconcilingIsReplaying(snapshot, events, |w.emitted| - first, requested);
    var seen := v.emitted[first..][j..];
    var q := first + j;
    assert Carries(events[j..], seen);
    FoldTells(snapshot, events[j..], seen);
    assert seen == v.emitted[q..];
    TailIsTheTruth(w, base, es, q);
  }

  /** Told what came from number `q` on, a reader of the alerts open in `w` ends up with the truth. */
  lemma TailIsTheTruth(w: World, base: set<Id>, es: seq<Event>, q: nat)
    requires FeedWf(w, base) && Faithful(w, base) && Honest(w, base, es) && Quiet(After(w, es))
    requires q <= |w.emitted| <= |After(w, es).emitted|
    ensures Told(OpenIds(w.db), After(w, es).emitted[q..]) == OpenIds(After(w, es).db)
  {
    hide Told;
    hide FeedWf;
    hide Faithful;
    hide Honest;
    hide After;
    hide Quiet;
    hide OpenIds;
    var v := After(w, es);
    HonestEndIsFaithful(w, base, es);
    QuietFeedIsTheTruth(v, base);
    forall id ensures id in Told(OpenIds(w.db), v.emitted[q..]) <==> id in Told(base, v.emitted) {
      TailTellsAsAll(w, base, es, q, id);
    }
  }

  /** Told what came from number `q` on, a reader of the alerts open in `w` believes what it would had it heard everything. */
  lemma TailTellsAsAll(w: World, base: set<Id>, es: seq<Event>, q: nat, id: Id)
    requires FeedWf(w, base) && Faithful(w, base) && Honest(w, base, es) && Quiet(After(w, es))
    requires q <= |w.emitted| <= |After(w, es).emitted|
    ensures id in Told(OpenIds(w.db), After(w, es).emitted[q..]) <==> id in Told(base, After(w, es).emitted)
  {
    hide Told;
    hide FeedWf;
    hide Faithful;
    hide Honest;
    hide After;
    var emitted := After(w, es).emitted;
    assert emitted == emitted[..q] + emitted[q..];
    ToldConcat(base, emitted[..q], emitted[q..]);
    ToldByName(OpenIds(w.db), Told(base, emitted[..q]), emitted[q..], id);
    if !Names(emitted[q..], id) {
      assert emitted[q..] == emitted[q..|w.emitted|] + emitted[|w.emitted|..];
      NamesOfConcat(emitted[q..|w.emitted|], emitted[|w.emitted|..], id);
      UnnamedIsSettled(w, base, es, id);
    }
  }

  lemma HonestEndIsFaithful(w: World, base: set<Id>, es: seq<Event>)
    requires FeedWf(w, base) && Faithful(w, base) && Honest(w, base, es)
    ensures Faithful(After(w, es), base)
  {
    hide FeedWf;
    hide Faithful;
    hide Honest;
    hide After;
    HonestRunsStayFaithful(w, base, es, |es|);
    assert es[..|es|] == es;
  }

  // ----- a browser that asks anew -----

  /** News that is due is true of the store. */
  ghost predicate DueIsTrue(w: World) {
    && (forall id :: Due(w, Raised(id)) ==> IsOpen(w.db, id))
    && forall id :: Due(w, Closed(id)) ==> !IsOpen(w.db, id)
  }

  lemma CommitKeepsDueTrue(w: World, e: Event, m: Emission)
    requires Wf(w) && DueIsTrue(w) && e.Commit? && Enabled(w, e) && Due(Next(w, e), m)
    ensures (m.Raised? ==> IsOpen(Next(w, e).db, m.id)) && (m.Closed? ==> !IsOpen(Next(w, e).db, m.id))
  {
    hide Wf;
    hide IsOpen;
    hide Tells;
    hide CommitDb;
    hide CommitResult;
    var v, call := Next(w, e), w.calls[e.c];
    CommitGives(w.db, call, e.id);
    FeedWfOwns(w, e.c);
    CommitOpens(w.db, call, e.id, e.targets, m.id);
    DueSplits(v, m, e.c);
    DueElsewhereStays(w, v, m, e.c);
    if DueElsewhere(w, m, e.c) {
      DueSplits(w, m, e.c);
      DueIsKnown(w, m);
      if Owned(w.db, m.id, call.key) { OneTeller(w, e.c, m); }
    } else {
      TellsOf(v.calls[e.c], m);
    }
  }

  lemma FeedWfOwns(w: World, c: nat)
    requires Wf(w) && c in w.calls
    ensures CallOwned(w.db, w.calls[c])
  {}

  lemma TellsOf(call: Call, m: Emission)
    requires Tells(call) == [m]
    ensures call.stage.Committed? && call.stage.alert == Some(m.id) && m == if call.kind.Opening? then Raised(m.id) else Closed(m.id)
  {}

  /** Only a commit makes news due, and only a commit changes what is open. */
  lemma OnlyCommitsMakeNews(w: World, e: Event, m: Emission)
    requires !(e.Commit? && Enabled(w, e))
    ensures Due(Next(w, e), m) ==> Due(w, m)
    ensures IsOpen(Next(w, e).db, m.id) <==> IsOpen(w.db, m.id)
  {
    hide Evaluate;
    hide Continue;
    hide IsLive;
    var v := Next(w, e);
    if Due(v, m) {
      var c :| c in v.calls && Tells(v.calls[c]) == [m];
      assert c in w.calls && v.calls[c] == w.calls[c];
    }
  }

  lemma NextKeepsDueTrue(w: World, e: Event)
    requires Wf(w) && DueIsTrue(w)
    ensures DueIsTrue(Next(w, e))
  {
    hide Wf;
    hide Next;
    hide Enabled;
    hide Due;
    hide IsOpen;
    var v := Next(w, e);
    forall m | Due(v, m) ensures (m.Raised? ==> IsOpen(v.db, m.id)) && (m.Closed? ==> !IsOpen(v.db, m.id)) {
      if e.Commit? && Enabled(w, e) { CommitKeepsDueTrue(w, e, m); } else { OnlyCommitsMakeNews(w, e, m); }
    }
    forall id | Due(v, Raised(id)) ensures IsOpen(v.db, id) { assert Raised(id).id == id; }
    forall id | Due(v, Closed(id)) ensures !IsOpen(v.db, id) { assert Closed(id).id == id; }
  }

  lemma {:induction false} AlwaysDueTrue(w: World, es: seq<Event>)
    requires Wf(w) && DueIsTrue(w)
    ensures DueIsTrue(After(w, es))
  {
    hide Wf;
    hide DueIsTrue;
    hide Next;
    if es != [] {
      AlwaysDueTrue(w, es[..|es| - 1]);
      AlwaysWf(w, es[..|es| - 1]);
      NextKeepsDueTrue(After(w, es[..|es| - 1]), es[|es| - 1]);
    }
  }

  /** The world as somebody sees it who has heard nothing yet. */
  function Unaware(w: World): World { w.(emitted := []) }

  /** The alerts such a newcomer has to believe open for the news to come to add up. */
  ghost function Known(w: World): set<Id> {
    set id | id in w.db.alerts && ((IsOpen(w.db, id) && !Due(w, Raised(id))) || Due(w, Closed(id)))
  }

  lemma NewcomersAreInformed(w: World)
    requires Wf(w) && DueIsTrue(w) && w.acks <= w.db.alerts.Keys
    ensures FeedWf(Unaware(w), Known(w)) && Faithful(Unaware(w), Known(w))
  {
    var u := Unaware(w);
    assert forall m :: Due(u, m) <==> Due(w, m);
    forall id ensures IsOpen(u.db, id) <==> (id in Told(Known(w), u.emitted) || Due(u, Raised(id))) && !Due(u, Closed(id)) {
      if Due(w, Closed(id)) { DueIsKnown(w, Closed(id)); }
    }
  }

  /** What was emitted long ago changes nothing but the record. */
  lemma NextIgnoresThePast(w: World, n: nat, e: Event)
    requires n <= |w.emitted|
    ensures |w.emitted| <= |Next(w, e).emitted|
    ensures Next(w.(emitted := w.emitted[n..]), e) == Next(w, e).(emitted := Next(w, e).emitted[n..])
  {
    hide Evaluate;
    hide Continue;
    hide CommitDb;
    hide IsLive;
    hide Tells;
    EmittedGrows(w, e);
  }

  lemma {:induction false} RunIgnoresThePast(w: World, es: seq<Event>)
    ensures |w.emitted| <= |After(w, es).emitted|
    ensures After(Unaware(w), es) == After(w, es).(emitted := After(w, es).emitted[|w.emitted|..])
  {
    hide Next;
    if es != [] {
      var fs := es[..|es| - 1];
      RunIgnoresThePast(w, fs);
      NextIgnoresThePast(After(w, fs), |w.emitted|, es[|es| - 1]);
    }
  }

  lemma HonestSplits(w: World, base: set<Id>, es: seq<Event>, fs: seq<Event>)
    requires FeedWf(w, base) && Faithful(w, base) && Honest(w, base, es + fs)
    ensures FeedWf(After(w, es), base) && Faithful(After(w, es), base) && Honest(After(w, es), base, fs)
  {
    hide FeedWf;
    hide Faithful;
    hide Misleads;
    hide After;
    AlwaysFeedWf(w, base, es);
    HonestRunsStayFaithful(w, base, es + fs, |es|);
    assert FaithfulAfter(w, base, es + fs, |es|) && (es + fs)[..|es|] == es;
    forall i | 0 <= i < |fs| ensures !MisleadsAt(After(w, es), base, fs, i) {
      assert !MisleadsAt(w, base, es + fs, |es| + i);
      assert (es + fs)[..|es| + i] == es + fs[..i];
      RunConcat(w, es, fs[..i]);
    }
  }

  lemma {:induction false} RunConcat(w: World, es: seq<Event>, fs: seq<Event>)
    ensures After(w, es + fs) == After(After(w, es), fs)
    decreases |fs|
  {
    hide Next;
    if fs == [] {
      assert es + fs == es;
    } else {
      RunConcat(w, es, fs[..|fs| - 1]);
      assert (es + fs)[..|es + fs| - 1] == es + fs[..|fs| - 1];
    }
  }

  /**
   End to end after any past, however misleading. A browser asks in world `w` at time `requested`, its snapshot is read
   after the run `es`, and `fs` follows; everything told before it asked is older than `requested`. If the engine is
   honest from the request on, the reconciled list shows exactly the store's open alerts once nothing is due.
   */
  lemma AskingAnewHeals(
      w: World, es: seq<Event>, fs: seq<Event>, first: nat, events: seq<L.Event>, requested: int, snapshot: L.OpenMap)
    requires Wf(w) && DueIsTrue(w) && w.acks <= w.db.alerts.Keys && Honest(Unaware(w), Known(w), es + fs)
    requires var read, v := After(w, es), After(After(w, es), fs);
             && Quiet(v) && snapshot.Keys == OpenIds(read.db)
             && first <= |read.emitted| <= |v.emitted| && Carries(events, v.emitted[first..])
             && L.Ordered(events) && (forall e :: e in L.Dropped(events) ==> e.at < requested)
             && (forall i :: 0 <= i < |events| && first + i < |w.emitted| ==> events[i].at < requested)
             && forall i :: |read.emitted| - first <= i < |events| ==> events[i].at >= requested
    ensures L.Fold(snapshot, Some(requested), L.Compact(events)).Keys == OpenIds(After(After(w, es), fs).db)
  {
    hide Told;
    hide FeedWf;
    hide Faithful;
    hide Honest;
    hide After;
    hide Known;
    hide Quiet;
    hide OpenIds;
    var read := After(w, es);
    var v := After(read, fs);
    RunIgnoresThePast(w, es);
    var j := L.ReconcilingIsReplaying(snapshot, events, |read.emitted| - first, requested);
    var q := first + j;
    assert v.emitted[q..] == v.emitted[first..][j..];
    FoldTells(snapshot, events[j..], v.emitted[q..]);
    NewsSinceIsTheTruth(w, es, fs, q);
  }

  /** The same tail after any past, if the run from `w` on is honest and the tail starts no earlier. */
  lemma NewsSinceIsTheTruth(w: World, es: seq<Event>, fs: seq<Event>, q: nat)
    requires Wf(w) && DueIsTrue(w) && w.acks <= w.db.alerts.Keys && Honest(Unaware(w), Known(w), es + fs)
    requires Quiet(After(After(w, es), fs)) && |w.emitted| <= q <= |After(w, es).emitted| <= |After(After(w, es), fs).emitted|
    ensures Told(OpenIds(After(w, es).db), After(After(w, es), fs).emitted[q..]) == OpenIds(After(After(w, es), fs).db)
  {
    hide Told;
    hide FeedWf;
    hide Faithful;
    hide Honest;
    hide After;
    hide Known;
    hide Quiet;
    hide OpenIds;
    var n, base, v := |w.emitted|, Known(w), After(After(w, es), fs);
    NewcomersAreInformed(w);
    HonestSplits(Unaware(w), base, es, fs);
    RunConcat(w, es, fs);
    RunConcat(Unaware(w), es, fs);
    RunIgnoresThePast(w, es);
    RunIgnoresThePast(w, es + fs);
    var u := After(Unaware(w), es);
    var z := After(u, fs);
    assert z == v.(emitted := v.emitted[n..]) && z.emitted[q - n..] == v.emitted[q..];
    QuietToo(v, z);
    TailIsTheTruth(u, base, fs, q - n);
  }

  lemma QuietToo(v: World, z: World)
    requires Quiet(v) && z.calls == v.calls
    ensures Quiet(z)
  {
    forall m ensures !Due(z, m) { assert !Due(v, m); }
  }

  /** A process that starts with nothing due is faithful to the alerts it finds. */
  lemma StartIsFaithful(w: World)
    requires Wf(w) && w.calls == map[] && w.acks == {} && w.emitted == []
    ensures FeedWf(w, OpenIds(w.db)) && Faithful(w, OpenIds(w.db)) && Quiet(w) && DueIsTrue(w)
  {}
}
