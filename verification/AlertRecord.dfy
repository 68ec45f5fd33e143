/**
 What the alert tables record: who raised, acknowledged and resolved each alert, and that the rows
 saying where an alert must be sent are exactly those its rule asked for when it was raised.
 */
module AlertRecord {
  import opened Wrappers
  import opened AlertStore
  import opened AlertEngine
  import opened AlertProtocol

  /** The step raises this alert: an open commits for a key that has no unresolved alert. */
  ghost predicate Raises(w: World, e: Event, id: Id) {
    && e.Commit? && e.id == id && e.c in w.calls && w.calls[e.c].stage == Called && id !in w.db.alerts && w.calls[e.c].kind == Opening
    && forall x :: x in w.db.alerts ==> w.db.alerts[x].key != w.calls[e.c].key || w.db.alerts[x].resolved
  }

  /** The step resolves it: a close of it commits. */
  predicate Resolves(w: World, e: Event, id: Id) {
    && e.Commit? && e.c in w.calls && w.calls[e.c].stage == Called && e.id !in w.db.alerts
    && w.calls[e.c].kind.Closing? && w.calls[e.c].kind.id == id && id in w.db.alerts && !w.db.alerts[id].resolved
  }

  /** The step acknowledges it, which only an alert that is open and not yet acknowledged allows. */
  predicate Notes(w: World, e: Event, id: Id) {
    e == AlertProtocol.Acknowledge(id) && id in w.db.alerts && !w.db.alerts[id].resolved && !w.db.alerts[id].acknowledged
  }

  /**
   One step changes the record of an alert exactly so: it appears, unresolved and unacknowledged, when a step raises it, for
   the key that was opened and with the targets asked for, and then only turns resolved, or acknowledged, by a step that does that.
   */
  lemma RecordChangesExactly(w: World, e: Event, id: Id)
    ensures var v := Next(w, e);
            if id in w.db.alerts then
              && id in v.db.alerts && v.db.alerts[id].key == w.db.alerts[id].key && v.db.alerts[id].targets == w.db.alerts[id].targets
              && (v.db.alerts[id].resolved <==> w.db.alerts[id].resolved || Resolves(w, e, id))
              && (v.db.alerts[id].acknowledged <==> w.db.alerts[id].acknowledged || Notes(w, e, id))
            else
              && (id in v.db.alerts <==> Raises(w, e, id))
              && (id in v.db.alerts ==>
                    v.db.alerts[id].key == w.calls[e.c].key && v.db.alerts[id].targets == e.targets
                    && !v.db.alerts[id].resolved && !v.db.alerts[id].acknowledged)
  {
    hide Evaluate;
    hide Continue;
    hide IsLive;
    hide Tells;
    if Enabled(w, e) && e.Commit? { HoldsIsStanding(w.db, w.calls[e.c].key); }
  }

  lemma HoldsIsStanding(db: Db, key: Key)
    ensures !Holds(db, key) <==> forall x :: x in db.alerts ==> db.alerts[x].key != key || db.alerts[x].resolved
  {
    if forall x :: x in db.alerts ==> db.alerts[x].key != key || db.alerts[x].resolved {
      forall x | x in db.alerts ensures !Unresolved(db, x, key) {}
    }
    forall x | x in db.alerts && !(db.alerts[x].key != key || db.alerts[x].resolved) ensures Holds(db, key) {
      assert Unresolved(db, x, key);
    }
  }

  ghost predicate RaisesFor(w: World, e: Event, id: Id, t: Target) { Raises(w, e, id) && t in e.targets }

  /** And a delivery row appears exactly when a step raises its alert with that target; none is ever taken away. */
  lemma RowsAppearExactly(w: World, e: Event, id: Id, t: Target)
    ensures (id, t) in Next(w, e).db.outbox <==> (id, t) in w.db.outbox || RaisesFor(w, e, id, t)
  {
    hide Evaluate;
    hide Continue;
    hide IsLive;
    hide Tells;
    if Enabled(w, e) && e.Commit? { HoldsIsStanding(w.db, w.calls[e.c].key); }
  }

  // ----- whole runs -----

  /** Some step of the run raised the alert with this target among its own. */
  ghost predicate RaisedIn(w: World, es: seq<Event>, id: Id, t: Target) {
    exists i :: 0 <= i < |es| && RaisesFor(After(w, es[..i]), es[i], id, t)
  }

  lemma RaisedSplits(w: World, es: seq<Event>, id: Id, t: Target)
    requires es != []
    ensures var n := |es| - 1; RaisedIn(w, es, id, t) <==> RaisedIn(w, es[..n], id, t) || RaisesFor(After(w, es[..n]), es[n], id, t)
  {
    hide RaisesFor;
    hide After;
    var fs := es[..|es| - 1];
    if i :| 0 <= i < |fs| && RaisesFor(After(w, fs[..i]), fs[i], id, t) { assert fs[..i] == es[..i] && fs[i] == es[i]; }
    if i :| 0 <= i < |es| && RaisesFor(After(w, es[..i]), es[i], id, t) {
      if i < |fs| { assert fs[..i] == es[..i] && fs[i] == es[i]; }
    }
  }

  /**
   Over every run, interleaved and failing as it may, the rows that say where an alert must be sent are exactly those
   there were and one for each target of each alert that was raised.
   */
  lemma {:induction false} OutboxIsWhatWasAsked(w: World, es: seq<Event>, id: Id, t: Target)
    ensures (id, t) in After(w, es).db.outbox <==> (id, t) in w.db.outbox || RaisedIn(w, es, id, t)
  {
    hide Next;
    hide RaisesFor;
    hide RaisedIn;
    if es == [] {
      NothingRaised(w, id, t);
    } else {
      var n := |es| - 1;
      OutboxIsWhatWasAsked(w, es[..n], id, t);
      RaisedSplits(w, es, id, t);
      RowsAppearExactly(After(w, es[..n]), es[n], id, t);
    }
  }

  lemma NothingRaised(w: World, id: Id, t: Target)
    ensures !RaisedIn(w, [], id, t)
  {}

  // ----- the statistics -----

  /** The step ends an open that the store gave an alert for, ends a close that committed, or is held back by the cooldown alone. */
  ghost predicate EndsAnOpen(w: World, e: Event) {
    e.Return? && e.c in w.calls && w.calls[e.c].kind.Opening? && exists id :: w.calls[e.c].stage == Committed(Some(id))
  }

  ghost predicate EndsAClose(w: World, e: Event) {
    e.Return? && e.c in w.calls && w.calls[e.c].kind.Closing? && w.calls[e.c].stage.Committed?
  }

  predicate HeldBack(w: World, e: Event) {
    && e.Evaluation? && e.key in w.expanded && e.c !in w.calls && e.breaching
    && var ts := StateOf(w.engine, e.key);
       ts.openAlertId == None && ts.breaches + 1 >= e.rule.consecutiveBreaches && e.now < ts.lastResolvedAt + 1000 * e.rule.cooldownS
  }

  /** Until the process starts anew, each statistic moves by one exactly at such a step; the first then also tells of an alert. */
  lemma StatisticsCount(w: World, e: Event)
    requires !e.Restart?
    ensures var v := Next(w, e);
            && v.engine.raised == w.engine.raised + (if EndsAnOpen(w, e) then 1 else 0)
            && v.engine.resolved == w.engine.resolved + (if EndsAClose(w, e) then 1 else 0)
            && v.engine.suppressedByCooldown == w.engine.suppressedByCooldown + (if HeldBack(w, e) then 1 else 0)
    ensures EndsAnOpen(w, e) ==> |Next(w, e).emitted| == |w.emitted| + 1 && Next(w, e).emitted[|w.emitted|].Raised?
  {
    hide IsLive;
    hide OpenAlert;
    hide ResolveAlert;
  }

  /** A restart starts them at nothing. */
  lemma RestartStartsTheCount(w: World, current: set<Key>, live: map<Key, Id>)
    requires IsLive(w.db, live)
    ensures var e := Next(w, Restart(current, live)).engine; e.raised == e.resolved == e.suppressedByCooldown == 0
  {
    hide IsLive;
  }

  /**
   An acknowledgement is told once, when its call returns: between the two the alert is owed that news, and if the call
   throws nothing is told.
   */
  lemma AcknowledgementIsTold(w: World, id: Id, throws: bool)
    requires id in w.db.alerts && !w.db.alerts[id].resolved && !w.db.alerts[id].acknowledged
    ensures var v := Next(w, AlertProtocol.Acknowledge(id));
            var u := Next(v, if throws then AckThrows(id) else AckReturns(id));
            && v.acks == w.acks + {id} && v.emitted == w.emitted && v.db.alerts[id].acknowledged
            && u.acks == w.acks - {id} && u.emitted == w.emitted + (if throws then [] else [Emission.Acknowledged(id)])
  {
    assert w.emitted + [] == w.emitted;
  }

  /** After a refresh, or a restart, exactly the targets it expanded to are evaluated. */
  lemma ExpandedAreEvaluated(w: World, current: set<Key>, live: map<Key, Id>, key: Key, rule: Rule, breaching: bool, now: int, c: nat)
    requires IsLive(w.db, live)
    ensures Enabled(Next(w, RefreshTo(current)), Evaluation(key, rule, breaching, now, c)) <==> key in current && c !in w.calls
    ensures Enabled(Next(w, Restart(current, live)), Evaluation(key, rule, breaching, now, c)) <==> key in current
  {
    hide IsLive;
  }
}
