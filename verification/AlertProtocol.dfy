/**
 The alert engine running over its store: evaluations, refreshes and restarts interleaved with
 store calls that commit, fail, or commit and then fail, and with the continuations that run when
 they come back (apps/ingest/src/rules/index.ts over apps/ingest/src/rules/store.ts).
 One replica.
 */
module AlertProtocol {
  import opened AlertStore
  import opened AlertEngine
  import opened Wrappers

  /** Not yet decided by the database, decided, or thrown. */
  datatype Stage = Called | Committed(alert: Option<Id>) | Threw

  datatype Call = Call(key: Key, kind: Kind, stage: Stage)

  /** What the server tells its clients. */
  datatype Emission = Raised(id: Id) | Acknowledged(id: Id) | Closed(id: Id)

  /** `acks` holds acknowledgements committed and not yet told; `emitted` is everything told so far, newest last. */
  datatype World = World(
    engine: Engine, db: Db, calls: map<nat, Call>, expanded: set<Key>, acks: set<Id>, emitted: seq<Emission>)

  datatype Event =
    | Evaluation(key: Key, rule: Rule, breaching: bool, now: int, c: nat)
    | Commit(c: nat, id: Id, targets: set<Target>, thenThrow: bool)
    | Fail(c: nat)
    | Return(c: nat)
    | RefreshTo(current: set<Key>)
    | Restart(current: set<Key>, live: map<Key, Id>)
    | Acknowledge(id: Id)
    | AckReturns(id: Id)
    | AckThrows(id: Id)

  ghost predicate Enabled(w: World, e: Event) {
    match e
    case Evaluation(key, _, _, _, c) => key in w.expanded && c !in w.calls
    case Commit(c, id, _, _) => c in w.calls && w.calls[c].stage.Called? && id !in w.db.alerts
    case Fail(c) => c in w.calls && w.calls[c].stage.Called?
    case Return(c) => c in w.calls && !w.calls[c].stage.Called?
    case RefreshTo(_) => true
    case Restart(_, live) => IsLive(w.db, live)
    case Acknowledge(id) => Acknowledgeable(w.db, id)
    case AckReturns(id) => id in w.acks
    case AckThrows(id) => id in w.acks
  }

  function CommitDb(db: Db, call: Call, id: Id, targets: set<Target>): Db {
    match call.kind
    case Opening => OpenAlert(db, call.key, id, targets)
    case Closing(alertId, _) => ResolveAlert(db, alertId)
  }

  function CommitResult(db: Db, call: Call, id: Id): Stage {
    match call.kind
    case Opening => Committed(OpenResult(db, call.key, id))
    case Closing(alertId, _) =>
      Committed(if alertId in db.alerts && !db.alerts[alertId].resolved then Some(alertId) else None)
  }

  /** What a continuation emits: only an alert the store gave back. */
  function Tells(call: Call): seq<Emission> {
    if call.stage.Committed? && call.stage.alert.Some?
    then [if call.kind.Opening? then Raised(call.stage.alert.value) else Closed(call.stage.alert.value)]
    else []
  }

  /** The continuation after the await. */
  function Continue(e: Engine, call: Call): Engine {
    match call.stage
    case Committed(alert) =>
      (match call.kind
       case Opening => OpenReturned(e, call.key, alert)
       case Closing(_, decidedAt) => CloseReturned(e, call.key, decidedAt))
    case _ => Landed(e, call.key)
  }

  ghost function Next(w: World, e: Event): World {
    if !Enabled(w, e) then w
    else
      match e
      case Evaluation(key, rule, breaching, now, c) =>
        var (engine, kind) := Evaluate(w.engine, key, rule, breaching, now);
        w.(engine := engine, calls := if kind.Some? then w.calls[c := Call(key, kind.value, Called)] else w.calls)
      case Commit(c, id, targets, thenThrow) =>
        var call := w.calls[c];
        w.(db := CommitDb(w.db, call, id, targets),
           calls := w.calls[c := call.(stage := if thenThrow then Threw else CommitResult(w.db, call, id))])
      case Fail(c) => w.(calls := w.calls[c := w.calls[c].(stage := Threw)])
      case Return(c) =>
        w.(engine := Continue(w.engine, w.calls[c]), calls := w.calls - {c}, emitted := w.emitted + Tells(w.calls[c]))
      case RefreshTo(current) => w.(engine := Refresh(w.engine, current), expanded := current)
      case Restart(current, live) => World(Adopt(Engine(map[], {}, 0, 0, 0), live), w.db, map[], current, {}, w.emitted)
      case Acknowledge(id) => w.(db := AcknowledgeAlert(w.db, id), acks := w.acks + {id})
      case AckReturns(id) => w.(acks := w.acks - {id}, emitted := w.emitted + [Acknowledged(id)])
      case AckThrows(id) => w.(acks := w.acks - {id})
  }

  ghost function After(w: World, es: seq<Event>): World {
    if es == [] then w else Next(After(w, es[..|es| - 1]), es[|es| - 1])
  }

  // ----- what every run keeps -----

  predicate Owned(db: Db, id: Id, key: Key) { id in db.alerts && db.alerts[id].key == key }

  predicate CallOwned(db: Db, call: Call) {
    && (call.kind.Closing? ==> Owned(db, call.kind.id, call.key))
    && (call.stage.Committed? && call.stage.alert.Some? ==> Owned(db, call.stage.alert.value, call.key))
  }

  predicate Matched(calls: map<nat, Call>, inFlight: set<Key>) {
    && (forall c, d :: c in calls && d in calls && calls[c].key == calls[d].key ==> c == d)
    && (forall c :: c in calls ==> calls[c].key in inFlight)
    && forall key :: key in inFlight ==> exists c :: c in calls && calls[c].key == key
  }

  /** At most one store call per target, and the in-flight set says exactly which targets have one. */
  predicate OneCallEach(w: World) { Matched(w.calls, w.engine.inFlight) }

  predicate Ownership(w: World) {
    && (forall key :: key in w.engine.targets && w.engine.targets[key].openAlertId.Some? ==> Owned(w.db, w.engine.targets[key].openAlertId.value, key))
    && forall c :: c in w.calls ==> CallOwned(w.db, w.calls[c])
  }

  ghost predicate Wf(w: World) { Sound(w.db) && OneCallEach(w) && Ownership(w) }

  lemma NextKeepsSound(w: World, e: Event)
    requires Sound(w.db)
    ensures Sound(Next(w, e).db)
  {
    hide Sound;
    hide OpenAlert;
    hide ResolveAlert;
    hide AcknowledgeAlert;
    hide IsLive;
    if Enabled(w, e) && e.Commit? {
      var call := w.calls[e.c];
      StoreKeepsSound(w.db, call.key, e.id, e.targets);
      if call.kind.Closing? { StoreKeepsSound(w.db, call.key, call.kind.id, e.targets); }
    }
    if e.Acknowledge? { StoreKeepsSound(w.db, 0, e.id, {}); }
  }

  lemma EvaluateInFlight(e: Engine, key: Key, rule: Rule, breaching: bool, now: int)
    ensures var (f, call) := Evaluate(e, key, rule, breaching, now);
            f.inFlight == (if call.Some? then e.inFlight + {key} else e.inFlight) && (call.Some? ==> key !in e.inFlight)
  {}

  lemma ContinueLands(e: Engine, call: Call)
    ensures Continue(e, call).inFlight == e.inFlight - {call.key}
  {}

  lemma MatchedAfterStart(calls: map<nat, Call>, inFlight: set<Key>, c: nat, call: Call)
    requires Matched(calls, inFlight) && c !in calls && call.key !in inFlight
    ensures Matched(calls[c := call], inFlight + {call.key})
  {
    var calls' := calls[c := call];
    forall key | key in inFlight + {call.key} ensures exists d :: d in calls' && calls'[d].key == key {
      if key == call.key {
        assert calls'[c].key == key;
      } else {
        var d :| d in calls && calls[d].key == key;
        assert calls'[d].key == key;
      }
    }
  }

  lemma MatchedAfterChange(calls: map<nat, Call>, inFlight: set<Key>, c: nat, call: Call)
    requires Matched(calls, inFlight) && c in calls && call.key == calls[c].key
    ensures Matched(calls[c := call], inFlight)
  {
    var calls' := calls[c := call];
    forall key | key in inFlight ensures exists d :: d in calls' && calls'[d].key == key {
      var d :| d in calls && calls[d].key == key;
      assert calls'[d].key == key;
    }
  }

  lemma MatchedAfterReturn(calls: map<nat, Call>, inFlight: set<Key>, c: nat)
    requires Matched(calls, inFlight) && c in calls
    ensures Matched(calls - {c}, inFlight - {calls[c].key})
  {
    var calls' := calls - {c};
    forall key | key in inFlight - {calls[c].key} ensures exists d :: d in calls' && calls'[d].key == key {
      var d :| d in calls && calls[d].key == key;
      assert d in calls' && calls'[d].key == key;
    }
  }

  lemma NextKeepsOneCallEach(w: World, e: Event)
    requires OneCallEach(w)
    ensures OneCallEach(Next(w, e))
  {
    hide CommitDb;
    hide CommitResult;
    hide Evaluate;
    hide Continue;
    hide IsLive;
    if Enabled(w, e) {
      match e
      case Evaluation(key, rule, breaching, now, c) =>
        EvaluateInFlight(w.engine, key, rule, breaching, now);
        var call := Evaluate(w.engine, key, rule, breaching, now).1;
        if call.Some? { MatchedAfterStart(w.calls, w.engine.inFlight, c, Call(key, call.value, Called)); }
      case Commit(c, _, _, _) => MatchedAfterChange(w.calls, w.engine.inFlight, c, Next(w, e).calls[c]);
      case Fail(c) => MatchedAfterChange(w.calls, w.engine.inFlight, c, Next(w, e).calls[c]);
      case Return(c) =>
        ContinueLands(w.engine, w.calls[c]);
        MatchedAfterReturn(w.calls, w.engine.inFlight, c);
      case _ =>
    }
  }

  lemma CommitOwns(db: Db, call: Call, id: Id, targets: set<Target>, other: Id, key: Key)
    requires id !in db.alerts && CallOwned(db, call)
    ensures Owned(db, other, key) ==> Owned(CommitDb(db, call, id, targets), other, key)
    ensures var s := CommitResult(db, call, id);
            s.Committed? && (s.alert.Some? ==> Owned(CommitDb(db, call, id, targets), s.alert.value, call.key))
  {}

  lemma AckOwns(db: Db, id: Id, other: Id, key: Key)
    ensures Owned(db, other, key) ==> Owned(AcknowledgeAlert(db, id), other, key)
  {}

  lemma NextKeepsOwnership(w: World, e: Event)
    requires Ownership(w)
    ensures Ownership(Next(w, e))
  {
    hide CommitDb;
    hide CommitResult;
    hide Suppressed;
    hide Owned;
    var v := Next(w, e);
    if e.Commit? && Enabled(w, e) {
      var call := w.calls[e.c];
      assert CallOwned(w.db, call);
      forall other, key ensures Owned(w.db, other, key) ==> Owned(v.db, other, key) {
        CommitOwns(w.db, call, e.id, e.targets, other, key);
      }
      CommitOwns(w.db, call, e.id, e.targets, 0, 0);
    }
    if e.Acknowledge? {
      forall other, key ensures Owned(w.db, other, key) ==> Owned(v.db, other, key) { AckOwns(w.db, e.id, other, key); }
    }
    if e.Restart? && Enabled(w, e) {
      forall key | key in e.live ensures Owned(w.db, e.live[key], key) { LiveIsOwned(w.db, e.live, key); }
    }
  }

  lemma LiveIsOwned(db: Db, live: map<Key, Id>, key: Key)
    requires IsLive(db, live) && key in live
    ensures Owned(db, live[key], key)
  {}

  /**
   Every run keeps one store call per target, one unresolved alert per key, and outbox rows exactly as their
   alerts asked.
   */
  lemma {:induction false} AlwaysWf(w: World, es: seq<Event>)
    requires Wf(w)
    ensures Wf(After(w, es))
  {
    hide Sound;
    hide OneCallEach;
    hide Ownership;
    hide Next;
    if es != [] {
      var v, e := After(w, es[..|es| - 1]), es[|es| - 1];
      AlwaysWf(w, es[..|es| - 1]);
      NextKeepsSound(v, e);
      NextKeepsOneCallEach(v, e);
      NextKeepsOwnership(v, e);
    }
  }

  // ----- one target on its own -----

  datatype Pending = Pending(kind: Kind, stage: Stage)

  /**
   Everything about one key: its engine state, whether the engine has an entry for it, its store call and its
   unresolved alert.
   */
  datatype Local = Local(ts: TargetState, present: bool, call: Option<Pending>, alert: Option<Id>)

  datatype Action =
    | Skip
    | Evaluated(rule: Rule, breaching: bool, now: int)
    | CallCommits(id: Id, thenThrow: bool)
    | CallFails
    | CallReturns
    | Dropped
    | Restarted

  ghost function AlertOf(db: Db, key: Key): Option<Id> {
    if id :| id in db.alerts && Unresolved(db, id, key) then Some(id) else None
  }

  ghost function CallOf(w: World, key: Key): Option<Pending> {
    if c :| c in w.calls && w.calls[c].key == key then Some(Pending(w.calls[c].kind, w.calls[c].stage)) else None
  }

  ghost function Project(w: World, key: Key): Local {
    Local(StateOf(w.engine, key), key in w.engine.targets, CallOf(w, key), AlertOf(w.db, key))
  }

  ghost function ActionOn(w: World, e: Event, key: Key): Action {
    if !Enabled(w, e) then Skip
    else
      match e
      case Evaluation(k, rule, breaching, now, _) => if k == key then Evaluated(rule, breaching, now) else Skip
      case Commit(c, id, _, thenThrow) => if w.calls[c].key == key then CallCommits(id, thenThrow) else Skip
      case Fail(c) => if w.calls[c].key == key then CallFails else Skip
      case Return(c) => if w.calls[c].key == key then CallReturns else Skip
      case RefreshTo(current) => if key in current || OpenOf(w.engine, key).Some? then Skip else Dropped
      case Restart(_, _) => Restarted
      case _ => Skip
  }

  function LocalReturn(l: Local): Local
    requires l.call.Some?
  {
    var idle := l.(call := None);
    match l.call.value.stage
    case Committed(alert) =>
      (match l.call.value.kind
       case Opening => if alert.Some? && l.present then idle.(ts := l.ts.(openAlertId := alert, clears := 0)) else idle
       case Closing(_, decidedAt) =>
         if l.present then idle.(ts := l.ts.(openAlertId := None, lastResolvedAt := decidedAt, clears := 0)) else idle)
    case _ => idle
  }

  function LocalCommit(l: Local, id: Id, thenThrow: bool): Local
    requires l.call.Some?
  {
    match l.call.value.kind
    case Opening =>
      var result := if l.alert.Some? then None else Some(id);
      Local(l.ts, l.present, Some(Pending(Opening, if thenThrow then Threw else Committed(result))),
        if l.alert.Some? then l.alert else Some(id))
    case Closing(alertId, _) =>
      Local(l.ts, l.present, Some(Pending(l.call.value.kind,
          if thenThrow then Threw else Committed(if l.alert == Some(alertId) then l.alert else None))),
        if l.alert == Some(alertId) then None else l.alert)
  }

  function LocalNext(l: Local, a: Action): Local {
    match a
    case Skip => l
    case Evaluated(rule, breaching, now) =>
      var ts := Counted(l.ts, breaching);
      var kind := Wants(ts, rule, breaching, now);
      Local(ts, true, if l.call.None? && kind.Some? then Some(Pending(kind.value, Called)) else l.call, l.alert)
    case CallCommits(id, thenThrow) => if l.call.Some? then LocalCommit(l, id, thenThrow) else l
    case CallFails => if l.call.Some? then l.(call := Some(l.call.value.(stage := Threw))) else l
    case CallReturns => if l.call.Some? then LocalReturn(l) else l
    case Dropped => l.(ts := NEW_TARGET, present := false)
    case Restarted =>
      if l.alert.Some? then Local(TargetState(0, 0, l.alert, 0), true, None, l.alert) else Local(NEW_TARGET, false, None, None)
  }

  lemma CallIs(w: World, c: nat)
    requires OneCallEach(w) && c in w.calls
    ensures CallOf(w, w.calls[c].key) == Some(Pending(w.calls[c].kind, w.calls[c].stage))
  {}

  lemma AlertIs(db: Db, id: Id, key: Key)
    requires Sound(db) && Unresolved(db, id, key)
    ensures AlertOf(db, key) == Some(id)
  {}

  lemma SameCall(w: World, v: World, key: Key)
    requires OneCallEach(w) && OneCallEach(v)
    requires forall c :: c in w.calls && w.calls[c].key == key ==> c in v.calls && v.calls[c] == w.calls[c]
    requires forall c :: c in v.calls && v.calls[c].key == key ==> c in w.calls && w.calls[c].key == key
    ensures CallOf(w, key) == CallOf(v, key)
  {
    if c :| c in w.calls && w.calls[c].key == key {
      CallIs(w, c);
      CallIs(v, c);
    } else {
      assert CallOf(v, key) == None;
    }
  }

  lemma SameAlert(db: Db, u: Db, key: Key)
    requires Sound(db) && Sound(u) && forall id :: Unresolved(db, id, key) <==> Unresolved(u, id, key)
    ensures AlertOf(db, key) == AlertOf(u, key)
  {
    if id :| id in db.alerts && Unresolved(db, id, key) {
      AlertIs(db, id, key);
      AlertIs(u, id, key);
    }
  }

  lemma ProjectEvaluation(w: World, e: Event, key: Key)
    requires Wf(w) && Wf(Next(w, e)) && e.Evaluation? && Enabled(w, e)
    ensures Project(Next(w, e), key) == LocalNext(Project(w, key), ActionOn(w, e, key))
  {
    hide Sound;
    hide Ownership;
    hide Wants;
    hide Suppressed;
    hide Counted;
    hide AlertOf;
    var v := Next(w, e);
    if key == e.key {
      if key in w.engine.inFlight {
        var c :| c in w.calls && w.calls[c].key == key;
        CallIs(w, c);
        CallIs(v, c);
      } else if e.c in v.calls {
        CallIs(v, e.c);
      }
    } else {
      SameCall(w, v, key);
    }
  }

  lemma CommitElsewhere(db: Db, call: Call, id: Id, targets: set<Target>, key: Key)
    requires Sound(db) && Sound(CommitDb(db, call, id, targets)) && id !in db.alerts && CallOwned(db, call) && call.key != key
    ensures AlertOf(CommitDb(db, call, id, targets), key) == AlertOf(db, key)
  {
    SameAlert(db, CommitDb(db, call, id, targets), key);
  }

  lemma CommitHere(db: Db, call: Call, id: Id, targets: set<Target>)
    requires Sound(db) && Sound(CommitDb(db, call, id, targets)) && id !in db.alerts && CallOwned(db, call)
    ensures call.kind.Opening? ==>
              && OpenResult(db, call.key, id) == (if AlertOf(db, call.key).Some? then None else Some(id))
              && AlertOf(CommitDb(db, call, id, targets), call.key) == (if AlertOf(db, call.key).Some? then AlertOf(db, call.key) else Some(id))
    ensures call.kind.Closing? ==>
              CommitResult(db, call, id) == Committed(if AlertOf(db, call.key) == Some(call.kind.id) then AlertOf(db, call.key) else None)
    ensures call.kind.Closing? ==>
              AlertOf(CommitDb(db, call, id, targets), call.key) == (if AlertOf(db, call.key) == Some(call.kind.id) then None else AlertOf(db, call.key))
  {
    var u := CommitDb(db, call, id, targets);
    if call.kind.Closing? && !db.alerts[call.kind.id].resolved { AlertIs(db, call.kind.id, call.key); }
    if call.kind.Opening? {
      if AlertOf(db, call.key).None? { AlertIs(u, id, call.key); }
    } else if AlertOf(db, call.key).Some? {
      var a := AlertOf(db, call.key).value;
      if a == call.kind.id {
        forall other ensures !Unresolved(u, other, call.key) {
          assert Unresolved(u, other, call.key) ==> Unresolved(db, other, call.key);
        }
      } else {
        AlertIs(u, a, call.key);
      }
    }
  }

  lemma ProjectCommit(w: World, e: Event, key: Key)
    requires Wf(w) && Wf(Next(w, e)) && e.Commit? && Enabled(w, e)
    ensures Project(Next(w, e), key) == LocalNext(Project(w, key), ActionOn(w, e, key))
  {
    hide Sound;
    hide AlertOf;
    hide CommitDb;
    hide OpenResult;
    hide CallOwned;
    var v, call := Next(w, e), w.calls[e.c];
    assert CallOwned(w.db, call);
    CallIs(w, e.c);
    if call.key == key {
      CommitHere(w.db, call, e.id, e.targets);
      CallIs(v, e.c);
    } else {
      CommitElsewhere(w.db, call, e.id, e.targets, key);
      SameCall(w, v, key);
    }
  }

  lemma ProjectReturn(w: World, e: Event, key: Key)
    requires Wf(w) && Wf(Next(w, e)) && (e.Return? || e.Fail?) && Enabled(w, e)
    ensures Project(Next(w, e), key) == LocalNext(Project(w, key), ActionOn(w, e, key))
  {
    hide Sound;
    hide Ownership;
    hide AlertOf;
    var v, call := Next(w, e), w.calls[e.c];
    CallIs(w, e.c);
    if call.key == key {
      if e.Fail? { CallIs(v, e.c); }
    } else {
      SameCall(w, v, key);
    }
  }

  lemma ProjectRefresh(w: World, e: Event, key: Key)
    requires Wf(w) && Wf(Next(w, e)) && (e.RefreshTo? || e.Restart?) && Enabled(w, e)
    ensures Project(Next(w, e), key) == LocalNext(Project(w, key), ActionOn(w, e, key))
  {
    hide Ownership;
    hide AlertOf;
    var v := Next(w, e);
    if e.RefreshTo? {
      SameCall(w, v, key);
    } else if key in e.live {
      AlertIs(w.db, e.live[key], key);
    } else {
      NotLive(w.db, e.live, key);
    }
  }

  lemma NotLive(db: Db, live: map<Key, Id>, key: Key)
    requires IsLive(db, live) && key !in live
    ensures AlertOf(db, key) == None
  {}

  lemma ProjectAck(w: World, e: Event, key: Key)
    requires Wf(w) && Wf(Next(w, e)) && (e.Acknowledge? || e.AckReturns? || e.AckThrows?) && Enabled(w, e)
    ensures Project(Next(w, e), key) == LocalNext(Project(w, key), ActionOn(w, e, key))
  {
    hide Ownership;
    hide AlertOf;
    var v := Next(w, e);
    SameCall(w, v, key);
    SameAlert(w.db, v.db, key);
  }

  /** Each target runs its own small automaton: no step for one key touches another. */
  lemma NextProjects(w: World, e: Event, key: Key)
    requires Wf(w)
    ensures Wf(Next(w, e))
    ensures Project(Next(w, e), key) == LocalNext(Project(w, key), ActionOn(w, e, key))
  {
    hide Sound;
    hide OneCallEach;
    hide Ownership;
    hide Project;
    hide LocalNext;
    NextKeepsSound(w, e);
    NextKeepsOneCallEach(w, e);
    NextKeepsOwnership(w, e);
    if Enabled(w, e) {
      match e
      case Evaluation(_, _, _, _, _) => ProjectEvaluation(w, e, key);
      case Commit(_, _, _, _) => ProjectCommit(w, e, key);
      case Fail(_) => ProjectReturn(w, e, key);
      case Return(_) => ProjectReturn(w, e, key);
      case RefreshTo(_) => ProjectRefresh(w, e, key);
      case Restart(_, _) => ProjectRefresh(w, e, key);
      case _ => ProjectAck(w, e, key);
    } else {
      SkipStays(w, key);
    }
  }

  lemma SkipStays(w: World, key: Key)
    ensures LocalNext(Project(w, key), Skip) == Project(w, key)
  {}

  // ----- transitions need evaluations -----

  function Evaluations(a: Action): nat { if a.Evaluated? then 1 else 0 }

  /** Evaluations of a target during a run, and how often its open alert appeared or went away. */
  ghost function EvaluationsOf(w: World, es: seq<Event>, key: Key): nat {
    if es == [] then 0
    else
      EvaluationsOf(w, es[..|es| - 1], key)
      + (if ActionOn(After(w, es[..|es| - 1]), es[|es| - 1], key).Evaluated? then 1 else 0)
  }

  ghost function TransitionsOf(w: World, es: seq<Event>, key: Key): nat {
    if es == [] then 0
    else
      TransitionsOf(w, es[..|es| - 1], key)
      + (if OpenOf(After(w, es).engine, key) != OpenOf(After(w, es[..|es| - 1]).engine, key) then 1 else 0)
  }

  /** `spent` evaluations pay for the transitions so far; the counters hold the rest. */
  predicate Paid(l: Local, evaluations: nat, spent: nat, n: nat) {
    && evaluations >= spent + (if l.ts.openAlertId.Some? then l.ts.clears else l.ts.breaches)
    && (l.call.Some? ==> evaluations >= spent + n)
    && (l.call.Some? && l.call.value.kind.Opening? ==> l.ts.openAlertId.None?)
    && (l.call.Some? && l.call.value.kind.Closing? ==>
          l.ts.openAlertId.Some? && l.present && evaluations >= spent + n + l.ts.breaches)
  }

  predicate Debounced(a: Action, n: nat) {
    !a.Restarted? && (a.Evaluated? ==> a.rule.consecutiveBreaches >= n)
  }

  lemma LocalPays(l: Local, a: Action, evaluations: nat, spent: nat, n: nat)
    requires Paid(l, evaluations, spent, n) && Debounced(a, n) && (a.Dropped? ==> l.ts.openAlertId.None?)
    requires !l.present ==> l.ts == NEW_TARGET
    ensures var m := LocalNext(l, a);
            Paid(m, evaluations + Evaluations(a), spent + (if m.ts.openAlertId != l.ts.openAlertId then n else 0), n)
  {}

  lemma AbsentIsNew(w: World, key: Key)
    ensures !Project(w, key).present ==> Project(w, key).ts == NEW_TARGET
  {}

  lemma DroppedIsClosed(w: World, e: Event, key: Key)
    ensures ActionOn(w, e, key).Dropped? ==> Project(w, key).ts.openAlertId.None?
  {}

  ghost predicate NoRestart(es: seq<Event>) { forall i :: 0 <= i < |es| ==> !es[i].Restart? }

  predicate RuleAtLeast(e: Event, key: Key, n: nat) {
    e.Evaluation? && e.key == key ==> e.rule.consecutiveBreaches >= n
  }

  lemma EventIsDebounced(w: World, e: Event, key: Key, n: nat)
    requires !e.Restart? && RuleAtLeast(e, key, n)
    ensures Debounced(ActionOn(w, e, key), n)
  {}

  function Times(k: nat, n: nat): nat { k * n }

  lemma OneMoreTime(k: nat, n: nat)
    ensures Times(k + 1, n) == Times(k, n) + n && Times(0, n) == 0
  {}

  lemma {:induction false} RunPays(w: World, es: seq<Event>, key: Key, n: nat)
    requires Wf(w) && NoRestart(es) && Paid(Project(w, key), 0, 0, n)
    requires forall i :: 0 <= i < |es| ==> RuleAtLeast(es[i], key, n)
    ensures Wf(After(w, es))
    ensures Paid(Project(After(w, es), key), EvaluationsOf(w, es, key), Times(TransitionsOf(w, es, key), n), n)
  {
    hide Wf;
    hide Project;
    hide Paid;
    hide Next;
    hide LocalNext;
    hide Times;
    hide ActionOn;
    hide Debounced;
    if es == [] {
      OneMoreTime(0, n);
    } else {
      var fs, e := es[..|es| - 1], es[|es| - 1];
      var v := After(w, fs);
      RunPays(w, fs, key, n);
      NextProjects(v, e, key);
      EventIsDebounced(v, e, key, n);
      AbsentIsNew(v, key);
      DroppedIsClosed(v, e, key);
      LocalPays(Project(v, key), ActionOn(v, e, key), EvaluationsOf(w, fs, key), Times(TransitionsOf(w, fs, key), n), n);
      OneMoreTime(TransitionsOf(w, fs, key), n);
      ProjectsOpen(v, key);
      ProjectsOpen(After(w, es), key);
    }
  }

  lemma ProjectsOpen(w: World, key: Key)
    ensures Project(w, key).ts.openAlertId == OpenOf(w.engine, key)
  {}

  /** A target at rest: no call in flight and its counters at zero, as at start-up. */
  ghost predicate AtRest(w: World, key: Key) {
    && Wf(w) && key !in w.engine.inFlight
    && StateOf(w.engine, key).breaches == 0 && StateOf(w.engine, key).clears == 0
  }

  /**
   Debounce: k openings and closings of one target take at least k times `n` evaluations of it, however slow the
   store calls, when every rule version asks for at least `n` in a row.
   */
  lemma TransitionsNeedEvaluations(w: World, es: seq<Event>, key: Key, n: nat)
    requires AtRest(w, key) && NoRestart(es)
    requires forall i :: 0 <= i < |es| ==> RuleAtLeast(es[i], key, n)
    ensures EvaluationsOf(w, es, key) >= TransitionsOf(w, es, key) * n
  {
    hide Sound;
    hide Ownership;
    hide After;
    assert CallOf(w, key).None?;
    RunPays(w, es, key, n);
  }

  // ----- cooldown -----

  /**
   When the evaluation ran that last resolved this target's alert, unless the engine has since dropped the
   target's state or been restarted.
   */
  ghost function ResolvedAt(w: World, es: seq<Event>, key: Key): Option<int> {
    if es == [] then None
    else
      var v := After(w, es[..|es| - 1]);
      var a := ActionOn(v, es[|es| - 1], key);
      if a.Dropped? || a.Restarted? then None
      else if a.CallReturns? && Resolves(Project(v, key)) then Some(Project(v, key).call.value.kind.decidedAt)
      else ResolvedAt(w, es[..|es| - 1], key)
  }

  predicate Resolves(l: Local) {
    l.call.Some? && l.call.value.kind.Closing? && l.call.value.stage.Committed?
  }

  /** The time kept for the cooldown is the time of that evaluation. */
  predicate Remembers(l: Local, at: Option<int>) {
    && (at.Some? ==> l.present && l.ts.lastResolvedAt == at.value)
    && (l.call.Some? && l.call.value.kind.Closing? ==> l.present && l.ts.openAlertId.Some?)
    && (l.call.Some? && l.call.value.kind.Opening? ==> l.ts.openAlertId.None?)
  }

  lemma LocalRemembers(l: Local, a: Action, at: Option<int>)
    requires Remembers(l, at) && (a.Dropped? ==> l.ts.openAlertId.None?)
    ensures Remembers(LocalNext(l, a),
              if a.Dropped? || a.Restarted? then None
              else if a.CallReturns? && Resolves(l) then Some(l.call.value.kind.decidedAt)
              else at)
  {}

  lemma {:induction false} RunRemembers(w: World, es: seq<Event>, key: Key)
    requires Wf(w) && Remembers(Project(w, key), None)
    ensures Wf(After(w, es)) && Remembers(Project(After(w, es), key), ResolvedAt(w, es, key))
  {
    hide Wf;
    hide Project;
    hide Remembers;
    hide Next;
    hide LocalNext;
    hide ActionOn;
    if es != [] {
      var fs, e := es[..|es| - 1], es[|es| - 1];
      var v := After(w, fs);
      RunRemembers(w, fs, key);
      NextProjects(v, e, key);
      DroppedIsClosed(v, e, key);
      LocalRemembers(Project(v, key), ActionOn(v, e, key), ResolvedAt(w, fs, key));
    }
  }

  /** The step decides to open an alert for the key. */
  ghost predicate DecidesToOpen(w: World, e: Event, key: Key) {
    && e.Evaluation? && e.key == key && Enabled(w, e) && e.c in Next(w, e).calls && Next(w, e).calls[e.c].kind.Opening?
  }

  lemma OpeningRespectsCooldown(w: World, e: Event, key: Key, at: int)
    requires DecidesToOpen(w, e, key) && Remembers(Project(w, key), Some(at))
    ensures e.now - at >= e.rule.cooldownS * 1000
  {
    hide AlertOf;
  }

  /**
   Cooldown: while the engine keeps a target's state, an opening is decided at least the cooldown after the
   evaluation that last resolved it, in every interleaving.
   */
  lemma ReopenWaitsOutTheCooldown(w: World, es: seq<Event>, e: Event, key: Key)
    requires AtRest(w, key) && DecidesToOpen(After(w, es), e, key) && ResolvedAt(w, es, key).Some?
    ensures e.now - ResolvedAt(w, es, key).value >= e.rule.cooldownS * 1000
  {
    hide Sound;
    hide Ownership;
    hide After;
    hide Next;
    assert CallOf(w, key).None?;
    RunRemembers(w, es, key);
    OpeningRespectsCooldown(After(w, es), e, key, ResolvedAt(w, es, key).value);
  }

  /** A refresh that leaves the target out for a moment makes the engine forget the cooldown; otherwise it holds. */
  lemma DroppingForgetsTheCooldown(w: World, key: Key, rule: Rule, now: int, c: nat)
    requires key in w.expanded && key in w.engine.targets && w.engine.targets[key].openAlertId.None?
    requires key !in w.engine.inFlight && c !in w.calls && rule.consecutiveBreaches <= 1
    requires now - w.engine.targets[key].lastResolvedAt < rule.cooldownS * 1000 <= now
    ensures !DecidesToOpen(w, Evaluation(key, rule, true, now, c), key)
    ensures DecidesToOpen(Next(Next(w, RefreshTo({})), RefreshTo({key})), Evaluation(key, rule, true, now, c), key)
  {
    assert key !in Next(Next(w, RefreshTo({})), RefreshTo({key})).engine.targets;
  }

  // ----- when calls are made -----

  /** How many evaluations of the target in a row, up to now, were breaching. */
  ghost function BreachStreak(w: World, es: seq<Event>, key: Key): nat {
    if es == [] then 0
    else
      var a := ActionOn(After(w, es[..|es| - 1]), es[|es| - 1], key);
      if a.Evaluated? then (if a.breaching then BreachStreak(w, es[..|es| - 1], key) + 1 else 0)
      else if a.Dropped? || a.Restarted? then 0
      else BreachStreak(w, es[..|es| - 1], key)
  }

  /** How many in a row were clear, while an alert was open. */
  ghost function ClearStreak(w: World, es: seq<Event>, key: Key): nat {
    if es == [] then 0
    else
      var v := After(w, es[..|es| - 1]);
      var a := ActionOn(v, es[|es| - 1], key);
      if a.Evaluated? then (if a.breaching || OpenOf(v.engine, key).None? then 0 else ClearStreak(w, es[..|es| - 1], key) + 1)
      else if OpenOf(After(w, es).engine, key) != OpenOf(v.engine, key) || a.Restarted? then 0
      else ClearStreak(w, es[..|es| - 1], key)
  }

  predicate Counts(l: Local, breaches: nat, clears: nat) {
    && l.ts.breaches == breaches && l.ts.clears == clears && (l.ts.openAlertId.None? ==> clears == 0)
    && (l.call.Some? && l.call.value.kind.Opening? ==> l.ts.openAlertId.None?)
    && (l.call.Some? && l.call.value.kind.Closing? ==> l.ts.openAlertId.Some? && l.present)
    && (!l.present ==> l.ts == NEW_TARGET)
  }

  lemma LocalCounts(l: Local, a: Action, breaches: nat, clears: nat)
    requires Counts(l, breaches, clears) && (a.Dropped? ==> l.ts.openAlertId.None?)
    ensures var m := LocalNext(l, a);
            Counts(m,
              if a.Evaluated? then (if a.breaching then breaches + 1 else 0) else if a.Dropped? || a.Restarted? then 0 else breaches,
              if a.Evaluated? then (if a.breaching || l.ts.openAlertId.None? then 0 else clears + 1)
              else if m.ts.openAlertId != l.ts.openAlertId || a.Restarted? then 0 else clears)
  {}

  lemma {:induction false} RunCounts(w: World, es: seq<Event>, key: Key)
    requires Wf(w) && Counts(Project(w, key), 0, 0)
    ensures Wf(After(w, es)) && Counts(Project(After(w, es), key), BreachStreak(w, es, key), ClearStreak(w, es, key))
  {
    hide Wf;
    hide Project;
    hide Counts;
    hide Next;
    hide LocalNext;
    hide ActionOn;
    if es != [] {
      var fs, e := es[..|es| - 1], es[|es| - 1];
      var v := After(w, fs);
      RunCounts(w, fs, key);
      NextProjects(v, e, key);
      DroppedIsClosed(v, e, key);
      LocalCounts(Project(v, key), ActionOn(v, e, key), BreachStreak(w, fs, key), ClearStreak(w, fs, key));
      ProjectsOpen(v, key);
      ProjectsOpen(After(w, es), key);
    }
  }

  ghost predicate DecidesToClose(w: World, e: Event, key: Key) {
    && e.Evaluation? && e.key == key && Enabled(w, e) && e.c in Next(w, e).calls && Next(w, e).calls[e.c].kind.Closing?
  }

  lemma DecisionsByCounters(w: World, e: Event, key: Key)
    requires e.Evaluation? && e.key == key && Enabled(w, e)
    ensures var ts := StateOf(w.engine, key);
            && (DecidesToOpen(w, e, key)
                <==> e.breaching && ts.openAlertId.None? && ts.breaches + 1 >= e.rule.consecutiveBreaches
                     && e.now - ts.lastResolvedAt >= e.rule.cooldownS * 1000 && key !in w.engine.inFlight)
            && (DecidesToClose(w, e, key)
                <==> !e.breaching && ts.openAlertId.Some? && ts.clears + 1 >= e.rule.consecutiveBreaches && key !in w.engine.inFlight)
  {}

  /**
   An evaluation opens or closes exactly when it should: it completes the required streak of breaches with
   nothing open and no cooldown running, or of clears with an alert open, and no call is under way.
   */
  lemma CallsAreMadeExactly(w: World, es: seq<Event>, e: Event, key: Key)
    requires AtRest(w, key) && e.Evaluation? && e.key == key && Enabled(After(w, es), e)
    ensures var v := After(w, es);
            && (DecidesToOpen(v, e, key)
                <==> e.breaching && OpenOf(v.engine, key).None? && BreachStreak(w, es + [e], key) >= e.rule.consecutiveBreaches
                     && e.now - StateOf(v.engine, key).lastResolvedAt >= e.rule.cooldownS * 1000 && key !in v.engine.inFlight)
            && (DecidesToClose(v, e, key)
                <==> !e.breaching && OpenOf(v.engine, key).Some? && ClearStreak(w, es + [e], key) >= e.rule.consecutiveBreaches
                     && key !in v.engine.inFlight)
  {
    hide Sound;
    hide Ownership;
    hide Next;
    hide Enabled;
    assert CallOf(w, key).None?;
    RunCounts(w, es, key);
    DecisionsByCounters(After(w, es), e, key);
    assert (es + [e])[..|es|] == es;
    EvaluationActs(After(w, es), e, key);
  }

  lemma EvaluationActs(w: World, e: Event, key: Key)
    requires e.Evaluation? && e.key == key && Enabled(w, e)
    ensures ActionOn(w, e, key) == Evaluated(e.rule, e.breaching, e.now)
  {}

  // ----- the cooldown, exactly -----

  /** At rest with no resolution on record, as every target is when the engine starts. */
  ghost predicate AtStart(w: World, key: Key) {
    AtRest(w, key) && StateOf(w.engine, key).lastResolvedAt == 0
  }

  lemma RestartIsAtStart(w: World, current: set<Key>, live: map<Key, Id>, key: Key)
    requires Wf(w) && IsLive(w.db, live)
    ensures AtStart(Next(w, Restart(current, live)), key)
  {
    hide Sound;
    hide IsLive;
    NextKeepsSound(w, Restart(current, live));
    NextKeepsOneCallEach(w, Restart(current, live));
    NextKeepsOwnership(w, Restart(current, live));
  }

  /** Without a resolution to remember the engine keeps the time zero. */
  predicate Blank(l: Local, at: Option<int>) { at.None? ==> l.ts.lastResolvedAt == 0 }

  lemma LocalBlank(l: Local, a: Action, at: Option<int>)
    requires Blank(l, at)
    ensures Blank(LocalNext(l, a),
              if a.Dropped? || a.Restarted? then None
              else if a.CallReturns? && Resolves(l) then Some(l.call.value.kind.decidedAt)
              else at)
  {}

  lemma {:induction false} RunBlank(w: World, es: seq<Event>, key: Key)
    requires Wf(w) && Blank(Project(w, key), None)
    ensures Wf(After(w, es)) && Blank(Project(After(w, es), key), ResolvedAt(w, es, key))
  {
    hide Wf;
    hide Project;
    hide Blank;
    hide Next;
    hide LocalNext;
    hide ActionOn;
    if es != [] {
      var fs, e := es[..|es| - 1], es[|es| - 1];
      var v := After(w, fs);
      RunBlank(w, fs, key);
      NextProjects(v, e, key);
      LocalBlank(Project(v, key), ActionOn(v, e, key), ResolvedAt(w, fs, key));
    }
  }

  /** The cooldown since a remembered resolution is over; with none remembered it runs from the epoch. */
  predicate CooldownOver(at: Option<int>, e: Event)
    requires e.Evaluation?
  {
    e.now - (if at.Some? then at.value else 0) >= e.rule.cooldownS * 1000
  }

  /**
   An evaluation opens exactly when it completes the required streak of breaches, nothing is open, no call is
   under way, and the cooldown since the resolution the engine remembers is over.
   */
  lemma OpensExactly(w: World, es: seq<Event>, e: Event, key: Key)
    requires AtStart(w, key) && e.Evaluation? && e.key == key && Enabled(After(w, es), e)
    ensures var v := After(w, es);
            DecidesToOpen(v, e, key)
            <==> e.breaching && OpenOf(v.engine, key).None? && BreachStreak(w, es + [e], key) >= e.rule.consecutiveBreaches
                 && CooldownOver(ResolvedAt(w, es, key), e) && key !in v.engine.inFlight
  {
    hide Sound;
    hide Ownership;
    hide Next;
    hide Enabled;
    hide DecidesToOpen;
    hide DecidesToClose;
    assert CallOf(w, key).None?;
    CallsAreMadeExactly(w, es, e, key);
    RunRemembers(w, es, key);
    RunBlank(w, es, key);
  }

  /** When the evaluation ran that last resolved this target's alert, whatever happened since. */
  ghost function LastResolution(w: World, es: seq<Event>, key: Key): Option<int> {
    if es == [] then None
    else
      var v := After(w, es[..|es| - 1]);
      if ActionOn(v, es[|es| - 1], key).CallReturns? && Resolves(Project(v, key))
      then Some(Project(v, key).call.value.kind.decidedAt)
      else LastResolution(w, es[..|es| - 1], key)
  }

  lemma {:induction false} RememberedIsLast(w: World, es: seq<Event>, key: Key)
    ensures ResolvedAt(w, es, key).Some? ==> ResolvedAt(w, es, key) == LastResolution(w, es, key)
  {
    hide ActionOn;
    hide Project;
    hide Resolves;
    hide Next;
    if es != [] { RememberedIsLast(w, es[..|es| - 1], key); }
  }

  /**
   Inside the cooldown of the last resolution an evaluation opens exactly when the engine has forgotten that
   resolution, by a drop or a restart since, and nothing else stands in the way.
   */
  lemma CooldownIsBrokenExactly(w: World, es: seq<Event>, e: Event, key: Key)
    requires AtStart(w, key) && e.Evaluation? && e.key == key && Enabled(After(w, es), e)
    requires LastResolution(w, es, key).Some? && e.now - LastResolution(w, es, key).value < e.rule.cooldownS * 1000 <= e.now
    ensures var v := After(w, es);
            DecidesToOpen(v, e, key)
            <==> ResolvedAt(w, es, key).None? && e.breaching && OpenOf(v.engine, key).None?
                 && BreachStreak(w, es + [e], key) >= e.rule.consecutiveBreaches && key !in v.engine.inFlight
  {
    hide AtStart;
    hide Next;
    hide Enabled;
    hide DecidesToOpen;
    OpensExactly(w, es, e, key);
    RememberedIsLast(w, es, key);
  }

  // ----- the engine knows exactly what is open -----

  /**
   Between calls the engine's open alert is the store's unresolved one; during a call they differ by exactly what
   the call has done.
   */
  predicate Exact(l: Local) {
    match l.call
    case None => l.ts.openAlertId == l.alert
    case Some(Pending(Opening, Committed(alert))) => l.ts.openAlertId.None? && alert.Some? && l.alert == alert
    case Some(Pending(Opening, _)) => l.ts.openAlertId.None? && l.alert.None?
    case Some(Pending(Closing(id, _), Committed(_))) => l.present && l.ts.openAlertId == Some(id) && l.alert.None?
    case Some(Pending(Closing(id, _), _)) => l.present && l.ts.openAlertId == Some(id) && l.alert == Some(id)
  }

  /**
   The two ways to lose track: the store commits but the caller sees an error, or an open comes back when the
   engine has no entry for its target, dropped since the call and not evaluated again.
   */
  predicate Loses(l: Local, a: Action) {
    || (a.CallCommits? && a.thenThrow && l.call.Some?)
    || (a.CallReturns? && !l.present && l.call.Some? && l.call.value.kind.Opening? && l.call.value.stage.Committed?)
  }

  /** A commit or failure happens once, to a call still undecided; a continuation runs after that. */
  predicate Timely(l: Local, a: Action) {
    match a
    case CallCommits(_, _) => l.call.Some? && l.call.value.stage.Called?
    case CallFails => l.call.Some? && l.call.value.stage.Called?
    case CallReturns => l.call.Some? && !l.call.value.stage.Called?
    case _ => true
  }

  /** One step keeps the engine exact exactly when it is not one of those two. */
  lemma LocalStaysExactExactly(l: Local, a: Action)
    requires Exact(l) && Timely(l, a) && (!l.present ==> l.ts == NEW_TARGET) && (a.Dropped? ==> l.ts.openAlertId.None?)
    ensures Exact(LocalNext(l, a)) <==> !Loses(l, a)
  {}

  lemma ActionIsTimely(w: World, e: Event, key: Key)
    requires OneCallEach(w)
    ensures Timely(Project(w, key), ActionOn(w, e, key))
  {
    hide AlertOf;
    if Enabled(w, e) {
      match e
      case Commit(c, _, _, _) => CallIs(w, c);
      case Fail(c) => CallIs(w, c);
      case Return(c) => CallIs(w, c);
      case _ =>
    }
  }

  /** No step of the run loses track of this target. */
  ghost predicate Lossless(w: World, es: seq<Event>, key: Key) {
    forall i :: 0 <= i < |es| ==> KeepsTrack(w, es, key, i)
  }

  ghost predicate KeepsTrack(w: World, es: seq<Event>, key: Key, i: nat)
    requires i < |es|
  {
    !Loses(Project(After(w, es[..i]), key), ActionOn(After(w, es[..i]), es[i], key))
  }

  lemma LosslessPrefix(w: World, es: seq<Event>, key: Key)
    requires es != [] && Lossless(w, es, key)
    ensures Lossless(w, es[..|es| - 1], key)
    ensures var v := After(w, es[..|es| - 1]);
            !Loses(Project(v, key), ActionOn(v, es[|es| - 1], key))
  {
    hide Project;
    hide Loses;
    hide ActionOn;
    hide After;
    var fs := es[..|es| - 1];
    forall i | 0 <= i < |fs| ensures KeepsTrack(w, fs, key, i) {
      assert KeepsTrack(w, es, key, i);
      assert fs[..i] == es[..i];
    }
    assert KeepsTrack(w, es, key, |es| - 1);
  }

  lemma {:induction false} RunStaysExact(w: World, es: seq<Event>, key: Key)
    requires Wf(w) && Exact(Project(w, key)) && Lossless(w, es, key)
    ensures Wf(After(w, es)) && Exact(Project(After(w, es), key))
  {
    hide Wf;
    hide Project;
    hide Exact;
    hide Next;
    hide LocalNext;
    hide ActionOn;
    hide Loses;
    hide Lossless;
    hide Timely;
    if es != [] {
      var fs, e := es[..|es| - 1], es[|es| - 1];
      var v := After(w, fs);
      LosslessPrefix(w, es, key);
      RunStaysExact(w, fs, key);
      NextProjects(v, e, key);
      AbsentIsNew(v, key);
      DroppedIsClosed(v, e, key);
      WfHasOneCallEach(v);
      ActionIsTimely(v, e, key);
      LocalStaysExactExactly(Project(v, key), ActionOn(v, e, key));
    }
  }

  /** The engine agrees with the store throughout a run exactly when no step of it loses track. */
  lemma RunStaysExactExactly(w: World, es: seq<Event>, key: Key)
    requires Wf(w) && Exact(Project(w, key))
    ensures (forall i :: 0 <= i <= |es| ==> ExactAfter(w, es, key, i)) <==> Lossless(w, es, key)
  {
    hide Exact;
    hide Wf;
    hide Project;
    hide After;
    if Lossless(w, es, key) {
      forall i | 0 <= i <= |es| ensures ExactAfter(w, es, key, i) {
        LosslessTo(w, es, key, i);
        RunStaysExact(w, es[..i], key);
      }
    }
    if forall i :: 0 <= i <= |es| ==> ExactAfter(w, es, key, i) {
      forall i | 0 <= i < |es| ensures KeepsTrack(w, es, key, i) {
        assert ExactAfter(w, es, key, i) && ExactAfter(w, es, key, i + 1);
        ExactStepKeepsTrack(w, es, key, i);
      }
    }
  }

  ghost predicate ExactAfter(w: World, es: seq<Event>, key: Key, i: nat)
    requires i <= |es|
  {
    Exact(Project(After(w, es[..i]), key))
  }

  lemma LosslessTo(w: World, es: seq<Event>, key: Key, i: nat)
    requires i <= |es| && Lossless(w, es, key)
    ensures Lossless(w, es[..i], key)
  {
    hide After;
    hide Project;
    hide Loses;
    hide ActionOn;
    forall j | 0 <= j < i ensures KeepsTrack(w, es[..i], key, j) {
      assert KeepsTrack(w, es, key, j);
      assert es[..i][..j] == es[..j];
    }
  }

  lemma ExactStepKeepsTrack(w: World, es: seq<Event>, key: Key, i: nat)
    requires Wf(w) && i < |es| && ExactAfter(w, es, key, i) && ExactAfter(w, es, key, i + 1)
    ensures KeepsTrack(w, es, key, i)
  {
    hide Wf;
    hide Exact;
    hide Loses;
    hide Project;
    hide LocalNext;
    hide ActionOn;
    hide Next;
    hide Timely;
    var v := After(w, es[..i]);
    assert es[..i + 1][..i] == es[..i];
    AlwaysWf(w, es[..i]);
    NextProjects(v, es[i], key);
    AbsentIsNew(v, key);
    DroppedIsClosed(v, es[i], key);
    WfHasOneCallEach(v);
    ActionIsTimely(v, es[i], key);
    LocalStaysExactExactly(Project(v, key), ActionOn(v, es[i], key));
  }

  lemma WfHasOneCallEach(w: World)
    ensures Wf(w) ==> OneCallEach(w)
  {}

  /** Whenever no call is in flight for the key, the engine's open alert is exactly the store's unresolved one. */
  lemma EngineKnowsWhatIsOpen(w: World, es: seq<Event>, key: Key)
    requires Wf(w) && Exact(Project(w, key)) && Lossless(w, es, key) && key !in After(w, es).engine.inFlight
    ensures OpenOf(After(w, es).engine, key) == AlertOf(After(w, es).db, key)
  {
    hide After;
    hide Lossless;
    hide AlertOf;
    RunStaysExact(w, es, key);
  }

  /** Start-up, and any restart, makes every target exact again, whatever was lost before. */
  lemma RestartIsExact(w: World, current: set<Key>, live: map<Key, Id>, key: Key)
    requires Wf(w) && IsLive(w.db, live)
    ensures Exact(Project(Next(w, Restart(current, live)), key)) && Wf(Next(w, Restart(current, live)))
  {
    hide Wf;
    hide Project;
    hide Next;
    hide IsLive;
    NextProjects(w, Restart(current, live), key);
    RestartActs(w, current, live, key);
  }

  lemma RestartActs(w: World, current: set<Key>, live: map<Key, Id>, key: Key)
    requires IsLive(w.db, live)
    ensures ActionOn(w, Restart(current, live), key) == Restarted
    ensures Exact(LocalNext(Project(w, key), Restarted))
  {}

  // ----- ghosts -----

  /** The store holds an unresolved alert the engine does not know of, and no call that could tell it. */
  predicate Ghost(l: Local, id: Id) {
    && l.alert == Some(id) && l.ts.openAlertId.None?
    && match l.call
       case None => true
       case Some(p) => p.kind.Opening? && (p.stage.Committed? ==> p.stage.alert.None?)
  }

  lemma LocalGhostStays(l: Local, a: Action, id: Id)
    requires Ghost(l, id) && !a.Restarted?
    ensures Ghost(LocalNext(l, a), id)
  {}

  /** Such an alert stays open until a restart adopts it: no evaluation can open, adopt or resolve it. */
  lemma {:induction false} GhostsStayUntilRestart(w: World, es: seq<Event>, key: Key, id: Id)
    requires Wf(w) && Ghost(Project(w, key), id) && NoRestart(es)
    ensures Wf(After(w, es)) && Ghost(Project(After(w, es), key), id)
  {
    hide Wf;
    hide Project;
    hide Ghost;
    hide Next;
    hide LocalNext;
    hide ActionOn;
    if es != [] {
      var fs, e := es[..|es| - 1], es[|es| - 1];
      var v := After(w, fs);
      GhostsStayUntilRestart(w, fs, key, id);
      NextProjects(v, e, key);
      NotRestarted(v, e, key);
      LocalGhostStays(Project(v, key), ActionOn(v, e, key), id);
    }
  }

  lemma NotRestarted(w: World, e: Event, key: Key)
    requires !e.Restart?
    ensures !ActionOn(w, e, key).Restarted?
  {}

  /** A step loses an open exactly when it leaves a ghost behind. */
  lemma LosingAnOpenMakesAGhost(l: Local, a: Action)
    requires Exact(l) && Timely(l, a) && l.call.Some? && l.call.value.kind.Opening?
    requires !l.present ==> l.ts == NEW_TARGET
    ensures Loses(l, a) <==> exists id :: Ghost(LocalNext(l, a), id)
  {
    var m := LocalNext(l, a);
    if Loses(l, a) {
      assert Ghost(m, m.alert.value);
    }
  }

  /** A drop during an open does no harm if the call fails, or if the target is evaluated before it returns. */
  lemma DroppedOpensCanRecover(l: Local, rule: Rule, breaching: bool, now: int, id: Id)
    requires Exact(l) && l.call == Some(Pending(Opening, Called))
    ensures Exact(LocalNext(LocalNext(LocalNext(l, Dropped), CallFails), CallReturns))
    ensures var m := LocalNext(LocalNext(LocalNext(LocalNext(l, Dropped), Evaluated(rule, breaching, now)), CallCommits(id, false)), CallReturns);
            Exact(m) && m.ts.openAlertId == m.alert == Some(id)
  {}

  /**
   Losing a close heals itself: once the engine asks again, the store has nothing left to resolve and the two
   agree.
   */
  lemma LosingACloseHeals(l: Local, id: Id, at: int, rule: Rule, now: int, fresh': Id)
    requires Exact(l) && l.call == Some(Pending(Closing(id, at), Called)) && l.ts.clears + 1 >= rule.consecutiveBreaches && l.present
    ensures var lost := LocalNext(LocalNext(l, CallCommits(fresh', true)), CallReturns);
            var again := LocalNext(LocalNext(LocalNext(lost, Evaluated(rule, false, now)), CallCommits(fresh', false)), CallReturns);
            Exact(again) && again.ts.openAlertId.None? && again.alert.None?
  {}
}
