/**
 The alert rule engine of apps/ingest/src/rules/index.ts: debounce counters, cooldown and the
 in-flight set. A store call is split where the source awaits it: deciding to call, and the
 continuation that runs when the call has returned or thrown. Whether a rule is breaching is an
 input here.
 */
module AlertEngine {
  import opened AlertStore
  import opened Wrappers

  datatype Rule = Rule(consecutiveBreaches: nat, cooldownS: int)

  datatype TargetState = TargetState(breaches: nat, clears: nat, openAlertId: Option<Id>, lastResolvedAt: int)

  const NEW_TARGET := TargetState(0, 0, None, 0)

  datatype Engine = Engine(
    targets: map<Key, TargetState>, inFlight: set<Key>, raised: nat, resolved: nat, suppressedByCooldown: nat)

  /** A store call the engine decided to make; a close remembers the time of the evaluation behind it. */
  datatype Kind = Opening | Closing(id: Id, decidedAt: int)

  function StateOf(e: Engine, key: Key): TargetState {
    if key in e.targets then e.targets[key] else NEW_TARGET
  }

  function OpenOf(e: Engine, key: Key): Option<Id> { StateOf(e, key).openAlertId }

  function Put(e: Engine, key: Key, ts: TargetState): Engine { e.(targets := e.targets[key := ts]) }

  function Counted(ts: TargetState, breaching: bool): TargetState {
    if breaching then ts.(clears := 0, breaches := ts.breaches + 1)
    else if ts.openAlertId.None? then ts.(breaches := 0)
    else ts.(breaches := 0, clears := ts.clears + 1)
  }

  predicate Suppressed(ts: TargetState, rule: Rule, breaching: bool, now: int) {
    && breaching && ts.openAlertId.None? && ts.breaches >= rule.consecutiveBreaches
    && now - ts.lastResolvedAt < rule.cooldownS * 1000
  }

  /** The store call the counters ask for. */
  function Wants(ts: TargetState, rule: Rule, breaching: bool, now: int): Option<Kind> {
    if breaching then
      if ts.openAlertId.Some? || ts.breaches < rule.consecutiveBreaches || Suppressed(ts, rule, breaching, now) then None
      else Some(Opening)
    else
      if ts.openAlertId.None? || ts.clears < rule.consecutiveBreaches then None
      else Some(Closing(ts.openAlertId.value, now))
  }

  /** One evaluation of one target. */
  function Evaluate(e: Engine, key: Key, rule: Rule, breaching: bool, now: int): (Engine, Option<Kind>) {
    var ts := Counted(StateOf(e, key), breaching);
    var suppressed := e.suppressedByCooldown + (if Suppressed(ts, rule, breaching, now) then 1 else 0);
    var e' := Put(e, key, ts).(suppressedByCooldown := suppressed);
    var call := Wants(ts, rule, breaching, now);
    if call.None? || key in e.inFlight then (e', None) else (e'.(inFlight := e.inFlight + {key}), call)
  }

  function Landed(e: Engine, key: Key): Engine { e.(inFlight := e.inFlight - {key}) }

  /** The open returned an alert, or null because one stands already. */
  function OpenReturned(e: Engine, key: Key, alert: Option<Id>): Engine {
    match alert
    case None => Landed(e, key)
    case Some(id) =>
      var e' := Landed(e, key).(raised := e.raised + 1);
      if key in e.targets then Put(e', key, e.targets[key].(openAlertId := Some(id), clears := 0)) else e'
  }

  function CloseReturned(e: Engine, key: Key, decidedAt: int): Engine {
    var e' := Landed(e, key).(resolved := e.resolved + 1);
    if key in e.targets
    then Put(e', key, e.targets[key].(openAlertId := None, lastResolvedAt := decidedAt, clears := 0))
    else e'
  }

  /** Drop the state of targets no longer expanded, unless they hold an open alert. */
  function Refresh(e: Engine, current: set<Key>): Engine {
    e.(targets := map key | key in e.targets && (key in current || e.targets[key].openAlertId.Some?) :: e.targets[key])
  }

  function Adopt(e: Engine, live: map<Key, Id>): Engine {
    e.(targets := e.targets + map key | key in live :: TargetState(0, 0, Some(live[key]), 0))
  }

  /** The targets with an alert adopted for each of `done`. */
  ghost function AdoptOnly(targets: map<Key, TargetState>, live: map<Key, Id>, done: set<Key>): map<Key, TargetState> {
    targets + map key | key in live && key in done :: TargetState(0, 0, Some(live[key]), 0)
  }

  lemma AdoptOneMore(targets: map<Key, TargetState>, live: map<Key, Id>, done: set<Key>, key: Key)
    requires key in live
    ensures AdoptOnly(targets, live, done)[key := TargetState(0, 0, Some(live[key]), 0)] == AdoptOnly(targets, live, done + {key})
  {}

  lemma AdoptNone(targets: map<Key, TargetState>, live: map<Key, Id>)
    ensures AdoptOnly(targets, live, {}) == targets
  {}

  lemma AdoptAll(e: Engine, live: map<Key, Id>)
    ensures Adopt(e, live) == e.(targets := AdoptOnly(e.targets, live, live.Keys))
  {}

  class AlertEngine {
    var targetState: map<Key, TargetState>
    var inFlight: set<Key>
    var raised: nat
    var resolved: nat
    var suppressedByCooldown: nat

    function View(): Engine
      reads this
    {
      Engine(targetState, inFlight, raised, resolved, suppressedByCooldown)
    }

    constructor ()
      ensures View() == Engine(map[], {}, 0, 0, 0)
    {
      targetState, inFlight, raised, resolved, suppressedByCooldown := map[], {}, 0, 0, 0;
    }

    /** Returns the store call to make, if any; its key is then in flight. */
    method EvaluateTarget(key: Key, rule: Rule, breaching: bool, now: int) returns (call: Option<Kind>)
      modifies this
      ensures (View(), call) == Evaluate(old(View()), key, rule, breaching, now)
    {
      ghost var was := targetState;
      var ts := if key in targetState then targetState[key] else TargetState(0, 0, None, 0);
      if breaching {
        ts := ts.(clears := 0);
        ts := ts.(breaches := ts.breaches + 1);
        targetState := targetState[key := ts];
        if ts.openAlertId.Some? || ts.breaches < rule.consecutiveBreaches { return None; }
        if now - ts.lastResolvedAt < rule.cooldownS * 1000 {
          suppressedByCooldown := suppressedByCooldown + 1;
          return None;
        }
        call := BeginCall(key, Opening);
      } else {
        ts := ts.(breaches := 0);
        targetState := targetState[key := ts];
        if ts.openAlertId.None? { return None; }
        ts := ts.(clears := ts.clears + 1);
        targetState := targetState[key := ts];
        assert targetState == was[key := ts];
        if ts.clears < rule.consecutiveBreaches { return None; }
        call := BeginCall(key, Closing(ts.openAlertId.value, now));
      }
    }

    /** One store call per target at a time. */
    method BeginCall(key: Key, kind: Kind) returns (call: Option<Kind>)
      modifies this`inFlight
      ensures inFlight == if key in old(inFlight) then old(inFlight) else old(inFlight) + {key}
      ensures call == if key in old(inFlight) then None else Some(kind)
    {
      if key in inFlight { return None; }
      inFlight := inFlight + {key};
      return Some(kind);
    }

    method FinishOpen(key: Key, alert: Option<Id>)
      modifies this
      ensures View() == OpenReturned(old(View()), key, alert)
    {
      if alert.Some? {
        if key in targetState {
          targetState := targetState[key := targetState[key].(openAlertId := alert, clears := 0)];
        }
        raised := raised + 1;
      }
      inFlight := inFlight - {key};
    }

    method FinishClose(key: Key, decidedAt: int)
      modifies this
      ensures View() == CloseReturned(old(View()), key, decidedAt)
    {
      if key in targetState {
        targetState := targetState[key := targetState[key].(openAlertId := None, lastResolvedAt := decidedAt, clears := 0)];
      }
      resolved := resolved + 1;
      inFlight := inFlight - {key};
    }

    method AbandonCall(key: Key)
      modifies this
      ensures View() == Landed(old(View()), key)
    {
      inFlight := inFlight - {key};
    }

    method RefreshTargets(current: set<Key>)
      modifies this
      ensures View() == Refresh(old(View()), current)
    {
      var rest := targetState.Keys;
      while rest != {}
        invariant inFlight == old(inFlight) && raised == old(raised) && resolved == old(resolved)
        invariant suppressedByCooldown == old(suppressedByCooldown)
        invariant targetState.Keys <= old(targetState).Keys && rest <= old(targetState).Keys
        invariant forall key :: key in targetState ==> targetState[key] == old(targetState)[key]
        invariant forall key :: key in old(targetState) ==>
                    (key in targetState <==> key in rest || key in current || old(targetState)[key].openAlertId.Some?)
        decreases |rest|
      {
        var key :| key in rest;
        rest := rest - {key};
        if key !in current && targetState[key].openAlertId.None? {
          targetState := targetState - {key};
        }
      }
    }

    method AdoptLive(live: map<Key, Id>)
      modifies this
      ensures View() == Adopt(old(View()), live)
    {
      hide Adopt;
      hide AdoptOnly;
      var rest := live.Keys;
      ghost var done: set<Key>, was := {}, View();
      AdoptNone(was.targets, live);
      while rest != {}
        invariant View() == was.(targets := targetState) && targetState == AdoptOnly(was.targets, live, done)
        invariant rest <= live.Keys && done == live.Keys - rest
        decreases |rest|
      {
        var key :| key in rest;
        AdoptOneMore(was.targets, live, done, key);
        rest, done := rest - {key}, done + {key};
        targetState := targetState[key := TargetState(0, 0, Some(live[key]), 0)];
      }
      assert done == live.Keys;
      AdoptAll(was, live);
    }
  }
}
