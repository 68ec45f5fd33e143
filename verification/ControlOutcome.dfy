/**
 How commands end: each final state has one cause, and a gateway's report changes what it says and
 nothing else.
 */
module ControlOutcome {
  import opened Envelope
  import opened CommandStore
  import opened ControlService
  import opened ControlProtocol
  import opened OldestFirst
  import opened Wrappers

  /** The step takes the command to this state. */
  predicate Brings(w: World, e: Event, id: Id, s: CommandState) {
    && id in w.table
    && match s
       case Applied => e == Report(id, true) && w.table[id].state == Dispatched
       case Failed => e == Report(id, false) && w.table[id].state == Dispatched
       case Cancelled => e == CancelRow(id) && w.table[id].state in {Pending, Dispatched}
       case Expired => e == Sweep && w.table[id].state == Pending && w.table[id].expiresAt <= w.clock
       case Superseded => w.table[id].state == Applied && w.clock < w.table[id].effectiveUntil && ReplacedBy(w, e, id)
       case _ => false
  }

  /** Another command of the zone is reported applied. */
  predicate ReplacedBy(w: World, e: Event, id: Id)
    requires id in w.table
  {
    e.Report? && e.applied && e.id != id && e.id in w.table && w.table[e.id].state == Dispatched && w.table[e.id].zone == w.table[id].zone
  }

  /** The transaction takes the row to this state. */
  predicate OpBrings(t: Table, op: Op, now: int, id: Id, s: CommandState)
    requires id in t
  {
    match s
    case Applied => op == OpSettle(id, true) && t[id].state == Dispatched
    case Failed => op == OpSettle(id, false) && t[id].state == Dispatched
    case Cancelled => op == OpCancel(id) && t[id].state in {Pending, Dispatched}
    case Expired => op == OpExpire && t[id].state == Pending && t[id].expiresAt <= now
    case Superseded =>
      && t[id].state == Applied && now < t[id].effectiveUntil
      && op.OpSettle? && op.applied && op.id != id && op.id in t && t[op.id].state == Dispatched && t[op.id].zone == t[id].zone
    case _ => false
  }

  lemma OpBringsExactly(t: Table, op: Op, now: int, id: Id, s: CommandState)
    requires Possible(t, op, now) && id in t && t[id].state != s && s !in {Pending, Dispatched}
    ensures id in Do(t, op, now) && (Do(t, op, now)[id].state == s <==> OpBrings(t, op, now, id, s))
  {
    if op.OpClaim? && id in op.ids { assert Claimable(t, id, now); }
  }

  /** A step ends a command in a state exactly when it is the one cause of that state. */
  lemma StepBringsExactly(w: World, e: Event, id: Id, s: CommandState)
    requires id in w.table && w.table[id].state != s && s !in {Pending, Dispatched}
    ensures id in Next(w, e).table
    ensures Next(w, e).table[id].state == s <==> Brings(w, e, id, s)
  {
    hide Evaluate;
    hide Reads;
    hide Passed;
    hide NextProcs;
    hide Do;
    hide Possible;
    if Enabled(w, e) && TableOp(w, e).Some? {
      TableOpIsPossible(w, e);
      OpBringsExactly(w.table, TableOp(w, e).value, w.clock, id, s);
    }
  }

  ghost predicate BroughtIn(w: World, es: seq<Event>, id: Id, s: CommandState) {
    exists i :: 0 <= i < |es| && Brings(After(w, es[..i]), es[i], id, s)
  }

  lemma BroughtSplits(w: World, es: seq<Event>, id: Id, s: CommandState)
    requires es != []
    ensures var n := |es| - 1;
            BroughtIn(w, es, id, s) <==> BroughtIn(w, es[..n], id, s) || Brings(After(w, es[..n]), es[n], id, s)
  {
    hide Brings;
    hide After;
    var fs := es[..|es| - 1];
    if i :| 0 <= i < |fs| && Brings(After(w, fs[..i]), fs[i], id, s) { assert fs[..i] == es[..i] && fs[i] == es[i]; }
    if i :| 0 <= i < |es| && Brings(After(w, es[..i]), es[i], id, s) {
      if i < |fs| { assert fs[..i] == es[..i] && fs[i] == es[i]; }
    }
  }

  /** Whether the command is, or once was, in this state; an override that was replaced has been in force. */
  predicate Reached(t: Table, id: Id, s: CommandState) {
    id in t && (t[id].state == s || (s == Applied && t[id].state == Superseded))
  }

  /**
   Over every run, a command has failed, expired, been cancelled, applied or superseded exactly when the run brought
   the one cause of it: a report of failure or success while it was dispatched, a sweep after its expiry while it was
   pending, a cancellation while it was live, or the report of another command of its zone while it was in force.
   */
  lemma {:induction false} OutcomesHaveTheirCause(w: World, es: seq<Event>, id: Id, s: CommandState)
    requires !Reached(w.table, id, s) && s !in {Pending, Dispatched}
    ensures Reached(After(w, es).table, id, s) <==> BroughtIn(w, es, id, s)
  {
    hide Next;
    hide Brings;
    hide BroughtIn;
    if es == [] {
      NothingBrought(w, id, s);
    } else {
      var n := |es| - 1;
      var v := After(w, es[..n]);
      OutcomesHaveTheirCause(w, es[..n], id, s);
      BroughtSplits(w, es, id, s);
      if Reached(v.table, id, s) {
        NextEvolves(v, es[n], id);
      } else {
        NextReaches(v, es[n], id, s);
      }
    }
  }

  lemma NothingBrought(w: World, id: Id, s: CommandState)
    ensures !BroughtIn(w, [], id, s)
  {}

  lemma NextReaches(w: World, e: Event, id: Id, s: CommandState)
    requires !Reached(w.table, id, s) && s !in {Pending, Dispatched}
    ensures Reached(Next(w, e).table, id, s) <==> Brings(w, e, id, s)
  {
    hide Next;
    if id in w.table {
      StepBringsExactly(w, e, id, s);
      NextEvolves(w, e, id);
    } else if id in Next(w, e).table {
      NewRowsArePending(w, e, id);
    }
  }

  /**
   A report of failure on a dispatched command marks it failed, leaves every other row as it was and changes no zone's
   override.
   */
  lemma FailureChangesNothingElse(w: World, id: Id, zone: Zone, k: CommandFacts)
    requires id in w.table && w.table[id].state == Dispatched
    ensures var v := Next(w, Report(id, false));
            && v.table.Keys == w.table.Keys && v.table[id] == w.table[id].(state := Failed)
            && (forall x :: x in w.table && x != id ==> v.table[x] == w.table[x])
            && (Reads(w.table, zone, w.clock, k) ==>
                  exists j: CommandFacts :: Reads(v.table, zone, v.clock, j) && j.activeOverride == k.activeOverride && j.lastCommandAt == k.lastCommandAt)
  {
    hide Evaluate;
    var v := Next(w, Report(id, false));
    assert v.clock == w.clock;
    if Reads(w.table, zone, w.clock, k) { SameRowsRead(w.table, v.table, zone, w.clock, k); }
  }

  /** Rows that differ only in states not in force are read alike. */
  lemma SameRowsRead(t: Table, u: Table, zone: Zone, now: int, k: CommandFacts)
    requires t.Keys == u.Keys && Reads(t, zone, now, k)
    requires forall x :: x in t ==> u[x] == t[x].(state := u[x].state) && (Active(u[x], now) <==> Active(t[x], now))
    ensures Reads(u, zone, now, k.(inFlight := Busy(u, zone)))
  {
    if k.activeOverride.Some? {
      var x :| Overrides(t, zone, now, x) && t[x].setpoint == k.activeOverride.value;
      assert Overrides(u, zone, now, x);
    }
    if k.lastCommandAt.Some? {
      var x :| Newest(t, zone, x) && t[x].requestedAt == k.lastCommandAt.value;
      assert Newest(u, zone, x);
    }
  }

  /**
   A report of success applies the command, ends the overrides that were in force in its zone, and leaves every other row as
   it was; the zone's readers see its setpoint while it lasts.
   */
  lemma SuccessReplacesTheOverride(w: World, id: Id, k: CommandFacts)
    requires id in w.table && w.table[id].state == Dispatched
    ensures var v, zone := Next(w, Report(id, true)), w.table[id].zone;
            && v.table.Keys == w.table.Keys && v.table[id] == w.table[id].(state := Applied)
            && (forall x :: x in w.table && x != id ==>
                  v.table[x] == if w.table[x].zone == zone && w.table[x].state == Applied && w.clock < w.table[x].effectiveUntil
                                then w.table[x].(state := Superseded) else w.table[x])
            && (w.clock < w.table[id].effectiveUntil && Reads(v.table, zone, v.clock, k) ==> k.activeOverride == Some(w.table[id].setpoint))
  {
    hide Evaluate;
    var v, zone := Next(w, Report(id, true)), w.table[id].zone;
    assert v.clock == w.clock;
    if w.clock < w.table[id].effectiveUntil { assert Overrides(v.table, zone, v.clock, id); }
  }

  /** A command nobody has collected by its expiry can be collected no more, and the next sweep expires it. */
  lemma UncollectedCommandsLapse(w: World, id: Id, later: int)
    requires id in w.table && w.table[id].state == Pending && w.clock <= later && w.table[id].expiresAt <= later
    ensures var v := Next(w, Tick(later));
            && v.table == w.table && v.clock == later && !Claimable(v.table, id, v.clock)
            && Next(v, Sweep).table[id] == w.table[id].(state := Expired)
  {}
}
