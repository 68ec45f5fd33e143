/**
 What becomes of a stored command: it reaches a gateway while its zone is left alone, and once a
 gateway has it nothing but a report or a cancellation takes it back.
 */
module ControlDelivery {
  import opened Envelope
  import opened CommandStore
  import opened ControlService
  import opened ControlProtocol
  import opened OldestFirst
  import opened Wrappers

  predicate Concerns(e: Event, id: Id) { (e.Report? && e.id == id) || (e.CancelRow? && e.id == id) }

  // ----- a command that goes through -----

  /** The step edits neither the settings nor the zone, and neither reports nor cancels the command. */
  predicate Undisturbed(e: Event, zone: Zone, id: Id) {
    !e.EditSettings? && !(e.EditFacts? && e.zone == zone) && !Concerns(e, id)
  }

  /**
   The command is waiting or out, the rest of its zone's history is as it was, and polls under way hold the
   settings.
   */
  ghost predicate Waiting(w: World, v: World, id: Id)
    requires id in w.table
  {
    && Exclusive(v.table, v.clock) && w.clock <= v.clock
    && id in v.table && Live(v.table[id]) && v.table[id] == w.table[id].(state := v.table[id].state, attempts := v.table[id].attempts)
    && (forall x :: x in w.table ==> x in v.table && v.table[x].zone == w.table[x].zone)
    && (forall x :: x in v.table && x != id && v.table[x].zone == w.table[id].zone ==> x in w.table && v.table[x] == w.table[x])
    && v.settings == w.settings && FactsOf(v.facts, w.table[id].zone) == FactsOf(w.facts, w.table[id].zone)
    && PollsHold(v, w.settings)
  }

  ghost predicate PollsHold(w: World, s: Settings) {
    forall p :: p in w.procs && (w.procs[p].Polling? || w.procs[p].Rechecking?) ==> w.procs[p].settings == s
  }

  lemma NextPollsHold(w: World, e: Event)
    requires PollsHold(w, w.settings) && !e.EditSettings?
    ensures PollsHold(Next(w, e), w.settings)
  {
    hide Evaluate;
    hide Reads;
    hide NextTable;
    hide Passed;
  }

  /** A transaction that leaves a zone's live command alone touches no other row of the zone and adds none. */
  lemma DoLeavesZone(t: Table, op: Op, now: int, id: Id, x: Id)
    requires OneLive(t) && Possible(t, op, now) && id in t && Live(t[id]) && now < t[id].expiresAt
    requires !(op.OpSettle? && op.id == id) && !(op.OpCancel? && op.id == id)
    ensures id in Do(t, op, now) && Live(Do(t, op, now)[id])
    ensures x in Do(t, op, now) && x != id && Do(t, op, now)[x].zone == t[id].zone ==> x in t && Do(t, op, now)[x] == t[x]
  {
    assert Busy(t, t[id].zone);
    if x in t {
      StepEvolves(t, op, now, x);
      if x != id && t[x].zone == t[id].zone { assert !Live(t[x]); }
    } else if x in Do(t, op, now) {
      StepAddsOnlyPending(t, op, now, x);
    }
  }

  lemma NextLeavesZone(w: World, e: Event, id: Id, x: Id)
    requires Exclusive(w.table, w.clock) && id in w.table && Live(w.table[id]) && w.clock < w.table[id].expiresAt && !Concerns(e, id)
    ensures id in Next(w, e).table && Live(Next(w, e).table[id])
    ensures x in Next(w, e).table && x != id && Next(w, e).table[x].zone == w.table[id].zone ==> x in w.table && Next(w, e).table[x] == w.table[x]
  {
    hide Do;
    hide Possible;
    hide Evaluate;
    hide Reads;
    hide Passed;
    hide OneLive;
    hide OneActive;
    if Enabled(w, e) && TableOp(w, e).Some? {
      TableOpIsPossible(w, e);
      DoLeavesZone(w.table, TableOp(w, e).value, w.clock, id, x);
    }
  }

  lemma NextKeepsSurroundings(w: World, e: Event, zone: Zone, id: Id)
    requires Undisturbed(e, zone, id)
    ensures Next(w, e).settings == w.settings && FactsOf(Next(w, e).facts, zone) == FactsOf(w.facts, zone) && w.clock <= Next(w, e).clock
  {
    hide NextTable;
    hide NextProcs;
    hide Passed;
    hide Evaluate;
    hide Reads;
  }

  lemma NextKeepsWaiting(w: World, v: World, e: Event, id: Id)
    requires id in w.table && Waiting(w, v, id) && Undisturbed(e, w.table[id].zone, id) && v.clock < w.table[id].expiresAt
    ensures Waiting(w, Next(v, e), id)
  {
    hide Next;
    hide Exclusive;
    hide PollsHold;
    hide Undisturbed;
    var u, zone := Next(v, e), w.table[id].zone;
    NextKeepsExclusive(v, e);
    NextKeepsSurroundings(v, e, zone, id);
    assert !e.EditSettings? && !Concerns(e, id) by { UndisturbedMeans(e, zone, id); }
    NextPollsHold(v, e);
    NextEvolves(v, e, id);
    NextLeavesZone(v, e, id, id);
    forall x | x in w.table ensures x in u.table && u.table[x].zone == w.table[x].zone { NextEvolves(v, e, x); }
    forall x | x in u.table && x != id && u.table[x].zone == zone ensures x in w.table && u.table[x] == w.table[x] {
      NextLeavesZone(v, e, id, x);
    }
  }

  lemma UndisturbedMeans(e: Event, zone: Zone, id: Id)
    requires Undisturbed(e, zone, id)
    ensures !e.EditSettings? && !Concerns(e, id)
  {}

  ghost predicate UndisturbedRun(w: World, es: seq<Event>, id: Id)
    requires id in w.table
  {
    forall i :: 0 <= i < |es| ==> Undisturbed(es[i], w.table[id].zone, id)
  }

  lemma ClockRises(w: World, e: Event)
    ensures w.clock <= Next(w, e).clock
  {
    hide NextTable;
    hide NextProcs;
    hide Passed;
    hide Evaluate;
    hide Reads;
  }

  lemma {:induction false} RunKeepsWaiting(w: World, es: seq<Event>, id: Id)
    requires Exclusive(w.table, w.clock) && PollsHold(w, w.settings) && id in w.table && Live(w.table[id])
    requires UndisturbedRun(w, es, id) && After(w, es).clock < w.table[id].expiresAt
    ensures Waiting(w, After(w, es), id)
  {
    hide Exclusive;
    hide PollsHold;
    hide Next;
    hide Undisturbed;
    if es != [] {
      var fs := es[..|es| - 1];
      ClockRises(After(w, fs), es[|es| - 1]);
      RunKeepsWaiting(w, fs, id);
      NextKeepsWaiting(w, After(w, fs), es[|es| - 1], id);
    }
  }

  /** No override of the zone lapses by `now`. */
  predicate OverridesOutlast(t: Table, zone: Zone, clock: int, now: int) {
    forall x :: x in t && t[x].zone == zone && Active(t[x], clock) ==> now < t[x].effectiveUntil
  }

  lemma WaitingReadsTheSameOverride(w: World, v: World, id: Id, k: CommandFacts)
    requires id in w.table && Live(w.table[id]) && Waiting(w, v, id) && Exclusive(w.table, w.clock)
    requires OverridesOutlast(w.table, w.table[id].zone, w.clock, v.clock) && Reads(v.table, w.table[id].zone, v.clock, k)
    ensures k.activeOverride == OverrideOf(w.table, w.table[id].zone, w.clock)
  {
    var zone := w.table[id].zone;
    if x :| x in w.table && w.table[x].zone == zone && Active(w.table[x], w.clock) {
      assert x != id && v.table[x] == w.table[x] && Active(v.table[x], v.clock);
    } else {
      forall x | x in v.table && v.table[x].zone == zone ensures !Active(v.table[x], v.clock) {
        if x != id { assert !Active(w.table[x], w.clock); }
      }
    }
  }

  /**
   A stored command whose request the envelope accepts as things stand, followed through any run that leaves its zone
   and the settings alone and ends before the command or the zone's override lapses. Whenever it is pending any poll
   can claim it, and whenever a poll re-checks it, the poll lets it through exactly when the zone's reading is still
   fresh and its requester may still command.
   */
  lemma AcceptedIsLetThroughExactly(w: World, es: seq<Event>, id: Id, r: Request, c: Context, e: Event)
    requires Exclusive(w.table, w.clock) && PollsHold(w, w.settings) && Sane(w.settings)
    requires id in w.table && Live(w.table[id]) && w.table[id].setpoint == r.setpoint
    requires Evaluate(r, c).Accept? && c.settings == w.settings && c.zone == FactsOf(w.facts, w.table[id].zone)
    requires c.commands.activeOverride == OverrideOf(w.table, w.table[id].zone, w.clock)
    requires UndisturbedRun(w, es, id) && After(w, es).clock < w.table[id].expiresAt
    requires OverridesOutlast(w.table, w.table[id].zone, w.clock, After(w, es).clock)
    ensures var v := After(w, es);
            && id in v.table && Live(v.table[id]) && c.zone.feedback.Some?
            && (v.table[id].state == Pending ==> Claimable(v.table, id, v.clock))
            && (Rechecks(v, e) && RecheckId(v, e) == id ==>
                  (Next(v, e).procs[e.p].passed == v.procs[e.p].passed + [Handed(id, v.table[id], RecheckContext(v, e))]
                   <==> !Stale(c.zone.feedback.value, e.appNow) && MayCommand(e.role)))
  {
    hide Evaluate;
    hide Reads;
    hide Recheck;
    hide After;
    hide Next;
    hide Exclusive;
    hide OverridesOutlast;
    hide UndisturbedRun;
    var v := After(w, es);
    RunKeepsWaiting(w, es, id);
    AcceptedStaysAccepted(r, c, c.role, c.commands, 0);
    if Rechecks(v, e) && RecheckId(v, e) == id {
      WaitingReadsTheSameOverride(w, v, id, e.k);
      AcceptedStaysAccepted(r, c, e.role, e.k, e.appNow);
      RecheckLetsThrough(v, e);
    }
  }

  lemma RecheckLetsThrough(w: World, e: Event)
    requires Rechecks(w, e)
    ensures e.p in Next(w, e).procs && Next(w, e).procs[e.p].Rechecking?
    ensures Next(w, e).procs[e.p].passed == w.procs[e.p].passed + [HandedBy(w, e)] <==> Passed(w, e)
  {
    hide Reads;
    hide Recheck;
    PassesExactly(w, e);
  }

  // ----- a gateway that dies -----

  /** Nothing is left to decide about the command but its gateway's report: no poll still has to re-check it. */
  ghost predicate Orphaned(w: World, id: Id) {
    && Held(w.table, id)
    && forall p :: p in w.procs && w.procs[p].Rechecking? ==> id !in w.procs[p].todo
  }

  lemma DoLeavesHeld(t: Table, op: Op, now: int, id: Id)
    requires Held(t, id) && Possible(t, op, now)
    requires !(op.OpRelease? && op.id == id) && !(op.OpSettle? && op.id == id) && !(op.OpCancel? && op.id == id)
    ensures Held(Do(t, op, now), id)
  {
    if op.OpClaim? { assert !Claimable(t, id, now); }
  }

  lemma NextKeepsOrphan(w: World, e: Event, id: Id)
    requires Orphaned(w, id) && !Concerns(e, id)
    ensures Orphaned(Next(w, e), id)
  {
    hide Do;
    hide Possible;
    hide Evaluate;
    hide Reads;
    hide Passed;
    if Enabled(w, e) {
      if TableOp(w, e).Some? {
        TableOpIsPossible(w, e);
        DoLeavesHeld(w.table, TableOp(w, e).value, w.clock, id);
      }
      if e.ClaimBatch? { assert !Claimable(w.table, id, w.clock); }
    }
  }

  lemma ConcernEndsHold(w: World, e: Event, id: Id)
    requires Held(w.table, id) && Concerns(e, id)
    ensures id in Next(w, e).table && !Live(Next(w, e).table[id])
  {
    hide Reads;
    hide Evaluate;
  }

  lemma EndedStaysEnded(w: World, e: Event, id: Id)
    requires id in w.table && !Live(w.table[id])
    ensures id in Next(w, e).table && !Live(Next(w, e).table[id])
  {
    hide Next;
    NextEvolves(w, e, id);
  }

  /** The run brings neither a report on the command nor its cancellation. */
  ghost predicate Silent(es: seq<Event>, id: Id) { forall i :: 0 <= i < |es| ==> !Concerns(es[i], id) }

  lemma {:induction false} OrphanUntilConcerned(w: World, es: seq<Event>, id: Id)
    requires Orphaned(w, id)
    ensures Silent(es, id) ==> Orphaned(After(w, es), id)
    ensures !Silent(es, id) ==> id in After(w, es).table && !Live(After(w, es).table[id])
  {
    hide Orphaned;
    hide Next;
    hide Concerns;
    if es != [] {
      var fs, e := es[..|es| - 1], es[|es| - 1];
      var v := After(w, fs);
      OrphanUntilConcerned(w, fs, id);
      assert Silent(es, id) <==> Silent(fs, id) && !Concerns(e, id) by {
        assert es == fs + [e];
      }
      if Silent(fs, id) {
        if Concerns(e, id) {
          OrphanIsHeld(v, id);
          ConcernEndsHold(v, e, id);
        } else {
          NextKeepsOrphan(v, e, id);
        }
      } else {
        EndedStaysEnded(v, e, id);
      }
    }
  }

  lemma OrphanIsHeld(w: World, id: Id)
    requires Orphaned(w, id)
    ensures Held(w.table, id)
  {}

  /**
   A dispatched command has no lease. It is still dispatched after a run, however long, exactly when the run brought
   neither a report on it nor its cancellation; and while it is, every insert for its zone is refused.
   */
  lemma DispatchedHasNoLease(w: World, es: seq<Event>, id: Id, n: NewCommand)
    requires Orphaned(w, id)
    ensures Held(After(w, es).table, id) <==> Silent(es, id)
    ensures Silent(es, id) && n.zone == w.table[id].zone ==> !InsertResult(After(w, es).table, n).Inserted?
  {
    hide After;
    hide Silent;
    OrphanUntilConcerned(w, es, id);
    FinalStatesAreFinal(w, es, id);
    if Silent(es, id) {
      assert After(w, es).table[id].zone == w.table[id].zone && Live(After(w, es).table[id]);
    }
  }

  /** A request from its first step to a poll that claims its row and dies before it has re-checked it. */
  function ToAnOrphan(zone: Zone, user: nat, r: Request, role: Role, k: CommandFacts, appNow: int, p: nat, id: Id): seq<Event> {
    Ask(zone, user, r, role, k, appNow, p) + [InsertRow(p, id), StartPoll(p)] + [ClaimBatch(p, [id]), Crash(p)]
  }

  lemma ClaimAndDie(w: World, p: nat, id: Id)
    requires p in w.procs && w.procs[p].Polling? && Claimable(w.table, id, w.clock)
    requires forall q :: q in w.procs && w.procs[q].Rechecking? ==> id !in w.procs[q].todo
    ensures Orphaned(After(w, [ClaimBatch(p, [id]), Crash(p)]), id)
  {
    AfterTwo(w, ClaimBatch(p, [id]), Crash(p));
    assert id in (set i | i in [id]);
  }

  /**
   Orphans arise: any world, a fresh one for instance, in which a storable request is accepted has a run that
   ends with its command dispatched and nobody to report on it.
   */
  lemma OrphansArise(w: World, zone: Zone, user: nat, r: Request, role: Role, k: CommandFacts, appNow: int, n: NewCommand, p: nat, id: Id)
    requires p !in w.procs && id !in w.table && Accepts(w, zone, user, r, role, k, appNow, n) && Storable(n) && w.clock < n.expiresAt
    requires forall q :: q in w.procs && w.procs[q].Rechecking? ==> id !in w.procs[q].todo
    ensures Orphaned(After(w, ToAnOrphan(zone, user, r, role, k, appNow, p, id)), id)
  {
    hide After;
    hide Orphaned;
    hide Accepts;
    var ask := Ask(zone, user, r, role, k, appNow, p);
    AskIsAccepted(w, zone, user, r, role, k, appNow, p, n);
    AcceptedIsNotBusy(w, zone, user, r, role, k, appNow, n);
    AcceptedIsEnabled(w, zone, user, r, role, k, appNow, n);
    var a := After(w, ask);
    InsertFree(a, p, id, n);
    AfterTwo(a, InsertRow(p, id), StartPoll(p));
    var b := After(a, [InsertRow(p, id), StartPoll(p)]);
    StartsPolling(Next(a, InsertRow(p, id)), p);
    ClaimAndDie(b, p, id);
    AfterConcat(w, ask, [InsertRow(p, id), StartPoll(p)]);
    AfterConcat(w, ask + [InsertRow(p, id), StartPoll(p)], [ClaimBatch(p, [id]), Crash(p)]);
  }

  lemma StartsPolling(w: World, p: nat)
    requires p !in w.procs && w.settings.enabled
    ensures Next(w, StartPoll(p)) == WithProc(w, p, Polling(w.settings))
  {}

  lemma AcceptedIsEnabled(w: World, zone: Zone, user: nat, r: Request, role: Role, k: CommandFacts, appNow: int, n: NewCommand)
    requires Accepts(w, zone, user, r, role, k, appNow, n)
    ensures w.settings.enabled
  {}
}
