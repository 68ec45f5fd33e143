/**
 Supervisory control as a protocol: operators, gateway polls, reports, cancellations, settings and
 zone edits and a moving clock, interleaved at the granularity of single database transactions
 (apps/ingest/src/control/service.ts over apps/ingest/src/control/store.ts). A request's reads and
 its insert are separate steps, and so are a poll's settings read, its claim and each re-check.
 */
module ControlProtocol {
  import opened Envelope
  import opened CommandStore
  import opened ControlService
  import opened OldestFirst
  import opened Wrappers

  /** What one context query returned; `known` holds the commands that were in the table it read. */
  datatype Seen = Seen(facts: ZoneFacts, commands: CommandFacts, known: set<Id>)

  /**
   What an accepted request rested on: the table it read, the newest command of its zone there, its worker's
   clock and the spacing asked for.
   */
  datatype Basis = Basis(known: set<Id>, last: Option<int>, decidedAt: int, minIntervalS: int)

  /** A command on its way to a gateway, and what its re-check looked at. */
  datatype Handed = Handed(id: Id, command: Command, context: Context)

  /**
   A request or a poll between two of its transactions. A poll answers its gateway once, with all that passed, when
   nothing is left to re-check.
   */
  datatype Proc =
    | Asking(zone: Zone, limits: Option<Settings>, seen: Option<Seen>)
    | Inserting(n: NewCommand, basis: Basis)
    | Polling(settings: Settings)
    | Rechecking(settings: Settings, passed: seq<Handed>, todo: seq<Id>)

  datatype World = World(
    clock: int, table: Table, settings: Settings, facts: map<Zone, ZoneFacts>, procs: map<nat, Proc>, handed: seq<Handed>)

  /**
   `appNow` is a worker's own clock, which need not agree with the database's. `Crash` is also a process whose next
   call throws: a poll that does answers nothing.
   */
  datatype Event =
    | StartIssue(p: nat, zone: Zone)
    | ReadSettings(p: nat)
    | ReadZone(p: nat, k: CommandFacts)
    | Decide(p: nat, user: nat, r: Request, role: Role, appNow: int)
    | InsertRow(p: nat, id: Id)
    | Sweep
    | StartPoll(p: nat)
    | ClaimBatch(p: nat, ids: seq<Id>)
    | RecheckNext(p: nat, k: CommandFacts, role: Role, appNow: int)
    | HandOver(p: nat)
    | Crash(p: nat)
    | Report(id: Id, applied: bool)
    | CancelRow(id: Id)
    | EditSettings(s: Settings)
    | EditFacts(zone: Zone, f: ZoneFacts)
    | Tick(later: int)

  // ----- one step -----

  ghost predicate Enabled(w: World, e: Event) {
    match e
    case StartIssue(p, _) => p !in w.procs
    case ReadSettings(p) => p in w.procs && w.procs[p].Asking?
    case ReadZone(p, k) => p in w.procs && w.procs[p].Asking? && Reads(w.table, w.procs[p].zone, w.clock, k)
    case Decide(p, _, _, _, _) => p in w.procs && w.procs[p].Asking? && w.procs[p].limits.Some? && w.procs[p].seen.Some?
    case InsertRow(p, id) => p in w.procs && w.procs[p].Inserting? && id !in w.table
    case StartPoll(p) => p !in w.procs && w.settings.enabled
    case ClaimBatch(p, ids) =>
      p in w.procs && w.procs[p].Polling? && Distinct(ids) && forall id :: id in ids ==> Claimable(w.table, id, w.clock)
    case RecheckNext(p, k, _, _) =>
      p in w.procs && w.procs[p].Rechecking? && w.procs[p].todo != [] && w.procs[p].todo[0] in w.table
      && Reads(w.table, w.table[w.procs[p].todo[0]].zone, w.clock, k)
    case HandOver(p) => p in w.procs && w.procs[p].Rechecking? && w.procs[p].todo == []
    case Crash(p) => p in w.procs
    case EditSettings(s) => Sane(s)
    case Tick(later) => w.clock <= later
    case _ => true
  }

  function AskContext(w: World, e: Event): Context
    requires e.Decide? && e.p in w.procs && w.procs[e.p].Asking? && w.procs[e.p].limits.Some? && w.procs[e.p].seen.Some?
  {
    var a := w.procs[e.p];
    Context(a.limits.value, e.role, a.seen.value.facts, a.seen.value.commands, e.appNow)
  }

  function BasisOf(w: World, e: Event): Basis
    requires e.Decide? && e.p in w.procs && w.procs[e.p].Asking? && w.procs[e.p].limits.Some? && w.procs[e.p].seen.Some?
  {
    var a := w.procs[e.p];
    Basis(a.seen.value.known, a.seen.value.commands.lastCommandAt, e.appNow, a.limits.value.minIntervalS)
  }

  ghost predicate Rechecks(w: World, e: Event) { e.RecheckNext? && Enabled(w, e) }

  /** The command a re-check looks at, and everything it looks at. */
  ghost function RecheckId(w: World, e: Event): Id
    requires Rechecks(w, e)
  {
    w.procs[e.p].todo[0]
  }

  ghost function RecheckContext(w: World, e: Event): Context
    requires Rechecks(w, e)
  {
    Context(w.procs[e.p].settings, e.role, FactsOf(w.facts, w.table[RecheckId(w, e)].zone), e.k, e.appNow)
  }

  ghost predicate Passed(w: World, e: Event)
    requires Rechecks(w, e)
  {
    Recheck(w.table[RecheckId(w, e)].setpoint, RecheckContext(w, e)).Accept?
  }

  /** The record of a re-check. */
  ghost function HandedBy(w: World, e: Event): Handed
    requires Rechecks(w, e)
  {
    Handed(RecheckId(w, e), w.table[RecheckId(w, e)], RecheckContext(w, e))
  }

  /** The table transaction a step performs, if it performs one. */
  ghost function TableOp(w: World, e: Event): Option<Op>
    requires Enabled(w, e)
  {
    match e
    case InsertRow(p, id) => Some(OpInsert(id, w.procs[p].n))
    case Sweep => Some(OpExpire)
    case ClaimBatch(_, ids) => Some(OpClaim(set id | id in ids))
    case RecheckNext(_, _, _, _) => if Passed(w, e) then None else Some(OpRelease(RecheckId(w, e)))
    case Report(id, applied) => Some(OpSettle(id, applied))
    case CancelRow(id) => Some(OpCancel(id))
    case _ => None
  }

  ghost function NextTable(w: World, e: Event): Table
    requires Enabled(w, e)
  {
    match TableOp(w, e)
    case None => w.table
    case Some(op) => Do(w.table, op, w.clock)
  }

  ghost function NextProcs(w: World, e: Event): map<nat, Proc>
    requires Enabled(w, e)
  {
    match e
    case StartIssue(p, zone) => w.procs[p := Asking(zone, None, None)]
    case ReadSettings(p) => w.procs[p := w.procs[p].(limits := Some(w.settings))]
    case ReadZone(p, k) => w.procs[p := w.procs[p].(seen := Some(Seen(FactsOf(w.facts, w.procs[p].zone), k, w.table.Keys)))]
    case Decide(p, user, r, _, _) =>
      var v := Evaluate(r, AskContext(w, e));
      if v.Accept? then w.procs[p := Inserting(RowFor(w.procs[p].zone, user, r, v), BasisOf(w, e))] else w.procs - {p}
    case InsertRow(p, _) => w.procs - {p}
    case StartPoll(p) => w.procs[p := Polling(w.settings)]
    case ClaimBatch(p, ids) => w.procs[p := Rechecking(w.procs[p].settings, [], ids)]
    case RecheckNext(p, _, _, _) =>
      var q := w.procs[p];
      w.procs[p := q.(passed := if Passed(w, e) then q.passed + [HandedBy(w, e)] else q.passed, todo := q.todo[1..])]
    case HandOver(p) => w.procs - {p}
    case Crash(p) => w.procs - {p}
    case _ => w.procs
  }

  ghost function Next(w: World, e: Event): World {
    if !Enabled(w, e) then w
    else
      World(
        if e.Tick? then e.later else w.clock,
        NextTable(w, e),
        if e.EditSettings? then e.s else w.settings,
        if e.EditFacts? then w.facts[e.zone := e.f] else w.facts,
        NextProcs(w, e),
        if e.HandOver? then w.handed + w.procs[e.p].passed else w.handed)
  }

  /** The world after any list of events; one that is not enabled when its turn comes does nothing. */
  ghost function After(w: World, es: seq<Event>): World {
    if es == [] then w else Next(After(w, es[..|es| - 1]), es[|es| - 1])
  }

  lemma TableOpIsPossible(w: World, e: Event)
    requires Enabled(w, e) && TableOp(w, e).Some?
    ensures Possible(w.table, TableOp(w, e).value, w.clock)
  {}

  // ----- exclusivity -----

  lemma NextKeepsExclusive(w: World, e: Event)
    requires Exclusive(w.table, w.clock)
    ensures Exclusive(Next(w, e).table, Next(w, e).clock)
  {
    hide Exclusive;
    hide Do;
    hide Possible;
    hide Evaluate;
    if Enabled(w, e) {
      if TableOp(w, e).Some? {
        TableOpIsPossible(w, e);
        StepKeepsExclusive(w.table, TableOp(w, e).value, w.clock);
      }
      if e.Tick? { ClockKeepsExclusive(w.table, w.clock, e.later); }
    }
  }

  /**
   In every interleaving, each zone has at most one pending or dispatched command and at most one override in
   force.
   */
  lemma {:induction false} AlwaysExclusive(w: World, es: seq<Event>)
    requires Exclusive(w.table, w.clock)
    ensures Exclusive(After(w, es).table, After(w, es).clock)
  {
    hide Exclusive;
    hide Next;
    if es != [] {
      AlwaysExclusive(w, es[..|es| - 1]);
      NextKeepsExclusive(After(w, es[..|es| - 1]), es[|es| - 1]);
    }
  }

  // ----- the lifecycle -----

  /**
   Every step of every run keeps each row and moves it only along the lifecycle; in particular it collects a
   command only before the command's expiry, however often it was withheld.
   */
  lemma NextEvolves(w: World, e: Event, id: Id)
    requires id in w.table
    ensures id in Next(w, e).table && Evolves(w.table[id], Next(w, e).table[id], w.clock)
  {
    hide Do;
    hide Possible;
    hide Evaluate;
    if Enabled(w, e) && TableOp(w, e).Some? {
      TableOpIsPossible(w, e);
      StepEvolves(w.table, TableOp(w, e).value, w.clock, id);
    }
  }

  lemma NewRowsArePending(w: World, e: Event, id: Id)
    requires id !in w.table && id in Next(w, e).table
    ensures Next(w, e).table[id].state == Pending && Next(w, e).table[id].attempts == 0
    ensures Next(w, e).table[id].requestedAt == w.clock
    ensures e.InsertRow?
  {
    hide Do;
    hide Evaluate;
    StepAddsOnlyPending(w.table, TableOp(w, e).value, w.clock, id);
  }

  /**
   Failed, expired, cancelled and superseded commands stay exactly as they are; no command ever changes its zone,
   setpoint, times or requester.
   */
  lemma {:induction false} FinalStatesAreFinal(w: World, es: seq<Event>, id: Id)
    requires id in w.table
    ensures id in After(w, es).table
    ensures var c, d := w.table[id], After(w, es).table[id];
            && d == c.(state := d.state, attempts := d.attempts)
            && (Final(c.state) ==> d == c)
            && (c.state == Applied ==> d.state in {Applied, Superseded})
  {
    hide Next;
    if es != [] {
      var v, e := After(w, es[..|es| - 1]), es[|es| - 1];
      FinalStatesAreFinal(w, es[..|es| - 1], id);
      NextEvolves(v, e, id);
    }
  }

  predicate Held(t: Table, id: Id) { id in t && t[id].state == Dispatched }

  /** How often the command went out to a gateway during a run. */
  ghost function Collections(w: World, es: seq<Event>, id: Id): nat {
    if es == [] then 0
    else
      var v := After(w, es[..|es| - 1]);
      Collections(w, es[..|es| - 1], id) + (if !Held(v.table, id) && Held(After(w, es).table, id) then 1 else 0)
  }

  /** `attempts` is the number of times the command went out. */
  lemma {:induction false} AttemptsCountCollections(w: World, es: seq<Event>, id: Id)
    requires id in After(w, es).table
    ensures After(w, es).table[id].attempts == (if id in w.table then w.table[id].attempts else 0) + Collections(w, es, id)
  {
    hide Next;
    if es != [] {
      var v, e := After(w, es[..|es| - 1]), es[|es| - 1];
      if id in v.table {
        AttemptsCountCollections(w, es[..|es| - 1], id);
        NextEvolves(v, e, id);
      } else {
        NewRowsArePending(v, e, id);
        NeverHeld(w, es[..|es| - 1], id);
      }
    }
  }

  lemma {:induction false} NeverHeld(w: World, es: seq<Event>, id: Id)
    requires id !in After(w, es).table
    ensures id !in w.table && Collections(w, es, id) == 0
  {
    hide Next;
    if es != [] {
      var v, e := After(w, es[..|es| - 1]), es[|es| - 1];
      if id in v.table { NextEvolves(v, e, id); }
      NeverHeld(w, es[..|es| - 1], id);
    }
  }

  // ----- the setpoint in force -----

  /** A deviation limit never exceeded and, per zone, the one baseline its profile ever gives. */
  datatype Bound = Bound(maxDeviationK: real, baselines: map<Zone, real>)

  predicate FactsWithin(f: ZoneFacts, zone: Zone, b: Bound) {
    f.baseline.None? || (zone in b.baselines && f.baseline.value == b.baselines[zone])
  }

  predicate SetpointWithin(setpoint: real, zone: Zone, b: Bound) {
    zone in b.baselines && Near(setpoint, b.baselines[zone], b.maxDeviationK + ROUNDING)
  }

  predicate ProcWithin(q: Proc, b: Bound) {
    match q
    case Asking(zone, limits, seen) =>
      (limits.Some? ==> limits.value.maxDeviationK <= b.maxDeviationK) && (seen.Some? ==> FactsWithin(seen.value.facts, zone, b))
    case Inserting(n, _) => SetpointWithin(n.setpoint, n.zone, b)
    case _ => true
  }

  predicate EventWithin(e: Event, b: Bound) {
    match e
    case EditSettings(s) => s.maxDeviationK <= b.maxDeviationK
    case EditFacts(zone, f) => FactsWithin(f, zone, b)
    case _ => true
  }

  predicate TableWithin(t: Table, b: Bound) {
    forall id :: id in t ==> SetpointWithin(t[id].setpoint, t[id].zone, b)
  }

  ghost predicate Within(w: World, b: Bound) {
    && w.settings.maxDeviationK <= b.maxDeviationK
    && (forall zone :: zone in w.facts ==> FactsWithin(w.facts[zone], zone, b))
    && TableWithin(w.table, b)
    && forall p :: p in w.procs ==> ProcWithin(w.procs[p], b)
  }

  lemma AcceptedIsWithin(r: Request, c: Context, zone: Zone, b: Bound)
    requires Evaluate(r, c).Accept? && c.settings.maxDeviationK <= b.maxDeviationK && FactsWithin(c.zone, zone, b)
    ensures SetpointWithin(r.setpoint, zone, b)
  {}

  lemma DoKeepsWithin(t: Table, op: Op, now: int, b: Bound)
    requires TableWithin(t, b) && Possible(t, op, now) && (op.OpInsert? ==> SetpointWithin(op.n.setpoint, op.n.zone, b))
    ensures TableWithin(Do(t, op, now), b)
  {
    hide SetpointWithin;
    hide Possible;
    hide Do;
    forall id | id in Do(t, op, now) ensures SetpointWithin(Do(t, op, now)[id].setpoint, Do(t, op, now)[id].zone, b) {
      if id in t { StepEvolves(t, op, now, id); } else { StepAddsOnlyPending(t, op, now, id); }
    }
  }

  lemma NextTableWithin(w: World, e: Event, b: Bound)
    requires Within(w, b) && Enabled(w, e)
    ensures TableWithin(NextTable(w, e), b)
  {
    hide Do;
    hide Possible;
    hide SetpointWithin;
    hide TableWithin;
    hide Evaluate;
    hide Reads;
    if TableOp(w, e).Some? {
      TableOpIsPossible(w, e);
      DoKeepsWithin(w.table, TableOp(w, e).value, w.clock, b);
    }
  }

  lemma NextProcsWithin(w: World, e: Event, b: Bound)
    requires Within(w, b) && Enabled(w, e)
    ensures forall p :: p in NextProcs(w, e) ==> ProcWithin(NextProcs(w, e)[p], b)
  {
    hide SetpointWithin;
    hide TableWithin;
    hide Evaluate;
    hide Reads;
    if e.Decide? && Evaluate(e.r, AskContext(w, e)).Accept? {
      assert ProcWithin(w.procs[e.p], b);
      AcceptedIsWithin(e.r, AskContext(w, e), w.procs[e.p].zone, b);
    }
  }

  lemma NextKeepsWithin(w: World, e: Event, b: Bound)
    requires Within(w, b) && EventWithin(e, b)
    ensures Within(Next(w, e), b)
  {
    hide TableWithin;
    hide ProcWithin;
    hide FactsWithin;
    hide NextTable;
    hide NextProcs;
    hide Enabled;
    if Enabled(w, e) {
      NextTableWithin(w, e, b);
      NextProcsWithin(w, e, b);
    }
  }

  lemma {:induction false} AlwaysWithin(w: World, es: seq<Event>, b: Bound)
    requires Within(w, b) && forall i :: 0 <= i < |es| ==> EventWithin(es[i], b)
    ensures Within(After(w, es), b)
  {
    hide Within;
    hide Next;
    hide EventWithin;
    if es != [] {
      AlwaysWithin(w, es[..|es| - 1], b);
      NextKeepsWithin(After(w, es[..|es| - 1]), es[|es| - 1], b);
    }
  }

  /** The setpoint a zone works to: the override in force, else its profile's. */
  function InForce(k: CommandFacts, baseline: real): real {
    match k.activeOverride
    case Some(v) => v
    case None => baseline
  }

  /**
   Whatever the interleaving, the setpoint in force stays within the deviation limit of the zone's baseline, as
   long as no settings edit exceeds that limit and no profile changes its baseline.
   */
  lemma SetpointInForceIsBounded(w: World, es: seq<Event>, b: Bound, zone: Zone, k: CommandFacts)
    requires Within(w, b) && b.maxDeviationK >= 0.0 && forall i :: 0 <= i < |es| ==> EventWithin(es[i], b)
    requires zone in b.baselines && Reads(After(w, es).table, zone, After(w, es).clock, k)
    ensures Near(InForce(k, b.baselines[zone]), b.baselines[zone], b.maxDeviationK + ROUNDING)
  {
    hide After;
    AlwaysWithin(w, es, b);
    var t := After(w, es).table;
    if k.activeOverride.Some? {
      var id :| Overrides(t, zone, After(w, es).clock, id) && t[id].setpoint == k.activeOverride.value;
      assert SetpointWithin(t[id].setpoint, t[id].zone, b);
    }
  }

  /** What is edited into a zone is what its requests and re-checks read from then on, and no other zone's facts change. */
  lemma EditedFactsAreRead(w: World, zone: Zone, f: ZoneFacts, p: nat, k: CommandFacts)
    requires p in w.procs && w.procs[p].Asking? && Reads(w.table, w.procs[p].zone, w.clock, k)
    ensures var v := Next(w, EditFacts(zone, f));
            && Enabled(v, ReadZone(p, k)) && p in Next(v, ReadZone(p, k)).procs && Next(v, ReadZone(p, k)).procs[p].Asking?
            && Next(v, ReadZone(p, k)).procs[p].seen
               == Some(Seen(if w.procs[p].zone == zone then f else FactsOf(w.facts, w.procs[p].zone), k, w.table.Keys))
  {
    hide Reads;
  }

  /** Settings are read anew by every request and every poll; switched off, no poll gets as far as a claim. */
  lemma EditedSettingsAreRead(w: World, s: Settings, p: nat)
    requires Sane(s)
    ensures var v := Next(w, EditSettings(s));
            && (p !in w.procs ==> if s.enabled then Next(v, StartPoll(p)).procs == w.procs[p := Polling(s)] else Next(v, StartPoll(p)) == v)
            && (p in w.procs && w.procs[p].Asking? ==>
                  Next(v, ReadSettings(p)).procs == w.procs[p := w.procs[p].(limits := Some(s))])
  {}

  // ----- what reaches a gateway -----

  const WORLD_RULES: set<Refusal> :=
    {ForbiddenRole, ControlDisabled, NoBaseline, EquipmentUnavailable, FeedbackUnusable, OutsideEnvelope, StepTooLarge, NoChange}

  ghost predicate Safe(h: Handed) {
    forall q :: q in WORLD_RULES ==> !Violated(q, Request(h.command.setpoint, None), h.context)
  }

  ghost predicate ProcSane(q: Proc) {
    match q
    case Polling(settings) => Sane(settings)
    case Rechecking(settings, passed, _) => Sane(settings) && forall i :: 0 <= i < |passed| ==> Safe(passed[i])
    case _ => true
  }

  ghost predicate HandsOutSafely(w: World) {
    && Sane(w.settings) && (forall p :: p in w.procs ==> ProcSane(w.procs[p]))
    && forall i :: 0 <= i < |w.handed| ==> Safe(w.handed[i])
  }

  lemma NextProcsSane(w: World, e: Event)
    requires HandsOutSafely(w) && Enabled(w, e)
    ensures forall p :: p in NextProcs(w, e) ==> ProcSane(NextProcs(w, e)[p])
  {
    hide Safe;
    hide Sane;
    hide Evaluate;
    hide Reads;
    hide Passed;
    if e.ClaimBatch? || e.RecheckNext? { assert ProcSane(w.procs[e.p]); }
    if Rechecks(w, e) && Passed(w, e) { PassedIsSafe(w, e); }
  }

  lemma PassedIsSafe(w: World, e: Event)
    requires HandsOutSafely(w) && Rechecks(w, e) && Passed(w, e)
    ensures Safe(HandedBy(w, e))
  {
    hide Evaluate;
    hide Violated;
    hide Reads;
    assert ProcSane(w.procs[e.p]);
    RecheckPassesExactly(w.table[RecheckId(w, e)].setpoint, RecheckContext(w, e));
  }

  lemma NextHandsOutSafely(w: World, e: Event)
    requires HandsOutSafely(w)
    ensures HandsOutSafely(Next(w, e))
  {
    hide Safe;
    hide Passed;
    hide NextProcs;
    hide NextTable;
    hide Reads;
    if Enabled(w, e) {
      NextProcsSane(w, e);
      if e.HandOver? { assert ProcSane(w.procs[e.p]); }
    }
  }

  /**
   Every command any poll ever hands out had a requester who may command, control enabled, equipment available, a
   usable reading, and a setpoint within deviation and step limits, in the settings that poll read and the zone
   it saw.
   */
  lemma {:induction false} HandedCommandsAreSafe(w: World, es: seq<Event>)
    requires HandsOutSafely(w)
    ensures HandsOutSafely(After(w, es))
  {
    hide HandsOutSafely;
    hide Next;
    if es != [] {
      HandedCommandsAreSafe(w, es[..|es| - 1]);
      NextHandsOutSafely(After(w, es[..|es| - 1]), es[|es| - 1]);
    }
  }

  /**
   A re-check lets a command through exactly when the envelope accepts it as things stand at that very moment: the
   settings its poll had read, the zone and the table as they are now.
   */
  lemma PassesExactly(w: World, e: Event)
    requires Rechecks(w, e)
    ensures var q, h := w.procs[e.p], HandedBy(w, e);
            && h.id == q.todo[0] && h.command == w.table[h.id] && h.context.settings == q.settings
            && h.context.zone == FactsOf(w.facts, h.command.zone) && Reads(w.table, h.command.zone, w.clock, h.context.commands)
            && Next(w, e).procs == w.procs[e.p := Next(w, e).procs[e.p]] && Next(w, e).handed == w.handed
            && (if Recheck(h.command.setpoint, h.context).Accept?
                then Next(w, e).procs[e.p] == Rechecking(q.settings, q.passed + [h], q.todo[1..]) && Next(w, e).table == w.table
                else Next(w, e).procs[e.p] == Rechecking(q.settings, q.passed, q.todo[1..]) && Next(w, e).table == Release(w.table, h.id))
  {
    hide Evaluate;
    hide Reads;
  }

  /** Some re-check of the run let the command through and recorded this. */
  ghost predicate PassedIn(w: World, es: seq<Event>, h: Handed) {
    exists i :: 0 <= i < |es| && PassesAt(After(w, es[..i]), es[i], h)
  }

  ghost predicate PassesAt(w: World, e: Event, h: Handed) { Rechecks(w, e) && Passed(w, e) && HandedBy(w, e) == h }

  /** The command's record is in an answer given or being put together. */
  ghost predicate Answered(w: World, h: Handed) {
    h in w.handed || exists p :: p in w.procs && w.procs[p].Rechecking? && h in w.procs[p].passed
  }

  lemma NextAnswers(w: World, e: Event, h: Handed)
    requires Answered(Next(w, e), h)
    ensures Answered(w, h) || PassesAt(w, e, h)
  {
    hide Evaluate;
    hide Reads;
    hide Passed;
    hide NextTable;
  }

  /** Nothing is in an answer, given or not, that a re-check of the run did not let through. */
  lemma {:induction false} HandedIsRechecked(w: World, es: seq<Event>, h: Handed)
    requires Answered(After(w, es), h) && !Answered(w, h)
    ensures PassedIn(w, es, h)
  {
    hide Answered;
    hide PassesAt;
    hide Next;
    if es != [] {
      var n := |es| - 1;
      NextAnswers(After(w, es[..n]), es[n], h);
      if Answered(After(w, es[..n]), h) {
        HandedIsRechecked(w, es[..n], h);
        var i :| 0 <= i < n && PassesAt(After(w, es[..n][..i]), es[..n][i], h);
        assert es[..n][..i] == es[..i];
      }
    }
  }

  // ----- runs from a fresh start -----

  ghost predicate Fresh(w: World) { w.table == map[] && w.procs == map[] && w.handed == [] && Sane(w.settings) }

  /**
   Everything above holds of every run from an empty table. With fixed settings and baselines, the setpoint in
   force in a zone is never further than the limit from its baseline.
   */
  lemma FreshRunsAreSafe(w: World, es: seq<Event>, zone: Zone, k: CommandFacts)
    requires Fresh(w) && zone in w.facts && w.facts[zone].baseline.Some?
    requires forall i :: 0 <= i < |es| ==> !es[i].EditSettings? && !es[i].EditFacts?
    requires Reads(After(w, es).table, zone, After(w, es).clock, k)
    ensures Exclusive(After(w, es).table, After(w, es).clock)
    ensures HandsOutSafely(After(w, es))
    ensures var b := w.facts[zone].baseline.value;
            Near(InForce(k, b), b, w.settings.maxDeviationK + ROUNDING)
  {
    hide After;
    hide Reads;
    AlwaysExclusive(w, es);
    HandedCommandsAreSafe(w, es);
    var b := Bound(w.settings.maxDeviationK, map z | z in w.facts && w.facts[z].baseline.Some? :: w.facts[z].baseline.value);
    assert Within(w, b);
    SetpointInForceIsBounded(w, es, b, zone, k);
  }

  // ----- scripts -----

  lemma {:induction false} AfterConcat(w: World, es: seq<Event>, fs: seq<Event>)
    ensures After(w, es + fs) == After(After(w, es), fs)
    decreases |fs|
  {
    hide Next;
    if fs == [] {
      assert es + fs == es;
    } else {
      AfterConcat(w, es, fs[..|fs| - 1]);
      assert (es + fs)[..|es + fs| - 1] == es + fs[..|fs| - 1];
    }
  }

  lemma AfterOne(w: World, e: Event)
    ensures After(w, [e]) == Next(w, e)
  {
    hide Next;
    assert [e][..0] == [];
  }

  lemma AfterTwo(w: World, e: Event, f: Event)
    ensures After(w, [e, f]) == Next(Next(w, e), f)
  {
    hide Next;
    assert [e, f] == [e] + [f];
    AfterConcat(w, [e], [f]);
    AfterOne(w, e);
    AfterOne(Next(w, e), f);
  }

  ghost function WithProc(w: World, p: nat, q: Proc): World { w.(procs := w.procs[p := q]) }

  /** The steps of one request up to the point where only its insert is left. */
  function Ask(zone: Zone, user: nat, r: Request, role: Role, k: CommandFacts, appNow: int, p: nat): seq<Event> {
    [StartIssue(p, zone), ReadSettings(p), ReadZone(p, k), Decide(p, user, r, role, appNow)]
  }

  /** The request is accepted by a worker that reads settings and zone in this world, and its row is `n`. */
  ghost predicate Accepts(w: World, zone: Zone, user: nat, r: Request, role: Role, k: CommandFacts, appNow: int, n: NewCommand) {
    && Reads(w.table, zone, w.clock, k)
    && var v := Evaluate(r, Context(w.settings, role, FactsOf(w.facts, zone), k, appNow));
       v.Accept? && n == RowFor(zone, user, r, v)
  }

  lemma AskIsAccepted(w: World, zone: Zone, user: nat, r: Request, role: Role, k: CommandFacts, appNow: int, p: nat, n: NewCommand)
    requires p !in w.procs && Accepts(w, zone, user, r, role, k, appNow, n)
    ensures After(w, Ask(zone, user, r, role, k, appNow, p))
            == WithProc(w, p, Inserting(n, Basis(w.table.Keys, k.lastCommandAt, appNow, w.settings.minIntervalS)))
  {
    hide After;
    hide Accepts;
    var es := Ask(zone, user, r, role, k, appNow, p);
    assert es == [es[0], es[1]] + [es[2], es[3]];
    AfterConcat(w, [es[0], es[1]], [es[2], es[3]]);
    AfterTwo(w, es[0], es[1]);
    var w2 := Next(Next(w, es[0]), es[1]);
    StartAndReadSettings(w, zone, p);
    AfterTwo(w2, es[2], es[3]);
    ReadZoneAndDecide(w, zone, user, r, role, k, appNow, p, n);
  }

  lemma StartAndReadSettings(w: World, zone: Zone, p: nat)
    requires p !in w.procs
    ensures Next(Next(w, StartIssue(p, zone)), ReadSettings(p)) == WithProc(w, p, Asking(zone, Some(w.settings), None))
  {
    assert Next(w, StartIssue(p, zone)) == WithProc(w, p, Asking(zone, None, None));
  }

  lemma ReadZoneAndDecide(w: World, zone: Zone, user: nat, r: Request, role: Role, k: CommandFacts, appNow: int, p: nat, n: NewCommand)
    requires Accepts(w, zone, user, r, role, k, appNow, n)
    ensures Next(Next(WithProc(w, p, Asking(zone, Some(w.settings), None)), ReadZone(p, k)), Decide(p, user, r, role, appNow))
            == WithProc(w, p, Inserting(n, Basis(w.table.Keys, k.lastCommandAt, appNow, w.settings.minIntervalS)))
  {
    hide Evaluate;
    hide Reads;
    var seen := WithProc(w, p, Asking(zone, Some(w.settings), Some(Seen(FactsOf(w.facts, zone), k, w.table.Keys))));
    assert Next(WithProc(w, p, Asking(zone, Some(w.settings), None)), ReadZone(p, k)) == seen;
    assert AskContext(seen, Decide(p, user, r, role, appNow)) == Context(w.settings, role, FactsOf(w.facts, zone), k, appNow);
  }

  lemma AcceptedIsNotBusy(w: World, zone: Zone, user: nat, r: Request, role: Role, k: CommandFacts, appNow: int, n: NewCommand)
    requires Accepts(w, zone, user, r, role, k, appNow, n)
    ensures !Busy(w.table, zone) && n.zone == zone
  {
    AcceptedIsIdle(r, Context(w.settings, role, FactsOf(w.facts, zone), k, appNow));
  }

  function NewRow(n: NewCommand, now: int): Command {
    Command(n.zone, n.setpoint, n.previous, n.requestedBy, now, n.expiresAt, n.effectiveUntil, Pending, 0)
  }

  lemma InsertFree(w: World, p: nat, i: Id, n: NewCommand)
    requires p in w.procs && w.procs[p].Inserting? && w.procs[p].n == n && Storable(n) && !Busy(w.table, n.zone) && i !in w.table
    ensures Next(w, InsertRow(p, i)) == w.(table := w.table[i := NewRow(n, w.clock)], procs := w.procs - {p})
  {
    hide Busy;
  }
}
