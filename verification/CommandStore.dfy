/**
 The command table of apps/ingest/src/control/store.ts. Each function below is one
 transaction of one tenant; `now` is the database's clock. The one-live-command index and the
 check constraints are those of migration 017.
 */
module CommandStore {
  import opened Envelope
  import opened OldestFirst
  import opened Wrappers

  type Zone = nat
  type Id = nat

  datatype CommandState = Pending | Dispatched | Applied | Failed | Expired | Cancelled | Superseded

  datatype Command = Command(
    zone: Zone, setpoint: real, previous: real, requestedBy: nat, requestedAt: int,
    expiresAt: int, effectiveUntil: int, state: CommandState, attempts: nat)

  type Table = map<Id, Command>

  datatype NewCommand = NewCommand(
    zone: Zone, setpoint: real, previous: real, requestedBy: nat, expiresAt: int, effectiveUntil: int)

  predicate Live(c: Command) { c.state in {Pending, Dispatched} }

  predicate Final(s: CommandState) { s in {Failed, Expired, Cancelled, Superseded} }

  predicate Active(c: Command, now: int) { c.state == Applied && c.effectiveUntil > now }

  // ----- the transactions -----

  /** The table's check constraints. */
  predicate Storable(n: NewCommand) {
    n.effectiveUntil > n.expiresAt && -50.0 < n.setpoint < 60.0
  }

  predicate Busy(t: Table, zone: Zone) {
    exists id :: id in t && t[id].zone == zone && Live(t[id])
  }

  datatype InsertOutcome = Inserted | Conflict | CheckFailed

  function InsertResult(t: Table, n: NewCommand): InsertOutcome {
    if !Storable(n) then CheckFailed else if Busy(t, n.zone) then Conflict else Inserted
  }

  function Insert(t: Table, id: Id, n: NewCommand, now: int): Table {
    if InsertResult(t, n).Inserted?
    then t[id := Command(n.zone, n.setpoint, n.previous, n.requestedBy, now, n.expiresAt, n.effectiveUntil, Pending, 0)]
    else t
  }

  function ExpireStale(t: Table, now: int): Table {
    map id | id in t :: if t[id].state == Pending && t[id].expiresAt <= now then t[id].(state := Expired) else t[id]
  }

  predicate Claimable(t: Table, id: Id, now: int) {
    id in t && t[id].state == Pending && t[id].expiresAt > now
  }

  /** The rows a claim may take, with the time each was requested. */
  function ClaimableTimes(t: Table, now: int, locked: set<Id>): map<Id, int> {
    map id | id in t && Claimable(t, id, now) && id !in locked :: t[id].requestedAt
  }

  function Claim(t: Table, ids: set<Id>): Table {
    map id | id in t :: if id in ids then t[id].(state := Dispatched, attempts := t[id].attempts + 1) else t[id]
  }

  function Release(t: Table, id: Id): Table {
    if id in t && t[id].state == Dispatched then t[id := t[id].(state := Pending)] else t
  }

  function Settle(t: Table, id: Id, applied: bool, now: int): Table {
    if id !in t || t[id].state != Dispatched then t
    else if !applied then t[id := t[id].(state := Failed)]
    else
      map other | other in t ::
        if other == id then t[id].(state := Applied)
        else if t[other].zone == t[id].zone && Active(t[other], now) then t[other].(state := Superseded)
        else t[other]
  }

  function Cancel(t: Table, id: Id): Table {
    if id in t && Live(t[id]) then t[id := t[id].(state := Cancelled)] else t
  }

  /**
   What loadZoneContext reads of the table: an active override with the latest end, the newest request, and
   whether a command is live.
   */
  ghost predicate Reads(t: Table, zone: Zone, now: int, k: CommandFacts) {
    && (k.inFlight <==> Busy(t, zone))
    && (match k.activeOverride
        case None => forall id :: id in t && t[id].zone == zone ==> !Active(t[id], now)
        case Some(v) => exists id :: Overrides(t, zone, now, id) && t[id].setpoint == v)
    && (match k.lastCommandAt
        case None => forall id :: id in t ==> t[id].zone != zone
        case Some(at) => exists id :: Newest(t, zone, id) && t[id].requestedAt == at)
  }

  predicate Overrides(t: Table, zone: Zone, now: int, id: Id) {
    && id in t && t[id].zone == zone && Active(t[id], now)
    && forall other :: other in t && t[other].zone == zone && Active(t[other], now) ==> t[other].effectiveUntil <= t[id].effectiveUntil
  }

  predicate Newest(t: Table, zone: Zone, id: Id) {
    && id in t && t[id].zone == zone
    && forall other :: other in t && t[other].zone == zone ==> t[other].requestedAt <= t[id].requestedAt
  }

  // ----- every transaction at once -----

  datatype Op =
    | OpInsert(id: Id, n: NewCommand)
    | OpExpire
    | OpClaim(ids: set<Id>)
    | OpRelease(id: Id)
    | OpSettle(id: Id, applied: bool)
    | OpCancel(id: Id)

  /**
   New rows get a fresh id, and a claim takes some of the claimable rows: rows another claim has locked are
   skipped.
   */
  predicate Possible(t: Table, op: Op, now: int) {
    match op
    case OpInsert(id, _) => id !in t
    case OpClaim(ids) => forall id :: id in ids ==> Claimable(t, id, now)
    case _ => true
  }

  function Do(t: Table, op: Op, now: int): Table {
    match op
    case OpInsert(id, n) => Insert(t, id, n, now)
    case OpExpire => ExpireStale(t, now)
    case OpClaim(ids) => Claim(t, ids)
    case OpRelease(id) => Release(t, id)
    case OpSettle(id, applied) => Settle(t, id, applied, now)
    case OpCancel(id) => Cancel(t, id)
  }

  predicate OneLive(t: Table) {
    forall a, b :: a in t && b in t && a != b && t[a].zone == t[b].zone ==> !Live(t[a]) || !Live(t[b])
  }

  predicate OneActive(t: Table, now: int) {
    forall a, b :: a in t && b in t && a != b && t[a].zone == t[b].zone ==> !Active(t[a], now) || !Active(t[b], now)
  }

  /** At most one pending or dispatched command, and at most one override in force, per zone. */
  predicate Exclusive(t: Table, now: int) { OneLive(t) && OneActive(t, now) }

  lemma StepKeepsOneLive(t: Table, op: Op, now: int)
    requires OneLive(t) && Possible(t, op, now)
    ensures OneLive(Do(t, op, now))
  {
    var u := Do(t, op, now);
    forall a, b | a in u && b in u && a != b && u[a].zone == u[b].zone ensures !Live(u[a]) || !Live(u[b]) {
      if op.OpInsert? { assert a in t ==> u[a] == t[a]; assert b in t ==> u[b] == t[b]; }
    }
  }

  /** A row in force after a transaction was in force before, in a zone where none was applied, or is the one applied. */
  lemma ActiveStep(t: Table, op: Op, now: int, id: Id)
    requires Possible(t, op, now) && id in Do(t, op, now) && Active(Do(t, op, now)[id], now)
    ensures id in t && Do(t, op, now)[id].zone == t[id].zone
    ensures Active(t[id], now) || (op.OpSettle? && id == op.id)
    ensures op.OpSettle? && id != op.id && op.id in t && Active(Do(t, op, now)[op.id], now) && !Active(t[op.id], now) ==> t[id].zone != t[op.id].zone
  {}

  lemma StepKeepsOneActive(t: Table, op: Op, now: int)
    requires OneActive(t, now) && Possible(t, op, now)
    ensures OneActive(Do(t, op, now), now)
  {
    hide Do;
    hide Possible;
    hide Active;
    var u := Do(t, op, now);
    forall a, b | a in u && b in u && a != b && u[a].zone == u[b].zone ensures !Active(u[a], now) || !Active(u[b], now) {
      if Active(u[a], now) && Active(u[b], now) {
        ActiveStep(t, op, now, a);
        ActiveStep(t, op, now, b);
      }
    }
  }

  lemma StepKeepsExclusive(t: Table, op: Op, now: int)
    requires Exclusive(t, now) && Possible(t, op, now)
    ensures Exclusive(Do(t, op, now), now)
  {
    hide OneLive;
    hide OneActive;
    hide Do;
    StepKeepsOneLive(t, op, now);
    StepKeepsOneActive(t, op, now);
  }

  lemma ClockKeepsExclusive(t: Table, now: int, later: int)
    requires Exclusive(t, now) && now <= later
    ensures Exclusive(t, later)
  {
    forall a, b | a in t && b in t && a != b && t[a].zone == t[b].zone ensures !Active(t[a], later) || !Active(t[b], later) {
      assert !Active(t[a], now) || !Active(t[b], now);
    }
  }

  /**
   The lifecycle a command may follow in one transaction at time `now`. Collecting needs time left; lapsing needs
   none left.
   */
  predicate Evolves(c: Command, d: Command, now: int) {
    && d == c.(state := d.state, attempts := d.attempts)
    && d.attempts == (if c.state == Pending && d.state == Dispatched then c.attempts + 1 else c.attempts)
    && match c.state
       case Pending =>
         d.state == Pending || d.state == Cancelled
         || (d.state == Dispatched && now < c.expiresAt) || (d.state == Expired && now >= c.expiresAt)
       case Dispatched => d.state in {Dispatched, Pending, Applied, Failed, Cancelled}
       case Applied => d.state == Applied || (d.state == Superseded && now < c.effectiveUntil)
       case _ => d.state == c.state
  }

  lemma StepEvolves(t: Table, op: Op, now: int, id: Id)
    requires Possible(t, op, now) && id in t
    ensures id in Do(t, op, now) && Evolves(t[id], Do(t, op, now)[id], now)
  {
    if op.OpClaim? && id in op.ids { assert Claimable(t, id, now); }
  }

  /** A transaction adds at most one row: a pending one, never claimed, stamped with the database's clock. */
  lemma StepAddsOnlyPending(t: Table, op: Op, now: int, id: Id)
    requires id !in t && id in Do(t, op, now)
    ensures var c := Do(t, op, now)[id];
            c.state == Pending && c.attempts == 0 && c.requestedAt == now && op.OpInsert? && op.id == id && !Busy(t, c.zone)
            && c.setpoint == op.n.setpoint && c.zone == op.n.zone && c.effectiveUntil > c.expiresAt
  {}

  // ----- what the transactions do for one another -----

  /** An applied command whose effect is not over is the override every reader of its zone then sees. */
  lemma AppliedIsInForce(t: Table, id: Id, now: int, k: CommandFacts)
    requires id in t && t[id].state == Dispatched && t[id].effectiveUntil > now
    requires Reads(Settle(t, id, true, now), t[id].zone, now, k)
    ensures k.activeOverride == Some(t[id].setpoint)
  {
    var u := Settle(t, id, true, now);
    assert Active(u[id], now);
    if k.activeOverride.Some? {
      var other :| Overrides(u, t[id].zone, now, other) && u[other].setpoint == k.activeOverride.value;
      assert other == id;
    }
  }

  /** A release undoes a claim, except that the attempt stays on record. */
  lemma ReleaseUndoesClaim(t: Table, id: Id, now: int)
    requires Claimable(t, id, now)
    ensures Release(Claim(t, {id}), id) == t[id := t[id].(attempts := t[id].attempts + 1)]
  {}

  /** After a sweep every pending command can be claimed. */
  lemma SweepLeavesOnlyClaimable(t: Table, now: int, id: Id)
    ensures id in ExpireStale(t, now) && ExpireStale(t, now)[id].state == Pending <==> Claimable(ExpireStale(t, now), id, now)
    ensures Claimable(ExpireStale(t, now), id, now) <==> Claimable(t, id, now)
  {}

  /** Cancelling, settling or expiring the live command of a zone makes room for the next one, and nothing else does. */
  lemma EndingALifeFreesTheZone(t: Table, op: Op, now: int, id: Id)
    requires OneLive(t) && Possible(t, op, now) && id in t && Live(t[id])
    ensures (op == OpCancel(id) || (op.OpSettle? && op.id == id && t[id].state == Dispatched)
             || (op.OpExpire? && t[id].state == Pending && t[id].expiresAt <= now))
            <==> !Busy(Do(t, op, now), t[id].zone)
  {
    var u, zone := Do(t, op, now), t[id].zone;
    StepEvolves(t, op, now, id);
    assert Busy(t, zone);
    if !Live(u[id]) {
      forall other | other in u && u[other].zone == zone ensures !Live(u[other]) {
        if other in t {
          StepEvolves(t, op, now, other);
          assert other == id || !Live(t[other]);
        } else {
          StepAddsOnlyPending(t, op, now, other);
        }
      }
    } else {
      assert Busy(u, zone);
    }
  }

  // ----- the store -----

  /** Of the rows seen, the override ending last of each zone that has one. */
  predicate LatestSeen(t: Table, now: int, seen: set<Id>, overrides: map<Zone, Id>) {
    && seen <= t.Keys
    && (forall zone :: zone in overrides ==> overrides[zone] in seen && t[overrides[zone]].zone == zone && Active(t[overrides[zone]], now))
    && forall id :: id in seen && Active(t[id], now) ==>
         t[id].zone in overrides && t[id].effectiveUntil <= t[overrides[t[id].zone]].effectiveUntil
  }

  lemma LatestSeenStep(t: Table, now: int, seen: set<Id>, overrides: map<Zone, Id>, id: Id)
    requires LatestSeen(t, now, seen, overrides) && id in t
    ensures var c := t[id];
            var better := Active(c, now) && (c.zone in overrides ==> t[overrides[c.zone]].effectiveUntil < c.effectiveUntil);
            LatestSeen(t, now, seen + {id}, if better then overrides[c.zone := id] else overrides)
  {}

  class ControlStore {
    var commands: Table

    constructor ()
      ensures commands == map[]
    {
      commands := map[];
    }

    /** `id` is what gen_random_uuid gave the new row. */
    method InsertCommand(id: Id, n: NewCommand, now: int) returns (outcome: InsertOutcome)
      requires id !in commands
      modifies this
      ensures commands == Insert(old(commands), id, n, now) && outcome == InsertResult(old(commands), n)
    {
      outcome := InsertResult(commands, n);
      if outcome == Inserted {
        commands := commands[id := Command(n.zone, n.setpoint, n.previous, n.requestedBy, now, n.expiresAt, n.effectiveUntil, Pending, 0)];
      }
    }

    method ExpireStaleCommands(now: int) returns (count: nat)
      modifies this
      ensures commands == ExpireStale(old(commands), now)
      ensures count == |set id | id in old(commands) && old(commands)[id].state == Pending && old(commands)[id].expiresAt <= now|
    {
      var stale := set id | id in commands && commands[id].state == Pending && commands[id].expiresAt <= now;
      count := |stale|;
      commands := map id | id in commands :: if id in stale then commands[id].(state := Expired) else commands[id];
    }

    /** `locked` holds the rows some concurrent claim has locked, which this one skips. */
    method ClaimCommands(limit: nat, now: int, locked: set<Id>) returns (claimed: seq<Id>)
      modifies this
      ensures var t := old(commands);
              && commands == Claim(t, set id | id in claimed)
              && Oldest(ClaimableTimes(t, now, locked), limit, claimed)
    {
      var eligible := ClaimableTimes(commands, now, locked);
      claimed := Pick(eligible, limit);
      commands := map id | id in commands ::
        if id in claimed then commands[id].(state := Dispatched, attempts := commands[id].attempts + 1) else commands[id];
    }

    method ReleaseCommand(id: Id)
      modifies this
      ensures commands == Release(old(commands), id)
    {
      if id in commands && commands[id].state == Dispatched {
        commands := commands[id := commands[id].(state := Pending)];
      }
    }

    method SettleCommand(id: Id, applied: bool, now: int) returns (settled: bool)
      modifies this
      ensures commands == Settle(old(commands), id, applied, now)
      ensures settled == (id in old(commands) && old(commands)[id].state == Dispatched)
    {
      if id !in commands || commands[id].state != Dispatched { return false; }
      var zone := commands[id].zone;
      commands := commands[id := commands[id].(state := if applied then Applied else Failed)];
      if applied {
        commands := map other | other in commands ::
          if other != id && commands[other].zone == zone && Active(commands[other], now)
          then commands[other].(state := Superseded) else commands[other];
      }
      return true;
    }

    method CancelCommand(id: Id) returns (cancelled: bool)
      modifies this
      ensures commands == Cancel(old(commands), id)
      ensures cancelled == (id in old(commands) && Live(old(commands)[id]))
    {
      cancelled := id in commands && Live(commands[id]);
      if cancelled { commands := commands[id := commands[id].(state := Cancelled)]; }
    }

    method LoadCommandFacts(zone: Zone, now: int) returns (k: CommandFacts)
      ensures Reads(commands, zone, now, k)
    {
      var override := LatestOverride(commands, zone, now);
      var newest := NewestRequest(commands, zone);
      k := CommandFacts(
        if override.Some? then Some(commands[override.value].setpoint) else None,
        if newest.Some? then Some(commands[newest.value].requestedAt) else None,
        Busy(commands, zone));
    }

    /** Every zone with an override in force, with that override's row. */
    method ActiveOverrides(now: int) returns (overrides: map<Zone, Id>)
      ensures forall zone :: zone in overrides <==> exists id :: id in commands && commands[id].zone == zone && Active(commands[id], now)
      ensures forall zone :: zone in overrides ==> Overrides(commands, zone, now, overrides[zone])
    {
      overrides := map[];
      var rows := commands.Keys;
      ghost var seen: set<Id> := {};
      ghost var table := commands;
      while rows != {}
        invariant commands == table && rows <= table.Keys && seen == table.Keys - rows
        invariant LatestSeen(table, now, seen, overrides)
        decreases |rows|
      {
        var id :| id in rows;
        rows := rows - {id};
        var c := commands[id];
        LatestSeenStep(table, now, seen, overrides, id);
        seen := seen + {id};
        if Active(c, now) && (c.zone in overrides ==> commands[overrides[c.zone]].effectiveUntil < c.effectiveUntil) {
          overrides := overrides[c.zone := id];
        }
      }
    }
  }

  method LatestOverride(t: Table, zone: Zone, now: int) returns (best: Option<Id>)
    ensures best.Some? ==> Overrides(t, zone, now, best.value)
    ensures best.None? ==> forall id :: id in t && t[id].zone == zone ==> !Active(t[id], now)
  {
    best := None;
    var rest := t.Keys;
    while rest != {}
      invariant rest <= t.Keys
      invariant best.Some? ==> best.value in t && t[best.value].zone == zone && Active(t[best.value], now)
      invariant forall id :: id in t.Keys - rest && t[id].zone == zone && Active(t[id], now) ==>
                  best.Some? && t[id].effectiveUntil <= t[best.value].effectiveUntil
      decreases |rest|
    {
      var id :| id in rest;
      rest := rest - {id};
      if t[id].zone == zone && Active(t[id], now) && (best.Some? ==> t[best.value].effectiveUntil < t[id].effectiveUntil) {
        best := Some(id);
      }
    }
  }

  method NewestRequest(t: Table, zone: Zone) returns (best: Option<Id>)
    ensures best.Some? ==> Newest(t, zone, best.value)
    ensures best.None? ==> forall id :: id in t ==> t[id].zone != zone
  {
    best := None;
    var rest := t.Keys;
    while rest != {}
      invariant rest <= t.Keys
      invariant best.Some? ==> best.value in t && t[best.value].zone == zone
      invariant forall id :: id in t.Keys - rest && t[id].zone == zone ==>
                  best.Some? && t[id].requestedAt <= t[best.value].requestedAt
      decreases |rest|
    {
      var id :| id in rest;
      rest := rest - {id};
      if t[id].zone == zone && (best.Some? ==> t[best.value].requestedAt < t[id].requestedAt) {
        best := Some(id);
      }
    }
  }
}
