/**
 Issuing and dispatching commands: the two places the envelope runs, as
 apps/ingest/src/control/service.ts composes them from store transactions. The methods here run
 without interference; module ControlProtocol interleaves the same transactions.
 */
module ControlService {
  import opened Envelope
  import opened CommandStore
  import opened OldestFirst
  import opened Wrappers

  datatype IssueResult =
    | Issued(id: Id)
    | DryRun(verdict: Verdict)
    | UnknownZone
    | Refused(refusal: Refusal)
    | StorageError

  /** The row an accepted request becomes. */
  function RowFor(zone: Zone, user: nat, r: Request, v: Verdict): NewCommand
    requires v.Accept?
  {
    NewCommand(zone, r.setpoint, v.previous, user, v.expiresAt, v.effectiveUntil)
  }

  /**
   An accepted request is storable exactly when its effect outlasts its queueing time and the setpoint is inside
   the open range. Otherwise the check constraint fails and the caller sees an error the envelope did not
   announce.
   */
  lemma AcceptedIsStorableExactly(zone: Zone, user: nat, r: Request, c: Context)
    requires Evaluate(r, c).Accept?
    ensures Storable(RowFor(zone, user, r, Evaluate(r, c)))
            <==> Duration(r, c.settings) > c.settings.commandTtlS && -50.0 < r.setpoint < 60.0
  {}

  /**
   Such a request: accepted with any allowed duration, it is accepted with one no longer than its queueing time,
   and then cannot be stored.
   */
  lemma AcceptedCanBeUnstorable(zone: Zone, user: nat, r: Request, c: Context, durationS: int)
    requires Evaluate(r, c).Accept? && 0 < durationS <= c.settings.commandTtlS && durationS <= c.settings.maxDurationS
    ensures var short := r.(durationS := Some(durationS));
            Evaluate(short, c).Accept? && InsertResult(map[], RowFor(zone, user, short, Evaluate(short, c))) == CheckFailed
  {}

  /** With one override in force per zone, the context query has one answer. */
  lemma ReadIsUnique(t: Table, zone: Zone, now: int, j: CommandFacts, k: CommandFacts)
    requires OneActive(t, now) && Reads(t, zone, now, j) && Reads(t, zone, now, k)
    ensures j == k
  {}

  /** The setpoint overriding a zone, if any. */
  ghost function OverrideOf(t: Table, zone: Zone, now: int): Option<real> {
    if id :| id in t && t[id].zone == zone && Active(t[id], now) then Some(t[id].setpoint) else None
  }

  lemma OverrideIsRead(t: Table, zone: Zone, now: int, k: CommandFacts)
    requires OneActive(t, now) && Reads(t, zone, now, k)
    ensures k.activeOverride == OverrideOf(t, zone, now)
  {}

  function FactsOf(facts: map<Zone, ZoneFacts>, zone: Zone): ZoneFacts {
    if zone in facts then facts[zone] else ZoneFacts(None, [], None)
  }

  function RoleOf(roles: map<nat, Role>, user: nat): Role {
    if user in roles then roles[user] else Viewer
  }

  /** Zones, memberships and settings, as one poll or request reads them; `appNow` is the worker's clock. */
  datatype Surroundings = Surroundings(settings: Settings, facts: map<Zone, ZoneFacts>, roles: map<nat, Role>, appNow: int)

  function ContextFor(w: Surroundings, zone: Zone, role: Role, k: CommandFacts): Context {
    Context(w.settings, role, FactsOf(w.facts, zone), k, w.appNow)
  }

  /** Does the re-check let this claimed command through? */
  ghost predicate Passes(w: Surroundings, t: Table, c: Command, now: int) {
    Recheck(c.setpoint, ContextFor(w, c.zone, RoleOf(w.roles, c.requestedBy),
      CommandFacts(OverrideOf(t, c.zone, now), None, false))).Accept?
  }

  /**
   The re-check asks who the requester is now: it passes exactly when they are a member who may command and it would pass
   for an owner.
   */
  lemma RequesterDecides(w: Surroundings, t: Table, c: Command, now: int)
    ensures Passes(w, t, c, now)
            <==> c.requestedBy in w.roles && w.roles[c.requestedBy] != Viewer
                 && Recheck(c.setpoint, Context(w.settings, Owner, FactsOf(w.facts, c.zone),
                      CommandFacts(OverrideOf(t, c.zone, now), None, false), w.appNow)).Accept?
  {}

  function Withhold(t: Table, ids: set<Id>): Table {
    map id | id in t :: if id in ids && t[id].state == Dispatched then t[id].(state := Pending) else t[id]
  }

  /** Same rows but for how far the uncollected ones have got. */
  predicate SameOverrides(t: Table, u: Table) {
    && t.Keys == u.Keys
    && forall id :: id in t ==>
         u[id] == t[id].(state := u[id].state, attempts := u[id].attempts) && (u[id].state == Applied <==> t[id].state == Applied)
  }

  lemma OverrideSurvives(t: Table, u: Table, zone: Zone, now: int, k: CommandFacts)
    requires SameOverrides(t, u) && OneActive(t, now) && Reads(u, zone, now, k)
    ensures k.activeOverride == OverrideOf(t, zone, now)
  {
    assert OneActive(u, now) by {
      forall a, b | a in u && b in u && a != b && u[a].zone == u[b].zone ensures !Active(u[a], now) || !Active(u[b], now) {
        assert !Active(t[a], now) || !Active(t[b], now);
      }
    }
    OverrideIsRead(u, zone, now, k);
    if id :| id in t && t[id].zone == zone && Active(t[id], now) {
      assert Active(u[id], now);
    } else {
      forall id | id in u && u[id].zone == zone ensures !Active(u[id], now) {
        assert !Active(t[id], now);
      }
    }
  }

  /** Role lookup, context read, envelope and insert, in one go. */
  method IssueCommand(store: ControlStore, w: Surroundings, zone: Zone, user: nat, r: Request, dryRun: bool, now: int, id: Id)
    returns (result: IssueResult)
    requires id !in store.commands && Exclusive(store.commands, now)
    modifies store
    ensures Exclusive(store.commands, now)
    ensures forall k :: Reads(old(store.commands), zone, now, k) ==>
              var v := Evaluate(r, ContextFor(w, zone, RoleOf(w.roles, user), k));
              match result
              case Issued(i) =>
                && i == id && v.Accept? && Storable(RowFor(zone, user, r, v))
                && store.commands == old(store.commands)[id :=
                     Command(zone, r.setpoint, v.previous, user, now, v.expiresAt, v.effectiveUntil, Pending, 0)]
              case DryRun(d) => dryRun && user in w.roles && d == v && v.Accept?
              case Refused(q) => v == Refuse(q) || (user !in w.roles && q == ForbiddenRole)
              case UnknownZone => zone !in w.facts
              case StorageError => v.Accept? && !Storable(RowFor(zone, user, r, v))
    ensures result.Issued? ==> !Busy(old(store.commands), zone) && !dryRun && user in w.roles && zone in w.facts
    ensures !result.Issued? ==> store.commands == old(store.commands)
  {
    hide Violated;
    hide Evaluate;
    if user !in w.roles { return Refused(ForbiddenRole); }
    if zone !in w.facts { return UnknownZone; }
    var k := store.LoadCommandFacts(zone, now);
    var c := ContextFor(w, zone, w.roles[user], k);
    var v := Evaluate(r, c);
    forall j | Reads(store.commands, zone, now, j) ensures j == k { ReadIsUnique(store.commands, zone, now, j, k); }
    if v.Refuse? { return Refused(v.refusal); }
    if dryRun { return DryRun(v); }
    AcceptedIsIdle(r, c);
    StepKeepsExclusive(store.commands, OpInsert(id, RowFor(zone, user, r, v)), now);
    var outcome := store.InsertCommand(id, RowFor(zone, user, r, v), now);
    return match outcome case Inserted => Issued(id) case Conflict => Refused(CommandInFlight) case CheckFailed => StorageError;
  }

  lemma AcceptedIsIdle(r: Request, c: Context)
    requires Evaluate(r, c).Accept?
    ensures !c.commands.inFlight
  {}

  lemma RecheckIgnoresRate(w: Surroundings, c: Command, k: CommandFacts)
    ensures Recheck(c.setpoint, ContextFor(w, c.zone, RoleOf(w.roles, c.requestedBy), k))
            == Recheck(c.setpoint, ContextFor(w, c.zone, RoleOf(w.roles, c.requestedBy), CommandFacts(k.activeOverride, None, false)))
  {}

  /** The claimed commands that pass the re-check, in the order claimed, and those that do not. */
  ghost function HandedOut(w: Surroundings, t: Table, claimed: seq<Id>, now: int): seq<Id> {
    if claimed == [] then []
    else
      var n := |claimed| - 1;
      HandedOut(w, t, claimed[..n], now)
      + (if claimed[n] in t && Passes(w, t, t[claimed[n]], now) then [claimed[n]] else [])
  }

  ghost function HeldBack(w: Surroundings, t: Table, claimed: seq<Id>, now: int): (back: set<Id>)
    ensures forall id :: id in back ==> id in claimed
  {
    if claimed == [] then {}
    else
      var n := |claimed| - 1;
      HeldBack(w, t, claimed[..n], now)
      + (if claimed[n] in t && Passes(w, t, t[claimed[n]], now) then {} else {claimed[n]})
  }

  /** Handing out and holding back divide what was claimed by the re-check alone. */
  lemma {:induction false} DispatchDividesTheClaim(w: Surroundings, t: Table, claimed: seq<Id>, now: int, id: Id)
    requires id in t
    ensures id in HandedOut(w, t, claimed, now) <==> id in claimed && Passes(w, t, t[id], now)
    ensures id in HeldBack(w, t, claimed, now) <==> id in claimed && !Passes(w, t, t[id], now)
  {
    if claimed != [] {
      var n := |claimed| - 1;
      DispatchDividesTheClaim(w, t, claimed[..n], now, id);
      assert claimed == claimed[..n] + [claimed[n]];
    }
  }

  /** The table after a poll: each claimed command has one more attempt, and is dispatched or back to pending. */
  ghost function AfterPoll(w: Surroundings, t: Table, claimed: seq<Id>, now: int): Table {
    Withhold(Claim(t, set id | id in claimed), HeldBack(w, t, claimed, now))
  }

  lemma ReleaseWithholds(table: Table, back: set<Id>, id: Id)
    requires id in table && table[id].state == Dispatched && id !in back
    ensures Release(Withhold(table, back), id) == Withhold(table, back + {id})
  {}

  lemma ClaimedKeepsOverrides(t: Table, ids: set<Id>, back: set<Id>, now: int)
    requires forall id :: id in ids ==> Claimable(t, id, now)
    ensures SameOverrides(t, Withhold(Claim(t, ids), back))
  {}

  lemma WithholdKeepsExclusive(table: Table, back: set<Id>, now: int)
    requires Exclusive(table, now)
    ensures Exclusive(Withhold(table, back), now)
  {
    var u := Withhold(table, back);
    forall a, b | a in u && b in u && a != b && u[a].zone == u[b].zone ensures !Live(u[a]) || !Live(u[b]) {
      assert !Live(table[a]) || !Live(table[b]);
    }
    forall a, b | a in u && b in u && a != b && u[a].zone == u[b].zone ensures !Active(u[a], now) || !Active(u[b], now) {
      assert !Active(table[a], now) || !Active(table[b], now);
    }
  }

  /** Sweep, kill switch, claim, and the re-check of each claimed command; what fails goes back to pending. */
  method ClaimForGateway(store: ControlStore, w: Surroundings, limit: nat, now: int, locked: set<Id>)
    returns (handed: seq<Id>, withheld: nat)
    requires Exclusive(store.commands, now)
    modifies store
    ensures Exclusive(store.commands, now)
    ensures !w.settings.enabled ==> handed == [] && withheld == 0 && store.commands == ExpireStale(old(store.commands), now)
    ensures w.settings.enabled ==>
              var swept := ExpireStale(old(store.commands), now);
              exists claimed: seq<Id> ::
                && Oldest(ClaimableTimes(swept, now, locked), limit, claimed)
                && handed == HandedOut(w, swept, claimed, now) && withheld == |claimed| - |handed|
                && store.commands == AfterPoll(w, swept, claimed, now)
  {
    ghost var swept := ExpireStale(store.commands, now);
    StepKeepsExclusive(store.commands, OpExpire, now);
    var _ := store.ExpireStaleCommands(now);
    if !w.settings.enabled { return [], 0; }
    var claimed := store.ClaimCommands(limit, now, locked);
    assert store.commands == Claim(swept, set id | id in claimed);
    handed, withheld := RecheckClaimed(store, w, claimed, now, swept);
  }

  lemma OneMoreClaimed(w: Surroundings, t: Table, claimed: seq<Id>, i: nat, now: int)
    requires i < |claimed|
    ensures var passes := claimed[i] in t && Passes(w, t, t[claimed[i]], now);
            && HandedOut(w, t, claimed[..i + 1], now) == HandedOut(w, t, claimed[..i], now) + (if passes then [claimed[i]] else [])
            && HeldBack(w, t, claimed[..i + 1], now) == HeldBack(w, t, claimed[..i], now) + (if passes then {} else {claimed[i]})
  {
    assert claimed[..i + 1][..i] == claimed[..i];
  }

  lemma NoneClaimed(w: Surroundings, t: Table, u: Table, now: int)
    ensures HandedOut(w, t, [], now) == [] && HeldBack(w, t, [], now) == {} && Withhold(u, {}) == u
  {}

  method RecheckClaimed(store: ControlStore, w: Surroundings, claimed: seq<Id>, now: int, ghost swept: Table)
    returns (handed: seq<Id>, withheld: nat)
    requires Exclusive(swept, now) && Distinct(claimed) && forall id :: id in claimed ==> Claimable(swept, id, now)
    requires store.commands == Claim(swept, set id | id in claimed)
    modifies store
    ensures Exclusive(store.commands, now)
    ensures handed == HandedOut(w, swept, claimed, now) && withheld == |claimed| - |handed|
    ensures store.commands == AfterPoll(w, swept, claimed, now)
  {
    hide Passes;
    hide Recheck;
    hide Reads;
    hide SameOverrides;
    hide Exclusive;
    hide OneActive;
    hide OneLive;
    hide Claimable;
    hide Claim;
    hide Distinct;
    hide HandedOut;
    hide HeldBack;
    hide ContextFor;
    hide RoleOf;
    ghost var ids := set id | id in claimed;
    ghost var table := store.commands;
    assert Exclusive(table, now) by { StepKeepsExclusive(swept, OpClaim(ids), now); }
    handed, withheld := [], 0;
    NoneClaimed(w, swept, table, now);
    for i := 0 to |claimed|
      invariant store.commands == Withhold(table, HeldBack(w, swept, claimed[..i], now))
      invariant handed == HandedOut(w, swept, claimed[..i], now) && withheld == i - |handed|
    {
      ghost var back := HeldBack(w, swept, claimed[..i], now);
      var id := claimed[i];
      OneMoreClaimed(w, swept, claimed, i, now);
      ClaimedIsDispatched(w, swept, claimed, i, now);
      var c := store.commands[id];
      var k := store.LoadCommandFacts(c.zone, now);
      var verdict := Recheck(c.setpoint, ContextFor(w, c.zone, RoleOf(w.roles, c.requestedBy), k));
      VerdictIsPasses(w, swept, store.commands, ids, back, id, now, k);
      if verdict.Accept? {
        handed := handed + [id];
      } else {
        withheld := withheld + 1;
        ReleaseWithholds(table, back, id);
        store.ReleaseCommand(id);
      }
    }
    assert claimed[..|claimed|] == claimed;
    WithholdKeepsExclusive(table, HeldBack(w, swept, claimed, now), now);
  }

  lemma ClaimedIsDispatched(w: Surroundings, swept: Table, claimed: seq<Id>, i: nat, now: int)
    requires Distinct(claimed) && i < |claimed| && forall id :: id in claimed ==> Claimable(swept, id, now)
    ensures var id, table := claimed[i], Claim(swept, set id | id in claimed);
            && id in swept && id in table && table[id].state == Dispatched
            && id !in HeldBack(w, swept, claimed[..i], now)
  {
    assert Claimable(swept, claimed[i], now);
    assert claimed[i] !in claimed[..i];
  }

  lemma VerdictIsPasses(w: Surroundings, swept: Table, t: Table, ids: set<Id>, back: set<Id>, id: Id, now: int, k: CommandFacts)
    requires Exclusive(swept, now) && (forall i :: i in ids ==> Claimable(swept, i, now)) && id in ids && id in swept
    requires t == Withhold(Claim(swept, ids), back) && Reads(t, t[id].zone, now, k)
    ensures Recheck(t[id].setpoint, ContextFor(w, t[id].zone, RoleOf(w.roles, t[id].requestedBy), k)).Accept?
            <==> Passes(w, swept, swept[id], now)
  {
    hide Evaluate;
    ClaimedKeepsOverrides(swept, ids, back, now);
    OverrideSurvives(swept, t, t[id].zone, now, k);
    RecheckIgnoresRate(w, t[id], k);
  }
}
