/**
 The minimum interval between commands of one zone. The rule is checked against what a request
 read, and its row is stamped when it is inserted; between the two other requests may overtake it.
 */
module ControlSpacing {
  import opened Envelope
  import opened CommandStore
  import opened ControlService
  import opened ControlProtocol
  import opened Wrappers

  predicate Spaced(t: Table, gapMs: int) {
    forall a, b :: a in t && b in t && a != b && t[a].zone == t[b].zone ==>
      t[a].requestedAt - t[b].requestedAt >= gapMs || t[b].requestedAt - t[a].requestedAt >= gapMs
  }

  /** `last` is the newest request time of the zone among the known commands. */
  ghost predicate Knows(t: Table, zone: Zone, known: set<Id>, last: Option<int>) {
    && known <= t.Keys
    && match last
       case None => forall id :: id in known ==> t[id].zone != zone
       case Some(at) =>
         && (exists id :: id in known && t[id].zone == zone && t[id].requestedAt == at)
         && forall id :: id in known && t[id].zone == zone ==> t[id].requestedAt <= at
  }

  ghost predicate ProcInformed(t: Table, q: Proc) {
    match q
    case Asking(zone, _, seen) => seen.Some? ==> Knows(t, zone, seen.value.known, seen.value.commands.lastCommandAt)
    case Inserting(n, b) =>
      Knows(t, n.zone, b.known, b.last) && (b.last.Some? ==> b.decidedAt - b.last.value >= b.minIntervalS * 1000)
    case _ => true
  }

  /** Rows are stamped by a clock that does not go back, and requests know what they read. */
  ghost predicate Informed(w: World) {
    && (forall id :: id in w.table ==> w.table[id].requestedAt <= w.clock)
    && forall p :: p in w.procs ==> ProcInformed(w.table, w.procs[p])
  }

  lemma FreshIsInformed(w: World, gapMs: int)
    requires Fresh(w)
    ensures Informed(w) && Spaced(w.table, gapMs)
  {}

  lemma KnowsLater(w: World, e: Event, zone: Zone, known: set<Id>, last: Option<int>)
    requires Knows(w.table, zone, known, last)
    ensures Knows(Next(w, e).table, zone, known, last)
  {
    hide Next;
    var u := Next(w, e).table;
    forall id | id in known ensures id in u && u[id].zone == w.table[id].zone && u[id].requestedAt == w.table[id].requestedAt {
      NextEvolves(w, e, id);
    }
    if last.Some? {
      var id :| id in known && w.table[id].zone == zone && w.table[id].requestedAt == last.value;
      assert id in known && u[id].zone == zone && u[id].requestedAt == last.value;
    }
  }

  lemma ReadsIsKnowing(t: Table, zone: Zone, now: int, k: CommandFacts)
    requires Reads(t, zone, now, k)
    ensures Knows(t, zone, t.Keys, k.lastCommandAt)
  {
    if k.lastCommandAt.Some? {
      var id :| Newest(t, zone, id) && t[id].requestedAt == k.lastCommandAt.value;
      assert id in t.Keys && t[id].zone == zone;
    }
  }

  lemma AcceptedRespectsTheInterval(r: Request, c: Context)
    requires Evaluate(r, c).Accept?
    ensures c.commands.lastCommandAt.Some? ==> c.now - c.commands.lastCommandAt.value >= c.settings.minIntervalS * 1000
  {}

  lemma ProcInformedLater(w: World, e: Event, q: Proc)
    requires ProcInformed(w.table, q)
    ensures ProcInformed(Next(w, e).table, q)
  {
    hide Next;
    hide Knows;
    match q
    case Asking(zone, _, seen) => if seen.Some? { KnowsLater(w, e, zone, seen.value.known, seen.value.commands.lastCommandAt); }
    case Inserting(n, b) => KnowsLater(w, e, n.zone, b.known, b.last);
    case _ =>
  }

  lemma NewProcIsInformed(w: World, e: Event, p: nat)
    requires Informed(w) && Enabled(w, e) && p in NextProcs(w, e)
    ensures ProcInformed(w.table, NextProcs(w, e)[p])
  {
    hide Evaluate;
    hide Reads;
    hide Knows;
    if p in w.procs { assert ProcInformed(w.table, w.procs[p]); }
    if e.ReadZone? { ReadsIsKnowing(w.table, w.procs[e.p].zone, w.clock, e.k); }
    if e.Decide? && Evaluate(e.r, AskContext(w, e)).Accept? {
      AcceptedRespectsTheInterval(e.r, AskContext(w, e));
      assert ProcInformed(w.table, w.procs[e.p]);
    }
  }

  lemma NextIsStamped(w: World, e: Event, id: Id)
    requires Informed(w) && id in Next(w, e).table
    ensures Next(w, e).table[id].requestedAt <= Next(w, e).clock && w.clock <= Next(w, e).clock
  {
    hide ProcInformed;
    hide NextTable;
    hide NextProcs;
    hide Passed;
    if id in w.table { NextEvolves(w, e, id); } else { NewRowsArePending(w, e, id); }
  }

  lemma NextKeepsInformed(w: World, e: Event)
    requires Informed(w)
    ensures Informed(Next(w, e))
  {
    hide ProcInformed;
    hide NextTable;
    hide NextProcs;
    hide Enabled;
    hide Passed;
    var v := Next(w, e);
    forall id | id in v.table ensures v.table[id].requestedAt <= v.clock { NextIsStamped(w, e, id); }
    if Enabled(w, e) {
      forall p | p in v.procs ensures ProcInformed(v.table, v.procs[p]) {
        NewProcIsInformed(w, e, p);
        ProcInformedLater(w, e, v.procs[p]);
      }
    }
  }

  lemma {:induction false} AlwaysInformed(w: World, es: seq<Event>)
    requires Informed(w)
    ensures Informed(After(w, es))
  {
    hide Informed;
    hide Next;
    if es != [] {
      AlwaysInformed(w, es[..|es| - 1]);
      NextKeepsInformed(After(w, es[..|es| - 1]), es[|es| - 1]);
    }
  }

  /** The step inserts a row. */
  ghost predicate Inserts(w: World, e: Event) {
    e.InsertRow? && Enabled(w, e) && InsertResult(w.table, w.procs[e.p].n).Inserted?
  }

  /** Every command of the zone that arrived since the request's own read is old enough. */
  ghost predicate NotOvertaken(w: World, e: Event, gapMs: int)
    requires Inserts(w, e)
  {
    forall x :: x in w.table && w.table[x].zone == w.procs[e.p].n.zone && x !in w.procs[e.p].basis.known ==>
      w.clock - w.table[x].requestedAt >= gapMs
  }

  /** The newest command that read found is old enough, by the database's clock. */
  ghost predicate ReadIsOld(w: World, e: Event, gapMs: int)
    requires Inserts(w, e)
  {
    w.procs[e.p].basis.last.Some? ==> w.clock - w.procs[e.p].basis.last.value >= gapMs
  }

  ghost predicate Timely(w: World, e: Event, gapMs: int) {
    Inserts(w, e) ==> NotOvertaken(w, e, gapMs) && ReadIsOld(w, e, gapMs)
  }

  lemma InsertedRow(w: World, e: Event)
    requires Inserts(w, e)
    ensures Next(w, e).table == w.table[e.id := NewRow(w.procs[e.p].n, w.clock)] && e.id !in w.table
  {}

  lemma SpacedEarlier(w: World, e: Event, gapMs: int)
    requires Spaced(Next(w, e).table, gapMs)
    ensures Spaced(w.table, gapMs)
  {
    hide Next;
    forall a, b | a in w.table && b in w.table && a != b && w.table[a].zone == w.table[b].zone
      ensures w.table[a].requestedAt - w.table[b].requestedAt >= gapMs || w.table[b].requestedAt - w.table[a].requestedAt >= gapMs
    {
      NextEvolves(w, e, a);
      NextEvolves(w, e, b);
    }
  }

  lemma NoInsertStaysSpaced(w: World, e: Event, gapMs: int)
    requires Spaced(w.table, gapMs) && !Inserts(w, e)
    ensures Spaced(Next(w, e).table, gapMs)
  {
    var u := Next(w, e).table;
    forall id | id in u ensures id in w.table && u[id].zone == w.table[id].zone && u[id].requestedAt == w.table[id].requestedAt {
      NoInsertAddsNothing(w, e, id);
      NextEvolves(w, e, id);
    }
  }

  lemma NoInsertAddsNothing(w: World, e: Event, id: Id)
    requires !Inserts(w, e) && id in Next(w, e).table
    ensures id in w.table
  {
    hide Reads;
    hide Evaluate;
    if id !in w.table { NewRowsArePending(w, e, id); }
  }

  /** An insert keeps the spacing exactly when it was not overtaken and what it read is old enough by now. */
  lemma InsertKeepsSpacingExactly(w: World, e: Event, gapMs: int)
    requires Informed(w) && Spaced(w.table, gapMs)
    ensures Spaced(Next(w, e).table, gapMs) <==> Timely(w, e, gapMs)
  {
    hide Next;
    if !Inserts(w, e) {
      NoInsertStaysSpaced(w, e, gapMs);
    } else {
      InsertedRow(w, e);
      RowIsSpacedExactly(w.table, e.id, NewRow(w.procs[e.p].n, w.clock), gapMs);
      assert ProcInformed(w.table, w.procs[e.p]);
      KnownIsOldExactly(w.table, w.procs[e.p].n.zone, w.procs[e.p].basis.known, w.procs[e.p].basis.last, w.clock, gapMs);
    }
  }

  lemma RowIsSpacedExactly(t: Table, id: Id, c: Command, gapMs: int)
    requires Spaced(t, gapMs) && id !in t && forall x :: x in t ==> t[x].requestedAt <= c.requestedAt
    ensures Spaced(t[id := c], gapMs) <==> forall x :: x in t && t[x].zone == c.zone ==> c.requestedAt - t[x].requestedAt >= gapMs
  {
    var u := t[id := c];
    if Spaced(u, gapMs) {
      forall x | x in t && t[x].zone == c.zone ensures c.requestedAt - t[x].requestedAt >= gapMs {
        assert u[id].zone == u[x].zone && id != x;
      }
    }
  }

  lemma KnownIsOldExactly(t: Table, zone: Zone, known: set<Id>, last: Option<int>, now: int, gapMs: int)
    requires Knows(t, zone, known, last)
    ensures (last.Some? ==> now - last.value >= gapMs)
            <==> forall x :: x in known && t[x].zone == zone ==> now - t[x].requestedAt >= gapMs
  {}

  ghost predicate TimelyAt(w: World, es: seq<Event>, gapMs: int, i: nat)
    requires i < |es|
  {
    Timely(After(w, es[..i]), es[i], gapMs)
  }

  /** Every insert of the run is timely. */
  ghost predicate AllTimely(w: World, es: seq<Event>, gapMs: int) {
    forall i :: 0 <= i < |es| ==> TimelyAt(w, es, gapMs, i)
  }

  lemma TimelyPrefix(w: World, es: seq<Event>, gapMs: int)
    requires es != []
    ensures AllTimely(w, es, gapMs)
            <==> AllTimely(w, es[..|es| - 1], gapMs) && Timely(After(w, es[..|es| - 1]), es[|es| - 1], gapMs)
  {
    hide After;
    hide Timely;
    var n := |es| - 1;
    var fs := es[..n];
    if AllTimely(w, es, gapMs) {
      forall i | 0 <= i < n ensures TimelyAt(w, fs, gapMs, i) {
        assert fs[..i] == es[..i];
        assert TimelyAt(w, es, gapMs, i);
      }
      assert TimelyAt(w, es, gapMs, n);
    }
    if AllTimely(w, fs, gapMs) && Timely(After(w, fs), es[n], gapMs) {
      forall i | 0 <= i < |es| ensures TimelyAt(w, es, gapMs, i) {
        if i < n {
          assert fs[..i] == es[..i];
          assert TimelyAt(w, fs, gapMs, i);
        }
      }
    }
  }

  /**
   Over every run, any two commands of a zone end up at least the interval apart exactly when every insert of the
   run was timely: not overtaken, since its own read, by a command of its zone that is still too young, and not made
   too soon after the newest command that read found.
   */
  lemma {:induction false} CommandsAreSpacedExactly(w: World, es: seq<Event>, gapMs: int)
    requires Informed(w) && Spaced(w.table, gapMs)
    ensures Spaced(After(w, es).table, gapMs) <==> AllTimely(w, es, gapMs)
  {
    hide Informed;
    hide Spaced;
    hide Timely;
    hide Next;
    if es != [] {
      var fs, e := es[..|es| - 1], es[|es| - 1];
      var v := After(w, fs);
      CommandsAreSpacedExactly(w, fs, gapMs);
      AlwaysInformed(w, fs);
      TimelyPrefix(w, es, gapMs);
      hide AllTimely;
      if Spaced(v.table, gapMs) {
        InsertKeepsSpacingExactly(v, e, gapMs);
      } else if Spaced(Next(v, e).table, gapMs) {
        SpacedEarlier(v, e, gapMs);
      }
    }
  }

  /**
   The request was decided by a clock not ahead of the database's at its insert, under settings that ask for the
   interval.
   */
  ghost predicate DecidedInTime(w: World, e: Event, gapMs: int) {
    Inserts(w, e) ==> w.procs[e.p].basis.decidedAt <= w.clock && w.procs[e.p].basis.minIntervalS * 1000 >= gapMs
  }

  /**
   Then what the request read is old enough, so only overtaking is left: the insert keeps the spacing exactly
   when no too-young command of its zone arrived since its read.
   */
  lemma OnlyOvertakingBreaksSpacing(w: World, e: Event, gapMs: int)
    requires Informed(w) && Spaced(w.table, gapMs) && Inserts(w, e) && DecidedInTime(w, e, gapMs)
    ensures Spaced(Next(w, e).table, gapMs) <==> NotOvertaken(w, e, gapMs)
  {
    hide Next;
    hide Spaced;
    hide Knows;
    InsertKeepsSpacingExactly(w, e, gapMs);
    assert ProcInformed(w.table, w.procs[e.p]);
  }

  ghost predicate InTimeAt(w: World, es: seq<Event>, gapMs: int, i: nat)
    requires i < |es|
  {
    DecidedInTime(After(w, es[..i]), es[i], gapMs)
  }

  ghost predicate FreeAt(w: World, es: seq<Event>, gapMs: int, i: nat)
    requires i < |es|
  {
    Inserts(After(w, es[..i]), es[i]) ==> NotOvertaken(After(w, es[..i]), es[i], gapMs)
  }

  lemma InTimeIsOld(w: World, e: Event, gapMs: int)
    requires Informed(w) && Inserts(w, e) && DecidedInTime(w, e, gapMs)
    ensures ReadIsOld(w, e, gapMs)
  {
    hide Knows;
    assert ProcInformed(w.table, w.procs[e.p]);
  }

  /**
   Over every run in which workers' clocks are not ahead, commands end up spaced exactly when no request was
   overtaken.
   */
  lemma SpacedUnlessOvertaken(w: World, es: seq<Event>, gapMs: int)
    requires Informed(w) && Spaced(w.table, gapMs) && forall i :: 0 <= i < |es| ==> InTimeAt(w, es, gapMs, i)
    ensures Spaced(After(w, es).table, gapMs) <==> forall i :: 0 <= i < |es| ==> FreeAt(w, es, gapMs, i)
  {
    hide Informed;
    hide Spaced;
    hide Inserts;
    hide After;
    CommandsAreSpacedExactly(w, es, gapMs);
    forall i | 0 <= i < |es| ensures TimelyAt(w, es, gapMs, i) <==> FreeAt(w, es, gapMs, i) {
      assert InTimeAt(w, es, gapMs, i);
      AlwaysInformed(w, es[..i]);
      if Inserts(After(w, es[..i]), es[i]) { InTimeIsOld(After(w, es[..i]), es[i], gapMs); }
    }
  }

  /** In particular a request that reads and inserts with no other command of its zone arriving in between keeps it. */
  lemma UndisturbedIssueKeepsSpacing(w: World, e: Event, gapMs: int)
    requires Informed(w) && Spaced(w.table, gapMs) && Inserts(w, e) && DecidedInTime(w, e, gapMs)
    requires forall x :: x in w.table && w.table[x].zone == w.procs[e.p].n.zone ==> x in w.procs[e.p].basis.known
    ensures Spaced(Next(w, e).table, gapMs)
  {
    OnlyOvertakingBreaksSpacing(w, e, gapMs);
  }

  // ----- both ways to break it -----

  /** Two requests at once: both read, then the first is inserted and withdrawn, then the second is inserted. */
  function Overtaking(zone: Zone, user: nat, r: Request, role: Role, k: CommandFacts, appNow: int, p: nat, q: nat, i: Id, j: Id): seq<Event> {
    Ask(zone, user, r, role, k, appNow, p) + Ask(zone, user, r, role, k, appNow, q)
    + [InsertRow(p, i), CancelRow(i)] + [InsertRow(q, j)]
  }

  lemma InsertAndWithdraw(w: World, p: nat, i: Id, n: NewCommand)
    requires p in w.procs && w.procs[p].Inserting? && w.procs[p].n == n && Storable(n) && !Busy(w.table, n.zone) && i !in w.table
    ensures var v := After(w, [InsertRow(p, i), CancelRow(i)]);
            && v.clock == w.clock && v.procs == w.procs - {p} && v.table.Keys == w.table.Keys + {i}
            && v.table[i].zone == n.zone && v.table[i].requestedAt == w.clock && !Busy(v.table, n.zone)
  {
    InsertFree(w, p, i, n);
    AfterTwo(w, InsertRow(p, i), CancelRow(i));
    var v := Next(Next(w, InsertRow(p, i)), CancelRow(i));
    forall id | id in v.table && v.table[id].zone == n.zone ensures !Live(v.table[id]) {
      if id != i { assert v.table[id] == w.table[id]; }
    }
  }

  /**
   A request can be overtaken: from any world where a storable request would be accepted, some run leaves the zone
   two commands made at the same instant.
   */
  lemma InterleavedIssuesBreakSpacing(w: World, zone: Zone, user: nat, r: Request, role: Role, k: CommandFacts, appNow: int,
                                      n: NewCommand, p: nat, q: nat, i: Id, j: Id)
    requires p != q && p !in w.procs && q !in w.procs && i != j && i !in w.table && j !in w.table
    requires Accepts(w, zone, user, r, role, k, appNow, n) && Storable(n)
    ensures var t := After(w, Overtaking(zone, user, r, role, k, appNow, p, q, i, j)).table;
            && i in t && j in t && t[i].zone == t[j].zone == zone && t[i].requestedAt == t[j].requestedAt
            && !Spaced(t, 1)
  {
    hide Accepts;
    hide After;
    hide Next;
    var first, second := Ask(zone, user, r, role, k, appNow, p), Ask(zone, user, r, role, k, appNow, q);
    var middle := [InsertRow(p, i), CancelRow(i)];
    AskIsAccepted(w, zone, user, r, role, k, appNow, p, n);
    var a := After(w, first);
    assert Accepts(a, zone, user, r, role, k, appNow, n) by { SameAccepts(w, a, zone, user, r, role, k, appNow, n); }
    AskIsAccepted(a, zone, user, r, role, k, appNow, q, n);
    var b := After(a, second);
    AcceptedIsNotBusy(w, zone, user, r, role, k, appNow, n);
    InsertAndWithdraw(b, p, i, n);
    var d := After(b, middle);
    InsertFree(d, q, j, n);
    AfterOne(d, InsertRow(q, j));
    AfterConcat(w, first, second);
    AfterConcat(w, first + second, middle);
    AfterConcat(w, first + second + middle, [InsertRow(q, j)]);
  }

  lemma SameAccepts(w: World, v: World, zone: Zone, user: nat, r: Request, role: Role, k: CommandFacts, appNow: int, n: NewCommand)
    requires Accepts(w, zone, user, r, role, k, appNow, n)
    requires v.table == w.table && v.clock == w.clock && v.settings == w.settings && v.facts == w.facts
    ensures Accepts(v, zone, user, r, role, k, appNow, n)
  {}

  /**
   A worker whose clock is ahead accepts too early: whenever the zone's newest command is too young by the
   database's clock and the request is accepted all the same, issuing it breaks the spacing with nobody else
   acting.
   */
  lemma ClockAheadBreaksSpacing(w: World, zone: Zone, user: nat, r: Request, role: Role, k: CommandFacts, appNow: int,
                                n: NewCommand, p: nat, i: Id)
    requires p !in w.procs && i !in w.table && Accepts(w, zone, user, r, role, k, appNow, n) && Storable(n)
    requires k.lastCommandAt.Some? && 0 <= w.clock - k.lastCommandAt.value < w.settings.minIntervalS * 1000
    ensures w.clock < appNow
    ensures !Spaced(After(w, Ask(zone, user, r, role, k, appNow, p) + [InsertRow(p, i)]).table, w.settings.minIntervalS * 1000)
  {
    hide After;
    hide Next;
    hide Evaluate;
    hide Spaced;
    AskIsAccepted(w, zone, user, r, role, k, appNow, p, n);
    var a := After(w, Ask(zone, user, r, role, k, appNow, p));
    AcceptedIsNotBusy(w, zone, user, r, role, k, appNow, n);
    InsertFree(a, p, i, n);
    AfterOne(a, InsertRow(p, i));
    AfterConcat(w, Ask(zone, user, r, role, k, appNow, p), [InsertRow(p, i)]);
    AcceptedRespectsTheInterval(r, Context(w.settings, role, FactsOf(w.facts, zone), k, appNow));
    var newest :| Newest(w.table, zone, newest) && w.table[newest].requestedAt == k.lastCommandAt.value;
    TwoTooClose(w.table[i := NewRow(n, w.clock)], newest, i, w.settings.minIntervalS * 1000);
  }

  lemma TwoTooClose(t: Table, a: Id, b: Id, gapMs: int)
    requires a in t && b in t && a != b && t[a].zone == t[b].zone && 0 <= t[b].requestedAt - t[a].requestedAt < gapMs
    ensures !Spaced(t, gapMs)
  {}
}
