/**
 The answers polls give their gateways: nothing is handed out twice, what passed its re-check goes out
 exactly when its poll lives to answer, and what goes out may have been cancelled since.
 */
module ControlHandOver {
  import opened Envelope
  import opened CommandStore
  import opened ControlService
  import opened ControlProtocol
  import opened ControlDelivery
  import opened OldestFirst
  import opened Wrappers

  function IdsOf(handed: seq<Handed>): seq<Id> {
    if handed == [] then [] else IdsOf(handed[..|handed| - 1]) + [handed[|handed| - 1].id]
  }

  lemma {:induction false} IdsOfConcat(a: seq<Handed>, b: seq<Handed>)
    ensures IdsOf(a + b) == IdsOf(a) + IdsOf(b)
    decreases |b|
  {
    if b == [] {
      assert a + b == a;
    } else {
      var n := |b| - 1;
      assert (a + b)[..|a + b| - 1] == a + b[..n];
      IdsOfConcat(a, b[..n]);
    }
  }

  lemma {:induction false} IdsOfAt(handed: seq<Handed>)
    ensures |IdsOf(handed)| == |handed| && forall i :: 0 <= i < |handed| ==> IdsOf(handed)[i] == handed[i].id
  {
    if handed != [] { IdsOfAt(handed[..|handed| - 1]); }
  }

  // ----- at most once -----

  /** The commands a poll has claimed and neither released nor answered with. */
  function Carried(q: Proc): seq<Id> { if q.Rechecking? then IdsOf(q.passed) + q.todo else [] }

  function Times(s: seq<Id>, id: Id): nat { multiset(s)[id] }

  ghost function TimesCarried(w: World, p: nat, id: Id): nat { if p in w.procs then Times(Carried(w.procs[p]), id) else 0 }

  predicate Collected(t: Table, id: Id) { id in t && t[id].state !in {Pending, Expired} }

  /** The command is with one poll, once, or was handed out, once, or neither; and a pending one is neither. */
  ghost predicate Once(w: World, id: Id) {
    var out := Times(IdsOf(w.handed), id);
    && out <= 1 && (out == 1 ==> Collected(w.table, id))
    && (forall p :: TimesCarried(w, p, id) <= 1 && (TimesCarried(w, p, id) == 1 ==> out == 0 && Collected(w.table, id)))
    && forall p, q :: TimesCarried(w, p, id) == 1 && TimesCarried(w, q, id) == 1 ==> p == q
  }

  lemma {:induction false} DistinctTimes(s: seq<Id>, id: Id)
    requires Distinct(s)
    ensures Times(s, id) == if id in s then 1 else 0
  {
    if s != [] {
      var n := |s| - 1;
      assert s == s[..n] + [s[n]];
      DistinctTimes(s[..n], id);
      if s[n] == id { assert s[n] !in s[..n]; }
    }
  }

  lemma NextKeepsCollected(w: World, e: Event, id: Id)
    requires Collected(w.table, id) && !(Rechecks(w, e) && RecheckId(w, e) == id)
    ensures Collected(Next(w, e).table, id)
  {
    hide Evaluate;
    hide Reads;
    hide Passed;
  }

  /** What each kind of step does to the number of times a poll carries a command. */
  ghost predicate CarriesOn(w: World, e: Event, p: nat, id: Id, now: nat, next: nat)
    requires Enabled(w, e)
  {
    match e
    case ClaimBatch(q, ids) => next == if p == q then Times(ids, id) else now
    case RecheckNext(q, _, _, _) => next == now - (if p == q && !Passed(w, e) && RecheckId(w, e) == id then 1 else 0)
    case HandOver(q) => next == if p == q then 0 else now
    case _ => next <= now
  }

  /** A command that passes stays with its poll, one that does not leaves it. */
  lemma CarriedAfterRecheck(q: Proc, h: Handed, id: Id)
    requires q.Rechecking? && q.todo != [] && h.id == q.todo[0]
    ensures Carried(Rechecking(q.settings, q.passed + [h], q.todo[1..])) == Carried(q)
    ensures Times(Carried(Rechecking(q.settings, q.passed, q.todo[1..])), id) == Times(Carried(q), id) - (if id == h.id then 1 else 0)
  {
    hide IdsOf;
    IdsOfConcat(q.passed, [h]);
    IdsOfOne(h);
    var ids, rest := IdsOf(q.passed), q.todo[1..];
    assert q.todo == [h.id] + rest;
    assert ids + [h.id] + rest == ids + q.todo;
  }

  lemma RecheckCarriesOn(w: World, e: Event, id: Id)
    requires Rechecks(w, e)
    ensures CarriesOn(w, e, e.p, id, TimesCarried(w, e.p, id), TimesCarried(Next(w, e), e.p, id))
  {
    hide Recheck;
    hide Reads;
    hide Release;
    hide Carried;
    hide Times;
    hide RecheckContext;
    var q, h := w.procs[e.p], HandedBy(w, e);
    PassesExactly(w, e);
    CarriedAfterRecheck(q, h, id);
    hide Next;
  }

  lemma NextCarriesOn(w: World, e: Event, p: nat, id: Id)
    requires Enabled(w, e)
    ensures CarriesOn(w, e, p, id, TimesCarried(w, p, id), TimesCarried(Next(w, e), p, id))
  {
    hide Evaluate;
    hide Reads;
    hide Passed;
    hide NextTable;
    hide Carried;
    hide Times;
    hide HandedBy;
    hide AskContext;
    hide BasisOf;
    var v := Next(w, e);
    if e.RecheckNext? && p == e.p {
      RecheckCarriesOn(w, e, id);
    } else if e.ClaimBatch? && p == e.p {
      ClaimIsCarried(w.procs[p].settings, e.ids);
    } else if p in v.procs && !v.procs[p].Rechecking? {
      NothingCarried(v.procs[p], id);
    }
  }

  lemma ClaimIsCarried(settings: Settings, ids: seq<Id>)
    ensures Carried(Rechecking(settings, [], ids)) == ids
  {
    assert [] + ids == ids;
  }

  lemma NothingCarried(q: Proc, id: Id)
    requires !q.Rechecking?
    ensures Times(Carried(q), id) == 0
  {}

  lemma IdsOfOne(h: Handed)
    ensures IdsOf([h]) == [h.id]
  {
    assert [h][..0] == [];
  }

  lemma HandedAfter(w: World, e: Event, id: Id)
    requires Enabled(w, e)
    ensures Times(IdsOf(Next(w, e).handed), id) == Times(IdsOf(w.handed), id) + (if e.HandOver? then TimesCarried(w, e.p, id) else 0)
  {
    hide NextTable;
    hide NextProcs;
    if e.HandOver? {
      IdsOfConcat(w.handed, w.procs[e.p].passed);
      assert Carried(w.procs[e.p]) == IdsOf(w.procs[e.p].passed);
    }
  }

  lemma RecheckedIsCarried(w: World, e: Event)
    requires Rechecks(w, e)
    ensures TimesCarried(w, e.p, RecheckId(w, e)) >= 1
  {
    hide Reads;
    var q := w.procs[e.p];
    assert Carried(q)[|IdsOf(q.passed)|] == q.todo[0];
  }

  lemma ClaimedIsNew(w: World, e: Event, id: Id)
    requires Once(w, id) && e.ClaimBatch? && Enabled(w, e)
    ensures Times(e.ids, id) <= 1
    ensures Times(e.ids, id) == 1 ==>
              Collected(Next(w, e).table, id) && Times(IdsOf(w.handed), id) == 0 && forall p :: TimesCarried(w, p, id) == 0
  {
    DistinctTimes(e.ids, id);
    if id in e.ids {
      assert Claimable(w.table, id, w.clock);
      assert !Collected(w.table, id);
    }
  }

  lemma NextKeepsOnce(w: World, e: Event, id: Id)
    requires Once(w, id)
    ensures Once(Next(w, e), id)
  {
    hide Next;
    hide Times;
    hide TimesCarried;
    hide Collected;
    hide Enabled;
    hide Passed;
    hide RecheckId;
    if Enabled(w, e) {
      HandedAfter(w, e, id);
      forall p ensures CarriesOn(w, e, p, id, TimesCarried(w, p, id), TimesCarried(Next(w, e), p, id)) {
        NextCarriesOn(w, e, p, id);
      }
      if e.ClaimBatch? { ClaimedIsNew(w, e, id); }
      if Rechecks(w, e) && RecheckId(w, e) == id {
        RecheckedIsCarried(w, e);
        if Passed(w, e) { RecheckKeeps(w, e); }
      } else if Collected(w.table, id) {
        NextKeepsCollected(w, e, id);
      }
    } else {
      DisabledDoesNothing(w, e);
    }
  }

  lemma RecheckKeeps(w: World, e: Event)
    requires Rechecks(w, e) && Collected(w.table, RecheckId(w, e)) && Passed(w, e)
    ensures Collected(Next(w, e).table, RecheckId(w, e))
  {}

  lemma DisabledDoesNothing(w: World, e: Event)
    requires !Enabled(w, e)
    ensures Next(w, e) == w
  {}

  lemma {:induction false} AlwaysOnce(w: World, es: seq<Event>, id: Id)
    requires Once(w, id)
    ensures Once(After(w, es), id)
  {
    hide Once;
    hide Next;
    if es != [] {
      AlwaysOnce(w, es[..|es| - 1], id);
      NextKeepsOnce(After(w, es[..|es| - 1]), es[|es| - 1], id);
    }
  }

  lemma FreshIsOnce(w: World, id: Id)
    requires Fresh(w)
    ensures Once(w, id)
  {}

  /** However polls, requests, reports and crashes interleave, no command is ever handed out twice. */
  lemma HandedOutAtMostOnce(w: World, es: seq<Event>)
    requires Fresh(w)
    ensures forall i, j :: 0 <= i < j < |After(w, es).handed| ==> After(w, es).handed[i].id != After(w, es).handed[j].id
  {
    hide After;
    hide Fresh;
    var handed := After(w, es).handed;
    forall i, j | 0 <= i < j < |handed| ensures handed[i].id != handed[j].id {
      if handed[i].id == handed[j].id {
        FreshIsOnce(w, handed[i].id);
        AlwaysOnce(w, es, handed[i].id);
        IdsOfAt(handed);
        TwiceCounts(IdsOf(handed), i, j);
      }
    }
  }

  lemma TwiceCounts(s: seq<Id>, i: nat, j: nat)
    requires i < j < |s| && s[i] == s[j]
    ensures Times(s, s[i]) >= 2
  {
    assert s == s[..i] + [s[i]] + s[i + 1..j] + [s[j]] + s[j + 1..];
  }

  // ----- an answer given, or not -----

  /** The poll has let the command through and has not answered yet. */
  ghost predicate Standing(w: World, p: nat, h: Handed) { p in w.procs && w.procs[p].Rechecking? && h in w.procs[p].passed }

  /** How the poll's process ended, if it did: it answered, or it died. */
  ghost function EndOf(w: World, es: seq<Event>, p: nat): Option<bool> {
    if es == [] then None
    else
      var fs, e := es[..|es| - 1], es[|es| - 1];
      if EndOf(w, fs, p).Some? then EndOf(w, fs, p)
      else if e == HandOver(p) && Enabled(After(w, fs), e) then Some(true)
      else if e == Crash(p) then Some(false)
      else None
  }

  /** The command was collected and no poll will ever answer with it. */
  ghost predicate Forgotten(w: World, id: Id) {
    Collected(w.table, id) && Times(IdsOf(w.handed), id) == 0 && forall p :: TimesCarried(w, p, id) == 0
  }

  lemma NextKeepsForgotten(w: World, e: Event, id: Id)
    requires Forgotten(w, id)
    ensures Forgotten(Next(w, e), id)
  {
    hide Next;
    hide Times;
    hide TimesCarried;
    hide Collected;
    hide Enabled;
    hide Passed;
    hide RecheckId;
    if Enabled(w, e) {
      HandedAfter(w, e, id);
      forall p ensures CarriesOn(w, e, p, id, TimesCarried(w, p, id), TimesCarried(Next(w, e), p, id)) {
        NextCarriesOn(w, e, p, id);
      }
      if e.ClaimBatch? { assert Once(w, id); ClaimedIsNew(w, e, id); CollectedIsNotClaimed(w, e, id); }
      if Rechecks(w, e) { RecheckedIsCarried(w, e); }
      NextKeepsCollected(w, e, id);
    } else {
      DisabledDoesNothing(w, e);
    }
  }

  lemma CollectedIsNotClaimed(w: World, e: Event, id: Id)
    requires Collected(w.table, id) && e.ClaimBatch? && Enabled(w, e)
    ensures Times(e.ids, id) == 0
  {
    assert forall i :: i in e.ids ==> Claimable(w.table, i, w.clock);
    assert id !in e.ids;
  }

  lemma PassedIsCarried(w: World, p: nat, h: Handed)
    requires Standing(w, p, h)
    ensures TimesCarried(w, p, h.id) >= 1
  {
    var q := w.procs[p];
    IdsOfAt(q.passed);
    var i :| 0 <= i < |q.passed| && q.passed[i] == h;
    assert Carried(q)[i] == h.id;
  }

  lemma HandedCounts(w: World, h: Handed)
    requires h in w.handed
    ensures Times(IdsOf(w.handed), h.id) >= 1
  {
    IdsOfAt(w.handed);
    var i :| 0 <= i < |w.handed| && w.handed[i] == h;
    assert IdsOf(w.handed)[i] == h.id;
  }

  lemma NextKeepsStanding(w: World, e: Event, p: nat, h: Handed)
    requires Standing(w, p, h) && e != HandOver(p) && e != Crash(p)
    ensures Standing(Next(w, e), p, h)
  {
    hide Evaluate;
    hide Reads;
    hide Passed;
    hide NextTable;
  }

  lemma AnsweringHandsOver(w: World, p: nat, h: Handed)
    requires Standing(w, p, h) && Enabled(w, HandOver(p))
    ensures h in Next(w, HandOver(p)).handed
  {
    assert h in w.handed + w.procs[p].passed;
  }

  lemma NextKeepsHanded(w: World, e: Event, h: Handed)
    requires h in w.handed
    ensures h in Next(w, e).handed
  {
    hide NextTable;
    hide NextProcs;
    hide Reads;
  }

  lemma CrashForgets(w: World, p: nat, h: Handed)
    requires Standing(w, p, h) && Once(w, h.id)
    ensures Forgotten(Next(w, Crash(p)), h.id)
  {
    hide Times;
    hide Carried;
    PassedIsCarried(w, p, h);
    var v := Next(w, Crash(p));
    assert v.table == w.table && v.handed == w.handed && v.procs == w.procs - {p};
    forall q ensures TimesCarried(v, q, h.id) == 0 {
      if q != p {
        assert TimesCarried(w, q, h.id) == 0;
        assert q in v.procs ==> q in w.procs && v.procs[q] == w.procs[q];
      }
    }
  }

  /**
   A command that passed its re-check is handed out exactly when its poll lives to answer. If it dies first, no
   poll ever hands the command out.
   */
  lemma {:induction false} PassedIsHandedOutExactly(w: World, es: seq<Event>, p: nat, h: Handed)
    requires Once(w, h.id) && Standing(w, p, h)
    ensures h in After(w, es).handed <==> EndOf(w, es, p) == Some(true)
    ensures EndOf(w, es, p) == None ==> Standing(After(w, es), p, h)
    ensures EndOf(w, es, p) == Some(false) ==> Forgotten(After(w, es), h.id)
  {
    hide Standing;
    hide Once;
    hide Next;
    hide Enabled;
    hide Forgotten;
    var v := After(w, es);
    if es != [] {
      var fs, e := es[..|es| - 1], es[|es| - 1];
      var u := After(w, fs);
      PassedIsHandedOutExactly(w, fs, p, h);
      AlwaysOnce(w, fs, h.id);
      match EndOf(w, fs, p)
      case Some(true) => NextKeepsHanded(u, e, h);
      case Some(false) => NextKeepsForgotten(u, e, h.id);
      case None =>
        if e == HandOver(p) {
          if Enabled(u, e) { AnsweringHandsOver(u, p, h); } else { DisabledDoesNothing(u, e); }
        } else if e == Crash(p) {
          CrashForgets(u, p, h);
        } else {
          NextKeepsStanding(u, e, p, h);
        }
    }
    AlwaysOnce(w, es, h.id);
    if EndOf(w, es, p) != Some(true) { OnlyOnce(v, p, h); }
  }

  /**
   An accepted command from its row to its gateway. After any run that leaves its zone and the settings alone, a poll
   that re-checks it lets it through exactly when the reading is fresh and the requester may command; and then,
   whatever happens next, the gateway gets it exactly when the poll lives to answer.
   */
  lemma AcceptedIsHandedOutExactly(w: World, es: seq<Event>, id: Id, r: Request, c: Context, e: Event, fs: seq<Event>)
    requires Exclusive(w.table, w.clock) && PollsHold(w, w.settings) && Sane(w.settings) && Once(w, id)
    requires id in w.table && Live(w.table[id]) && w.table[id].setpoint == r.setpoint
    requires Evaluate(r, c).Accept? && c.settings == w.settings && c.zone == FactsOf(w.facts, w.table[id].zone)
    requires c.commands.activeOverride == OverrideOf(w.table, w.table[id].zone, w.clock)
    requires UndisturbedRun(w, es, id) && After(w, es).clock < w.table[id].expiresAt
    requires OverridesOutlast(w.table, w.table[id].zone, w.clock, After(w, es).clock)
    requires Rechecks(After(w, es), e) && RecheckId(After(w, es), e) == id
    ensures var v := After(w, es);
            && c.zone.feedback.Some?
            && (Passed(v, e) <==> !Stale(c.zone.feedback.value, e.appNow) && MayCommand(e.role))
            && (Passed(v, e) ==> (HandedBy(v, e) in After(Next(v, e), fs).handed <==> EndOf(Next(v, e), fs, e.p) == Some(true)))
  {
    hide Evaluate;
    hide Reads;
    hide Recheck;
    hide After;
    hide Next;
    hide Exclusive;
    hide OverridesOutlast;
    hide UndisturbedRun;
    hide Once;
    hide Waiting;
    hide Live;
    hide EndOf;
    var v := After(w, es);
    AcceptedIsLetThroughExactly(w, es, id, r, c, e);
    RecheckLetsThrough(v, e);
    if Passed(v, e) {
      AlwaysOnce(w, es, id);
      NextKeepsOnce(v, e, id);
      PassedIsHandedOutExactly(Next(v, e), fs, e.p, HandedBy(v, e));
    }
  }

  lemma OnlyOnce(w: World, p: nat, h: Handed)
    requires Once(w, h.id) && (Standing(w, p, h) || Forgotten(w, h.id))
    ensures h !in w.handed
  {
    hide Times;
    hide TimesCarried;
    if Standing(w, p, h) { PassedIsCarried(w, p, h); }
    if h in w.handed { HandedCounts(w, h); }
  }

  // ----- what a handed command has become -----

  /** The step cancels a live command or settles a dispatched one. */
  predicate Touches(w: World, e: Event, id: Id) {
    id in w.table && ((e == CancelRow(id) && Live(w.table[id])) || (e.Report? && e.id == id && w.table[id].state == Dispatched))
  }

  ghost predicate Untouched(w: World, es: seq<Event>, id: Id) {
    forall i :: 0 <= i < |es| ==> !Touches(After(w, es[..i]), es[i], id)
  }

  /** Nobody has cancelled or settled the command. */
  predicate OpenEnded(t: Table, id: Id) { id in t ==> t[id].state in {Pending, Dispatched, Expired} }

  lemma NextOpenEnded(w: World, e: Event, id: Id)
    ensures OpenEnded(Next(w, e).table, id) <==> OpenEnded(w.table, id) && !Touches(w, e, id)
  {
    hide Evaluate;
    hide Reads;
    hide Passed;
    if Enabled(w, e) && e.ClaimBatch? && id in e.ids { assert Claimable(w.table, id, w.clock); }
  }

  lemma UntouchedSplits(w: World, es: seq<Event>, id: Id)
    requires es != []
    ensures var n := |es| - 1; Untouched(w, es, id) <==> Untouched(w, es[..n], id) && !Touches(After(w, es[..n]), es[n], id)
  {
    hide Touches;
    hide After;
    var fs := es[..|es| - 1];
    assert forall i :: 0 <= i < |fs| ==> fs[..i] == es[..i] && fs[i] == es[i];
  }

  lemma {:induction false} OpenEndedIsUntouched(w: World, es: seq<Event>, id: Id)
    requires id !in w.table
    ensures OpenEnded(After(w, es).table, id) <==> Untouched(w, es, id)
  {
    hide OpenEnded;
    hide Touches;
    hide Next;
    if es == [] {
      NewIsOpenEnded(w.table, id);
    } else {
      hide Untouched;
      var n := |es| - 1;
      OpenEndedIsUntouched(w, es[..n], id);
      NextOpenEnded(After(w, es[..n]), es[n], id);
      UntouchedSplits(w, es, id);
    }
  }

  lemma NewIsOpenEnded(t: Table, id: Id)
    requires id !in t
    ensures OpenEnded(t, id)
  {}

  /** A poll has claimed the command and may yet answer with it, or it was handed out. */
  ghost predicate WithAGateway(w: World, id: Id) { Times(IdsOf(w.handed), id) == 1 || exists p :: TimesCarried(w, p, id) == 1 }

  /**
   Between its claim and its gateway's report a command is still dispatched exactly when nobody has cancelled or
   settled it, whatever the clock says; so a cancelled or expired command can still be handed out. And one that was handed out
   and is still dispatched is an orphan as far as the protocol goes: only a report or a cancellation ends it.
   */
  lemma HandedIsDispatchedExactly(w: World, es: seq<Event>, id: Id)
    requires Fresh(w) && WithAGateway(After(w, es), id)
    ensures Held(After(w, es).table, id) <==> Untouched(w, es, id)
    ensures Times(IdsOf(After(w, es).handed), id) == 1 && Untouched(w, es, id) ==> Orphaned(After(w, es), id)
  {
    hide After;
    hide Untouched;
    hide Times;
    var v := After(w, es);
    FreshIsOnce(w, id);
    AlwaysOnce(w, es, id);
    OpenEndedIsUntouched(w, es, id);
    if Times(IdsOf(v.handed), id) == 1 {
      forall p | p in v.procs && v.procs[p].Rechecking? ensures id !in v.procs[p].todo { TodoIsCarried(v, p, id); }
    }
  }

  lemma TodoIsCarried(w: World, p: nat, id: Id)
    requires p in w.procs && w.procs[p].Rechecking?
    ensures id in w.procs[p].todo ==> TimesCarried(w, p, id) >= 1
  {}

  /** The same re-check when nothing of the zone is in flight. */
  function WhenIdle(e: Event): Event
    requires e.RecheckNext?
  {
    RecheckNext(e.p, e.k.(inFlight := false), e.role, e.appNow)
  }

  /** A cancellation that arrives between a command's claim and its re-check. */
  function CancelledMeanwhile(e: Event, id: Id): seq<Event>
    requires e.RecheckNext?
  {
    [CancelRow(id)] + [WhenIdle(e), HandOver(e.p)]
  }

  lemma CancelledReads(t: Table, id: Id, now: int, k: CommandFacts)
    requires OneLive(t) && Held(t, id) && Reads(t, t[id].zone, now, k)
    ensures Reads(Cancel(t, id), t[id].zone, now, k.(inFlight := false))
  {
    var u, zone := Cancel(t, id), t[id].zone;
    assert forall x :: x in t ==>
        u[x].zone == t[x].zone && u[x].setpoint == t[x].setpoint && u[x].requestedAt == t[x].requestedAt && u[x].effectiveUntil == t[x].effectiveUntil
        && (Active(u[x], now) <==> Active(t[x], now));
    assert !Busy(u, zone);
    if k.activeOverride.Some? {
      var x :| Overrides(t, zone, now, x) && t[x].setpoint == k.activeOverride.value;
      assert Overrides(u, zone, now, x);
    }
    if k.lastCommandAt.Some? {
      var x :| Newest(t, zone, x) && t[x].requestedAt == k.lastCommandAt.value;
      assert Newest(u, zone, x);
    }
  }

  lemma CancelKeepsPassing(w: World, e: Event)
    requires Rechecks(w, e) && Passed(w, e) && OneLive(w.table) && Held(w.table, RecheckId(w, e))
    ensures var v, f := Next(w, CancelRow(RecheckId(w, e))), WhenIdle(e);
            && Rechecks(v, f) && Passed(v, f) && RecheckId(v, f) == RecheckId(w, e) && v.procs == w.procs && v.handed == w.handed
            && v.table == Cancel(w.table, RecheckId(w, e)) && v.table[RecheckId(w, e)].state == Cancelled
  {
    hide Evaluate;
    var id := RecheckId(w, e);
    var v := Next(w, CancelRow(id));
    var zone := w.table[id].zone;
    assert v == w.(table := Cancel(w.table, id));
    hide Next;
    CancelledReads(w.table, id, w.clock, e.k);
    hide Reads;
  }

  /** A cancelled command goes out all the same, whenever the re-check would have let it through. */
  lemma CancelledIsHandedOut(w: World, e: Event)
    requires Rechecks(w, e) && Passed(w, e) && w.procs[e.p].todo == [RecheckId(w, e)]
    requires OneLive(w.table) && Held(w.table, RecheckId(w, e))
    ensures var id, v := RecheckId(w, e), After(w, CancelledMeanwhile(e, RecheckId(w, e)));
            && id in v.table && v.handed != [] && v.handed[|v.handed| - 1].id == id && v.table[id].state == Cancelled
  {
    hide After;
    hide Next;
    hide Reads;
    hide Recheck;
    hide RecheckContext;
    var id, f := RecheckId(w, e), WhenIdle(e);
    CancelKeepsPassing(w, e);
    var v := Next(w, CancelRow(id));
    AfterOne(w, CancelRow(id));
    AfterTwo(v, f, HandOver(e.p));
    AfterConcat(w, [CancelRow(id)], [f, HandOver(e.p)]);
    PassesExactly(v, f);
    AnswerEnds(Next(v, f), e.p);
  }

  lemma AnswerEnds(w: World, p: nat)
    requires Enabled(w, HandOver(p))
    ensures Next(w, HandOver(p)).handed == w.handed + w.procs[p].passed && Next(w, HandOver(p)).table == w.table
  {}
}
