/**
 The notification outbox of apps/ingest/src/rules/notify.ts: a leased work queue shared by several
 workers. Claims and marks are single transactions; a send is a step of its own between them, and
 nothing but the lease keeps two workers from sending the same row.
 */
module Outbox {
  import opened OldestFirst
  import opened Wrappers

  type Id = nat
  type AlertId = nat

  datatype Status = Pending | Delivered | Failed

  /** Mail and webhook deliveries mark inside a `try`; a log line is marked outside one. */
  datatype Channel = Log | Email | Webhook

  datatype Row = Row(alert: AlertId, channel: Channel, createdAt: int, status: Status, attempts: nat, claimedAt: Option<int>)

  type Table = map<Id, Row>

  datatype Config = Config(maxAttempts: nat, leaseMs: nat, batch: nat)

  /** Not delivered, attempts left, alert still open, and no lease running. */
  predicate Claimable(cfg: Config, t: Table, resolved: set<AlertId>, id: Id, now: int) {
    && id in t && t[id].status != Delivered && t[id].attempts < cfg.maxAttempts && t[id].alert !in resolved
    && (t[id].claimedAt.Some? ==> t[id].claimedAt.value < now - cfg.leaseMs)
  }

  function ClaimRows(t: Table, ids: set<Id>, now: int): Table {
    map id | id in t :: if id in ids then t[id].(claimedAt := Some(now)) else t[id]
  }

  /** Marking has no guard on the row's status. */
  function Mark(t: Table, id: Id, status: Status): Table {
    if id in t then t[id := t[id].(status := status, attempts := t[id].attempts + 1)] else t
  }

  // ----- workers -----

  /** What came of sending: nothing was sent yet, the send threw, the receiver refused, or it accepted. */
  datatype Answer = Unsent | Lost | Refusal | Acceptance

  /**
   A worker's hold on one claimed row; `worker` names one claim batch of one process. `misled` is a mark that was
   committed though the worker was told it had failed.
   */
  datatype Holding = Holding(worker: nat, row: Id, since: int, answer: Answer, misled: Option<Status>)

  datatype Claimed = Claimed(row: Id, at: int)

  /** `claims` and `sends` are histories, newest last. */
  datatype World = World(now: int, rows: Table, resolved: set<AlertId>, held: set<Holding>, claims: seq<Claimed>, sends: seq<Id>)

  datatype Event =
    | NewRow(id: Id, alert: AlertId, channel: Channel)
    | ResolveAlert(alert: AlertId)
    | Claim(worker: nat, id: Id)
    | Send(h: Holding, answer: Answer)
    | MarkDelivered(h: Holding)
    | MarkFailed(h: Holding)
    | MarkMisleads(h: Holding, status: Status)
    | Crash(h: Holding)
    | Tick(later: int)

  /** Delivery is marked only after a send that was accepted; a failure also without one, when there is no way to send. */
  predicate CanMark(w: World, h: Holding, status: Status) {
    && h in w.held && h.row in w.rows
    && match status
       case Pending => false
       case Delivered => h.answer == Acceptance && h.misled.None?
       case Failed => w.rows[h.row].channel != Log
  }

  /** A log line cannot fail, and mail is not refused but throws. */
  function Answers(c: Channel): set<Answer> {
    match c
    case Log => {Acceptance}
    case Email => {Lost, Acceptance}
    case Webhook => {Lost, Refusal, Acceptance}
  }

  /**
   A batch claim is one `Claim` step per row at the same time. A mark made inside a `try` can mislead: it is
   committed and reported as an error, and the worker goes on to mark the row failed. A worker lets go of a row by
   `Crash` when it dies, when its mark is lost, or when it has nothing to mark.
   */
  predicate Enabled(cfg: Config, w: World, e: Event) {
    match e
    case NewRow(id, _, _) => id !in w.rows
    case ResolveAlert(_) => true
    case Claim(_, id) => Claimable(cfg, w.rows, w.resolved, id, w.now)
    case Send(h, answer) => h in w.held && h.row in w.rows && h.answer == Unsent && answer in Answers(w.rows[h.row].channel)
    case MarkDelivered(h) => CanMark(w, h, Delivered)
    case MarkFailed(h) => CanMark(w, h, Failed)
    case MarkMisleads(h, status) =>
      CanMark(w, h, status) && h.misled.None? && w.rows[h.row].channel != Log && (status == Failed ==> h.answer == Refusal)
    case Crash(h) => h in w.held
    case Tick(later) => w.now <= later
  }

  function Next(cfg: Config, w: World, e: Event): World {
    if !Enabled(cfg, w, e) then w
    else
      match e
      case NewRow(id, alert, channel) => w.(rows := w.rows[id := Row(alert, channel, w.now, Pending, 0, None)])
      case ResolveAlert(alert) => w.(resolved := w.resolved + {alert})
      case Claim(worker, id) =>
        w.(rows := ClaimRows(w.rows, {id}, w.now), held := w.held + {Holding(worker, id, w.now, Unsent, None)},
           claims := w.claims + [Claimed(id, w.now)])
      case Send(h, answer) => w.(held := w.held - {h} + {h.(answer := answer)}, sends := w.sends + [h.row])
      case MarkDelivered(h) => w.(rows := Mark(w.rows, h.row, Delivered), held := w.held - {h})
      case MarkFailed(h) => w.(rows := Mark(w.rows, h.row, Failed), held := w.held - {h})
      case MarkMisleads(h, status) => w.(rows := Mark(w.rows, h.row, status), held := w.held - {h} + {h.(misled := Some(status))})
      case Crash(h) => w.(held := w.held - {h})
      case Tick(later) => w.(now := later)
  }

  function After(cfg: Config, w: World, es: seq<Event>): World {
    if es == [] then w else Next(cfg, After(cfg, w, es[..|es| - 1]), es[|es| - 1])
  }

  // ----- the lease -----

  function LastClaim(claims: seq<Claimed>, row: Id): Option<int> {
    if claims == [] then None
    else
      var last := claims[|claims| - 1];
      if last.row == row then Some(last.at) else LastClaim(claims[..|claims| - 1], row)
  }

  /** Each row remembers its newest claim, and claims of one row are more than a lease apart. */
  predicate Leased(cfg: Config, w: World) {
    && (forall id :: id in w.rows ==> w.rows[id].claimedAt == LastClaim(w.claims, id))
    && (forall i :: 0 <= i < |w.claims| ==> w.claims[i].row in w.rows)
    && forall i, j :: 0 <= i < j < |w.claims| && w.claims[i].row == w.claims[j].row ==> w.claims[j].at - w.claims[i].at > cfg.leaseMs
  }

  lemma LastClaimOfSnoc(claims: seq<Claimed>, c: Claimed, row: Id)
    ensures LastClaim(claims + [c], row) == if c.row == row then Some(c.at) else LastClaim(claims, row)
  {
    assert (claims + [c])[..|claims|] == claims;
  }

  lemma {:induction false} NeverClaimed(claims: seq<Claimed>, row: Id)
    requires forall i :: 0 <= i < |claims| ==> claims[i].row != row
    ensures LastClaim(claims, row) == None
  {
    if claims != [] { NeverClaimed(claims[..|claims| - 1], row); }
  }

  /** Every earlier claim of a row is no later than its last one. */
  lemma {:induction false} LastClaimIsLatest(claims: seq<Claimed>, i: nat, lease: nat)
    requires i < |claims|
    requires forall a, b :: 0 <= a < b < |claims| && claims[a].row == claims[b].row ==> claims[b].at - claims[a].at > lease
    ensures LastClaim(claims, claims[i].row).Some? && claims[i].at <= LastClaim(claims, claims[i].row).value
  {
    var n := |claims| - 1;
    if claims[n].row != claims[i].row {
      LastClaimIsLatest(claims[..n], i, lease);
    }
  }

  lemma ClaimKeepsLeased(cfg: Config, w: World, e: Event)
    requires Leased(cfg, w) && e.Claim? && Enabled(cfg, w, e)
    ensures Leased(cfg, Next(cfg, w, e))
  {
    var v := Next(cfg, w, e);
    var c := Claimed(e.id, w.now);
    forall id | id in v.rows ensures v.rows[id].claimedAt == LastClaim(v.claims, id) {
      LastClaimOfSnoc(w.claims, c, id);
    }
    forall i, j | 0 <= i < j < |v.claims| && v.claims[i].row == v.claims[j].row ensures v.claims[j].at - v.claims[i].at > cfg.leaseMs {
      if j == |w.claims| {
        LastClaimIsLatest(w.claims, i, cfg.leaseMs);
      } else {
        assert w.claims[i].row == w.claims[j].row;
      }
    }
  }

  lemma NextKeepsLeased(cfg: Config, w: World, e: Event)
    requires Leased(cfg, w)
    ensures Leased(cfg, Next(cfg, w, e))
  {
    hide LastClaim;
    hide Claimable;
    if Enabled(cfg, w, e) {
      if e.Claim? {
        ClaimKeepsLeased(cfg, w, e);
      } else if e.NewRow? {
        NeverClaimed(w.claims, e.id);
      }
    }
  }

  /**
   Whatever workers do, slow, crashed or concurrent, successive claims of a row are always more than the lease
   apart.
   */
  lemma {:induction false} ClaimsAreALeaseApart(cfg: Config, w: World, es: seq<Event>)
    requires Leased(cfg, w)
    ensures Leased(cfg, After(cfg, w, es))
  {
    hide Leased;
    hide Next;
    if es != [] {
      ClaimsAreALeaseApart(cfg, w, es[..|es| - 1]);
      NextKeepsLeased(cfg, After(cfg, w, es[..|es| - 1]), es[|es| - 1]);
    }
  }

  // ----- prompt workers -----

  /** Time does not pass a worker by: whoever holds a row is done with it before its lease is up. */
  predicate Prompt(cfg: Config, w: World, e: Event) {
    e.Tick? ==> forall h :: h in w.held ==> e.later - h.since <= cfg.leaseMs
  }

  /**
   Holders hold the row's newest claim, so there is one at most, and its row is delivered only by a mark that misled
   it. A misled worker marks twice, so a row can be marked once more than it may be tried.
   */
  predicate Exclusive(cfg: Config, w: World) {
    && (forall h :: h in w.held ==>
          && h.row in w.rows && w.rows[h.row].claimedAt == Some(h.since) && h.since <= w.now <= h.since + cfg.leaseMs
          && (w.rows[h.row].status == Delivered ==> h.misled == Some(Delivered))
          && (if h.misled.None? then w.rows[h.row].attempts < cfg.maxAttempts else h.answer != Unsent && w.rows[h.row].attempts <= cfg.maxAttempts))
    && (forall g, h :: g in w.held && h in w.held && g.row == h.row ==> g == h)
    && forall id :: id in w.rows ==> w.rows[id].attempts <= cfg.maxAttempts + 1
  }

  lemma NextKeepsExclusive(cfg: Config, w: World, e: Event)
    requires Exclusive(cfg, w) && Prompt(cfg, w, e)
    ensures Exclusive(cfg, Next(cfg, w, e))
  {
    if Enabled(cfg, w, e) {
      match e
      case Claim(worker, id) =>
        forall h | h in w.held ensures h.row != id { assert w.rows[h.row].claimedAt == Some(h.since); }
      case _ =>
    }
  }

  function SendsOf(sends: seq<Id>, row: Id): nat {
    if sends == [] then 0 else SendsOf(sends[..|sends| - 1], row) + (if sends[|sends| - 1] == row then 1 else 0)
  }

  lemma SendsOfSnoc(sends: seq<Id>, s: Id, row: Id)
    ensures SendsOf(sends + [s], row) == SendsOf(sends, row) + (if s == row then 1 else 0)
  {
    assert (sends + [s])[..|sends|] == sends;
  }

  predicate PromptRun(cfg: Config, w: World, es: seq<Event>) {
    forall i :: 0 <= i < |es| ==> Prompt(cfg, After(cfg, w, es[..i]), es[i])
  }

  lemma PromptPrefix(cfg: Config, w: World, es: seq<Event>)
    requires es != [] && PromptRun(cfg, w, es)
    ensures PromptRun(cfg, w, es[..|es| - 1]) && Prompt(cfg, After(cfg, w, es[..|es| - 1]), es[|es| - 1])
  {
    hide After;
    hide Prompt;
    var fs := es[..|es| - 1];
    forall i | 0 <= i < |fs| ensures Prompt(cfg, After(cfg, w, fs[..i]), fs[i]) {
      assert fs[..i] == es[..i];
    }
  }

  /**
   With prompt workers no two hold the same row, and a held row is delivered only by a mark that misled its holder.
   */
  lemma {:induction false} PromptWorkersExclude(cfg: Config, w: World, es: seq<Event>)
    requires Exclusive(cfg, w) && PromptRun(cfg, w, es)
    ensures Exclusive(cfg, After(cfg, w, es))
  {
    hide Exclusive;
    hide Next;
    hide Prompt;
    hide PromptRun;
    if es != [] {
      PromptPrefix(cfg, w, es);
      PromptWorkersExclude(cfg, w, es[..|es| - 1]);
      NextKeepsExclusive(cfg, After(cfg, w, es[..|es| - 1]), es[|es| - 1]);
    }
  }

  /** So no send finds its row delivered. */
  lemma DeliveredIsNotSentAgain(cfg: Config, w: World, es: seq<Event>, e: Event)
    requires Exclusive(cfg, w) && PromptRun(cfg, w, es) && e.Send? && Enabled(cfg, After(cfg, w, es), e)
    ensures e.h.row in After(cfg, w, es).rows && After(cfg, w, es).rows[e.h.row].status != Delivered
  {
    hide After;
    hide PromptRun;
    PromptWorkersExclude(cfg, w, es);
  }

  /**
   Every send is on its row's books: marked already, or about to be by its holder; and a delivered row has been
   sent.
   */
  ghost predicate RowCounted(cfg: Config, w: World, id: Id) {
    var sends := SendsOf(w.sends, id);
    && (if id in w.rows then sends <= Tries(cfg, w.rows[id]) + (if HeldSent(w, id) then 1 else 0) else sends == 0)
    && (IsDelivered(w, id) ==> sends > 0)
    && forall h :: h in w.held && h.row == id && h.answer != Unsent ==> sends > 0
  }

  ghost predicate Counted(cfg: Config, w: World) { forall id :: RowCounted(cfg, w, id) }

  function Tries(cfg: Config, r: Row): nat { if r.attempts < cfg.maxAttempts then r.attempts else cfg.maxAttempts }

  predicate HeldSent(w: World, id: Id) { exists h :: h in w.held && h.row == id && h.answer != Unsent && h.misled.None? }

  /** The worker lets go of a row it has sent and not marked. */
  predicate LeavesUnmarked(e: Event) { e.Crash? && e.h.answer != Unsent && e.h.misled.None? }

  lemma NextKeepsRowCounted(cfg: Config, w: World, e: Event, id: Id)
    requires Exclusive(cfg, w) && RowCounted(cfg, w, id) && !LeavesUnmarked(e)
    ensures RowCounted(cfg, Next(cfg, w, e), id)
  {
    hide Claimable;
    hide SendsOf;
    var v := Next(cfg, w, e);
    if Enabled(cfg, w, e) {
      if e.Send? {
        SendsOfSnoc(w.sends, e.h.row, id);
        assert e.h.(answer := e.answer) in v.held;
      } else if h :| h in w.held && h.row == id && h.answer != Unsent && h.misled.None? {
        assert h in v.held ==> HeldSent(v, id);
      }
    }
  }

  lemma NextKeepsCounted(cfg: Config, w: World, e: Event)
    requires Exclusive(cfg, w) && Counted(cfg, w) && !LeavesUnmarked(e)
    ensures Counted(cfg, Next(cfg, w, e))
  {
    hide RowCounted;
    hide Next;
    hide Exclusive;
    forall id ensures RowCounted(cfg, Next(cfg, w, e), id) { NextKeepsRowCounted(cfg, w, e, id); }
  }

  predicate AllSendsMarked(es: seq<Event>) { forall i :: 0 <= i < |es| ==> !LeavesUnmarked(es[i]) }

  lemma {:induction false} RunKeepsCounted(cfg: Config, w: World, es: seq<Event>)
    requires Exclusive(cfg, w) && Counted(cfg, w) && PromptRun(cfg, w, es) && AllSendsMarked(es)
    ensures Exclusive(cfg, After(cfg, w, es)) && Counted(cfg, After(cfg, w, es))
  {
    hide Exclusive;
    hide Counted;
    hide Next;
    hide Prompt;
    hide PromptRun;
    if es != [] {
      PromptPrefix(cfg, w, es);
      RunKeepsCounted(cfg, w, es[..|es| - 1]);
      NextKeepsExclusive(cfg, After(cfg, w, es[..|es| - 1]), es[|es| - 1]);
      NextKeepsCounted(cfg, After(cfg, w, es[..|es| - 1]), es[|es| - 1]);
    }
  }

  /**
   If moreover no worker lets go of a row between sending and marking it, each row is sent at most the allowed number of times,
   and a row marked delivered was sent at least once.
   */
  lemma SendsAreBounded(cfg: Config, w: World, es: seq<Event>, id: Id)
    requires Exclusive(cfg, w) && Counted(cfg, w) && PromptRun(cfg, w, es) && AllSendsMarked(es)
    requires id in After(cfg, w, es).rows
    ensures SendsOf(After(cfg, w, es).sends, id) <= cfg.maxAttempts
    ensures After(cfg, w, es).rows[id].status == Delivered ==> SendsOf(After(cfg, w, es).sends, id) >= 1
  {
    hide After;
    hide PromptRun;
    hide SendsOf;
    RunKeepsCounted(cfg, w, es);
    assert RowCounted(cfg, After(cfg, w, es), id);
  }

  /** All of this holds from an empty outbox. */
  lemma EmptyOutboxIsFine(cfg: Config, w: World)
    requires w.rows == map[] && w.held == {} && w.claims == [] && w.sends == []
    ensures Leased(cfg, w) && Exclusive(cfg, w) && Counted(cfg, w) && Apart(cfg, w)
  {}

  /** A delivery of the row is told of: it is marked, or the worker that will mark it has its receiver's word. */
  predicate Vouched(w: World, id: Id) { IsDelivered(w, id) || exists h :: h in w.held && h.row == id && h.answer == Acceptance }

  /** Some send of the row was accepted in the run. */
  ghost predicate AcceptedIn(cfg: Config, w: World, es: seq<Event>, id: Id) {
    exists i :: 0 <= i < |es| && Accepts(cfg, After(cfg, w, es[..i]), es[i], id)
  }

  predicate Accepts(cfg: Config, w: World, e: Event, id: Id) { Enabled(cfg, w, e) && e.Send? && e.h.row == id && e.answer == Acceptance }

  lemma NextVouches(cfg: Config, w: World, e: Event, id: Id)
    requires Vouched(Next(cfg, w, e), id) && !Vouched(w, id)
    ensures Accepts(cfg, w, e, id)
  {}

  /** Over every run, a row is marked delivered only after a receiver accepted a send of it. */
  lemma {:induction false} DeliveredWasAccepted(cfg: Config, w: World, es: seq<Event>, id: Id)
    requires !Vouched(w, id) && Vouched(After(cfg, w, es), id)
    ensures AcceptedIn(cfg, w, es, id)
  {
    hide Next;
    hide Vouched;
    hide Accepts;
    if es != [] {
      var n := |es| - 1;
      if Vouched(After(cfg, w, es[..n]), id) {
        DeliveredWasAccepted(cfg, w, es[..n], id);
        var i :| 0 <= i < n && Accepts(cfg, After(cfg, w, es[..n][..i]), es[..n][i], id);
        assert es[..n][..i] == es[..i];
      } else {
        NextVouches(cfg, After(cfg, w, es[..n]), es[n], id);
      }
    }
  }

  /** Once an alert is resolved its rows are claimed no more. */
  lemma {:induction false} ResolvedAlertsAreLeftAlone(cfg: Config, w: World, es: seq<Event>, id: Id)
    requires id in w.rows && w.rows[id].alert in w.resolved
    ensures var v := After(cfg, w, es);
            && id in v.rows && v.rows[id].alert == w.rows[id].alert && w.resolved <= v.resolved
            && LastClaim(v.claims, id) == LastClaim(w.claims, id)
  {
    hide LastClaim;
    if es != [] {
      var v, e := After(cfg, w, es[..|es| - 1]), es[|es| - 1];
      ResolvedAlertsAreLeftAlone(cfg, w, es[..|es| - 1], id);
      if Enabled(cfg, v, e) && e.Claim? { LastClaimOfSnoc(v.claims, Claimed(e.id, v.now), id); }
    }
  }

  // ----- new rows -----

  /** The way of a row when nothing goes wrong: it is written, claimed, sent, accepted and marked. */
  function Smoothly(id: Id, alert: AlertId, channel: Channel, worker: nat, now: int): seq<Event> {
    [NewRow(id, alert, channel)] + Collect(worker, id, now, Acceptance) + [MarkDelivered(Holding(worker, id, now, Acceptance, None)), Tick(now)]
  }

  /**
   A new row of an alert that is not resolved can be delivered at once, in one attempt; after that it is delivered for good.
   */
  lemma NewRowsAreDeliverable(cfg: Config, w: World, id: Id, alert: AlertId, channel: Channel, worker: nat)
    requires id !in w.rows && NobodyHolds(w, id) && alert !in w.resolved && cfg.maxAttempts > 0
    ensures var v := After(cfg, w, Smoothly(id, alert, channel, worker, w.now));
            && Looks(v, id, w.now, Row(alert, channel, w.now, Delivered, 1, Some(w.now)), w.resolved, w.held, w.sends + [id])
            && StaysDelivered(cfg, v, id)
  {
    hide After;
    var row := Row(alert, channel, w.now, Pending, 0, None);
    var e, h := NewRow(id, alert, channel), Holding(worker, id, w.now, Acceptance, None);
    AfterOne(cfg, w, e);
    var u := After(cfg, w, [e]);
    CollectLooks(cfg, u, worker, id, w.now, Acceptance, row, w.resolved, w.held, w.sends);
    AfterConcat(cfg, w, [e], Collect(worker, id, w.now, Acceptance));
    var x := After(cfg, u, Collect(worker, id, w.now, Acceptance));
    AfterTwo(cfg, x, MarkDelivered(h), Tick(w.now));
    AfterConcat(cfg, w, [e] + Collect(worker, id, w.now, Acceptance), [MarkDelivered(h), Tick(w.now)]);
    assert w.held + {h} - {h} == w.held;
    DeliveredIsFinalExactly(cfg, After(cfg, x, [MarkDelivered(h), Tick(w.now)]), id);
  }

  /** Resolving an alert takes its rows, and no others, out of every worker's reach. */
  lemma ResolvingStopsItsRows(cfg: Config, w: World, alert: AlertId, id: Id)
    requires id in w.rows
    ensures var v := Next(cfg, w, ResolveAlert(alert));
            && v.rows == w.rows
            && (Claimable(cfg, v.rows, v.resolved, id, v.now) <==> Claimable(cfg, w.rows, w.resolved, id, w.now) && w.rows[id].alert != alert)
  {}

  // ----- delivered for good -----

  predicate IsDelivered(w: World, id: Id) { id in w.rows && w.rows[id].status == Delivered }

  predicate NobodyHolds(w: World, id: Id) { forall h :: h in w.held ==> h.row != id }

  ghost predicate StaysDelivered(cfg: Config, w: World, id: Id) {
    forall es :: IsDelivered(After(cfg, w, es), id)
  }

  /** Nothing is left that could mark the row failed: nobody holds it, or it is a log line, which is never marked failed. */
  predicate Settled(w: World, id: Id) { IsDelivered(w, id) && (NobodyHolds(w, id) || w.rows[id].channel == Log) }

  lemma {:induction false} SettledStays(cfg: Config, w: World, es: seq<Event>, id: Id)
    requires Settled(w, id)
    ensures Settled(After(cfg, w, es), id) && (NobodyHolds(w, id) ==> NobodyHolds(After(cfg, w, es), id))
  {
    if es != [] { SettledStays(cfg, w, es[..|es| - 1], id); }
  }

  /** A delivered row stays delivered whatever happens exactly when no worker holds it or it is a log line. */
  lemma DeliveredIsFinalExactly(cfg: Config, w: World, id: Id)
    requires IsDelivered(w, id)
    ensures StaysDelivered(cfg, w, id) <==> NobodyHolds(w, id) || w.rows[id].channel == Log
  {
    if Settled(w, id) {
      forall es ensures IsDelivered(After(cfg, w, es), id) { SettledStays(cfg, w, es, id); }
    } else {
      var h :| h in w.held && h.row == id;
      assert [MarkFailed(h)][..0] == [];
      assert !IsDelivered(After(cfg, w, [MarkFailed(h)]), id);
    }
  }

  /** And while nobody holds it, it is never sent again. */
  lemma {:induction false} FinalDeliveryIsNeverSentAgain(cfg: Config, w: World, es: seq<Event>, id: Id)
    requires IsDelivered(w, id) && NobodyHolds(w, id)
    ensures SendsOf(After(cfg, w, es).sends, id) == SendsOf(w.sends, id)
  {
    hide SendsOf;
    if es != [] {
      var fs, e := es[..|es| - 1], es[|es| - 1];
      var v := After(cfg, w, fs);
      FinalDeliveryIsNeverSentAgain(cfg, w, fs, id);
      SettledStays(cfg, w, fs, id);
      if e.Send? { SendsOfSnoc(v.sends, e.h.row, id); }
    }
  }

  /** Holders of one row hold claims of it, more than a lease apart, none newer than the row's own. */
  predicate Apart(cfg: Config, w: World) {
    && (forall h :: h in w.held ==> h.row in w.rows && w.rows[h.row].claimedAt.Some? && h.since <= w.rows[h.row].claimedAt.value)
    && (forall id :: id in w.rows && w.rows[id].claimedAt.Some? ==> w.rows[id].claimedAt.value <= w.now)
    && forall g, h :: g in w.held && h in w.held && g.row == h.row && g != h ==>
         g.since - h.since > cfg.leaseMs || h.since - g.since > cfg.leaseMs
  }

  lemma ClaimKeepsApart(cfg: Config, w: World, e: Event)
    requires Apart(cfg, w) && e.Claim? && Enabled(cfg, w, e)
    ensures Apart(cfg, Next(cfg, w, e))
  {
    forall g | g in w.held && g.row == e.id ensures w.now - g.since > cfg.leaseMs { assert w.rows[e.id].claimedAt.Some?; }
  }

  lemma NextKeepsApart(cfg: Config, w: World, e: Event)
    requires Apart(cfg, w)
    ensures Apart(cfg, Next(cfg, w, e))
  {
    hide Claimable;
    hide ClaimRows;
    if Enabled(cfg, w, e) && e.Claim? { ClaimKeepsApart(cfg, w, e); }
  }

  /** In every run two workers holding one row claimed it more than a lease apart. */
  lemma {:induction false} HoldersAreALeaseApart(cfg: Config, w: World, es: seq<Event>)
    requires Apart(cfg, w)
    ensures Apart(cfg, After(cfg, w, es))
  {
    hide Apart;
    hide Next;
    if es != [] {
      HoldersAreALeaseApart(cfg, w, es[..|es| - 1]);
      NextKeepsApart(cfg, After(cfg, w, es[..|es| - 1]), es[|es| - 1]);
    }
  }

  /** Some worker has held the row for longer than the lease. */
  predicate Overrun(cfg: Config, w: World, id: Id) {
    exists h :: h in w.held && h.row == id && w.now - h.since > cfg.leaseMs
  }

  predicate MarksDelivered(e: Event) { e.MarkDelivered? || (e.MarkMisleads? && e.status == Delivered) }

  /**
   In every run, a mark of delivery is final exactly when it is a log line's, or it does not mislead its worker and no
   other worker holds the row; and another can hold it only if one of the two has overrun its lease. So a delivery
   is final when nobody is late and its mark is heard.
   */
  lemma DeliveryIsFinalExactly(cfg: Config, w: World, es: seq<Event>, e: Event)
    requires Apart(cfg, w) && MarksDelivered(e) && Enabled(cfg, After(cfg, w, es), e)
    ensures var v := After(cfg, w, es);
            && e.h.row in v.rows && IsDelivered(Next(cfg, v, e), e.h.row)
            && (StaysDelivered(cfg, Next(cfg, v, e), e.h.row) <==>
                  v.rows[e.h.row].channel == Log || (e.MarkDelivered? && forall g :: g in v.held && g.row == e.h.row ==> g == e.h))
            && (e.MarkDelivered? && !Overrun(cfg, v, e.h.row) ==> StaysDelivered(cfg, Next(cfg, v, e), e.h.row))
  {
    hide After;
    HoldersAreALeaseApart(cfg, w, es);
    var v, h := After(cfg, w, es), e.h;
    var u := Next(cfg, v, e);
    DeliveredIsFinalExactly(cfg, u, h.row);
    if e.MarkDelivered? {
      assert NobodyHolds(u, h.row) <==> forall g :: g in v.held && g.row == h.row ==> g == h;
      if g :| g in v.held && g.row == h.row && g != h {
        assert v.now - g.since > cfg.leaseMs || v.now - h.since > cfg.leaseMs;
      }
    } else {
      assert h.(misled := Some(Delivered)) in u.held;
    }
  }

  // ----- delivered for good by prompt workers -----

  /** A worker that delivered the row was told it had not, and still holds it. */
  predicate Misled(w: World, id: Id) { exists h :: h in w.held && h.row == id && h.misled == Some(Delivered) }

  /** With prompt workers a delivered row is final exactly when it is a log line or the worker that delivered it was not misled. */
  lemma PromptDeliveryIsFinalExactly(cfg: Config, w: World, es: seq<Event>, id: Id)
    requires Exclusive(cfg, w) && PromptRun(cfg, w, es) && IsDelivered(After(cfg, w, es), id)
    ensures var v := After(cfg, w, es);
            StaysDelivered(cfg, v, id) <==> !Misled(v, id) || v.rows[id].channel == Log
  {
    hide After;
    hide PromptRun;
    PromptWorkersExclude(cfg, w, es);
    DeliveredIsFinalExactly(cfg, After(cfg, w, es), id);
  }

  /** No mark of the row's delivery misleads its worker. */
  predicate Heard(es: seq<Event>, id: Id) {
    forall i :: 0 <= i < |es| ==> !(es[i].MarkMisleads? && es[i].status == Delivered && es[i].h.row == id)
  }

  lemma {:induction false} HeardMisleadsNobody(cfg: Config, w: World, es: seq<Event>, id: Id)
    requires Heard(es, id) && !Misled(w, id)
    ensures !Misled(After(cfg, w, es), id)
  {
    if es != [] { HeardMisleadsNobody(cfg, w, es[..|es| - 1], id); }
  }

  /** Once prompt workers, none misled, have delivered a row, it stays delivered and is never sent again, prompt or not. */
  lemma HeardDeliveryIsNeverSentAgain(cfg: Config, w: World, es: seq<Event>, fs: seq<Event>, id: Id)
    requires Exclusive(cfg, w) && PromptRun(cfg, w, es) && Heard(es, id) && !Misled(w, id) && IsDelivered(After(cfg, w, es), id)
    ensures var v, u := After(cfg, w, es), After(cfg, w, es + fs);
            IsDelivered(u, id) && SendsOf(u.sends, id) == SendsOf(v.sends, id)
  {
    hide After;
    hide PromptRun;
    hide SendsOf;
    PromptWorkersExclude(cfg, w, es);
    HeardMisleadsNobody(cfg, w, es, id);
    var v := After(cfg, w, es);
    AfterConcat(cfg, w, es, fs);
    SettledStays(cfg, v, fs, id);
    FinalDeliveryIsNeverSentAgain(cfg, v, fs, id);
  }

  // ----- a slow worker -----

  lemma {:induction false} AfterConcat(cfg: Config, w: World, es: seq<Event>, fs: seq<Event>)
    ensures After(cfg, w, es + fs) == After(cfg, After(cfg, w, es), fs)
    decreases |fs|
  {
    hide Next;
    if fs == [] {
      assert es + fs == es;
    } else {
      AfterConcat(cfg, w, es, fs[..|fs| - 1]);
      assert (es + fs)[..|es + fs| - 1] == es + fs[..|fs| - 1];
    }
  }

  lemma AfterOne(cfg: Config, w: World, e: Event)
    ensures After(cfg, w, [e]) == Next(cfg, w, e)
  {
    hide Next;
    assert [e][..0] == [];
  }

  lemma AfterTwo(cfg: Config, w: World, e: Event, f: Event)
    ensures After(cfg, w, [e, f]) == Next(cfg, Next(cfg, w, e), f)
  {
    hide Next;
    AfterOne(cfg, w, e);
    assert [e, f][..1] == [e];
  }

  /** What matters of a world to the workers of one row. */
  predicate Looks(w: World, id: Id, now: int, r: Row, resolved: set<AlertId>, held: set<Holding>, sends: seq<Id>) {
    w.now == now && id in w.rows && w.rows[id] == r && w.resolved == resolved && w.held == held && w.sends == sends
  }

  function Collect(worker: nat, id: Id, now: int, answer: Answer): seq<Event> {
    [Claim(worker, id), Send(Holding(worker, id, now, Unsent, None), answer)]
  }

  lemma CollectLooks(cfg: Config, w: World, worker: nat, id: Id, now: int, answer: Answer, r: Row, resolved: set<AlertId>, held: set<Holding>, sends: seq<Id>)
    requires Looks(w, id, now, r, resolved, held, sends) && Claimable(cfg, w.rows, resolved, id, now) && Holding(worker, id, now, Unsent, None) !in held
    requires answer in Answers(r.channel)
    ensures Looks(After(cfg, w, Collect(worker, id, now, answer)), id, now, r.(claimedAt := Some(now)), resolved,
              held + {Holding(worker, id, now, answer, None)}, sends + [id])
  {
    AfterTwo(cfg, w, Claim(worker, id), Send(Holding(worker, id, now, Unsent, None), answer));
    assert held + {Holding(worker, id, now, Unsent, None)} - {Holding(worker, id, now, Unsent, None)} == held;
  }

  lemma MarkAndWaitLooks(cfg: Config, w: World, h: Holding, delivered: bool, later: int, now: int, r: Row, resolved: set<AlertId>, held: set<Holding>, sends: seq<Id>)
    requires Looks(w, h.row, now, r, resolved, held, sends) && h in held && r.channel != Log && now <= later
    requires delivered ==> h.answer == Acceptance && h.misled.None?
    ensures var mark := if delivered then MarkDelivered(h) else MarkFailed(h);
            Looks(After(cfg, w, [mark, Tick(later)]), h.row, later,
              r.(status := if delivered then Delivered else Failed, attempts := r.attempts + 1), resolved, held - {h}, sends)
  {
    AfterTwo(cfg, w, if delivered then MarkDelivered(h) else MarkFailed(h), Tick(later));
  }

  /** A worker, and what comes of its send. */
  datatype Sender = Sender(worker: nat, answer: Answer)

  /** A worker claims and sends but is slow; its lease runs out and another claims and sends too. */
  function Contend(cfg: Config, id: Id, t: int, slow: Sender, quick: Sender): seq<Event> {
    var late := t + cfg.leaseMs + 1;
    Collect(slow.worker, id, t, slow.answer) + [Tick(t), Tick(late)] + Collect(quick.worker, id, late, quick.answer)
  }

  lemma ContendLooks(cfg: Config, w: World, id: Id, t: int, slow: Sender, quick: Sender, r: Row, resolved: set<AlertId>, held: set<Holding>, sends: seq<Id>)
    requires Looks(w, id, t, r, resolved, held, sends) && Claimable(cfg, w.rows, resolved, id, t) && NobodyHolds(w, id)
    requires slow.answer in Answers(r.channel) && quick.answer in Answers(r.channel)
    ensures var late := t + cfg.leaseMs + 1;
            Looks(After(cfg, w, Contend(cfg, id, t, slow, quick)), id, late, r.(claimedAt := Some(late)), resolved,
              held + {Holding(slow.worker, id, t, slow.answer, None)} + {Holding(quick.worker, id, late, quick.answer, None)}, sends + [id] + [id])
  {
    hide After;
    var late := t + cfg.leaseMs + 1;
    var es, fs, gs := Collect(slow.worker, id, t, slow.answer), [Tick(t), Tick(late)], Collect(quick.worker, id, late, quick.answer);
    var mine := Holding(slow.worker, id, t, slow.answer, None);
    CollectLooks(cfg, w, slow.worker, id, t, slow.answer, r, resolved, held, sends);
    var w1 := After(cfg, w, es);
    AfterTwo(cfg, w1, Tick(t), Tick(late));
    var w2 := After(cfg, w1, fs);
    CollectLooks(cfg, w2, quick.worker, id, late, quick.answer, r.(claimedAt := Some(t)), resolved, held + {mine}, sends + [id]);
    AfterConcat(cfg, w, es, fs);
    AfterConcat(cfg, w, es + fs, gs);
  }

  /** Two marks, `first` delivered and `second` failed. */
  function Marks(first: Holding, second: Holding, now: int): seq<Event> {
    [MarkDelivered(first), Tick(now)] + [MarkFailed(second), Tick(now)]
  }

  lemma MarksLook(cfg: Config, w: World, id: Id, g: Holding, h: Holding, now: int, r: Row, resolved: set<AlertId>, held: set<Holding>, sends: seq<Id>)
    requires Looks(w, id, now, r, resolved, held, sends) && g in held && h in held && g != h && g.row == h.row == id
    requires g.answer == Acceptance && g.misled.None? && r.channel != Log
    ensures IsDelivered(After(cfg, w, [MarkDelivered(g), Tick(now)]), id)
    ensures Looks(After(cfg, w, Marks(g, h, now)), id, now, r.(status := Failed, attempts := r.attempts + 2), resolved, held - {g} - {h}, sends)
  {
    hide After;
    MarkAndWaitLooks(cfg, w, g, true, now, now, r, resolved, held, sends);
    var v := After(cfg, w, [MarkDelivered(g), Tick(now)]);
    MarkAndWaitLooks(cfg, v, h, false, now, now, r.(status := Delivered, attempts := r.attempts + 1), resolved, held - {g}, sends);
    AfterConcat(cfg, w, [MarkDelivered(g), Tick(now)], [MarkFailed(h), Tick(now)]);
  }

  /**
   Both ways a slow worker undoes a delivery, for any claimable mail or webhook row that nobody holds: the slow worker marks failed what the
   quick one has delivered, or it delivers late and the quick one, well within its own lease, marks it failed.
   */
  lemma SlowWorkerUndoesADelivery(cfg: Config, w: World, id: Id, slow: Sender, quick: Sender, slowDelivers: bool)
    requires Claimable(cfg, w.rows, w.resolved, id, w.now) && NobodyHolds(w, id) && w.rows[id].channel != Log
    requires slow.answer in Answers(w.rows[id].channel) && quick.answer in Answers(w.rows[id].channel)
    requires (if slowDelivers then slow else quick).answer == Acceptance
    ensures var late := w.now + cfg.leaseMs + 1;
            var v := After(cfg, w, Contend(cfg, id, w.now, slow, quick));
            var mine, theirs := Holding(slow.worker, id, w.now, slow.answer, None), Holding(quick.worker, id, late, quick.answer, None);
            var g, h := if slowDelivers then mine else theirs, if slowDelivers then theirs else mine;
            && IsDelivered(After(cfg, v, [MarkDelivered(g), Tick(late)]), id)
            && var u := After(cfg, v, Marks(g, h, late));
               Looks(u, id, late, w.rows[id].(status := Failed, attempts := w.rows[id].attempts + 2, claimedAt := Some(late)),
                 w.resolved, w.held, w.sends + [id] + [id])
  {
    hide After;
    var t, r := w.now, w.rows[id];
    var late := t + cfg.leaseMs + 1;
    var mine, theirs := Holding(slow.worker, id, t, slow.answer, None), Holding(quick.worker, id, late, quick.answer, None);
    ContendLooks(cfg, w, id, t, slow, quick, r, w.resolved, w.held, w.sends);
    var v := After(cfg, w, Contend(cfg, id, t, slow, quick));
    var both := w.held + {mine} + {theirs};
    assert mine !in w.held && theirs !in w.held && both - {mine} - {theirs} == w.held == both - {theirs} - {mine};
    if slowDelivers {
      MarksLook(cfg, v, id, mine, theirs, late, r.(claimedAt := Some(late)), w.resolved, both, w.sends + [id] + [id]);
    } else {
      MarksLook(cfg, v, id, theirs, mine, late, r.(claimedAt := Some(late)), w.resolved, both, w.sends + [id] + [id]);
    }
  }

  /** A worker claims, sends and delivers, is told that it has not, and marks the row failed, all at one instant. */
  function DeliverMisled(worker: nat, id: Id, now: int): seq<Event> {
    var h := Holding(worker, id, now, Acceptance, None);
    Collect(worker, id, now, Acceptance) + [MarkMisleads(h, Delivered), MarkFailed(h.(misled := Some(Delivered)))]
  }

  /** The third way: alone and at once, a misled worker undoes its own delivery of any claimable mail or webhook row. */
  lemma MisledWorkerUndoesItsDelivery(cfg: Config, w: World, id: Id, worker: nat)
    requires Claimable(cfg, w.rows, w.resolved, id, w.now) && NobodyHolds(w, id) && w.rows[id].channel != Log
    ensures var es := DeliverMisled(worker, id, w.now);
            && PromptRun(cfg, w, es) && IsDelivered(After(cfg, w, es[..3]), id)
            && Looks(After(cfg, w, es), id, w.now, w.rows[id].(status := Failed, attempts := w.rows[id].attempts + 2, claimedAt := Some(w.now)),
                 w.resolved, w.held, w.sends + [id])
  {
    hide After;
    var es := DeliverMisled(worker, id, w.now);
    var collect, h := Collect(worker, id, w.now, Acceptance), Holding(worker, id, w.now, Acceptance, None);
    CollectLooks(cfg, w, worker, id, w.now, Acceptance, w.rows[id], w.resolved, w.held, w.sends);
    var v := After(cfg, w, collect);
    AfterConcat(cfg, w, collect, es[2..]);
    AfterTwo(cfg, v, es[2], es[3]);
    AfterConcat(cfg, w, collect, [es[2]]);
    AfterOne(cfg, v, es[2]);
    assert es[..3] == collect + [es[2]];
    assert es == collect + [es[2], es[3]];
    assert w.held + {h} - {h} == w.held;
    assert w.held + {h.(misled := Some(Delivered))} - {h.(misled := Some(Delivered))} == w.held;
  }

  /** With an attempt left the undone row is claimed and sent once more as soon as its lease is up. */
  lemma UndoneRowIsSentAgain(cfg: Config, w: World, id: Id, worker: nat, answer: Answer)
    requires id in w.rows && w.rows[id].status == Failed && w.rows[id].attempts < cfg.maxAttempts && w.rows[id].alert !in w.resolved
    requires w.rows[id].claimedAt == Some(w.now) && NobodyHolds(w, id) && answer in Answers(w.rows[id].channel)
    ensures var later := w.now + cfg.leaseMs + 1;
            After(cfg, w, [Tick(w.now), Tick(later)] + Collect(worker, id, later, answer)).sends == w.sends + [id]
  {
    hide After;
    var later := w.now + cfg.leaseMs + 1;
    AfterTwo(cfg, w, Tick(w.now), Tick(later));
    var v := After(cfg, w, [Tick(w.now), Tick(later)]);
    CollectLooks(cfg, v, worker, id, later, answer, w.rows[id], w.resolved, w.held, w.sends);
    AfterConcat(cfg, w, [Tick(w.now), Tick(later)], Collect(worker, id, later, answer));
  }

  // ----- the program -----

  /** How a mark ended. One that is not heard throws. */
  datatype Fate = Committed | RolledBack | Unheard

  /**
   How the delivery of one row went: its alert is gone, something threw before the send, there is no way to send, the
   send threw, the receiver refused, or it accepted.
   */
  datatype Course = AlertGone | Unready | NoWay | SendThrew | Refused | Accepted

  /** `second` is how the mark in the `catch` ended, if it came to that. */
  datatype Delivery = Delivery(course: Course, first: Fate, second: Fate)

  predicate Fits(c: Channel, d: Delivery) {
    (c == Log ==> d.course in {AlertGone, Unready, Accepted}) && (d.course == Refused ==> c == Webhook)
  }

  /** The mark made right after the send, or instead of one. */
  function FirstMark(d: Delivery): Option<Status> {
    match d.course
    case Accepted => Some(Delivered)
    case Refused | NoWay => Some(Failed)
    case _ => None
  }

  /** The `catch` marks the row failed: a send threw, or a mark made inside the `try`. */
  predicate Catches(c: Channel, d: Delivery) {
    d.course == SendThrew || (d.course in {Accepted, Refused} && c != Log && d.first != Committed)
  }

  /** The marks that reach the table, in order. */
  function Marked(c: Channel, d: Delivery): seq<Status> {
    (if FirstMark(d).Some? && d.first != RolledBack then [FirstMark(d).value] else [])
    + (if Catches(c, d) && d.second != RolledBack then [Failed] else [])
  }

  function RowAfter(r: Row, marks: seq<Status>): Row {
    if marks == [] then r else r.(status := marks[|marks| - 1], attempts := r.attempts + |marks|)
  }

  /**
   What a delivery leaves: delivered only if the receiver accepted and the last mark that reached the table was the delivered one;
   failed after every other mark; and as it was when none reached it.
   */
  lemma DeliveryLeaves(r: Row, d: Delivery)
    requires Fits(r.channel, d)
    ensures var s := RowAfter(r, Marked(r.channel, d));
            && s == r.(status := s.status, attempts := s.attempts)
            && (s.attempts == r.attempts ==> s == r)
            && (s.attempts > r.attempts ==>
                  (s.status == Delivered <==>
                     d.course == Accepted && d.first != RolledBack && (d.first == Committed || r.channel == Log || d.second == RolledBack))
                  && (s.status != Delivered ==> s.status == Failed))
            && s.attempts == r.attempts
                 + (if d.course in {NoWay, Refused, Accepted} && d.first != RolledBack then 1 else 0)
                 + (if d.second != RolledBack && (d.course == SendThrew || (d.course in {Refused, Accepted} && d.first != Committed && r.channel != Log))
                    then 1 else 0)
  {}

  datatype Ending = Skipped | CountedDelivered | CountedFailed | CountedBlocked | Threw

  function EndingOf(c: Channel, d: Delivery): Ending {
    if Catches(c, d) then (if d.second == Committed then CountedFailed else Threw)
    else if d.course == AlertGone then Skipped
    else if d.course == Unready || d.first != Committed then Threw
    else if d.course == Accepted then CountedDelivered
    else if d.course == NoWay && c == Webhook then CountedBlocked
    else CountedFailed
  }

  function AnswerOf(d: Delivery): Answer {
    match d.course
    case SendThrew => Lost
    case Refused => Refusal
    case Accepted => Acceptance
    case _ => Unsent
  }

  predicate Sends(d: Delivery) { d.course in {SendThrew, Refused, Accepted} }

  predicate Misleads(c: Channel, d: Delivery) { Catches(c, d) && FirstMark(d).Some? && d.first == Unheard }

  /** The hold as it is when the last step ends it. */
  function LastHold(c: Channel, h: Holding, d: Delivery): Holding {
    h.(answer := AnswerOf(d), misled := if Misleads(c, d) then FirstMark(d) else None)
  }

  function LastStep(c: Channel, last: Holding, d: Delivery): Event {
    if Catches(c, d) then (if d.second == RolledBack then Crash(last) else MarkFailed(last))
    else if FirstMark(d).None? || d.first == RolledBack then Crash(last)
    else if FirstMark(d).value == Delivered then MarkDelivered(last)
    else MarkFailed(last)
  }

  /** The same delivery as steps of the protocol, from a fresh hold to its end. */
  function Steps(c: Channel, h: Holding, d: Delivery): seq<Event> {
    (if Sends(d) then [Send(h, AnswerOf(d))] else [])
    + (if Misleads(c, d) then [MarkMisleads(h.(answer := AnswerOf(d)), FirstMark(d).value)] else [])
    + [LastStep(c, LastHold(c, h, d), d)]
  }

  ghost predicate AllEnabled(cfg: Config, w: World, es: seq<Event>) {
    forall i :: 0 <= i < |es| ==> Enabled(cfg, After(cfg, w, es[..i]), es[i])
  }

  lemma EnabledOne(cfg: Config, w: World, e: Event)
    requires Enabled(cfg, w, e)
    ensures AllEnabled(cfg, w, [e])
  {
    hide Enabled;
    AfterNone(cfg, w);
    assert [e][..0] == [];
  }

  lemma EnabledConcat(cfg: Config, w: World, es: seq<Event>, fs: seq<Event>)
    requires AllEnabled(cfg, w, es) && AllEnabled(cfg, After(cfg, w, es), fs)
    ensures AllEnabled(cfg, w, es + fs)
  {
    hide Enabled;
    hide After;
    forall i | 0 <= i < |es + fs| ensures Enabled(cfg, After(cfg, w, (es + fs)[..i]), (es + fs)[i]) {
      if i < |es| {
        assert (es + fs)[..i] == es[..i];
      } else {
        assert (es + fs)[..i] == es + fs[..i - |es|];
        AfterConcat(cfg, w, es, fs[..i - |es|]);
      }
    }
  }

  /** One step of a delivery after others. */
  lemma OneMoreStep(cfg: Config, w: World, es: seq<Event>, e: Event)
    requires AllEnabled(cfg, w, es) && Enabled(cfg, After(cfg, w, es), e)
    ensures AllEnabled(cfg, w, es + [e]) && After(cfg, w, es + [e]) == Next(cfg, After(cfg, w, es), e)
  {
    hide Enabled;
    hide After;
    hide Next;
    EnabledOne(cfg, After(cfg, w, es), e);
    EnabledConcat(cfg, w, es, [e]);
    AfterConcat(cfg, w, es, [e]);
    AfterOne(cfg, After(cfg, w, es), e);
  }

  /** The steps before the last leave the row as the first mark does, if it misleads, and the hold ready for the last. */
  lemma BeforeLastStep(cfg: Config, w: World, h: Holding, d: Delivery)
    requires h in w.held && h.row in w.rows && h.answer == Unsent && h.misled.None? && Fits(w.rows[h.row].channel, d)
    ensures var c := w.rows[h.row].channel;
            var es := Steps(c, h, d);
            && AllEnabled(cfg, w, es[..|es| - 1])
            && After(cfg, w, es[..|es| - 1])
               == w.(rows := if Misleads(c, d) then Mark(w.rows, h.row, FirstMark(d).value) else w.rows,
                     held := w.held - {h} - {h.(answer := AnswerOf(d))} + {LastHold(c, h, d)} + (if Sends(d) then {} else w.held),
                     sends := w.sends + (if Sends(d) then [h.row] else []))
  {
    hide After;
    hide Claimable;
    AfterNone(cfg, w);
    var c := w.rows[h.row].channel;
    var es := Steps(c, h, d);
    if Sends(d) {
      OneMoreStep(cfg, w, [], Send(h, AnswerOf(d)));
      assert [] + [Send(h, AnswerOf(d))] == [Send(h, AnswerOf(d))];
      if Misleads(c, d) {
        var e := MarkMisleads(h.(answer := AnswerOf(d)), FirstMark(d).value);
        OneMoreStep(cfg, w, [Send(h, AnswerOf(d))], e);
        assert es[..|es| - 1] == [Send(h, AnswerOf(d))] + [e];
      } else {
        assert es[..|es| - 1] == [Send(h, AnswerOf(d))];
      }
    } else {
      assert es[..|es| - 1] == [];
    }
  }

  /**
   However the delivery of a claimed row goes, it is a run of the protocol that ends the hold and leaves the row as
   the program does.
   */
  lemma DeliveryIsARun(cfg: Config, w: World, h: Holding, d: Delivery)
    requires Apart(cfg, w) && h in w.held && h.answer == Unsent && h.misled.None? && Fits(w.rows[h.row].channel, d)
    ensures var es, r := Steps(w.rows[h.row].channel, h, d), w.rows[h.row];
            && AllEnabled(cfg, w, es) && After(cfg, w, es).held == w.held - {h}
            && After(cfg, w, es).rows == w.rows[h.row := RowAfter(r, Marked(r.channel, d))]
            && After(cfg, w, es).sends == w.sends + (if Sends(d) then [h.row] else [])
  {
    hide After;
    hide AllEnabled;
    hide Claimable;
    var c := w.rows[h.row].channel;
    var es := Steps(c, h, d);
    var n := |es| - 1;
    assert forall g :: g in w.held && g.row == h.row && g.since == h.since ==> g == h;
    BeforeLastStep(cfg, w, h, d);
    OneMoreStep(cfg, w, es[..n], es[n]);
    assert es == es[..n] + [es[n]];
  }

  lemma AfterNone(cfg: Config, w: World)
    ensures After(cfg, w, []) == w
  {}

  datatype ClaimedRow = ClaimedRow(id: Id, channel: Channel)

  function Ids(claimed: seq<ClaimedRow>): (ids: seq<Id>)
    ensures |ids| == |claimed| && forall i :: 0 <= i < |claimed| ==> ids[i] == claimed[i].id
  {
    seq(|claimed|, i requires 0 <= i < |claimed| => claimed[i].id)
  }

  function Endings(claimed: seq<ClaimedRow>, ds: seq<Delivery>): (endings: seq<Ending>)
    requires |ds| == |claimed|
    ensures |endings| == |claimed| && forall i :: 0 <= i < |claimed| ==> endings[i] == EndingOf(claimed[i].channel, ds[i])
  {
    seq(|claimed|, i requires 0 <= i < |claimed| => EndingOf(claimed[i].channel, ds[i]))
  }

  /** How a delivery is counted: by its last mark, if that was heard; one whose last mark was not heard throws. */
  lemma EndingWrittenOut(c: Channel, d: Delivery)
    requires Fits(c, d)
    ensures var caught := d.course == SendThrew || (d.course in {Refused, Accepted} && d.first != Committed && c != Log);
            && (EndingOf(c, d) == CountedDelivered <==> d.course == Accepted && d.first == Committed)
            && (EndingOf(c, d) == CountedBlocked <==> d.course == NoWay && d.first == Committed && c == Webhook)
            && (EndingOf(c, d) == CountedFailed <==>
                  (caught && d.second == Committed) || (d.course == Refused && d.first == Committed)
                  || (d.course == NoWay && d.first == Committed && c == Email))
            && (EndingOf(c, d) == Skipped <==> d.course == AlertGone)
  {}

  function ClaimableTimes(cfg: Config, t: Table, resolved: set<AlertId>, only: Option<AlertId>, now: int, locked: set<Id>): map<Id, int> {
    map id | id in t && Claimable(cfg, t, resolved, id, now) && (only.Some? ==> t[id].alert == only.value) && id !in locked :: t[id].createdAt
  }

  class Notifier {
    const cfg: Config
    var rows: Table
    var delivered: nat
    var failed: nat
    var blocked: nat

    constructor (cfg: Config)
      ensures this.cfg == cfg && rows == map[] && delivered == failed == blocked == 0
    {
      this.cfg := cfg;
      rows, delivered, failed, blocked := map[], 0, 0, 0;
    }

    /** Lease the oldest claimable rows, of one alert or of all. */
    method ClaimBatch(only: Option<AlertId>, resolved: set<AlertId>, now: int, locked: set<Id>) returns (claimed: seq<ClaimedRow>)
      modifies this`rows
      ensures Oldest(ClaimableTimes(cfg, old(rows), resolved, only, now, locked), cfg.batch, Ids(claimed))
      ensures forall c :: c in claimed ==> c.id in rows && c.channel == rows[c.id].channel
      ensures rows == ClaimRows(old(rows), (set id | id in Ids(claimed)), now)
    {
      var table := rows;
      var ids := Pick(ClaimableTimes(cfg, table, resolved, only, now, locked), cfg.batch);
      claimed := seq(|ids|, i requires 0 <= i < |ids| && ids[i] in table => ClaimedRow(ids[i], table[ids[i]].channel));
      assert Ids(claimed) == ids;
      rows := map id | id in rows :: if id in ids then rows[id].(claimedAt := Some(now)) else rows[id];
    }

    method MarkRow(id: Id, status: Status, fate: Fate) returns (heard: bool)
      modifies this`rows
      ensures rows == if fate == RolledBack then old(rows) else Mark(old(rows), id, status)
      ensures heard <==> fate == Committed
    {
      if fate != RolledBack && id in rows {
        rows := rows[id := rows[id].(status := status, attempts := rows[id].attempts + 1)];
      }
      return fate == Committed;
    }

    /** What the `catch` does; a mark that throws here ends the batch. */
    method RecordFailure(id: Id, fate: Fate) returns (threw: bool)
      modifies this`rows, this`failed
      ensures rows == if fate == RolledBack then old(rows) else Mark(old(rows), id, Failed)
      ensures (threw <==> fate != Committed) && failed == old(failed) + (if threw then 0 else 1)
    {
      var heard := MarkRow(id, Failed, fate);
      if heard { failed := failed + 1; }
      return !heard;
    }

    method DeliverOne(row: ClaimedRow, d: Delivery) returns (threw: bool)
      requires Fits(row.channel, d)
      modifies this
      ensures rows == if row.id in old(rows) then old(rows)[row.id := RowAfter(old(rows)[row.id], Marked(row.channel, d))] else old(rows)
      ensures var ending := EndingOf(row.channel, d);
              && (threw <==> ending == Threw)
              && delivered == old(delivered) + (if ending == CountedDelivered then 1 else 0)
              && failed == old(failed) + (if ending == CountedFailed then 1 else 0)
              && blocked == old(blocked) + (if ending == CountedBlocked then 1 else 0)
      ensures row.id in old(rows) && rows[row.id].status == Delivered ==> old(rows)[row.id].status == Delivered || d.course == Accepted
    {
      var heard;
      match d.course {
        case AlertGone => return false;
        case Unready => return true;
        case NoWay =>
          heard := MarkRow(row.id, Failed, d.first);
          if !heard { return true; }
          if row.channel == Webhook { blocked := blocked + 1; } else { failed := failed + 1; }
          return false;
        case SendThrew =>
          threw := RecordFailure(row.id, d.second);
        case Refused =>
          heard := MarkRow(row.id, Failed, d.first);
          if heard { failed := failed + 1; return false; }
          threw := RecordFailure(row.id, d.second);
        case Accepted =>
          heard := MarkRow(row.id, Delivered, d.first);
          if heard { delivered := delivered + 1; return false; }
          if row.channel == Log { return true; }
          threw := RecordFailure(row.id, d.second);
      }
    }

    /**
     Deliver claimed rows one after the other, `ds[i]` saying how row `i` goes. The first that throws, row `done`, ends
     the batch, and the rest stays claimed and unmarked.
     */
    method DeliverClaimed(claimed: seq<ClaimedRow>, ds: seq<Delivery>) returns (done: nat)
      requires |ds| == |claimed| && Distinct(Ids(claimed)) && forall i :: 0 <= i < |claimed| ==> Fits(claimed[i].channel, ds[i])
      modifies this
      ensures done <= |claimed| && (done < |claimed| ==> Endings(claimed, ds)[done] == Threw) && Threw !in Endings(claimed, ds)[..done]
      ensures rows.Keys == old(rows).Keys
      ensures forall i :: 0 <= i < |claimed| && claimed[i].id in rows ==>
                rows[claimed[i].id] == if i <= done then RowAfter(old(rows)[claimed[i].id], Marked(claimed[i].channel, ds[i])) else old(rows)[claimed[i].id]
      ensures forall id :: id in old(rows) && id !in Ids(claimed) ==> rows[id] == old(rows)[id]
      ensures delivered == old(delivered) + Count(Endings(claimed, ds)[..done], CountedDelivered)
      ensures failed == old(failed) + Count(Endings(claimed, ds)[..done], CountedFailed)
      ensures blocked == old(blocked) + Count(Endings(claimed, ds)[..done], CountedBlocked)
    {
      hide Marked;
      hide RowAfter;
      hide EndingOf;
      hide Fits;
      hide Count;
      ghost var endings, ids := Endings(claimed, ds), Ids(claimed);
      CountNone();
      done := 0;
      while done < |claimed|
        invariant done <= |claimed| && Threw !in endings[..done] && rows.Keys == old(rows).Keys
        invariant forall i :: 0 <= i < |claimed| && ids[i] in rows ==>
                    rows[ids[i]] == if i < done then RowAfter(old(rows)[ids[i]], Marked(claimed[i].channel, ds[i])) else old(rows)[ids[i]]
        invariant forall id :: id in old(rows) && id !in ids ==> rows[id] == old(rows)[id]
        invariant delivered == old(delivered) + Count(endings[..done], CountedDelivered)
        invariant failed == old(failed) + Count(endings[..done], CountedFailed)
        invariant blocked == old(blocked) + Count(endings[..done], CountedBlocked)
      {
        CountNext(endings, done);
        var threw := DeliverOne(claimed[done], ds[done]);
        if threw { return; }
        done := done + 1;
      }
    }
  }

  function Count(endings: seq<Ending>, e: Ending): nat {
    if endings == [] then 0 else Count(endings[..|endings| - 1], e) + (if endings[|endings| - 1] == e then 1 else 0)
  }

  lemma CountNone()
    ensures forall e :: Count([], e) == 0
  {}

  lemma CountNext(endings: seq<Ending>, n: nat)
    requires n < |endings|
    ensures forall e :: Count(endings[..n + 1], e) == Count(endings[..n], e) + (if endings[n] == e then 1 else 0)
  {
    assert endings[..n + 1][..n] == endings[..n];
  }
}
