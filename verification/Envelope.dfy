/**
 The safety envelope of apps/ingest/src/control/envelope.ts: may this setpoint be commanded,
 now, in this zone? Times are milliseconds, durations seconds, temperatures reals.
 */
module Envelope {
  import opened Wrappers

  datatype Role = Owner | Admin | Operator | Viewer

  datatype Status = Operational | Degraded | Fault | Offline | Maintenance

  const GOOD_QUALITY := 0
  const STALE_INTERVALS := 3
  const SETPOINT_EPSILON := 0.05
  const ROUNDING := 0.000000001

  datatype Feedback = Feedback(value: real, ts: int, receivedAt: int, quality: int, sampleIntervalS: int)

  datatype Settings = Settings(
    enabled: bool, maxDeviationK: real, maxStepK: real, minIntervalS: int,
    defaultDurationS: int, maxDurationS: int, commandTtlS: int)

  /** The check constraint on the settings table. */
  predicate Sane(s: Settings) {
    s.maxDeviationK > 0.0 && s.maxStepK > 0.0 && s.minIntervalS >= 0
    && 0 < s.defaultDurationS <= s.maxDurationS && s.commandTtlS > 0
  }

  /** What other tables say about a zone: its profile's setpoint, the equipment serving it, its newest reading. */
  datatype ZoneFacts = ZoneFacts(baseline: Option<real>, equipment: seq<Status>, feedback: Option<Feedback>)

  /** What the command table says about a zone. */
  datatype CommandFacts = CommandFacts(activeOverride: Option<real>, lastCommandAt: Option<int>, inFlight: bool)

  datatype Request = Request(setpoint: real, durationS: Option<int>)

  datatype Context = Context(settings: Settings, role: Role, zone: ZoneFacts, commands: CommandFacts, now: int)

  datatype Refusal =
    | ForbiddenRole
    | ControlDisabled
    | NoBaseline
    | EquipmentUnavailable
    | FeedbackUnusable
    | OutsideEnvelope
    | StepTooLarge
    | NoChange
    | CommandInFlight
    | TooSoon
    | DurationTooLong

  datatype Verdict =
    | Accept(previous: real, durationS: int, expiresAt: int, effectiveUntil: int)
    | Refuse(refusal: Refusal)

  predicate MayCommand(role: Role) { role in {Owner, Admin, Operator} }

  predicate Blocking(s: Status) { s in {Fault, Offline, Maintenance} }

  function Age(ts: int, receivedAt: int, now: int): int {
    var taken := if ts < receivedAt then ts else receivedAt;
    var age := now - (if taken > 0 then taken else 0);
    if age > 0 then age else 0
  }

  predicate Stale(f: Feedback, now: int) {
    Age(f.ts, f.receivedAt, now) > f.sampleIntervalS * STALE_INTERVALS * 1000
  }

  function Abs(x: real): real { if x < 0.0 then -x else x }

  /** The setpoint the zone works to: the active override, else the profile's. */
  function Current(c: Context): real
    requires c.zone.baseline.Some?
  {
    match c.commands.activeOverride
    case Some(t) => t
    case None => c.zone.baseline.value
  }

  function Duration(r: Request, s: Settings): int {
    match r.durationS
    case Some(d) => d
    case None => s.defaultDurationS
  }

  function Evaluate(r: Request, c: Context): Verdict {
    if !MayCommand(c.role) then Refuse(ForbiddenRole)
    else if !c.settings.enabled then Refuse(ControlDisabled)
    else if c.zone.baseline.None? then Refuse(NoBaseline)
    else if exists i :: 0 <= i < |c.zone.equipment| && Blocking(c.zone.equipment[i]) then Refuse(EquipmentUnavailable)
    else if c.zone.feedback.None? then Refuse(FeedbackUnusable)
    else if c.zone.feedback.value.quality != GOOD_QUALITY then Refuse(FeedbackUnusable)
    else if Stale(c.zone.feedback.value, c.now) then Refuse(FeedbackUnusable)
    else
      var current := Current(c);
      if Abs(r.setpoint - c.zone.baseline.value) > c.settings.maxDeviationK + ROUNDING then Refuse(OutsideEnvelope)
      else if Abs(r.setpoint - current) > c.settings.maxStepK + ROUNDING then Refuse(StepTooLarge)
      else if Abs(r.setpoint - current) <= SETPOINT_EPSILON then Refuse(NoChange)
      else if c.commands.inFlight then Refuse(CommandInFlight)
      else if c.commands.lastCommandAt.Some? && c.now - c.commands.lastCommandAt.value < c.settings.minIntervalS * 1000 then Refuse(TooSoon)
      else
        var durationS := Duration(r, c.settings);
        if durationS > c.settings.maxDurationS then Refuse(DurationTooLong)
        else Accept(current, durationS, c.now + c.settings.commandTtlS * 1000, c.now + durationS * 1000)
  }

  // ----- what the verdict means -----

  /** The order in which an operator is told about problems. */
  function Rank(q: Refusal): nat {
    match q
    case ForbiddenRole => 0
    case ControlDisabled => 1
    case NoBaseline => 2
    case EquipmentUnavailable => 3
    case FeedbackUnusable => 4
    case OutsideEnvelope => 5
    case StepTooLarge => 6
    case NoChange => 7
    case CommandInFlight => 8
    case TooSoon => 9
    case DurationTooLong => 10
  }

  /** The rule behind each refusal, each on its own. */
  ghost predicate Violated(q: Refusal, r: Request, c: Context) {
    match q
    case ForbiddenRole => c.role == Viewer
    case ControlDisabled => !c.settings.enabled
    case NoBaseline => c.zone.baseline == None
    case EquipmentUnavailable => exists s :: s in c.zone.equipment && s !in {Operational, Degraded}
    case FeedbackUnusable => c.zone.feedback.None? || c.zone.feedback.value.quality != 0 || TooOld(c.zone.feedback.value, c.now)
    case OutsideEnvelope => c.zone.baseline.Some? && !Near(r.setpoint, c.zone.baseline.value, c.settings.maxDeviationK + 0.000000001)
    case StepTooLarge => c.zone.baseline.Some? && !Near(r.setpoint, WorksTo(c), c.settings.maxStepK + 0.000000001)
    case NoChange => c.zone.baseline.Some? && Near(r.setpoint, WorksTo(c), 0.05)
    case CommandInFlight => c.commands.inFlight
    case TooSoon => exists at :: c.commands.lastCommandAt == Some(at) && c.now < at + 1000 * c.settings.minIntervalS
    case DurationTooLong =>
      (r.durationS == None && c.settings.defaultDurationS > c.settings.maxDurationS)
      || exists d :: r.durationS == Some(d) && d > c.settings.maxDurationS
  }

  /** A zone with a profile works to the override in force, and to its profile without one. */
  ghost function WorksTo(c: Context): (at: real)
    requires c.zone.baseline.Some?
    ensures c.commands.activeOverride == Some(at) || (c.commands.activeOverride == None && c.zone.baseline == Some(at))
  {
    if c.commands.activeOverride == None then c.zone.baseline.value else c.commands.activeOverride.value
  }

  /** Taken, or received, longer ago than three sampling intervals; a time before the epoch counts as the epoch. */
  predicate TooOld(f: Feedback, now: int) {
    var limit := 3000 * f.sampleIntervalS;
    limit < 0 || (now > limit && (now - f.ts > limit || now - f.receivedAt > limit))
  }

  predicate Near(a: real, b: real, d: real) { b - d <= a <= b + d }

  /** A refusal names the first violated rule, and acceptance means that none is. */
  lemma VerdictNamesTheFirstViolation(r: Request, c: Context)
    ensures Evaluate(r, c).Accept? <==> forall q :: !Violated(q, r, c)
    ensures forall q :: Evaluate(r, c) == Refuse(q) <==> Violated(q, r, c) && forall p :: Rank(p) < Rank(q) ==> !Violated(p, r, c)
  {
    BlockedMeansViolated(r, c);
    var v := Evaluate(r, c);
    if v.Refuse? {
      NothingBefore(r, c, v.refusal);
      forall q ensures v == Refuse(q) <==> Violated(q, r, c) && forall p :: Rank(p) < Rank(q) ==> !Violated(p, r, c) {
        RankIsInjective(q, v.refusal);
      }
    } else {
      forall q ensures !Violated(q, r, c) { AcceptedViolatesNothing(r, c, q); }
    }
  }

  lemma RankIsInjective(p: Refusal, q: Refusal)
    ensures Rank(p) == Rank(q) ==> p == q
  {}

  lemma BlockedMeansViolated(r: Request, c: Context)
    ensures Violated(EquipmentUnavailable, r, c)
            <==> exists i :: 0 <= i < |c.zone.equipment| && Blocking(c.zone.equipment[i])
  {
    if s :| s in c.zone.equipment && s !in {Operational, Degraded} {
      var i :| 0 <= i < |c.zone.equipment| && c.zone.equipment[i] == s;
      assert Blocking(c.zone.equipment[i]);
    }
    if i :| 0 <= i < |c.zone.equipment| && Blocking(c.zone.equipment[i]) {
      assert c.zone.equipment[i] in c.zone.equipment && c.zone.equipment[i] !in {Operational, Degraded};
    }
  }

  lemma AcceptedViolatesNothing(r: Request, c: Context, q: Refusal)
    requires Evaluate(r, c).Accept?
    ensures !Violated(q, r, c)
  {
    BlockedMeansViolated(r, c);
  }

  lemma NothingBefore(r: Request, c: Context, q: Refusal)
    requires Evaluate(r, c) == Refuse(q)
    ensures Violated(q, r, c) && forall p :: Rank(p) < Rank(q) ==> !Violated(p, r, c)
  {
    BlockedMeansViolated(r, c);
    forall p | Rank(p) < Rank(q) ensures !Violated(p, r, c) {}
  }

  /** What an acceptance commits to: a real move, no larger than one step, that lapses in time. */
  lemma AcceptedMoveIsBounded(r: Request, c: Context)
    requires Evaluate(r, c).Accept?
    ensures var v := Evaluate(r, c);
            && (if c.commands.activeOverride != None then c.commands.activeOverride == Some(v.previous) else c.zone.baseline == Some(v.previous))
            && !Near(r.setpoint, v.previous, 0.05)
            && Near(r.setpoint, v.previous, c.settings.maxStepK + 0.000000001)
            && v.expiresAt == c.now + 1000 * c.settings.commandTtlS
            && v.effectiveUntil == c.now + 1000 * v.durationS
            && v.durationS <= c.settings.maxDurationS
            && (r.durationS == Some(v.durationS) || (r.durationS == None && v.durationS == c.settings.defaultDurationS))
  {}

  /** The facts the dispatch re-check puts in place of the zone's own rate state. */
  function Unhindered(k: CommandFacts): CommandFacts {
    k.(lastCommandAt := None, inFlight := false)
  }

  /** The dispatch re-check: the tenant's default duration, and no rate rules. */
  function Recheck(setpoint: real, c: Context): Verdict {
    Evaluate(Request(setpoint, None), c.(commands := Unhindered(c.commands)))
  }

  /** The re-check applies exactly the rules that are about the world and not about rate. */
  lemma RecheckPassesExactly(setpoint: real, c: Context)
    requires Sane(c.settings)
    ensures Recheck(setpoint, c).Accept?
            <==> forall q :: q in {ForbiddenRole, ControlDisabled, NoBaseline, EquipmentUnavailable, FeedbackUnusable, OutsideEnvelope, StepTooLarge, NoChange}
                   ==> !Violated(q, Request(setpoint, None), c)
  {
    var r, d := Request(setpoint, None), c.(commands := Unhindered(c.commands));
    VerdictNamesTheFirstViolation(r, d);
    forall q ensures Violated(q, r, d) <==> Violated(q, r, c) && Rank(q) < 8 {
      assert c.zone.baseline.None? || Current(c) == Current(d);
    }
  }

  /**
   An accepted request, in a zone that has not changed, passes the re-check exactly while its reading is fresh, its
   requester may command and the tenant's default duration is allowed.
   */
  lemma AcceptedStaysAccepted(r: Request, c: Context, role: Role, k: CommandFacts, later: int)
    requires Evaluate(r, c).Accept? && k.activeOverride == c.commands.activeOverride
    ensures c.zone.feedback.Some?
            && (Recheck(r.setpoint, Context(c.settings, role, c.zone, k, later)).Accept?
                <==> !Stale(c.zone.feedback.value, later) && MayCommand(role) && c.settings.defaultDurationS <= c.settings.maxDurationS)
  {}
}
