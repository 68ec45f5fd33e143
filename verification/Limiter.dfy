/**
 The keyed token bucket of packages/types/src/limiter.ts.

 The class at the end keeps a bounded map of buckets, evicts refilled ones inline
 and lets newcomers share one overflow bucket when the map stays full. It is proved
 against the step functions below, and those are compared with a limiter that never
 evicts anything.
 */
module Limiter {
  import opened Wrappers

  datatype Config = Config(ratePerS: real, burst: real, maxKeys: nat) {
    /** What the constructor of the source insists on. */
    predicate Valid() { ratePerS > 0.0 && burst > 0.0 && maxKeys > 0 }
  }

  /** Times are epoch milliseconds. */
  datatype Bucket = Bucket(tokens: real, updatedAt: int)

  datatype Answer = Granted | RetryAfter(seconds: int) | Never

  datatype State = State(buckets: map<string, Bucket>, overflow: Option<Bucket>, refused: nat, overflowed: nat)

  /** The bucket a call draws on: the key's own, or the one newcomers share. */
  datatype Where = Own | Shared

  function Min(a: real, b: real): real { if a <= b then a else b }

  function Ceil(x: real): int { -((-x).Floor) }

  /** Tokens earned in `ms` milliseconds. */
  function Earned(cfg: Config, ms: int): real {
    (if ms < 0 then 0.0 else ms as real) / 1000.0 * cfg.ratePerS
  }

  /** A level after `ms` more milliseconds. */
  function Later(cfg: Config, tokens: real, ms: int): real {
    Min(cfg.burst, tokens + Earned(cfg, ms))
  }

  function Refill(cfg: Config, b: Bucket, now: int): Bucket {
    Bucket(Later(cfg, b.tokens, now - b.updatedAt), now)
  }

  function Full(cfg: Config, now: int): Bucket { Bucket(cfg.burst, now) }

  /** Every bucket that has not refilled completely, refilled as far as it goes. */
  function Sweep(cfg: Config, m: map<string, Bucket>, now: int): map<string, Bucket> {
    map k | k in m && Refill(cfg, m[k], now).tokens < cfg.burst :: Refill(cfg, m[k], now)
  }

  /** `#bucket`: find, refill or create the bucket for `key`. */
  function Locate(cfg: Config, s: State, key: string, now: int): (State, Where) {
    if key in s.buckets then
      (s.(buckets := s.buckets[key := Refill(cfg, s.buckets[key], now)]), Own)
    else
      var swept := if |s.buckets| >= cfg.maxKeys then s.(buckets := Sweep(cfg, s.buckets, now)) else s;
      if |swept.buckets| >= cfg.maxKeys then
        var held := if swept.overflow.None? then Full(cfg, now) else swept.overflow.value;
        (swept.(overflow := Some(Refill(cfg, held, now)), overflowed := swept.overflowed + 1), Shared)
      else
        (swept.(buckets := swept.buckets[key := Full(cfg, now)]), Own)
  }

  function Drawn(s: State, key: string, w: Where): Bucket
    requires if w == Own then key in s.buckets else s.overflow.Some?
  {
    if w == Own then s.buckets[key] else s.overflow.value
  }

  function Draw(s: State, key: string, w: Where, cost: real): State
    requires if w == Own then key in s.buckets else s.overflow.Some?
  {
    var b := Drawn(s, key, w);
    var spent := b.(tokens := b.tokens - cost);
    if w == Own then s.(buckets := s.buckets[key := spent]) else s.(overflow := Some(spent))
  }

  function Refusal(cfg: Config, tokens: real, cost: real): Answer
    requires cfg.Valid()
  {
    if cost > cfg.burst then Never else RetryAfter(Ceil((cost - tokens) / cfg.ratePerS))
  }

  function Take(cfg: Config, s: State, key: string, cost: real, now: int): (State, Answer)
    requires cfg.Valid()
  {
    var (t, w) := Locate(cfg, s, key, now);
    var b := Drawn(t, key, w);
    if b.tokens >= cost then (Draw(t, key, w, cost), Granted)
    else (t.(refused := t.refused + 1), Refusal(cfg, b.tokens, cost))
  }

  function Exhausted(cfg: Config, s: State, key: string, cost: real, now: int): (State, Answer)
    requires cfg.Valid()
  {
    if key !in s.buckets then (s, Granted)
    else
      var b := Refill(cfg, s.buckets[key], now);
      var t := s.(buckets := s.buckets[key := b]);
      if b.tokens >= cost then (t, Granted)
      else (t.(refused := t.refused + 1), RetryAfter(Ceil((cost - b.tokens) / cfg.ratePerS)))
  }

  datatype Call = TakeCall(key: string, cost: real, at: int) | ExhaustedCall(key: string, cost: real, at: int)

  function Step(cfg: Config, s: State, c: Call): (State, Answer)
    requires cfg.Valid()
  {
    match c
    case TakeCall(key, cost, at) => Take(cfg, s, key, cost, at)
    case ExhaustedCall(key, cost, at) => Exhausted(cfg, s, key, cost, at)
  }

  function After(cfg: Config, s: State, calls: seq<Call>): State
    requires cfg.Valid()
    decreases |calls|
  {
    if calls == [] then s else After(cfg, Step(cfg, s, calls[0]).0, calls[1..])
  }

  function Answers(cfg: Config, s: State, calls: seq<Call>): seq<Answer>
    requires cfg.Valid()
    decreases |calls|
  {
    if calls == [] then [] else [Step(cfg, s, calls[0]).1] + Answers(cfg, Step(cfg, s, calls[0]).0, calls[1..])
  }

  ghost predicate Monotone(from: int, calls: seq<Call>)
    decreases |calls|
  {
    calls != [] ==> from <= calls[0].at && Monotone(calls[0].at, calls[1..])
  }

  function EndTime(from: int, calls: seq<Call>): int
    decreases |calls|
  {
    if calls == [] then from else EndTime(calls[0].at, calls[1..])
  }

  // ----- the limiter without a bound -----

  function RefBucket(cfg: Config, m: map<string, Bucket>, key: string, now: int): Bucket {
    if key in m then Refill(cfg, m[key], now) else Full(cfg, now)
  }

  /** One bucket per key, kept for ever; `Exhausted` only looks. */
  function RefStep(cfg: Config, m: map<string, Bucket>, c: Call): (map<string, Bucket>, Answer)
    requires cfg.Valid()
  {
    var b := RefBucket(cfg, m, c.key, c.at);
    if b.tokens >= c.cost then
      (if c.TakeCall? then m[c.key := b.(tokens := b.tokens - c.cost)] else m, Granted)
    else
      (m, Refusal(cfg, b.tokens, c.cost))
  }

  function RefRun(cfg: Config, m: map<string, Bucket>, calls: seq<Call>): seq<Answer>
    requires cfg.Valid()
    decreases |calls|
  {
    if calls == [] then []
    else
      var (m', a) := RefStep(cfg, m, calls[0]);
      [a] + RefRun(cfg, m', calls[1..])
  }

  // ----- levels -----

  /** What a key could spend at `now`; an untracked key could spend a full burst. */
  function Level(cfg: Config, m: map<string, Bucket>, key: string, now: int): real {
    RefBucket(cfg, m, key, now).tokens
  }

  function SharedLevel(cfg: Config, s: State, now: int): real {
    if s.overflow.Some? then Refill(cfg, s.overflow.value, now).tokens else cfg.burst
  }

  ghost predicate Past(m: map<string, Bucket>, now: int) {
    forall k :: k in m ==> m[k].updatedAt <= now
  }

  ghost predicate PastState(s: State, now: int) {
    Past(s.buckets, now) && (s.overflow.Some? ==> s.overflow.value.updatedAt <= now)
  }

  lemma EarnedAdds(cfg: Config, a: int, b: int)
    requires cfg.Valid() && 0 <= a && 0 <= b
    ensures Earned(cfg, a + b) == Earned(cfg, a) + Earned(cfg, b)
    ensures 0.0 <= Earned(cfg, a) && Earned(cfg, 0) == 0.0
  {
    var x, y := a as real / 1000.0, b as real / 1000.0;
    assert (x + y) * cfg.ratePerS == x * cfg.ratePerS + y * cfg.ratePerS;
    assert (a + b) as real / 1000.0 == x + y;
    assert x >= 0.0;
  }

  lemma EarnedWrittenOut(cfg: Config, ms: int)
    requires 0 <= ms
    ensures Earned(cfg, ms) == ms as real / 1000.0 * cfg.ratePerS
  {}

  /** A bucket's future depends on its past only through its level now. */
  lemma RefillLater(cfg: Config, b: Bucket, t: int, u: int)
    requires cfg.Valid() && b.updatedAt <= t <= u
    ensures Refill(cfg, b, u).tokens == Later(cfg, Refill(cfg, b, t).tokens, u - t)
  {
    EarnedAdds(cfg, t - b.updatedAt, u - t);
    EarnedAdds(cfg, u - t, 0);
    assert u - b.updatedAt == (t - b.updatedAt) + (u - t);
  }

  lemma LevelLater(cfg: Config, m: map<string, Bucket>, key: string, t: int, u: int)
    requires cfg.Valid() && Past(m, t) && t <= u
    ensures Level(cfg, m, key, u) == Later(cfg, Level(cfg, m, key, t), u - t)
  {
    if key in m { RefillLater(cfg, m[key], t, u); } else { EarnedAdds(cfg, u - t, 0); EarnedAdds(cfg, 0, 0); }
  }

  lemma RefillAgain(cfg: Config, b: Bucket, now: int)
    requires cfg.Valid()
    ensures Refill(cfg, b, now).tokens <= cfg.burst
    ensures Refill(cfg, Refill(cfg, b, now), now) == Refill(cfg, b, now)
  {
    EarnedAdds(cfg, 0, 0);
  }

  /** Evicting refilled buckets changes nobody's level, and keeps everybody mid-burst. */
  lemma SweepKeepsLevels(cfg: Config, m: map<string, Bucket>, key: string, now: int)
    requires cfg.Valid()
    ensures Level(cfg, Sweep(cfg, m, now), key, now) == Level(cfg, m, key, now)
    ensures key in Sweep(cfg, m, now) <==> key in m && Level(cfg, m, key, now) < cfg.burst
    ensures Past(Sweep(cfg, m, now), now)
  {
    if key in m { RefillAgain(cfg, m[key], now); }
  }

  /** `#bucket` leaves every key's level and the shared level where they were. */
  lemma LocateKeepsLevels(cfg: Config, s: State, key: string, other: string, now: int)
    requires cfg.Valid() && PastState(s, now)
    ensures var (t, w) := Locate(cfg, s, key, now);
            && PastState(t, now)
            && Level(cfg, t.buckets, other, now) == Level(cfg, s.buckets, other, now)
            && SharedLevel(cfg, t, now) == SharedLevel(cfg, s, now)
            && Drawn(t, key, w).updatedAt == now
            && Drawn(t, key, w).tokens
               == (if w == Own then Level(cfg, s.buckets, key, now) else SharedLevel(cfg, s, now))
            && (w == Shared ==> key !in s.buckets)
            && t.refused == s.refused
            && t.overflowed == s.overflowed + (if w == Shared then 1 else 0)
  {
    EarnedAdds(cfg, 0, 0);
    if key in s.buckets {
      RefillAgain(cfg, s.buckets[key], now);
    } else {
      SweepKeepsLevels(cfg, s.buckets, key, now);
      SweepKeepsLevels(cfg, s.buckets, other, now);
    }
    if s.overflow.Some? { RefillAgain(cfg, s.overflow.value, now); }
  }

  // ----- bounded = unbounded -----

  ghost predicate Agrees(cfg: Config, s: State, m: map<string, Bucket>, now: int) {
    PastState(s, now) && Past(m, now)
    && forall k :: Level(cfg, s.buckets, k, now) == Level(cfg, m, k, now)
  }

  lemma AgreesLater(cfg: Config, s: State, m: map<string, Bucket>, t: int, u: int)
    requires cfg.Valid() && t <= u && Agrees(cfg, s, m, t)
    ensures Agrees(cfg, s, m, u)
  {
    forall k ensures Level(cfg, s.buckets, k, u) == Level(cfg, m, k, u) {
      LevelLater(cfg, s.buckets, k, t, u);
      LevelLater(cfg, m, k, t, u);
    }
  }

  lemma AgreesStep(cfg: Config, s: State, m: map<string, Bucket>, c: Call)
    requires cfg.Valid() && Agrees(cfg, s, m, c.at) && c.cost <= cfg.burst
    requires Step(cfg, s, c).0.overflowed == s.overflowed
    ensures Step(cfg, s, c).1 == RefStep(cfg, m, c).1
    ensures Agrees(cfg, Step(cfg, s, c).0, RefStep(cfg, m, c).0, c.at)
  {
    EarnedAdds(cfg, 0, 0);
    LocateKeepsLevels(cfg, s, c.key, c.key, c.at);
    forall k ensures Level(cfg, Step(cfg, s, c).0.buckets, k, c.at) == Level(cfg, RefStep(cfg, m, c).0, k, c.at) {
      LevelAgreesStep(cfg, s, m, c, k);
    }
  }

  lemma LevelAgreesStep(cfg: Config, s: State, m: map<string, Bucket>, c: Call, k: string)
    requires cfg.Valid() && PastState(s, c.at) && Past(m, c.at) && c.cost <= cfg.burst
    requires Level(cfg, s.buckets, c.key, c.at) == Level(cfg, m, c.key, c.at)
    requires Level(cfg, s.buckets, k, c.at) == Level(cfg, m, k, c.at)
    requires Step(cfg, s, c).0.overflowed == s.overflowed
    ensures Level(cfg, Step(cfg, s, c).0.buckets, k, c.at) == Level(cfg, RefStep(cfg, m, c).0, k, c.at)
  {
    EarnedAdds(cfg, 0, 0);
    LocateKeepsLevels(cfg, s, c.key, c.key, c.at);
    LocateKeepsLevels(cfg, s, c.key, k, c.at);
    if c.key in s.buckets { RefillAgain(cfg, s.buckets[c.key], c.at); }
  }

  lemma OverflowedGrows(cfg: Config, s: State, calls: seq<Call>)
    requires cfg.Valid()
    ensures s.overflowed <= After(cfg, s, calls).overflowed
    decreases |calls|
  {
    if calls != [] { OverflowedGrows(cfg, Step(cfg, s, calls[0]).0, calls[1..]); }
  }

  /**
   As long as the overflow branch is not taken, the bounded limiter with its inline
   eviction answers every sequence of calls exactly as the unbounded one does.
   */
  lemma {:induction false} BoundedAnswersAsUnbounded(cfg: Config, s: State, m: map<string, Bucket>, from: int, calls: seq<Call>)
    requires cfg.Valid() && Monotone(from, calls) && Agrees(cfg, s, m, from)
    requires forall i :: 0 <= i < |calls| ==> calls[i].cost <= cfg.burst
    requires After(cfg, s, calls).overflowed == s.overflowed
    ensures Answers(cfg, s, calls) == RefRun(cfg, m, calls)
    decreases |calls|
  {
    if calls != [] {
      var c := calls[0];
      var s', m' := Step(cfg, s, c).0, RefStep(cfg, m, c).0;
      OverflowedGrows(cfg, s', calls[1..]);
      OverflowedNeverDrops(cfg, s, c);
      AgreesLater(cfg, s, m, from, c.at);
      AgreesStep(cfg, s, m, c);
      BoundedAnswersAsUnbounded(cfg, s', m', c.at, calls[1..]);
    }
  }

  lemma OverflowedNeverDrops(cfg: Config, s: State, c: Call)
    requires cfg.Valid()
    ensures s.overflowed <= Step(cfg, s, c).0.overflowed
  {}

  const EMPTY := State(map[], None, 0, 0)

  /** The same from start-up, which is how the class begins. */
  lemma FreshLimiterAnswersAsUnbounded(cfg: Config, from: int, calls: seq<Call>)
    requires cfg.Valid() && Monotone(from, calls)
    requires forall i :: 0 <= i < |calls| ==> calls[i].cost <= cfg.burst
    requires After(cfg, EMPTY, calls).overflowed == 0
    ensures Answers(cfg, EMPTY, calls) == RefRun(cfg, map[], calls)
  {
    BoundedAnswersAsUnbounded(cfg, EMPTY, map[], from, calls);
  }

  /** The overflow branch is taken exactly for an untracked key while `maxKeys` keys or more are mid-burst. */
  lemma OverflowExactly(cfg: Config, s: State, key: string, now: int)
    requires cfg.Valid()
    ensures Locate(cfg, s, key, now).1 == Shared
            <==> key !in s.buckets
                 && |set k | k in s.buckets && Level(cfg, s.buckets, k, now) < cfg.burst| >= cfg.maxKeys
  {
    var mid := set k | k in s.buckets && Level(cfg, s.buckets, k, now) < cfg.burst;
    assert mid == Sweep(cfg, s.buckets, now).Keys;
    assert mid <= s.buckets.Keys;
    SubsetSize(mid, s.buckets.Keys);
  }

  lemma SubsetSize<T>(a: set<T>, b: set<T>)
    requires a <= b
    ensures |a| <= |b|
  {
    if a != {} {
      var x :| x in a;
      SubsetSize(a - {x}, b - {x});
    }
  }

  // ----- memory bound and eviction -----

  /** Over every run at most `maxKeys` keys are tracked. */
  lemma {:induction false} TracksAtMostMaxKeys(cfg: Config, s: State, calls: seq<Call>)
    requires cfg.Valid() && |s.buckets| <= cfg.maxKeys
    ensures |After(cfg, s, calls).buckets| <= cfg.maxKeys
    decreases |calls|
  {
    if calls != [] {
      var c := calls[0];
      var s' := Step(cfg, s, c).0;
      if c.key in s.buckets {
        assert s'.buckets.Keys == s.buckets.Keys;
        assert |s'.buckets| == |s'.buckets.Keys| == |s.buckets.Keys|;
      } else {
        SubsetSize(Sweep(cfg, s.buckets, c.at).Keys, s.buckets.Keys);
        assert |Sweep(cfg, s.buckets, c.at)| == |Sweep(cfg, s.buckets, c.at).Keys|;
      }
      TracksAtMostMaxKeys(cfg, s', calls[1..]);
    }
  }

  /** No step forgets a tracked key that is mid-burst, nor changes what an uncalled key holds. */
  lemma MidBurstKeysAreKept(cfg: Config, s: State, c: Call, key: string)
    requires cfg.Valid() && PastState(s, c.at)
    ensures key in s.buckets && Level(cfg, s.buckets, key, c.at) < cfg.burst ==> key in Step(cfg, s, c).0.buckets
    ensures key != c.key ==> Level(cfg, Step(cfg, s, c).0.buckets, key, c.at) == Level(cfg, s.buckets, key, c.at)
  {
    SweepKeepsLevels(cfg, s.buckets, key, c.at);
    LocateKeepsLevels(cfg, s, c.key, key, c.at);
  }

  // ----- admission -----

  /** The call is granted out of the key's own bucket. */
  predicate GrantedOwn(cfg: Config, s: State, c: Call, key: string)
    requires cfg.Valid()
  {
    c.TakeCall? && c.key == key && Step(cfg, s, c).1 == Granted && Locate(cfg, s, key, c.at).1 == Own
  }

  /** The call is granted out of the shared bucket. */
  predicate GrantedShared(cfg: Config, s: State, c: Call)
    requires cfg.Valid()
  {
    c.TakeCall? && Step(cfg, s, c).1 == Granted && Locate(cfg, s, c.key, c.at).1 == Shared
  }

  /** The tokens a run grants to `key` out of its own bucket. */
  function Admitted(cfg: Config, s: State, calls: seq<Call>, key: string): real
    requires cfg.Valid()
    decreases |calls|
  {
    if calls == [] then 0.0
    else
      (if GrantedOwn(cfg, s, calls[0], key) then calls[0].cost else 0.0)
      + Admitted(cfg, Step(cfg, s, calls[0]).0, calls[1..], key)
  }

  ghost predicate Solvent(m: map<string, Bucket>) {
    forall k :: k in m ==> 0.0 <= m[k].tokens
  }

  lemma RefillSolvent(cfg: Config, b: Bucket, now: int)
    requires cfg.Valid() && 0.0 <= b.tokens
    ensures 0.0 <= Refill(cfg, b, now).tokens
  {
    if 0 <= now - b.updatedAt { EarnedAdds(cfg, now - b.updatedAt, 0); }
  }

  lemma LocateSolvent(cfg: Config, s: State, key: string, now: int)
    requires cfg.Valid() && Solvent(s.buckets)
    ensures Solvent(Locate(cfg, s, key, now).0.buckets)
  {
    forall k | k in s.buckets ensures 0.0 <= Refill(cfg, s.buckets[k], now).tokens {
      RefillSolvent(cfg, s.buckets[k], now);
    }
  }

  lemma StepSolvent(cfg: Config, s: State, c: Call)
    requires cfg.Valid() && Solvent(s.buckets)
    ensures Solvent(Step(cfg, s, c).0.buckets)
  {
    LocateSolvent(cfg, s, c.key, c.at);
    if c.key in s.buckets { RefillSolvent(cfg, s.buckets[c.key], c.at); }
  }

  lemma StepPast(cfg: Config, s: State, c: Call)
    requires cfg.Valid() && PastState(s, c.at)
    ensures PastState(Step(cfg, s, c).0, c.at)
  {
    LocateKeepsLevels(cfg, s, c.key, c.key, c.at);
  }

  /** One step: a key's level falls by exactly what its own bucket granted. */
  lemma StepLevel(cfg: Config, s: State, c: Call, key: string)
    requires cfg.Valid() && PastState(s, c.at) && 0.0 <= c.cost
    ensures Level(cfg, Step(cfg, s, c).0.buckets, key, c.at)
            == Level(cfg, s.buckets, key, c.at) - (if GrantedOwn(cfg, s, c, key) then c.cost else 0.0)
  {
    EarnedAdds(cfg, 0, 0);
    LocateKeepsLevels(cfg, s, c.key, key, c.at);
    if c.key in s.buckets { RefillAgain(cfg, s.buckets[c.key], c.at); }
  }

  /** The same for the shared bucket. */
  lemma StepSharedLevel(cfg: Config, s: State, c: Call)
    requires cfg.Valid() && PastState(s, c.at) && (GrantedShared(cfg, s, c) ==> 0.0 <= c.cost)
    ensures SharedLevel(cfg, Step(cfg, s, c).0, c.at)
            == SharedLevel(cfg, s, c.at) - (if GrantedShared(cfg, s, c) then c.cost else 0.0)
  {
    EarnedAdds(cfg, 0, 0);
    LocateKeepsLevels(cfg, s, c.key, c.key, c.at);
  }

  lemma {:induction false} RunPast(cfg: Config, s: State, from: int, calls: seq<Call>)
    requires cfg.Valid() && PastState(s, from) && Monotone(from, calls)
    ensures from <= EndTime(from, calls) && PastState(After(cfg, s, calls), EndTime(from, calls))
    decreases |calls|
  {
    if calls != [] {
      StepPast(cfg, s, calls[0]);
      RunPast(cfg, Step(cfg, s, calls[0]).0, calls[0].at, calls[1..]);
    }
  }

  lemma {:induction false} RunSolvent(cfg: Config, s: State, calls: seq<Call>)
    requires cfg.Valid() && Solvent(s.buckets)
    ensures Solvent(After(cfg, s, calls).buckets)
    decreases |calls|
  {
    if calls != [] {
      StepSolvent(cfg, s, calls[0]);
      RunSolvent(cfg, Step(cfg, s, calls[0]).0, calls[1..]);
    }
  }

  lemma {:induction false} RunAdmits(cfg: Config, s: State, from: int, calls: seq<Call>, key: string)
    requires cfg.Valid() && PastState(s, from) && Monotone(from, calls)
    requires forall i :: 0 <= i < |calls| ==> 0.0 <= calls[i].cost
    ensures Admitted(cfg, s, calls, key) + Level(cfg, After(cfg, s, calls).buckets, key, EndTime(from, calls))
            <= Level(cfg, s.buckets, key, from) + Earned(cfg, EndTime(from, calls) - from)
    decreases |calls|
  {
    hide Step;
    hide Level;
    hide Earned;
    if calls == [] {
      EarnedAdds(cfg, 0, 0);
    } else {
      var c := calls[0];
      LevelLater(cfg, s.buckets, key, from, c.at);
      StepPast(cfg, s, c);
      StepLevel(cfg, s, c, key);
      RunPast(cfg, Step(cfg, s, c).0, c.at, calls[1..]);
      RunAdmits(cfg, Step(cfg, s, c).0, c.at, calls[1..], key);
      EarnedAdds(cfg, c.at - from, EndTime(from, calls) - c.at);
    }
  }

  /** What a run admits for a key, plus what the key still holds, is covered by what it held and what the rate yields. */
  lemma AdmittedPlusLevel(cfg: Config, s: State, from: int, calls: seq<Call>, key: string)
    requires cfg.Valid() && PastState(s, from) && Monotone(from, calls)
    requires forall i :: 0 <= i < |calls| ==> 0.0 <= calls[i].cost
    ensures Admitted(cfg, s, calls, key) + Level(cfg, After(cfg, s, calls).buckets, key, EndTime(from, calls))
            <= Level(cfg, s.buckets, key, from) + (EndTime(from, calls) - from) as real / 1000.0 * cfg.ratePerS
  {
    hide Earned;
    hide Level;
    hide Admitted;
    hide PastState;
    hide Monotone;
    RunAdmits(cfg, s, from, calls, key);
    RunPast(cfg, s, from, calls);
    EarnedWrittenOut(cfg, EndTime(from, calls) - from);
  }

  /**
   Over any stretch of a run, across eviction and re-creation, a key is admitted at
   most one burst plus what the rate yields in the time that passed.
   */
  lemma AdmissionBound(cfg: Config, s: State, from: int, calls: seq<Call>, key: string)
    requires cfg.Valid() && PastState(s, from) && Solvent(s.buckets) && Monotone(from, calls)
    requires forall i :: 0 <= i < |calls| ==> 0.0 <= calls[i].cost
    ensures Admitted(cfg, s, calls, key) <= cfg.burst + (EndTime(from, calls) - from) as real / 1000.0 * cfg.ratePerS
  {
    AdmittedPlusLevel(cfg, s, from, calls, key);
    RunSolvent(cfg, s, calls);
    var t, end := After(cfg, s, calls), EndTime(from, calls);
    if key in t.buckets { RefillSolvent(cfg, t.buckets[key], end); }
  }

  lemma SharedLater(cfg: Config, s: State, t: int, u: int)
    requires cfg.Valid() && PastState(s, t) && t <= u
    ensures SharedLevel(cfg, s, u) == Later(cfg, SharedLevel(cfg, s, t), u - t)
  {
    if s.overflow.Some? { RefillLater(cfg, s.overflow.value, t, u); } else { EarnedAdds(cfg, u - t, 0); }
  }

  /** The tokens a run grants, to all newcomers together, out of the shared bucket. */
  function AdmittedShared(cfg: Config, s: State, calls: seq<Call>): real
    requires cfg.Valid()
    decreases |calls|
  {
    if calls == [] then 0.0
    else
      (if GrantedShared(cfg, s, calls[0]) then calls[0].cost else 0.0)
      + AdmittedShared(cfg, Step(cfg, s, calls[0]).0, calls[1..])
  }

  predicate SharedSolvent(s: State) { s.overflow.Some? ==> 0.0 <= s.overflow.value.tokens }

  lemma StepSharedSolvent(cfg: Config, s: State, c: Call)
    requires cfg.Valid() && SharedSolvent(s)
    ensures SharedSolvent(Step(cfg, s, c).0)
  {
    if s.overflow.Some? { RefillSolvent(cfg, s.overflow.value, c.at); }
    RefillSolvent(cfg, Full(cfg, c.at), c.at);
  }

  /** What a run admits out of the shared bucket, plus what that still holds, is covered by what it held and earned. */
  lemma {:induction false} SharedAdmittedPlusLevel(cfg: Config, s: State, from: int, calls: seq<Call>)
    requires cfg.Valid() && PastState(s, from) && SharedSolvent(s) && Monotone(from, calls)
    requires forall i :: 0 <= i < |calls| ==> 0.0 <= calls[i].cost
    ensures SharedSolvent(After(cfg, s, calls)) && from <= EndTime(from, calls)
    ensures AdmittedShared(cfg, s, calls) + SharedLevel(cfg, After(cfg, s, calls), EndTime(from, calls))
            <= SharedLevel(cfg, s, from) + Earned(cfg, EndTime(from, calls) - from)
    decreases |calls|
  {
    hide Step;
    hide SharedLevel;
    hide Earned;
    hide SharedSolvent;
    if calls == [] {
      EarnedAdds(cfg, 0, 0);
    } else {
      var c := calls[0];
      SharedLater(cfg, s, from, c.at);
      StepPast(cfg, s, c);
      StepSharedLevel(cfg, s, c);
      StepSharedSolvent(cfg, s, c);
      RunPast(cfg, Step(cfg, s, c).0, c.at, calls[1..]);
      SharedAdmittedPlusLevel(cfg, Step(cfg, s, c).0, c.at, calls[1..]);
      EarnedAdds(cfg, c.at - from, EndTime(from, calls) - c.at);
    }
  }

  lemma RunAdmitsShared(cfg: Config, s: State, from: int, calls: seq<Call>)
    requires cfg.Valid() && PastState(s, from) && SharedSolvent(s) && Monotone(from, calls)
    requires forall i :: 0 <= i < |calls| ==> 0.0 <= calls[i].cost
    ensures AdmittedShared(cfg, s, calls) <= cfg.burst + Earned(cfg, EndTime(from, calls) - from) && from <= EndTime(from, calls)
  {
    SharedAdmittedPlusLevel(cfg, s, from, calls);
    var t, end := After(cfg, s, calls), EndTime(from, calls);
    if t.overflow.Some? { RefillSolvent(cfg, t.overflow.value, end); }
  }

  /**
   All newcomers that share the overflow bucket are together admitted at most one burst plus what the rate yields
   in the time that passed.
   */
  lemma SharedAdmissionBound(cfg: Config, s: State, from: int, calls: seq<Call>)
    requires cfg.Valid() && PastState(s, from) && SharedSolvent(s) && Monotone(from, calls)
    requires forall i :: 0 <= i < |calls| ==> 0.0 <= calls[i].cost
    ensures AdmittedShared(cfg, s, calls) <= cfg.burst + (EndTime(from, calls) - from) as real / 1000.0 * cfg.ratePerS
  {
    hide Earned;
    hide AdmittedShared;
    hide PastState;
    hide SharedSolvent;
    hide Monotone;
    RunAdmitsShared(cfg, s, from, calls);
    EarnedWrittenOut(cfg, EndTime(from, calls) - from);
  }

  // ----- retrying -----

  /** No call of the run is granted out of the key's own bucket. */
  ghost predicate Untouched(cfg: Config, s: State, calls: seq<Call>, key: string)
    requires cfg.Valid()
    decreases |calls|
  {
    calls != [] ==>
      !GrantedOwn(cfg, s, calls[0], key) && Untouched(cfg, Step(cfg, s, calls[0]).0, calls[1..], key)
  }

  /** No call of the run is granted out of the shared bucket. */
  ghost predicate SharedUntouched(cfg: Config, s: State, calls: seq<Call>)
    requires cfg.Valid()
    decreases |calls|
  {
    calls != [] ==>
      !GrantedShared(cfg, s, calls[0]) && SharedUntouched(cfg, Step(cfg, s, calls[0]).0, calls[1..])
  }

  /** Waiting in two stretches is waiting once. */
  lemma WaitTwice(cfg: Config, held: real, a: int, b: int)
    requires cfg.Valid() && 0 <= a && 0 <= b
    ensures Later(cfg, Later(cfg, held, a), b) == Later(cfg, held, a + b)
  {
    EarnedAdds(cfg, a, b);
    EarnedAdds(cfg, b, 0);
  }

  lemma UntouchedStep(cfg: Config, s: State, from: int, c: Call, key: string)
    requires cfg.Valid() && PastState(s, from) && from <= c.at && 0.0 <= c.cost && !GrantedOwn(cfg, s, c, key)
    ensures PastState(Step(cfg, s, c).0, c.at)
    ensures Level(cfg, Step(cfg, s, c).0.buckets, key, c.at)
            == Later(cfg, Level(cfg, s.buckets, key, from), c.at - from)
  {
    LevelLater(cfg, s.buckets, key, from, c.at);
    StepPast(cfg, s, c);
    StepLevel(cfg, s, c, key);
  }

  lemma {:induction false} UntouchedLevel(cfg: Config, s: State, from: int, calls: seq<Call>, key: string, u: State, end: int)
    requires cfg.Valid() && PastState(s, from) && Monotone(from, calls)
    requires forall i :: 0 <= i < |calls| ==> 0.0 <= calls[i].cost
    requires Untouched(cfg, s, calls, key)
    requires u == After(cfg, s, calls) && end == EndTime(from, calls)
    ensures from <= end
    ensures Level(cfg, u.buckets, key, end) == Later(cfg, Level(cfg, s.buckets, key, from), end - from)
    decreases |calls|
  {
    hide GrantedOwn;
    hide Step;
    hide Level;
    hide Later;
    hide Past;
    hide Config.Valid;
    if calls == [] {
      LevelLater(cfg, s.buckets, key, from, from);
    } else {
      var c := calls[0];
      UntouchedStep(cfg, s, from, c, key);
      UntouchedLevel(cfg, Step(cfg, s, c).0, c.at, calls[1..], key, u, end);
      WaitTwice(cfg, Level(cfg, s.buckets, key, from), c.at - from, end - c.at);
    }
  }

  lemma SharedUntouchedStep(cfg: Config, s: State, from: int, c: Call)
    requires cfg.Valid() && PastState(s, from) && from <= c.at && !GrantedShared(cfg, s, c)
    ensures PastState(Step(cfg, s, c).0, c.at)
    ensures SharedLevel(cfg, Step(cfg, s, c).0, c.at)
            == Later(cfg, SharedLevel(cfg, s, from), c.at - from)
  {
    SharedLater(cfg, s, from, c.at);
    StepPast(cfg, s, c);
    StepSharedLevel(cfg, s, c);
  }

  lemma {:induction false} SharedUntouchedLevel(cfg: Config, s: State, from: int, calls: seq<Call>)
    requires cfg.Valid() && PastState(s, from) && Monotone(from, calls)
    requires SharedUntouched(cfg, s, calls)
    ensures SharedLevel(cfg, After(cfg, s, calls), EndTime(from, calls))
            == Later(cfg, SharedLevel(cfg, s, from), EndTime(from, calls) - from)
    decreases |calls|
  {
    hide GrantedShared;
    hide Step;
    hide SharedLevel;
    hide Later;
    hide PastState;
    hide Config.Valid;
    if calls == [] {
      SharedLater(cfg, s, from, from);
    } else {
      var c := calls[0];
      SharedUntouchedStep(cfg, s, from, c);
      RunPast(cfg, Step(cfg, s, c).0, c.at, calls[1..]);
      SharedUntouchedLevel(cfg, Step(cfg, s, c).0, c.at, calls[1..]);
      WaitTwice(cfg, SharedLevel(cfg, s, from), c.at - from, EndTime(from, calls) - c.at);
    }
  }

  lemma WaitCovers(cfg: Config, tokens: real, cost: real, wait: int, ms: int)
    requires cfg.Valid() && tokens < cost <= cfg.burst
    requires wait == Ceil((cost - tokens) / cfg.ratePerS) && wait * 1000 <= ms
    ensures cost <= Later(cfg, tokens, ms)
  {
    var q := (cost - tokens) / cfg.ratePerS;
    assert q > 0.0;
    assert wait as real >= q;
    assert ms as real / 1000.0 >= wait as real;
    assert q * cfg.ratePerS == cost - tokens;
    Scale(q, ms as real / 1000.0, cfg.ratePerS);
  }

  lemma Scale(a: real, b: real, r: real)
    requires a <= b && 0.0 <= r
    ensures a * r <= b * r
  {}

  /** A `take` is granted exactly when the bucket it draws on holds the cost. */
  lemma TakeDraws(cfg: Config, s: State, key: string, cost: real, now: int)
    requires cfg.Valid() && PastState(s, now)
    ensures var held := if Locate(cfg, s, key, now).1 == Own then Level(cfg, s.buckets, key, now) else SharedLevel(cfg, s, now);
            Take(cfg, s, key, cost, now).1 == if cost <= held then Granted else Refusal(cfg, held, cost)
  {
    LocateKeepsLevels(cfg, s, key, key, now);
  }

  /** After a run that leaves a bucket alone, a key (or the shared bucket) has what it had plus what it earned. */
  lemma LevelAtRetry(cfg: Config, t: State, now: int, calls: seq<Call>, again: int, key: string)
    requires cfg.Valid() && PastState(t, now) && Monotone(now, calls) && EndTime(now, calls) <= again
    requires forall i :: 0 <= i < |calls| ==> 0.0 <= calls[i].cost
    ensures now <= again && PastState(After(cfg, t, calls), again)
    ensures Untouched(cfg, t, calls, key) ==>
              Level(cfg, After(cfg, t, calls).buckets, key, again)
              == Later(cfg, Level(cfg, t.buckets, key, now), again - now)
  {
    hide Step;
    hide Level;
    hide Later;
    hide Config.Valid;
    var u, end := After(cfg, t, calls), EndTime(now, calls);
    RunPast(cfg, t, now, calls);
    if Untouched(cfg, t, calls, key) {
      UntouchedLevel(cfg, t, now, calls, key, u, end);
      LevelLater(cfg, u.buckets, key, end, again);
      WaitTwice(cfg, Level(cfg, t.buckets, key, now), end - now, again - end);
    }
  }

  lemma SharedLevelAtRetry(cfg: Config, t: State, now: int, calls: seq<Call>, again: int)
    requires cfg.Valid() && PastState(t, now) && Monotone(now, calls) && EndTime(now, calls) <= again
    requires SharedUntouched(cfg, t, calls)
    ensures now <= again && PastState(After(cfg, t, calls), again)
    ensures SharedLevel(cfg, After(cfg, t, calls), again)
            == Later(cfg, SharedLevel(cfg, t, now), again - now)
  {
    var u, end := After(cfg, t, calls), EndTime(now, calls);
    RunPast(cfg, t, now, calls);
    SharedUntouchedLevel(cfg, t, now, calls);
    SharedLater(cfg, u, end, again);
    WaitTwice(cfg, SharedLevel(cfg, t, now), end - now, again - end);
  }

  /** What a refused `take` leaves behind, and how long its wait is. */
  lemma RefusedTake(cfg: Config, s: State, first: Call)
    requires cfg.Valid() && PastState(s, first.at) && first.TakeCall? && 0.0 <= first.cost
    requires Step(cfg, s, first).1.RetryAfter?
    ensures var t := Step(cfg, s, first).0;
            PastState(t, first.at)
            && Level(cfg, t.buckets, first.key, first.at) == Level(cfg, s.buckets, first.key, first.at)
            && SharedLevel(cfg, t, first.at) == SharedLevel(cfg, s, first.at)
    ensures var held := if Locate(cfg, s, first.key, first.at).1 == Own then Level(cfg, s.buckets, first.key, first.at)
                        else SharedLevel(cfg, s, first.at);
            held < first.cost <= cfg.burst
            && Step(cfg, s, first).1 == RetryAfter(Ceil((first.cost - held) / cfg.ratePerS))
    ensures Locate(cfg, s, first.key, first.at).1 == Shared ==> Level(cfg, s.buckets, first.key, first.at) == cfg.burst
  {
    TakeDraws(cfg, s, first.key, first.cost, first.at);
    StepPast(cfg, s, first);
    StepLevel(cfg, s, first, first.key);
    StepSharedLevel(cfg, s, first);
    LocateKeepsLevels(cfg, s, first.key, first.key, first.at);
  }

  /**
   A refused `take` is repeated after the wait it was quoted, and nothing was granted out
   of the key's own bucket in between, whatever else happened. It is granted exactly when it
   draws on the key's own bucket (held or new), or the shared one covers it.
   */
  lemma RetryAfterTheWait(cfg: Config, s: State, first: Call, calls: seq<Call>, again: int)
    requires cfg.Valid() && PastState(s, first.at) && first.TakeCall? && 0.0 <= first.cost
    requires Step(cfg, s, first).1.RetryAfter?
    requires Monotone(first.at, calls) && forall i :: 0 <= i < |calls| ==> 0.0 <= calls[i].cost
    requires EndTime(first.at, calls) <= again && first.at + 1000 * Step(cfg, s, first).1.seconds <= again
    requires Untouched(cfg, Step(cfg, s, first).0, calls, first.key)
    ensures var u := After(cfg, Step(cfg, s, first).0, calls);
            Take(cfg, u, first.key, first.cost, again).1 == Granted
            <==> Locate(cfg, u, first.key, again).1 == Own || first.cost <= SharedLevel(cfg, u, again)
  {
    hide Locate;
    hide Take;
    hide Step;
    hide Earned;
    hide Untouched;
    RefusedTake(cfg, s, first);
    var t, held := Step(cfg, s, first).0, Level(cfg, s.buckets, first.key, first.at);
    LevelAtRetry(cfg, t, first.at, calls, again, first.key);
    if held < first.cost {
      WaitCovers(cfg, held, first.cost, Step(cfg, s, first).1.seconds, again - first.at);
    } else {
      EarnedAdds(cfg, again - first.at, 0);
    }
    TakeDraws(cfg, After(cfg, t, calls), first.key, first.cost, again);
  }

  /** The same for a newcomer that shares the overflow bucket both times. */
  lemma SharedRetryIsGranted(cfg: Config, s: State, first: Call, calls: seq<Call>, again: int)
    requires cfg.Valid() && PastState(s, first.at) && first.TakeCall? && 0.0 <= first.cost
    requires Step(cfg, s, first).1.RetryAfter? && Locate(cfg, s, first.key, first.at).1 == Shared
    requires Monotone(first.at, calls)
    requires EndTime(first.at, calls) <= again && first.at + 1000 * Step(cfg, s, first).1.seconds <= again
    requires SharedUntouched(cfg, Step(cfg, s, first).0, calls)
    requires Locate(cfg, After(cfg, Step(cfg, s, first).0, calls), first.key, again).1 == Shared
    ensures Take(cfg, After(cfg, Step(cfg, s, first).0, calls), first.key, first.cost, again).1 == Granted
  {
    RefusedTake(cfg, s, first);
    var t := Step(cfg, s, first).0;
    SharedLevelAtRetry(cfg, t, first.at, calls, again);
    WaitCovers(cfg, SharedLevel(cfg, s, first.at), first.cost, Step(cfg, s, first).1.seconds, again - first.at);
    TakeDraws(cfg, After(cfg, t, calls), first.key, first.cost, again);
  }

  lemma SweepOne(cfg: Config, key: string, b: Bucket, now: int)
    ensures |map[key := b]| == 1
    ensures Sweep(cfg, map[key := b], now)
            == var r := Refill(cfg, b, now); if r.tokens < cfg.burst then map[key := r] else map[]
  {
    assert map[key := b].Keys == {key};
    assert |map[key := b]| == |map[key := b].Keys|;
  }

  /** A lone tracked key gives way to a newcomer once it has refilled, and makes it share before that. */
  lemma LocateBesideOne(cfg: Config, s: State, other: string, b: Bucket, key: string, now: int)
    requires cfg.maxKeys == 1 && s.buckets == map[other := b] && key != other
    ensures Locate(cfg, s, key, now)
            == var r := Refill(cfg, b, now);
               var held := if s.overflow.None? then Full(cfg, now) else s.overflow.value;
               if r.tokens < cfg.burst then
                 (State(map[other := r], Some(Refill(cfg, held, now)), s.refused, s.overflowed + 1), Shared)
               else (s.(buckets := map[key := Full(cfg, now)]), Own)
  {
    SweepOne(cfg, other, b, now);
    var r := Refill(cfg, b, now);
    SweepOne(cfg, other, r, now);
    assert map[][key := Full(cfg, now)] == map[key := Full(cfg, now)];
  }

  function One(key: string, tokens: real, at: int, overflow: Option<Bucket>, refused: nat, overflowed: nat): State {
    State(map[key := Bucket(tokens, at)], overflow, refused, overflowed)
  }

  lemma LevelsOfTheRun(cfg: Config, w: int)
    requires cfg.Valid() && w == Ceil((cfg.burst - 0.0) / cfg.ratePerS)
    ensures Later(cfg, 0.0, 0) == 0.0 && Later(cfg, cfg.burst, 0) == cfg.burst
    ensures Later(cfg, 0.0, 1000 * w - 0) == cfg.burst
  {
    EarnedAdds(cfg, 0, 0);
    WaitCovers(cfg, 0.0, cfg.burst, w, 1000 * w);
  }

  /** Before the wait: `a` spends its burst and is refused. */
  lemma BeforeTheWait(cfg: Config, w: int)
    requires cfg.Valid() && cfg.maxKeys == 1 && w == Ceil((cfg.burst - 0.0) / cfg.ratePerS)
    ensures Take(cfg, EMPTY, "a", cfg.burst, 0) == (One("a", 0.0, 0, None, 0, 0), Granted)
    ensures Take(cfg, One("a", 0.0, 0, None, 0, 0), "a", cfg.burst, 0) == (One("a", 0.0, 0, None, 1, 0), RetryAfter(w))
  {
    LevelsOfTheRun(cfg, w);
    assert map[]["a" := Bucket(cfg.burst, 0)]["a" := Bucket(0.0, 0)] == map["a" := Bucket(0.0, 0)];
    assert map["a" := Bucket(0.0, 0)]["a" := Bucket(0.0, 0)] == map["a" := Bucket(0.0, 0)];
  }

  /** After the wait: `b` takes the place of `a`, `c` drains the shared bucket, and `a` is refused again. */
  lemma AfterTheWait(cfg: Config, w: int)
    requires cfg.Valid() && cfg.maxKeys == 1 && w == Ceil((cfg.burst - 0.0) / cfg.ratePerS)
    ensures var drained := Some(Bucket(0.0, 1000 * w));
            Take(cfg, One("a", 0.0, 0, None, 1, 0), "b", cfg.burst, 1000 * w) == (One("b", 0.0, 1000 * w, None, 1, 0), Granted)
            && Take(cfg, One("b", 0.0, 1000 * w, None, 1, 0), "c", cfg.burst, 1000 * w)
               == (One("b", 0.0, 1000 * w, drained, 1, 1), Granted)
            && Take(cfg, One("b", 0.0, 1000 * w, drained, 1, 1), "a", cfg.burst, 1000 * w).1 == RetryAfter(w)
  {
    LevelsOfTheRun(cfg, w);
    var t := 1000 * w;
    LocateBesideOne(cfg, One("a", 0.0, 0, None, 1, 0), "a", Bucket(0.0, 0), "b", t);
    assert map["b" := Bucket(cfg.burst, t)]["b" := Bucket(0.0, t)] == map["b" := Bucket(0.0, t)];
    LocateBesideOne(cfg, One("b", 0.0, t, None, 1, 0), "b", Bucket(0.0, t), "c", t);
    LocateBesideOne(cfg, One("b", 0.0, t, Some(Bucket(0.0, t)), 1, 1), "b", Bucket(0.0, t), "a", t);
  }

  lemma TwoCalls(cfg: Config, s: State, b: Call, c: Call, key: string)
    requires cfg.Valid() && key != b.key && key != c.key
    ensures After(cfg, s, [b, c]) == Step(cfg, Step(cfg, s, b).0, c).0
    ensures Untouched(cfg, s, [b, c], key)
  {
    var t := Step(cfg, s, b).0;
    assert [b, c][1..] == [c] && [c][1..] == [];
    assert After(cfg, t, [c]) == Step(cfg, t, c).0;
    assert Untouched(cfg, t, [c], key);
  }

  /**
   The retry's bucket matters. In every limiter of one key, a key that refilled during its
   wait and gave way to a second one is refused again if a third has drained the shared bucket.
   */
  lemma RetryCanLandOnADrainedSharedBucket(cfg: Config, s: State, t: State, w: int, b: Call, c: Call)
    requires cfg.Valid() && cfg.maxKeys == 1 && w == Ceil((cfg.burst - 0.0) / cfg.ratePerS)
    requires s == Take(cfg, EMPTY, "a", cfg.burst, 0).0 && t == Take(cfg, s, "a", cfg.burst, 0).0
    requires b == TakeCall("b", cfg.burst, 1000 * w) && c == TakeCall("c", cfg.burst, 1000 * w)
    ensures Take(cfg, s, "a", cfg.burst, 0).1 == RetryAfter(w)
    ensures Untouched(cfg, t, [b, c], "a")
    ensures Take(cfg, After(cfg, t, [b, c]), "a", cfg.burst, 1000 * w).1 == RetryAfter(w)
  {
    BeforeTheWait(cfg, w);
    AfterTheWait(cfg, w);
    TwoCalls(cfg, t, b, c, "a");
  }

  // ----- the class -----

  class KeyedLimiter {
    const cfg: Config
    var buckets: map<string, Bucket>
    var overflow: Option<Bucket>
    var refused: nat
    var overflowed: nat

    function View(): State
      reads this
    {
      State(buckets, overflow, refused, overflowed)
    }

    constructor (options: Config)
      requires options.Valid()
      ensures cfg == options && View() == EMPTY
    {
      cfg := options;
      buckets, overflow, refused, overflowed := map[], None, 0, 0;
    }

    method TakeTokens(key: string, cost: real, now: int) returns (answer: Answer)
      requires cfg.Valid()
      modifies this
      ensures (View(), answer) == Take(cfg, old(View()), key, cost, now)
    {
      var w := BucketFor(key, now);
      var bucket := if w == Own then buckets[key] else overflow.value;
      if bucket.tokens >= cost {
        var spent := bucket.(tokens := bucket.tokens - cost);
        if w == Own { buckets := buckets[key := spent]; } else { overflow := Some(spent); }
        return Granted;
      }
      refused := refused + 1;
      answer := if cost > cfg.burst then Never else RetryAfter(Ceil((cost - bucket.tokens) / cfg.ratePerS));
    }

    method IsExhausted(key: string, cost: real, now: int) returns (answer: Answer)
      requires cfg.Valid()
      modifies this
      ensures (View(), answer) == Exhausted(cfg, old(View()), key, cost, now)
    {
      if key !in buckets { return Granted; }
      var bucket := Refill(cfg, buckets[key], now);
      buckets := buckets[key := bucket];
      if bucket.tokens >= cost { return Granted; }
      refused := refused + 1;
      answer := RetryAfter(Ceil((cost - bucket.tokens) / cfg.ratePerS));
    }

    method BucketFor(key: string, now: int) returns (w: Where)
      requires cfg.Valid()
      modifies this
      ensures (View(), w) == Locate(cfg, old(View()), key, now)
    {
      if key in buckets {
        buckets := buckets[key := Refill(cfg, buckets[key], now)];
        return Own;
      }
      if |buckets| >= cfg.maxKeys { SweepBuckets(now); }
      if |buckets| >= cfg.maxKeys {
        overflowed := overflowed + 1;
        var held := if overflow.None? then Full(cfg, now) else overflow.value;
        overflow := Some(Refill(cfg, held, now));
        return Shared;
      }
      buckets := buckets[key := Full(cfg, now)];
      w := Own;
    }

    method SweepBuckets(now: int)
      requires cfg.Valid()
      modifies `buckets
      ensures buckets == Sweep(cfg, old(buckets), now)
    {
      var todo := buckets.Keys;
      while todo != {}
        invariant todo <= buckets.Keys <= old(buckets).Keys
        invariant forall k :: k in todo ==> buckets[k] == old(buckets)[k]
        invariant forall k :: k in old(buckets) && k !in todo ==>
          var b := Refill(cfg, old(buckets)[k], now);
          if b.tokens < cfg.burst then k in buckets && buckets[k] == b else k !in buckets
      {
        var key :| key in todo;
        var bucket := Refill(cfg, buckets[key], now);
        buckets := if bucket.tokens >= cfg.burst then buckets - {key} else buckets[key := bucket];
        todo := todo - {key};
      }
    }
  }
}
