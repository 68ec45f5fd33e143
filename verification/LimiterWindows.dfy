/**
 What the limiter grants, told without buckets: a call is granted exactly when no stretch of time that
 ends with it would see more granted than one burst plus what the rate yields in it.
 */
module LimiterWindows {
  import opened Wrappers
  import opened Limiter

  datatype Grant = Grant(at: int, cost: real)

  function Total(grants: seq<Grant>): real {
    if grants == [] then 0.0 else Total(grants[..|grants| - 1]) + grants[|grants| - 1].cost
  }

  /** Granting `cost` at `now` keeps the stretch from grant `i` on within one burst plus the rate. */
  predicate WindowHolds(cfg: Config, grants: seq<Grant>, i: nat, cost: real, now: int)
    requires i < |grants|
  {
    Total(grants[i..]) + cost <= cfg.burst + (now - grants[i].at) as real / 1000.0 * cfg.ratePerS
  }

  predicate WindowsHold(cfg: Config, grants: seq<Grant>, cost: real, now: int) {
    cost <= cfg.burst && forall i :: 0 <= i < |grants| ==> WindowHolds(cfg, grants, i, cost, now)
  }

  /** What the rate yields in so many milliseconds. */
  function Yield(cfg: Config, ms: int): real { ms as real / 1000.0 * cfg.ratePerS }

  lemma WindowByYield(cfg: Config, grants: seq<Grant>, i: nat, cost: real, now: int)
    requires i < |grants|
    ensures WindowHolds(cfg, grants, i, cost, now) <==> Total(grants[i..]) + cost <= cfg.burst + Yield(cfg, now - grants[i].at)
  {}

  /** What a full bucket still holds at `now` after these grants. */
  function Avail(cfg: Config, grants: seq<Grant>, now: int): real {
    if grants == [] then cfg.burst
    else
      var n := |grants| - 1;
      Min(cfg.burst, Avail(cfg, grants[..n], grants[n].at) - grants[n].cost + Yield(cfg, now - grants[n].at))
  }

  lemma TotalOfTail(grants: seq<Grant>, i: nat)
    requires i < |grants|
    ensures var n := |grants| - 1; Total(grants[i..]) == Total(grants[..n][i..]) + grants[n].cost
  {
    var n := |grants| - 1;
    assert grants[i..][..n - i] == grants[..n][i..];
  }

  lemma Elapsed(cfg: Config, t: int, u: int, v: int)
    ensures Yield(cfg, v - t) == Yield(cfg, u - t) + Yield(cfg, v - u)
  {
    var x, y := (u - t) as real / 1000.0, (v - u) as real / 1000.0;
    assert (v - t) as real / 1000.0 == x + y;
    assert (x + y) * cfg.ratePerS == x * cfg.ratePerS + y * cfg.ratePerS;
  }

  /** A window that starts before the last grant is a window that ends with it. */
  lemma WindowBeforeLast(cfg: Config, grants: seq<Grant>, i: nat, cost: real, now: int)
    requires i < |grants| - 1
    ensures var n := |grants| - 1;
            var before := cost + grants[n].cost - Yield(cfg, now - grants[n].at);
            WindowHolds(cfg, grants, i, cost, now) <==> WindowHolds(cfg, grants[..n], i, before, grants[n].at)
  {
    hide Yield;
    var n := |grants| - 1;
    WindowByYield(cfg, grants, i, cost, now);
    WindowByYield(cfg, grants[..n], i, cost + grants[n].cost - Yield(cfg, now - grants[n].at), grants[n].at);
    hide WindowHolds;
    TotalOfTail(grants, i);
    Elapsed(cfg, grants[i].at, grants[n].at, now);
  }

  lemma LastWindow(cfg: Config, grants: seq<Grant>, cost: real, now: int)
    requires grants != []
    ensures var n := |grants| - 1;
            var before := cost + grants[n].cost - Yield(cfg, now - grants[n].at);
            WindowHolds(cfg, grants, n, cost, now) <==> before <= cfg.burst
  {
    hide Yield;
    var n := |grants| - 1;
    WindowByYield(cfg, grants, n, cost, now);
    hide WindowHolds;
    assert grants[n..] == [grants[n]] && [grants[n]][..0] == [];
  }

  lemma WindowsWithoutLast(cfg: Config, grants: seq<Grant>, cost: real, now: int)
    requires grants != []
    ensures var n := |grants| - 1;
            var before := cost + grants[n].cost - Yield(cfg, now - grants[n].at);
            WindowsHold(cfg, grants, cost, now) <==> cost <= cfg.burst && WindowsHold(cfg, grants[..n], before, grants[n].at)
  {
    hide WindowHolds;
    hide Yield;
    var n := |grants| - 1;
    var before := cost + grants[n].cost - Yield(cfg, now - grants[n].at);
    LastWindow(cfg, grants, cost, now);
    forall i | 0 <= i < n ensures WindowHolds(cfg, grants, i, cost, now) <==> WindowHolds(cfg, grants[..n], i, before, grants[n].at) {
      WindowBeforeLast(cfg, grants, i, cost, now);
    }
    if WindowsHold(cfg, grants[..n], before, grants[n].at) {
      forall i | 0 <= i < n ensures WindowHolds(cfg, grants, i, cost, now) {
        assert WindowHolds(cfg, grants[..n], i, before, grants[n].at);
      }
    }
  }

  /** A bucket's level is what the tightest of its windows leaves. */
  lemma {:induction false} AvailIsTheTightestWindow(cfg: Config, grants: seq<Grant>, cost: real, now: int)
    ensures cost <= Avail(cfg, grants, now) <==> WindowsHold(cfg, grants, cost, now)
  {
    if grants != [] {
      var n := |grants| - 1;
      WindowsWithoutLast(cfg, grants, cost, now);
      hide WindowsHold;
      hide Yield;
      AvailIsTheTightestWindow(cfg, grants[..n], cost + grants[n].cost - Yield(cfg, now - grants[n].at), grants[n].at);
    }
  }

  // ----- the grants of a run -----

  /** What a run granted to `key` out of the key's own bucket, across evictions. */
  function OwnGrants(cfg: Config, s: State, calls: seq<Call>, key: string): seq<Grant>
    requires cfg.Valid()
    decreases |calls|
  {
    if calls == [] then []
    else
      (if GrantedOwn(cfg, s, calls[0], key) then [Grant(calls[0].at, calls[0].cost)] else [])
      + OwnGrants(cfg, Step(cfg, s, calls[0]).0, calls[1..], key)
  }

  /** What it granted out of the bucket newcomers share. */
  function SharedGrants(cfg: Config, s: State, calls: seq<Call>): seq<Grant>
    requires cfg.Valid()
    decreases |calls|
  {
    if calls == [] then []
    else
      (if GrantedShared(cfg, s, calls[0]) then [Grant(calls[0].at, calls[0].cost)] else [])
      + SharedGrants(cfg, Step(cfg, s, calls[0]).0, calls[1..])
  }

  lemma EarnedIsYield(cfg: Config, ms: int)
    requires 0 <= ms
    ensures Earned(cfg, ms) == Yield(cfg, ms)
  {}

  lemma AvailLater(cfg: Config, grants: seq<Grant>, t: int, u: int)
    requires cfg.Valid() && t <= u
    ensures Avail(cfg, grants, u) == Later(cfg, Avail(cfg, grants, t), u - t)
  {
    EarnedIsYield(cfg, u - t);
    EarnedAdds(cfg, u - t, 0);
    hide Yield;
    hide Earned;
    if grants != [] { Elapsed(cfg, grants[|grants| - 1].at, t, u); }
  }

  lemma AvailAfter(cfg: Config, grants: seq<Grant>, g: Grant)
    requires cfg.Valid() && g.cost <= Avail(cfg, grants, g.at) && 0.0 <= g.cost
    ensures Avail(cfg, grants + [g], g.at) == Avail(cfg, grants, g.at) - g.cost
  {
    assert (grants + [g])[..|grants|] == grants;
    AvailAtMostBurst(cfg, grants, g.at);
  }

  lemma AvailAtMostBurst(cfg: Config, grants: seq<Grant>, now: int)
    ensures Avail(cfg, grants, now) <= cfg.burst
  {}

  lemma GrantedOwnCovers(cfg: Config, s: State, c: Call, key: string)
    requires cfg.Valid() && PastState(s, c.at) && GrantedOwn(cfg, s, c, key)
    ensures c.cost <= Level(cfg, s.buckets, key, c.at)
  {
    TakeDraws(cfg, s, key, c.cost, c.at);
  }

  lemma GrantedSharedCovers(cfg: Config, s: State, c: Call)
    requires cfg.Valid() && PastState(s, c.at) && GrantedShared(cfg, s, c)
    ensures c.cost <= SharedLevel(cfg, s, c.at)
  {
    TakeDraws(cfg, s, c.key, c.cost, c.at);
  }

  lemma {:induction false} OwnLevelIsAvail(cfg: Config, s: State, from: int, calls: seq<Call>, key: string, sofar: seq<Grant>)
    requires cfg.Valid() && PastState(s, from) && Monotone(from, calls)
    requires forall i :: 0 <= i < |calls| ==> 0.0 <= calls[i].cost
    requires Level(cfg, s.buckets, key, from) == Avail(cfg, sofar, from)
    ensures Level(cfg, After(cfg, s, calls).buckets, key, EndTime(from, calls))
            == Avail(cfg, sofar + OwnGrants(cfg, s, calls, key), EndTime(from, calls))
    decreases |calls|
  {
    hide Step;
    hide Level;
    hide Later;
    hide Avail;
    hide PastState;
    hide GrantedOwn;
    hide Config.Valid;
    if calls == [] {
      assert sofar + [] == sofar;
    } else {
      var c := calls[0];
      var s' := Step(cfg, s, c).0;
      LevelLaterState(cfg, s, key, from, c.at);
      AvailLater(cfg, sofar, from, c.at);
      StepPastLater(cfg, s, from, c);
      StepLevelLater(cfg, s, from, c, key);
      var more := if GrantedOwn(cfg, s, c, key) then [Grant(c.at, c.cost)] else [];
      if GrantedOwn(cfg, s, c, key) {
        GrantedOwnCoversLater(cfg, s, from, c, key);
        AvailAfter(cfg, sofar, Grant(c.at, c.cost));
      } else {
        assert sofar + more == sofar;
      }
      OwnLevelIsAvail(cfg, s', c.at, calls[1..], key, sofar + more);
      assert sofar + more + OwnGrants(cfg, s', calls[1..], key) == sofar + OwnGrants(cfg, s, calls, key);
    }
  }

  lemma LevelLaterState(cfg: Config, s: State, key: string, t: int, u: int)
    requires cfg.Valid() && PastState(s, t) && t <= u
    ensures Level(cfg, s.buckets, key, u) == Later(cfg, Level(cfg, s.buckets, key, t), u - t)
    ensures SharedLevel(cfg, s, u) == Later(cfg, SharedLevel(cfg, s, t), u - t)
  {
    LevelLater(cfg, s.buckets, key, t, u);
    SharedLater(cfg, s, t, u);
  }

  lemma StepPastLater(cfg: Config, s: State, from: int, c: Call)
    requires cfg.Valid() && PastState(s, from) && from <= c.at
    ensures PastState(Step(cfg, s, c).0, c.at)
  {
    StepPast(cfg, s, c);
  }

  lemma StepLevelLater(cfg: Config, s: State, from: int, c: Call, key: string)
    requires cfg.Valid() && PastState(s, from) && from <= c.at && 0.0 <= c.cost
    ensures Level(cfg, Step(cfg, s, c).0.buckets, key, c.at)
            == Level(cfg, s.buckets, key, c.at) - (if GrantedOwn(cfg, s, c, key) then c.cost else 0.0)
    ensures SharedLevel(cfg, Step(cfg, s, c).0, c.at)
            == SharedLevel(cfg, s, c.at) - (if GrantedShared(cfg, s, c) then c.cost else 0.0)
  {
    StepLevel(cfg, s, c, key);
    StepSharedLevel(cfg, s, c);
  }

  lemma GrantedOwnCoversLater(cfg: Config, s: State, from: int, c: Call, key: string)
    requires cfg.Valid() && PastState(s, from) && from <= c.at && GrantedOwn(cfg, s, c, key)
    ensures c.cost <= Level(cfg, s.buckets, key, c.at)
  {
    GrantedOwnCovers(cfg, s, c, key);
  }

  lemma GrantedSharedCoversLater(cfg: Config, s: State, from: int, c: Call)
    requires cfg.Valid() && PastState(s, from) && from <= c.at && GrantedShared(cfg, s, c)
    ensures c.cost <= SharedLevel(cfg, s, c.at)
  {
    GrantedSharedCovers(cfg, s, c);
  }

  lemma {:induction false} SharedLevelIsAvail(cfg: Config, s: State, from: int, calls: seq<Call>, sofar: seq<Grant>)
    requires cfg.Valid() && PastState(s, from) && Monotone(from, calls)
    requires forall i :: 0 <= i < |calls| ==> 0.0 <= calls[i].cost
    requires SharedLevel(cfg, s, from) == Avail(cfg, sofar, from)
    ensures SharedLevel(cfg, After(cfg, s, calls), EndTime(from, calls))
            == Avail(cfg, sofar + SharedGrants(cfg, s, calls), EndTime(from, calls))
    decreases |calls|
  {
    hide Step;
    hide SharedLevel;
    hide Later;
    hide Avail;
    hide PastState;
    hide GrantedShared;
    hide Config.Valid;
    if calls == [] {
      assert sofar + [] == sofar;
    } else {
      var c := calls[0];
      var s' := Step(cfg, s, c).0;
      LevelLaterState(cfg, s, c.key, from, c.at);
      AvailLater(cfg, sofar, from, c.at);
      StepPastLater(cfg, s, from, c);
      StepLevelLater(cfg, s, from, c, c.key);
      var more := if GrantedShared(cfg, s, c) then [Grant(c.at, c.cost)] else [];
      if GrantedShared(cfg, s, c) {
        GrantedSharedCoversLater(cfg, s, from, c);
        AvailAfter(cfg, sofar, Grant(c.at, c.cost));
      } else {
        assert sofar + more == sofar;
      }
      SharedLevelIsAvail(cfg, s', c.at, calls[1..], sofar + more);
      assert sofar + more + SharedGrants(cfg, s', calls[1..]) == sofar + SharedGrants(cfg, s, calls);
    }
  }

  // ----- the exact law -----

  /** The grants out of the bucket a call draws on. */
  function GrantsBehind(cfg: Config, calls: seq<Call>, key: string, now: int): seq<Grant>
    requires cfg.Valid()
  {
    if Locate(cfg, After(cfg, EMPTY, calls), key, now).1 == Own then OwnGrants(cfg, EMPTY, calls, key)
    else SharedGrants(cfg, EMPTY, calls)
  }

  lemma HeldIsAvail(cfg: Config, from: int, calls: seq<Call>, key: string, now: int)
    requires cfg.Valid() && Monotone(from, calls) && EndTime(from, calls) <= now
    requires forall i :: 0 <= i < |calls| ==> 0.0 <= calls[i].cost
    ensures var s := After(cfg, EMPTY, calls);
            && PastState(s, now)
            && Level(cfg, s.buckets, key, now) == Avail(cfg, OwnGrants(cfg, EMPTY, calls, key), now)
            && SharedLevel(cfg, s, now) == Avail(cfg, SharedGrants(cfg, EMPTY, calls), now)
  {
    hide Level;
    hide SharedLevel;
    hide Later;
    hide Config.Valid;
    var s, end := After(cfg, EMPTY, calls), EndTime(from, calls);
    StartIsFull(cfg, key, from);
    OwnLevelIsAvail(cfg, EMPTY, from, calls, key, []);
    SharedLevelIsAvail(cfg, EMPTY, from, calls, []);
    assert [] + OwnGrants(cfg, EMPTY, calls, key) == OwnGrants(cfg, EMPTY, calls, key);
    assert [] + SharedGrants(cfg, EMPTY, calls) == SharedGrants(cfg, EMPTY, calls);
    RunPast(cfg, EMPTY, from, calls);
    LevelLaterState(cfg, s, key, end, now);
    AvailLater(cfg, OwnGrants(cfg, EMPTY, calls, key), end, now);
    AvailLater(cfg, SharedGrants(cfg, EMPTY, calls), end, now);
  }

  lemma StartIsFull(cfg: Config, key: string, now: int)
    ensures PastState(EMPTY, now) && Level(cfg, EMPTY.buckets, key, now) == cfg.burst && SharedLevel(cfg, EMPTY, now) == cfg.burst
  {}

  /**
   After any run from start-up, evictions and sharing included, a `take` is granted exactly when every stretch that ends with it
   stays within one burst plus rate times elapsed, over the grants of the bucket it draws on.
   */
  lemma GrantedExactly(cfg: Config, from: int, calls: seq<Call>, key: string, cost: real, now: int)
    requires cfg.Valid() && Monotone(from, calls) && EndTime(from, calls) <= now
    requires forall i :: 0 <= i < |calls| ==> 0.0 <= calls[i].cost
    ensures Take(cfg, After(cfg, EMPTY, calls), key, cost, now).1 == Granted
            <==> WindowsHold(cfg, GrantsBehind(cfg, calls, key, now), cost, now)
  {
    hide Take;
    hide Level;
    hide SharedLevel;
    hide Locate;
    var s := After(cfg, EMPTY, calls);
    HeldIsAvail(cfg, from, calls, key, now);
    TakeDraws(cfg, s, key, cost, now);
    AvailIsTheTightestWindow(cfg, GrantsBehind(cfg, calls, key, now), cost, now);
  }

  /**
   The wait quoted with a refusal is the least whole number of seconds after which, nothing else being granted, the
   windows let the call through; and a call is told never exactly when its cost is more than a burst.
   */
  lemma WaitIsTheLeast(cfg: Config, from: int, calls: seq<Call>, key: string, cost: real, now: int)
    requires cfg.Valid() && Monotone(from, calls) && EndTime(from, calls) <= now
    requires forall i :: 0 <= i < |calls| ==> 0.0 <= calls[i].cost
    ensures var grants, answer := GrantsBehind(cfg, calls, key, now), Take(cfg, After(cfg, EMPTY, calls), key, cost, now).1;
            && (answer == Never <==> cost > cfg.burst)
            && (answer.RetryAfter? ==>
                  forall s: nat :: WindowsHold(cfg, grants, cost, now + 1000 * s) <==> answer.seconds <= s)
  {
    hide Take;
    hide Level;
    hide SharedLevel;
    hide Locate;
    hide Avail;
    var s, grants := After(cfg, EMPTY, calls), GrantsBehind(cfg, calls, key, now);
    HeldIsAvail(cfg, from, calls, key, now);
    TakeDraws(cfg, s, key, cost, now);
    AvailAtMostBurst(cfg, grants, now);
    var answer := Take(cfg, s, key, cost, now).1;
    if answer.RetryAfter? {
      forall n: nat ensures WindowsHold(cfg, grants, cost, now + 1000 * n) <==> answer.seconds <= n {
        AvailLater(cfg, grants, now, now + 1000 * n);
        AvailIsTheTightestWindow(cfg, grants, cost, now + 1000 * n);
        WaitExactly(cfg, Avail(cfg, grants, now), cost, n);
      }
    }
  }

  lemma WaitExactly(cfg: Config, tokens: real, cost: real, s: nat)
    requires cfg.Valid() && tokens < cost <= cfg.burst
    ensures cost <= Later(cfg, tokens, 1000 * s) <==> Ceil((cost - tokens) / cfg.ratePerS) <= s
  {
    var q := (cost - tokens) / cfg.ratePerS;
    assert (1000 * s) as real / 1000.0 == s as real;
    assert q * cfg.ratePerS == cost - tokens;
    if q <= s as real { Scale(q, s as real, cfg.ratePerS); } else { ScaleStrictly(s as real, q, cfg.ratePerS); }
  }

  lemma ScaleStrictly(a: real, b: real, r: real)
    requires a < b && 0.0 < r
    ensures a * r < b * r
  {}

  /** Looking is answered as taking would be, for a key that is tracked; an untracked one is let through. */
  lemma LookedAtExactly(cfg: Config, from: int, calls: seq<Call>, key: string, cost: real, now: int)
    requires cfg.Valid() && Monotone(from, calls) && EndTime(from, calls) <= now
    requires forall i :: 0 <= i < |calls| ==> 0.0 <= calls[i].cost
    ensures var s := After(cfg, EMPTY, calls);
            Exhausted(cfg, s, key, cost, now).1 == Granted
            <==> key !in s.buckets || WindowsHold(cfg, OwnGrants(cfg, EMPTY, calls, key), cost, now)
  {
    var s := After(cfg, EMPTY, calls);
    HeldIsAvail(cfg, from, calls, key, now);
    AvailIsTheTightestWindow(cfg, OwnGrants(cfg, EMPTY, calls, key), cost, now);
  }

  /**
   A key drained at `t` and charged nothing since, that still has a bucket of its own at `now`, is granted a cost
   within the burst exactly when the time passed has yielded it.
   */
  lemma DrainedRefillsExactly(cfg: Config, s: State, t: int, calls: seq<Call>, key: string, cost: real, now: int)
    requires cfg.Valid() && PastState(s, t) && Monotone(t, calls) && EndTime(t, calls) <= now && cost <= cfg.burst
    requires forall i :: 0 <= i < |calls| ==> 0.0 <= calls[i].cost
    requires Level(cfg, s.buckets, key, t) == 0.0 && Untouched(cfg, s, calls, key)
    requires Locate(cfg, After(cfg, s, calls), key, now).1 == Own
    ensures Take(cfg, After(cfg, s, calls), key, cost, now).1 == Granted <==> cost <= (now - t) as real / 1000.0 * cfg.ratePerS
  {
    hide Take;
    hide Level;
    hide Locate;
    hide Later;
    hide Config.Valid;
    hide Untouched;
    LevelAtRetry(cfg, s, t, calls, now, key);
    TakeDraws(cfg, After(cfg, s, calls), key, cost, now);
    RefusalIsNoGrant(cfg, Level(cfg, After(cfg, s, calls).buckets, key, now), cost);
    hide Refusal;
    EmptyLater(cfg, cost, now - t);
  }

  lemma RefusalIsNoGrant(cfg: Config, tokens: real, cost: real)
    requires cfg.Valid()
    ensures Refusal(cfg, tokens, cost) != Granted
  {}

  lemma EmptyLater(cfg: Config, cost: real, ms: int)
    requires 0 <= ms && cost <= cfg.burst
    ensures cost <= Later(cfg, 0.0, ms) <==> cost <= ms as real / 1000.0 * cfg.ratePerS
  {
    EarnedWrittenOut(cfg, ms);
    hide Earned;
  }

  // ----- the rest of what it promises -----

  /** A clock that went back earns nothing and takes nothing away. */
  lemma BackwardsEarnsNothing(cfg: Config, s: State, key: string, cost: real, now: int)
    requires cfg.Valid() && key in s.buckets && now <= s.buckets[key].updatedAt && s.buckets[key].tokens <= cfg.burst
    ensures Take(cfg, s, key, cost, now).1 == Granted <==> cost <= s.buckets[key].tokens
    ensures Level(cfg, s.buckets, key, now) == s.buckets[key].tokens
  {}

  /** A newcomer that finds room leaves every other bucket as it is. */
  lemma RoomTouchesNobody(cfg: Config, s: State, key: string, now: int)
    requires cfg.Valid() && key !in s.buckets && |s.buckets| < cfg.maxKeys
    ensures var (t, w) := Locate(cfg, s, key, now);
            w == Own && t.overflow == s.overflow && t.buckets.Keys == s.buckets.Keys + {key}
            && forall k :: k in s.buckets ==> t.buckets[k] == s.buckets[k]
  {}

  function Refusals(answers: seq<Answer>): nat {
    if answers == [] then 0 else (if answers[0] == Granted then 0 else 1) + Refusals(answers[1..])
  }

  function Sharings(cfg: Config, s: State, calls: seq<Call>): nat
    requires cfg.Valid()
    decreases |calls|
  {
    if calls == [] then 0
    else
      (if calls[0].TakeCall? && Locate(cfg, s, calls[0].key, calls[0].at).1 == Shared then 1 else 0)
      + Sharings(cfg, Step(cfg, s, calls[0]).0, calls[1..])
  }

  /** The statistics count: how often a call was refused, and how often one had to share. */
  lemma {:induction false} StatisticsCount(cfg: Config, s: State, calls: seq<Call>)
    requires cfg.Valid()
    ensures After(cfg, s, calls).refused == s.refused + Refusals(Answers(cfg, s, calls))
    ensures After(cfg, s, calls).overflowed == s.overflowed + Sharings(cfg, s, calls)
    decreases |calls|
  {
    if calls != [] {
      var (s', a) := Step(cfg, s, calls[0]);
      StatisticsCount(cfg, s', calls[1..]);
      assert Answers(cfg, s, calls)[0] == a && Answers(cfg, s, calls)[1..] == Answers(cfg, s', calls[1..]);
    }
  }
}
