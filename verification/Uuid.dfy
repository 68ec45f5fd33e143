/**
 UUIDv7 generation of packages/types/src/ids.ts: a millisecond timestamp, a monotonic
 counter and randomness, laid out as sections 5.7 and 6.2 of RFC 9562 describe.
 */
module Uuid {
  newtype byte = n: int | 0 <= n < 256

  /** The two module variables. */
  datatype State = State(lastMs: nat, counter: nat)

  const COUNTER_LIMIT := 0x1000
  const TIME_LIMIT := 0x1_0000_0000_0000

  /** The lower half of the counter's range, from two random bytes. */
  function Seed(random: seq<byte>): nat
    requires |random| == 16
  {
    (random[6] % 8) as int * 256 + random[7] as int
  }

  function Step(s: State, now: nat, random: seq<byte>): State
    requires |random| == 16
  {
    if now == s.lastMs then
      if s.counter + 1 > 0xfff then State(now + 1, 0) else State(now, s.counter + 1)
    else
      State(if now < s.lastMs then s.lastMs else now, Seed(random))
  }

  /** Timestamp first, then counter. */
  predicate Less(a: State, b: State) {
    a.lastMs < b.lastMs || (a.lastMs == b.lastMs && a.counter < b.counter)
  }

  predicate Fits(s: State) { s.lastMs < TIME_LIMIT && s.counter < COUNTER_LIMIT }

  datatype Tick = Tick(now: nat, random: seq<byte>)

  predicate WellFormed(ticks: seq<Tick>) { forall i :: 0 <= i < |ticks| ==> |ticks[i].random| == 16 }

  /** The stamps (timestamp and counter) of successive ids. */
  function Stamps(s: State, ticks: seq<Tick>): (r: seq<State>)
    requires WellFormed(ticks)
    ensures |r| == |ticks|
    decreases |ticks|
  {
    if ticks == [] then []
    else
      var t := Step(s, ticks[0].now, ticks[0].random);
      [t] + Stamps(t, ticks[1..])
  }

  predicate NeverBack(s: State, r: seq<State>) {
    && (forall i :: 0 <= i < |r| ==> s.lastMs <= r[i].lastMs && r[i].counter < COUNTER_LIMIT)
    && forall i, j :: 0 <= i < j < |r| ==> r[i].lastMs <= r[j].lastMs
  }

  predicate StrictlyUp(s: State, r: seq<State>) {
    && (forall i :: 0 <= i < |r| ==> Less(s, r[i]))
    && forall i, j :: 0 <= i < j < |r| ==> Less(r[i], r[j])
  }

  /** Whatever the clock does, the embedded timestamp never decreases, and the counter stays in its 12 bits. */
  lemma {:induction false} TimestampsNeverDecrease(s: State, ticks: seq<Tick>)
    requires WellFormed(ticks) && s.counter < COUNTER_LIMIT
    ensures NeverBack(s, Stamps(s, ticks))
    decreases |ticks|
  {
    if ticks != [] {
      var t := Step(s, ticks[0].now, ticks[0].random);
      TimestampsNeverDecrease(t, ticks[1..]);
      assert NeverBack(t, Stamps(t, ticks[1..]));
    }
  }

  /**
   A call moves the stamp strictly forward exactly when the clock reads at least the last timestamp or the random
   seed happens to exceed the counter.
   */
  lemma StepIncreasesExactly(s: State, now: nat, random: seq<byte>)
    requires |random| == 16
    ensures Less(s, Step(s, now, random)) <==> now >= s.lastMs || s.counter < Seed(random)
  {}

  /** Every call of the run reads a clock that is not behind the timestamp already given out. */
  predicate ClockKeepsUp(s: State, ticks: seq<Tick>)
    requires WellFormed(ticks)
    decreases |ticks|
  {
    ticks != [] ==>
      ticks[0].now >= s.lastMs && ClockKeepsUp(Step(s, ticks[0].now, ticks[0].random), ticks[1..])
  }

  /** Then all ids of the run are strictly ordered as they were made, any number of them within one millisecond. */
  lemma {:induction false} StampsStrictlyIncrease(s: State, ticks: seq<Tick>)
    requires WellFormed(ticks) && ClockKeepsUp(s, ticks)
    ensures StrictlyUp(s, Stamps(s, ticks))
    decreases |ticks|
  {
    if ticks != [] {
      var t := Step(s, ticks[0].now, ticks[0].random);
      StampsStrictlyIncrease(t, ticks[1..]);
      StepIncreasesExactly(s, ticks[0].now, ticks[0].random);
      assert StrictlyUp(t, Stamps(t, ticks[1..]));
    }
  }

  /**
   Right after the counter ran out the borrowed timestamp is ahead of a clock that stands still, and a zero seed
   repeats the stamp.
   */
  lemma StampCanRepeatAfterExhaustion(now: nat, random: seq<byte>)
    requires |random| == 16 && Seed(random) == 0
    ensures var t := Step(State(now, 0xfff), now, random);
            t == State(now + 1, 0) && Step(t, now, random) == t
  {}

  /** A fresh counter is eleven random bits, so that at least 2048 ids fit into its millisecond. */
  lemma SeedIsTheLowBits(random: seq<byte>)
    requires |random| == 16
    ensures Seed(random) == (random[6] as int * 256 + random[7] as int) % 2048
  {}

  /** Calls within one millisecond count up, and only the one that finds the counter at 4095 borrows the next. */
  lemma {:induction false} BurstCountsUp(s: State, ticks: seq<Tick>)
    requires WellFormed(ticks) && s.counter + |ticks| <= 4095 && forall i :: 0 <= i < |ticks| ==> ticks[i].now == s.lastMs
    ensures forall i :: 0 <= i < |ticks| ==> Stamps(s, ticks)[i] == State(s.lastMs, s.counter + i + 1)
    decreases |ticks|
  {
    if ticks != [] {
      var t := Step(s, ticks[0].now, ticks[0].random);
      BurstCountsUp(t, ticks[1..]);
      assert forall i :: 1 <= i < |ticks| ==> Stamps(s, ticks)[i] == Stamps(t, ticks[1..])[i - 1];
    }
  }

  lemma FullCounterBorrows(s: State, random: seq<byte>)
    requires |random| == 16 && s.counter == 4095
    ensures Step(s, s.lastMs, random) == State(s.lastMs + 1, 0)
  {}

  // ----- the 16 bytes -----

  function TimeByte(ms: nat, shift: nat): byte
    requires shift > 0
  {
    ((ms / shift) % 256) as byte
  }

  function Encode(s: State, random: seq<byte>): (b: seq<byte>)
    requires |random| == 16
    ensures |b| == 16
  {
    Head(s) + [0x80 + random[8] % 64] + random[9..]
  }

  /** Sixty-two random bits are kept as they are: all of the last seven bytes, and six of the one the variant shares. */
  lemma RandomBitsAreKept(s: State, random: seq<byte>)
    requires |random| == 16
    ensures Encode(s, random)[9..] == random[9..] && Encode(s, random)[8] % 64 == random[8] % 64
  {}

  /** The eight bytes that carry timestamp, version and counter. */
  function Head(s: State): (b: seq<byte>)
    ensures |b| == 8
  {
    [TimeByte(s.lastMs, 0x100_0000_0000), TimeByte(s.lastMs, 0x1_0000_0000), TimeByte(s.lastMs, 0x100_0000),
     TimeByte(s.lastMs, 0x1_0000), TimeByte(s.lastMs, 0x100), TimeByte(s.lastMs, 1),
     0x70 + ((s.counter / 256) % 16) as byte, (s.counter % 256) as byte]
  }

  /** Big-endian value. */
  function Big(b: seq<byte>): nat {
    if b == [] then 0 else Big(b[..|b| - 1]) * 256 + b[|b| - 1] as int
  }

  function TimestampOf(b: seq<byte>): nat
    requires |b| == 16
  {
    Big(b[..6])
  }

  function CounterOf(b: seq<byte>): nat
    requires |b| == 16
  {
    (b[6] % 16) as int * 256 + b[7] as int
  }

  lemma BigSnoc(b: seq<byte>, x: byte)
    ensures Big(b + [x]) == Big(b) * 256 + x as int
  {
    assert (b + [x])[..|b|] == b;
  }

  lemma ShiftAgain(ms: nat, shift: nat)
    requires shift in {1, 0x100, 0x1_0000, 0x100_0000, 0x1_0000_0000}
    ensures ms / shift == (ms / (shift * 256)) * 256 + (ms / shift) % 256
  {}

  lemma TimeIsBigEndian(s: State)
    requires s.lastMs < TIME_LIMIT
    ensures Big(Head(s)[..6]) == s.lastMs
  {
    var ms, h := s.lastMs, Head(s);
    assert h[..1] == [] + [h[0]] && h[..2] == h[..1] + [h[1]] && h[..3] == h[..2] + [h[2]];
    assert h[..4] == h[..3] + [h[3]] && h[..5] == h[..4] + [h[4]] && h[..6] == h[..5] + [h[5]];
    BigSnoc([], h[0]); BigSnoc(h[..1], h[1]); BigSnoc(h[..2], h[2]);
    BigSnoc(h[..3], h[3]); BigSnoc(h[..4], h[4]); BigSnoc(h[..5], h[5]);
    assert Big(h[..1]) == ms / 0x100_0000_0000;
    ShiftAgain(ms, 0x1_0000_0000);
    assert Big(h[..2]) == ms / 0x1_0000_0000;
    ShiftAgain(ms, 0x100_0000);
    assert Big(h[..3]) == ms / 0x100_0000;
    ShiftAgain(ms, 0x1_0000);
    assert Big(h[..4]) == ms / 0x1_0000;
    ShiftAgain(ms, 0x100);
    assert Big(h[..5]) == ms / 0x100;
    ShiftAgain(ms, 1);
  }

  /** The bytes decode to the stamp they were made from, and say version 7 and the RFC variant. */
  lemma DecodesToItsStamp(s: State, random: seq<byte>)
    requires Fits(s) && |random| == 16
    ensures var b := Encode(s, random);
            TimestampOf(b) == s.lastMs && CounterOf(b) == s.counter && b[6] / 16 == 7 && b[8] / 64 == 2
  {
    TimeIsBigEndian(s);
    var b := Encode(s, random);
    assert b[..6] == Head(s)[..6];
    assert b[6] == Head(s)[6] && b[7] == Head(s)[7];
  }

  /** Lexicographic order: what sorting bytes or characters means. */
  ghost predicate BytesBefore(x: seq<byte>, y: seq<byte>) {
    exists k :: 0 <= k < |x| && k < |y| && x[..k] == y[..k] && x[k] < y[k]
  }

  lemma {:induction false} BigIsInjective(x: seq<byte>, y: seq<byte>)
    requires |x| == |y| && Big(x) == Big(y)
    ensures x == y
  {
    if x != [] {
      BigIsInjective(x[..|x| - 1], y[..|y| - 1]);
      assert x == x[..|x| - 1] + [x[|x| - 1]] && y == y[..|y| - 1] + [y[|y| - 1]];
    }
  }

  lemma {:induction false} BigOrders(x: seq<byte>, y: seq<byte>)
    requires |x| == |y| && Big(x) < Big(y)
    ensures BytesBefore(x, y)
  {
    var n := |x| - 1;
    var x', y' := x[..n], y[..n];
    if Big(x') < Big(y') {
      BigOrders(x', y');
      var k :| 0 <= k < |x'| && k < |y'| && x'[..k] == y'[..k] && x'[k] < y'[k];
      assert x[..k] == x'[..k] && y[..k] == y'[..k] && x[k] < y[k];
    } else {
      BigIsInjective(x', y');
      assert x[..n] == y[..n] && x[n] < y[n];
    }
  }

  lemma HeadIsBigEndian(s: State)
    requires Fits(s)
    ensures Big(Head(s)) == s.lastMs * 0x1_0000 + 0x7000 + s.counter
  {
    TimeIsBigEndian(s);
    var h := Head(s);
    BigSnoc(h[..6], h[6]);
    BigSnoc(h[..7], h[7]);
    assert h[..7] == h[..6] + [h[6]] && h == h[..7] + [h[7]];
  }

  /** The byte encoding preserves the order of stamps, whatever the random bytes. */
  lemma BytesKeepTheOrder(s: State, t: State, r: seq<byte>, q: seq<byte>)
    requires Fits(s) && Fits(t) && |r| == 16 && |q| == 16 && Less(s, t)
    ensures BytesBefore(Encode(s, r), Encode(t, q))
  {
    HeadIsBigEndian(s);
    HeadIsBigEndian(t);
    BigOrders(Head(s), Head(t));
    var x, y := Head(s), Head(t);
    var k :| 0 <= k < |x| && k < |y| && x[..k] == y[..k] && x[k] < y[k];
    var b, c := Encode(s, r), Encode(t, q);
    assert b[..k] == x[..k] && c[..k] == y[..k] && b[k] == x[k] && c[k] == y[k];
  }

  // ----- the text -----

  function Digit(n: byte): char
    requires n < 16
  {
    if n < 10 then '0' + n as char else 'a' + (n - 10) as char
  }

  function DigitValue(c: char): byte {
    if '0' <= c <= '9' then (c as int - '0' as int) as byte
    else if 'a' <= c <= 'f' then (c as int - 'a' as int + 10) as byte
    else 0
  }

  function Hex(b: seq<byte>): (h: string)
    ensures |h| == 2 * |b|
  {
    if b == [] then [] else [Digit(b[0] / 16), Digit(b[0] % 16)] + Hex(b[1..])
  }

  /** Groups of 8, 4, 4, 4 and 12 digits. */
  function Group(h: string): (t: string)
    requires |h| == 32
    ensures |t| == 36
  {
    h[..8] + "-" + h[8..12] + "-" + h[12..16] + "-" + h[16..20] + "-" + h[20..]
  }

  function Text(b: seq<byte>): (t: string)
    requires |b| == 16
    ensures |t| == 36
  {
    Group(Hex(b))
  }

  function Unhex(h: string): seq<byte>
    requires |h| % 2 == 0
  {
    if h == [] then [] else [DigitValue(h[0]) % 16 * 16 + DigitValue(h[1]) % 16] + Unhex(h[2..])
  }

  function Ungroup(t: string): string
    requires |t| == 36
  {
    t[..8] + t[9..13] + t[14..18] + t[19..23] + t[24..]
  }

  function Parse(t: string): seq<byte>
    requires |t| == 36
  {
    Unhex(Ungroup(t))
  }

  lemma DigitRoundTrip(n: byte)
    requires n < 16
    ensures DigitValue(Digit(n)) == n
  {}

  lemma ByteRoundTrip(x: byte)
    ensures DigitValue(Digit(x / 16)) % 16 * 16 + DigitValue(Digit(x % 16)) % 16 == x
  {
    hide Digit;
    hide DigitValue;
    DigitRoundTrip(x / 16);
    DigitRoundTrip(x % 16);
  }

  lemma {:induction false} HexRoundTrip(b: seq<byte>)
    ensures Unhex(Hex(b)) == b
  {
    hide Digit;
    hide DigitValue;
    if b != [] {
      HexRoundTrip(b[1..]);
      ByteRoundTrip(b[0]);
      assert Hex(b)[2..] == Hex(b[1..]);
      assert b == [b[0]] + b[1..];
    }
  }

  lemma GroupRoundTrip(h: string)
    requires |h| == 32
    ensures Ungroup(Group(h)) == h
  {
    var t := Group(h);
    assert t[..8] == h[..8];
    assert t[9..13] == h[8..12];
    assert t[14..18] == h[12..16];
    assert t[19..23] == h[16..20];
    assert t[24..] == h[20..];
  }

  /** The text of an id parses back to its bytes. */
  lemma TextRoundTrip(b: seq<byte>)
    requires |b| == 16
    ensures Parse(Text(b)) == b
  {
    HexRoundTrip(b);
    GroupRoundTrip(Hex(b));
  }

  ghost predicate TextBefore(x: string, y: string) {
    exists k :: 0 <= k < |x| && k < |y| && x[..k] == y[..k] && x[k] < y[k]
  }

  lemma DigitsOrder(m: byte, n: byte)
    requires m < n < 16
    ensures Digit(m) < Digit(n)
  {}

  lemma {:induction false} HexKeepsTheOrder(x: seq<byte>, y: seq<byte>, k: nat)
    requires k < |x| && k < |y| && x[..k] == y[..k] && x[k] < y[k]
    ensures TextBefore(Hex(x), Hex(y))
  {
    var h, g := Hex(x), Hex(y);
    if k == 0 {
      if x[0] / 16 < y[0] / 16 {
        DigitsOrder(x[0] / 16, y[0] / 16);
        assert h[..0] == g[..0] && h[0] < g[0];
      } else {
        DigitsOrder(x[0] % 16, y[0] % 16);
        assert h[..1] == [Digit(x[0] / 16)] == g[..1] && h[1] < g[1];
      }
    } else {
      assert x[0] == x[..k][0] == y[..k][0] == y[0];
      assert x[1..][..k - 1] == x[..k][1..] && y[1..][..k - 1] == y[..k][1..];
      HexKeepsTheOrder(x[1..], y[1..], k - 1);
      var u, v := Hex(x[1..]), Hex(y[1..]);
      var i :| 0 <= i < |u| && i < |v| && u[..i] == v[..i] && u[i] < v[i];
      assert h[..i + 2] == h[..2] + u[..i] && g[..i + 2] == g[..2] + v[..i];
    }
  }

  /** Where digit `k` stands once the hyphens are in. */
  function Place(k: nat): nat {
    k + (if k >= 8 then 1 else 0) + (if k >= 12 then 1 else 0) + (if k >= 16 then 1 else 0) + (if k >= 20 then 1 else 0)
  }

  lemma GroupPlaces(h: string, p: nat)
    requires |h| == 32 && p < 36
    ensures p in {8, 13, 18, 23} ==> Group(h)[p] == '-'
    ensures p !in {8, 13, 18, 23} ==> exists k :: 0 <= k < 32 && Place(k) == p && Group(h)[p] == h[k]
  {
    var k: nat := p - (if p > 8 then 1 else 0) - (if p > 13 then 1 else 0) - (if p > 18 then 1 else 0) - (if p > 23 then 1 else 0);
    if p !in {8, 13, 18, 23} { assert Place(k) == p && Group(h)[p] == h[k]; }
  }

  lemma GroupKeepsPrefix(h: string, g: string, k: nat, i: nat)
    requires |h| == 32 && |g| == 32 && k < 32 && h[..k] == g[..k] && i < Place(k)
    ensures i < 36 && Group(h)[i] == Group(g)[i]
  {
    hide Group;
    GroupPlaces(h, i);
    GroupPlaces(g, i);
    if i !in {8, 13, 18, 23} {
      var j :| 0 <= j < 32 && Place(j) == i && Group(h)[i] == h[j];
      var l :| 0 <= l < 32 && Place(l) == i && Group(g)[i] == g[l];
      assert j == l < k && h[..k][j] == g[..k][j];
    }
  }

  lemma GroupAtPlace(h: string, k: nat)
    requires |h| == 32 && k < 32
    ensures Place(k) < 36 && Group(h)[Place(k)] == h[k]
  {}

  lemma GroupKeepsTheOrder(h: string, g: string)
    requires |h| == 32 && |g| == 32 && TextBefore(h, g)
    ensures TextBefore(Group(h), Group(g))
  {
    var k :| 0 <= k < |h| && k < |g| && h[..k] == g[..k] && h[k] < g[k];
    var p := Place(k);
    hide Group;
    GroupAtPlace(h, k);
    GroupAtPlace(g, k);
    forall i | 0 <= i < p ensures Group(h)[i] == Group(g)[i] { GroupKeepsPrefix(h, g, k, i); }
    assert Group(h)[..p] == Group(g)[..p];
    assert Group(h)[p] == h[k] && Group(g)[p] == g[k];
  }

  /** Sorting ids as text sorts them by timestamp and counter. */
  lemma TextKeepsTheOrder(s: State, t: State, r: seq<byte>, q: seq<byte>)
    requires Fits(s) && Fits(t) && |r| == 16 && |q| == 16 && Less(s, t)
    ensures TextBefore(Text(Encode(s, r)), Text(Encode(t, q)))
  {
    BytesKeepTheOrder(s, t, r, q);
    var x, y := Encode(s, r), Encode(t, q);
    var k :| 0 <= k < |x| && k < |y| && x[..k] == y[..k] && x[k] < y[k];
    HexKeepsTheOrder(x, y, k);
    GroupKeepsTheOrder(Hex(x), Hex(y));
  }

  /** Sorting the ids of such a run as text gives back the order in which they were made. */
  lemma TextsOfARunAreSorted(s: State, ticks: seq<Tick>, i: nat, j: nat)
    requires WellFormed(ticks) && ClockKeepsUp(s, ticks) && i < j < |ticks|
    requires forall k :: 0 <= k < |ticks| ==> Fits(Stamps(s, ticks)[k])
    ensures var r := Stamps(s, ticks);
            TextBefore(Text(Encode(r[i], ticks[i].random)), Text(Encode(r[j], ticks[j].random)))
  {
    StampsStrictlyIncrease(s, ticks);
    var r := Stamps(s, ticks);
    TextKeepsTheOrder(r[i], r[j], ticks[i].random, ticks[j].random);
  }

  // ----- the program -----

  class Generator {
    var lastMs: nat
    var counter: nat

    function View(): State
      reads this
    {
      State(lastMs, counter)
    }

    constructor ()
      ensures View() == State(0, 0)
    {
      lastMs, counter := 0, 0;
    }

    /** `random` is what crypto.getRandomValues filled the array with, `now` what Date.now() read. */
    method Uuidv7(now: nat, random: seq<byte>) returns (id: string)
      requires |random| == 16
      modifies this
      ensures View() == Step(old(View()), now, random)
      ensures id == Text(Encode(View(), random))
    {
      hide Text;
      hide TimeByte;
      var bytes := new byte[16](i requires 0 <= i < 16 => random[i]);
      var ms := now;
      if ms == lastMs {
        counter := counter + 1;
        if counter > 0xfff {
          lastMs := ms + 1;
          ms := lastMs;
          counter := 0;
        }
      } else {
        if ms < lastMs { ms := lastMs; }
        lastMs := ms;
        counter := (bytes[6] % 8) as int * 256 + bytes[7] as int;
      }
      assert View() == Step(old(View()), now, random) && View() == State(ms, counter);
      hide Encode;
      hide Step;
      assert bytes[..] == random;
      WriteFields(bytes, ms, counter);
      assert bytes[..] == Encode(View(), random);
      id := Text(bytes[..]);
    }
  }

  method WriteFields(bytes: array<byte>, ms: nat, counter: nat)
    requires bytes.Length == 16
    modifies bytes
    ensures bytes[..] == Encode(State(ms, counter), old(bytes[..]))
  {
    hide TimeByte;
    bytes[0] := TimeByte(ms, 0x100_0000_0000);
    bytes[1] := TimeByte(ms, 0x1_0000_0000);
    bytes[2] := TimeByte(ms, 0x100_0000);
    bytes[3] := TimeByte(ms, 0x1_0000);
    bytes[4] := TimeByte(ms, 0x100);
    bytes[5] := TimeByte(ms, 1);
    bytes[6] := 0x70 + ((counter / 256) % 16) as byte;
    bytes[7] := (counter % 256) as byte;
    bytes[8] := 0x80 + bytes[8] % 64;
    assert bytes[..8] == Head(State(ms, counter));
    assert bytes[9..] == old(bytes[..])[9..];
    assert bytes[..] == bytes[..8] + [bytes[8]] + bytes[9..];
  }
}
