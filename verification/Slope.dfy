/**
 The rate-of-change condition: the trimmed sample history kept by the alert engine
 (apps/ingest/src/rules/index.ts) and the least-squares slope computed from it
 (apps/ingest/src/rules/conditions.ts). Times are milliseconds; values and slopes are reals.
 */
module Slope {
  import opened Products
  import opened Wrappers

  datatype Sample = Sample(ts: int, value: real)

  // ----- the trimmed history -----

  /** Drop from the front while the head is older than the cutoff. */
  function DropOlder(history: seq<Sample>, cutoff: int): seq<Sample> {
    if history != [] && history[0].ts < cutoff then DropOlder(history[1..], cutoff) else history
  }

  function Push(history: seq<Sample>, s: Sample, retainMs: int): seq<Sample> {
    DropOlder(history + [s], s.ts - retainMs)
  }

  /** A reading, and the longest window any rule needed of its sensor when it arrived. */
  datatype Arrival = Arrival(sample: Sample, retainMs: int)

  function Retained(stream: seq<Arrival>): seq<Sample> {
    if stream == [] then []
    else
      var last := stream[|stream| - 1];
      Push(Retained(stream[..|stream| - 1]), last.sample, last.retainMs)
  }

  function Full(stream: seq<Arrival>): seq<Sample> {
    if stream == [] then [] else Full(stream[..|stream| - 1]) + [stream[|stream| - 1].sample]
  }

  /** The samples still inside the window. */
  function Window(history: seq<Sample>, now: int, windowMs: int): seq<Sample> {
    if history == [] then []
    else
      var n := |history| - 1;
      var earlier := Window(history[..n], now, windowMs);
      if now - history[n].ts <= windowMs then earlier + [history[n]] else earlier
  }

  lemma {:induction false} WindowOfConcat(a: seq<Sample>, b: seq<Sample>, now: int, windowMs: int)
    ensures Window(a + b, now, windowMs) == Window(a, now, windowMs) + Window(b, now, windowMs)
    decreases |b|
  {
    if b == [] {
      assert a + b == a;
    } else {
      var n := |b| - 1;
      assert (a + b)[..|a + b| - 1] == a + b[..n];
      WindowOfConcat(a, b[..n], now, windowMs);
    }
  }

  lemma {:induction false} DroppingOldKeepsTheWindow(history: seq<Sample>, cutoff: int, now: int, windowMs: int)
    requires cutoff <= now - windowMs
    ensures Window(DropOlder(history, cutoff), now, windowMs) == Window(history, now, windowMs)
  {
    if history != [] && history[0].ts < cutoff {
      DroppingOldKeepsTheWindow(history[1..], cutoff, now, windowMs);
      WindowOfConcat(history[..1], history[1..], now, windowMs);
      assert history == history[..1] + history[1..];
      assert history[..1][..0] == [];
    }
  }

  /** How far ahead of the evaluating clock a reading may be stamped without costing a window its samples. */
  predicate Trimmable(a: Arrival, now: int, windowMs: int) {
    a.sample.ts - a.retainMs <= now - windowMs
  }

  /**
   Trimming loses no sample that the window would still count. Readings need not arrive in time order, and the
   retained window may change between them.
   */
  lemma {:induction false} RetainedKeepsTheWindow(stream: seq<Arrival>, now: int, windowMs: int)
    requires forall i :: 0 <= i < |stream| ==> Trimmable(stream[i], now, windowMs)
    ensures Window(Retained(stream), now, windowMs) == Window(Full(stream), now, windowMs)
  {
    if stream != [] {
      var n := |stream| - 1;
      var last := stream[n];
      assert Trimmable(last, now, windowMs);
      RetainedKeepsTheWindow(stream[..n], now, windowMs);
      DroppingOldKeepsTheWindow(Retained(stream[..n]) + [last.sample], last.sample.ts - last.retainMs, now, windowMs);
      WindowOfConcat(Retained(stream[..n]), [last.sample], now, windowMs);
      WindowOfConcat(Full(stream[..n]), [last.sample], now, windowMs);
    }
  }

  ghost predicate HarmlessPush(h: seq<Sample>, s: Sample, retainMs: int, now: int, windowMs: int) {
    Window(Push(h, s, retainMs), now, windowMs) == Window(h + [s], now, windowMs)
  }

  /**
   One push is harmless to every possible history exactly when the new reading is not stamped too far ahead of
   the clock.
   */
  lemma PushIsHarmlessExactly(s: Sample, retainMs: nat, now: int, windowMs: int)
    ensures (forall h :: HarmlessPush(h, s, retainMs, now, windowMs)) <==> Trimmable(Arrival(s, retainMs), now, windowMs)
  {
    if Trimmable(Arrival(s, retainMs), now, windowMs) {
      forall h ensures HarmlessPush(h, s, retainMs, now, windowMs) {
        DroppingOldKeepsTheWindow(h + [s], s.ts - retainMs, now, windowMs);
      }
    } else {
      var h := [Sample(now - windowMs, 0.0)];
      WindowOfConcat(h, [s], now, windowMs);
      assert h[..0] == [];
      assert Window(h, now, windowMs) == h;
      assert (h + [s])[1..] == [s];
      assert Push(h, s, retainMs) == DropOlder([s], s.ts - retainMs) == [s];
      assert !HarmlessPush(h, s, retainMs, now, windowMs);
    }
  }

  class SensorHistory {
    var history: seq<Sample>

    constructor ()
      ensures history == []
    {
      history := [];
    }

    /** The history half of onReading, for a sensor some rate-of-change rule watches. */
    method Record(s: Sample, windowMs: int)
      modifies this
      ensures history == Push(old(history), s, windowMs)
    {
      history := history + [s];
      var cutoff := s.ts - windowMs;
      while |history| > 0 && history[0].ts < cutoff
        invariant DropOlder(history, cutoff) == Push(old(history), s, windowMs)
        decreases |history|
      {
        history := history[1..];
      }
    }
  }

  // ----- the slope -----

  function SumTs(h: seq<Sample>): real {
    if h == [] then 0.0 else SumTs(h[..|h| - 1]) + h[|h| - 1].ts as real
  }

  function SumValue(h: seq<Sample>): real {
    if h == [] then 0.0 else SumValue(h[..|h| - 1]) + h[|h| - 1].value
  }

  function Dx(s: Sample, meanTs: real): real { s.ts as real - meanTs }

  function Dy(s: Sample, meanValue: real): real { s.value - meanValue }

  function Num(h: seq<Sample>, meanTs: real, meanValue: real): real {
    if h == [] then 0.0
    else
      var s := h[|h| - 1];
      Num(h[..|h| - 1], meanTs, meanValue) + Mul(Dx(s, meanTs), Dy(s, meanValue))
  }

  function Den(h: seq<Sample>, meanTs: real): real {
    if h == [] then 0.0
    else
      var s := h[|h| - 1];
      Den(h[..|h| - 1], meanTs) + Mul(Dx(s, meanTs), Dx(s, meanTs))
  }

  function MeanTs(h: seq<Sample>): real
    requires h != []
  {
    SumTs(h) / |h| as real
  }

  function MeanValue(h: seq<Sample>): real
    requires h != []
  {
    SumValue(h) / |h| as real
  }

  const MS_PER_HOUR := 3_600_000.0

  /** Enough samples, spanning at least half of the window. */
  predicate Spans(samples: seq<Sample>, windowMs: int) {
    |samples| >= 3 && 2 * (samples[|samples| - 1].ts - samples[0].ts) >= windowMs
  }

  function Quotient(num: real, den: real): Option<real> {
    if den == 0.0 then None else Some(num / den * MS_PER_HOUR)
  }

  function SlopeOf(samples: seq<Sample>, windowMs: int): Option<real> {
    if !Spans(samples, windowMs) then None
    else Quotient(Num(samples, MeanTs(samples), MeanValue(samples)), Den(samples, MeanTs(samples)))
  }

  function SlopePerHour(history: seq<Sample>, now: int, windowS: int): Option<real> {
    SlopeOf(Window(history, now, windowS * 1000), windowS * 1000)
  }

  method ComputeSlopePerHour(history: seq<Sample>, now: int, windowS: int) returns (r: Option<real>)
    ensures r == SlopePerHour(history, now, windowS)
  {
    hide Mul;
    var windowMs := windowS * 1000;
    var samples := InWindow(history, now, windowMs);
    if |samples| < 3 { return None; }
    var span := samples[|samples| - 1].ts - samples[0].ts;
    if 2 * span < windowMs { return None; }

    var meanTs, meanValue := Means(samples);
    var num, den := 0.0, 0.0;
    for i := 0 to |samples|
      invariant num == Num(samples[..i], meanTs, meanValue) && den == Den(samples[..i], meanTs)
    {
      assert samples[..i + 1][..i] == samples[..i];
      var dx := Dx(samples[i], meanTs);
      num, den := num + Mul(dx, samples[i].value - meanValue), den + Mul(dx, dx);
    }
    assert samples[..|samples|] == samples;
    if den == 0.0 { return None; }
    return Some(num / den * MS_PER_HOUR);
  }

  method InWindow(history: seq<Sample>, now: int, windowMs: int) returns (samples: seq<Sample>)
    ensures samples == Window(history, now, windowMs)
  {
    samples := [];
    for i := 0 to |history|
      invariant samples == Window(history[..i], now, windowMs)
    {
      assert history[..i + 1][..i] == history[..i];
      if now - history[i].ts <= windowMs { samples := samples + [history[i]]; }
    }
    assert history[..|history|] == history;
  }

  method Means(samples: seq<Sample>) returns (meanTs: real, meanValue: real)
    requires samples != []
    ensures meanTs == MeanTs(samples) && meanValue == MeanValue(samples)
  {
    var sumTs, sumValue := 0.0, 0.0;
    for i := 0 to |samples|
      invariant sumTs == SumTs(samples[..i]) && sumValue == SumValue(samples[..i])
    {
      assert samples[..i + 1][..i] == samples[..i];
      sumTs, sumValue := sumTs + samples[i].ts as real, sumValue + samples[i].value;
    }
    assert samples[..|samples|] == samples;
    meanTs, meanValue := sumTs / |samples| as real, sumValue / |samples| as real;
  }

  /**
   The slope over the trimmed history is the slope over everything ever received, for every window the retention
   covers.
   */
  lemma TrimmedSlopeIsTheFullSlope(stream: seq<Arrival>, now: int, windowS: int)
    requires forall i :: 0 <= i < |stream| ==> stream[i].retainMs >= windowS * 1000 && stream[i].sample.ts <= now
    ensures SlopePerHour(Retained(stream), now, windowS) == SlopePerHour(Full(stream), now, windowS)
  {
    RetainedKeepsTheWindow(stream, now, windowS * 1000);
  }

  // ----- the slope is the least-squares slope -----

  lemma {:induction false} DenIsNonNegative(h: seq<Sample>, meanTs: real)
    ensures Den(h, meanTs) >= 0.0
  {
    hide Mul;
    if h != [] {
      DenIsNonNegative(h[..|h| - 1], meanTs);
      SquareIsPositive(Dx(h[|h| - 1], meanTs));
    }
  }

  lemma {:induction false} OffCentreIsPositive(h: seq<Sample>, meanTs: real, i: nat)
    requires i < |h| && Dx(h[i], meanTs) != 0.0
    ensures Den(h, meanTs) > 0.0
  {
    hide Mul;
    var n := |h| - 1;
    DenIsNonNegative(h[..n], meanTs);
    SquareIsPositive(Dx(h[n], meanTs));
    if i < n {
      OffCentreIsPositive(h[..n], meanTs, i);
    }
  }

  /** Once the span test passes the division is defined, so the zero-denominator test never fires. */
  lemma SpanMakesTheSlopeDefined(samples: seq<Sample>, windowMs: int)
    requires windowMs > 0
    ensures SlopeOf(samples, windowMs).Some? <==> Spans(samples, windowMs)
    ensures Spans(samples, windowMs) ==> Den(samples, MeanTs(samples)) > 0.0
  {
    hide Mul;
    if Spans(samples, windowMs) {
      var n := |samples| - 1;
      var m := MeanTs(samples);
      if Dx(samples[0], m) != 0.0 {
        OffCentreIsPositive(samples, m, 0);
      } else {
        OffCentreIsPositive(samples, m, n);
      }
    }
  }

  /** A slope is given exactly when at least three samples are in the window and they span half of it or more. */
  lemma SlopeGivenExactly(history: seq<Sample>, now: int, windowS: int)
    requires windowS > 0
    ensures var samples := Window(history, now, 1000 * windowS);
            SlopePerHour(history, now, windowS).Some?
            <==> |samples| >= 3 && (samples[|samples| - 1].ts - samples[0].ts) as real >= windowS as real * 1000.0 / 2.0
  {
    SpanMakesTheSlopeDefined(Window(history, now, 1000 * windowS), 1000 * windowS);
  }

  /** How far a sample lies above the line a + b * ts. */
  function Miss(s: Sample, a: real, b: real): real { s.value - (a + Mul(b, s.ts as real)) }

  function SquaredError(h: seq<Sample>, a: real, b: real): real {
    if h == [] then 0.0
    else
      var d := Miss(h[|h| - 1], a, b);
      SquaredError(h[..|h| - 1], a, b) + Mul(d, d)
  }

  function Spread(h: seq<Sample>, meanValue: real): real {
    if h == [] then 0.0
    else
      var d := Dy(h[|h| - 1], meanValue);
      Spread(h[..|h| - 1], meanValue) + Mul(d, d)
  }

  /** Sum of the misses of a line through the centre with slope `b`. */
  function Drift(h: seq<Sample>, meanTs: real, meanValue: real, b: real): real {
    if h == [] then 0.0
    else
      var s := h[|h| - 1];
      Drift(h[..|h| - 1], meanTs, meanValue, b) + (Dy(s, meanValue) - Mul(b, Dx(s, meanTs)))
  }

  lemma ResidualSquare(x: real, y: real, b: real, c: real)
    ensures Mul(y - Mul(b, x) + c, y - Mul(b, x) + c)
            == Mul(y, y) - 2.0 * Mul(b, Mul(x, y)) + Mul(Mul(b, b), Mul(x, x)) + Mul(c, c) + 2.0 * Mul(c, y - Mul(b, x))
  {}

  /** The squared error of the line with slope `b` that passes `c` below the centre. */
  function Expanded(h: seq<Sample>, mt: real, mv: real, b: real, c: real): real {
    Spread(h, mv) - 2.0 * Mul(b, Num(h, mt, mv)) + Mul(Mul(b, b), Den(h, mt))
    + Mul(|h| as real, Mul(c, c)) + 2.0 * Mul(c, Drift(h, mt, mv, b))
  }

  lemma ExpandStep(h: seq<Sample>, mt: real, mv: real, b: real, c: real)
    requires h != []
    ensures var g, s := h[..|h| - 1], h[|h| - 1];
            var r := Dy(s, mv) - Mul(b, Dx(s, mt)) + c;
            Expanded(h, mt, mv, b, c) == Expanded(g, mt, mv, b, c) + Mul(r, r)
  {
    hide Mul;
    var g, s := h[..|h| - 1], h[|h| - 1];
    var x, y := Dx(s, mt), Dy(s, mv);
    ResidualSquare(x, y, b, c);
    Distribute(b, Num(g, mt, mv), Mul(x, y));
    Distribute(Mul(b, b), Den(g, mt), Mul(x, x));
    Distribute(c, Drift(g, mt, mv, b), y - Mul(b, x));
    OneMore(|g| as real, Mul(c, c));
  }

  lemma MissFromTheCentre(s: Sample, mt: real, mv: real, a: real, b: real)
    ensures Miss(s, a, b) == Dy(s, mv) - Mul(b, Dx(s, mt)) + (mv - a - Mul(b, mt))
  {}

  lemma {:induction false} Expand(h: seq<Sample>, mt: real, mv: real, a: real, b: real)
    ensures SquaredError(h, a, b) == Expanded(h, mt, mv, b, mv - a - Mul(b, mt))
  {
    hide Mul;
    var c := mv - a - Mul(b, mt);
    if h == [] {
      MulUnits(b);
      MulUnits(Mul(b, b));
      MulUnits(c);
      MulUnits(Mul(c, c));
    } else {
      Expand(h[..|h| - 1], mt, mv, a, b);
      ExpandStep(h, mt, mv, b, c);
      MissFromTheCentre(h[|h| - 1], mt, mv, a, b);
    }
  }

  lemma {:induction false} DriftInSums(h: seq<Sample>, mt: real, mv: real, b: real)
    ensures Drift(h, mt, mv, b) == (SumValue(h) - Mul(|h| as real, mv)) - Mul(b, SumTs(h) - Mul(|h| as real, mt))
  {
    hide Mul;
    if h == [] {
      MulUnits(mv);
      MulUnits(mt);
      MulUnits(b);
    } else {
      var g, s := h[..|h| - 1], h[|h| - 1];
      DriftInSums(g, mt, mv, b);
      OneMore(|g| as real, mv);
      OneMore(|g| as real, mt);
      Distribute(b, SumTs(g) - Mul(|g| as real, mt), Dx(s, mt));
      assert SumTs(h) - Mul(|h| as real, mt) == SumTs(g) - Mul(|g| as real, mt) + Dx(s, mt);
    }
  }

  lemma MeanTimesCount(sum: real, n: real)
    requires n != 0.0
    ensures Mul(n, sum / n) == sum
  {}

  lemma NoDriftAboutTheMeans(h: seq<Sample>, b: real)
    requires h != []
    ensures Drift(h, MeanTs(h), MeanValue(h), b) == 0.0
  {
    hide Mul;
    DriftInSums(h, MeanTs(h), MeanValue(h), b);
    MeanTimesCount(SumTs(h), |h| as real);
    MeanTimesCount(SumValue(h), |h| as real);
    MulUnits(b);
  }

  lemma CompleteTheSquare(p: real, d: real, b: real)
    requires d > 0.0
    ensures var q := p / d;
            Mul(Mul(b, b), d) - 2.0 * Mul(b, p) == Mul(Mul(q, q), d) - 2.0 * Mul(q, p) + Mul(d, Mul(b - q, b - q))
  {
    var q := p / d;
    assert p == q * d;
    assert d * ((b - q) * (b - q)) == b * b * d - 2.0 * (b * (q * d)) + q * q * d;
    assert q * (q * d) == q * q * d;
  }

  /** About the means, the error of any line exceeds that of the slope's own line by two squares. */
  lemma ErrorAboutTheMeans(h: seq<Sample>, a: real, b: real)
    requires h != [] && Den(h, MeanTs(h)) > 0.0
    ensures var mt, mv := MeanTs(h), MeanValue(h);
            var best := Num(h, mt, mv) / Den(h, mt);
            var c := mv - a - Mul(b, mt);
            SquaredError(h, a, b) == SquaredError(h, mv - Mul(best, mt), best)
                                     + Mul(Den(h, mt), Mul(b - best, b - best)) + Mul(|h| as real, Mul(c, c))
  {
    hide Mul;
    hide MeanTs;
    hide MeanValue;
    var mt, mv := MeanTs(h), MeanValue(h);
    var d, p := Den(h, mt), Num(h, mt, mv);
    var best, c := p / d, mv - a - Mul(b, mt);
    Expand(h, mt, mv, a, b);
    Expand(h, mt, mv, mv - Mul(best, mt), best);
    NoDriftAboutTheMeans(h, b);
    NoDriftAboutTheMeans(h, best);
    MulUnits(c);
    MulUnits(0.0);
    MulUnits(|h| as real);
    CompleteTheSquare(p, d, b);
  }

  /** The line of slope `b` through the mean point has intercept `Intercept(h, b)`. */
  function Intercept(h: seq<Sample>, b: real): real
    requires h != []
  {
    MeanValue(h) - Mul(b, MeanTs(h))
  }

  /**
   The returned slope belongs to the one line that fits the window's samples best: no line does better, and any
   line with another slope does worse.
   */
  lemma SlopeIsLeastSquares(samples: seq<Sample>, windowMs: int, best: real, a: real, b: real)
    requires windowMs > 0 && SlopeOf(samples, windowMs) == Some(best * 3_600_000.0)
    ensures SquaredError(samples, Intercept(samples, best), best) <= SquaredError(samples, a, b)
    ensures b != best ==> SquaredError(samples, Intercept(samples, best), best) < SquaredError(samples, a, b)
  {
    hide Mul;
    hide MeanTs;
    hide MeanValue;
    SpanMakesTheSlopeDefined(samples, windowMs);
    var mt, mv := MeanTs(samples), MeanValue(samples);
    var d := Den(samples, mt);
    assert Num(samples, mt, mv) / d == best;
    ErrorAboutTheMeans(samples, a, b);
    var c := mv - a - Mul(b, mt);
    SquareIsPositive(c);
    SquareIsPositive(b - best);
    MulIsNonNegative(d, Mul(b - best, b - best));
    MulIsNonNegative(|samples| as real, Mul(c, c));
    if b != best { MulIsPositive(d, Mul(b - best, b - best)); }
  }

  lemma {:induction false} SquaredErrorIsNonNegative(h: seq<Sample>, a: real, b: real)
    ensures SquaredError(h, a, b) >= 0.0
  {
    hide Mul;
    if h != [] {
      SquaredErrorIsNonNegative(h[..|h| - 1], a, b);
      SquareIsPositive(Miss(h[|h| - 1], a, b));
    }
  }

  lemma {:induction false} LineHasNoError(h: seq<Sample>, a: real, b: real)
    requires forall i :: 0 <= i < |h| ==> h[i].value == a + b * h[i].ts as real
    ensures SquaredError(h, a, b) == 0.0
  {
    if h != [] {
      LineHasNoError(h[..|h| - 1], a, b);
      assert Miss(h[|h| - 1], a, b) == 0.0;
    }
  }

  /** On readings that lie on a line the slope is exactly that line's, in units per hour. */
  lemma SlopeIsExactOnLines(samples: seq<Sample>, windowMs: int, a: real, b: real)
    requires windowMs > 0 && Spans(samples, windowMs)
    requires forall i :: 0 <= i < |samples| ==> samples[i].value == a + b * samples[i].ts as real
    ensures SlopeOf(samples, windowMs) == Some(b * 3_600_000.0)
  {
    SpanMakesTheSlopeDefined(samples, windowMs);
    var best := SlopeOf(samples, windowMs).value / MS_PER_HOUR;
    LineHasNoError(samples, a, b);
    SlopeIsLeastSquares(samples, windowMs, best, a, b);
    SquaredErrorIsNonNegative(samples, Intercept(samples, best), best);
  }
}
