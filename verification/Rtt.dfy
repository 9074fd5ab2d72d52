/** Round-trip estimate and window size, over the reals (mrudp/sender/RTT.h, mrudp/sender/WindowSize.h,
mrudp/sender/Retrier.cpp). */
module Rtts {

  const MAXIMUM := 1.0
  const MINIMUM := 0.005

  function MinReal(a: real, b: real): real { if a < b then a else b }
  function MaxReal(a: real, b: real): real { if a < b then b else a }
  function MinNat(a: nat, b: nat): nat { if a < b then a else b }
  function MaxNat(a: nat, b: nat): nat { if a < b then b else a }

  /** `RTTSimple::calculate`: a weighted average, clamped. */
  function Calculate(duration: real, sample: real): real {
    MinReal(MAXIMUM, MaxReal(MINIMUM, 0.9 * duration + 0.1 * sample))
  }

  /** `RTTSimple::onAckFailure`: the sample is the maximum. */
  function AfterFailure(duration: real): real {
    Calculate(duration, MAXIMUM)
  }

  /** `WindowSizeSimple::onSample`. */
  function WindowFor(rtt: real): nat
    requires rtt > 0.0
  {
    MinNat(1024, MaxNat(3, Truncate(2.0 / rtt)))
  }

  function Truncate(x: real): nat {
    if x < 0.0 then 0 else x.Floor
  }

  /** The estimate stays within its bounds whatever is sampled, negative times included. */
  predicate InBounds(rtt: real) {
    MINIMUM <= rtt <= MAXIMUM
  }

  lemma CalculateInBounds(duration: real, sample: real)
    ensures InBounds(Calculate(duration, sample))
  {
  }

  /** For every sample the estimate is nine tenths of the old one and one tenth of the sample, or the bound that
  passes. */
  lemma CalculateExact(duration: real, sample: real)
    ensures var mean := (9.0 * duration + sample) / 10.0;
            Calculate(duration, sample) ==
                if mean < 0.005 then 0.005 else if mean > 1.0 then 1.0 else mean
  {
  }

  lemma QuotientAntitone(a: real, b: real)
    requires 0.0 < a <= b
    ensures 0.0 < 2.0 / b <= 2.0 / a
  {
    var p, q := 2.0 / a, 2.0 / b;
    assert p * a == 2.0 && q * b == 2.0;
    if q > p {
      assert q * b >= q * a;
      assert q * a > p * a;
    }
  }

  /** A larger estimate never gives a larger window. */
  lemma WindowAntitone(a: real, b: real)
    requires 0.0 < a <= b
    ensures WindowFor(b) <= WindowFor(a)
  {
    QuotientAntitone(a, b);
    assert (2.0 / b).Floor <= (2.0 / a).Floor;
  }

  /** At most 400 and at least 3 packets. The nominal maximum of 1024 is out of reach. */
  lemma WindowBounds(rtt: real)
    requires InBounds(rtt)
    ensures 3 <= WindowFor(rtt) <= 400
  {
    QuotientAntitone(MINIMUM, rtt);
    assert 2.0 / MINIMUM == 400.0;
  }

  /** So many round trips, one after the other, take no longer than two seconds. */
  predicate Fits(n: nat, rtt: real) {
    n as real * rtt <= 2.0
  }

  lemma FitsExact(q: real, n: nat, rtt: real)
    requires q * rtt == 2.0 && rtt > 0.0
    ensures Fits(n, rtt) <==> n as real <= q
  {
    var r, p, two := n as real, n as real * rtt, q * rtt;
    assert r > q ==> p > two;
    assert r <= q ==> p <= two;
  }

  /** The window is the largest number of round trips that fit into two seconds, and at least 3. */
  lemma WindowExact(rtt: real)
    requires InBounds(rtt)
    ensures var w := WindowFor(rtt); w >= 3 && (w > 3 ==> Fits(w, rtt)) && !Fits(w + 1, rtt)
  {
    WindowBounds(rtt);
    var q, n := 2.0 / rtt, WindowFor(rtt);
    assert q * rtt == 2.0;
    hide Fits;
    FitsExact(q, n, rtt);
    FitsExact(q, n + 1, rtt);
    assert n == MaxNat(3, q.Floor) && q < q.Floor as real + 1.0 <= (n + 1) as real;
  }

  /** A lost packet never shortens the estimate and never widens the window. */
  lemma FailureShrinks(rtt: real)
    requires InBounds(rtt)
    ensures rtt <= AfterFailure(rtt) <= MAXIMUM
    ensures WindowFor(AfterFailure(rtt)) <= WindowFor(rtt)
  {
    WindowAntitone(rtt, AfterFailure(rtt));
  }

  /** `calculateRetryDuration` and the conversion to whole milliseconds. */
  function RetryDuration(rtt: real): real {
    2.0 * rtt + 0.03
  }

  function RetryMillis(rtt: real): int {
    var ms := RetryDuration(rtt) * 1000.0;
    if ms < 0.0 then -((-ms).Floor) else ms.Floor
  }

  /** Twice the estimate and 30 ms, cut to whole milliseconds. */
  lemma RetryMillisExact(rtt: real)
    requires InBounds(rtt)
    ensures RetryMillis(rtt) as real <= 2000.0 * rtt + 30.0 < RetryMillis(rtt) as real + 1.0
  {
  }

  lemma RetryMillisBounds(rtt: real)
    requires InBounds(rtt)
    ensures 40 <= RetryMillis(rtt) <= 2030
  {
  }

  /** Within the bounds the estimate moves a tenth of the way towards the sample. */
  lemma CalculateMoves(duration: real, sample: real)
    requires InBounds(duration) && InBounds(sample)
    ensures Calculate(duration, sample) == duration + (sample - duration) / 10.0
  {
  }

  function Failures(rtt: real, n: nat): real {
    if n == 0 then rtt else AfterFailure(Failures(rtt, n - 1))
  }

  function Power(n: nat): real {
    if n == 0 then 1.0 else 0.9 * Power(n - 1)
  }

  /** Consecutive losses drive the estimate to its maximum geometrically. */
  lemma {:induction false} FailuresConverge(rtt: real, n: nat)
    requires InBounds(rtt)
    ensures InBounds(Failures(rtt, n)) && MAXIMUM - Failures(rtt, n) == Power(n) * (MAXIMUM - rtt)
  {
    if n > 0 {
      FailuresConverge(rtt, n - 1);
      CalculateMoves(Failures(rtt, n - 1), MAXIMUM);
    }
  }
}
