/** Sub-second timestamps: exact decimals in the database, binary64 doubles on
    the way back. */
module Timestamps {

  // ---- Doubles ----

  const TWO53: int := 0x20_0000_0000_0000
  const MILLION: int := 1_000_000

  function Pow2(k: nat): int
    ensures Pow2(k) > 0
  {
    if k == 0 then 1 else 2 * Pow2(k - 1)
  }

  lemma Associates(a: int, b: int, c: int)
    ensures a * (b * c) == (a * b) * c
  {
  }

  lemma {:induction false} Pow2Add(a: nat, b: nat)
    ensures Pow2(a + b) == Pow2(a) * Pow2(b)
  {
    if a > 0 {
      calc {
        Pow2(a + b);
        2 * Pow2(a - 1 + b);
        { Pow2Add(a - 1, b); }
        2 * (Pow2(a - 1) * Pow2(b));
        { Associates(2, Pow2(a - 1), Pow2(b)); }
        (2 * Pow2(a - 1)) * Pow2(b);
        Pow2(a) * Pow2(b);
      }
    }
  }

  lemma {:induction false} Pow2Grows(a: nat, k: nat)
    requires a <= k
    ensures Pow2(a) <= Pow2(k)
  {
    if a < k {
      Pow2Grows(a, k - 1);
    }
  }

  /** `r` is `n` over a power of two. */
  ghost predicate Fraction(r: real, n: int, k: nat) {
    -TWO53 < n < TWO53 && k <= 1074 && r * (Pow2(k) as real) == n as real
  }

  /** `r` is `n` times a power of two. */
  ghost predicate Multiple(r: real, n: int, k: nat) {
    -TWO53 < n < TWO53 && k <= 971 && r == (n * Pow2(k)) as real
  }

  /** The finite numbers of the binary64 format of IEEE 754-2008, section 3.3. */
  ghost predicate IsDouble(r: real) {
    (exists n: int, k: nat :: Fraction(r, n, k)) || (exists n: int, k: nat :: Multiple(r, n, k))
  }

  function Abs(x: real): real {
    if x < 0.0 then -x else x
  }

  ghost predicate Nearest(x: real, d: real) {
    IsDouble(d) && forall e :: IsDouble(e) ==> Abs(d - x) <= Abs(e - x)
  }

  /** `R` rounds to a nearest double, as section 4.3.1 of IEEE 754-2008 asks;
      how it breaks ties is left open. */
  ghost predicate Rounding(R: real -> real) {
    forall x :: Nearest(x, R(x))
  }

  lemma IntIsDouble(n: int)
    requires -TWO53 < n < TWO53
    ensures IsDouble(n as real)
  {
    assert Pow2(0) == 1;
    assert Fraction(n as real, n, 0);
  }

  lemma HalfIsDouble(n: int)
    requires -TWO53 < n < TWO53
    ensures IsDouble(n as real / 2.0)
  {
    assert Pow2(1) == 2 by { assert Pow2(0) == 1; }
    assert Fraction(n as real / 2.0, n, 1);
  }

  lemma NothingNearer(R: real -> real, x: real, e: real)
    requires Rounding(R) && IsDouble(e)
    ensures IsDouble(R(x)) && Abs(R(x) - x) <= Abs(e - x)
  {
  }

  /** Rounding leaves doubles alone and never crosses one. */
  lemma RoundMonotone(R: real -> real, x: real, d: real)
    requires Rounding(R) && IsDouble(d)
    ensures d <= x ==> d <= R(x)
    ensures x <= d ==> R(x) <= d
  {
  }

  lemma ScaleLe(a: real, b: real, p: real)
    requires a <= b && 0.0 < p
    ensures a * p <= b * p
  {
  }

  /** The grid point nearest to `x` on the grid of step 1/p. */
  lemma GridPoint(x: real, p: real, e: real, n: int)
    requires p > 0.0 && n == (x * p + 0.5).Floor && e == n as real / p
    ensures e * p == n as real
    ensures Abs(e - x) * p <= 0.5
  {
  }

  lemma DoubleNear(x: real, k: nat, p: int) returns (e: real)
    requires k <= 1074 && p == Pow2(k)
    requires 0.0 <= x * (p as real) <= (TWO53 - 1) as real
    ensures IsDouble(e) && Abs(e - x) * (p as real) <= 0.5
  {
    var n := (x * (p as real) + 0.5).Floor;
    e := n as real / (p as real);
    GridPoint(x, p as real, e, n);
    assert Fraction(e, n, k);
  }

  /** The error is at most half a step of any grid the numbers below 2^53 / 2^k lie on. */
  lemma RoundNear(R: real -> real, x: real, k: nat, p: int)
    requires Rounding(R) && k <= 1074 && p == Pow2(k)
    requires 0.0 <= x * (p as real) <= (TWO53 - 1) as real
    ensures Abs(R(x) - x) * (p as real) <= 0.5
  {
    hide IsDouble, Rounding, Abs, Pow2;
    var e := DoubleNear(x, k, p);
    NothingNearer(R, x, e);
    ScaleLe(Abs(R(x) - x), Abs(e - x), p as real);
  }

  lemma ScaledPart(d: real, s: int, p: int, n: int)
    requires 0 < p && d * (p as real) == n as real && 0 <= s && s as real <= d
    ensures (d - s as real) * (p as real) == (n - s * p) as real
    ensures 0 <= n - s * p <= n
  {
  }

  /** The fractional part of a double is a double. */
  lemma FractionalPart(d: real)
    requires IsDouble(d) && 0.0 <= d
    ensures IsDouble(d - d.Floor as real)
  {
    var s := d.Floor;
    if n: int, k: nat :| Fraction(d, n, k) {
      ScaledPart(d, s, Pow2(k), n);
      assert Fraction(d - s as real, n - s * Pow2(k), k);
    } else {
      var n: int, k: nat :| Multiple(d, n, k);
      assert d == s as real;
      IntIsDouble(0);
    }
  }

  // ---- The conversions ----

  /** A moment in whole seconds and microseconds. */
  datatype Moment = Moment(sec: int, micro: int)

  ghost predicate ValidMicro(m: int) {
    0 <= m < MILLION
  }

  /** The decimal stored for a moment. */
  function GetPrepValue(t: Moment): real {
    t.sec as real + t.micro as real / 1000000.0
  }

  /** How the language library turns a non-negative double into a moment: whole
      seconds by truncation, microseconds by multiplying, adding a half and truncating. */
  function FromTimestamp(R: real -> real, d: real): Moment {
    var sec := d.Floor;
    var fraction := R(d - sec as real);
    var us := R(R(fraction * 1000000.0) + 0.5).Floor;
    if us == MILLION then Moment(sec + 1, 0) else Moment(sec, us)
  }

  /** Reading the stored decimal back goes through a double. */
  function ToPython(R: real -> real, value: real): Moment {
    FromTimestamp(R, R(value))
  }

  /** The end of a job, from the server's pair of seconds and microseconds. */
  function ParseEndTimestamp(R: real -> real, t: Moment): Moment {
    FromTimestamp(R, R(t.sec as real + R(t.micro as real / 1000000.0)))
  }

  // ---- Below 2^33 seconds everything is exact ----

  const LIMIT: int := 0x2_0000_0000

  lemma Powers()
    ensures Pow2(19) == 0x8_0000 && Pow2(20) == 0x10_0000 && Pow2(32) == 0x1_0000_0000
  {
    assert Pow2(4) == 16 by {
      assert Pow2(0) == 1;
      assert Pow2(1) == 2;
      assert Pow2(2) == 4;
      assert Pow2(3) == 8;
    }
    Pow2Add(4, 4);
    Pow2Add(8, 8);
    Pow2Add(16, 4);
    Pow2Add(16, 16);
    assert Pow2(20) == 2 * Pow2(19);
  }

  /** Whatever double is read, the microseconds are those of one second. */
  lemma ReadIsValid(R: real -> real, d: real)
    requires Rounding(R) && IsDouble(d) && 0.0 <= d
    ensures ValidMicro(FromTimestamp(R, d).micro)
  {
    FractionalPart(d);
    var f := d - d.Floor as real;
    RoundMonotone(R, f, f);
    hide Rounding, IsDouble;
    MicrosBounded(R, f * 1000000.0);
  }

  lemma MicrosBounded(R: real -> real, p: real)
    requires Rounding(R) && 0.0 <= p <= 1000000.0
    ensures 0 <= R(R(p) + 0.5).Floor <= MILLION
  {
    IntIsDouble(0);
    IntIsDouble(1_000_000);
    HalfIsDouble(2_000_001);
    hide Rounding, IsDouble;
    RoundMonotone(R, p, 0.0);
    RoundMonotone(R, p, 1000000.0);
    RoundMonotone(R, R(p) + 0.5, 0.0);
    RoundMonotone(R, R(p) + 0.5, 1000000.5);
  }

  /** A double as close as this to a moment is read as that moment. */
  lemma ReadsMoment(R: real -> real, t: Moment, d: real)
    requires Rounding(R) && IsDouble(d) && 0 <= t.sec && ValidMicro(t.micro)
    requires t.sec as real <= d && Abs(d - GetPrepValue(t)) <= 0.00000048
    ensures FromTimestamp(R, d) == t
  {
    hide Rounding, Nearest, IsDouble;
    Powers();
    assert d.Floor == t.sec;
    FractionalPart(d);
    var f := d - t.sec as real;
    RoundMonotone(R, f, f);
    var p := f * 1000000.0;
    assert t.micro as real - 0.48 <= p <= t.micro as real + 0.48;
    hide Pow2, GetPrepValue;
    MicrosRound(R, t.micro, p);
  }

  /** Microseconds are recovered from a product this close to them. */
  lemma MicrosRound(R: real -> real, micro: int, p: real)
    requires Rounding(R) && ValidMicro(micro) && 0.0 <= p
    requires micro as real - 0.48 <= p <= micro as real + 0.48
    ensures R(R(p) + 0.5).Floor == micro
  {
    hide Rounding, Pow2;
    Powers();
    RoundNear(R, p, 32, 0x1_0000_0000);
    IntIsDouble(0);
    RoundMonotone(R, p, 0.0);
    var q := R(p) + 0.5;
    RoundNear(R, q, 32, 0x1_0000_0000);
    assert micro as real <= R(q) < micro as real + 1.0;
  }

  /** So is the double nearest to any number within a picosecond of the moment. */
  lemma NearbyReadsMoment(R: real -> real, t: Moment, x: real)
    requires Rounding(R) && 0 <= t.sec < LIMIT && ValidMicro(t.micro)
    requires t.sec as real <= x && Abs(x - GetPrepValue(t)) <= 0.000000000001
    ensures FromTimestamp(R, R(x)) == t
  {
    Powers();
    RoundNear(R, x, 20, 0x10_0000);
    IntIsDouble(t.sec);
    NothingNearer(R, x, t.sec as real);
    RoundMonotone(R, x, t.sec as real);
    ReadsMoment(R, t, R(x));
  }

  /** A microsecond's double is within a picosecond of it. */
  lemma MicroIsNear(R: real -> real, m: int)
    requires Rounding(R) && ValidMicro(m)
    ensures 0.0 <= R(m as real / 1000000.0) && Abs(R(m as real / 1000000.0) - m as real / 1000000.0) <= 0.000000000001
  {
    Powers();
    Pow2Add(20, 20);
    var x := m as real / 1000000.0;
    RoundNear(R, x, 40, 0x100_0000_0000);
    IntIsDouble(0);
    RoundMonotone(R, x, 0.0);
  }

  // ---- From 2^33 seconds on something is lost in every second ----

  lemma Regroup(d: real, a: int, b: int, n: int, c: int)
    requires a * b == c && d * (a as real) == n as real
    ensures d * (c as real) == (n * b) as real
  {
  }

  lemma ScaledLarge(d: real, k: nat)
    requires LIMIT as real <= d && 20 <= k
    ensures TWO53 as real <= d * (Pow2(k) as real)
  {
    hide Pow2;
    Powers();
    Pow2Grows(20, k);
    ScaleLe(LIMIT as real, d, Pow2(k) as real);
    ScaleLe(0x10_0000 as real, Pow2(k) as real, LIMIT as real);
  }

  lemma OnGrid(d: real, n: int, k: nat)
    requires Fraction(d, n, k) && k <= 19
    ensures d * 524288.0 == (n * Pow2(19 - k)) as real
  {
    hide Pow2;
    Powers();
    Pow2Add(k, 19 - k);
    Regroup(d, Pow2(k), Pow2(19 - k), n, 0x8_0000);
  }

  /** Doubles that large lie on a grid of about two microseconds. */
  lemma CoarseGrid(d: real) returns (j: int)
    requires IsDouble(d) && LIMIT as real <= d
    ensures d * 524288.0 == j as real
  {
    if n: int, k: nat :| Fraction(d, n, k) {
      if k <= 19 {
        OnGrid(d, n, k);
        j := n * Pow2(19 - k);
      } else {
        ScaledLarge(d, k);
        assert false;
      }
    } else {
      var n: int, k: nat :| Multiple(d, n, k);
      j := n * Pow2(k) * 524288;
    }
  }

  /** The first microsecond after a whole second is never read back. */
  lemma NeverOneMicro(R: real -> real, d: real)
    requires Rounding(R) && IsDouble(d) && LIMIT as real <= d
    ensures FromTimestamp(R, d).micro != 1
  {
    var j := CoarseGrid(d);
    FractionalPart(d);
    var f := d - d.Floor as real;
    RoundMonotone(R, f, f);
    assert R(f) == f;
    var p := f * 1000000.0;
    IntIsDouble(0);
    HalfIsDouble(1);
    HalfIsDouble(3);
    IntIsDouble(2);
    if f == 0.0 {
      RoundMonotone(R, 0.0, 0.0);
      RoundMonotone(R, 0.5, 0.5);
    } else {
      assert f * 524288.0 == (j - d.Floor * 524288) as real;
      assert f * 524288.0 >= 1.0;
      RoundMonotone(R, p, 1.5);
      RoundMonotone(R, R(p) + 0.5, 2.0);
    }
  }

  lemma LargeStaysLarge(R: real -> real, x: real)
    requires Rounding(R) && LIMIT as real <= x
    ensures IsDouble(R(x)) && LIMIT as real <= R(x)
  {
    IntIsDouble(LIMIT);
    RoundMonotone(R, x, LIMIT as real);
    NothingNearer(R, x, LIMIT as real);
  }

  // ---- The results ----

  /** Every microsecond of second `sec` survives the way into the database and
      back exactly when `sec` is below 2^33, however the hardware breaks ties. */
  lemma RoundTrip(R: real -> real, sec: nat)
    requires Rounding(R)
    ensures (forall m :: ValidMicro(m) ==> ToPython(R, GetPrepValue(Moment(sec, m))) == Moment(sec, m)) <==> sec < LIMIT
  {
    if sec < LIMIT {
      forall m | ValidMicro(m)
        ensures ToPython(R, GetPrepValue(Moment(sec, m))) == Moment(sec, m)
      {
        NearbyReadsMoment(R, Moment(sec, m), GetPrepValue(Moment(sec, m)));
      }
    } else {
      assert ValidMicro(1);
      var x := GetPrepValue(Moment(sec, 1));
      LargeStaysLarge(R, x);
      NeverOneMicro(R, R(x));
    }
  }

  lemma EndReadsMoment(R: real -> real, t: Moment)
    requires Rounding(R) && 0 <= t.sec < LIMIT && ValidMicro(t.micro)
    ensures ParseEndTimestamp(R, t) == t
  {
    hide Rounding, FromTimestamp;
    var part := R(t.micro as real / 1000000.0);
    MicroIsNear(R, t.micro);
    assert Abs(t.sec as real + part - GetPrepValue(t)) <= 0.000000000001;
    NearbyReadsMoment(R, t, t.sec as real + part);
  }

  lemma EndLosesMoment(R: real -> real, sec: nat)
    requires Rounding(R) && LIMIT <= sec
    ensures ParseEndTimestamp(R, Moment(sec, 1)).micro != 1
  {
    hide Rounding, FromTimestamp, Abs;
    var part := R(1 as real / 1000000.0);
    MicroIsNear(R, 1);
    LargeStaysLarge(R, sec as real + part);
    NeverOneMicro(R, R(sec as real + part));
  }

  /** The server's pair comes through under the same condition. */
  lemma EndTimestampExact(R: real -> real, sec: nat)
    requires Rounding(R)
    ensures (forall m :: ValidMicro(m) ==> ParseEndTimestamp(R, Moment(sec, m)) == Moment(sec, m)) <==> sec < LIMIT
  {
    hide Rounding, ParseEndTimestamp;
    if sec < LIMIT {
      forall m | ValidMicro(m)
        ensures ParseEndTimestamp(R, Moment(sec, m)) == Moment(sec, m)
      {
        EndReadsMoment(R, Moment(sec, m));
      }
    } else {
      assert ValidMicro(1);
      EndLosesMoment(R, sec);
    }
  }
}
