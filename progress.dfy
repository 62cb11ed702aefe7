/** The progress schedule of the POI loop in `main`
    (overviewer_core/aux_files/genPOI.py lines 233-246): `count` POIs have
    been handled, a log line fires when `count % freq == 0`, and `freq` grows
    tenfold each time `count` reaches `freq * 10`. The log fires at 100, 200,
    ..., 1000, 2000, ..., 10000, 20000, ... */
module Progress {

  /** A positive number written as one non-zero digit followed by zeros. */
  predicate OneSignificantDigit(c: nat)
  {
    if c < 10 then c > 0 else c % 10 == 0 && OneSignificantDigit(c / 10)
  }

  /** The counts at which the loop logs, stated without the loop's counters. */
  predicate IsReportCount(c: nat)
  {
    c >= 100 && OneSignificantDigit(c)
  }

  /** `freq` once `count` POIs have been handled. */
  function Freq(count: nat): (f: nat)
    ensures f >= 100 && f % 10 == 0
  {
    if count < 1000 then 100 else 10 * Freq(count / 10)
  }

  /** Increment: freq after count c is c itself when c reached ten times the
      previous freq, and the previous freq otherwise. */
  lemma {:induction false} FreqStep(c: nat)
    requires c >= 1
    ensures Freq(c) == if c == 10 * Freq(c - 1) then c else Freq(c - 1)
  {
    if c > 1000 {
      if c % 10 != 0 {
        assert c / 10 == (c - 1) / 10;
      } else {
        var d := c / 10;
        assert (c - 1) / 10 == d - 1;
        FreqStep(d);
      }
    }
  }

  lemma MulAtLeast(k: int, m: int)
    requires k >= 1 && m > 0
    ensures k * m >= m
  {
  }

  /** Quotient and remainder are unique. */
  lemma DivModUnique(x: int, m: int, q: int, r: int)
    requires m > 0 && x == q * m + r && 0 <= r < m
    ensures x % m == r
  {
    var q', r' := x / m, x % m;
    assert x == q' * m + r';
    assert (q - q') * m == r' - r;
    if q - q' >= 1 {
      MulAtLeast(q - q', m);
    } else if q' - q >= 1 {
      MulAtLeast(q' - q, m);
    }
    assert q == q';
  }

  lemma ScaledMod(a: nat, b: nat)
    requires b > 0
    ensures (10 * a) % (10 * b) == 10 * (a % b)
  {
    var q, r := a / b, a % b;
    assert a == q * b + r;
    assert 10 * a == q * (10 * b) + 10 * r;
    DivModUnique(10 * a, 10 * b, q, 10 * r);
  }

  lemma NotMultipleOfTen(c: nat, f: nat)
    requires f > 0 && f % 10 == 0 && c % 10 != 0
    ensures c % f != 0
  {
    var g := f / 10;
    assert f == 10 * g;
    var q, r := c / f, c % f;
    assert c == (q * g) * 10 + r;
    if r == 0 {
      DivModUnique(c, 10, q * g, 0);
    }
  }

  lemma OneDigitUnderThousand(c: nat)
    requires 100 <= c <= 1000
    ensures OneSignificantDigit(c) <==> c % 100 == 0
  {
    assert OneSignificantDigit(c) <==> c % 10 == 0 && OneSignificantDigit(c / 10);
    assert OneSignificantDigit(c / 10) <==> (c / 10) % 10 == 0 && OneSignificantDigit(c / 100);
    assert 1 <= c / 100 <= 10;
    assert OneSignificantDigit(c / 100);
  }

  /** The loop's test, made with the freq of the previous count, fires
      exactly at the report counts. */
  lemma {:induction false} ReportsAtSchedule(c: nat)
    requires c >= 1
    ensures c % Freq(c - 1) == 0 <==> IsReportCount(c)
  {
    if c < 100 {
      assert Freq(c - 1) == 100;
    } else if c <= 1000 {
      assert Freq(c - 1) == 100;
      OneDigitUnderThousand(c);
    } else {
      var d := c / 10;
      assert Freq(c - 1) == 10 * Freq((c - 1) / 10);
      if c % 10 != 0 {
        NotMultipleOfTen(c, Freq(c - 1));
      } else {
        assert (c - 1) / 10 == d - 1 && c == 10 * d;
        ReportsAtSchedule(d);
        ScaledMod(d, Freq(d - 1));
      }
    }
  }

  /** The report counts among 1..n, in increasing order. */
  function ReportsUpTo(n: nat): (r: seq<nat>)
    ensures forall i :: 0 <= i < |r| ==> 1 <= r[i] <= n && IsReportCount(r[i])
  {
    if n == 0 then [] else ReportsUpTo(n - 1) + (if IsReportCount(n) then [n] else [])
  }

  lemma {:induction false} ReportsUpToMembers(n: nat)
    ensures forall c :: c in ReportsUpTo(n) <==> 1 <= c <= n && IsReportCount(c)
    ensures forall i, j :: 0 <= i < j < |ReportsUpTo(n)| ==> ReportsUpTo(n)[i] < ReportsUpTo(n)[j]
  {
    if n > 0 {
      ReportsUpToMembers(n - 1);
      var prev := ReportsUpTo(n - 1);
      assert forall i :: 0 <= i < |prev| ==> prev[i] in prev;
    }
  }

  /** One POI handled: the count goes up, the log line fires at a report
      count, and freq grows when the count reaches ten times it. */
  method Tick(count: nat, freq: nat, logged: seq<nat>) returns (count': nat, freq': nat, logged': seq<nat>)
    requires freq == Freq(count) && logged == ReportsUpTo(count)
    ensures count' == count + 1 && freq' == Freq(count') && logged' == ReportsUpTo(count')
  {
    count' := count + 1;
    ReportsAtSchedule(count');
    FreqStep(count');
    logged' := logged;
    if count' % freq == 0 {
      logged' := logged' + [count'];
    }
    freq' := freq;
    if count' == freq * 10 {
      freq' := count';
    }
  }

  /** The counting part of the loop, for `n` POIs: the counts it logs at. */
  method Schedule(n: nat) returns (logged: seq<nat>)
    ensures logged == ReportsUpTo(n)
  {
    var count: nat := 0;
    var freq: nat := 100;
    logged := [];
    while count < n
      invariant count <= n
      invariant freq == Freq(count)
      invariant logged == ReportsUpTo(count)
    {
      count, freq, logged := Tick(count, freq, logged);
    }
  }
}
