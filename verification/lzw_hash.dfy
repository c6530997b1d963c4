/**
 Why compress's double-hashing probe ends.  The table size is prime, so stepping
 through it by any displacement visits every slot before it repeats one.
 */
module LzwHash {
  const HSIZE: nat := 69001

  /** Neither 6t - 1 nor 6t + 1 divides the table size, for t up to t + m. */
  predicate NoneDivides(t: nat, m: nat)
    requires t > 0
    decreases m
  {
    HSIZE % (6 * t - 1) != 0 && HSIZE % (6 * t + 1) != 0 && (m == 0 || NoneDivides(t + 1, m - 1))
  }

  lemma {:induction false} NoneDividesAt(t: nat, m: nat, u: nat)
    requires 0 < t <= u <= t + m && NoneDivides(t, m)
    ensures HSIZE % (6 * u - 1) != 0 && HSIZE % (6 * u + 1) != 0
    decreases m
  {
    if t < u { NoneDividesAt(t + 1, m - 1, u); }
  }

  lemma TrialLow()
    ensures NoneDivides(1, 13)
  {}

  lemma TrialMiddle()
    ensures NoneDivides(15, 14)
  {}

  lemma TrialHigh()
    ensures NoneDivides(30, 14)
  {}

  lemma MulMod(h: int, x: int)
    requires h > 0
    ensures (h * x) % h == 0
  {
    var q, r := (h * x) / h, (h * x) % h;
    assert h * (x - q) == r by { assert h * x == h * q + r; }
    assert x - q >= 1 ==> h * (x - q) >= h;
    assert x - q <= -1 ==> h * (x - q) <= -h;
  }

  lemma FactorOfFactor(n: nat, k: nat, d: nat)
    requires k > 0 && d > 0 && n % k == 0 && k % d == 0
    ensures n % d == 0
  {
    var q, h := n / k, k / d;
    assert n == q * k && k == d * h;
    assert q * (d * h) == d * (q * h);
    MulMod(d, q * h);
  }

  /** Trial division up to the square root; every candidate is even, a multiple of
      three, or next to a multiple of six. */
  lemma TrialDivision(k: nat)
    requires 2 <= k < 263
    ensures HSIZE % k != 0
  {
    if k % 2 == 0 {
      if HSIZE % k == 0 { FactorOfFactor(HSIZE, k, 2); }
    } else if k % 3 == 0 {
      if HSIZE % k == 0 { FactorOfFactor(HSIZE, k, 3); }
    } else {
      NextToSix(k / 6, k % 6);
      NearSix((k + 1) / 6);
    }
  }

  lemma Multiple(m: nat, x: nat)
    requires m == 2 || m == 3
    ensures (m * x) % m == 0
  {
  }

  lemma NextToSix(q: nat, r: nat)
    requires r < 6
    ensures var k := 6 * q + r;
            k % 2 == 0 || k % 3 == 0 || (r == 1 && (k + 1) / 6 == q) || (r == 5 && (k + 1) / 6 == q + 1)
  {
    match r
    case 0 => Multiple(2, 3 * q);
    case 2 => Multiple(2, 3 * q + 1);
    case 3 => Multiple(3, 2 * q + 1);
    case 4 => Multiple(2, 3 * q + 2);
    case _ =>
  }

  lemma NearSix(u: nat)
    requires 1 <= u <= 43
    ensures HSIZE % (6 * u - 1) != 0 && HSIZE % (6 * u + 1) != 0
  {
    hide NoneDivides;
    if u <= 14 {
      TrialLow();
      NoneDividesAt(1, 13, u);
    } else if u <= 29 {
      TrialMiddle();
      NoneDividesAt(15, 14, u);
    } else {
      TrialHigh();
      NoneDividesAt(30, 14, u);
    }
  }

  /** 69001 is prime. */
  lemma HsizePrime(k: nat)
    requires 1 < k < HSIZE
    ensures HSIZE % k != 0
  {
    if k < 263 {
      TrialDivision(k);
    } else if HSIZE % k == 0 {
      var m := HSIZE / k;
      assert HSIZE == m * k;
      assert m >= 263 ==> m * k >= 263 * k;
      assert m <= 1 ==> m * k <= k;
      MulMod(m, k);
      TrialDivision(m);
    }
  }

  /** No smaller multiple of a displacement is a multiple of the table size. */
  lemma {:induction false} NoEarlyReturn(disp: nat, k: nat)
    requires 0 < disp < HSIZE && 0 < k < HSIZE
    ensures (k * disp) % HSIZE != 0
    decreases k
  {
    if (k * disp) % HSIZE == 0 {
      var t := (k * disp) / HSIZE;
      assert k * disp == HSIZE * t;
      if k == 1 { assert false; }
      HsizePrime(k);
      var q, r := HSIZE / k, HSIZE % k;
      assert HSIZE == q * k + r && 0 < r < k;
      assert r * disp == HSIZE * (disp - q * t) by {
        assert (q * k) * disp == q * (k * disp);
        assert q * (HSIZE * t) == HSIZE * (q * t);
        assert r * disp == HSIZE * disp - (q * k) * disp by {
          assert (HSIZE - q * k) * disp == HSIZE * disp - (q * k) * disp;
        }
        assert HSIZE * disp - HSIZE * (q * t) == HSIZE * (disp - q * t);
      }
      MulMod(HSIZE, disp - q * t);
      NoEarlyReturn(disp, r);
    }
  }

  /** Slot visited at step m of a probe that starts at i0. */
  function Slot(i0: nat, disp: nat, m: nat): (s: nat)
    requires i0 < HSIZE && disp < HSIZE
    ensures s < HSIZE
  {
    if m == 0 then i0 else
      var prev := Slot(i0, disp, m - 1);
      if prev < disp then prev - disp + HSIZE else prev - disp
  }

  lemma {:induction false} SlotValue(i0: nat, disp: nat, m: nat) returns (t: int)
    requires i0 < HSIZE && disp < HSIZE
    ensures i0 - m * disp == Slot(i0, disp, m) - HSIZE * t
  {
    if m == 0 {
      t := 0;
    } else {
      t := SlotValue(i0, disp, m - 1);
      assert m * disp == (m - 1) * disp + disp;
      if Slot(i0, disp, m - 1) < disp { t := t + 1; }
    }
  }

  /** A probe visits no slot twice in its first HSIZE steps. */
  lemma SlotsDistinct(i0: nat, disp: nat, a: nat, b: nat)
    requires i0 < HSIZE && 0 < disp < HSIZE && a < b < HSIZE
    ensures Slot(i0, disp, a) != Slot(i0, disp, b)
  {
    if Slot(i0, disp, a) == Slot(i0, disp, b) {
      var s := SlotValue(i0, disp, a);
      var t := SlotValue(i0, disp, b);
      assert (b - a) * disp == b * disp - a * disp;
      assert (b - a) * disp == HSIZE * (t - s);
      MulMod(HSIZE, t - s);
      NoEarlyReturn(disp, b - a);
    }
  }
}
