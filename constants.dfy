/**
 * The 2025 withholding table of constants.ts, as a concrete table for lemmas
 * and worked values. The program itself never reads it: when a year has no
 * stored brackets the payment form keeps the brackets it already had.
 */
module Constants {
  import opened Types
  import opened Utils

  /** `IRRF_TABLE_2025`. */
  function Irrf2025(): (t: seq<Bracket>)
    ensures |t| == 5
  {
    [ Bracket("1", 0.0, UpTo(2259.20), 0.0, 0.0),
      Bracket("2", 2259.21, UpTo(2826.65), 0.075, 169.44),
      Bracket("3", 2826.66, UpTo(3751.05), 0.15, 381.44),
      Bracket("4", 3751.06, UpTo(4664.68), 0.225, 662.77),
      Bracket("5", 4664.69, Open, 0.275, 896.00) ]
  }

  /** The tax the 2025 table withholds on a gross of `c` cents. */
  function Tax2025(c: int): real {
    CalculateIrrf(c as real / 100.0, Irrf2025())
  }

  lemma Irrf2025WellFormed()
    ensures WellFormedTable(Irrf2025())
  {
  }

  /**
   * The brackets start at zero and each begins one cent after the previous
   * ends; only the last is open. Rates rise strictly and stay below one, and
   * deductions never fall.
   */
  lemma Irrf2025Shape()
    ensures Irrf2025()[0].min == 0.0 && Irrf2025()[4].max == Open
    ensures forall i :: 0 <= i < 4 ==> Irrf2025()[i].max == UpTo(Irrf2025()[i + 1].min - 0.01)
    ensures forall i :: 0 <= i < 5 ==> 0.0 <= Irrf2025()[i].rate < 1.0 && Irrf2025()[i].deduction >= 0.0
    ensures forall i :: 0 <= i < 4 ==> Irrf2025()[i].rate < Irrf2025()[i + 1].rate
    ensures forall i :: 0 <= i < 4 ==> Irrf2025()[i].deduction <= Irrf2025()[i + 1].deduction
  {
  }

  /** The bracket a non-negative whole-cent gross falls in. */
  function BracketOf(c: int): (k: nat)
    requires c >= 0
    ensures k < 5 && Matches(c as real / 100.0, Irrf2025()[k])
  {
    if c <= 225920 then 0
    else if c <= 282665 then 1
    else if c <= 375105 then 2
    else if c <= 466468 then 3
    else 4
  }

  /** Every whole-cent gross is covered, by exactly the bracket `BracketOf` names. */
  lemma Irrf2025Covers(c: int)
    requires c >= 0
    ensures FindBracket(c as real / 100.0, Irrf2025()) == Some(BracketOf(c))
  {
    Irrf2025WellFormed();
    FindCoveringBracket(c as real / 100.0, Irrf2025(), BracketOf(c));
  }

  lemma Tax2025InBracket(c: int)
    requires c >= 0
    ensures Tax2025(c) == BracketTax(c as real / 100.0, Irrf2025()[BracketOf(c)])
  {
    var g, k := c as real / 100.0, BracketOf(c);
    Irrf2025Covers(c);
    if c == 0 {
      assert Owed(g, Irrf2025()[k]) == 0.0;
      BracketTaxNearOwed(g, Irrf2025()[k]);
    } else {
      CalculateIrrfInBracket(g, Irrf2025(), k);
    }
  }

  /** Nothing is withheld up to the top of the first bracket, fractions of a cent included. */
  lemma Irrf2025FirstBracketFree(g: real)
    requires g <= 2259.20
    ensures CalculateIrrf(g, Irrf2025()) == 0.0
  {
    if g > 0.0 {
      assert Matches(g, Irrf2025()[0]);
      assert FindBracket(g, Irrf2025()) == Some(0);
      assert Owed(g, Irrf2025()[0]) == 0.0;
      assert RoundCents(0.0) == 0.0 by {
        RoundCentsOfCents(0);
      }
    }
  }

  /** The tax is never more than the gross. */
  lemma Tax2025AtMostGross(c: int)
    ensures 0.0 <= Tax2025(c) <= Max0(c as real / 100.0)
  {
    Irrf2025Shape();
    TaxNeverExceedsGross(c, Irrf2025());
  }

  /** The tax on `c` cents is `v` cents when the owed amount of its bracket rounds to `v`. */
  lemma Tax2025At(c: int, owed: real, v: int)
    requires c >= 0 && v >= 0
    requires Owed(c as real / 100.0, Irrf2025()[BracketOf(c)]) == owed
    requires v as real <= 100.0 * owed + 0.5 < v as real + 1.0
    ensures Tax2025(c) == v as real / 100.0
  {
    Tax2025InBracket(c);
    assert (100.0 * owed + 0.5).Floor == v;
  }

  /** Worked values: the exemption limit, one cent above it, and three larger grosses. */
  lemma Irrf2025Examples()
    ensures Tax2025(225920) == 0.0
    ensures Tax2025(225921) == 0.0
    ensures Tax2025(300000) == 68.56
    ensures Tax2025(500000) == 479.0
    ensures Tax2025(10000000) == 26604.0
  {
    Tax2025At(225920, 0.0, 0);
    Tax2025At(225921, 0.00075, 0);
    Tax2025At(300000, 68.56, 6856);
    Tax2025At(500000, 479.0, 47900);
    Tax2025At(10000000, 26604.0, 2660400);
  }

  /** The first cent of bracket `k`. */
  function BracketStart(k: nat): int
    requires k < 5
  {
    [0, 225921, 282666, 375106, 466469][k]
  }

  /** The last cent of bracket `k`, for the bounded brackets. */
  function BracketEnd(k: nat): int
    requires k < 4
  {
    [225920, 282665, 375105, 466468][k]
  }

  lemma BracketOfRange(c: int)
    requires c >= 0
    ensures BracketStart(BracketOf(c)) <= c
    ensures BracketOf(c) < 4 ==> c <= BracketEnd(BracketOf(c))
  {
  }

  lemma BracketLimits(k: nat)
    requires k < 5
    ensures BracketOf(BracketStart(k)) == k
    ensures k < 4 ==> BracketOf(BracketEnd(k)) == k && BracketEnd(k) + 1 == BracketStart(k + 1)
  {
  }

  /** Within one bracket the tax does not fall as the gross rises. */
  lemma Tax2025MonotoneInBracket(c1: int, c2: int)
    requires 0 <= c1 <= c2 && BracketOf(c1) == BracketOf(c2)
    ensures Tax2025(c1) <= Tax2025(c2)
  {
    Tax2025InBracket(c1);
    Tax2025InBracket(c2);
    Irrf2025Shape();
    BracketTaxMonotone(c1 as real / 100.0, c2 as real / 100.0, Irrf2025()[BracketOf(c1)]);
  }

  /** The tax at the last cent of bracket `j` is no more than at the first cent of bracket `j + 1`. */
  lemma Tax2025AcrossBoundary(j: nat)
    requires j < 4
    ensures Tax2025(BracketEnd(j)) <= Tax2025(BracketStart(j + 1))
  {
    var e, n := BracketEnd(j), BracketStart(j + 1);
    if j == 0 {
      assert e == 225920 && n == 225921;
      Tax2025At(e, 0.0, 0);
      Tax2025At(n, 0.00075, 0);
    } else if j == 1 {
      assert e == 282665 && n == 282666;
      Tax2025At(e, 42.55875, 4256);
      Tax2025At(n, 42.559, 4256);
    } else if j == 2 {
      assert e == 375105 && n == 375106;
      Tax2025At(e, 181.2175, 18122);
      Tax2025At(n, 181.2185, 18122);
    } else {
      assert e == 466468 && n == 466469;
      Tax2025At(e, 386.783, 38678);
      Tax2025At(n, 386.78975, 38679);
    }
  }

  /**
   * A function of the gross that does not fall within a bracket, nor from the
   * last cent of a bracket to the first of the next, does not fall anywhere.
   */
  lemma {:induction false} PiecewiseMonotone(f: int -> real, c1: int, c2: int)
    requires forall a, b :: 0 <= a <= b && BracketOf(a) == BracketOf(b) ==> f(a) <= f(b)
    requires forall j :: 0 <= j < 4 ==> f(BracketEnd(j)) <= f(BracketStart(j + 1))
    requires 0 <= c1 <= c2
    ensures f(c1) <= f(c2)
    decreases BracketOf(c2) - BracketOf(c1)
  {
    var j, k := BracketOf(c1), BracketOf(c2);
    if j != k {
      BracketOfRange(c1);
      BracketLimits(j);
      var e, n := BracketEnd(j), BracketStart(j + 1);
      assert f(c1) <= f(e);
      assert f(e) <= f(n);
      BracketLimits(j + 1);
      PiecewiseMonotone(f, n, c2);
    }
  }

  /**
   * A larger whole-cent gross never pays less withholding under the 2025
   * table, across bracket boundaries too.
   */
  lemma Irrf2025Monotone(c1: int, c2: int)
    requires 0 <= c1 <= c2
    ensures Tax2025(c1) <= Tax2025(c2)
  {
    forall a, b | 0 <= a <= b && BracketOf(a) == BracketOf(b)
      ensures Tax2025(a) <= Tax2025(b)
    {
      Tax2025MonotoneInBracket(a, b);
    }
    forall j | 0 <= j < 4
      ensures Tax2025(BracketEnd(j)) <= Tax2025(BracketStart(j + 1))
    {
      Tax2025AcrossBoundary(j);
    }
    PiecewiseMonotone(Tax2025, c1, c2);
  }
}
