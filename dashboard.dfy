/**
 * The aggregations of the dashboard (Dashboard.tsx): the four summary
 * cards, the monthly chart series with its order and its time window, and
 * the status percentages.
 */
module Dashboard {
  import opened Types
  import opened Text
  import opened Seqs
  import opened Sorting
  import opened Ledger

  // ---------------------------------------------------------------- cards

  datatype Stats = Stats(totalGross: real, totalIrrf: real, totalNet: real, totalCount: nat)

  /** `stats`. */
  function DashboardStats(ps: seq<Payment>): Stats {
    Stats(TotalGross(ps), TotalIrrf(ps), TotalNet(ps), |ps|)
  }

  /**
   * No payments give zero everywhere; the cards of two lists together are
   * the cards of each added up, and reordering the payments changes nothing.
   */
  lemma DashboardStatsSpec(a: seq<Payment>, b: seq<Payment>)
    ensures DashboardStats([]) == Stats(0.0, 0.0, 0.0, 0)
    ensures var s, sa, sb := DashboardStats(a + b), DashboardStats(a), DashboardStats(b);
            s.totalGross == sa.totalGross + sb.totalGross &&
            s.totalIrrf == sa.totalIrrf + sb.totalIrrf &&
            s.totalNet == sa.totalNet + sb.totalNet &&
            s.totalCount == sa.totalCount + sb.totalCount
    ensures multiset(a) == multiset(b) ==> DashboardStats(a) == DashboardStats(b)
  {
    TotalsAppend(a, b);
    if multiset(a) == multiset(b) {
      TotalsOfPermutation(a, b);
      assert |a| == |multiset(a)| == |multiset(b)| == |b|;
    }
  }

  // ---------------------------------------------------------------- chart

  /** `${yearReference}-${monthReference}`, with the month as typed. */
  function PeriodKey(p: Payment): string {
    IntToString(p.yearReference) + "-" + p.monthReference
  }

  /** Two payments share a chart key exactly when they share year and month text. */
  lemma PeriodKeyInjective(p: Payment, q: Payment)
    ensures PeriodKey(p) == PeriodKey(q) <==>
              p.yearReference == q.yearReference && p.monthReference == q.monthReference
  {
    if PeriodKey(p) == PeriodKey(q) {
      var a, b, s := IntToString(p.yearReference), IntToString(q.yearReference), PeriodKey(p);
      if |a| < |b| {
        assert s[|a|] == '-' && s[|a|] == b[|a|];
        IntToStringDashOnlyFirst(q.yearReference, |a|);
        assert false;
      } else if |b| < |a| {
        assert s[|b|] == '-' && s[|b|] == a[|b|];
        IntToStringDashOnlyFirst(p.yearReference, |b|);
        assert false;
      } else {
        assert a == s[..|a|] == b;
        assert p.monthReference == s[|a| + 1..] == q.monthReference;
        IntToStringInjective(p.yearReference, q.yearReference);
      }
    }
  }

  /** One bar of the chart. `month` is `parseInt(monthReference)`, absent for NaN. */
  datatype ChartPoint = ChartPoint(name: string, gross: real, irrf: real, year: int, month: Option<int>)

  /** The chart keys, each once, in order of first appearance (the order `Object.values` follows). */
  function PeriodKeys(ps: seq<Payment>): seq<string> {
    Dedup(Map(ps, PeriodKey))
  }

  /** The payments of one chart key, in order. */
  function InPeriod(ps: seq<Payment>, k: string): seq<Payment> {
    Filter(ps, KeyIs(PeriodKey, k))
  }

  /** The bar of the payments `ms` of one key: labelled `month/year` after the first, with their sums. */
  function PointOf(ms: seq<Payment>): ChartPoint {
    if ms == [] then ChartPoint("", 0.0, 0.0, 0, None)
    else
      ChartPoint(ms[0].monthReference + "/" + IntToString(ms[0].yearReference),
                 TotalGross(ms), TotalIrrf(ms), ms[0].yearReference, ParseInt(ms[0].monthReference))
  }

  /** The bar of key `k`. */
  function PointFor(ps: seq<Payment>, k: string): ChartPoint {
    PointOf(InPeriod(ps, k))
  }

  /** The bars of the keys `ks`, in their order. */
  function Points(ks: seq<string>, ps: seq<Payment>): (r: seq<ChartPoint>)
    ensures |r| == |ks|
    ensures forall i :: 0 <= i < |ks| ==> r[i] == PointFor(ps, ks[i])
  {
    if ks == [] then [] else [PointFor(ps, ks[0])] + Points(ks[1..], ps)
  }

  /** The unsorted series the `reduce` builds. */
  function Series(ps: seq<Payment>): seq<ChartPoint> {
    Points(PeriodKeys(ps), ps)
  }

  lemma PeriodKeysAppend(s: seq<Payment>, p: Payment)
    ensures PeriodKeys(s + [p]) ==
              if PeriodKey(p) in PeriodKeys(s) then PeriodKeys(s) else PeriodKeys(s) + [PeriodKey(p)]
  {
    var m := Map(s + [p], PeriodKey);
    assert m[..|m| - 1] == Map(s, PeriodKey);
  }

  lemma InPeriodKeys(s: seq<Payment>, k: string)
    ensures k in PeriodKeys(s) <==> InPeriod(s, k) != []
  {
    if InPeriod(s, k) != [] {
      var p := InPeriod(s, k)[0];
      assert p in InPeriod(s, k);
      var i :| 0 <= i < |s| && s[i] == p;
      assert Map(s, PeriodKey)[i] == k;
    }
    if k in PeriodKeys(s) {
      var i :| 0 <= i < |s| && Map(s, PeriodKey)[i] == k;
      assert s[i] in InPeriod(s, k);
    }
  }

  lemma TotalsOfOne(p: Payment)
    ensures TotalGross([p]) == p.grossValue && TotalIrrf([p]) == p.irrfValue
  {
    assert [p][1..] == [];
    assert TotalGross([p]) == Gross(p) + Sum([], Gross);
    assert TotalIrrf([p]) == Irrf(p) + Sum([], Irrf);
  }

  /** The bar the `reduce` opens for a key it meets first in `p`. */
  function OpenedPoint(p: Payment): ChartPoint {
    ChartPoint(p.monthReference + "/" + IntToString(p.yearReference), 0.0, 0.0,
               p.yearReference, ParseInt(p.monthReference))
  }

  lemma InPeriodOfOne(p: Payment, k: string)
    ensures InPeriod([p], k) == if k == PeriodKey(p) then [p] else []
  {
    assert [p][1..] == [];
  }

  /** One more payment leaves the bars of the other keys as they were. */
  lemma PointForOther(s: seq<Payment>, p: Payment, k: string)
    requires k != PeriodKey(p)
    ensures PointFor(s + [p], k) == PointFor(s, k)
  {
    FilterAppend(s, [p], KeyIs(PeriodKey, k));
    InPeriodOfOne(p, k);
    assert InPeriod(s, k) + [] == InPeriod(s, k);
  }

  /** The first payment of a key makes its bar. */
  lemma PointForFirst(s: seq<Payment>, p: Payment)
    requires InPeriod(s, PeriodKey(p)) == []
    ensures PointFor(s + [p], PeriodKey(p)) == OpenedPoint(p).(gross := p.grossValue, irrf := p.irrfValue)
  {
    FilterAppend(s, [p], KeyIs(PeriodKey, PeriodKey(p)));
    InPeriodOfOne(p, PeriodKey(p));
    assert [] + [p] == [p];
    TotalsOfOne(p);
  }

  lemma PointOfAppend(ms: seq<Payment>, p: Payment)
    requires ms != []
    ensures var b := PointOf(ms);
            PointOf(ms + [p]) == b.(gross := b.gross + p.grossValue, irrf := b.irrf + p.irrfValue)
  {
    TotalsOfOne(p);
    TotalsAppend(ms, [p]);
    assert (ms + [p])[0] == ms[0];
  }

  /** A further payment of a key adds its gross and withholding to the bar. */
  lemma PointForNext(s: seq<Payment>, p: Payment)
    requires InPeriod(s, PeriodKey(p)) != []
    ensures var b := PointFor(s, PeriodKey(p));
            PointFor(s + [p], PeriodKey(p)) == b.(gross := b.gross + p.grossValue, irrf := b.irrf + p.irrfValue)
  {
    var ms := InPeriod(s, PeriodKey(p));
    FilterAppend(s, [p], KeyIs(PeriodKey, PeriodKey(p)));
    InPeriodOfOne(p, PeriodKey(p));
    PointOfAppend(ms, p);
  }

  /** The state of the `reduce` after the payments `s`. */
  ghost predicate ChartState(s: seq<Payment>, order: seq<string>, acc: map<string, ChartPoint>) {
    order == PeriodKeys(s) &&
    (forall k :: k in acc <==> k in order) &&
    (forall k :: k in order ==> acc[k] == PointFor(s, k))
  }

  /** The accumulator after one more payment: its bar opened if missing, then its values added. */
  function WithPayment(acc: map<string, ChartPoint>, p: Payment): map<string, ChartPoint> {
    var b := if PeriodKey(p) in acc then acc[PeriodKey(p)] else OpenedPoint(p);
    acc[PeriodKey(p) := b.(gross := b.gross + p.grossValue, irrf := b.irrf + p.irrfValue)]
  }

  /** The key order after one more payment. */
  function WithKey(order: seq<string>, acc: map<string, ChartPoint>, p: Payment): seq<string> {
    if PeriodKey(p) in acc then order else order + [PeriodKey(p)]
  }

  lemma WithPaymentSeen(acc: map<string, ChartPoint>, p: Payment)
    requires PeriodKey(p) in acc
    ensures var b := acc[PeriodKey(p)];
            WithPayment(acc, p)[PeriodKey(p)] == b.(gross := b.gross + p.grossValue, irrf := b.irrf + p.irrfValue)
  {
  }

  /** The bar of a key already in the accumulator, after one more payment of that key. */
  lemma SeenAtKey(s: seq<Payment>, p: Payment, acc: map<string, ChartPoint>)
    requires PeriodKey(p) in acc && acc[PeriodKey(p)] == PointFor(s, PeriodKey(p))
    requires InPeriod(s, PeriodKey(p)) != []
    ensures WithPayment(acc, p)[PeriodKey(p)] == PointFor(s + [p], PeriodKey(p))
  {
    WithPaymentSeen(acc, p);
    PointForNext(s, p);
  }

  lemma WithPaymentNew(acc: map<string, ChartPoint>, p: Payment)
    requires PeriodKey(p) !in acc
    ensures WithPayment(acc, p)[PeriodKey(p)] == OpenedPoint(p).(gross := p.grossValue, irrf := p.irrfValue)
  {
  }

  /** The bar of a key the accumulator does not hold yet, after its first payment. */
  lemma NewAtKey(s: seq<Payment>, p: Payment, acc: map<string, ChartPoint>)
    requires PeriodKey(p) !in acc && InPeriod(s, PeriodKey(p)) == []
    ensures WithPayment(acc, p)[PeriodKey(p)] == PointFor(s + [p], PeriodKey(p))
  {
    WithPaymentNew(acc, p);
    PointForFirst(s, p);
  }

  /** The bars of the other keys are unchanged by one more payment. */
  lemma OtherAtKey(s: seq<Payment>, p: Payment, acc: map<string, ChartPoint>, k: string)
    requires k != PeriodKey(p) && k in acc && acc[k] == PointFor(s, k)
    ensures WithPayment(acc, p)[k] == PointFor(s + [p], k)
  {
    PointForOther(s, p, k);
  }

  lemma ChartStepSeen(s: seq<Payment>, p: Payment, s1: seq<Payment>, order: seq<string>, acc: map<string, ChartPoint>)
    requires ChartState(s, order, acc) && PeriodKey(p) in acc && s1 == s + [p]
    ensures ChartState(s1, order, WithPayment(acc, p))
  {
    var key := PeriodKey(p);
    PeriodKeysAppend(s, p);
    InPeriodKeys(s, key);
    forall k | k in order
      ensures WithPayment(acc, p)[k] == PointFor(s + [p], k)
    {
      if k != key {
        OtherAtKey(s, p, acc, k);
      } else {
        SeenAtKey(s, p, acc);
      }
    }
  }

  lemma ChartStepNew(s: seq<Payment>, p: Payment, s1: seq<Payment>, order: seq<string>, acc: map<string, ChartPoint>)
    requires ChartState(s, order, acc) && PeriodKey(p) !in acc && s1 == s + [p]
    ensures ChartState(s1, order + [PeriodKey(p)], WithPayment(acc, p))
  {
    var key := PeriodKey(p);
    PeriodKeysAppend(s, p);
    InPeriodKeys(s, key);
    forall k | k in order + [key]
      ensures WithPayment(acc, p)[k] == PointFor(s + [p], k)
    {
      if k != key {
        assert k in order;
        OtherAtKey(s, p, acc, k);
      } else {
        NewAtKey(s, p, acc);
      }
    }
  }

  lemma ChartStep(ps: seq<Payment>, i: nat, order: seq<string>, acc: map<string, ChartPoint>)
    requires i < |ps| && ChartState(ps[..i], order, acc)
    ensures ChartState(ps[..i + 1], WithKey(order, acc, ps[i]), WithPayment(acc, ps[i]))
  {
    PrefixStep(ps, i);
    if PeriodKey(ps[i]) in acc {
      ChartStepSeen(ps[..i], ps[i], ps[..i + 1], order, acc);
    } else {
      ChartStepNew(ps[..i], ps[i], ps[..i + 1], order, acc);
    }
  }

  lemma ChartDone(s: seq<Payment>, order: seq<string>, acc: map<string, ChartPoint>, points: seq<ChartPoint>)
    requires ChartState(s, order, acc)
    requires |points| == |order| && forall i :: 0 <= i < |order| ==> points[i] == acc[order[i]]
    ensures points == Series(s)
  {
  }

  lemma PrefixStep<T>(s: seq<T>, i: int)
    requires 0 <= i < |s|
    ensures s[..i + 1] == s[..i] + [s[i]]
  {
  }

  /**
   * The `reduce` of `chartData`: one accumulator entry per key, created at
   * zero the first time the key is seen, to which every payment of the key
   * adds its gross and its withholding; then `Object.values`.
   */
  method GroupByPeriod(payments: seq<Payment>) returns (points: seq<ChartPoint>)
    ensures points == Series(payments)
  {
    var acc: map<string, ChartPoint> := map[];
    var order: seq<string> := [];
    var i := 0;
    while i < |payments|
      invariant 0 <= i <= |payments|
      invariant ChartState(payments[..i], order, acc)
    {
      ChartStep(payments, i, order, acc);
      order, acc := WithKey(order, acc, payments[i]), WithPayment(acc, payments[i]);
      i := i + 1;
    }
    assert payments[..|payments|] == payments;
    points := seq(|order|, k requires 0 <= k < |order| => acc[order[k]]);
    ChartDone(payments, order, acc, points);
  }

  /** Every payment of a bar's key shares the label, year and month of the bar. */
  lemma PointForMember(ps: seq<Payment>, k: string, p: Payment)
    requires p in InPeriod(ps, k)
    ensures PointFor(ps, k).name == p.monthReference + "/" + IntToString(p.yearReference)
    ensures PointFor(ps, k).year == p.yearReference && PointFor(ps, k).month == ParseInt(p.monthReference)
  {
    var q := InPeriod(ps, k)[0];
    assert q in InPeriod(ps, k);
    PeriodKeyInjective(p, q);
  }

  /** Every payment belongs to the bar of one of the keys. */
  lemma EveryPaymentHasAKey(ps: seq<Payment>, p: Payment)
    requires p in ps
    ensures exists i :: 0 <= i < |PeriodKeys(ps)| && p in InPeriod(ps, PeriodKeys(ps)[i])
  {
    var ks := PeriodKeys(ps);
    var j :| 0 <= j < |ps| && ps[j] == p;
    assert Map(ps, PeriodKey)[j] == PeriodKey(p);
    assert PeriodKey(p) in Map(ps, PeriodKey);
    assert PeriodKey(p) in ks;
    var i :| 0 <= i < |ks| && ks[i] == PeriodKey(p);
    assert p in InPeriod(ps, ks[i]);
  }

  /**
   * Every bar is labelled and placed after the year and month text shared by
   * all its payments and sums exactly them; every payment is on a bar, no
   * two bars have the same key, and the bars come in order of their keys'
   * first appearance among the payments.
   */
  lemma SeriesSpec(ps: seq<Payment>)
    ensures forall i, p :: 0 <= i < |Series(ps)| && p in InPeriod(ps, PeriodKeys(ps)[i]) ==>
              Series(ps)[i].name == p.monthReference + "/" + IntToString(p.yearReference) &&
              Series(ps)[i].year == p.yearReference && Series(ps)[i].month == ParseInt(p.monthReference)
    ensures forall i :: 0 <= i < |Series(ps)| ==>
              Series(ps)[i].gross == TotalGross(InPeriod(ps, PeriodKeys(ps)[i])) &&
              Series(ps)[i].irrf == TotalIrrf(InPeriod(ps, PeriodKeys(ps)[i]))
    ensures forall p :: p in ps ==> exists i :: 0 <= i < |PeriodKeys(ps)| && p in InPeriod(ps, PeriodKeys(ps)[i])
    ensures Distinct(PeriodKeys(ps))
    ensures forall i, j, b ::
              0 <= i < j < |Series(ps)| && 0 <= b < |ps| && PeriodKey(ps[b]) == PeriodKeys(ps)[j] ==>
                exists a :: 0 <= a < b && PeriodKey(ps[a]) == PeriodKeys(ps)[i]
  {
    var ks := PeriodKeys(ps);
    var m := Map(ps, PeriodKey);
    forall i, j, b | 0 <= i < j < |Series(ps)| && 0 <= b < |ps| && PeriodKey(ps[b]) == ks[j]
      ensures exists a :: 0 <= a < b && PeriodKey(ps[a]) == ks[i]
    {
      var a :| 0 <= a < |m| && m[a] == ks[i] && ks[j] !in m[..a + 1];
      assert a < b;
      assert PeriodKey(ps[a]) == ks[i];
    }
    forall i, p | 0 <= i < |Series(ps)| && p in InPeriod(ps, ks[i])
      ensures Series(ps)[i].name == p.monthReference + "/" + IntToString(p.yearReference)
      ensures Series(ps)[i].year == p.yearReference && Series(ps)[i].month == ParseInt(p.monthReference)
    {
      PointForMember(ps, ks[i], p);
    }
    forall i | 0 <= i < |Series(ps)|
      ensures Series(ps)[i].gross == TotalGross(InPeriod(ps, ks[i]))
      ensures Series(ps)[i].irrf == TotalIrrf(InPeriod(ps, ks[i]))
    {
      InPeriodKeys(ps, ks[i]);
    }
    forall p | p in ps
      ensures exists i :: 0 <= i < |ks| && p in InPeriod(ps, ks[i])
    {
      EveryPaymentHasAKey(ps, p);
    }
  }

  function PointGross(b: ChartPoint): real { b.gross }
  function PointIrrf(b: ChartPoint): real { b.irrf }

  lemma {:induction false} PointsSums(ks: seq<string>, ps: seq<Payment>)
    ensures Sum(Points(ks, ps), PointGross) == SumByKeys(ks, ps, PeriodKey, Gross)
    ensures Sum(Points(ks, ps), PointIrrf) == SumByKeys(ks, ps, PeriodKey, Irrf)
  {
    if ks != [] {
      PointsSums(ks[1..], ps);
      assert Points(ks, ps)[1..] == Points(ks[1..], ps);
    }
  }

  /** The bars add up to the cards: grouping by period loses and doubles nothing. */
  lemma SeriesAddsUp(ps: seq<Payment>)
    ensures Sum(Series(ps), PointGross) == TotalGross(ps)
    ensures Sum(Series(ps), PointIrrf) == TotalIrrf(ps)
  {
    PointsSums(PeriodKeys(ps), ps);
    SumByKeysTotal(ps, PeriodKey, Gross);
    SumByKeysTotal(ps, PeriodKey, Irrf);
  }

  /** The month a bar is ordered by; a NaN month is taken as 0. */
  function MonthKey(b: ChartPoint): int { b.month.GetOr(0) }

  /** The chart comparator, read as "`a` may come before `b`": year, then month number. */
  predicate PointLe(a: ChartPoint, b: ChartPoint) {
    a.year < b.year || (a.year == b.year && MonthKey(a) <= MonthKey(b))
  }

  lemma PointLeTotalPreorder()
    ensures IsTotalPreorder(PointLe)
  {
  }

  function InYear2025(): ChartPoint -> bool {
    (b: ChartPoint) => b.year == 2025
  }

  /** The time window, applied to the sorted bars. */
  function Window(sorted: seq<ChartPoint>, timeRange: string): seq<ChartPoint> {
    if timeRange == "6months" then (if |sorted| <= 6 then sorted else sorted[|sorted| - 6..])
    else if timeRange == "2025" then Filter(sorted, InYear2025())
    else sorted
  }

  /** `chartData`. */
  function ChartData(ps: seq<Payment>, timeRange: string): seq<ChartPoint> {
    Window(SortBy(Series(ps), PointLe), timeRange)
  }

  /**
   * "6months" keeps the last six bars (all, when there are fewer); "2025"
   * keeps exactly the bars of 2025 in order; anything else keeps every bar.
   */
  lemma WindowSpec(s: seq<ChartPoint>, timeRange: string)
    ensures timeRange == "6months" ==>
              |Window(s, timeRange)| == (if |s| <= 6 then |s| else 6) &&
              Window(s, timeRange) == s[|s| - |Window(s, timeRange)|..]
    ensures timeRange == "2025" ==>
              IsSubsequence(Window(s, timeRange), s) &&
              forall b :: b in Window(s, timeRange) <==> b in s && b.year == 2025
    ensures timeRange != "6months" && timeRange != "2025" ==> Window(s, timeRange) == s
  {
    if timeRange == "2025" {
      FilterIsSubsequence(s, InYear2025());
    }
  }

  /**
   * The chart is in year order, then month-number order, whatever the window;
   * without a window it holds every bar of the series and adds up to the cards.
   */
  lemma ChartDataSpec(ps: seq<Payment>, timeRange: string)
    ensures var c := ChartData(ps, timeRange);
            forall i, j :: 0 <= i < j < |c| ==>
              c[i].year < c[j].year || (c[i].year == c[j].year && MonthKey(c[i]) <= MonthKey(c[j]))
    ensures timeRange != "6months" && timeRange != "2025" ==>
              multiset(ChartData(ps, timeRange)) == multiset(Series(ps)) &&
              Sum(ChartData(ps, timeRange), PointGross) == TotalGross(ps) &&
              Sum(ChartData(ps, timeRange), PointIrrf) == TotalIrrf(ps)
  {
    var sorted := SortBy(Series(ps), PointLe);
    PointLeTotalPreorder();
    SortBySorted(Series(ps), PointLe);
    if timeRange == "2025" {
      SortedFilter(sorted, InYear2025(), PointLe);
    }
    SeriesAddsUp(ps);
    SumPermutation(sorted, Series(ps), PointGross);
    SumPermutation(sorted, Series(ps), PointIrrf);
  }

  // ---------------------------------------------------------------- status

  /** `curr.status || 'EM ANDAMENTO'`. */
  function EffectiveStatus(p: Payment): Status { p.status.GetOr(EmAndamento) }

  function HasStatus(st: Status): Payment -> bool {
    (p: Payment) => EffectiveStatus(p) == st
  }

  function CountStatus(ps: seq<Payment>, st: Status): nat {
    |Filter(ps, HasStatus(st))|
  }

  /** Every payment is counted under exactly one status. */
  lemma {:induction false} CountsAddUp(ps: seq<Payment>)
    ensures CountStatus(ps, Pago) + CountStatus(ps, Pendente) + CountStatus(ps, EmAndamento) == |ps|
  {
    if ps != [] {
      CountsAddUp(ps[1..]);
    }
  }

  /** `Math.round(c / t * 100)`, computed exactly. */
  function RoundPercent(c: nat, t: nat): int
    requires t > 0
  {
    (c as real / t as real * 100.0 + 0.5).Floor
  }

  /** A count out of a positive total is a share between 0 and 1, and all of it is 1. */
  lemma ShareBounds(c: nat, t: nat)
    requires 0 < t && c <= t
    ensures 0.0 <= c as real / t as real <= 1.0
    ensures c == t ==> c as real / t as real == 1.0
  {
    var cr, tr := c as real, t as real;
    assert tr > 0.0;
    assert (cr / tr) * tr == cr;
  }

  /** A share rounds into [0, 100]: none gives 0 and all gives 100. */
  lemma RoundPercentBounds(c: nat, t: nat)
    requires 0 < t && c <= t
    ensures 0 <= RoundPercent(c, t) <= 100
    ensures c == 0 ==> RoundPercent(c, t) == 0
    ensures c == t ==> RoundPercent(c, t) == 100
  {
    ShareBounds(c, t);
    var y := c as real / t as real * 100.0;
    assert 0.0 <= y <= 100.0;
    assert RoundPercent(c, t) == (y + 0.5).Floor;
  }

  datatype Distribution = Distribution(pago: int, pendente: int, emAndamento: int)

  function Percentages(pago: nat, pendente: nat, emAndamento: nat, t: nat): Distribution
    requires t > 0
  {
    Distribution(RoundPercent(pago, t), RoundPercent(pendente, t), RoundPercent(emAndamento, t))
  }

  /** `statusDistribution`, stated by counting. */
  function DistributionOf(ps: seq<Payment>): Distribution {
    if |ps| == 0 then Distribution(0, 0, 0)
    else Percentages(CountStatus(ps, Pago), CountStatus(ps, Pendente), CountStatus(ps, EmAndamento), |ps|)
  }

  function CountIn(counts: map<Status, nat>, st: Status): nat {
    if st in counts then counts[st] else 0
  }

  lemma CountStep(ps: seq<Payment>, i: int, st: Status)
    requires 0 <= i < |ps|
    ensures CountStatus(ps[..i + 1], st) == CountStatus(ps[..i], st) + (if EffectiveStatus(ps[i]) == st then 1 else 0)
  {
    assert ps[..i + 1] == ps[..i] + [ps[i]];
    FilterAppend(ps[..i], [ps[i]], HasStatus(st));
    assert [ps[i]][1..] == [];
  }

  /**
   * `statusDistribution`: counts the payments per status in a dictionary,
   * a missing status under "EM ANDAMENTO", then rounds each share on its own.
   */
  method StatusDistribution(payments: seq<Payment>) returns (d: Distribution)
    ensures d == DistributionOf(payments)
  {
    var total := |payments|;
    if total == 0 {
      return Distribution(0, 0, 0);
    }
    var counts: map<Status, nat> := map[];
    var i := 0;
    while i < total
      invariant 0 <= i <= total
      invariant forall st :: CountIn(counts, st) == CountStatus(payments[..i], st)
    {
      var st := EffectiveStatus(payments[i]);
      counts := counts[st := CountIn(counts, st) + 1];
      forall s
        ensures CountIn(counts, s) == CountStatus(payments[..i + 1], s)
      {
        CountStep(payments, i, s);
      }
      i := i + 1;
    }
    assert payments[..total] == payments;
    d := Percentages(CountIn(counts, Pago), CountIn(counts, Pendente), CountIn(counts, EmAndamento), total);
  }

  /** Each percentage lies in [0, 100]; with no payments all three are 0. */
  lemma DistributionBounds(ps: seq<Payment>)
    ensures ps == [] ==> DistributionOf(ps) == Distribution(0, 0, 0)
    ensures 0 <= DistributionOf(ps).pago <= 100
    ensures 0 <= DistributionOf(ps).pendente <= 100
    ensures 0 <= DistributionOf(ps).emAndamento <= 100
  {
    if ps != [] {
      CountsAddUp(ps);
      RoundPercentBounds(CountStatus(ps, Pago), |ps|);
      RoundPercentBounds(CountStatus(ps, Pendente), |ps|);
      RoundPercentBounds(CountStatus(ps, EmAndamento), |ps|);
    }
  }

  lemma OneOfEach(x: Payment, y: Payment, z: Payment, st: Status)
    requires EffectiveStatus(x) == st && EffectiveStatus(y) != st && EffectiveStatus(z) != st
    ensures CountStatus([x, y, z], st) == 1 && CountStatus([y, z, x], st) == 1 && CountStatus([z, x, y], st) == 1
  {
    var p := HasStatus(st);
    assert p(x) && !p(y) && !p(z);
    assert [x][1..] == [] && [y][1..] == [] && [z][1..] == [];
    assert Filter([x], p) == [x] && Filter([y], p) == [] && Filter([z], p) == [];
    assert [x, y, z] == [x] + [y] + [z] && [y, z, x] == [y] + [z] + [x] && [z, x, y] == [z] + [x] + [y];
    FilterAppend([x] + [y], [z], p);
    FilterAppend([x], [y], p);
    FilterAppend([y] + [z], [x], p);
    FilterAppend([y], [z], p);
    FilterAppend([z] + [x], [y], p);
    FilterAppend([z], [x], p);
  }

  /**
   * The shares are rounded independently, so they need not add up to 100:
   * one payment of each status gives 33 three times; a payment without a
   * status counts as in progress.
   */
  lemma DistributionNeedNotSumTo100(a: Payment, b: Payment, c: Payment)
    requires a.status == Some(Pago) && b.status == Some(Pendente) && c.status == None
    ensures DistributionOf([a, b, c]) == Distribution(33, 33, 33)
  {
    var ps := [a, b, c];
    assert ps[1..] == [b, c] && [b, c][1..] == [c] && [c][1..] == [];
    assert EffectiveStatus(a) == Pago && EffectiveStatus(b) == Pendente && EffectiveStatus(c) == EmAndamento;
    OneOfEach(a, b, c, Pago);
    OneOfEach(b, c, a, Pendente);
    OneOfEach(c, a, b, EmAndamento);
    assert RoundPercent(1, 3) == 33 by {
      assert 1.0 / 3.0 * 100.0 + 0.5 == 203.0 / 6.0;
      assert 33.0 <= 203.0 / 6.0 < 34.0;
    }
  }
}
