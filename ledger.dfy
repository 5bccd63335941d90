/**
 * Sums of gross, withholding and net over a list of payments, as the
 * dashboard cards (Dashboard.tsx) and the statement totals (CedulaCReport.tsx)
 * compute them with `reduce`.
 */
module Ledger {
  import opened Types
  import opened Seqs

  function Gross(p: Payment): real { p.grossValue }
  function Irrf(p: Payment): real { p.irrfValue }
  function Net(p: Payment): real { p.netValue }

  function TotalGross(ps: seq<Payment>): real { Sum(ps, Gross) }
  function TotalIrrf(ps: seq<Payment>): real { Sum(ps, Irrf) }
  function TotalNet(ps: seq<Payment>): real { Sum(ps, Net) }

  /** The three totals of a list are the totals of its parts added up. */
  lemma TotalsAppend(a: seq<Payment>, b: seq<Payment>)
    ensures TotalGross(a + b) == TotalGross(a) + TotalGross(b)
    ensures TotalIrrf(a + b) == TotalIrrf(a) + TotalIrrf(b)
    ensures TotalNet(a + b) == TotalNet(a) + TotalNet(b)
  {
    SumAppend(a, b, Gross);
    SumAppend(a, b, Irrf);
    SumAppend(a, b, Net);
  }

  /** Reordering the payments does not change any total. */
  lemma TotalsOfPermutation(a: seq<Payment>, b: seq<Payment>)
    requires multiset(a) == multiset(b)
    ensures TotalGross(a) == TotalGross(b)
    ensures TotalIrrf(a) == TotalIrrf(b)
    ensures TotalNet(a) == TotalNet(b)
  {
    SumPermutation(a, b, Gross);
    SumPermutation(a, b, Irrf);
    SumPermutation(a, b, Net);
  }

  /** When every payment's net is its gross less its withholding, so is the total's. */
  lemma {:induction false} NetTotalIsGrossLessIrrf(ps: seq<Payment>)
    requires forall i :: 0 <= i < |ps| ==> ps[i].netValue == ps[i].grossValue - ps[i].irrfValue
    ensures TotalNet(ps) == TotalGross(ps) - TotalIrrf(ps)
  {
    if ps != [] {
      NetTotalIsGrossLessIrrf(ps[1..]);
    }
  }
}
