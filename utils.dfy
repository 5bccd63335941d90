/**
 * The formatting helpers and the withholding-tax calculation of utils.ts.
 */
module Utils {
  import opened Types
  import opened Text

  // ---------------------------------------------------------------- CPF

  /** Keeps the digits and masks the first eleven as `ddd.ddd.ddd-dd`. */
  function FormatCpf(cpf: string): (r: string)
    ensures Digits(r) == Digits(cpf)
    ensures |Digits(cpf)| < 11 ==> r == Digits(cpf)
  {
    var d := Digits(cpf);
    if |d| >= 11 then
      FormatCpfDigits(d);
      d[..3] + "." + d[3..6] + "." + d[6..9] + "-" + d[9..11] + d[11..]
    else d
  }

  lemma DigitsAround(x: string, sep: char, y: string)
    requires !IsDigit(sep)
    ensures Digits(x + [sep] + y) == Digits(x) + Digits(y)
  {
    DigitsAppend(x, [sep]);
    DigitsAppend(x + [sep], y);
  }

  lemma DigitsOfMask(a: string, b: string, c: string, e: string, f: string)
    ensures Digits(a + "." + b + "." + c + "-" + e + f) == Digits(a) + Digits(b) + Digits(c) + Digits(e) + Digits(f)
  {
    var s2 := a + "." + b;
    DigitsAround(a, '.', b);
    var s4 := s2 + "." + c;
    DigitsAround(s2, '.', c);
    var s6 := s4 + "-" + e;
    DigitsAround(s4, '-', e);
    DigitsAppend(s6, f);
  }

  lemma DigitsOfJoin(a: string, b: string, c: string, e: string, f: string)
    ensures Digits(a + b + c + e + f) == Digits(a) + Digits(b) + Digits(c) + Digits(e) + Digits(f)
  {
    DigitsAppend(a, b);
    DigitsAppend(a + b, c);
    DigitsAppend(a + b + c, e);
    DigitsAppend(a + b + c + e, f);
  }

  lemma FormatCpfDigits(d: string)
    requires AllDigits(d) && |d| >= 11
    ensures Digits(d[..3] + "." + d[3..6] + "." + d[6..9] + "-" + d[9..11] + d[11..]) == d
  {
    var a, b, c, e, f := d[..3], d[3..6], d[6..9], d[9..11], d[11..];
    DigitsOfMask(a, b, c, e, f);
    DigitsOfJoin(a, b, c, e, f);
    PrefixJoin(d, 3, 6);
    PrefixJoin(d, 6, 9);
    PrefixJoin(d, 9, 11);
    assert d[..11] + f == d;
  }

  lemma MaskOfElevenDigits(d: string)
    requires AllDigits(d) && |d| == 11
    ensures IsCpfMask(d[..3] + "." + d[3..6] + "." + d[6..9] + "-" + d[9..11] + d[11..])
  {
    var r := d[..3] + "." + d[3..6] + "." + d[6..9] + "-" + d[9..11] + d[11..];
    assert |r| == 14;
    forall i | 0 <= i < 14
      ensures if i == 3 || i == 7 then r[i] == '.' else if i == 11 then r[i] == '-' else IsDigit(r[i])
    {
      if i < 3 { assert r[i] == d[i]; }
      else if 3 < i < 7 { assert r[i] == d[i - 1]; }
      else if 7 < i < 11 { assert r[i] == d[i - 2]; }
      else if 11 < i { assert r[i] == d[i - 3]; }
    }
  }

  /** The display mask of a CPF: `ddd.ddd.ddd-dd`. */
  predicate IsCpfMask(r: string) {
    |r| == 14 &&
    forall i :: 0 <= i < 14 ==>
      if i == 3 || i == 7 then r[i] == '.' else if i == 11 then r[i] == '-' else IsDigit(r[i])
  }

  /** A CPF is shown with the full mask exactly when it holds eleven digits. */
  lemma FormatCpfMask(cpf: string)
    ensures IsCpfMask(FormatCpf(cpf)) <==> |Digits(cpf)| == 11
  {
    var d := Digits(cpf);
    if |d| == 11 {
      MaskOfElevenDigits(d);
    } else if |d| > 11 {
      assert |FormatCpf(cpf)| == |d| + 3;
    }
  }

  /** Formatting a formatted CPF changes nothing. */
  lemma FormatCpfIdempotent(cpf: string)
    ensures FormatCpf(FormatCpf(cpf)) == FormatCpf(cpf)
  {
  }

  // ---------------------------------------------------------------- dates

  /** `^\d{4}-\d{2}-\d{2}$`. */
  predicate IsIsoDate(s: string) {
    |s| == 10 &&
    forall i :: 0 <= i < 10 ==> if i == 4 || i == 7 then s[i] == '-' else IsDigit(s[i])
  }

  lemma SplitIsoDate(s: string)
    requires IsIsoDate(s)
    ensures Split(s, '-') == [s[..4], s[5..7], s[8..10]]
  {
    assert s == s[..4] + ['-'] + s[5..];
    assert s[5..] == s[5..7] + ['-'] + s[8..10];
    assert '-' !in s[..4] && '-' !in s[5..7] && '-' !in s[8..10];
    SplitAtSeparator(s[..4], '-', s[5..]);
    SplitAtSeparator(s[5..7], '-', s[8..10]);
    SplitWithoutSeparator(s[8..10], '-');
  }

  /**
   * `formatDate`: the empty string stays empty, an ISO date `YYYY-MM-DD` becomes
   * `DD/MM/YYYY`; any other text goes to the browser's locale formatting, which
   * is `None` here.
   */
  function FormatDate(s: string): (r: Option<string>)
    ensures s == "" <==> r == Some("")
    ensures r.Some? <==> s == "" || IsIsoDate(s)
  {
    if s == "" then Some("")
    else if IsIsoDate(s) then
      SplitIsoDate(s);
      var parts := Split(s, '-');
      Some(parts[2] + "/" + parts[1] + "/" + parts[0])
    else None
  }

  /** Reads a `DD/MM/YYYY` text back as `YYYY-MM-DD`. */
  function DisplayedDateToIso(r: string): string
    requires |r| == 10
  {
    r[6..10] + "-" + r[3..5] + "-" + r[..2]
  }

  /** An ISO date is shown as a ten-character `DD/MM/YYYY` text from which it can be read back. */
  lemma FormatDateRoundTrip(s: string)
    requires IsIsoDate(s)
    ensures FormatDate(s).Some? && |FormatDate(s).value| == 10
    ensures FormatDate(s).value[2] == '/' && FormatDate(s).value[5] == '/'
    ensures DisplayedDateToIso(FormatDate(s).value) == s
  {
    SplitIsoDate(s);
    var r := FormatDate(s).value;
    assert r == s[8..10] + "/" + s[5..7] + "/" + s[..4];
    assert r[6..10] == s[..4] && r[3..5] == s[5..7] && r[..2] == s[8..10];
    assert s == s[..4] + "-" + s[5..7] + "-" + s[8..10];
  }

  /** Two different ISO dates are never shown alike. */
  lemma FormatDateInjective(s: string, t: string)
    requires IsIsoDate(s) && IsIsoDate(t)
    requires FormatDate(s) == FormatDate(t)
    ensures s == t
  {
    FormatDateRoundTrip(s);
    FormatDateRoundTrip(t);
  }

  // ---------------------------------------------------------------- lote

  /** `formatLote`: the month padded to two characters with `0`, a slash, the year. */
  function FormatLote(month: string, year: int): (r: string)
    ensures |month| >= 2 ==> r == month + "/" + IntToString(year)
    ensures |month| == 1 ==> r == "0" + month + "/" + IntToString(year)
    ensures month == "" ==> r == "00/" + IntToString(year)
  {
    if |month| == 1 then
      PadOneDigit(month);
      PadStart(month, 2, '0') + "/" + IntToString(year)
    else
      PadStart(month, 2, '0') + "/" + IntToString(year)
  }

  lemma DigitsHaveNoSlash(d: string)
    requires AllDigits(d)
    ensures '/' !in d
  {
    forall k | 0 <= k < |d|
      ensures d[k] != '/'
    {
      assert IsDigit(d[k]);
    }
  }

  lemma IntToStringHasNoSlash(i: int)
    ensures '/' !in IntToString(i)
  {
    var d := NatToString(if i < 0 then -i else i);
    DigitsHaveNoSlash(d);
    if i < 0 {
      assert IntToString(i) == "-" + d;
      assert IntToString(i)[1..] == d;
    }
  }

  /** A padded month has no slash when the month has none. */
  lemma PaddedMonthHasNoSlash(month: string)
    requires '/' !in month
    ensures '/' !in PadStart(month, 2, '0')
  {
    var p := PadStart(month, 2, '0');
    assert p == p[..|p| - |month|] + month;
  }

  lemma PadOneDigit(month: string)
    requires |month| == 1
    ensures PadStart(month, 2, '0') == "0" + month
  {
    var p := PadStart(month, 2, '0');
    assert p[1..] == month;
  }

  /** A zero in front of a digit string does not change what it parses to. */
  lemma ParseLeadingZero(month: string)
    requires month != "" && AllDigits(month)
    ensures ParseInt("0" + month) == ParseInt(month)
  {
    var p := "0" + month;
    assert AllDigits(p) by {
      forall i | 0 <= i < |p|
        ensures IsDigit(p[i])
      {
        if i > 0 {
          assert p[i] == month[i - 1];
        }
      }
    }
    ParseIntOfDigits(p);
    ParseIntOfDigits(month);
    LeadingZeroValue(month);
  }

  /** A month written in digits keeps its value after padding. */
  lemma PaddedMonthValue(month: string)
    requires month != "" && AllDigits(month)
    ensures ParseInt(PadStart(month, 2, '0')) == ParseInt(month)
  {
    if |month| == 1 {
      PadOneDigit(month);
      ParseLeadingZero(month);
    }
  }

  /**
   * The label splits back at its slash into the padded month and the year,
   * and a month written in digits keeps its numeric value after padding.
   */
  lemma FormatLoteParts(month: string, year: int)
    requires '/' !in month
    ensures Split(FormatLote(month, year), '/') == [PadStart(month, 2, '0'), IntToString(year)]
    ensures ParseInt(Split(FormatLote(month, year), '/')[1]) == Some(year)
    ensures month != "" && AllDigits(month) ==>
              ParseInt(Split(FormatLote(month, year), '/')[0]) == ParseInt(month)
  {
    var p := PadStart(month, 2, '0');
    var y := IntToString(year);
    PaddedMonthHasNoSlash(month);
    IntToStringHasNoSlash(year);
    SplitAtSeparator(p, '/', y);
    SplitWithoutSeparator(y, '/');
    IntToStringRoundTrip(year);
    if month != "" && AllDigits(month) {
      PaddedMonthValue(month);
    }
  }

  // ---------------------------------------------------------------- IRRF

  /** The amount has no fraction of a cent. */
  predicate IsCents(x: real) {
    (100.0 * x).Floor as real == 100.0 * x
  }

  /** Rounds to the nearest cent, halves upwards (`toFixed(2)` read back by `parseFloat`). */
  function RoundCents(x: real): (r: real)
    ensures IsCents(r)
    ensures x - 0.005 < r <= x + 0.005
  {
    ((100.0 * x + 0.5).Floor as real) / 100.0
  }

  lemma RoundCentsMonotone(x: real, y: real)
    requires x <= y
    ensures RoundCents(x) <= RoundCents(y)
  {
    assert (100.0 * x + 0.5).Floor <= (100.0 * y + 0.5).Floor;
  }

  /** A whole number of cents is its own rounding. */
  lemma RoundCentsOfCents(c: int)
    ensures RoundCents(c as real / 100.0) == c as real / 100.0
  {
    assert 100.0 * (c as real / 100.0) + 0.5 == c as real + 0.5;
    assert (c as real + 0.5).Floor == c;
  }

  /** `valorBruto >= b.min && (b.max === null || valorBruto <= b.max)`; `NaN` compares false. */
  predicate Matches(g: real, b: Bracket) {
    g >= b.min &&
    match b.max
    case Open => true
    case UpTo(m) => g <= m
    case NotANumber => false
  }

  /** `brackets.find(...)` as an index: the first bracket that matches. */
  function FindBracket(g: real, bs: seq<Bracket>): (r: Option<nat>)
    ensures r.Some? ==> r.value < |bs| && Matches(g, bs[r.value])
    ensures r.Some? ==> forall j :: 0 <= j < r.value ==> !Matches(g, bs[j])
    ensures r.None? <==> forall j :: 0 <= j < |bs| ==> !Matches(g, bs[j])
  {
    if bs == [] then None
    else if Matches(g, bs[0]) then Some(0)
    else
      match FindBracket(g, bs[1..])
      case None => None
      case Some(i) => Some(i + 1)
  }

  function Max0(x: real): real { if x < 0.0 then 0.0 else x }

  /** `valorBruto * bracket.rate - bracket.deduction`. */
  function Owed(g: real, b: Bracket): real {
    g * b.rate - b.deduction
  }

  /**
   * The tax a bracket charges: gross times rate less deduction, rounded to the
   * nearest cent and never negative.
   */
  function BracketTax(g: real, b: Bracket): (r: real)
    ensures r >= 0.0 && IsCents(r)
  {
    Max0(RoundCents(Owed(g, b)))
  }

  /**
   * The bracket's tax is zero when rate times gross does not exceed the
   * deduction, and otherwise within half a cent of the difference.
   */
  lemma BracketTaxNearOwed(g: real, b: Bracket)
    ensures Owed(g, b) <= 0.0 ==> BracketTax(g, b) == 0.0
    ensures Owed(g, b) > 0.0 ==> Owed(g, b) - 0.005 < BracketTax(g, b) <= Owed(g, b) + 0.005
  {
    NearestCent(Owed(g, b));
  }

  lemma NearestCent(t: real)
    ensures t <= 0.0 ==> Max0(RoundCents(t)) == 0.0
    ensures t > 0.0 ==> t - 0.005 < Max0(RoundCents(t)) <= t + 0.005
  {
  }

  /**
   * `calculateIRRF`: nothing for a non-positive gross, an empty table or a gross
   * no bracket covers; otherwise the tax of the first bracket that covers it.
   */
  function CalculateIrrf(g: real, bs: seq<Bracket>): (r: real)
    ensures r >= 0.0 && IsCents(r)
    ensures g <= 0.0 || FindBracket(g, bs).None? ==> r == 0.0
    ensures g > 0.0 && FindBracket(g, bs).Some? ==> r == BracketTax(g, bs[FindBracket(g, bs).value])
  {
    if g <= 0.0 || |bs| == 0 then 0.0
    else
      match FindBracket(g, bs)
      case None => 0.0
      case Some(i) => BracketTax(g, bs[i])
  }

  /**
   * A positive gross that bracket `k` covers, and no earlier bracket does, is
   * taxed by bracket `k`: `find` stops at the first match.
   */
  lemma CalculateIrrfInBracket(g: real, bs: seq<Bracket>, k: nat)
    requires g > 0.0 && k < |bs| && Matches(g, bs[k])
    requires forall j :: 0 <= j < k ==> !Matches(g, bs[j])
    ensures FindBracket(g, bs) == Some(k)
    ensures CalculateIrrf(g, bs) == BracketTax(g, bs[k])
  {
    FirstMatchFound(g, bs, k);
  }

  lemma {:induction false} FirstMatchFound(g: real, bs: seq<Bracket>, k: nat)
    requires k < |bs| && Matches(g, bs[k])
    requires forall j :: 0 <= j < k ==> !Matches(g, bs[j])
    ensures FindBracket(g, bs) == Some(k)
  {
    if FindBracket(g, bs).Some? {
      var f := FindBracket(g, bs).value;
      assert !(f < k);
    }
  }

  /**
   * A table whose brackets each span a non-empty range, follow each other in
   * ascending order without overlap, and of which only the last may be open.
   */
  ghost predicate WellFormedTable(bs: seq<Bracket>) {
    (forall i :: 0 <= i < |bs| ==> !bs[i].max.NotANumber?) &&
    (forall i :: 0 <= i < |bs| && bs[i].max.UpTo? ==> bs[i].min <= bs[i].max.limit) &&
    (forall i :: 0 <= i < |bs| - 1 ==> bs[i].max.UpTo? && bs[i].max.limit < bs[i + 1].min)
  }

  lemma {:induction false} UpperBelowLaterLower(bs: seq<Bracket>, i: nat, j: nat)
    requires WellFormedTable(bs)
    requires i < j < |bs|
    ensures bs[i].max.UpTo? && bs[i].max.limit < bs[j].min
    decreases j - i
  {
    if i + 1 < j {
      UpperBelowLaterLower(bs, i + 1, j);
      assert bs[i + 1].max.UpTo? && bs[i + 1].min <= bs[i + 1].max.limit;
    }
  }

  /** In a well-formed table a gross falls in at most one bracket, so `find` picks the only one. */
  lemma AtMostOneBracket(g: real, bs: seq<Bracket>, i: nat, j: nat)
    requires WellFormedTable(bs)
    requires i < |bs| && j < |bs|
    requires Matches(g, bs[i]) && Matches(g, bs[j])
    ensures i == j
  {
    if i < j {
      UpperBelowLaterLower(bs, i, j);
    } else if j < i {
      UpperBelowLaterLower(bs, j, i);
    }
  }

  /** In a well-formed table `find` returns the bracket that covers the gross, whichever it is. */
  lemma FindCoveringBracket(g: real, bs: seq<Bracket>, k: nat)
    requires WellFormedTable(bs)
    requires k < |bs| && Matches(g, bs[k])
    ensures FindBracket(g, bs) == Some(k)
  {
    var r := FindBracket(g, bs);
    assert r.Some?;
    AtMostOneBracket(g, bs, r.value, k);
  }

  /** With a rate of at most 1 and a non-negative deduction a bracket owes at most the gross. */
  lemma OwedAtMostGross(g: real, b: Bracket)
    requires g >= 0.0 && b.rate <= 1.0 && b.deduction >= 0.0
    ensures Owed(g, b) <= g
  {
  }

  lemma OwedMonotone(g1: real, g2: real, b: Bracket)
    requires g1 <= g2 && b.rate >= 0.0
    ensures Owed(g1, b) <= Owed(g2, b)
  {
  }

  lemma RoundedMonotone(t1: real, t2: real)
    requires t1 <= t2
    ensures Max0(RoundCents(t1)) <= Max0(RoundCents(t2))
  {
    RoundCentsMonotone(t1, t2);
  }

  /** A bracket with a non-negative rate charges a larger gross no less. */
  lemma BracketTaxMonotone(g1: real, g2: real, b: Bracket)
    requires g1 <= g2 && b.rate >= 0.0
    ensures BracketTax(g1, b) <= BracketTax(g2, b)
  {
    OwedMonotone(g1, g2, b);
    RoundedMonotone(Owed(g1, b), Owed(g2, b));
  }

  /** Two whole-cent amounts less than a cent apart in one direction are ordered. */
  lemma CentsAtMost(r: real, g: real)
    requires IsCents(r) && IsCents(g)
    requires r <= g + 0.005
    ensures r <= g
  {
    assert (100.0 * r).Floor <= (100.0 * g).Floor;
  }

  /**
   * With rates of at most 1 and non-negative deductions the tax on a whole
   * number of cents never exceeds the gross, so the net is never negative.
   */
  lemma TaxNeverExceedsGross(c: int, bs: seq<Bracket>)
    requires forall i :: 0 <= i < |bs| ==> bs[i].rate <= 1.0 && bs[i].deduction >= 0.0
    ensures CalculateIrrf(c as real / 100.0, bs) <= Max0(c as real / 100.0)
  {
    var g := c as real / 100.0;
    if g > 0.0 && FindBracket(g, bs).Some? {
      var b := bs[FindBracket(g, bs).value];
      assert IsCents(g) by {
        assert 100.0 * g == c as real;
      }
      OwedAtMostGross(g, b);
      BracketTaxNearOwed(g, b);
      CentsAtMost(BracketTax(g, b), g);
    }
  }
}
