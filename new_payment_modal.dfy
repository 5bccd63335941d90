/**
 * The payment entry form (NewPaymentModal.tsx): the gross amount from the act
 * counts, the withholding and net derived from it, the bracket cache, the
 * duplicate initialisation and the record a submission creates.
 */
module NewPayment {
  import opened Types
  import opened Text
  import opened Utils
  import Constants
  import PaymentTable

  /** `VALOR_VIA_1` and `VALOR_VIA_2`: the price of a first and of a second copy. */
  const FirstCopyValue: real := 65.0
  const SecondCopyValue: real := 21.0

  /** `qtdVia1 * VALOR_VIA_1 + qtdVia2 * VALOR_VIA_2`. */
  function GrossFor(qtd1: int, qtd2: int): real {
    qtd1 as real * FirstCopyValue + qtd2 as real * SecondCopyValue
  }

  /** `Math.max(0, parseInt(value) || 0)`: the quantity an input box yields. */
  function ClampQuantity(text: string): int {
    var v := ParseIntOrZero(text);
    if v < 0 then 0 else v
  }

  /** Quantities are never negative; a non-negative number is kept, anything unparsable is 0. */
  lemma ClampQuantitySpec(text: string)
    ensures ClampQuantity(text) >= 0
    ensures ParseInt(text) == None ==> ClampQuantity(text) == 0
    ensures forall v :: ParseInt(text) == Some(v) ==> ClampQuantity(text) == if v < 0 then 0 else v
    ensures forall n: nat :: text == IntToString(n) ==> ClampQuantity(text) == n
  {
    forall n: nat | text == IntToString(n)
      ensures ClampQuantity(text) == n
    {
      IntToStringRoundTrip(n);
    }
  }

  /** `historyTypeMap`. */
  function HistoryTypeFor(g: Genre): HistoryType {
    match g
    case AtosGratuitos => Repasse
    case RendaMinimaGenre => RendaMinima
    case AjudaCusto => AjudaDeCusto
  }

  /** `notaries.find(n => n.id === selectedNotaryId)`. */
  function FindNotary(ns: seq<Notary>, id: string): (r: Option<Notary>)
    ensures r.Some? ==> r.value in ns && r.value.id == id
    ensures r.None? <==> forall n :: n in ns ==> n.id != id
    ensures r.Some? ==> exists i :: 0 <= i < |ns| && ns[i] == r.value && forall j :: 0 <= j < i ==> ns[j].id != id
  {
    if ns == [] then None
    else if ns[0].id == id then Some(ns[0])
    else
      var r := FindNotary(ns[1..], id);
      assert forall n :: n in ns ==> n == ns[0] || n in ns[1..];
      if r.Some? then
        var i :| 0 <= i < |ns[1..]| && ns[1..][i] == r.value && forall j :: 0 <= j < i ==> ns[1..][j].id != id;
        assert ns[i + 1] == r.value;
        r
      else r
  }

  /**
   * The record `handleSubmit` creates: a new id, the notary's identification,
   * the form's period, date, lot and genre, the computed amounts, and the
   * status "EM ANDAMENTO".
   */
  function NewRecord(id: string, n: Notary, date: string, month: string, year: int, gross: real, irpf: real,
                     net: real, genre: Genre, qtd1: int, qtd2: int, lote: LoteType): Payment {
    Payment(id, n.id, n.name, n.code, n.responsibleName, n.responsibleCpf, date, month, year, n.comarca,
            gross, irpf, net, HistoryTypeFor(genre), Some(EmAndamento), None, Some(lote),
            Some(qtd1), Some(FirstCopyValue), Some(qtd2), Some(SecondCopyValue), Some(genre), n.city)
  }

  /** The state of the open form. */
  class PaymentForm {
    var selectedNotaryId: string
    var monthRef: string
    var yearRef: int
    var date: string
    var loteType: LoteType
    var genre: Genre
    var qtd1: int
    var qtd2: int
    var notary: Option<Notary>
    var gross: real
    var irpf: real
    var net: real
    var currentBrackets: seq<Bracket>

    /** The derived amounts agree with the counts and the brackets in use. */
    ghost predicate Valid()
      reads this
    {
      gross == GrossFor(qtd1, qtd2) &&
      irpf == CalculateIrrf(gross, currentBrackets) &&
      net == gross - irpf
    }

    /** The initial state, for the current year and today's date. */
    constructor (currentYear: int, today: string)
      ensures Valid()
      ensures selectedNotaryId == "" && monthRef == "01" && yearRef == currentYear && date == today
      ensures loteType == Principal && genre == AtosGratuitos && qtd1 == 0 && qtd2 == 0
      ensures notary == None && currentBrackets == []
    {
      selectedNotaryId, monthRef, yearRef, date := "", "01", currentYear, today;
      loteType, genre, qtd1, qtd2 := Principal, AtosGratuitos, 0, 0;
      notary := None;
      gross, irpf, net := 0.0, 0.0, 0.0;
      currentBrackets := [];
    }

    /** The real-time calculation effect. */
    method Recalculate()
      modifies this
      ensures Valid()
      ensures gross == GrossFor(qtd1, qtd2)
      ensures irpf == CalculateIrrf(gross, currentBrackets) && net == gross - irpf
      ensures selectedNotaryId == old(selectedNotaryId) && monthRef == old(monthRef) && yearRef == old(yearRef)
      ensures date == old(date) && loteType == old(loteType) && genre == old(genre)
      ensures qtd1 == old(qtd1) && qtd2 == old(qtd2) && notary == old(notary)
      ensures currentBrackets == old(currentBrackets)
    {
      var totalBruto := GrossFor(qtd1, qtd2);
      gross := totalBruto;
      var calcIrpf := CalculateIrrf(totalBruto, currentBrackets);
      irpf := calcIrpf;
      net := totalBruto - calcIrpf;
    }

    /**
     * The initialisation effect on opening: a duplicate copies the notary,
     * month, year, lot, genre and counts of the payment (lot, genre and
     * counts defaulted when absent); a fresh form clears the counts and the
     * notary. Then the amounts follow the counts.
     */
    method Open(toDuplicate: Option<Payment>)
      modifies this
      ensures Valid() && currentBrackets == old(currentBrackets) && date == old(date)
      ensures toDuplicate.Some? ==>
                var p := toDuplicate.value;
                selectedNotaryId == p.notaryId && monthRef == p.monthReference && yearRef == p.yearReference &&
                loteType == p.loteType.GetOr(Principal) && genre == p.genre.GetOr(AtosGratuitos) &&
                qtd1 == p.qtdVia1.GetOr(0) && qtd2 == p.qtdVia2.GetOr(0)
      ensures toDuplicate.None? ==>
                qtd1 == 0 && qtd2 == 0 && selectedNotaryId == "" &&
                monthRef == old(monthRef) && yearRef == old(yearRef) && loteType == old(loteType) && genre == old(genre)
      ensures notary == old(notary)
    {
      if toDuplicate.Some? {
        var p := toDuplicate.value;
        selectedNotaryId := p.notaryId;
        monthRef := p.monthReference;
        yearRef := p.yearReference;
        loteType := p.loteType.GetOr(Principal);
        genre := p.genre.GetOr(AtosGratuitos);
        qtd1 := p.qtdVia1.GetOr(0);
        qtd2 := p.qtdVia2.GetOr(0);
      } else {
        qtd1 := 0;
        qtd2 := 0;
        selectedNotaryId := "";
      }
      Recalculate();
    }

    /** The effect that looks the chosen notary up in the list; an unknown id gives no notary. */
    method SyncNotary(notaries: seq<Notary>)
      modifies this
      ensures notary == FindNotary(notaries, selectedNotaryId)
      ensures selectedNotaryId == old(selectedNotaryId) && monthRef == old(monthRef) && yearRef == old(yearRef)
      ensures date == old(date) && loteType == old(loteType) && genre == old(genre)
      ensures qtd1 == old(qtd1) && qtd2 == old(qtd2)
      ensures gross == old(gross) && irpf == old(irpf) && net == old(net)
      ensures currentBrackets == old(currentBrackets)
      ensures old(Valid()) ==> Valid()
    {
      notary := FindNotary(notaries, selectedNotaryId);
    }

    /** Choosing a notary in the list, then the lookup effect. */
    method SelectNotary(id: string, notaries: seq<Notary>)
      modifies this
      ensures selectedNotaryId == id && notary == FindNotary(notaries, id)
      ensures monthRef == old(monthRef) && yearRef == old(yearRef) && date == old(date)
      ensures loteType == old(loteType) && genre == old(genre) && qtd1 == old(qtd1) && qtd2 == old(qtd2)
      ensures gross == old(gross) && irpf == old(irpf) && net == old(net)
      ensures currentBrackets == old(currentBrackets)
      ensures old(Valid()) ==> Valid()
    {
      selectedNotaryId := id;
      SyncNotary(notaries);
    }

    /** Typing a first-copy count; the amounts follow. */
    method SetFirstCopies(text: string)
      modifies this
      ensures Valid() && qtd1 == ClampQuantity(text) && qtd2 == old(qtd2)
      ensures currentBrackets == old(currentBrackets) && notary == old(notary)
      ensures selectedNotaryId == old(selectedNotaryId) && monthRef == old(monthRef) && yearRef == old(yearRef)
      ensures date == old(date) && loteType == old(loteType) && genre == old(genre)
    {
      qtd1 := ClampQuantity(text);
      Recalculate();
    }

    /** Typing a second-copy count; the amounts follow. */
    method SetSecondCopies(text: string)
      modifies this
      ensures Valid() && qtd2 == ClampQuantity(text) && qtd1 == old(qtd1)
      ensures currentBrackets == old(currentBrackets) && notary == old(notary)
      ensures selectedNotaryId == old(selectedNotaryId) && monthRef == old(monthRef) && yearRef == old(yearRef)
      ensures date == old(date) && loteType == old(loteType) && genre == old(genre)
    {
      qtd2 := ClampQuantity(text);
      Recalculate();
    }

    /**
     * The result of `fetchBracketsForYear`: the rows replace the brackets in
     * use only when there is at least one; otherwise the previous year's stay.
     */
    method ApplyFetchedBrackets(rows: seq<Bracket>)
      modifies this
      ensures Valid() && qtd1 == old(qtd1) && qtd2 == old(qtd2) && notary == old(notary)
      ensures currentBrackets == if |rows| > 0 then rows else old(currentBrackets)
      ensures selectedNotaryId == old(selectedNotaryId) && monthRef == old(monthRef) && yearRef == old(yearRef)
      ensures date == old(date) && loteType == old(loteType) && genre == old(genre)
    {
      if |rows| > 0 {
        currentBrackets := rows;
      }
      Recalculate();
    }

    /** `handleSubmit`: nothing without a resolved notary, otherwise the new record. */
    method Submit(newId: string) returns (r: Option<Payment>)
      ensures notary.None? ==> r.None?
      ensures notary.Some? ==>
                r == Some(NewRecord(newId, notary.value, date, monthRef, yearRef, gross, irpf, net,
                                    genre, qtd1, qtd2, loteType))
      ensures Valid() && r.Some? ==>
                r.value.grossValue == GrossFor(r.value.qtdVia1.value, r.value.qtdVia2.value) &&
                r.value.irrfValue == CalculateIrrf(r.value.grossValue, currentBrackets) &&
                r.value.irrfValue >= 0.0 && r.value.netValue == r.value.grossValue - r.value.irrfValue
    {
      if notary.None? {
        return None;
      }
      var n := notary.value;
      r := Some(NewRecord(newId, n, date, monthRef, yearRef, gross, irpf, net, genre, qtd1, qtd2, loteType));
    }
  }

  /**
   * A record created from a consistent form carries the notary's data, the
   * form's date, reference month and year, genre, batch and copy counts, the
   * history type of its genre, the status "EM ANDAMENTO", the gross of its
   * copies, a withholding of whole cents and at least zero taken from the
   * table, and a net that is the gross less the withholding, hence never above
   * the gross.
   */
  lemma NewRecordSpec(id: string, n: Notary, date: string, month: string, year: int, genre: Genre,
                      qtd1: int, qtd2: int, lote: LoteType, bs: seq<Bracket>)
    ensures var g := GrossFor(qtd1, qtd2);
            var t := CalculateIrrf(g, bs);
            var p := NewRecord(id, n, date, month, year, g, t, g - t, genre, qtd1, qtd2, lote);
            p.id == id && p.notaryId == n.id && p.notaryName == n.name && p.responsibleName == n.responsibleName &&
            p.code == n.code && p.cpf == n.responsibleCpf && p.comarca == n.comarca && p.municipality == n.city &&
            p.date == date && p.monthReference == month && p.yearReference == year &&
            p.status == Some(EmAndamento) && p.historyType != Complementacao &&
            (genre == AtosGratuitos ==> p.historyType == Repasse) &&
            (genre == RendaMinimaGenre ==> p.historyType == RendaMinima) &&
            (genre == AjudaCusto ==> p.historyType == AjudaDeCusto) &&
            p.genre == Some(genre) && p.loteType == Some(lote) &&
            p.qtdVia1 == Some(qtd1) && p.qtdVia2 == Some(qtd2) &&
            p.grossValue == GrossFor(qtd1, qtd2) && p.irrfValue == CalculateIrrf(p.grossValue, bs) &&
            p.irrfValue >= 0.0 && IsCents(p.irrfValue) &&
            p.netValue == p.grossValue - p.irrfValue && p.netValue <= p.grossValue
  {
  }

  /**
   * With non-negative counts and a table whose rates are at most one and whose
   * deductions are not negative, the net is never negative either.
   */
  lemma NetNotNegative(qtd1: nat, qtd2: nat, bs: seq<Bracket>)
    requires forall i :: 0 <= i < |bs| ==> bs[i].rate <= 1.0 && bs[i].deduction >= 0.0
    ensures GrossFor(qtd1, qtd2) - CalculateIrrf(GrossFor(qtd1, qtd2), bs) >= 0.0
  {
    var c := 6500 * qtd1 + 2100 * qtd2;
    assert c as real / 100.0 == GrossFor(qtd1, qtd2);
    TaxNeverExceedsGross(c, bs);
  }

  /** A created record is listed on the tab of its genre (the first sub-tab for free acts). */
  lemma NewRecordListed(id: string, n: Notary, date: string, month: string, year: int, gross: real,
                        irpf: real, net: real, genre: Genre, qtd1: int, qtd2: int, lote: LoteType)
    ensures var p := NewRecord(id, n, date, month, year, gross, irpf, net, genre, qtd1, qtd2, lote);
            PaymentTable.MatchesFilters(p, PaymentTable.Filters(genre, PaymentTable.RepasseTab, "", "", None)) &&
            PaymentTable.MatchesFilters(p, PaymentTable.Filters(genre, PaymentTable.RepasseTab, "", IntToString(year), Some(lote)))
  {
  }

  /** The table's two copy columns of a created record add up to its gross. */
  lemma CopyColumnsAddUp(id: string, n: Notary, date: string, month: string, year: int, genre: Genre,
                         qtd1: int, qtd2: int, lote: LoteType, bs: seq<Bracket>)
    ensures var g := GrossFor(qtd1, qtd2);
            var t := CalculateIrrf(g, bs);
            var p := NewRecord(id, n, date, month, year, g, t, g - t, genre, qtd1, qtd2, lote);
            PaymentTable.FirstCopyAmount(p) + PaymentTable.SecondCopyAmount(p) == p.grossValue
  {
  }

  /**
   * Forty first copies under the 2025 table: a gross of 2600.00 falls in the
   * second bracket, 7.5% less 169.44, so 25.56 is withheld and 2574.44 paid.
   */
  lemma FortyFirstCopies2025()
    ensures GrossFor(40, 0) == 2600.0
    ensures CalculateIrrf(GrossFor(40, 0), Constants.Irrf2025()) == 25.56
    ensures GrossFor(40, 0) - CalculateIrrf(GrossFor(40, 0), Constants.Irrf2025()) == 2574.44
  {
    assert GrossFor(40, 0) == 260000 as real / 100.0;
    Constants.Tax2025At(260000, 25.56, 2556);
  }
}
