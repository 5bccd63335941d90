/**
 * The payment list (PaymentTable.tsx): which payments the active tab and the
 * filters let through, and the per-copy amount columns.
 */
module PaymentTable {
  import opened Types
  import opened Text
  import opened Seqs

  /** The sub-tabs of the free-acts genre. */
  datatype SubTab = RepasseTab | DeaTab | MesesAnterioresTab

  /** The filter state of the table; `lote == None` is the empty lot filter. */
  datatype Filters = Filters(genre: Genre, subTab: SubTab, search: string, year: string, lote: Option<LoteType>)

  /** The genre and sub-tab test of the filter. */
  predicate ShownOnTab(p: Payment, genre: Genre, subTab: SubTab) {
    match genre
    case AtosGratuitos =>
      (subTab == RepasseTab && p.historyType == Repasse) ||
      (subTab == DeaTab && p.historyType == Dea) ||
      (subTab == MesesAnterioresTab && p.historyType == MesesAnteriores)
    case RendaMinimaGenre => p.historyType == RendaMinima
    case AjudaCusto => p.historyType == AjudaDeCusto
  }

  /** The one history type a tab lists. */
  function TabHistory(genre: Genre, subTab: SubTab): HistoryType {
    match genre
    case AtosGratuitos =>
      (match subTab
       case RepasseTab => Repasse
       case DeaTab => Dea
       case MesesAnterioresTab => MesesAnteriores)
    case RendaMinimaGenre => RendaMinima
    case AjudaCusto => AjudaDeCusto
  }

  /**
   * Each tab lists exactly one history type; every history type but the
   * complement is listed on some tab, and the complement on none.
   */
  lemma ShownOnTabSpec(p: Payment, genre: Genre, subTab: SubTab)
    ensures ShownOnTab(p, genre, subTab) <==> p.historyType == TabHistory(genre, subTab)
    ensures p.historyType == Complementacao ==> !ShownOnTab(p, genre, subTab)
    ensures p.historyType != Complementacao ==>
              exists g, t :: TabHistory(g, t) == p.historyType
  {
    match p.historyType
    case Repasse => assert TabHistory(AtosGratuitos, RepasseTab) == Repasse;
    case Dea => assert TabHistory(AtosGratuitos, DeaTab) == Dea;
    case MesesAnteriores => assert TabHistory(AtosGratuitos, MesesAnterioresTab) == MesesAnteriores;
    case RendaMinima => assert TabHistory(RendaMinimaGenre, RepasseTab) == RendaMinima;
    case AjudaDeCusto => assert TabHistory(AjudaCusto, RepasseTab) == AjudaDeCusto;
    case Complementacao =>
  }

  /** The search, year and lot tests; an empty filter lets everything through. */
  predicate MatchesSearch(p: Payment, search: string) {
    search == "" || Contains(Lower(p.notaryName), Lower(search)) || Contains(Lower(p.responsibleName), Lower(search))
  }

  predicate MatchesYear(p: Payment, year: string) {
    year == "" || IntToString(p.yearReference) == year
  }

  predicate MatchesLote(p: Payment, lote: Option<LoteType>) {
    lote == None || p.loteType == lote
  }

  /** The predicate passed to `filter`. */
  predicate MatchesFilters(p: Payment, f: Filters) {
    ShownOnTab(p, f.genre, f.subTab) && MatchesSearch(p, f.search) && MatchesYear(p, f.year) && MatchesLote(p, f.lote)
  }

  function FilterBy(f: Filters): Payment -> bool {
    p => MatchesFilters(p, f)
  }

  /** `filteredPayments`. */
  function FilteredPayments(ps: seq<Payment>, f: Filters): seq<Payment> {
    Filter(ps, FilterBy(f))
  }

  /**
   * The table lists, in their order, exactly the payments that pass every
   * test; a complement payment is never listed, and with the text filters
   * empty the tab alone decides.
   */
  lemma FilteredPaymentsSpec(ps: seq<Payment>, f: Filters)
    ensures IsSubsequence(FilteredPayments(ps, f), ps)
    ensures forall p :: p in FilteredPayments(ps, f) <==> p in ps && MatchesFilters(p, f)
    ensures forall p :: p in FilteredPayments(ps, f) ==> p.historyType == TabHistory(f.genre, f.subTab)
    ensures forall p :: p in FilteredPayments(ps, f) ==> p.historyType != Complementacao
    ensures f.search == "" && f.year == "" && f.lote == None ==>
              FilteredPayments(ps, f) == Filter(ps, (p: Payment) => ShownOnTab(p, f.genre, f.subTab))
  {
    FilterIsSubsequence(ps, FilterBy(f));
    forall p | p in FilteredPayments(ps, f)
      ensures p.historyType == TabHistory(f.genre, f.subTab) && p.historyType != Complementacao
    {
      ShownOnTabSpec(p, f.genre, f.subTab);
    }
    if f.search == "" && f.year == "" && f.lote == None {
      FilterSame(ps, FilterBy(f), (p: Payment) => ShownOnTab(p, f.genre, f.subTab));
    }
  }

  /** A year filter written like a year lets through exactly the payments of that year. */
  lemma MatchesYearSpec(p: Payment, y: int)
    ensures MatchesYear(p, IntToString(y)) <==> p.yearReference == y
  {
    if MatchesYear(p, IntToString(y)) {
      IntToStringInjective(p.yearReference, y);
    }
  }

  /** The search ignores case on both sides. */
  lemma MatchesSearchIgnoresCase(p: Payment, search: string)
    ensures MatchesSearch(p, Lower(search)) <==> MatchesSearch(p, search)
  {
    LowerIdempotent(search);
    if search != "" {
      assert Lower(search) != "";
    }
  }

  /** `(qtdVia1 || 0) * 65`. */
  function FirstCopyAmount(p: Payment): real {
    (p.qtdVia1.GetOr(0) * 65) as real
  }

  /** `(qtdVia2 || 0) * 21`. */
  function SecondCopyAmount(p: Payment): real {
    (p.qtdVia2.GetOr(0) * 21) as real
  }
}
