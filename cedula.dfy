/**
 * The consolidated income statement ("Cédula C", CedulaCReport.tsx): the
 * notary search, the selection toggles, the grouping of the selected
 * notaries by the CPF of their responsible person, the chronological order
 * of a group's payments and the group totals.
 */
module CedulaC {
  import opened Types
  import opened Text
  import opened Seqs
  import opened Sorting
  import opened Ledger

  // ---------------------------------------------------------------- order

  /** `parseInt(monthReference) || 0`. */
  function MonthOf(p: Payment): int {
    ParseIntOrZero(p.monthReference)
  }

  /**
   * The statement comparator, read as "`a` may come before `b`": year, then
   * month number, then date (ISO dates, compared as text).
   */
  predicate ChronoLe(a: Payment, b: Payment) {
    if a.yearReference != b.yearReference then a.yearReference < b.yearReference
    else if MonthOf(a) != MonthOf(b) then MonthOf(a) < MonthOf(b)
    else StringLe(a.date, b.date)
  }

  lemma ChronoLeTotalPreorder()
    ensures IsTotalPreorder(ChronoLe)
  {
    forall x, y
      ensures ChronoLe(x, y) || ChronoLe(y, x)
    {
      StringLeTotal(x.date, y.date);
    }
    forall x, y, z | ChronoLe(x, y) && ChronoLe(y, z)
      ensures ChronoLe(x, z)
    {
      if x.yearReference == y.yearReference == z.yearReference && MonthOf(x) == MonthOf(y) == MonthOf(z) {
        StringLeTransitive(x.date, y.date, z.date);
      }
    }
  }

  /** `[...payments].sort(comparator)`. */
  function SortChronologically(ps: seq<Payment>): seq<Payment> {
    SortBy(ps, ChronoLe)
  }

  /**
   * The sorted payments are the same payments, by year ascending, then month
   * number ascending, then date; payments that tie keep their order.
   */
  lemma SortChronologicallySpec(ps: seq<Payment>)
    ensures multiset(SortChronologically(ps)) == multiset(ps)
    ensures forall i, j :: 0 <= i < j < |ps| ==>
              var a, b := SortChronologically(ps)[i], SortChronologically(ps)[j];
              a.yearReference < b.yearReference ||
              (a.yearReference == b.yearReference && MonthOf(a) < MonthOf(b)) ||
              (a.yearReference == b.yearReference && MonthOf(a) == MonthOf(b) && StringLe(a.date, b.date))
    ensures forall c :: Equivalents(SortChronologically(ps), c, ChronoLe) == Equivalents(ps, c, ChronoLe)
  {
    ChronoLeTotalPreorder();
    SortBySorted(ps, ChronoLe);
    forall c
      ensures Equivalents(SortChronologically(ps), c, ChronoLe) == Equivalents(ps, c, ChronoLe)
    {
      SortByStable(ps, c, ChronoLe);
    }
  }

  /** The statement totals are taken over the unsorted list; sorting would not change them. */
  lemma StatementTotalsIgnoreOrder(ps: seq<Payment>)
    ensures TotalGross(SortChronologically(ps)) == TotalGross(ps)
    ensures TotalIrrf(SortChronologically(ps)) == TotalIrrf(ps)
    ensures TotalNet(SortChronologically(ps)) == TotalNet(ps)
  {
    TotalsOfPermutation(SortChronologically(ps), ps);
  }

  // ---------------------------------------------------------------- search

  /** Name and responsible name compared without case; the CPF as typed. */
  predicate MatchesSearch(n: Notary, search: string) {
    Contains(Lower(n.name), Lower(search)) ||
    Contains(Lower(n.responsibleName), Lower(search)) ||
    Contains(n.responsibleCpf, search)
  }

  function SearchFilter(search: string): Notary -> bool {
    (n: Notary) => MatchesSearch(n, search)
  }

  /** `filteredNotaries`. */
  function FilteredNotaries(ns: seq<Notary>, search: string): seq<Notary> {
    Filter(ns, SearchFilter(search))
  }

  /** The search keeps, in order, exactly the notaries that match; an empty search keeps all. */
  lemma FilteredNotariesSpec(ns: seq<Notary>, search: string)
    ensures IsSubsequence(FilteredNotaries(ns, search), ns)
    ensures forall n :: n in FilteredNotaries(ns, search) <==> n in ns && MatchesSearch(n, search)
    ensures search == "" ==> FilteredNotaries(ns, search) == ns
  {
    FilterIsSubsequence(ns, SearchFilter(search));
    if search == "" {
      forall n | n in ns
        ensures SearchFilter(search)(n)
      {
        ContainsEmpty(Lower(n.name));
      }
      FilterKeepsAll(ns, SearchFilter(search));
    }
  }

  // ---------------------------------------------------------------- selection

  function Toggled(sel: set<string>, id: string): set<string> {
    if id in sel then sel - {id} else sel + {id}
  }

  /** Toggling flips the one id, leaves every other id as it was, and undoes itself. */
  lemma ToggledSpec(sel: set<string>, id: string)
    ensures id in Toggled(sel, id) <==> id !in sel
    ensures forall x :: x != id ==> (x in Toggled(sel, id) <==> x in sel)
    ensures Toggled(Toggled(sel, id), id) == sel
  {
  }

  function IdsOf(ns: seq<Notary>): set<string> {
    set n | n in ns :: n.id
  }

  /**
   * `toggleSelectAll`: clears the selection when it has as many ids as there
   * are listed notaries (and there is at least one), otherwise selects
   * exactly the listed ones.
   */
  function SelectAllToggled(sel: set<string>, filtered: seq<Notary>): set<string> {
    if |sel| == |filtered| && |filtered| > 0 then {} else IdsOf(filtered)
  }

  lemma {:induction false} IdsOfSize(ns: seq<Notary>)
    ensures |IdsOf(ns)| <= |ns|
    ensures (forall i, j :: 0 <= i < j < |ns| ==> ns[i].id != ns[j].id) ==> |IdsOf(ns)| == |ns|
  {
    if ns != [] {
      var init := ns[..|ns| - 1];
      IdsOfSize(init);
      assert IdsOf(ns) == IdsOf(init) + {ns[|ns| - 1].id} by {
        assert ns == init + [ns[|ns| - 1]];
      }
      if forall i, j :: 0 <= i < j < |ns| ==> ns[i].id != ns[j].id {
        assert ns[|ns| - 1].id !in IdsOf(init);
      }
    }
  }

  /**
   * "Select all" selects exactly the listed ids unless the selection already
   * has as many ids as there are listed notaries, and there is at least one;
   * then it clears the selection. Only sizes are compared.
   */
  lemma SelectAllSpec(sel: set<string>, filtered: seq<Notary>)
    ensures |sel| != |filtered| || |filtered| == 0 ==> SelectAllToggled(sel, filtered) == IdsOf(filtered)
    ensures |sel| == |filtered| && |filtered| > 0 ==> SelectAllToggled(sel, filtered) == {}
    ensures forall n :: n in filtered ==> (n.id in SelectAllToggled(sel, filtered) <==> |sel| != |filtered|)
  {
  }

  /**
   * Pressing "select all" twice on a list of notaries with distinct ids
   * selects them all and then clears the selection; a different selection of
   * the same size is cleared and then selected.
   */
  lemma SelectAllTwice(sel: set<string>, filtered: seq<Notary>)
    requires forall i, j :: 0 <= i < j < |filtered| ==> filtered[i].id != filtered[j].id
    ensures |filtered| > 0 ==>
              SelectAllToggled(SelectAllToggled(sel, filtered), filtered) ==
              (if |sel| == |filtered| then IdsOf(filtered) else {})
  {
    IdsOfSize(filtered);
  }

  /** Two entries with the same id make the ids fewer than the entries. */
  lemma {:induction false} RepeatedIdsAreFewer(ns: seq<Notary>, i: nat, j: nat)
    requires i < j < |ns| && ns[i].id == ns[j].id
    ensures |IdsOf(ns)| < |ns|
  {
    var rest := ns[..j] + ns[j + 1..];
    assert IdsOf(ns) <= IdsOf(rest) by {
      forall n | n in ns
        ensures n.id in IdsOf(rest)
      {
        var k :| 0 <= k < |ns| && ns[k] == n;
        if k < j {
          assert rest[k] == n;
        } else if k == j {
          assert rest[i] == ns[i];
        } else {
          assert rest[k - 1] == n;
        }
      }
    }
    IdsOfSize(rest);
    assert |IdsOf(ns)| <= |IdsOf(rest)| by {
      SubsetSize(IdsOf(ns), IdsOf(rest));
    }
  }

  lemma SubsetSize<T>(a: set<T>, b: set<T>)
    requires a <= b
    ensures |a| <= |b|
  {
    assert b == a + (b - a);
  }

  /**
   * With a repeated id among the listed notaries the selection can never
   * have as many ids as there are entries, so "select all" never clears it:
   * pressing it again keeps every listed id selected.
   */
  lemma SelectAllWithRepeatedIds(sel: set<string>, filtered: seq<Notary>, i: nat, j: nat)
    requires i < j < |filtered| && filtered[i].id == filtered[j].id
    ensures SelectAllToggled(SelectAllToggled(sel, filtered), filtered) == IdsOf(filtered)
  {
    RepeatedIdsAreFewer(filtered, i, j);
  }

  /** The selection of the statement page. */
  class Selection {
    var selected: set<string>

    constructor ()
      ensures selected == {}
    {
      selected := {};
    }

    /** `toggleSelection`. */
    method ToggleSelection(id: string)
      modifies this
      ensures selected == Toggled(old(selected), id)
    {
      var next := selected;
      if id in next {
        next := next - {id};
      } else {
        next := next + {id};
      }
      selected := next;
    }

    /** `toggleSelectAll`, given the notaries the search currently lists. */
    method ToggleSelectAll(filtered: seq<Notary>)
      modifies this
      ensures selected == SelectAllToggled(old(selected), filtered)
    {
      if |selected| == |filtered| && |filtered| > 0 {
        selected := {};
      } else {
        selected := IdsOf(filtered);
      }
    }
  }

  // ---------------------------------------------------------------- grouping

  /** A statement page: one responsible person, all their notaries and payments. */
  datatype Group = Group(
    responsibleCpf: string,
    responsibleName: string,
    notaries: seq<Notary>,
    payments: seq<Payment>)

  function InSelection(sel: set<string>): Notary -> bool {
    (n: Notary) => n.id in sel
  }

  /** `notaries.filter(n => selectedNotaryIds.has(n.id))`. */
  function SelectedList(ns: seq<Notary>, sel: set<string>): seq<Notary> {
    Filter(ns, InSelection(sel))
  }

  lemma SelectedListSpec(ns: seq<Notary>, sel: set<string>)
    ensures IsSubsequence(SelectedList(ns, sel), ns)
    ensures forall n :: n in SelectedList(ns, sel) <==> n in ns && n.id in sel
  {
    FilterIsSubsequence(ns, InSelection(sel));
  }

  function CpfOf(n: Notary): string { n.responsibleCpf }

  /** The responsible CPFs of the selected notaries, each once, in order of first appearance. */
  function DistinctCpfs(sel: seq<Notary>): seq<string> {
    Dedup(Map(sel, CpfOf))
  }

  function HasCpf(cpf: string): Notary -> bool {
    (n: Notary) => n.responsibleCpf == cpf
  }

  /** The selected notaries of one responsible person, in order. */
  function Members(sel: seq<Notary>, cpf: string): seq<Notary> {
    Filter(sel, HasCpf(cpf))
  }

  function OfNotary(id: string): Payment -> bool {
    (p: Payment) => p.notaryId == id
  }

  /** `payments.filter(p => p.notaryId === id)`. */
  function PaymentsOf(ps: seq<Payment>, id: string): seq<Payment> {
    Filter(ps, OfNotary(id))
  }

  /** The payments of each notary of `ms` in turn. */
  function PaymentsOfAll(ms: seq<Notary>, ps: seq<Payment>): seq<Payment> {
    if ms == [] then []
    else PaymentsOfAll(ms[..|ms| - 1], ps) + PaymentsOf(ps, ms[|ms| - 1].id)
  }

  /** The page of one CPF: named after its first notary's responsible person. */
  function GroupFor(sel: seq<Notary>, cpf: string, ps: seq<Payment>): Group {
    var ms := Members(sel, cpf);
    Group(cpf, if ms == [] then "" else ms[0].responsibleName, ms, PaymentsOfAll(ms, ps))
  }

  /** What `groupedReports` yields: one page per distinct CPF, in order of first appearance. */
  function GroupedReports(sel: seq<Notary>, ps: seq<Payment>): seq<Group> {
    var cpfs := DistinctCpfs(sel);
    seq(|cpfs|, k requires 0 <= k < |cpfs| => GroupFor(sel, cpfs[k], ps))
  }

  lemma DistinctCpfsAppend(s: seq<Notary>, n: Notary)
    ensures DistinctCpfs(s + [n]) ==
              if n.responsibleCpf in DistinctCpfs(s) then DistinctCpfs(s)
              else DistinctCpfs(s) + [n.responsibleCpf]
  {
    var m := Map(s + [n], CpfOf);
    assert m[..|m| - 1] == Map(s, CpfOf);
    assert m[|m| - 1] == n.responsibleCpf;
  }

  lemma InDistinctCpfs(s: seq<Notary>, cpf: string)
    ensures cpf in DistinctCpfs(s) <==> Members(s, cpf) != []
  {
    if Members(s, cpf) != [] {
      var n := Members(s, cpf)[0];
      assert n in Members(s, cpf);
      var i :| 0 <= i < |s| && s[i] == n;
      assert Map(s, CpfOf)[i] == cpf;
    }
    if cpf in DistinctCpfs(s) {
      var i :| 0 <= i < |s| && Map(s, CpfOf)[i] == cpf;
      assert s[i] in Members(s, cpf);
    }
  }

  lemma MembersAppend(s: seq<Notary>, n: Notary, cpf: string)
    ensures Members(s + [n], cpf) == Members(s, cpf) + (if n.responsibleCpf == cpf then [n] else [])
  {
    FilterAppend(s, [n], HasCpf(cpf));
  }

  lemma PaymentsOfAllAppend(ms: seq<Notary>, n: Notary, ps: seq<Payment>)
    ensures PaymentsOfAll(ms + [n], ps) == PaymentsOfAll(ms, ps) + PaymentsOf(ps, n.id)
  {
    assert (ms + [n])[..|ms|] == ms;
  }

  /** One more selected notary leaves the pages of the other CPFs as they were. */
  lemma GroupForOther(s: seq<Notary>, n: Notary, cpf: string, ps: seq<Payment>)
    requires cpf != n.responsibleCpf
    ensures GroupFor(s + [n], cpf, ps) == GroupFor(s, cpf, ps)
  {
    MembersAppend(s, n, cpf);
    assert Members(s + [n], cpf) == Members(s, cpf) + [];
    assert Members(s, cpf) + [] == Members(s, cpf);
  }

  /** The first selected notary of a CPF opens its page. */
  lemma GroupForFirst(s: seq<Notary>, n: Notary, ps: seq<Payment>)
    requires Members(s, n.responsibleCpf) == []
    ensures GroupFor(s + [n], n.responsibleCpf, ps) == Group(n.responsibleCpf, n.responsibleName, [n], PaymentsOf(ps, n.id))
  {
    var cpf := n.responsibleCpf;
    MembersAppend(s, n, cpf);
    assert Members(s + [n], cpf) == [] + [n];
    assert [] + [n] == [n];
    PaymentsOfAllAppend([], n, ps);
    assert PaymentsOfAll([], ps) == [];
    assert [] + [n] == [n];
  }

  /** A further selected notary of a CPF goes at the end of its page, with its payments. */
  lemma GroupForNext(s: seq<Notary>, n: Notary, ps: seq<Payment>)
    requires Members(s, n.responsibleCpf) != []
    ensures var g := GroupFor(s, n.responsibleCpf, ps);
            GroupFor(s + [n], n.responsibleCpf, ps) ==
              g.(notaries := g.notaries + [n], payments := g.payments + PaymentsOf(ps, n.id))
  {
    var cpf := n.responsibleCpf;
    var ms := Members(s, cpf);
    MembersAppend(s, n, cpf);
    PaymentsOfAllAppend(ms, n, ps);
    assert (ms + [n])[0] == ms[0];
  }

  /** How one more selected notary changes the page of its CPF and of no other. */
  lemma GroupForAppend(s: seq<Notary>, n: Notary, cpf: string, ps: seq<Payment>)
    ensures cpf != n.responsibleCpf ==> GroupFor(s + [n], cpf, ps) == GroupFor(s, cpf, ps)
    ensures cpf == n.responsibleCpf && Members(s, cpf) == [] ==>
              GroupFor(s + [n], cpf, ps) == Group(cpf, n.responsibleName, [n], PaymentsOf(ps, n.id))
    ensures cpf == n.responsibleCpf && Members(s, cpf) != [] ==>
              var g := GroupFor(s, cpf, ps);
              GroupFor(s + [n], cpf, ps) ==
                g.(notaries := g.notaries + [n], payments := g.payments + PaymentsOf(ps, n.id))
  {
    if cpf != n.responsibleCpf {
      GroupForOther(s, n, cpf, ps);
    } else if Members(s, cpf) == [] {
      GroupForFirst(s, n, ps);
    } else {
      GroupForNext(s, n, ps);
    }
  }

  /** The state of the grouping loop after the notaries `s`. */
  ghost predicate GroupingState(s: seq<Notary>, ps: seq<Payment>, order: seq<string>, byCpf: map<string, Group>) {
    order == DistinctCpfs(s) &&
    (forall c :: c in byCpf <==> c in order) &&
    (forall c :: c in order ==> byCpf[c] == GroupFor(s, c, ps))
  }

  /** A notary whose CPF already has a page joins it. */
  lemma GroupingStepSeen(s: seq<Notary>, n: Notary, s1: seq<Notary>, ps: seq<Payment>,
                         order: seq<string>, byCpf: map<string, Group>, byCpf2: map<string, Group>)
    requires GroupingState(s, ps, order, byCpf)
    requires n.responsibleCpf in byCpf
    requires var g := byCpf[n.responsibleCpf];
             byCpf2 == byCpf[n.responsibleCpf := g.(notaries := g.notaries + [n],
                                                   payments := g.payments + PaymentsOf(ps, n.id))]
    requires s1 == s + [n]
    ensures GroupingState(s1, ps, order, byCpf2)
  {
    var cpf := n.responsibleCpf;
    DistinctCpfsAppend(s, n);
    InDistinctCpfs(s, cpf);
    assert byCpf[cpf] == GroupFor(s, cpf, ps);
    forall c | c in order
      ensures byCpf2[c] == GroupFor(s + [n], c, ps)
    {
      if c != cpf {
        GroupForOther(s, n, c, ps);
      } else {
        GroupForNext(s, n, ps);
      }
    }
  }

  /** A notary whose CPF has no page yet opens one at the end. */
  lemma GroupingStepNew(s: seq<Notary>, n: Notary, s1: seq<Notary>, ps: seq<Payment>,
                        order: seq<string>, byCpf: map<string, Group>, byCpf2: map<string, Group>)
    requires GroupingState(s, ps, order, byCpf)
    requires n.responsibleCpf !in byCpf
    requires byCpf2 == byCpf[n.responsibleCpf := Group(n.responsibleCpf, n.responsibleName, [n], PaymentsOf(ps, n.id))]
    requires s1 == s + [n]
    ensures GroupingState(s1, ps, order + [n.responsibleCpf], byCpf2)
  {
    var cpf := n.responsibleCpf;
    DistinctCpfsAppend(s, n);
    InDistinctCpfs(s, cpf);
    forall c | c in order + [cpf]
      ensures byCpf2[c] == GroupFor(s + [n], c, ps)
    {
      if c != cpf {
        assert c in order;
        GroupForOther(s, n, c, ps);
      } else {
        GroupForFirst(s, n, ps);
      }
    }
  }

  /** The pages after one more notary: its page is opened if missing, then it and its payments join it. */
  function WithNotary(byCpf: map<string, Group>, n: Notary, ps: seq<Payment>): map<string, Group> {
    var g := if n.responsibleCpf in byCpf then byCpf[n.responsibleCpf]
             else Group(n.responsibleCpf, n.responsibleName, [], []);
    byCpf[n.responsibleCpf := g.(notaries := g.notaries + [n], payments := g.payments + PaymentsOf(ps, n.id))]
  }

  /** The opening order after one more notary. */
  function WithCpf(order: seq<string>, byCpf: map<string, Group>, n: Notary): seq<string> {
    if n.responsibleCpf in byCpf then order else order + [n.responsibleCpf]
  }

  lemma GroupingStep(sel: seq<Notary>, i: nat, ps: seq<Payment>, order: seq<string>, byCpf: map<string, Group>)
    requires i < |sel| && GroupingState(sel[..i], ps, order, byCpf)
    ensures GroupingState(sel[..i + 1], ps, WithCpf(order, byCpf, sel[i]), WithNotary(byCpf, sel[i], ps))
  {
    var n := sel[i];
    PrefixStep(sel, i);
    if n.responsibleCpf in byCpf {
      GroupingStepSeen(sel[..i], n, sel[..i + 1], ps, order, byCpf, WithNotary(byCpf, n, ps));
    } else {
      assert [] + [n] == [n] && [] + PaymentsOf(ps, n.id) == PaymentsOf(ps, n.id);
      GroupingStepNew(sel[..i], n, sel[..i + 1], ps, order, byCpf, WithNotary(byCpf, n, ps));
    }
  }

  /**
   * `groupedReports`: walks the selected notaries once, opening a page the
   * first time a CPF is seen and appending the notary and its payments to the
   * page of its CPF; the pages come out in the order they were opened.
   */
  method GroupReports(notaries: seq<Notary>, selection: set<string>, payments: seq<Payment>)
    returns (groups: seq<Group>)
    ensures groups == GroupedReports(SelectedList(notaries, selection), payments)
  {
    var selected := SelectedList(notaries, selection);
    var byCpf: map<string, Group> := map[];
    var order: seq<string> := [];
    var i := 0;
    while i < |selected|
      invariant 0 <= i <= |selected|
      invariant GroupingState(selected[..i], payments, order, byCpf)
    {
      GroupingStep(selected, i, payments, order, byCpf);
      order, byCpf := WithCpf(order, byCpf, selected[i]), WithNotary(byCpf, selected[i], payments);
      i := i + 1;
    }
    assert selected[..|selected|] == selected;
    groups := seq(|order|, k requires 0 <= k < |order| => byCpf[order[k]]);
    GroupingDone(selected, payments, order, byCpf, groups);
  }


  lemma PrefixStep<T>(s: seq<T>, i: int)
    requires 0 <= i < |s|
    ensures s[..i + 1] == s[..i] + [s[i]]
  {
  }

  lemma GroupingDone(s: seq<Notary>, ps: seq<Payment>, order: seq<string>, byCpf: map<string, Group>,
                     groups: seq<Group>)
    requires GroupingState(s, ps, order, byCpf)
    requires |groups| == |order| && forall k :: 0 <= k < |order| ==> groups[k] == byCpf[order[k]]
    ensures groups == GroupedReports(s, ps)
  {
  }

  /** There are as many pages as distinct CPFs among the selected notaries. */
  lemma GroupCount(sel: seq<Notary>, ps: seq<Payment>)
    ensures |GroupedReports(sel, ps)| == |set n | n in sel :: n.responsibleCpf|
  {
    var cpfs := DistinctCpfs(sel);
    DistinctCardinality(cpfs);
    assert (set c | c in cpfs) == (set n | n in sel :: n.responsibleCpf) by {
      forall c | c in cpfs
        ensures c in (set n | n in sel :: n.responsibleCpf)
      {
        var i :| 0 <= i < |sel| && Map(sel, CpfOf)[i] == c;
        assert sel[i] in sel;
      }
      forall n | n in sel
        ensures n.responsibleCpf in cpfs
      {
        var i :| 0 <= i < |sel| && sel[i] == n;
        assert Map(sel, CpfOf)[i] == n.responsibleCpf;
      }
    }
  }

  lemma {:induction false} PaymentsOfAllMembers(ms: seq<Notary>, ps: seq<Payment>)
    ensures forall p :: p in PaymentsOfAll(ms, ps) <==> p in ps && exists m :: m in ms && m.id == p.notaryId
  {
    if ms != [] {
      var init, last := ms[..|ms| - 1], ms[|ms| - 1];
      PaymentsOfAllMembers(init, ps);
      assert ms == init + [last];
      forall p
        ensures p in PaymentsOfAll(ms, ps) <==> p in ps && exists m :: m in ms && m.id == p.notaryId
      {
        if p in ps && exists m :: m in ms && m.id == p.notaryId {
          var m :| m in ms && m.id == p.notaryId;
          if m != last {
            assert m in init;
          }
        }
      }
    }
  }

  /** Every selected notary of the `j`-th CPF has one of the `i`-th before it. */
  lemma CpfsInSelectionOrder(sel: seq<Notary>, i: int, j: int, b: int)
    requires 0 <= i < j < |DistinctCpfs(sel)| && 0 <= b < |sel|
    requires sel[b].responsibleCpf == DistinctCpfs(sel)[j]
    ensures exists a :: 0 <= a < b && sel[a].responsibleCpf == DistinctCpfs(sel)[i]
  {
    var cpfs, m := DistinctCpfs(sel), Map(sel, CpfOf);
    var a :| 0 <= a < |m| && m[a] == cpfs[i] && cpfs[j] !in m[..a + 1];
    assert a < b;
    assert sel[a].responsibleCpf == cpfs[i];
  }

  /**
   * The pages follow the selection: any selected notary of a later page comes
   * after some notary of every earlier page, and each page lists its notaries
   * in selection order.
   */
  lemma GroupedReportsOrder(sel: seq<Notary>, ps: seq<Payment>)
    ensures forall g :: g in GroupedReports(sel, ps) ==> IsSubsequence(g.notaries, sel)
    ensures forall i, j, b ::
              0 <= i < j < |GroupedReports(sel, ps)| && 0 <= b < |sel| &&
              sel[b].responsibleCpf == GroupedReports(sel, ps)[j].responsibleCpf ==>
                exists a :: 0 <= a < b && sel[a].responsibleCpf == GroupedReports(sel, ps)[i].responsibleCpf
  {
    var gs, cpfs := GroupedReports(sel, ps), DistinctCpfs(sel);
    forall g | g in gs
      ensures IsSubsequence(g.notaries, sel)
    {
      var k :| 0 <= k < |gs| && gs[k] == g;
      FilterIsSubsequence(sel, HasCpf(cpfs[k]));
    }
    forall i, j, b | 0 <= i < j < |gs| && 0 <= b < |sel| && sel[b].responsibleCpf == gs[j].responsibleCpf
      ensures exists a :: 0 <= a < b && sel[a].responsibleCpf == gs[i].responsibleCpf
    {
      assert gs[i].responsibleCpf == cpfs[i] && gs[j].responsibleCpf == cpfs[j];
      CpfsInSelectionOrder(sel, i, j, b);
    }
  }

  /**
   * Every page holds the selected notaries of its CPF and, whatever their
   * reference year, exactly the payments made to one of them; the pages have
   * distinct CPFs and every selected notary is on one.
   */
  lemma GroupedReportsSpec(sel: seq<Notary>, ps: seq<Payment>)
    ensures forall i, j :: 0 <= i < j < |GroupedReports(sel, ps)| ==>
              GroupedReports(sel, ps)[i].responsibleCpf != GroupedReports(sel, ps)[j].responsibleCpf
    ensures forall g, n :: g in GroupedReports(sel, ps) ==>
              (n in g.notaries <==> n in sel && n.responsibleCpf == g.responsibleCpf)
    ensures forall g, p :: g in GroupedReports(sel, ps) ==>
              (p in g.payments <==> p in ps && exists m :: m in g.notaries && m.id == p.notaryId)
    ensures forall g :: g in GroupedReports(sel, ps) ==>
              g.notaries != [] && g.responsibleName == g.notaries[0].responsibleName
    ensures forall n :: n in sel ==> exists g :: g in GroupedReports(sel, ps) && n in g.notaries
  {
    var gs, cpfs := GroupedReports(sel, ps), DistinctCpfs(sel);
    forall g | g in gs
      ensures forall p :: p in g.payments <==> p in ps && exists m :: m in g.notaries && m.id == p.notaryId
      ensures g.notaries != [] && g.responsibleName == g.notaries[0].responsibleName
    {
      var k :| 0 <= k < |gs| && gs[k] == g;
      PaymentsOfAllMembers(Members(sel, cpfs[k]), ps);
      InDistinctCpfs(sel, cpfs[k]);
    }
    forall n | n in sel
      ensures exists g :: g in gs && n in g.notaries
    {
      InDistinctCpfs(sel, n.responsibleCpf);
      assert n in Members(sel, n.responsibleCpf);
      var k :| 0 <= k < |cpfs| && cpfs[k] == n.responsibleCpf;
      assert gs[k] in gs;
    }
  }

  lemma TwoPaymentsSplit(a: Notary, b: Notary, pa: Payment, pb: Payment)
    requires a.id != b.id && pa.notaryId == a.id && pb.notaryId == b.id
    ensures PaymentsOf([pa, pb], a.id) == [pa]
    ensures PaymentsOf([pa, pb], b.id) == [pb]
  {
    var ps := [pa, pb];
    assert ps[1..] == [pb] && [pb][1..] == [];
    assert OfNotary(a.id)(pa) && !OfNotary(a.id)(pb);
    assert OfNotary(b.id)(pb) && !OfNotary(b.id)(pa);
    assert Filter([pb], OfNotary(a.id)) == [];
    assert PaymentsOf(ps, a.id) == [pa] + [];
    assert Filter([pb], OfNotary(b.id)) == [pb] + [];
  }

  lemma TwoNotariesGroup(a: Notary, b: Notary, pa: Payment, pb: Payment)
    requires a.responsibleCpf == b.responsibleCpf && a.id != b.id
    requires pa.notaryId == a.id && pb.notaryId == b.id
    ensures GroupFor([a] + [b], a.responsibleCpf, [pa, pb]) ==
              Group(a.responsibleCpf, a.responsibleName, [a, b], [pa, pb])
  {
    var cpf, ps := a.responsibleCpf, [pa, pb];
    TwoPaymentsSplit(a, b, pa, pb);
    GroupForFirst([], a, ps);
    assert [] + [a] == [a];
    var g := GroupFor([a], cpf, ps);
    assert g == Group(cpf, a.responsibleName, [a], [pa]);
    assert Members([a], cpf) == g.notaries;
    GroupForNext([a], b, ps);
    assert [pa] + [pb] == ps;
  }

  lemma TwoNotariesOneCpf(a: Notary, b: Notary)
    requires a.responsibleCpf == b.responsibleCpf
    ensures DistinctCpfs([a, b]) == [a.responsibleCpf]
  {
    assert [] + [a] == [a];
    assert [a] + [b] == [a, b];
    DistinctCpfsAppend([], a);
    DistinctCpfsAppend([a], b);
  }

  lemma TwoPaymentsGross(pa: Payment, pb: Payment)
    ensures TotalGross([pa, pb]) == pa.grossValue + pb.grossValue
  {
    assert [pa, pb][1..] == [pb] && [pb][1..] == [];
    assert TotalGross([pb]) == Gross(pb) + TotalGross([]);
  }

  /** Two selected notaries of one responsible person make one page with the payments of both. */
  lemma TwoNotariesOnePage(a: Notary, b: Notary, pa: Payment, pb: Payment)
    requires a.responsibleCpf == b.responsibleCpf && a.id != b.id
    requires pa.notaryId == a.id && pb.notaryId == b.id
    requires pa.grossValue == 1000.0 && pb.grossValue == 2000.0
    ensures GroupedReports([a, b], [pa, pb]) == [Group(a.responsibleCpf, a.responsibleName, [a, b], [pa, pb])]
    ensures TotalGross(GroupedReports([a, b], [pa, pb])[0].payments) == 3000.0
  {
    var cpf, ps := a.responsibleCpf, [pa, pb];
    TwoNotariesOneCpf(a, b);
    TwoNotariesGroup(a, b, pa, pb);
    assert [a] + [b] == [a, b];
    var gs := GroupedReports([a, b], ps);
    assert |gs| == 1 && gs[0] == GroupFor([a, b], cpf, ps);
    assert gs == [gs[0]];
    TwoPaymentsGross(pa, pb);
  }

}
