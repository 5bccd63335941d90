/**
 * The withholding table administration (IrrfSettings.tsx): the list of
 * years, the brackets of the active year and the bracket form, with the
 * create, update and delete operations on the list.
 */
module IrrfSettings {
  import opened Types
  import opened Seqs
  import opened Sorting

  /**
   * A form box as the handlers see it: empty, a text `parseFloat` reads as the
   * number `v`, or a non-empty text it reads as NaN.
   */
  datatype FieldText = Blank | Numeric(v: real) | NonNumeric

  datatype BracketForm = BracketForm(min: FieldText, max: FieldText, rate: FieldText, deduction: FieldText)

  const EmptyForm := BracketForm(Blank, Blank, Blank, Blank)

  /** What a valid form submits: `max` already a ceiling, `rate` as a fraction. */
  datatype Payload = Payload(min: real, max: Ceiling, rate: real, deduction: real)

  /** `formData.max ? parseFloat(formData.max) : null`. */
  function CeilingOf(t: FieldText): Ceiling {
    match t
    case Blank => Open
    case Numeric(v) => UpTo(v)
    case NonNumeric => NotANumber
  }

  /** The checks of `handleSubmit`: min, rate and deduction must be numbers; the rate is entered in percent. */
  function Validate(f: BracketForm): Option<Payload> {
    if f.min.Numeric? && f.rate.Numeric? && f.deduction.Numeric? then
      Some(Payload(f.min.v, CeilingOf(f.max), f.rate.v / 100.0, f.deduction.v))
    else None
  }

  /** `handleEdit`'s form: an open ceiling shows as an empty box, the rate in percent. */
  function EditForm(b: Bracket): BracketForm {
    BracketForm(Numeric(b.min),
                match b.max
                case Open => Blank
                case UpTo(m) => Numeric(m)
                case NotANumber => NonNumeric,
                Numeric(b.rate * 100.0),
                Numeric(b.deduction))
  }

  /**
   * A form is rejected exactly when min, rate or deduction is not a number;
   * an empty maximum becomes an open bracket, and the rate is divided by 100.
   */
  lemma ValidateSpec(f: BracketForm)
    ensures Validate(f).None? <==> !f.min.Numeric? || !f.rate.Numeric? || !f.deduction.Numeric?
    ensures Validate(f).Some? ==>
              Validate(f).value.min == f.min.v && Validate(f).value.deduction == f.deduction.v &&
              Validate(f).value.rate * 100.0 == f.rate.v &&
              (Validate(f).value.max == Open <==> f.max == Blank)
  {
  }

  /** Editing a bracket and submitting the form unchanged gives back its values. */
  lemma EditSubmitRoundTrip(b: Bracket)
    ensures Validate(EditForm(b)) == Some(Payload(b.min, b.max, b.rate, b.deduction))
  {
    assert b.rate * 100.0 / 100.0 == b.rate;
  }

  /** The table comparator `a.min - b.min`. */
  predicate MinLe(a: Bracket, b: Bracket) { a.min <= b.min }

  /** The years comparator `a - b`. */
  predicate YearLe(a: int, b: int) { a <= b }

  lemma ComparatorsArePreorders()
    ensures IsTotalPreorder(MinLe) && IsTotalPreorder(YearLe)
  {
  }

  /** `Array.from(new Set(years)).sort(...)`. */
  function DistinctYears(years: seq<int>): seq<int> {
    SortBy(Dedup(years), YearLe)
  }

  /** The year tabs are the fetched years, each once, in ascending order. */
  lemma DistinctYearsSpec(years: seq<int>)
    ensures forall y :: y in DistinctYears(years) <==> y in years
    ensures forall i, j :: 0 <= i < j < |DistinctYears(years)| ==> DistinctYears(years)[i] < DistinctYears(years)[j]
  {
    var d := Dedup(years);
    var r := DistinctYears(years);
    assert forall y :: y in r <==> y in multiset(r);
    ComparatorsArePreorders();
    SortBySorted(d, YearLe);
    DistinctPermutation(d, r);
  }

  /** `Math.max(...availableYears, currentYear) + 1`. */
  function NextYear(years: seq<int>, currentYear: int): int {
    if years == [] then currentYear + 1
    else
      var rest := NextYear(years[1..], currentYear);
      if years[0] + 1 > rest then years[0] + 1 else rest
  }

  /** The added year lies beyond every listed year and the current one, and is one more than one of them. */
  lemma {:induction false} NextYearSpec(years: seq<int>, currentYear: int)
    ensures forall y :: y in years ==> y < NextYear(years, currentYear)
    ensures currentYear < NextYear(years, currentYear)
    ensures NextYear(years, currentYear) - 1 in years || NextYear(years, currentYear) == currentYear + 1
  {
    if years != [] {
      NextYearSpec(years[1..], currentYear);
      assert forall y :: y in years ==> y == years[0] || y in years[1..];
    }
  }

  /** The bracket with id `id` given the submitted values; every other bracket as it was. */
  function Updated(b: Bracket, id: string, p: Payload): Bracket {
    if b.id == id then b.(min := p.min, max := p.max, rate := p.rate, deduction := p.deduction) else b
  }

  function UpdateWith(id: string, p: Payload): Bracket -> Bracket {
    (b: Bracket) => Updated(b, id, p)
  }

  function NotId(id: string): Bracket -> bool {
    (b: Bracket) => b.id != id
  }

  /** JSON has no NaN: a NaN ceiling comes back from the database as null. */
  function Stored(c: Ceiling): Ceiling {
    if c == NotANumber then Open else c
  }

  /** The bracket list after an update: the one bracket changed, the list re-sorted by min. */
  function UpdatedList(bs: seq<Bracket>, id: string, p: Payload): seq<Bracket> {
    SortBy(Map(bs, UpdateWith(id, p)), MinLe)
  }

  /** The bracket list after a create: one bracket more, the list re-sorted by min. */
  function CreatedList(bs: seq<Bracket>, newId: string, p: Payload): seq<Bracket> {
    SortBy(bs + [Bracket(newId, p.min, Stored(p.max), p.rate, p.deduction)], MinLe)
  }

  /**
   * An update keeps every bracket but the edited one as it was, replaces the
   * edited one's four values keeping its id, and leaves the list ordered by min.
   */
  lemma UpdatedListSpec(bs: seq<Bracket>, id: string, p: Payload)
    ensures multiset(UpdatedList(bs, id, p)) == multiset(Map(bs, UpdateWith(id, p)))
    ensures forall i :: 0 <= i < |bs| ==>
              Map(bs, UpdateWith(id, p))[i] == (if bs[i].id == id then Bracket(id, p.min, p.max, p.rate, p.deduction) else bs[i])
    ensures forall i, j :: 0 <= i < j < |UpdatedList(bs, id, p)| ==>
              UpdatedList(bs, id, p)[i].min <= UpdatedList(bs, id, p)[j].min
  {
    ComparatorsArePreorders();
    SortBySorted(Map(bs, UpdateWith(id, p)), MinLe);
  }

  /** A create adds exactly the new bracket and leaves the list ordered by min. */
  lemma CreatedListSpec(bs: seq<Bracket>, newId: string, p: Payload)
    ensures multiset(CreatedList(bs, newId, p)) ==
              multiset(bs) + multiset{Bracket(newId, p.min, Stored(p.max), p.rate, p.deduction)}
    ensures |CreatedList(bs, newId, p)| == |bs| + 1
    ensures forall i, j :: 0 <= i < j < |CreatedList(bs, newId, p)| ==>
              CreatedList(bs, newId, p)[i].min <= CreatedList(bs, newId, p)[j].min
  {
    ComparatorsArePreorders();
    SortBySorted(bs + [Bracket(newId, p.min, Stored(p.max), p.rate, p.deduction)], MinLe);
  }

  /** A delete removes every bracket with the id and keeps the others in order. */
  lemma DeletedSpec(bs: seq<Bracket>, id: string)
    ensures IsSubsequence(Filter(bs, NotId(id)), bs)
    ensures forall b :: b in Filter(bs, NotId(id)) <==> b in bs && b.id != id
  {
    FilterIsSubsequence(bs, NotId(id));
  }

  class Settings {
    var activeYear: int
    var brackets: seq<Bracket>
    var availableYears: seq<int>
    /** `editingId`; `None` is null. */
    var editingId: Option<string>
    var form: BracketForm

    constructor (currentYear: int)
      ensures activeYear == currentYear && brackets == [] && availableYears == [currentYear]
      ensures editingId == None && form == EmptyForm
    {
      activeYear, brackets, availableYears := currentYear, [], [currentYear];
      editingId, form := None, EmptyForm;
    }

    /** The year list fetched from the rows: replaced only when there is at least one year. */
    method ApplyFetchedYears(rowYears: seq<int>)
      modifies this
      ensures availableYears == if |DistinctYears(rowYears)| > 0 then DistinctYears(rowYears) else old(availableYears)
      ensures activeYear == old(activeYear) && brackets == old(brackets)
      ensures editingId == old(editingId) && form == old(form)
    {
      var uniqueYears := DistinctYears(rowYears);
      if |uniqueYears| > 0 {
        availableYears := uniqueYears;
      }
    }

    /** The bracket rows of the active year; a failed query leaves the list as it was. */
    method ApplyFetchedBrackets(rows: seq<Bracket>, ok: bool)
      modifies this
      ensures brackets == if ok then rows else old(brackets)
      ensures activeYear == old(activeYear) && availableYears == old(availableYears)
      ensures editingId == old(editingId) && form == old(form)
    {
      if ok {
        brackets := rows;
      }
    }

    /** `handleCancelEdit`. */
    method CancelEdit()
      modifies this
      ensures editingId == None && form == EmptyForm
      ensures activeYear == old(activeYear) && brackets == old(brackets) && availableYears == old(availableYears)
    {
      editingId := None;
      form := EmptyForm;
    }

    /** `handleEdit`. */
    method Edit(b: Bracket)
      modifies this
      ensures editingId == Some(b.id) && form == EditForm(b)
      ensures activeYear == old(activeYear) && brackets == old(brackets) && availableYears == old(availableYears)
    {
      editingId := Some(b.id);
      form := EditForm(b);
    }

    /** `handleAddYear`: the next year is listed, made active and starts with no brackets. */
    method AddYear(currentYear: int)
      modifies this
      ensures activeYear == NextYear(old(availableYears), currentYear)
      ensures availableYears == SortBy(old(availableYears) + [activeYear], YearLe)
      ensures brackets == [] && editingId == None && form == EmptyForm
    {
      var nextYear := NextYear(availableYears, currentYear);
      availableYears := SortBy(availableYears + [nextYear], YearLe);
      activeYear := nextYear;
      brackets := [];
      CancelEdit();
    }

    /**
     * `handleDelete`: once confirmed and deleted in the database, the bracket
     * leaves the list, and the form is cleared if it was the one being edited.
     */
    method Delete(id: string, confirmed: bool, ok: bool)
      modifies this
      ensures brackets == if confirmed && ok then Filter(old(brackets), NotId(id)) else old(brackets)
      ensures confirmed && ok && old(editingId) == Some(id) ==> editingId == None && form == EmptyForm
      ensures !(confirmed && ok && old(editingId) == Some(id)) ==> editingId == old(editingId) && form == old(form)
      ensures activeYear == old(activeYear) && availableYears == old(availableYears)
    {
      if confirmed && ok {
        brackets := Filter(brackets, NotId(id));
        if editingId == Some(id) {
          CancelEdit();
        }
      }
    }

    /**
     * `handleSubmit`: an invalid form changes nothing. Otherwise, once the
     * database accepts it, the edited bracket is updated (when an id is being
     * edited) or a bracket with the id the database gave is created, the list
     * is re-sorted by min and the form is cleared; a database error changes
     * nothing.
     */
    method Submit(newId: string, ok: bool)
      modifies this
      ensures Validate(old(form)).None? || !ok ==>
                brackets == old(brackets) && editingId == old(editingId) && form == old(form)
      ensures Validate(old(form)).Some? && ok ==>
                editingId == None && form == EmptyForm &&
                brackets == if old(editingId).Some? && old(editingId).value != ""
                            then UpdatedList(old(brackets), old(editingId).value, Validate(old(form)).value)
                            else CreatedList(old(brackets), newId, Validate(old(form)).value)
      ensures activeYear == old(activeYear) && availableYears == old(availableYears)
    {
      var payload := Validate(form);
      if payload.None? || !ok {
        return;
      }
      var p := payload.value;
      if editingId.Some? && editingId.value != "" {
        brackets := UpdatedList(brackets, editingId.value, p);
      } else {
        brackets := CreatedList(brackets, newId, p);
      }
      CancelEdit();
    }
  }

  /** After adding a year the tabs are in ascending order and hold the old years and the new one, which is the largest. */
  lemma AddedYearsSpec(years: seq<int>, currentYear: int)
    ensures var n := NextYear(years, currentYear);
            var r := SortBy(years + [n], YearLe);
            (forall i, j :: 0 <= i < j < |r| ==> r[i] <= r[j]) &&
            (forall y :: y in r <==> y in years || y == n) &&
            (forall y :: y in r ==> y <= n)
  {
    var n := NextYear(years, currentYear);
    var r := SortBy(years + [n], YearLe);
    ComparatorsArePreorders();
    SortBySorted(years + [n], YearLe);
    NextYearSpec(years, currentYear);
    assert forall y :: y in r <==> y in multiset(years + [n]);
  }
}
