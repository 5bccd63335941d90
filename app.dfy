/**
 * The application shell (App.tsx): the payment and office lists it keeps,
 * how database rows become records and records become rows, the optimistic
 * list updates of the add, update and delete handlers, and the administrator
 * gate on the settings page.
 */
module App {
  import opened Types
  import opened Seqs
  import NotaryForm

  /** The columns of a `payments` row other than `id`: what `handleAddPayment` inserts. */
  datatype PaymentColumns = PaymentColumns(
    notary_id: string, notary_name: string, code: string, responsible_name: string, cpf: string,
    date: string, month_reference: string, year_reference: int, comarca: string,
    gross_value: real, irrf_value: real, net_value: real, history_type: HistoryType, status: Option<Status>)

  datatype PaymentRow = PaymentRow(id: string, columns: PaymentColumns)

  /** The columns of a `notaries` row other than `id` and the coordinates: what the notary handlers send. */
  datatype NotaryColumns = NotaryColumns(
    name: string, code: string, ens_code: string, responsible_name: string, responsible_cpf: string,
    comarca: string, status: NotaryStatus, address: string, city: Option<string>, state: Option<string>,
    cep: Option<string>, phone: Option<string>, email: Option<string>)

  datatype NotaryRow = NotaryRow(id: string, columns: NotaryColumns, latitude: Option<real>, longitude: Option<real>)

  /** The payment row mapper of `fetchData`: fifteen columns copied; every other field is left undefined. */
  function PaymentOf(r: PaymentRow): Payment {
    var c := r.columns;
    Payment(r.id, c.notary_id, c.notary_name, c.code, c.responsible_name, c.cpf, c.date, c.month_reference,
            c.year_reference, c.comarca, c.gross_value, c.irrf_value, c.net_value, c.history_type, c.status,
            None, None, None, None, None, None, None, None)
  }

  /** `dbPayment` in `handleAddPayment`. */
  function PaymentPayload(p: Payment): PaymentColumns {
    PaymentColumns(p.notaryId, p.notaryName, p.code, p.responsibleName, p.cpf, p.date, p.monthReference,
                   p.yearReference, p.comarca, p.grossValue, p.irrfValue, p.netValue, p.historyType, p.status)
  }

  /** The notary row mapper of `fetchData`: every column copied, coordinates included. */
  function NotaryOf(r: NotaryRow): Notary {
    var c := r.columns;
    Notary(r.id, c.name, c.responsible_name, c.code, c.ens_code, c.responsible_cpf, c.comarca, c.status,
           c.address, c.city, c.state, c.cep, c.phone, c.email, r.latitude, r.longitude)
  }

  /** `dbNotary` in `handleAddNotary` and `handleUpdateNotary`: no id, no coordinates. */
  function NotaryPayload(n: Notary): NotaryColumns {
    NotaryColumns(n.name, n.code, n.ensCode, n.responsibleName, n.responsibleCpf, n.comarca, n.status,
                  n.address, n.city, n.state, n.cep, n.phone, n.email)
  }

  /**
   * Mapping a row and sending the record back writes the same columns; a
   * record sent and read back is the same record with the database's id and,
   * for a payment, without the fields the insert does not send (pending
   * reason, lot, copy counts and values, genre, municipality), and for an
   * office without its coordinates unless the row has them.
   */
  lemma RowMappersRoundTrip(pr: PaymentRow, p: Payment, nr: NotaryRow, n: Notary, id: string)
    ensures PaymentPayload(PaymentOf(pr)) == pr.columns
    ensures PaymentOf(PaymentRow(id, PaymentPayload(p))) ==
              p.(id := id, pendingReason := None, loteType := None, qtdVia1 := None, valVia1 := None,
                 qtdVia2 := None, valVia2 := None, genre := None, municipality := None)
    ensures NotaryPayload(NotaryOf(nr)) == nr.columns
    ensures NotaryOf(NotaryRow(id, NotaryPayload(n), n.latitude, n.longitude)) == n.(id := id)
    ensures NotaryOf(NotaryRow(id, NotaryPayload(n), None, None)) == n.(id := id, latitude := None, longitude := None)
  {
  }

  function PaymentIds(ps: seq<Payment>): seq<string> {
    Map(ps, (p: Payment) => p.id)
  }

  function NotaryIds(ns: seq<Notary>): seq<string> {
    Map(ns, (n: Notary) => n.id)
  }

  /** The post-insert patch: every payment whose id is the temporary one takes the database's id. */
  function PatchedPayments(ps: seq<Payment>, tempId: string, dbId: string): (r: seq<Payment>)
    ensures |r| == |ps|
    ensures forall i :: 0 <= i < |ps| ==> r[i] == if ps[i].id == tempId then ps[i].(id := dbId) else ps[i]
  {
    Map(ps, (p: Payment) => if p.id == tempId then p.(id := dbId) else p)
  }

  /** The same patch on the office list. */
  function PatchedNotaries(ns: seq<Notary>, tempId: string, dbId: string): (r: seq<Notary>)
    ensures |r| == |ns|
    ensures forall i :: 0 <= i < |ns| ==> r[i] == if ns[i].id == tempId then ns[i].(id := dbId) else ns[i]
  {
    Map(ns, (n: Notary) => if n.id == tempId then n.(id := dbId) else n)
  }

  /** `handleUpdateNotary`'s optimistic update: every office with the edited id is replaced, the rest stay in place. */
  function ReplacedNotary(ns: seq<Notary>, updated: Notary): (r: seq<Notary>)
    ensures |r| == |ns|
    ensures forall i :: 0 <= i < |ns| ==> r[i] == if ns[i].id == updated.id then updated else ns[i]
  {
    Map(ns, (n: Notary) => if n.id == updated.id then updated else n)
  }

  /** `handleDeleteNotary`'s optimistic update. */
  function WithoutNotary(ns: seq<Notary>, id: string): seq<Notary> {
    Filter(ns, (n: Notary) => n.id != id)
  }

  /** Deleting removes every office with the id and keeps the others in their order. */
  lemma WithoutNotarySpec(ns: seq<Notary>, id: string)
    ensures IsSubsequence(WithoutNotary(ns, id), ns)
    ensures forall n :: n in WithoutNotary(ns, id) <==> n in ns && n.id != id
    ensures id !in NotaryIds(WithoutNotary(ns, id))
  {
    FilterIsSubsequence(ns, (n: Notary) => n.id != id);
    var r := WithoutNotary(ns, id);
    forall i | 0 <= i < |r|
      ensures NotaryIds(r)[i] != id
    {
      assert r[i] in r;
    }
  }

  /**
   * A new payment goes first; when its temporary id is used by no other
   * payment, the patch renames exactly it and the rest of the list is
   * unchanged behind it.
   */
  lemma AddPaymentSpec(ps: seq<Payment>, p: Payment, dbId: string)
    requires p.id !in PaymentIds(ps)
    ensures PatchedPayments([p] + ps, p.id, dbId) == [p.(id := dbId)] + ps
  {
    var r := PatchedPayments([p] + ps, p.id, dbId);
    forall i | 1 <= i < |r|
      ensures r[i] == ps[i - 1]
    {
      assert ([p] + ps)[i] == ps[i - 1];
      assert PaymentIds(ps)[i - 1] == ps[i - 1].id;
    }
    assert r == [p.(id := dbId)] + ps;
  }

  /** Ids listed at most once. */
  predicate UniqueIds(ns: seq<Notary>) {
    Distinct(NotaryIds(ns))
  }

  /**
   * A new office goes last; when its temporary id and the database's id are
   * both new to the list, the patch renames exactly it and every id stays
   * unique.
   */
  lemma AddNotarySpec(ns: seq<Notary>, n: Notary, dbId: string)
    requires UniqueIds(ns)
    requires n.id !in NotaryIds(ns) && dbId !in NotaryIds(ns)
    ensures PatchedNotaries(ns + [n], n.id, dbId) == ns + [n.(id := dbId)]
    ensures UniqueIds(PatchedNotaries(ns + [n], n.id, dbId))
  {
    var r := PatchedNotaries(ns + [n], n.id, dbId);
    forall i | 0 <= i < |ns|
      ensures r[i] == ns[i]
    {
      assert (ns + [n])[i] == ns[i];
      assert NotaryIds(ns)[i] == ns[i].id;
    }
    assert r == ns + [n.(id := dbId)];
    var ids := NotaryIds(r);
    forall i, j | 0 <= i < j < |ids|
      ensures ids[i] != ids[j]
    {
      assert ids[i] == NotaryIds(ns)[i];
      if j < |ns| {
        assert ids[j] == NotaryIds(ns)[j];
      } else {
        assert ids[j] == dbId;
      }
    }
  }

  /** The office the corrected form submits for a duplicate of `original`, with generated id `generated`. */
  function CorrectDuplicate(original: Notary, generated: string): Notary {
    NotaryForm.Submitted(NotaryForm.OpeningForm(None, Some(original)), None, generated)
  }

  /** The office the form as written submits for that duplicate. */
  function AsWrittenDuplicate(original: Notary, generated: string): Notary {
    NotaryForm.SubmittedAsWritten(NotaryForm.OpeningForm(None, Some(original)), None, generated)
  }

  /**
   * As written, saving a duplicate of the only office and patching in the
   * database's id renames the original as well: the list ends with two rows
   * with the new id and none with the original's.
   */
  lemma DuplicateRenamesOriginal(original: Notary, generated: string, dbId: string)
    requires dbId != original.id
    ensures var r := PatchedNotaries([original] + [AsWrittenDuplicate(original, generated)], AsWrittenDuplicate(original, generated).id, dbId);
            |r| == 2 && r[0].id == dbId && r[1].id == dbId && original.id !in NotaryIds(r)
  {
    NotaryForm.DuplicateKeepsOriginalId(original, generated);
  }

  /**
   * With the corrected form, a duplicate with a fresh generated id is added
   * beside the original, the original keeps its id, and ids stay unique.
   */
  lemma DuplicateKeepsOriginal(ns: seq<Notary>, original: Notary, generated: string, dbId: string)
    requires UniqueIds(ns)
    requires generated !in NotaryIds(ns) && dbId !in NotaryIds(ns)
    ensures var r := PatchedNotaries(ns + [CorrectDuplicate(original, generated)], generated, dbId);
            r == ns + [CorrectDuplicate(original, dbId)] && UniqueIds(r)
  {
    NotaryForm.SubmittedSpec(original, generated);
    NotaryForm.SubmittedSpec(original, dbId);
    AddNotarySpec(ns, CorrectDuplicate(original, generated), dbId);
  }

  /** `isAdmin`: a loaded profile whose role is administrator. */
  predicate IsAdmin(profile: Option<UserProfile>) {
    profile.Some? && profile.value.role == Admin
  }

  datatype View = DashboardView | PaymentsView | CedulaCView | SettingsView

  /** What the main area shows for the settings view. */
  datatype SettingsArea = NotarySettingsPage | RestrictedNotice | NotSettings

  function SettingsAreaFor(view: View, profile: Option<UserProfile>): (r: SettingsArea)
    ensures r == NotarySettingsPage <==> view == SettingsView && profile.Some? && profile.value.role == Admin
    ensures r == RestrictedNotice <==> view == SettingsView && !(profile.Some? && profile.value.role == Admin)
  {
    if view != SettingsView then NotSettings
    else if IsAdmin(profile) then NotarySettingsPage
    else RestrictedNotice
  }

  /** What the two queries of `fetchData` return: the rows, and whether each query succeeded. */
  datatype FetchOutcome = FetchOutcome(notaryRows: Option<seq<NotaryRow>>, notaryOk: bool,
                                       paymentRows: Option<seq<PaymentRow>>, paymentOk: bool)

  /**
   * The lists after `fetchData`, from the lists before it: on success both are
   * the mapped rows. On a failure the mock lists are loaded when the closure
   * saw no office; otherwise the offices already replaced stay, and so do the
   * payments.
   */
  predicate Fetched(f: FetchOutcome, mockPayments: seq<Payment>, mockNotaries: seq<Notary>, loadedBefore: bool,
                    notaries0: seq<Notary>, payments0: seq<Payment>, notaries: seq<Notary>, payments: seq<Payment>)
  {
    (f.notaryOk && f.paymentOk ==>
       notaries == Map(f.notaryRows.GetOr([]), NotaryOf) && payments == Map(f.paymentRows.GetOr([]), PaymentOf)) &&
    (!(f.notaryOk && f.paymentOk) && !loadedBefore ==>
       notaries == mockNotaries && payments == mockPayments) &&
    (!f.notaryOk && loadedBefore ==>
       notaries == notaries0 && payments == payments0) &&
    (f.notaryOk && !f.paymentOk && loadedBefore ==>
       notaries == Map(f.notaryRows.GetOr([]), NotaryOf) && payments == payments0)
  }

  class AppState {
    var payments: seq<Payment>
    var notaries: seq<Notary>
    var userProfile: Option<UserProfile>

    constructor ()
      ensures payments == [] && notaries == [] && userProfile == None
    {
      payments, notaries, userProfile := [], [], None;
    }

    /**
     * `fetchData`, with the outcome of its two queries and the mock lists as
     * parameters, called from a closure of the current render, as the
     * profile-update handler does through `fetchUserProfile`.
     */
    method FetchData(f: FetchOutcome, mockPayments: seq<Payment>, mockNotaries: seq<Notary>)
      modifies this
      ensures Fetched(f, mockPayments, mockNotaries, old(notaries) != [], old(notaries), old(payments), notaries, payments)
      ensures userProfile == old(userProfile)
    {
      Refetch(f, mockPayments, mockNotaries, |notaries| != 0);
    }

    /**
     * `fetchData` reached from the session check and the auth subscription
     * registered on mount: that `fetchUserProfile` closes over the first
     * render, whose office list is empty, so a failed query always falls back
     * to the mock lists, even over offices loaded since.
     */
    method FetchOnAuth(f: FetchOutcome, mockPayments: seq<Payment>, mockNotaries: seq<Notary>)
      modifies this
      ensures !(f.notaryOk && f.paymentOk) ==> notaries == mockNotaries && payments == mockPayments
      ensures f.notaryOk && f.paymentOk ==>
        notaries == Map(f.notaryRows.GetOr([]), NotaryOf) && payments == Map(f.paymentRows.GetOr([]), PaymentOf)
      ensures userProfile == old(userProfile)
    {
      Refetch(f, mockPayments, mockNotaries, false);
    }

    /**
     * The body of `fetchData`, where `loadedBefore` is whether the office list
     * the closure sees is non-empty; a handler's closure sees the list of the
     * render it was created in.
     */
    method Refetch(f: FetchOutcome, mockPayments: seq<Payment>, mockNotaries: seq<Notary>, loadedBefore: bool)
      modifies this
      ensures Fetched(f, mockPayments, mockNotaries, loadedBefore, old(notaries), old(payments), notaries, payments)
      ensures userProfile == old(userProfile)
    {
      if !f.notaryOk {
        if !loadedBefore {
          payments, notaries := mockPayments, mockNotaries;
        }
        return;
      }
      notaries := Map(f.notaryRows.GetOr([]), NotaryOf);
      if !f.paymentOk {
        if !loadedBefore {
          payments, notaries := mockPayments, mockNotaries;
        }
        return;
      }
      payments := Map(f.paymentRows.GetOr([]), PaymentOf);
    }

    /** `handleAddPayment`: prepended at once, renamed to the database's id once the insert returns one. */
    method AddPayment(p: Payment, dbId: Option<string>)
      modifies this
      ensures payments == if dbId.Some? then PatchedPayments([p] + old(payments), p.id, dbId.value) else [p] + old(payments)
      ensures notaries == old(notaries) && userProfile == old(userProfile)
    {
      payments := [p] + payments;
      if dbId.Some? {
        payments := PatchedPayments(payments, p.id, dbId.value);
      }
    }

    /** `handleAddNotary`: appended at once, renamed to the database's id once the insert returns one. */
    method AddNotary(n: Notary, dbId: Option<string>)
      modifies this
      ensures notaries == if dbId.Some? then PatchedNotaries(old(notaries) + [n], n.id, dbId.value) else old(notaries) + [n]
      ensures payments == old(payments) && userProfile == old(userProfile)
    {
      notaries := notaries + [n];
      if dbId.Some? {
        notaries := PatchedNotaries(notaries, n.id, dbId.value);
      }
    }

    /**
     * `handleUpdateNotary`: the office is replaced at once; when the update
     * fails, `fetchData` runs with the office list of the handler's render,
     * the one before the replacement.
     */
    method UpdateNotary(n: Notary, ok: bool, f: FetchOutcome, mockPayments: seq<Payment>, mockNotaries: seq<Notary>)
      modifies this
      ensures ok ==> notaries == ReplacedNotary(old(notaries), n) && payments == old(payments)
      ensures !ok ==> Fetched(f, mockPayments, mockNotaries, old(notaries) != [],
                              ReplacedNotary(old(notaries), n), old(payments), notaries, payments)
      ensures userProfile == old(userProfile)
    {
      var loadedBefore := |notaries| != 0;
      notaries := ReplacedNotary(notaries, n);
      if !ok {
        Refetch(f, mockPayments, mockNotaries, loadedBefore);
      }
    }

    /**
     * `handleDeleteNotary`: the office is removed at once; when the delete
     * fails, `fetchData` runs with the office list of the handler's render,
     * the one before the removal.
     */
    method DeleteNotary(id: string, ok: bool, f: FetchOutcome, mockPayments: seq<Payment>, mockNotaries: seq<Notary>)
      modifies this
      ensures ok ==> notaries == WithoutNotary(old(notaries), id) && payments == old(payments)
      ensures !ok ==> Fetched(f, mockPayments, mockNotaries, old(notaries) != [],
                              WithoutNotary(old(notaries), id), old(payments), notaries, payments)
      ensures userProfile == old(userProfile)
    {
      var loadedBefore := |notaries| != 0;
      notaries := WithoutNotary(notaries, id);
      if !ok {
        Refetch(f, mockPayments, mockNotaries, loadedBefore);
      }
    }

    /** `fetchUserProfile` with a profile found. */
    method SetProfile(profile: UserProfile)
      modifies this
      ensures userProfile == Some(profile)
      ensures payments == old(payments) && notaries == old(notaries)
    {
      userProfile := Some(profile);
    }

    /** `handleLogout`. */
    method Logout()
      modifies this
      ensures userProfile == None
      ensures payments == old(payments) && notaries == old(notaries)
    {
      userProfile := None;
    }
  }
}
