/**
 * The notary office form (NewNotaryModal.tsx): how it is filled when it opens
 * to edit, to duplicate or to create an office, how the inputs change it, and
 * the record it submits.
 */
module NotaryForm {
  import opened Types

  /**
   * `formData`, a `Partial<Notary>`: `id` is missing in a new form; the status
   * is always present, since every way of filling the form sets it.
   */
  datatype Form = Form(
    id: Option<string>,
    name: string,
    responsibleName: string,
    code: string,
    ensCode: string,
    responsibleCpf: string,
    comarca: string,
    status: NotaryStatus,
    address: string,
    city: Option<string>,
    state: Option<string>,
    cep: Option<string>,
    phone: Option<string>,
    email: Option<string>,
    latitude: Option<real>,
    longitude: Option<real>)

  /** The text inputs `handleChange` is wired to. */
  datatype TextField =
    | Name | Code | EnsCode | Comarca | Address | City | State | Cep | Phone | Email
    | ResponsibleName | ResponsibleCpf

  /** `initialFormState`. */
  const InitialForm := Form(None, "", "", "", "", "", "", Ativo, "", Some(""), Some("PA"), Some(""), Some(""), Some(""), None, None)

  /** The form as an exact copy of an office (`{ ...notary }`). */
  function FormOf(n: Notary): Form {
    Form(Some(n.id), n.name, n.responsibleName, n.code, n.ensCode, n.responsibleCpf, n.comarca, n.status,
         n.address, n.city, n.state, n.cep, n.phone, n.email, n.latitude, n.longitude)
  }

  /** The suffix a duplicate's name gets. */
  const CopySuffix := " (Cópia)"

  /** The form as the opening effect fills it: edit wins over duplicate, and neither gives a new form. */
  function OpeningForm(toEdit: Option<Notary>, toDuplicate: Option<Notary>): Form {
    if toEdit.Some? then FormOf(toEdit.value)
    else if toDuplicate.Some? then FormOf(toDuplicate.value).(name := toDuplicate.value.name + CopySuffix)
    else InitialForm
  }

  /** The text of an input as the form holds it; a required field always has one. */
  function FieldValue(f: Form, field: TextField): Option<string> {
    match field
    case Name => Some(f.name)
    case Code => Some(f.code)
    case EnsCode => Some(f.ensCode)
    case Comarca => Some(f.comarca)
    case Address => Some(f.address)
    case City => f.city
    case State => f.state
    case Cep => f.cep
    case Phone => f.phone
    case Email => f.email
    case ResponsibleName => Some(f.responsibleName)
    case ResponsibleCpf => Some(f.responsibleCpf)
  }

  /** `handleChange(field, value)`: the named input takes the value and nothing else changes. */
  function Changed(f: Form, field: TextField, value: string): (r: Form)
    ensures FieldValue(r, field) == Some(value)
    ensures forall other :: other != field ==> FieldValue(r, other) == FieldValue(f, other)
    ensures r.id == f.id && r.status == f.status && r.latitude == f.latitude && r.longitude == f.longitude
  {
    match field
    case Name => f.(name := value)
    case Code => f.(code := value)
    case EnsCode => f.(ensCode := value)
    case Comarca => f.(comarca := value)
    case Address => f.(address := value)
    case City => f.(city := Some(value))
    case State => f.(state := Some(value))
    case Cep => f.(cep := Some(value))
    case Phone => f.(phone := Some(value))
    case Email => f.(email := Some(value))
    case ResponsibleName => f.(responsibleName := value)
    case ResponsibleCpf => f.(responsibleCpf := value)
  }

  function Flipped(s: NotaryStatus): NotaryStatus {
    if s == Ativo then Inativo else Ativo
  }

  /** `toggleStatus`: the status switches and nothing else changes. */
  function StatusToggled(f: Form): (r: Form)
    ensures r.status != f.status
    ensures r.(status := f.status) == f
  {
    f.(status := Flipped(f.status))
  }

  /** Two clicks on the status button give back the form. */
  lemma StatusToggledTwice(f: Form)
    ensures StatusToggled(StatusToggled(f)) == f
  {
    var once := StatusToggled(f);
    assert once.status != f.status;
    assert StatusToggled(once).status != once.status;
  }

  /**
   * The record `handleSubmit` builds: the form spread over
   * `{ id: notaryToEdit?.id || generateId() }`, so an id already in the form
   * wins over the chosen one.
   */
  function SubmittedAsWritten(f: Form, editId: Option<string>, generated: string): Notary {
    var chosen := if editId.Some? && editId.value != "" then editId.value else generated;
    Record(f, if f.id.Some? then f.id.value else chosen)
  }

  /** The record the comment above `handleSubmit` describes: the edited office's id, or else a generated one. */
  function Submitted(f: Form, editId: Option<string>, generated: string): Notary {
    Record(f, if editId.Some? && editId.value != "" then editId.value else generated)
  }

  function Record(f: Form, id: string): Notary {
    Notary(id, f.name, f.responsibleName, f.code, f.ensCode, f.responsibleCpf, f.comarca, f.status,
           f.address, f.city, f.state, f.cep, f.phone, f.email, f.latitude, f.longitude)
  }

  /**
   * As written, a duplicate is submitted with the id of the office it was
   * copied from, never with the generated one.
   */
  lemma DuplicateKeepsOriginalId(original: Notary, generated: string)
    ensures SubmittedAsWritten(OpeningForm(None, Some(original)), None, generated).id == original.id
  {
  }

  /** A concrete office for which the as-written submit breaks the promise of a new id. */
  lemma DuplicateIdCounterexample()
    ensures var original := Notary("n1", "Cartório A", "Ana", "001", "E1", "11122233344", "Belém", Ativo, "Rua 1",
                                   None, None, None, None, None, None, None);
            SubmittedAsWritten(OpeningForm(None, Some(original)), None, "tmp9").id != "tmp9"
  {
    var original := Notary("n1", "Cartório A", "Ana", "001", "E1", "11122233344", "Belém", Ativo, "Rua 1",
                           None, None, None, None, None, None, None);
    DuplicateKeepsOriginalId(original, "tmp9");
  }

  /**
   * With the corrected submit: editing an office and saving it unchanged gives
   * back the same office; a duplicate is the original with the generated id
   * and the suffixed name; a new office has the generated id, is active and
   * lies in the state of Pará.
   */
  lemma SubmittedSpec(n: Notary, generated: string)
    ensures n.id != "" ==> Submitted(OpeningForm(Some(n), None), Some(n.id), generated) == n
    ensures Submitted(OpeningForm(None, Some(n)), None, generated) == n.(id := generated, name := n.name + CopySuffix)
    ensures var r := Submitted(OpeningForm(None, None), None, generated);
            r.id == generated && r.status == Ativo && r.state == Some("PA") && r.name == ""
  {
  }

  /** Both submits agree whenever the form carries no id of its own or the edited id. */
  lemma SubmittedAgree(f: Form, editId: Option<string>, generated: string)
    requires f.id.None? || (editId.Some? && editId.value != "" && f.id == editId)
    ensures SubmittedAsWritten(f, editId, generated) == Submitted(f, editId, generated)
  {
  }

  class NotaryModal {
    var form: Form

    constructor ()
      ensures form == InitialForm
    {
      form := InitialForm;
    }

    /** The opening effect; nothing happens while the dialog is closed. */
    method Sync(isOpen: bool, toEdit: Option<Notary>, toDuplicate: Option<Notary>)
      modifies this
      ensures form == if isOpen then OpeningForm(toEdit, toDuplicate) else old(form)
    {
      if isOpen {
        if toEdit.Some? {
          form := FormOf(toEdit.value);
        } else if toDuplicate.Some? {
          form := FormOf(toDuplicate.value).(name := toDuplicate.value.name + CopySuffix);
        } else {
          form := InitialForm;
        }
      }
    }

    method Change(field: TextField, value: string)
      modifies this
      ensures form == Changed(old(form), field, value)
    {
      form := Changed(form, field, value);
    }

    /** `handleNumberChange` for the latitude: an empty input clears it. */
    method ChangeLatitude(value: Option<real>)
      modifies this
      ensures form == old(form).(latitude := value)
    {
      form := form.(latitude := value);
    }

    /** `handleNumberChange` for the longitude. */
    method ChangeLongitude(value: Option<real>)
      modifies this
      ensures form == old(form).(longitude := value)
    {
      form := form.(longitude := value);
    }

    method ToggleStatus()
      modifies this
      ensures form == StatusToggled(old(form))
    {
      form := StatusToggled(form);
    }

    /** `handleSubmit` with the id rule corrected: the record passed to `onSave`. */
    method Submit(toEdit: Option<Notary>, generated: string) returns (saved: Notary)
      ensures saved == Submitted(form, if toEdit.Some? then Some(toEdit.value.id) else None, generated)
    {
      var id := if toEdit.Some? && toEdit.value.id != "" then toEdit.value.id else generated;
      saved := Record(form, id);
    }
  }
}
