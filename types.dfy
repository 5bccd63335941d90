/**
 * The records the fund's front end passes around: payments, notary offices,
 * withholding brackets and user profiles, as declared in types.ts.
 * Strings are `seq<char>`, amounts of money and rates are exact `real`s,
 * optional (`?:`) fields are `Option`s.
 */
module Types {

  datatype Option<+T> = None | Some(value: T) {
    function GetOr(default: T): T {
      match this
      case Some(v) => v
      case None => default
    }
  }

  /** The three workflow stages of a payment (types.ts:17). */
  datatype Status = Pago | Pendente | EmAndamento

  /** The six kinds of disbursement (types.ts:16). */
  datatype HistoryType =
    | AjudaDeCusto | Dea | MesesAnteriores | RendaMinima | Repasse | Complementacao

  /** The three payment genres (types.ts:41). */
  datatype Genre = AtosGratuitos | RendaMinimaGenre | AjudaCusto

  datatype LoteType = Principal | Complementar

  datatype NotaryStatus = Ativo | Inativo

  /**
   * A payment (types.ts:2-44), restricted to the fields the core reads or writes.
   * `status` is optional because rows come from the database untyped and the
   * dashboard defends against a missing status.
   */
  datatype Payment = Payment(
    id: string,
    notaryId: string,
    notaryName: string,
    code: string,
    responsibleName: string,
    cpf: string,
    date: string,
    monthReference: string,
    yearReference: int,
    comarca: string,
    grossValue: real,
    irrfValue: real,
    netValue: real,
    historyType: HistoryType,
    status: Option<Status>,
    pendingReason: Option<string>,
    loteType: Option<LoteType>,
    qtdVia1: Option<int>,
    valVia1: Option<real>,
    qtdVia2: Option<int>,
    valVia2: Option<real>,
    genre: Option<Genre>,
    municipality: Option<string>)

  /** A notary office (types.ts:46-65). */
  datatype Notary = Notary(
    id: string,
    name: string,
    responsibleName: string,
    code: string,
    ensCode: string,
    responsibleCpf: string,
    comarca: string,
    status: NotaryStatus,
    address: string,
    city: Option<string>,
    state: Option<string>,
    cep: Option<string>,
    phone: Option<string>,
    email: Option<string>,
    latitude: Option<real>,
    longitude: Option<real>)

  /**
   * The upper end of a bracket (types.ts:70): `null` is an open top bracket.
   * `NotANumber` is the `NaN` the settings form stores for a non-empty text that
   * does not parse; every comparison with it is false.
   */
  datatype Ceiling = Open | UpTo(limit: real) | NotANumber

  /** A withholding bracket (types.ts:67-73): `rate` is a fraction, `deduction` an amount. */
  datatype Bracket = Bracket(id: string, min: real, max: Ceiling, rate: real, deduction: real)

  datatype Role = Admin | User

  /** A user profile (types.ts:75-81). */
  datatype UserProfile = UserProfile(
    id: string,
    email: string,
    fullName: string,
    avatarUrl: Option<string>,
    role: Role)
}
