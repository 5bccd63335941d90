# Fund payment management: domain model

This project is a Dafny model of the domain core of a web application. The
application manages payments that a public fund makes to notary offices
(cartórios) for free notarial acts. Those acts are the first and second copies
of civil-registry certificates: a first copy is paid R$ 65.00 and a second copy
R$ 21.00. Income tax (IRRF) is withheld on each payment using a progressive
bracket table.

The model covers:

- The IRRF calculation and the 2025 bracket table.
- The CPF, date and lot formatters.
- The dashboard: headline totals, the monthly series for the chart and the
  status distribution.
- The payment-table filters.
- The grouping behind the income statement (Cédula C): one page per
  responsible CPF, with that CPF's offices and payments.
- The state logic of the new-payment form, the IRRF settings page, the
  status-audit dialog, the access manager, the office form and the settings
  panel.
- The application's list updates after each insert, update and delete, and
  the admin gate in front of the settings area.

Money is a `real` in reais. Every rounding to cents is written out as
half-up rounding (`Utils.RoundCents`). Text is `seq<char>`. JavaScript's
`parseInt` is modelled by `Text.ParseInt`, with `None` standing for `NaN`.

Modules and the source files they model:

| module | source |
|---|---|
| `Types` | `types.ts` |
| `Utils` | `utils.ts` |
| `Constants` | `constants.ts` |
| `Ledger`, `Dashboard` | `components/Dashboard.tsx` |
| `CedulaC` | `components/CedulaCReport.tsx` |
| `PaymentTable` | `components/PaymentTable.tsx` |
| `NewPayment` | `components/NewPaymentModal.tsx` |
| `IrrfSettings` | `components/IrrfSettings.tsx` |
| `StatusAudit` | `components/StatusAuditModal.tsx` |
| `ProfileAccess` | `components/ProfileAccessManager.tsx` |
| `NotaryForm` | `components/NewNotaryModal.tsx` |
| `NotarySettings` | `components/NotarySettings.tsx` |
| `App` | `App.tsx` |
| `Seqs`, `Sorting`, `Text` | the array, sort and string primitives these files use |

Each component's React state becomes a class with one field per piece of
state. Each handler becomes a method whose `modifies` clause names that
class and whose `ensures` gives the whole new state. Computations derived
with `useMemo`, `filter`, `map` and `sort` become functions, proved against
independent specifications. The two loops that accumulate into a dictionary
are methods proved equal to a specification function:
`Dashboard.GroupByPeriod` (the chart's `reduce`) and `CedulaC.GroupReports`
(the statement's `forEach`). The status counting, `Dashboard.StatusDistribution`,
is modelled the same way. Sorting is one stable insertion sort,
`Sorting.SortBy`. It is proved sorted, a permutation and stable, and shown to
be the only stable sorted order. That makes it agree with JavaScript's stable
`Array.prototype.sort`.

## Model

| member | source | states |
|---|---|---|
| `Utils.FormatCpf` | utils.ts:11-14 | the result keeps exactly the digits of the input, in order; with fewer than eleven digits it is the bare digit string |
| `Utils.FormatCpfMask` | utils.ts:11-14 | the result has the `ddd.ddd.ddd-dd` shape exactly when the input holds eleven digits |
| `Utils.FormatCpfIdempotent` | utils.ts:11-14 | formatting a formatted CPF changes nothing |
| `Utils.FormatDate` | utils.ts:16-23 | the empty date gives the empty string; an ISO `YYYY-MM-DD` date gives `DD/MM/YYYY`; any other input falls to the locale branch |
| `Utils.FormatDateRoundTrip` | utils.ts:18-21 | the displayed `DD/MM/YYYY` reads back to the ISO date it came from |
| `Utils.FormatDateInjective` | utils.ts:18-21 | two different ISO dates never display the same |
| `Utils.FormatLote` | utils.ts:25-27 | a month of two or more characters is kept, a one-character month gets one leading `0`, an empty month becomes `00`; then a slash and the year |
| `Utils.FormatLoteParts` | utils.ts:25-27 | the label splits at its slash into the padded month and the year, the year parses back, and a numeric month keeps its value |
| `Utils.RoundCents` | utils.ts:38 | the result is a whole number of cents within half a cent of the input |
| `Utils.FindBracket` | utils.ts:33-35 | the index of the first bracket the gross falls in; none exactly when no bracket matches |
| `Utils.BracketTax` | utils.ts:37-38 | the withheld tax of a bracket is never negative and is a whole number of cents |
| `Utils.BracketTaxNearOwed` | utils.ts:37-38 | the tax is zero when rate times gross does not exceed the deduction, and otherwise within half a cent of the difference |
| `Utils.CalculateIrrf` | utils.ts:29-39 | zero for a non-positive gross or when no bracket matches; otherwise the rounded tax of the first matching bracket; never negative and always whole cents |
| `Utils.CalculateIrrfInBracket` | utils.ts:33-38 | for a positive gross, a bracket that matches when no earlier bracket does is the one found, and the tax is that bracket's tax |
| `Utils.AtMostOneBracket` | utils.ts:33-35 | in a table with ascending, non-overlapping ranges a gross matches at most one bracket |
| `Utils.FindCoveringBracket` | utils.ts:33-35 | in such a table the matching bracket is the one that is found |
| `Utils.BracketTaxMonotone` | utils.ts:37-38 | within one bracket a larger gross never gets less tax |
| `Utils.TaxNeverExceedsGross` | utils.ts:29-39 | with rates between 0 and 1 and non-negative deductions, the tax never exceeds the gross |
| `Constants.Irrf2025` | constants.ts:4-10 | the 2025 table holds five brackets |
| `Constants.Irrf2025Shape` | constants.ts:4-10 | the 2025 table starts at zero and ends open-ended, consecutive brackets adjoin one cent apart, rates rise strictly within [0, 1) and deductions never fall |
| `Constants.Irrf2025WellFormed` | constants.ts:4-10 | the 2025 ranges are non-empty, ascend without overlap, and only the last is open-ended |
| `Constants.BracketOf` | constants.ts:5-9 | the bracket of a whole-cent gross lies in the table and contains that gross |
| `Constants.Irrf2025Covers` | constants.ts:4-10 | for every non-negative whole-cent gross the first matching 2025 bracket is the one `BracketOf` gives |
| `Constants.Tax2025InBracket` | constants.ts:4-10 | the 2025 tax of a whole-cent gross is the tax of its bracket |
| `Constants.Irrf2025FirstBracketFree` | constants.ts:5 | no tax up to R$ 2,259.20 |
| `Constants.Tax2025AtMostGross` | constants.ts:4-10 | the 2025 tax lies between zero and the gross |
| `Constants.Irrf2025Examples` | constants.ts:4-10 | worked values: 2,259.20 and 2,259.21 give 0; 3,000 gives 68.56; 5,000 gives 479; 100,000 gives 26,604 |
| `Constants.Tax2025AcrossBoundary` | constants.ts:5-9 | the tax does not drop when the gross crosses from one bracket into the next |
| `Constants.PiecewiseMonotone` | constants.ts:4-10 | a function that is monotone within each bracket and does not drop at boundaries is monotone overall |
| `Constants.Irrf2025Monotone` | constants.ts:4-10 | under the 2025 table a larger whole-cent gross never gets less tax |
| `Ledger.TotalsAppend` | components/Dashboard.tsx:53-55 | the gross, withheld and net totals of two lists joined are the sums of their totals |
| `Ledger.TotalsOfPermutation` | components/CedulaCReport.tsx:35-37 | totals do not depend on the order of the payments |
| `Ledger.NetTotalIsGrossLessIrrf` | components/CedulaCReport.tsx:35-37 | when every payment's net is gross less tax, so are the totals |
| `Dashboard.DashboardStatsSpec` | components/Dashboard.tsx:52-59 | the headline figures are zero for no payments, add up over joined lists, and do not depend on the order of the payments |
| `Dashboard.PeriodKeyInjective` | components/Dashboard.tsx:65 | different (month, year) pairs never share a chart key |
| `Dashboard.GroupByPeriod` | components/Dashboard.tsx:64-78 | the accumulation loop produces exactly the series specification: one point per key in first-seen order |
| `Dashboard.SeriesSpec` | components/Dashboard.tsx:64-78 | the series has one point per distinct period, each carrying the totals of exactly that period's payments; points come in first-appearance order: every payment of a later point comes after some payment of each earlier point |
| `Dashboard.SeriesAddsUp` | components/Dashboard.tsx:64-78 | summed over the series, gross and tax equal the totals over all payments |
| `Dashboard.PointLeTotalPreorder` | components/Dashboard.tsx:80-83 | the chart comparator (year, then month) is a total preorder |
| `Dashboard.WindowSpec` | components/Dashboard.tsx:85-89 | `6months` keeps the last six points (all when there are fewer); `2025` keeps, in order, exactly the points of 2025; any other range keeps all |
| `Dashboard.ChartDataSpec` | components/Dashboard.tsx:62-92 | the chart is sorted by year, then month; for the full range it is a permutation of the series and adds up to the payments' totals |
| `Dashboard.CountsAddUp` | components/Dashboard.tsx:98-102 | the three status counts add up to the number of payments, a missing status counting as in progress |
| `Dashboard.RoundPercentBounds` | components/Dashboard.tsx:104-108 | a rounded share lies between 0 and 100; it is 0 for a zero count and 100 when the count is the total |
| `Dashboard.StatusDistribution` | components/Dashboard.tsx:94-109 | the counting loop yields the specified count and rounded percentage for each status |
| `Dashboard.DistributionBounds` | components/Dashboard.tsx:94-109 | no payments gives three zeros; each percentage lies in [0, 100] |
| `Dashboard.DistributionNeedNotSumTo100` | components/Dashboard.tsx:104-108 | one payment of each status gives 33 + 33 + 33 = 99 |
| `CedulaC.ChronoLeTotalPreorder` | components/CedulaCReport.tsx:27-33 | the statement comparator (reference month, then date) is a total preorder |
| `CedulaC.SortChronologicallySpec` | components/CedulaCReport.tsx:27-33 | the sorted statement is a permutation of the payments, chronologically sorted, and stable on ties |
| `CedulaC.StatementTotalsIgnoreOrder` | components/CedulaCReport.tsx:35-37 | the statement totals equal those of the unsorted payments |
| `CedulaC.FilteredNotariesSpec` | components/CedulaCReport.tsx:182-189 | the search keeps, in order, exactly the offices whose name or responsible name contains the term ignoring case, or whose responsible CPF contains the term as typed; an empty term keeps all |
| `CedulaC.ToggledSpec` | components/CedulaCReport.tsx:223-231 | toggling removes a selected id and adds an unselected one, leaving the other ids selected as before |
| `CedulaC.Selection.ToggleSelection` | components/CedulaCReport.tsx:223-231 | the selection becomes the toggled set |
| `CedulaC.SelectAllSpec` | components/CedulaCReport.tsx:233-239 | for any list, a listed id ends selected exactly when the selection's size differs from the list's length: then the selection is exactly the listed ids, otherwise (non-empty list) it is cleared |
| `CedulaC.SelectAllTwice` | components/CedulaCReport.tsx:233-239 | on a non-empty list with distinct ids, pressing twice ends with every id selected when the selection started at the list's size, and with none otherwise |
| `CedulaC.SelectAllWithRepeatedIds` | components/CedulaCReport.tsx:233-239 | when two listed notaries share an id, pressing twice always ends with every listed id selected: the selection never gets as large as the list, so it is never cleared |
| `CedulaC.Selection.ToggleSelectAll` | components/CedulaCReport.tsx:233-239 | the selection becomes the select-all result |
| `CedulaC.SelectedListSpec` | components/CedulaCReport.tsx:194 | the selected list holds, in office order, exactly the offices whose id is selected |
| `CedulaC.GroupReports` | components/CedulaCReport.tsx:192-220 | the grouping loop yields exactly the grouped-reports specification |
| `CedulaC.GroupedReportsSpec` | components/CedulaCReport.tsx:199-216 | one group per distinct responsible CPF; each lists exactly the selected offices with that CPF and exactly their payments |
| `CedulaC.GroupedReportsOrder` | components/CedulaCReport.tsx:198-212 | groups come in first-seen order: every selected office of a later group comes after some office of each earlier group; each group lists its offices in selection order |
| `CedulaC.GroupCount` | components/CedulaCReport.tsx:199-219 | there are as many pages as distinct responsible CPFs among the selected offices |
| `CedulaC.TwoNotariesOnePage` | components/CedulaCReport.tsx:199-216 | two offices with the same responsible CPF share one page whose totals add both offices' payments |
| `PaymentTable.ShownOnTabSpec` | components/PaymentTable.tsx:35-45 | a payment is shown exactly when its history type is the one the genre and sub-tab select; complement payments are never shown |
| `PaymentTable.FilteredPaymentsSpec` | components/PaymentTable.tsx:33-57 | the table keeps, in order, exactly the payments passing the tab, search, year and lot filters |
| `PaymentTable.MatchesYearSpec` | components/PaymentTable.tsx:52 | set to a year's text, the year filter passes exactly the payments of that year |
| `PaymentTable.MatchesSearchIgnoresCase` | components/PaymentTable.tsx:47-50 | the search is insensitive to the case of the term |
| `NewPayment.ClampQuantitySpec` | components/NewPaymentModal.tsx:252-268 | a copy count is never negative; a parsed non-negative number is kept; unparsable or negative text becomes 0 |
| `NewPayment.FindNotary` | components/NewPaymentModal.tsx:62-65 | the first office with the chosen id, or none when no office has it |
| `NewPayment.PaymentForm.constructor` | components/NewPaymentModal.tsx:21-40 | the initial form state |
| `NewPayment.PaymentForm.Open` | components/NewPaymentModal.tsx:43-59 | opening on a payment to duplicate copies its office id, period, lot, genre and counts; a fresh opening clears the office and zeroes the counts; the figures stay consistent |
| `NewPayment.PaymentForm.SyncNotary` | components/NewPaymentModal.tsx:62-65 | the office data follows the chosen id; the amounts and the tax stay consistent with the counts and brackets |
| `NewPayment.PaymentForm.SelectNotary` | components/NewPaymentModal.tsx:208 | choosing an office sets the id and then the office data; the amounts and the tax stay consistent with the counts and brackets |
| `NewPayment.PaymentForm.ApplyFetchedBrackets` | components/NewPaymentModal.tsx:72-91 | a non-empty fetched table replaces the brackets, otherwise they stay; the figures are recomputed and every other form field is unchanged |
| `NewPayment.PaymentForm.Recalculate` | components/NewPaymentModal.tsx:94-101 | gross is copies times unit values, tax is the IRRF of that gross, net is their difference |
| `NewPayment.PaymentForm.SetFirstCopies` | components/NewPaymentModal.tsx:252 | the first-copy count becomes the clamped input and gross, tax and net are recomputed from it; the office, period, date, lot, genre, second-copy count and brackets are unchanged |
| `NewPayment.PaymentForm.SetSecondCopies` | components/NewPaymentModal.tsx:268 | the second-copy count becomes the clamped input and gross, tax and net are recomputed from it; the office, period, date, lot, genre, first-copy count and brackets are unchanged |
| `NewPayment.PaymentForm.Submit` | components/NewPaymentModal.tsx:103-140 | without an office nothing is saved; otherwise the new record is handed over, and from a consistent form its gross is the copies' amount, its withholding the table's non-negative tax on that gross and its net the gross less the tax |
| `NewPayment.NewRecordSpec` | components/NewPaymentModal.tsx:107-136 | the record copies the office data, is in progress, has the given id, date, reference month and year, genre, batch and copy counts; its history type is REPASSE, RENDA MINIMA or AJUDA DE CUSTO after the genre (never a complement); its gross is the copies' amount, its withholding the table's tax on it, non-negative whole cents, and its net the gross less that tax |
| `NewPayment.NetNotNegative` | components/NewPaymentModal.tsx:94-101 | under a table with rates in [0, 1] and non-negative deductions the net is never negative |
| `NewPayment.NewRecordListed` | components/NewPaymentModal.tsx:107-111 | each form genre maps to the history type under which the payment table lists it |
| `NewPayment.CopyColumnsAddUp` | components/PaymentTable.tsx:272-277 | the table's first- and second-copy amounts add up to the record's gross |
| `NewPayment.FortyFirstCopies2025` | components/NewPaymentModal.tsx:95-100 | forty first copies under the 2025 table: gross 2,600, tax 25.56, net 2,574.44 |
| `IrrfSettings.ValidateSpec` | components/IrrfSettings.tsx:111-119 | the form is rejected exactly when minimum, rate or deduction is not numeric (blank or not a number); the payload carries the parsed minimum and deduction and the rate divided by 100, and no ceiling exactly when the maximum is blank |
| `IrrfSettings.EditSubmitRoundTrip` | components/IrrfSettings.tsx:93-119 | editing a bracket and submitting unchanged yields that bracket's values |
| `Seqs.Dedup` | components/IrrfSettings.tsx:36 | `Array.from(new Set(s))` holds exactly the elements of `s`, each once, in order of first occurrence: for any two, the earlier one occurs in `s` before the later one first does |
| `IrrfSettings.DistinctYearsSpec` | components/IrrfSettings.tsx:36-39 | the year list holds exactly the stored years, each once, in ascending order |
| `IrrfSettings.NextYearSpec` | components/IrrfSettings.tsx:69-70 | the added year is larger than every known year and than the current year, and is one past the largest of them |
| `IrrfSettings.UpdatedListSpec` | components/IrrfSettings.tsx:139-143 | the result is a permutation of the list with the bracket of that id replaced and the rest kept, sorted by minimum |
| `IrrfSettings.CreatedListSpec` | components/IrrfSettings.tsx:156-163 | creating adds the stored bracket and leaves the list a sorted permutation of old plus new |
| `IrrfSettings.DeletedSpec` | components/IrrfSettings.tsx:84 | deleting removes exactly the brackets with that id, keeping order |
| `IrrfSettings.Settings.constructor` | components/IrrfSettings.tsx:8-20 | the initial page state for the current year |
| `IrrfSettings.Settings.ApplyFetchedYears` | components/IrrfSettings.tsx:27-40 | the year list becomes the distinct stored years, or stays as it was when none is stored |
| `IrrfSettings.Settings.ApplyFetchedBrackets` | components/IrrfSettings.tsx:43-66 | on success the brackets become the fetched rows; on failure they stay |
| `IrrfSettings.Settings.Edit` | components/IrrfSettings.tsx:93-101 | editing loads the bracket into the form and remembers its id |
| `IrrfSettings.Settings.CancelEdit` | components/IrrfSettings.tsx:103-106 | cancelling clears the form and the id |
| `IrrfSettings.Settings.AddYear` | components/IrrfSettings.tsx:68-75 | the next year is added, made active and its brackets emptied |
| `IrrfSettings.AddedYearsSpec` | components/IrrfSettings.tsx:68-75 | after adding, the year list is sorted, holds the old years and the new one, and the new one is the largest |
| `IrrfSettings.Settings.Delete` | components/IrrfSettings.tsx:77-91 | without confirmation or on failure nothing changes; otherwise the bracket is removed, and the form is cleared when it was being edited |
| `IrrfSettings.Settings.Submit` | components/IrrfSettings.tsx:108-171 | invalid input or a failure changes nothing; otherwise an edit updates the list, anything else inserts, and the form is cleared |
| `StatusAudit.SubmitDecisionSpec` | components/StatusAuditModal.tsx:23-33 | submitting is refused exactly for pending with a blank reason; otherwise the status and the reason (only for pending) are saved |
| `StatusAudit.EveryStatusReachable` | components/StatusAuditModal.tsx:35-57 | every status can be saved from the dialog |
| `StatusAudit.AuditDialog.constructor` | components/StatusAuditModal.tsx:13-14 | the dialog starts in progress with an empty reason |
| `StatusAudit.AuditDialog.Sync` | components/StatusAuditModal.tsx:16-21 | opening on a payment loads its status and its reason (empty when missing); otherwise nothing changes |
| `StatusAudit.AuditDialog.Choose` | components/StatusAuditModal.tsx:92 | choosing sets the status only |
| `StatusAudit.AuditDialog.SetReason` | components/StatusAuditModal.tsx:113 | typing sets the reason only |
| `StatusAudit.AuditDialog.Submit` | components/StatusAuditModal.tsx:25-33 | the saved call is the submit decision; the dialog state is unchanged |
| `StatusAudit.ResubmitKeepsStatus` | components/StatusAuditModal.tsx:16-33 | opening a payment and submitting at once saves its own status again |
| `ProfileAccess.ToggledAccessSpec` | components/ProfileAccessManager.tsx:122-130 | toggling removes a listed office and appends an unlisted one, leaving the others |
| `ProfileAccess.ToggledAccessDistinct` | components/ProfileAccessManager.tsx:122-130 | a list without duplicates stays without duplicates |
| `ProfileAccess.ToggleTwiceRestores` | components/ProfileAccessManager.tsx:122-130 | toggling a listed office twice restores the set of listed offices |
| `ProfileAccess.WithRole` | components/ProfileAccessManager.tsx:77 | the profile with that id gets the new role; every other profile and the order are kept |
| `ProfileAccess.AccessRows` | components/ProfileAccessManager.tsx:146-149 | one access row per listed office, in order, all for the user |
| `ProfileAccess.FilteredProfilesSpec` | components/ProfileAccessManager.tsx:169-172 | the search keeps, in order, exactly the profiles whose name or e-mail contains the lower-cased term |
| `ProfileAccess.AccessManager.constructor` | components/ProfileAccessManager.tsx:15-24 | the initial manager state |
| `ProfileAccess.AccessManager.ApplyFetchedProfiles` | components/ProfileAccessManager.tsx:30-71 | on success the profiles are the fetched rows; on failure they stay |
| `ProfileAccess.AccessManager.RoleChange` | components/ProfileAccessManager.tsx:73-96 | on success that profile's role changes; on failure the earlier list is back |
| `ProfileAccess.AccessManager.OpenAccess` | components/ProfileAccessManager.tsx:98-120 | the dialog opens on the profile with its stored office ids |
| `ProfileAccess.AccessManager.ToggleAccess` | components/ProfileAccessManager.tsx:122-130 | the access list becomes the toggled list |
| `ProfileAccess.AccessManager.SaveAccess` | components/ProfileAccessManager.tsx:132-167 | after a successful delete, the access rows are inserted when the list is non-empty; the dialog closes only when every call succeeds |
| `NotaryForm.Changed` | components/NewNotaryModal.tsx:57-59 | a text change sets that field only |
| `NotaryForm.StatusToggled` | components/NewNotaryModal.tsx:65-70 | toggling flips active and inactive and changes nothing else |
| `NotaryForm.StatusToggledTwice` | components/NewNotaryModal.tsx:65-70 | toggling twice restores the form |
| `NotaryForm.DuplicateKeepsOriginalId` | components/NewNotaryModal.tsx:72-78 | as written, the duplicate submitted keeps the original's id |
| `NotaryForm.DuplicateIdCounterexample` | components/NewNotaryModal.tsx:74-77 | a concrete duplicate whose submitted id equals the original's rather than the generated one |
| `NotaryForm.SubmittedSpec` | components/NewNotaryModal.tsx:36-80 | corrected: an edit submits the office unchanged; a duplicate gets the generated id and the original's data with the copy suffix on the name; a new office gets the generated id, active status and state PA |
| `NotaryForm.SubmittedAgree` | components/NewNotaryModal.tsx:74-77 | the written and corrected submissions agree for edits and new offices |
| `NotaryForm.NotaryModal.constructor` | components/NewNotaryModal.tsx:33 | the form starts empty |
| `NotaryForm.NotaryModal.Sync` | components/NewNotaryModal.tsx:36-53 | when opened, the form loads the edited office, the duplicated office, or the initial form |
| `NotaryForm.NotaryModal.Change` | components/NewNotaryModal.tsx:57-59 | the form becomes the changed form |
| `NotaryForm.NotaryModal.ChangeLatitude` | components/NewNotaryModal.tsx:61-63 | the latitude becomes the given value, none for empty input; the rest of the form is unchanged |
| `NotaryForm.NotaryModal.ChangeLongitude` | components/NewNotaryModal.tsx:61-63 | the longitude becomes the given value, none for empty input; the rest of the form is unchanged |
| `NotaryForm.NotaryModal.ToggleStatus` | components/NewNotaryModal.tsx:65-70 | the form becomes the toggled form |
| `NotaryForm.NotaryModal.Submit` | components/NewNotaryModal.tsx:72-80 | the saved office is the corrected submission |
| `NotarySettings.FilteredNotariesSpec` | components/NotarySettings.tsx:25-29 | the search keeps, in order, exactly the offices whose name, comarca or responsible name contains the term ignoring case; an empty term keeps all, and the term's case does not matter |
| `NotarySettings.SettingsPanel.constructor` | components/NotarySettings.tsx:17-23 | the modal starts closed with neither an edit nor a duplicate |
| `NotarySettings.SettingsPanel.NewClick` | components/NotarySettings.tsx:128 | opens the modal with neither an edit nor a duplicate |
| `NotarySettings.SettingsPanel.EditClick` | components/NotarySettings.tsx:31-35 | opens the modal on the office to edit |
| `NotarySettings.SettingsPanel.DuplicateClick` | components/NotarySettings.tsx:37-41 | opens the modal on the office to duplicate |
| `NotarySettings.SettingsPanel.DeleteClick` | components/NotarySettings.tsx:43-47 | deletes only when confirmed |
| `NotarySettings.SettingsPanel.CloseModal` | components/NotarySettings.tsx:49-53 | closes the modal and clears both modes |
| `NotarySettings.SettingsPanel.SaveModal` | components/NotarySettings.tsx:55-62 | an edit updates, anything else adds |
| `App.RowMappersRoundTrip` | App.tsx:93-198 | row to record to payload gives back the row's columns; record to payload to row gives the record with the database id and without the fields the insert does not send |
| `App.PatchedPayments` | App.tsx:172 | the patch renames exactly the payments carrying the temporary id and keeps the list's length and order |
| `App.PatchedNotaries` | App.tsx:204 | the patch renames exactly the offices carrying the temporary id and keeps the list's length and order |
| `App.ReplacedNotary` | App.tsx:215 | every office with the edited id is replaced; others stay in place |
| `App.WithoutNotarySpec` | App.tsx:244 | deleting keeps, in order, exactly the offices without the id, and the id is gone |
| `App.AddPaymentSpec` | App.tsx:148-173 | a new payment with a fresh temporary id ends first under the database's id, the rest unchanged |
| `App.AddNotarySpec` | App.tsx:181-205 | a new office with fresh ids ends last under the database's id, and ids stay unique |
| `App.DuplicateRenamesOriginal` | App.tsx:181-205 | as written, adding a duplicate and patching leaves two rows with the new id and none with the original's |
| `App.DuplicateKeepsOriginal` | App.tsx:181-205 | with the corrected form, the original keeps its id, the duplicate gets the database's id, and ids stay unique |
| `App.SettingsAreaFor` | App.tsx:379-392 | the settings page shows exactly for an administrator, the restricted notice exactly for anyone else |
| `App.AppState.constructor` | App.tsx:22-30 | no payments, no offices, no profile |
| `App.AppState.FetchData` | App.tsx:83-146 | called from a closure of the current render (the profile-update handler): on success both lists are the mapped rows; on failure the mock lists are used when no office was loaded before, otherwise the offices already replaced and the earlier payments stay |
| `App.AppState.FetchOnAuth` | App.tsx:35-74 | when reached from the session check or an auth event, a failed query always replaces both lists with the mocks, whatever was loaded before; a successful one loads the mapped rows |
| `App.AppState.Refetch` | App.tsx:85-144 | the same outcome, judged against the office list the calling closure sees |
| `App.AppState.AddPayment` | App.tsx:148-179 | prepended, then patched when the insert returns an id |
| `App.AppState.AddNotary` | App.tsx:181-211 | appended, then patched when the insert returns an id |
| `App.AppState.UpdateNotary` | App.tsx:213-240 | on success the office is replaced in place and the payments stay; on failure the lists are what `fetchData` gives from the replaced list, with the mock fallback judged on the list before the replacement |
| `App.AppState.DeleteNotary` | App.tsx:242-253 | on success the office is removed and the payments stay; on failure the lists are what `fetchData` gives from the shortened list, with the mock fallback judged on the list before the removal |
| `App.AppState.SetProfile` | App.tsx:66-67 | a found profile becomes the loaded one |
| `App.AppState.Logout` | App.tsx:255-260 | the profile is cleared |
| `Text.ContainsIffOccurs` | components/PaymentTable.tsx:47-50 | `includes` holds exactly when the term occurs at some position |
| `Text.TrimEmptyIffAllSpace` | components/StatusAuditModal.tsx:27 | a trimmed reason is empty exactly when every character is white space |
| `Text.IntToStringRoundTrip` | components/PaymentTable.tsx:52 | a year written as text parses back to itself |
| `Sorting.SortBySorted` | components/CedulaCReport.tsx:27-33 | the sort output is sorted |
| `Sorting.SortByStable` | components/CedulaCReport.tsx:27-33 | equivalent elements keep their relative order |
| `Sorting.StableSortIsSortBy` | components/CedulaCReport.tsx:27-33 | any sorted, stable permutation equals the sort, so the model agrees with a stable engine sort |

## Left out

- Supabase calls, `alert`, `confirm` and `console` are not modelled. Each call's outcome (rows returned, error or not, the user's confirmation) is a method parameter.
- `generateId` and `new Date()` are parameters.
- Rendering, PDF generation, toasts, the map (`GeoMap`), `AuthPage` and `UserProfileModal` are not part of this model.
- `formatCurrency` is not part of this model: it depends on the engine's locale data.
- Asynchronous ordering is not modelled: overlapping requests, state changes that land between an optimistic update and the reply, and the loading flags. Two kinds of stale closure that decide a result are modelled: after a failed update or delete, `fetchData` judges the mock fallback on the office list of the handler's render (`UpdateNotary`, `DeleteNotary`), and the session check and auth subscription registered on mount judge it on the first render's empty list (`FetchOnAuth`).
- `App.AppState.FetchData`: its fallback on the current office list holds only for a caller whose closure sees the current render (the profile-update handler). The session check and every auth event call the first render's closure, which always falls back to the mocks on failure; `App.AppState.FetchOnAuth` models that path.
- `App.tsx` never passes a status-update handler to the payment table (App.tsx:377). The audit dialog's saved call is therefore modelled up to the handler it calls.
- Binary floating point is not modelled. Money and rates are exact rationals, and `Math.round` and `toFixed(2)` are both exact half-up rounding. A value that sits just below a tie in binary can round differently in the engine.
- `Text.Lower` folds case for ASCII and Latin-1 letters only, not the full Unicode `toLowerCase`.
- `Dashboard.PointLe`: a month that does not parse is treated as month 0. The engine's comparator returns `NaN` there, which is an inconsistent comparator with an engine-defined result.
- `CedulaC.GroupReports`: groups are listed in first-insertion order. `Object.values` lists integer-like keys first, so this differs only for a CPF that is a short canonical integer string.
- `CedulaC.ChronoLe`: dates are compared as ISO strings, not through `getTime`. This agrees for well-formed ISO dates only.
- `IrrfSettings.Settings.Submit`: the insert is assumed to return its row. The branch where it returns no data and no error is not modelled.
- `IrrfSettings.Validate`: form fields are abstracted to blank, numeric or non-numeric text, which is all the code observes. A non-numeric maximum is kept as `NaN` and matches no gross.
- `NotaryForm.NotaryModal.ChangeLatitude` and `ChangeLongitude` take the already-parsed number. `parseFloat` is not modelled.
- `PaymentTable.FirstCopyAmount` and `PaymentTable.SecondCopyAmount` carry no contract of their own. `NewPayment.CopyColumnsAddUp` states their property.
- Optional payment fields that no core function reads are not part of this model: the engagement fields and the payment's own municipality label beyond copying.

## Findings

| source | as written | input that shows it | evidently intended | confidence | as-written member | corrected member |
|---|---|---|---|---|---|---|
| components/NewNotaryModal.tsx:74-77 | the submitted office is `{id: notaryToEdit?.id \|\| generateId(), ...formData}`, so `formData.id` overrides the chosen id; a duplicate's form holds the original's id | duplicating any office: the saved copy carries the original's id, and after the post-insert patch (App.tsx:183, 204) both the original and the copy are renamed to the database's id | a duplicate gets a newly generated id and the original is untouched | not executed | `NotaryForm.DuplicateIdCounterexample`, `App.DuplicateRenamesOriginal` | `NotaryForm.SubmittedSpec`, `App.DuplicateKeepsOriginal` |
