# Rental dashboard core, modelled in Dafny

The dashboard is a Next.js front end to a car-rental REST API. It has pages for vehicles, reservations, customers, status history and stock, plus a generic create/edit form modal. The server holds every business rule. What the front end itself computes is modelled here and proved correct:

- **Reservations** (`reservas.dfy`):
  - the quote computed on submit: days started between the two dates multiplied by the vehicle's daily rate;
  - the record the form submits, with its defaults;
  - which of Confirm and Cancel a row offers;
  - the status badge colours.
- **Vehicles** (`veiculos.dfy`):
  - the three-stage list filter: a case-insensitive search over plate, brand and model, then exact status, then exact brand;
  - the brand list of the brand filter;
  - the submitted record;
  - the badge colours.
- **Form modal** (`crud_modal.dfy`):
  - the keyed form record, edited one field at a time; checkboxes are stored as `'true'`/`'false'`;
  - per-field search terms and the searchable select's option filter;
  - the reset on opening, and what submitting and cancelling do.
  - The modal is a `class`: its state changes in place, so its methods carry `modifies` and `old` contracts.
- **Customers** (`clientes.dfy`): a CPF (Brazilian taxpayer number) is reduced to its digits. Empty coordinates of an address are sent as null.
- **Status history** (`historico.dfy`): the entries of the selected vehicle, or all entries; the badge colours; the cell fallbacks.
- **Stock** (`estoque.dfy`):
  - the loop that gathers the stock list store by store;
  - the submitted record and the badge colours;
  - the stock page's wiring of the form modal (see Findings).
- **Shared modules:**
  - `js_values.dfy`: JavaScript values, truthiness and `||`;
  - `text.dfy`: ASCII lower-casing, `includes`, the shortened ID column;
  - `seqs.dfy`: an order-preserving filter and first-occurrence de-duplication, with their lemmas;
  - `badges.dfy`: the badge class strings.

How the model represents the browser's inputs:

- Values the browser supplies are parameters:
  - a form field's content is a `JsValues.Value`;
  - `new Date(v).getTime()` is a function `timeOf` to integer milliseconds;
  - `parseInt`/`parseFloat` are the `NumberParsers` functions;
  - each API response is a given `Option` of its `data`.
- Money is integer cents.

## Model

| member | source | states |
|---|---|---|
| JsValues.Or | app/estoque/page.tsx:50 | `a \|\| b` is `a` when `a` is truthy and `b` when it is not; the result is truthy iff either operand is |
| JsValues.OptionalFloat | app/veiculos/page.tsx:84-85 | an empty (falsy) coordinate becomes null; any other one is parsed |
| Text.Lower | components/crud-modal.tsx:83-85 | lower-casing keeps the length, turns each upper-case ASCII letter into its lower-case letter (code + 32) and keeps every other character |
| Text.ContainsIffOccurs | components/crud-modal.tsx:85 | `includes` holds exactly when the term occurs at some position of the text |
| Text.ContainsEmpty | components/crud-modal.tsx:84-85 | every text includes the empty term |
| Text.ShortId | app/veiculos/page.tsx:306 | the ID column is the first 8 characters (all of a shorter ID) followed by `...` |
| Seqs.Filter | app/veiculos/page.tsx:45-58 | `Array.filter` keeps only elements satisfying the predicate and is no longer than its input |
| Seqs.FilterIsSubseq | app/veiculos/page.tsx:45-58 | `Array.filter` keeps elements in their original order |
| Seqs.FilterCount | app/veiculos/page.tsx:45-58 | `Array.filter` keeps every occurrence of each passing element and none of a failing one |
| Seqs.FilterKeepsAll | app/clientes/page.tsx:39 | when every element passes, the filter returns its input |
| Seqs.FilterIdempotent | app/clientes/page.tsx:39 | filtering twice by the same predicate equals filtering once |
| Seqs.SubseqTrans | app/veiculos/page.tsx:41-59 | a subsequence of a subsequence is a subsequence, which chains the filter stages |
| Seqs.Dedup | app/veiculos/page.tsx:138 | `Array.from(new Set(xs))` holds each element of `xs` exactly once and nothing else |
| Seqs.FirstIndex | app/veiculos/page.tsx:138 | the first position of an element that occurs |
| Seqs.DedupFirstOccurrenceOrder | app/veiculos/page.tsx:138 | `new Set` keeps first-occurrence order |
| Veiculos.FindVehicle | app/reservas/page.tsx:52 | `find` by ID gives the first vehicle with that ID, or nothing exactly when no vehicle has it |
| Veiculos.FilterVehicles | app/veiculos/page.tsx:40-62 | the shown list is an order-preserving subsequence of all vehicles; it holds each vehicle passing every active filter (search, status, brand) with its full multiplicity and no other vehicle; with no filter set it is the whole list |
| Veiculos.SearchCaseInsensitive | app/veiculos/page.tsx:43-50 | two search terms that lower-case alike pass the same vehicles, so the search ignores case |
| Veiculos.NarrowStage | app/veiculos/page.tsx:43-59 | filtering by stage k's test a list already narrowed by the stages before it leaves the vehicles passing stages 1..k, in order and with multiplicity |
| Veiculos.SkipStage | app/veiculos/page.tsx:43-59 | an unset filter's stage is skipped without changing which vehicles the list holds |
| Veiculos.Brands | app/veiculos/page.tsx:138 | `veiculos.map(v => v.marca)`, position by position |
| Veiculos.UniqueBrands | app/veiculos/page.tsx:138 | the brand options are distinct, are exactly the brands present, and come in order of first appearance |
| Veiculos.VehicleSubmitData | app/veiculos/page.tsx:76-91 | text fields are copied; year and doors are `parseInt`, rate and mileage `parseFloat`; an empty image URL is sent as `''`; an empty coordinate is sent as null and any other one as its `parseFloat` |
| Veiculos.StatusColor | app/veiculos/page.tsx:140-157 | an unknown status is gray |
| Veiculos.StatusColorsDistinct | app/veiculos/page.tsx:140-157 | the six statuses have six different colours, none of them gray |
| CrudModal.FinalValue | components/crud-modal.tsx:54-59 | a checkbox stores `'true'` iff it is checked and `'false'` iff it is not; other inputs store their text |
| CrudModal.ApplyChange | components/crud-modal.tsx:61-64 | the new record has the changed key set to the new value and every other key unchanged |
| CrudModal.CheckboxShowsWhatWasClicked | components/crud-modal.tsx:182 | after a checkbox change the box shows checked exactly when it was ticked |
| CrudModal.InitialForm | components/crud-modal.tsx:42 | `initialData \|\| {}` |
| CrudModal.SearchTerm | components/crud-modal.tsx:83 | a field's term is its lower-cased search text, or `''` when none was typed |
| CrudModal.FilteredOptions | components/crud-modal.tsx:81-86 | no options give `[]`; an empty term gives all options; otherwise the options whose lower-cased label includes the term, in order, each as often as it occurs in the options, and no other option |
| CrudModal.OptionSearchCaseInsensitive | components/crud-modal.tsx:83-85 | search texts that lower-case alike list the same options |
| CrudModal.SearchInputIsPerField | components/crud-modal.tsx:74-79 | typing in one field's search box does not change another field's options |
| CrudModal.PickShowsAllOptions | components/crud-modal.tsx:134-137 | after a pick the field's term is `''`, so it lists every option again |
| CrudModal.FailureMessage | components/crud-modal.tsx:98 | a thrown `Error` shows its message; anything else shows `Erro ao salvar` |
| CrudModal.Modal.constructor | components/crud-modal.tsx:42-45 | the form starts from the initial data (or `{}`), not loading, no error, no search terms |
| CrudModal.Modal.Reset | components/crud-modal.tsx:47-51 | on open or new data the form becomes the initial data (or `{}`), the error `''` and the search terms empty |
| CrudModal.Modal.HandleChange | components/crud-modal.tsx:53-72 | the form becomes `ApplyChange` of the old form, the error is cleared, nothing else changes |
| CrudModal.Modal.HandleSearchInput | components/crud-modal.tsx:74-79 | only that field's search term changes |
| CrudModal.Modal.PickSearchable | components/crud-modal.tsx:134-137 | a pick applies the change and resets that field's term to `''` |
| CrudModal.Modal.Cancel | components/crud-modal.tsx:205-211 | Cancel closes the modal through `onOpenChange(false)`; without that callback the click throws and nothing changes |
| CrudModal.Modal.HandleSubmit | components/crud-modal.tsx:88-102 | the form is handed to `onSubmit`; on success it is emptied and the modal is closed; on failure the form is kept and the message shown; loading is cleared either way; a missing `onOpenChange` turns a success into that TypeError's message with the modal still open, until the next reset |
| Reservas.CeilDays | app/reservas/page.tsx:50 | the day count is the least `p` with diff ≤ p·DAY and more than (p−1)·DAY; it is 0 exactly for a 0 difference |
| Reservas.CeilDaysUnique | app/reservas/page.tsx:50 | that bound determines the day count |
| Reservas.DailyRateCents | app/reservas/page.tsx:52-53 | the rate of the first vehicle with the ID, 0 when there is none or the ID is not a string |
| Reservas.CalculateReservationValues | app/reservas/page.tsx:45-61 | missing dates or vehicle give period 0 and total 0; otherwise the period bounds the absolute date difference in days and the total is period × daily rate |
| Reservas.QuoteSymmetric | app/reservas/page.tsx:49 | swapping the dates gives the same quote |
| Reservas.SameDayQuoteIsZero | app/reservas/page.tsx:49-50 | equal start and end give period 0 and total 0 |
| Reservas.UnknownVehicleQuote | app/reservas/page.tsx:52-57 | an unknown vehicle gives total 0 while the period is still counted |
| Reservas.FourDayExample | app/reservas/page.tsx:45-58 | four days at 100.00 a day come to 400.00 |
| Reservas.ReservationSubmitData | app/reservas/page.tsx:63-78 | IDs and dates are copied; period and total are the quote of those dates and vehicle; the driver flag is set iff the field is `'true'` or `true`; channel and status default to `WEB` and `PENDENTE_PAGAMENTO` and are never empty |
| Reservas.SubmittedDriverFlagIsCheckbox | app/reservas/page.tsx:75 | the submitted driver flag is what the form's checkbox shows |
| Reservas.DriverCheckboxRoundTrip | app/reservas/page.tsx:75 | ticking or clearing the driver checkbox and submitting sends exactly that state |
| Reservas.CustomActions | app/reservas/page.tsx:207-228 | Confirm is offered iff the status is neither CONFIRMADA nor CANCELADA; Cancel iff it is neither CANCELADA nor FINALIZADA; Confirm comes first |
| Reservas.ActionsPerStatus | app/reservas/page.tsx:207-228 | the offer for each of the five statuses: CANCELADA offers nothing, FINALIZADA only Confirm |
| Reservas.StatusColor | app/reservas/page.tsx:139-154 | an unknown status is gray |
| Reservas.StatusColorsDistinct | app/reservas/page.tsx:139-154 | the five statuses have five different colours; FINALIZADA has the gray of an unknown status |
| Clientes.StripNonDigits | app/clientes/page.tsx:39 | `replace(/\D/g, '')` keeps exactly the digits, each as often as it occurs, in their original order |
| Clientes.StripNonDigitsIdempotent | app/clientes/page.tsx:39 | normalising a normalised CPF changes nothing |
| Clientes.AllDigitCpfUnchanged | app/clientes/page.tsx:39 | an all-digit CPF is sent unchanged |
| Clientes.NormalizeCpf | app/clientes/page.tsx:39 | a string CPF is normalised; an absent one stays absent; a boolean or number has no `replace` and throws |
| Clientes.ClientSubmitData | app/clientes/page.tsx:36-40 | every other field is copied; a string CPF is replaced by its digits; an absent CPF stays absent; a boolean or number CPF throws |
| Clientes.ClientSubmitIdempotent | app/clientes/page.tsx:36-40 | submitting an already submitted record sends the same record |
| Clientes.AddressSubmitData | app/clientes/page.tsx:51-56 | empty coordinates become null and others are parsed; every other field is copied |
| Historico.DisplayedEntries | app/historico/page.tsx:37-39 | no selection shows the whole history; a selection shows exactly that vehicle's entries with their multiplicity, in order |
| Historico.DisplayedEntriesExactly | app/historico/page.tsx:37-38 | an entry is shown iff its vehicle is the selected one |
| Historico.StatusColor | app/historico/page.tsx:41-52 | a status is gray iff it is not DISPONIVEL, ALUGADO or MANUTENCAO |
| Historico.StatusColorsDistinct | app/historico/page.tsx:41-52 | the three coloured statuses differ; RESERVADO, FORA_AREA and EM_USO are gray |
| Historico.VehicleCell | app/historico/page.tsx:102-110 | the cell is `-` iff no vehicle has the entry's vehicle ID; otherwise it is that vehicle's brand and model |
| Historico.DescriptionCell | app/historico/page.tsx:126 | an empty description shows `-`; the cell is never empty |
| Estoque.LoadStock | app/estoque/page.tsx:34-41 | the accumulation loop yields the aggregate of the per-store responses |
| Estoque.AggregateAppend | app/estoque/page.tsx:36-39 | the aggregate of two runs of stores is the first's followed by the second's |
| Estoque.StoreListPosition | app/estoque/page.tsx:36-39 | a store's list sits right after the lists of the stores before it: store order is kept |
| Estoque.AggregateSingle | app/estoque/page.tsx:38 | one store contributes its `data`, or nothing |
| Estoque.AggregateMembership | app/estoque/page.tsx:36-39 | a stock line is listed iff some store's response holds it |
| Estoque.AggregateLength | app/estoque/page.tsx:36-39 | the number of lines listed is the sum of the store list lengths |
| Estoque.NoDataNoStock | app/estoque/page.tsx:36-38 | stores without data contribute nothing, and no stores give an empty list |
| Estoque.StoreCell | app/estoque/page.tsx:139-142 | the store cell is the first matching store's name, or `-` when none matches |
| Estoque.StockSubmitData | app/estoque/page.tsx:46-51 | vehicle and store IDs are copied; quantity is `parseInt`; status defaults to `DISPONIVEL` and is never empty |
| Estoque.StatusColor | app/estoque/page.tsx:89-99 | the stock page colours statuses exactly as the vehicle page does |
| Estoque.StatusColorsDistinct | app/estoque/page.tsx:89-99 | the six statuses have six different colours; anything else is gray |
| Estoque.SaveStockAsWritten | app/estoque/page.tsx:170-205 | a successful save throws `onOpenChange is not a function` after emptying the form; the page's re-render (a new `{}` as `initialData`) resets the modal, which stays open with an empty form and no error |
| Estoque.SaveStock | app/estoque/page.tsx:170-205 | with `onOpenChange` passed, a successful save throws nothing and closes the modal, with an empty form and no error |
| Estoque.CancelStockAsWritten | app/estoque/page.tsx:203 | Cancel throws and the modal stays open |
| Estoque.CancelStock | app/estoque/page.tsx:203 | with `onOpenChange` passed, Cancel closes the modal |

## Left out

- Network I/O is not modelled: every `async` loader and the create, update, delete, confirm and cancel API calls. The API client `lib/api-client.ts` is not part of this model. Fetched lists and responses are given values, and an `onSubmit` is represented by its outcome (`CrudModal.SubmitOutcome`).
- `Promise.all`, `await` ordering, React's batched state updates and re-rendering are not modelled. The stock loop awaits each store in turn, and the model keeps exactly that order.
- `confirm()`, `alert()` and `console.error` are not modelled. Neither is the vehicle page's `handleStatusChange`, which only calls the API and alerts on error.
- `field.onChange` callbacks in `handleChange` (components/crud-modal.tsx:68-71) are not modelled: no core page passes one.
- `CrudModal.Modal.Reset` is not bound to React's dependency tracking. The effect runs whenever `isOpen` changes or the parent passes a new `initialData` object, and the stock page passes `editingItem || {}` (app/estoque/page.tsx:202), a new `{}` on every render when adding; the other pages pass `editingItem` itself. `Estoque.SaveStockAsWritten` and `Estoque.SaveStock` call the reset that follows a save. The model leaves the moment of each reset to the caller.
- API failures never reach the modal as a throw: `apiCall` catches every fetch or HTTP error and returns `{ error }` (lib/api-client.ts:33-37), and the pages do not check it on save. So a save the server rejects takes `CrudModal.Modal.HandleSubmit`'s `Saved` branch: the form is emptied and the modal closed. The failure branches model a throw from the page's own code.
- `Date` parsing, time zones and invalid dates (NaN) are not modelled. `timeOf` gives an integer millisecond count for every value, so a NaN period cannot arise.
- `Reservas.CalculateReservationValues`: `toFixed(2)` and `parseFloat` are replaced by integer cents. The total is period × rate exactly, with no float rounding.
- `parseInt` and `parseFloat` are parameters, so what they return for a given text is not modelled. The `Num` they produce holds an integer (cents, or the parsed integer).
- `Text.Lower`: lower-casing is ASCII only. `toLowerCase` on other letters (accents, for instance) is not modelled.
- Vehicle fields are modelled as strings. The TypeError the filter would raise on a null plate, brand or model is not modelled.
- Range checks on dates or rates, and a confirm/cancel transition table, are not in the model because the code has none. Reversed dates are accepted (`Math.abs`), a same-instant rental is quoted 0 days, and the two buttons are only shown or hidden.
- Pure rendering is not modelled:
  - the client and vehicle name cells of the reservation table;
  - the `criado_em` date in the history table (`toLocaleDateString`);
  - the option labels built with `substring(0, 8)`;
  - the "N veículo(s) encontrado(s)" count;
  - the list/grid switch.
- `Estoque.StatusColorsDistinct` and `Veiculos.StatusColorsDistinct` state distinctness over the six statuses of the vehicle status selector. Other inputs are covered only by the gray default.

## Findings

| source | as written | input that shows it | evidently intended | confidence | as-written member | corrected member |
|---|---|---|---|---|---|---|
| app/estoque/page.tsx:203 | the stock page passes `onClose`, which the modal does not read, and no `onOpenChange`; the modal calls `onOpenChange(false)` after a successful save (components/crud-modal.tsx:95) and on Cancel (components/crud-modal.tsx:208) | any successful save of a stock line: the form is emptied, then the call throws a TypeError; the catch stores its message, which the reset after the page's re-render clears, and the modal stays open with an empty form; Cancel throws and does nothing, and the dialog's own close cannot shut it either | pass `onOpenChange={setModalOpen}` as the other pages do, so a save or Cancel closes the modal | high, by reading; not executed | Estoque.SaveStockAsWritten, Estoque.CancelStockAsWritten | Estoque.SaveStock, Estoque.CancelStock |
