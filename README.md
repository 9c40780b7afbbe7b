# Inventory loans of magang-final, modelled in Dafny

This project models the core of a school inventory system. The system keeps items (*barang*). An item is either consumable (*habis_pakai*, counted by `stok`) or tracked unit by unit (*tidak_habis_pakai*, a list of units with codes and statuses). Borrowers, who are students (*siswa*) or others (*lainnya*), request loans (*peminjaman*). An administrator approves or rejects a request. Unit loans are later returned unit by unit with a condition, and any loan can be deleted.

The model covers:

- the two Mongoose schemas, as datatypes and validity predicates (`Models`);
- the loan controller:
  - as total step functions over the store (`Loans`);
  - as the handlers themselves, with their loops (`LoanHandlers`);
  - with the properties of both (`LoanProperties`);
- the keyed sequence counter, as a class (`Counter`);
- the item codes `jurusan-ABBREV-NNN` (`Codes`), on top of a small model of the JavaScript string builtins the code uses (`Strings`);
- the item controller: code minting, the update document, the code preview and allocation endpoints, CSV row parsing, the manual unit override and the listing counts (`Catalog`);
- four front-end pieces:
  - the pagination window (`Pagination`);
  - item-form validation and payload (`ItemForm`);
  - the loan-request form (`LoanForm`);
  - the unit editor of the item form, as a class holding the form and its preview counter (`UnitEditor`).

Conventions:

- A handler that works on a local copy and saves at the end is a method, over a `Db` object or a `CounterStore` object. Its postcondition equates the reply and the new state with a step function of the old state, and the properties are lemmas about the step functions.
- A missing request field is `None`, or `""` where JavaScript only tests it for truthiness.
- A `NaN` from `parseInt` is `None`.
- Error replies are the constructors of `LoanError`, `CatalogError`, `ImportProblem` and `AddError`.
- A failed Mongoose save is `ServerError` (500) in the loan handlers and `BadRequest` (400) in `addBarang`, as the respective `catch` blocks answer.
- Ids, the clock (`now`), the id of a newly saved document (`newId`) and the body of the front end's preview request (`peek`) are parameters.

Where the code and its own comments or messages disagree, the model follows the code:

- `returnItem`'s 404 for a missing item cannot be reached. `populate` turns the reference into `null`, so reading `loan.barang._id` throws first, and the reply is a 500 (`ReturnStep`).
- `addBarang` names the blank units' codes with the bare padded number, not with the full `jurusan-ABBREV-NNN`.
- `kembalikanUnit` ("return unit") does not recount `stok_dipinjam`.
- `addBarang` stores whatever `stok_dipinjam` the request body carries, since the schema has a default but no validator for it. A unit-tracked item can thus be saved with a count that disagrees with its units.
- The counter increments made by `addBarang` are not undone when the save fails. The counter is not written inside the session.

## Model

| member | source | states |
|---|---|---|
| Models.ParseUnitStatus | backend/models/Barang.js:9-13 | a unit status is accepted exactly when it is one of tersedia, dipinjam, rusak, hilang, and the accepted value names itself |
| Models.ParseUnitStatusRoundTrip | backend/models/Barang.js:9-13 | every unit status is accepted back from its own name |
| Models.ParseKondisi | backend/models/Barang.js:41-45 | an item status (also a return condition) is accepted exactly when it is tersedia, rusak or hilang |
| Models.ParseJurusan | backend/models/Barang.js:22-26 | jurusan is accepted exactly when it is RPL, DKV or TKJ |
| Models.ParseTipe | backend/models/Barang.js:27-31 | tipe is accepted exactly when it is habis_pakai or tidak_habis_pakai, and habis_pakai maps to the consumable type |
| Models.UnitsValidatorMeaning | backend/models/Barang.js:52-57 | the validator's set-size test holds exactly for a non-empty unit list with pairwise distinct codes |
| Models.CastUnit | backend/models/Barang.js:3-14 | a unit casts exactly when its code is present and not blank and its status is absent or one of the four; the stored code is the trimmed input, non-empty and trimmed |
| Models.CastUnitsPointwise | backend/models/Barang.js:47-48 | a unit array casts exactly when every unit casts, and then each stored unit is its own input cast on its own |
| Models.NewBarang | backend/models/Barang.js:16-76 | a saved item satisfies every rule of the schema, keeps the given name and stock, and stores the body's own stok_dipinjam, 0 when the body has none, without checking it against the units |
| Models.ValidBarang | backend/models/Barang.js:16-76 | the Barang schema's rules; NewBarang, RelabelKeepsValid and OverrideKeepsValid state which documents meet them |
| Models.ParseBorrowerType | backend/models/Peminjaman.js:17-21 | peminjamType is accepted exactly when it is siswa or lainnya |
| Models.UnitKodesValidatorMeaning | backend/models/Peminjaman.js:82-90 | the unitKodes validator holds exactly for a non-empty list without duplicates |
| Models.ValidLoan | backend/models/Peminjaman.js:3-108 | the Peminjaman schema's rules; LoanProperties.NewLoanSaves and the ...KeepsValid lemmas state which documents meet them |
| Counter.CounterStore.Next | backend/utils/getNextCode.js:5-12 | a counter call returns what a peek announced just before it, stores that value under its key and changes no other key |
| Counter.NextValueStartsAtOne | backend/utils/getNextCode.js:15-18 | a peek answers 1 for a new key and the stored value plus one otherwise |
| Counter.NextStrictlyIncreasing | backend/utils/getNextCode.js:6-11 | the next call on a key returns exactly one more than the previous call |
| Counter.AdvanceOtherKeys | backend/utils/getNextCode.js:6-10 | advancing one key leaves the next value of every other key unchanged |
| Counter.NextRunConsecutive | backend/utils/getNextCode.js:5-12 | n successive calls return n consecutive numbers starting at the peeked one and leave the key at the last of them |
| Strings.TrimEmptyIffBlank | backend/controllers/barangController.js:79 | a string trims to the empty (falsy) string exactly when it is all white space |
| Strings.TrimIdempotent | backend/controllers/barangController.js:65-66 | trimming twice is trimming once |
| Strings.TrimmedMeaning | backend/models/Barang.js:4-8 | a trimmed string has no white space at either end, and trimming leaves exactly such strings alone |
| Strings.TrimIsSlice | backend/controllers/barangController.js:65-66 | the trimmed string is a slice of the input whose cut-off ends are all white space and whose own ends are not |
| Strings.Trim | backend/controllers/barangController.js:65-66 | `trim` with the JavaScript white-space set; TrimEmptyIffBlank, TrimIdempotent, TrimmedMeaning and TrimIsSlice state its meaning |
| Strings.DashRunsNoSpace | backend/controllers/barangController.js:67 | replacing each white-space run with "-" leaves no white space |
| Strings.Take | backend/controllers/barangController.js:69 | slicing to n characters gives the prefix of length min(n, length) and never fails |
| Strings.PadZeros | backend/controllers/barangController.js:74 | padding to a width only prepends zeros: the result has that width when shorter and the input unchanged, never truncated, when longer |
| Strings.ParsePaddedNat | frontend/src/components/barangForm.jsx:68 | parseInt of a zero-padded decimal number gives the number back |
| Strings.ParseInt | frontend/src/components/barangForm.jsx:68 | `parseInt(s, 10)`; ParsePaddedNat and RadixMatters state what it reads |
| Strings.PaddedNatInjective | backend/controllers/barangController.js:74 | distinct numbers have distinct padded texts |
| Strings.ParseIntAuto | backend/controllers/barangController.js:258 | parseInt without a radix reads as in base 10 unless 0x or 0X follows the sign, and then fails exactly when no hexadecimal digit follows |
| Strings.ParseIntAutoHex | backend/controllers/barangController.js:292 | a 0x literal reads as its base-16 value, negated after a minus sign |
| Strings.RadixMatters | frontend/src/pages/ManageItemsPage.jsx:100-101 | 0x10 reads as 16 without a radix and as 0 in base 10 |
| Strings.NatTextReads | frontend/src/pages/ManageItemsPage.jsx:100-101 | a decimal number's text is not NaN for isNaN, and parseInt without a radix reads it back |
| Strings.IsNumeric | frontend/src/pages/ManageItemsPage.jsx:100 | `!isNaN(s)`; ItemForm.FormFieldErrors states its use on maxDurasiPinjam |
| Codes.AbbrevShape | backend/controllers/barangController.js:65-69 | the abbreviation has at most three characters and no white space, is empty only for a blank name, and is the upper case of the dashed trimmed name's first characters |
| Codes.AbbrevIgnoresPadding | backend/controllers/barangController.js:65-69 | white space around a name does not change its abbreviation |
| Codes.Abbrev | backend/controllers/barangController.js:65-69 | the abbreviation of a name; AbbrevShape and AbbrevIgnoresPadding state its shape |
| Codes.CounterKey | backend/controllers/barangController.js:70 | the counter key `${jurusan}-${abbrev}`; FullCodeInjective and NextKodeUnitPreview state its use |
| Codes.FullCode | backend/controllers/barangController.js:72-75 | the code `${key}-${seq}`; FullCodeSequenceRoundTrip and FullCodeInjective state its meaning |
| Codes.SeqText | backend/controllers/barangController.js:74 | a formatted sequence number has at least three digits, only digits, and exactly three below 1000 |
| Codes.LastSegment | frontend/src/components/barangForm.jsx:68 | the last segment of a split on "-" is the dash-free suffix that follows the last dash |
| Codes.FullCodeSequenceRoundTrip | frontend/src/components/barangForm.jsx:66-68 | parsing the last segment of a full code gives back the sequence number it was built from |
| Codes.FullCodeInjective | backend/controllers/barangController.js:72-75 | two full codes under one key are equal only for equal sequence numbers |
| Codes.SeqTextInjective | backend/controllers/barangController.js:82-84 | two bare formatted numbers are equal only for equal numbers |
| Loans.FindUnit | backend/controllers/peminjamanController.js:227 | findIndex gives -1 or the first position whose unit has the code; no unit before it, and none at all for -1, has the code |
| Loans.WithStatus | backend/controllers/peminjamanController.js:9-11 | the filter keeps exactly the units with the status and is no longer than the list |
| Loans.Recalc | backend/controllers/peminjamanController.js:8-18 | the recount; LoanHandlers.RecalcStokNonConsumable, LoanProperties.ApproveUnits, ReturnApplied and DeleteRestores state its effect |
| Loans.FirstUnavailable | backend/controllers/peminjamanController.js:161-167 | every requested code before the answer is available, and the code at the answer is not |
| Loans.CheckRequest | backend/controllers/peminjamanController.js:85-132 | the body guards of create; LoanProperties.RequestFirstFailure states that the first failing one answers |
| Loans.NewLoan | backend/controllers/peminjamanController.js:169-188 | a loan that saves is valid, pending and records the request; LoanProperties.NewLoanSaves states when it saves |
| Loans.BorrowUnits | backend/controllers/peminjamanController.js:224-241 | the approval loop; LoanProperties.BorrowUnitsOutcome, BorrowUnitsEffect, BorrowUnitsRecords and BorrowUnitsCount state its outcome and effect |
| Loans.ReturnUnits | backend/controllers/peminjamanController.js:321-351 | the return loop; LoanProperties.ReturnUnitsOutcome, ReturnUnitsEffect, ReturnUnitsRecords and ReturnUnitsCount state its outcome and effect |
| Loans.RestoreUnits | backend/controllers/peminjamanController.js:390-395 | the delete loop; LoanProperties.RestoreUnitsEffect and BorrowThenRestore state its effect |
| Loans.CreateStep | backend/controllers/peminjamanController.js:70-195 | create never changes an item; on an error nothing changes; on success exactly one loan is added under the new id: valid, pending, for an existing item whose type matches isConsumable, kembali exactly when consumable, and recording the request: the item's jurusan, the borrower fields of its type, the trimmed phone, jumlah or unitKodes as requested, the loan date now and the note |
| Loans.ApproveStep | backend/controllers/peminjamanController.js:197-256 | a loan that is not pending is refused with AlreadyProcessed; on any error nothing changes; on success the pending loan becomes approved with the new date and only its own item may change |
| Loans.RejectStep | backend/controllers/peminjamanController.js:262-280 | reject succeeds exactly on a pending loan, which becomes rejected while nothing else changes; otherwise nothing changes |
| Loans.ReturnStep | backend/controllers/peminjamanController.js:290-368 | the guards answer in order (consumable, already kembali, not approved); on any error nothing changes; on success the loan becomes kembali with the return date and only its own item may change |
| Loans.DeleteStep | backend/controllers/peminjamanController.js:375-407 | delete succeeds on every existing loan except one that still holds units of an existing item while it lacks unitKodes or the item lacks units (the 500 of the restore loop); it removes the loan, never changes any stock, and touches the items only for a loan that still holds units |
| LoanHandlers.CountDipinjam | backend/controllers/peminjamanController.js:9-11 | the counting loop gives the number of units on loan |
| LoanHandlers.RecalcStokNonConsumable | backend/controllers/peminjamanController.js:8-18 | the saved item is the given one with stok_dipinjam set to its number of units on loan; the loans are untouched |
| LoanHandlers.Create | backend/controllers/peminjamanController.js:70-195 | the handler, with its loop over the requested codes, replies and leaves the store exactly as CreateStep says |
| LoanHandlers.Approve | backend/controllers/peminjamanController.js:197-256 | the handler, with its loop over the units, replies and leaves the store exactly as ApproveStep says |
| LoanHandlers.Reject | backend/controllers/peminjamanController.js:262-280 | the handler replies and leaves the store exactly as RejectStep says |
| LoanHandlers.ReturnItem | backend/controllers/peminjamanController.js:290-368 | the handler, with its loop over the units, replies and leaves the store exactly as ReturnStep says |
| LoanHandlers.Delete | backend/controllers/peminjamanController.js:375-407 | the handler, with its loop over the units, replies and leaves the store exactly as DeleteStep says |
| LoanProperties.CreateFirstFailure | backend/controllers/peminjamanController.js:85-188 | create answers with the error of the first of its checks that fails, in the order written, and succeeds exactly when none fails |
| LoanProperties.RequestFirstFailure | backend/controllers/peminjamanController.js:85-132 | the body guards answer with the first failing one: required fields, borrower fields, jumlah or unitKodes, duplicates |
| LoanProperties.ItemFirstFailure | backend/controllers/peminjamanController.js:134-188 | once the body passes, the item guards answer with the first failing one: existence, type, stock or availability, save |
| LoanProperties.NewLoanSaves | backend/controllers/peminjamanController.js:170-188 | once the body passes, the new loan saves exactly when the borrower type is known and the phone is not blank |
| LoanProperties.ApproveConsumable | backend/controllers/peminjamanController.js:215-222 | a consumable approval with too little stock is refused; it succeeds exactly when stock covers the amount, and then the stock drops by exactly the amount and stays at least 0 |
| LoanProperties.ApproveUnits | backend/controllers/peminjamanController.js:224-244 | a unit approval succeeds exactly when every listed unit exists and is tersedia, and otherwise names a listed unit that is not; on success exactly the listed units become dipinjam, each is recorded as tersedia at loan time, stok_dipinjam is recounted and grows by their number, and no other field of the item changes |
| LoanProperties.BorrowUnitsOutcome | backend/controllers/peminjamanController.js:226-232 | over distinct codes the approval loop succeeds exactly when every listed unit exists and is tersedia, and otherwise fails on a listed unit that is not |
| LoanProperties.BorrowUnitsEffect | backend/controllers/peminjamanController.js:226-241 | after a successful approval loop exactly the listed units are dipinjam and every other unit is unchanged |
| LoanProperties.BorrowUnitsRecords | backend/controllers/peminjamanController.js:237-240 | a successful approval loop pushes one record per code, in order, each with statusSaatPinjam tersedia |
| LoanProperties.BorrowUnitsCount | backend/controllers/peminjamanController.js:226-241 | the approval loop moves exactly one unit per listed code from tersedia to dipinjam and keeps the number of units |
| LoanProperties.ReturnApplied | backend/controllers/peminjamanController.js:321-357 | a return succeeds exactly when every listed unit is dipinjam and comes with a valid condition; then each unit takes its condition, stok_dipinjam is recounted and drops by the number of units returned, no other field of the item changes, and the loan records, per code, the status at loan time and the condition |
| LoanProperties.ReturnUnitsOutcome | backend/controllers/peminjamanController.js:323-336 | over distinct codes the return loop succeeds exactly when every listed unit is dipinjam and has a valid condition, and otherwise fails on a listed unit that does not |
| LoanProperties.ReturnUnitsEffect | backend/controllers/peminjamanController.js:323-351 | after a successful return loop each listed unit has its condition and every other unit is unchanged |
| LoanProperties.ReturnUnitsRecords | backend/controllers/peminjamanController.js:342-350 | a successful return loop pushes one record per code, in order, with the status at loan time (dipinjam when none was recorded) and the condition |
| LoanProperties.ReturnUnitsCount | backend/controllers/peminjamanController.js:323-351 | the return loop takes exactly one unit off loan per listed code |
| LoanProperties.RestoreUnitsEffect | backend/controllers/peminjamanController.js:390-395 | the delete loop puts exactly the listed units that exist back to tersedia and leaves every other unit unchanged |
| LoanProperties.DeleteRestores | backend/controllers/peminjamanController.js:383-398 | deleting a loan that still holds its units succeeds, releases exactly those units, recounts stok_dipinjam and changes no other field of the item |
| LoanProperties.ApproveThenDelete | backend/controllers/peminjamanController.js:224-244 | approving a unit loan and then deleting it leaves the item's units as they were and the loan gone |
| LoanProperties.BorrowThenRestore | backend/controllers/peminjamanController.js:390-395 | the delete loop undoes a successful approval loop over distinct codes |
| LoanProperties.CountSetStatus | backend/controllers/peminjamanController.js:9-13 | setting one unit's status moves it from its old count to its new one and leaves the other counts alone |
| LoanProperties.CountPartition | backend/models/Barang.js:9-13 | the counts of the four unit statuses add up to the number of units |
| LoanProperties.AvailableKodesMeaning | backend/controllers/peminjamanController.js:157-159 | a code is among the available codes exactly when the item has a tersedia unit with that code |
| LoanProperties.FindUnitSameKodes | backend/controllers/peminjamanController.js:227 | findIndex depends only on the codes, so status changes never move it |
| LoanProperties.RelabelKeepsValid | backend/models/Barang.js:47-61 | changing unit statuses and recounting keeps a valid item valid |
| LoanProperties.CreateKeepsValid | backend/controllers/peminjamanController.js:170-188 | create keeps every stored document within its schema |
| LoanProperties.RejectKeepsValid | backend/controllers/peminjamanController.js:273-274 | reject keeps every stored document within its schema |
| LoanProperties.ApproveKeepsValid | backend/controllers/peminjamanController.js:215-249 | approve keeps every stored document within its schema |
| LoanProperties.ReturnKeepsValid | backend/controllers/peminjamanController.js:321-358 | returnItem keeps every stored document within its schema |
| LoanProperties.DeleteKeepsValid | backend/controllers/peminjamanController.js:383-401 | delete keeps every stored document within its schema |
| Catalog.FillKodesShape | backend/controllers/barangController.js:76-88 | the minting loop keeps the length and order of the units, keeps each unit that has a code, gives the k-th blank unit the number peek+k, and advances the counter once per blank unit |
| Catalog.FillKodes | backend/controllers/barangController.js:76-88 | the minting loop on values; FillKodesShape and MintedKodesDistinct state its result |
| Catalog.MintedKodesDistinct | backend/controllers/barangController.js:81-84 | two blank units are given different codes |
| Catalog.BlanksPrefixGrows | backend/controllers/barangController.js:81-84 | each blank unit raises the count of blank units before every later position |
| Catalog.FillUnitKodes | backend/controllers/barangController.js:77-87 | the loop of counter calls builds the unit list and leaves the counters as the minting function says |
| Catalog.AddBarangStep | backend/controllers/barangController.js:50-108 | the counters advance as the minting says whatever the save does; an error is a 400 with the items unchanged; a success stores one valid item under the new id, with the body's stok_dipinjam or 0 |
| Catalog.AddBarang | backend/controllers/barangController.js:50-108 | the handler replies and leaves the items and counters exactly as AddBarangStep says, returns the consumable's code, and leaves the loans alone |
| Catalog.ConsumableMintsOne | backend/controllers/barangController.js:72-75 | a consumable takes exactly one number from its key, and its code ends in that number |
| Catalog.AddedUnitCounters | backend/controllers/barangController.js:76-88 | a unit-tracked item advances its key once per unit without a code |
| Catalog.AddedUnitKodes | backend/controllers/barangController.js:76-91 | a saved unit-tracked item holds the request's units in order; a unit with a code keeps it trimmed, the k-th blank one gets the bare padded number peek+k |
| Catalog.SeqTextTrimmed | backend/models/Barang.js:4-8 | a minted code has no white space for the schema's trim to remove |
| Catalog.UpdateDataFields | backend/controllers/barangController.js:129-148 | exactly one of stok and units is set, by the new type, and a given stok or units array is the value written; nama, jurusan, tipe, deskripsi and maxDurasiPinjam pass through; stok_dipinjam is reset to 0 only when a unit-tracked item becomes consumable, kept between consumables and cleared for a unit-tracked result |
| Catalog.UpdateData | backend/controllers/barangController.js:129-148 | the updateData document; UpdateDataFields, UpdateKeepsStock, UpdateKeepsUnits and UpdateStatusFallback state its fields |
| Catalog.UpdateKeepsStock | backend/controllers/barangController.js:139 | without a new stok a consumable keeps its stored stock, 0 when it had none, never negative |
| Catalog.UpdateKeepsUnits | backend/controllers/barangController.js:145 | without a new units array a unit-tracked item is written back with exactly its stored units |
| Catalog.UpdateStatusFallback | backend/controllers/barangController.js:135 | a given non-empty status is used; a missing or empty one falls back to the stored status |
| Catalog.CastAsInputs | backend/controllers/barangController.js:145 | stored valid units survive being written back as request data and cast again |
| Catalog.NextKodeUnit | backend/controllers/barangController.js:229-253 | the preview is refused exactly when jurusan or nama is missing |
| Catalog.NextKodeUnitPreview | backend/controllers/barangController.js:238-248 | the preview starts with the counter key and a dash, ends in the number the next counter call returns, and equals the code a consumable saved next under that name receives |
| Catalog.AllocateCount | backend/controllers/barangController.js:258 | at least one number is allocated; a count that the radix-less parseInt reads as n >= 1 allocates n, anything else allocates 1 |
| Catalog.Formatted | backend/controllers/barangController.js:267 | each returned code is its number formatted to three digits |
| Catalog.PostNextKodeUnit | backend/controllers/barangController.js:255-273 | the loop of counter calls returns the run of numbers the counter hands out for the allocated count, leaves the counter advanced by that count, and formats each number |
| Catalog.AllocationConsecutive | backend/controllers/barangController.js:258-267 | the allocation hands out consecutive numbers from the peeked one, all with different formatted codes, and leaves the key at the last number |
| Catalog.AllocateHexCount | backend/controllers/barangController.js:258 | a count written 0x3 allocates three numbers |
| Catalog.ImportUnits | backend/controllers/barangController.js:301-304 | each unit of a row is rewritten on its own, the list keeping its length |
| Catalog.KodeProblemMeaning | backend/controllers/barangController.js:306-315 | the code check passes exactly when every code is present, non-empty, not yet seen and unique, and otherwise reports a unit without a code or a duplicate code |
| Catalog.KodeProblem | backend/controllers/barangController.js:306-315 | the kodeSet loop as a function; KodeProblemMeaning states when it passes |
| Catalog.CheckKodes | backend/controllers/barangController.js:306-315 | the loop with its set of seen codes stops with the first problem as the check function says |
| Catalog.ParseUnits | backend/controllers/barangController.js:299-320 | a units column passes exactly when its rewritten codes are all usable, and then yields the rewritten units; it fails only for a missing or a duplicate code |
| Catalog.ParseUnitsChecked | backend/controllers/barangController.js:301-315 | the units of a passing column have codes that are the trimmed inputs, non-empty, trimmed and distinct |
| Catalog.ParseRow | backend/controllers/barangController.js:283-327 | a row fails exactly when it is unit-tracked and its units are missing or empty text (UnitsMissing), non-empty text, whose missing `map` throws (UnitsNotArray), or an array that fails the code check (that error); a consumable row always parses, with its stok read by the radix-less parseInt (default "0") and its status defaulting to tersedia; a unit-tracked row that parses carries its parsed units and its maxDurasiPinjam read the same way (default "1") |
| Catalog.ImportHexStock | backend/controllers/barangController.js:292 | a consumable row whose stok is written 0x10 imports a stock of 16 |
| Catalog.ImportRows | backend/controllers/barangController.js:277-327 | no array is NotAnArray; a success parses every row, in order; a failure is the error of a row before which every row parses, the first failing one |
| Catalog.ImportAllOrNothing | backend/controllers/barangController.js:283-329 | the import succeeds exactly when every row parses |
| Catalog.UploadedTextUnitsFail | frontend/src/pages/ManageItemsPage.jsx:276-282 | the upload page sends a unit-tracked row's units as ";"-joined text, which fails that row with UnitsNotArray and the whole import with it |
| Catalog.OverrideUnit | backend/controllers/barangController.js:353-359 | the override sets the status of the first unit with the code and changes nothing else, stok_dipinjam included |
| Catalog.OverrideKeepsValid | backend/controllers/barangController.js:359-360 | the override keeps a valid item valid |
| Catalog.OverrideLeavesCountStale | backend/controllers/barangController.js:353-360 | overriding a dipinjam unit keeps stok_dipinjam while the number of units on loan drops by one, so a count that was right becomes wrong |
| Catalog.KembalikanUnit | backend/controllers/barangController.js:339-367 | an invalid status is refused exactly when it is outside tersedia, rusak and hilang; an unknown code is refused exactly when no item has it; a success overrides that unit of one item holding the code and changes nothing else; an error changes nothing |
| Catalog.ListItem | backend/controllers/barangController.js:22-36 | the item is listed as stored; exactly unit-tracked items carry totalUnits, the number of their units, and unitTersedia, the number of those that are tersedia, both 0 without a unit list |
| Catalog.ListItemCounts | backend/controllers/barangController.js:24-27 | the units that are not available are exactly those on loan, damaged or lost |
| Catalog.ApproveLowersAvailability | backend/controllers/barangController.js:22-36 | approving a unit loan keeps an item's total and lowers its available count by exactly the number of units lent |
| Pagination.VisiblePages | frontend/src/components/Pagination.jsx:11-21 | the window is an ascending run of consecutive pages from its start to its end |
| Pagination.Render | frontend/src/components/Pagination.jsx:9 | nothing is rendered exactly when there is at most one page |
| Pagination.VisibleInRange | frontend/src/components/Pagination.jsx:13-18 | with the current page in range every visible page exists |
| Pagination.VisibleLength | frontend/src/components/Pagination.jsx:11-20 | the window holds min(showPages, totalPages) pages |
| Pagination.VisibleHasCurrent | frontend/src/components/Pagination.jsx:12-18 | the current page is always visible |
| Pagination.NavigationClamped | frontend/src/components/Pagination.jsx:31-32 | the previous and next targets stay in range, and a button is disabled exactly when its target is the current page |
| ItemForm.HeaderErrors | frontend/src/pages/ManageItemsPage.jsx:71-73 | nama, jurusan and tipe are flagged exactly when blank or missing, and nothing else is |
| ItemForm.MaxDurasiRejected | frontend/src/pages/ManageItemsPage.jsx:98-105 | the maxDurasiPinjam check; MaxDurasiDecimal and FormFieldErrors state when it fires |
| ItemForm.MaxDurasiDecimal | frontend/src/pages/ManageItemsPage.jsx:98-105 | a duration written as a decimal number is refused exactly when it is below 1 |
| ItemForm.UnitErrorsMeaning | frontend/src/pages/ManageItemsPage.jsx:84-96 | the unit loop flags a code exactly when it is blank or an earlier unit has it, a status exactly when it is not one of the four, only at existing indices, and keeps the other keys |
| ItemForm.FormFieldErrors | frontend/src/pages/ManageItemsPage.jsx:69-108 | each field key is present exactly when its check fails for the form's type |
| ItemForm.FormUnitErrors | frontend/src/pages/ManageItemsPage.jsx:80-97 | for a unit-tracked item a code is flagged at its own index when blank or a repeat of an earlier code, a status when it is not one of the four; no unit key appears otherwise |
| ItemForm.FormErrors | frontend/src/pages/ManageItemsPage.jsx:69-108 | the error map of validateForm; FormFieldErrors, FormUnitErrors and ValidateForm state its keys |
| ItemForm.CheckUnits | frontend/src/pages/ManageItemsPage.jsx:84-96 | the forEach with its seen set produces the error map the unit rules define |
| ItemForm.ValidateForm | frontend/src/pages/ManageItemsPage.jsx:69-108 | the method produces the whole error map the rules define |
| ItemForm.TrimKodes | frontend/src/pages/ManageItemsPage.jsx:134-137 | each unit's code is trimmed and its status kept, the list keeping its length |
| ItemForm.MakePayload | frontend/src/pages/ManageItemsPage.jsx:116-137 | the request body; HandleSubmit and SubmittedFormIsClean state what it sends |
| ItemForm.HandleSubmit | frontend/src/pages/ManageItemsPage.jsx:110-151 | submission stops with the error map exactly when it is not empty; otherwise it sends the payload, as an update exactly when editing |
| ItemForm.SubmittedFormIsClean | frontend/src/pages/ManageItemsPage.jsx:110-151 | a submitted payload has a non-blank trimmed name, a jurusan and a tipe; for a consumable a stock of at least 0 and a valid status; for a unit-tracked item a non-empty list of distinct non-blank codes with valid statuses |
| LoanForm.FindListed | frontend/src/components/PeminjamanForm.jsx:57 | the lookup finds a listed entry with the id, and fails exactly when none has it |
| LoanForm.UnitOptions | frontend/src/components/PeminjamanForm.jsx:64-69 | the options are exactly the item's tersedia units when it is unit-tracked, and none otherwise |
| LoanForm.UnitOptionsAccepted | frontend/src/components/PeminjamanForm.jsx:64-66 | a code is offered exactly when create accepts it as available |
| LoanForm.BarangChanged | frontend/src/components/PeminjamanForm.jsx:54-70 | choosing an item selects it, resets jumlah to 1, clears the chosen units, recomputes the options and changes nothing else |
| LoanForm.InitialBarangSet | frontend/src/components/PeminjamanForm.jsx:35-51 | an initial item is selected as if it had been chosen from a list holding only it |
| LoanForm.BorrowerTypeChanged | frontend/src/components/PeminjamanForm.jsx:162-171 | changing the borrower type clears the borrower fields and changes nothing else |
| LoanForm.Payload | frontend/src/components/PeminjamanForm.jsx:112-128 | isConsumable follows the item's type and exactly one of jumlah and unitKodes is sent, matching it; the student id only for siswa, name and origin only for lainnya; the phone trimmed |
| LoanForm.CanSubmit | frontend/src/components/PeminjamanForm.jsx:87-105 | the submit guard; HandleSubmit, SubmittedRequestChecks and SubmittedRequestAccepted state what it admits |
| LoanForm.ResetAfterSubmit | frontend/src/components/PeminjamanForm.jsx:134-149 | after a submission the form is back to its initial state, except that an initial item stays selected |
| LoanForm.HandleSubmit | frontend/src/components/PeminjamanForm.jsx:109-150 | a request is sent exactly when canSubmit holds; then it is the payload and the form is reset, otherwise the form is unchanged |
| LoanForm.BarangChangedConsistent | frontend/src/components/PeminjamanForm.jsx:54-70 | choosing an item keeps the form consistent with its widgets |
| LoanForm.SubmittedRequestChecks | frontend/src/components/PeminjamanForm.jsx:88-128 | a request built by a submittable, consistent form passes every body guard of create |
| LoanForm.SubmittedRequestAccepted | frontend/src/components/PeminjamanForm.jsx:88-128 | sent while the item is as the form saw it, such a request creates the loan |
| UnitEditor.AddToUnits | frontend/src/components/barangForm.jsx:45-87 | an add is refused with nothing changed exactly when nama or jurusan is blank, or when the preview request is needed and fails; otherwise exactly one unit is appended, tersedia, with the full code of the kept or peeked number, and the kept number becomes that number plus one |
| UnitEditor.AddUnitStep | frontend/src/components/barangForm.jsx:76-79 | an add changes only the form's unit list |
| UnitEditor.Editor.AddUnit | frontend/src/components/barangForm.jsx:45-87 | the handler's outcome, new form and new kept number are those AddUnitStep gives for the old state |
| UnitEditor.Editor.SetForm | frontend/src/components/barangForm.jsx:40-43 | a form update forgets the kept number exactly when nama or jurusan changed |
| UnitEditor.PeekedServerSeq | frontend/src/components/barangForm.jsx:61-68 | the number read from the server's preview is the counter's next value |
| UnitEditor.FirstAddFollowsCounter | frontend/src/components/barangForm.jsx:59-80 | the first add appends the code the next counter call would mint, and the kept number then tracks the counter advanced by that call |
| UnitEditor.KeptAddFollowsCounter | frontend/src/components/barangForm.jsx:69-80 | while the kept number tracks the counter each add appends the code the next counter call would mint, and goes on tracking it |
| UnitEditor.ChangeUnit | frontend/src/components/barangForm.jsx:89-94 | only the given field of the unit at the index changes, and the list keeps its length |
| UnitEditor.RemoveUnit | frontend/src/components/barangForm.jsx:96-99 | only the unit at the index leaves and the others keep their order; an index out of range changes nothing |
| UnitEditor.RemoveUnitRestores | frontend/src/components/barangForm.jsx:96-99 | putting the removed unit back at its index restores the list |
| UnitEditor.SelectTipe | frontend/src/components/barangForm.jsx:137-154 | choosing a type resets exactly the fields of the other type, keeps the name and jurusan, and keeps units only for a unit-tracked type |

## Left out

- HTTP plumbing, routing, express-validator chains, authentication and `logActivity` are not modelled. Replies are modelled only as the error kind or the document.
- The other controllers and handlers are not part of this model: `getAll`, `getHistory`, the search and pagination of list queries, and the dashboard.
- Clocks and ids are parameters:
  - `new Date()` is `now`;
  - a newly saved document's id is `newId`, and a clash with an existing id is treated as a failed save.
- Mongoose's `findOne` order is not modelled. `KembalikanUnit` may pick any item that holds the code.
- The non-atomic pair of saves in consumable `approve` and the partial effects of a failing storage layer are not modelled.
- Only `create` and `addBarang` check the schema when they save. The saves in `approve`, `reject`, `returnItem` and `delete` are taken to succeed. Mongoose validates the whole document on `save()`, so on a store that already holds a document the schema refuses, the source answers 500 where the model succeeds. On a store whose documents all meet the schema, the `...KeepsValid` lemmas show that every document these operations save meets it too.
- A missing `jurusan` in `addBarang` is interpolated as `undefined`, so the counter key is `undefined-ABBREV` and that counter advances before the save fails. The model takes the missing `jurusan` as "" and advances the key `-ABBREV` instead.
- The session of `addBarang` is not modelled beyond the fact that counter calls are not rolled back. A missing `nama` throws before the counter call in the source; the model takes `nama` as a string ("" when missing).
- `recalcStokNonConsumable` also writes `unitTersedia`, which the Barang schema does not declare, so strict mode drops it. Only `stok_dipinjam` is modelled.
- `unitStatus` is assigned by `approve` and `returnItem` but is not declared in the Peminjaman schema. The model keeps it as a loan field, as the controller intends.
- The consumable's `req.body.kode` is not a schema field and is not stored. `AddBarang` returns it separately instead.
- Catalog.UpdateData: the model gives the rules for the `updateData` document, not Mongoose's application of it with `runValidators`, nor the 404 for a missing item.
- Catalog.ImportRows: stops before `insertMany`. Validation of the inserted documents and the insertion itself are not modelled.
- The CSV columns `stok` and `maxDurasiPinjam` are modelled as text read by `parseInt`. A numeric JSON value is not distinguished. The `units` column is an array of units or text; other JSON values there are not modelled.
- `IsNumeric`, the model of `isNaN` on the loan-duration text, accepts blank text, an optionally signed decimal with at most one point or `Infinity`, and an unsigned `0x` literal. Exponents and the `0b` and `0o` prefixes are not modelled.
- `toUpperCase` is modelled on ASCII letters only; other characters are kept as they are.
- JavaScript numbers are unbounded integers. Fractions, `NaN` in arithmetic and the sign of `-0` are not modelled, and a non-integer `showPages` is not covered.
- LoanForm.UnitOptions: the form reads `obj.units.filter`, which throws for an item without a unit list. The model uses an empty list there.
- LoanForm.CanSubmit: the react-select widget's guarantee that chosen units are distinct options is taken as the `Consistent` predicate, not derived.
- The siswa search (`handleSiswaSearch`, `selectedJurusan`, `selectedKelas`) is not modelled. It only fills the options list.
- UnitEditor.ChangeUnit: `handleUnitChange` can write any field name; the model limits the field to `kode` and `status`, the two the form offers.
- UnitEditor.KeptAddFollowsCounter: the agreement of n previewed codes with n counter calls is stated as an invariant kept by each add, not as one lemma over n presses.
- UnitEditor.Editor.AddUnit: the preview request is the `peek` parameter, not a network call, and the loading flag and alerts are not modelled.
