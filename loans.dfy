/**
 * The loan lifecycle of backend/controllers/peminjamanController.js as total step
 * functions over the store: each handler takes the state before the request and gives
 * its reply together with the state after it.
 *
 * A handler works on an in-memory copy of the item and saves it only at the end, so a
 * guard that fails part-way, even inside the loop over the requested unit codes, leaves
 * the store as it was.
 */
module Loans {
  import opened Wrappers
  import opened Strings
  import opened Models

  /** The error replies of the handlers, one per distinct message. */
  datatype LoanError =
    | MissingFields          // 400: barang, peminjamType, isConsumable or peminjamPhone missing
    | MissingBorrower        // 400: borrower fields missing for the borrower type
    | InvalidJumlah          // 400: consumable loan without a number jumlah >= 1
    | InvalidUnitKodes       // 400: unit loan without a non-empty unitKodes array
    | DuplicateUnitKodes     // 400: unitKodes repeats a code
    | ItemNotFound           // 404: the item does not exist
    | NotConsumableItem      // 400: consumable loan of a tidak_habis_pakai item
    | NotUnitItem            // 400: unit loan of a habis_pakai item
    | InsufficientStock      // 400: stok below jumlah
    | UnitNotAvailable(kode: string)  // 400: the unit is missing or not tersedia
    | LoanNotFound           // 404: the loan does not exist
    | AlreadyProcessed       // 400: the loan is not pending
    | ConsumableNotReturnable // 400: consumable loans are not returned
    | AlreadyReturned        // 400: rentalStatus is already kembali
    | NotApproved            // 400: the loan is not approved
    | UnitNotOnLoan(kode: string)     // 400: the unit is missing or not dipinjam
    | InvalidCondition(kode: string)  // 400: no valid return condition for the unit
    | ServerError            // 500: an exception (a failed save, a property read on undefined)

  /**
   * The body of a create request. Text fields are "" when absent or empty (both are falsy);
   * `isConsumable`, `jumlah`, `unitKodes` and `keterangan` are `None` when absent.
   */
  datatype LoanRequest = LoanRequest(
    barang: Id,
    peminjamType: string,
    peminjamSiswa: Id,
    peminjamNama: string,
    peminjamAsal: string,
    peminjamPhone: string,
    isConsumable: Option<bool>,
    jumlah: Option<int>,
    unitKodes: Option<seq<string>>,
    keterangan: Option<string>)

  /** One element of a return request's `unitReturns`; a missing `kondisi` is "". */
  datatype UnitReturn = UnitReturn(kode: string, kondisi: string)

  // ---------------------------------------------------------------------
  // Unit-level helpers
  // ---------------------------------------------------------------------

  /** `units[i].status = st`, leaving every other unit and field alone. */
  function SetStatus(units: seq<Unit>, i: nat, st: UnitStatus): (r: seq<Unit>)
    requires i < |units|
    ensures |r| == |units| && r[i] == Unit(units[i].kode, st)
    ensures forall j :: 0 <= j < |units| && j != i ==> r[j] == units[j]
  {
    units[i := units[i].(status := st)]
  }

  /** `units.findIndex(u => u.kode === kode)`: the first unit with that code, or -1. */
  function FindUnit(units: seq<Unit>, kode: string): (idx: int)
    ensures -1 <= idx < |units|
    ensures idx >= 0 ==> units[idx].kode == kode
    ensures forall j :: 0 <= j < |units| && (idx == -1 || j < idx) ==> units[j].kode != kode
  {
    if units == [] then -1
    else if units[0].kode == kode then 0
    else
      var r := FindUnit(units[1..], kode);
      assert forall j :: 1 <= j < |units| ==> units[j] == units[1..][j - 1];
      if r == -1 then -1 else r + 1
  }

  /** `units.filter(u => u.status === st)`. */
  function WithStatus(units: seq<Unit>, st: UnitStatus): (r: seq<Unit>)
    ensures |r| <= |units|
    ensures forall u :: u in r <==> u in units && u.status == st
  {
    if units == [] then []
    else
      var rest := WithStatus(units[1..], st);
      assert forall u :: u in units <==> u == units[0] || u in units[1..];
      if units[0].status == st then [units[0]] + rest else rest
  }

  /** `units.filter(u => u.status === st).length`. */
  function CountStatus(units: seq<Unit>, st: UnitStatus): nat {
    |WithStatus(units, st)|
  }

  /** `recalcStokNonConsumable`: `stok_dipinjam` becomes the number of units on loan. */
  function Recalc(b: Barang): (r: Barang)
    requires b.units.Some?
  {
    b.(stokDipinjam := Some(CountStatus(b.units.value, Dipinjam)))
  }

  /** `barang.units.filter(u => u.status === "tersedia").map(u => u.kode)`. */
  function AvailableKodes(units: seq<Unit>): seq<string> {
    Kodes(WithStatus(units, Tersedia))
  }

  /** The position of the first requested code that is not available, `|kodes|` when all are. */
  function FirstUnavailable(available: seq<string>, kodes: seq<string>): (i: nat)
    ensures i <= |kodes|
    ensures forall j :: 0 <= j < i ==> kodes[j] in available
    ensures i < |kodes| ==> kodes[i] !in available
  {
    if kodes == [] || kodes[0] !in available then 0
    else
      var r := FirstUnavailable(available, kodes[1..]);
      assert forall j :: 1 <= j < |kodes| ==> kodes[j] == kodes[1..][j - 1];
      r + 1
  }

  /**
   * The loop of `approve` (from its `j`-th step on): each listed unit must be found and
   * tersedia; it becomes dipinjam and its entry, with the status it had, is pushed.
   */
  function BorrowUnits(units: seq<Unit>, kodes: seq<string>, acc: seq<UnitLoanRecord>)
    : Result<(seq<Unit>, seq<UnitLoanRecord>), LoanError>
    decreases |kodes|
  {
    if kodes == [] then Ok((units, acc))
    else
      var idx := FindUnit(units, kodes[0]);
      if idx == -1 || units[idx].status != Tersedia then Err(UnitNotAvailable(kodes[0]))
      else
        BorrowUnits(SetStatus(units, idx, Dipinjam), kodes[1..],
          acc + [UnitLoanRecord(kodes[0], units[idx].status, None)])
  }

  /** `unitReturns?.find(u => u.kode === kode)?.kondisi`, "" when there is none. */
  function ReturnKondisi(unitReturns: seq<UnitReturn>, kode: string): string {
    if unitReturns == [] then ""
    else if unitReturns[0].kode == kode then unitReturns[0].kondisi
    else ReturnKondisi(unitReturns[1..], kode)
  }

  /** `loan.unitStatus?.find(u => u.kode === kode)?.statusSaatPinjam || "dipinjam"`. */
  function PriorStatus(records: seq<UnitLoanRecord>, kode: string): UnitStatus {
    if records == [] then Dipinjam
    else if records[0].kode == kode then records[0].statusSaatPinjam
    else PriorStatus(records[1..], kode)
  }

  /**
   * The loop of `returnItem`: each listed unit must be found and dipinjam and must come
   * with a condition among tersedia, rusak and hilang; it takes that status and its entry
   * records the status at loan time and the condition.
   */
  function ReturnUnits(units: seq<Unit>, kodes: seq<string>, unitReturns: seq<UnitReturn>,
                       prior: seq<UnitLoanRecord>, acc: seq<UnitLoanRecord>)
    : Result<(seq<Unit>, seq<UnitLoanRecord>), LoanError>
    decreases |kodes|
  {
    if kodes == [] then Ok((units, acc))
    else
      var idx := FindUnit(units, kodes[0]);
      if idx == -1 || units[idx].status != Dipinjam then Err(UnitNotOnLoan(kodes[0]))
      else
        match ParseKondisi(ReturnKondisi(unitReturns, kodes[0]))
        case None => Err(InvalidCondition(kodes[0]))
        case Some(c) =>
          ReturnUnits(SetStatus(units, idx, c), kodes[1..], unitReturns, prior,
            acc + [UnitLoanRecord(kodes[0], PriorStatus(prior, kodes[0]), Some(c))])
  }

  /** The loop of `delete`: every listed unit that exists goes back to tersedia; missing codes are skipped. */
  function RestoreUnits(units: seq<Unit>, kodes: seq<string>): seq<Unit>
    decreases |kodes|
  {
    if kodes == [] then units
    else
      var idx := FindUnit(units, kodes[0]);
      RestoreUnits(if idx == -1 then units else SetStatus(units, idx, Tersedia), kodes[1..])
  }

  // ---------------------------------------------------------------------
  // create
  // ---------------------------------------------------------------------

  /** The guards of `create` that look only at the request body, in their order. */
  function CheckRequest(req: LoanRequest): Option<LoanError> {
    if req.barang == "" || req.peminjamType == "" || req.isConsumable.None? || req.peminjamPhone == "" then
      Some(MissingFields)
    else if req.peminjamType == "siswa" && req.peminjamSiswa == "" then Some(MissingBorrower)
    else if req.peminjamType != "siswa" && (req.peminjamNama == "" || req.peminjamAsal == "") then
      Some(MissingBorrower)
    else if req.isConsumable.value then
      if req.jumlah.None? || req.jumlah.value < 1 then Some(InvalidJumlah) else None
    else if req.unitKodes.None? || |req.unitKodes.value| < 1 then Some(InvalidUnitKodes)
    else if |Elements(req.unitKodes.value)| != |req.unitKodes.value| then Some(DuplicateUnitKodes)
    else None
  }

  /**
   * `new Peminjaman({...})` followed by the schema checks of `save`: the borrower fields of
   * the other type are dropped, only one of `jumlah`/`unitKodes` is kept, a consumable loan
   * is born kembali with both dates set, the phone is trimmed, and `None` is a failed save.
   */
  function NewLoan(req: LoanRequest, b: Barang, now: Time): (r: Option<Loan>)
    ensures r.Some? ==> ValidLoan(r.value) && r.value.status == Pending && RecordsRequest(r.value, req, b.jurusan, now)
  {
    var consumable := req.isConsumable.GetOr(false);
    match ParseBorrowerType(req.peminjamType)
    case None => None
    case Some(t) =>
      var l := Loan(
        req.barang, b.jurusan, t,
        if req.peminjamType == "siswa" then Some(req.peminjamSiswa) else None,
        if req.peminjamType == "lainnya" then Some(req.peminjamNama) else None,
        if req.peminjamType == "lainnya" then Some(req.peminjamAsal) else None,
        Trim(req.peminjamPhone),
        Pending,
        if consumable then Kembali else Pinjam,
        consumable,
        if consumable then req.jumlah else None,
        if !consumable then req.unitKodes else None,
        [],
        now,
        if consumable then Some(now) else None,
        req.keterangan.GetOr(""));
      if ValidLoan(l) then Some(l) else None
  }

  /**
   * The loan records the request: its item and that item's department, the borrower
   * fields of its type only, the trimmed phone, `jumlah` or `unitKodes` by the kind of loan,
   * no unit records yet, the loan date `now`, the return date `now` for a consumable loan only,
   * and the note, "" when there is none.
   */
  predicate RecordsRequest(l: Loan, req: LoanRequest, jurusan: Jurusan, now: Time) {
    && l.barang == req.barang && l.jurusan == jurusan
    && Some(l.peminjamType) == ParseBorrowerType(req.peminjamType)
    && l.peminjamSiswa == (if req.peminjamType == "siswa" then Some(req.peminjamSiswa) else None)
    && l.peminjamNama == (if req.peminjamType == "lainnya" then Some(req.peminjamNama) else None)
    && l.peminjamAsal == (if req.peminjamType == "lainnya" then Some(req.peminjamAsal) else None)
    && l.peminjamPhone == Trim(req.peminjamPhone)
    && l.isConsumable == req.isConsumable.GetOr(false)
    && (if l.isConsumable then l.jumlah == req.jumlah && l.unitKodes.None? && l.tglKembali == Some(now)
        else l.unitKodes == req.unitKodes && l.jumlah.None? && l.tglKembali.None?)
    && l.unitStatus == [] && l.tglPinjam == now && l.keterangan == req.keterangan.GetOr("")
  }

  /** `create`: the request guards, the item guards, then the save of the new loan under `newId`. */
  function CreateStep(s: State, req: LoanRequest, newId: Id, now: Time): (r: (Result<Loan, LoanError>, State))
    ensures r.1.items == s.items
    ensures r.0.Err? ==> r.1 == s
    ensures r.0.Ok? ==> newId !in s.loans && r.1.loans == s.loans[newId := r.0.value]
    ensures r.0.Ok? ==> r.0.value.status == Pending && (r.0.value.rentalStatus == Kembali <==> r.0.value.isConsumable)
    ensures r.0.Ok? ==> (ValidLoan(r.0.value) && r.0.value.barang == req.barang && req.barang in s.items
                         && (r.0.value.isConsumable <==> s.items[req.barang].tipe == HabisPakai))
    ensures r.0.Ok? ==> RecordsRequest(r.0.value, req, s.items[req.barang].jurusan, now)
  {
    match CheckRequest(req)
    case Some(e) => (Err(e), s)
    case None =>
      var consumable := req.isConsumable.value;
      if req.barang !in s.items then (Err(ItemNotFound), s)
      else
        var b := s.items[req.barang];
        if consumable && b.tipe != HabisPakai then (Err(NotConsumableItem), s)
        else if !consumable && b.tipe != TidakHabisPakai then (Err(NotUnitItem), s)
        else if consumable && b.stok.Some? && b.stok.value < req.jumlah.value then (Err(InsufficientStock), s)
        else if !consumable && b.units.None? then (Err(ServerError), s)
        else if !consumable && FirstUnavailable(AvailableKodes(b.units.value), req.unitKodes.value) < |req.unitKodes.value| then
          (Err(UnitNotAvailable(req.unitKodes.value[FirstUnavailable(AvailableKodes(b.units.value), req.unitKodes.value)])), s)
        else
          match NewLoan(req, b, now)
          case None => (Err(ServerError), s)
          case Some(l) =>
            if newId in s.loans then (Err(ServerError), s)
            else (Ok(l), s.(loans := s.loans[newId := l]))
  }

  // ---------------------------------------------------------------------
  // approve, reject
  // ---------------------------------------------------------------------

  /** `approve`: a pending loan takes stock, or takes its units, and becomes approved. */
  function ApproveStep(s: State, id: Id, now: Time): (r: (Result<Loan, LoanError>, State))
    ensures r.0.Err? ==> r.1 == s
    ensures id in s.loans && s.loans[id].status != Pending ==> r.0 == Err(AlreadyProcessed)
    ensures r.0.Ok? ==> id in s.loans && s.loans[id].status == Pending && s.loans[id].barang in s.items
    ensures r.0.Ok? ==>
      r.0.value == s.loans[id].(status := Approved, tglPinjam := now, unitStatus := r.0.value.unitStatus)
    ensures r.0.Ok? ==> (r.1.loans == s.loans[id := r.0.value] && r.1.items.Keys == s.items.Keys
                         && forall other :: other in s.items && other != s.loans[id].barang ==> r.1.items[other] == s.items[other])
  {
    if id !in s.loans then (Err(LoanNotFound), s)
    else
      var l := s.loans[id];
      if l.status != Pending then (Err(AlreadyProcessed), s)
      else if l.barang !in s.items then (Err(ItemNotFound), s)
      else
        var b := s.items[l.barang];
        if l.isConsumable then
          // `undefined < n` is false; subtracting from or a missing value gives NaN, which the save refuses
          if b.stok.Some? && l.jumlah.Some? && b.stok.value < l.jumlah.value then (Err(InsufficientStock), s)
          else if b.stok.None? || l.jumlah.None? then (Err(ServerError), s)
          else
            var b' := b.(stok := Some(b.stok.value - l.jumlah.value));
            var l' := l.(status := Approved, tglPinjam := now);
            (Ok(l'), State(s.items[l.barang := b'], s.loans[id := l']))
        else if l.unitKodes.None? || b.units.None? then (Err(ServerError), s)
        else
          match BorrowUnits(b.units.value, l.unitKodes.value, [])
          case Err(e) => (Err(e), s)
          case Ok((units, records)) =>
            var b' := Recalc(b.(units := Some(units)));
            var l' := l.(unitStatus := records, status := Approved, tglPinjam := now);
            (Ok(l'), State(s.items[l.barang := b'], s.loans[id := l']))
  }

  /** `reject`: a pending loan becomes rejected; nothing else changes. */
  function RejectStep(s: State, id: Id): (r: (Result<Loan, LoanError>, State))
    ensures r.0.Err? ==> r.1 == s
    ensures id in s.loans && s.loans[id].status != Pending ==> r.0 == Err(AlreadyProcessed)
    ensures r.0.Ok? <==> id in s.loans && s.loans[id].status == Pending
    ensures r.0.Ok? ==> r.0.value == s.loans[id].(status := Rejected) && r.1 == s.(loans := s.loans[id := r.0.value])
  {
    if id !in s.loans then (Err(LoanNotFound), s)
    else
      var l := s.loans[id];
      if l.status != Pending then (Err(AlreadyProcessed), s)
      else
        var l' := l.(status := Rejected);
        (Ok(l'), s.(loans := s.loans[id := l']))
  }

  // ---------------------------------------------------------------------
  // returnItem, delete
  // ---------------------------------------------------------------------

  /**
   * `returnItem`: an approved, not yet returned unit loan gives its units back in the
   * conditions the request names. When the item is gone, `populate` leaves `loan.barang`
   * null and reading its `_id` throws, so that case is a server error, not a 404.
   */
  function ReturnStep(s: State, id: Id, unitReturns: seq<UnitReturn>, now: Time): (r: (Result<Loan, LoanError>, State))
    ensures r.0.Err? ==> r.1 == s
    ensures id in s.loans && s.loans[id].isConsumable ==> r.0 == Err(ConsumableNotReturnable)
    ensures id in s.loans && !s.loans[id].isConsumable && s.loans[id].rentalStatus == Kembali ==> r.0 == Err(AlreadyReturned)
    ensures (id in s.loans && !s.loans[id].isConsumable && s.loans[id].rentalStatus == Pinjam
             && s.loans[id].status != Approved) ==> r.0 == Err(NotApproved)
    ensures r.0.Ok? ==> id in s.loans && HoldsUnits(s.loans[id]) && s.loans[id].barang in s.items
    ensures r.0.Ok? ==>
      r.0.value == s.loans[id].(rentalStatus := Kembali, tglKembali := Some(now), unitStatus := r.0.value.unitStatus)
    ensures r.0.Ok? ==> (r.1.loans == s.loans[id := r.0.value] && r.1.items.Keys == s.items.Keys
                         && forall other :: other in s.items && other != s.loans[id].barang ==> r.1.items[other] == s.items[other])
  {
    if id !in s.loans then (Err(LoanNotFound), s)
    else
      var l := s.loans[id];
      if l.isConsumable then (Err(ConsumableNotReturnable), s)
      else if l.rentalStatus == Kembali then (Err(AlreadyReturned), s)
      else if l.status != Approved then (Err(NotApproved), s)
      else if l.barang !in s.items then (Err(ServerError), s)
      else
        var b := s.items[l.barang];
        if l.unitKodes.None? || b.units.None? then (Err(ServerError), s)
        else
          match ReturnUnits(b.units.value, l.unitKodes.value, unitReturns, l.unitStatus, [])
          case Err(e) => (Err(e), s)
          case Ok((units, records)) =>
            var b' := Recalc(b.(units := Some(units)));
            var l' := l.(rentalStatus := Kembali, tglKembali := Some(now), unitStatus := records);
            (Ok(l'), State(s.items[l.barang := b'], s.loans[id := l']))
  }

  /** Whether `delete` gives the loan's units back: an approved unit loan still out. */
  predicate HoldsUnits(l: Loan) {
    l.rentalStatus != Kembali && !l.isConsumable && l.status == Approved
  }

  /** `delete`: removes the loan, first releasing the units of one that still holds them. */
  function DeleteStep(s: State, id: Id): (r: (Result<(), LoanError>, State))
    ensures r.0.Err? ==> r.1 == s
    ensures r.0.Ok? <==> (id in s.loans && !(HoldsUnits(s.loans[id]) && s.loans[id].barang in s.items
                                            && (s.loans[id].unitKodes.None? || s.items[s.loans[id].barang].units.None?)))
    ensures r.0.Ok? ==> r.1.loans == s.loans - {id}
    ensures r.0.Ok? && !HoldsUnits(s.loans[id]) ==> r.1.items == s.items
    ensures r.1.items.Keys == s.items.Keys
    ensures forall b :: b in s.items ==> r.1.items[b].stok == s.items[b].stok
  {
    if id !in s.loans then (Err(LoanNotFound), s)
    else
      var l := s.loans[id];
      if HoldsUnits(l) && l.barang in s.items then
        var b := s.items[l.barang];
        if l.unitKodes.None? || b.units.None? then (Err(ServerError), s)
        else
          var b' := Recalc(b.(units := Some(RestoreUnits(b.units.value, l.unitKodes.value))));
          (Ok(()), State(s.items[l.barang := b'], s.loans - {id}))
      else (Ok(()), s.(loans := s.loans - {id}))
  }
}
