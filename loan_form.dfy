/**
 * frontend/src/components/PeminjamanForm.jsx: the loan-request form. Its state is a value;
 * each handler is a function from the old state to the new one, `canSubmit` a predicate and
 * `handleSubmit` builds the request body that `create` receives.
 */
module LoanForm {
  import opened Wrappers
  import opened Strings
  import opened Models
  import opened Loans
  import LoanProperties

  /** An entry of `barangList`: the document and its `_id`. */
  datatype Listed = Listed(id: Id, barang: Barang)

  /**
   * The form state. `peminjamType` is the select's value ("", "siswa" or "lainnya");
   * `selectedSiswa` the chosen student's `_id`; `selectedBarang` the object found for
   * `selectedBarangId`.
   */
  datatype Form = Form(
    peminjamType: string,
    selectedSiswa: Option<Id>,
    namaNonSiswa: string,
    asalNonSiswa: string,
    peminjamPhone: string,
    selectedBarangId: string,
    selectedBarang: Option<Listed>,
    jumlah: int,
    unitOptions: seq<Unit>,
    selectedUnits: seq<string>,
    keterangan: string)

  /** The state before anything is chosen. */
  const Initial := Form("", None, "", "", "", "", None, 1, [], [], "")

  /** `barangList.find((b) => b._id === barangId) || null`: the first entry with that id. */
  function FindListed(list: seq<Listed>, id: Id): (r: Option<Listed>)
    ensures r.Some? ==> r.value in list && r.value.id == id
    ensures r.None? <==> forall x :: x in list ==> x.id != id
  {
    if list == [] then None
    else if list[0].id == id then Some(list[0])
    else FindListed(list[1..], id)
  }

  /** `obj.units.filter((u) => u.status === "tersedia")` for a unit-tracked item, else `[]`. */
  function UnitOptions(b: Barang): (r: seq<Unit>)
    ensures forall u :: u in r <==> b.tipe == TidakHabisPakai && u in b.units.GetOr([]) && u.status == Tersedia
    ensures b.tipe == TidakHabisPakai ==> |r| == CountStatus(b.units.GetOr([]), Tersedia)
  {
    if b.tipe == TidakHabisPakai then WithStatus(b.units.GetOr([]), Tersedia) else []
  }

  /** The options offered are exactly the codes `create` accepts for that item. */
  lemma UnitOptionsAccepted(b: Barang, kode: string)
    requires b.tipe == TidakHabisPakai && b.units.Some?
    ensures kode in Kodes(UnitOptions(b)) <==> kode in AvailableKodes(b.units.value)
  {
  }

  /** `handleBarangChange`: select the item, reset `jumlah` to 1, clear the chosen units. */
  function BarangChanged(f: Form, list: seq<Listed>, id: Id): (r: Form)
    ensures r.selectedBarangId == id && r.selectedBarang == FindListed(list, id)
    ensures r.jumlah == 1 && r.selectedUnits == []
    ensures r.unitOptions == (if r.selectedBarang.Some? then UnitOptions(r.selectedBarang.value.barang) else [])
    ensures r.(selectedBarangId := f.selectedBarangId, selectedBarang := f.selectedBarang, jumlah := f.jumlah,
               unitOptions := f.unitOptions, selectedUnits := f.selectedUnits) == f
  {
    var obj := FindListed(list, id);
    f.(selectedBarangId := id, selectedBarang := obj, jumlah := 1, selectedUnits := [],
       unitOptions := if obj.Some? then UnitOptions(obj.value.barang) else [])
  }

  /** The `initialBarang` effect: the given item is selected as by `handleBarangChange`. */
  function InitialBarangSet(f: Form, initial: Listed): (r: Form)
    ensures r == BarangChanged(f, [initial], initial.id)
  {
    f.(selectedBarangId := initial.id, selectedBarang := Some(initial), jumlah := 1, selectedUnits := [],
       unitOptions := UnitOptions(initial.barang))
  }

  /** The borrower-type select: the new type, and the borrower fields cleared. */
  function BorrowerTypeChanged(f: Form, t: string): (r: Form)
    ensures r.peminjamType == t && r.selectedSiswa.None? && r.namaNonSiswa == "" && r.asalNonSiswa == ""
    ensures r.(peminjamType := f.peminjamType, selectedSiswa := f.selectedSiswa,
               namaNonSiswa := f.namaNonSiswa, asalNonSiswa := f.asalNonSiswa) == f
  {
    f.(peminjamType := t, selectedSiswa := None, namaNonSiswa := "", asalNonSiswa := "")
  }

  /** `canSubmit()`. */
  predicate CanSubmit(f: Form) {
    && f.selectedBarang.Some?
    && f.peminjamType != ""
    && Trim(f.peminjamPhone) != ""
    && (if f.peminjamType == "siswa" then f.selectedSiswa.Some?
        else Trim(f.namaNonSiswa) != "" && Trim(f.asalNonSiswa) != "")
    && (var b := f.selectedBarang.value.barang;
        && (b.tipe == HabisPakai ==> 1 <= f.jumlah && (b.stok.None? || f.jumlah <= b.stok.value))
        && (b.tipe == TidakHabisPakai ==> |f.selectedUnits| >= 1))
  }

  /**
   * The `payload` object: the student id only for siswa, name and origin only for lainnya,
   * `isConsumable` from the item's type, and exactly one of `jumlah` / `unitKodes`. A field
   * left `undefined` is "" or `None` in the request.
   */
  function Payload(f: Form): (req: LoanRequest)
    requires f.selectedBarang.Some?
    ensures var consumable := f.selectedBarang.value.barang.tipe == HabisPakai;
      && req.barang == f.selectedBarangId
      && req.isConsumable == Some(consumable)
      && (req.jumlah.Some? <==> consumable) && (req.unitKodes.Some? <==> !consumable)
      && (consumable ==> req.jumlah == Some(f.jumlah))
      && (!consumable ==> req.unitKodes == Some(f.selectedUnits))
      && req.peminjamSiswa == (if f.peminjamType == "siswa" then f.selectedSiswa.GetOr("") else "")
      && req.peminjamNama == (if f.peminjamType == "lainnya" then Trim(f.namaNonSiswa) else "")
      && req.peminjamAsal == (if f.peminjamType == "lainnya" then Trim(f.asalNonSiswa) else "")
      && req.peminjamPhone == Trim(f.peminjamPhone)
  {
    var b := f.selectedBarang.value.barang;
    LoanRequest(
      f.selectedBarangId,
      f.peminjamType,
      if f.peminjamType == "siswa" then f.selectedSiswa.GetOr("") else "",
      if f.peminjamType == "lainnya" then Trim(f.namaNonSiswa) else "",
      if f.peminjamType == "lainnya" then Trim(f.asalNonSiswa) else "",
      Trim(f.peminjamPhone),
      Some(b.tipe == HabisPakai),
      if b.tipe == HabisPakai then Some(f.jumlah) else None,
      if b.tipe == TidakHabisPakai then Some(f.selectedUnits) else None,
      Some(Trim(f.keterangan)))
  }

  /**
   * The form after a submission: the borrower fields, `jumlah`, the chosen units and the note
   * are reset; the item stays when it was given by `initialBarang`.
   */
  function ResetAfterSubmit(f: Form, keepBarang: bool): (r: Form)
    ensures keepBarang ==> r == Initial.(selectedBarangId := f.selectedBarangId, selectedBarang := f.selectedBarang,
                                         unitOptions := f.unitOptions)
    ensures !keepBarang ==> r == Initial
  {
    var r := f.(peminjamType := "", selectedSiswa := None, namaNonSiswa := "", asalNonSiswa := "",
                peminjamPhone := "", jumlah := 1, selectedUnits := [], keterangan := "");
    if keepBarang then r else r.(selectedBarangId := "", selectedBarang := None, unitOptions := [])
  }

  /** `handleSubmit`: nothing when `canSubmit()` is false, else the request sent and the reset form. */
  function HandleSubmit(f: Form, keepBarang: bool): (r: (Option<LoanRequest>, Form))
    ensures r.0.Some? <==> CanSubmit(f)
    ensures r.0.None? ==> r.1 == f
    ensures r.0.Some? ==> r.0.value == Payload(f) && r.1 == ResetAfterSubmit(f, keepBarang)
  {
    if !CanSubmit(f) then (None, f) else (Some(Payload(f)), ResetAfterSubmit(f, keepBarang))
  }

  /**
   * What the widgets guarantee about the state: the borrower type is one of the select's
   * values, ids are non-empty, the selected object is the one with the selected id and its
   * options are its available units, and the chosen units are distinct options.
   */
  predicate Consistent(f: Form) {
    && (f.peminjamType == "" || f.peminjamType == "siswa" || f.peminjamType == "lainnya")
    && (f.selectedSiswa.Some? ==> f.selectedSiswa.value != "")
    && (f.selectedBarang.Some? ==>
          && f.selectedBarang.value.id == f.selectedBarangId && f.selectedBarangId != ""
          && f.unitOptions == UnitOptions(f.selectedBarang.value.barang))
    && Distinct(f.selectedUnits)
    && (forall k :: k in f.selectedUnits ==> k in Kodes(f.unitOptions))
  }

  /** Choosing an item from a list of documents with ids keeps the state consistent. */
  lemma BarangChangedConsistent(f: Form, list: seq<Listed>, id: Id)
    requires Consistent(f)
    requires forall x :: x in list ==> x.id != ""
    ensures Consistent(BarangChanged(f, list, id))
  {
  }

  /** A request built by a submittable, consistent form passes every guard of `create` on the request. */
  lemma SubmittedRequestChecks(f: Form)
    requires Consistent(f) && CanSubmit(f)
    ensures CheckRequest(Payload(f)) == None
  {
    var req := Payload(f);
    if !req.isConsumable.value {
      ElementsBound(f.selectedUnits);
    }
  }

  /**
   * Sent while the item is as the form last saw it, such a request creates the loan: no
   * guard of `create` fails, only a clash with an existing loan id could.
   */
  lemma SubmittedRequestAccepted(f: Form, s: State, newId: Id, now: Time)
    requires Consistent(f) && CanSubmit(f)
    requires f.selectedBarangId in s.items && s.items[f.selectedBarangId] == f.selectedBarang.value.barang
    requires f.selectedBarang.value.barang.tipe == TidakHabisPakai ==> f.selectedBarang.value.barang.units.Some?
    requires newId !in s.loans
    ensures CreateStep(s, Payload(f), newId, now).0.Ok?
  {
    var req := Payload(f);
    var b := s.items[req.barang];
    SubmittedRequestChecks(f);
    TrimIdempotent(f.peminjamPhone);
    TrimEmptyIffBlank(Trim(f.peminjamPhone));
    LoanProperties.NewLoanSaves(req, b, now);
    if b.tipe == TidakHabisPakai {
      var kodes := req.unitKodes.value;
      var available := AvailableKodes(b.units.value);
      forall k | k in kodes
        ensures k in available
      {
        UnitOptionsAccepted(b, k);
      }
      var i := FirstUnavailable(available, kodes);
      assert i == |kodes|;
    }
    var l := NewLoan(req, b, now);
    assert l.Some?;
  }
}
