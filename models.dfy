/**
 * The two Mongoose schemas of the core, backend/models/Barang.js (items and their units)
 * and backend/models/Peminjaman.js (loans), as datatypes whose enumerations are
 * constructors and whose required-when rules, minimum values and uniqueness validators
 * are the predicates `ValidBarang` and `ValidLoan`; plus the database holding both.
 */
module Models {
  import opened Wrappers
  import opened Strings

  /** Document ids (`ObjectId`s) as text; the empty string stands for a missing id. */
  type Id = string

  /** A clock reading (`new Date()`), supplied by the caller. */
  type Time = int

  // ---------------------------------------------------------------------
  // Distinctness, stated once, and the source's `new Set(arr).size === arr.length`.
  // ---------------------------------------------------------------------

  predicate Distinct<T(==)>(s: seq<T>) {
    forall i, j :: 0 <= i < j < |s| ==> s[i] != s[j]
  }

  function Elements<T(==)>(s: seq<T>): set<T> {
    set x | x in s
  }

  /** The set of a sequence's elements is never larger than the sequence. */
  lemma {:induction false} ElementsBound<T>(s: seq<T>)
    ensures |Elements(s)| <= |s|
    ensures |Elements(s)| == |s| <==> Distinct(s)
  {
    if s != [] {
      var t := s[..|s| - 1];
      var x := s[|s| - 1];
      ElementsBound(t);
      assert s == t + [x];
      assert Elements(s) == Elements(t) + {x};
      if x in t {
        assert Elements(s) == Elements(t);
        var k :| 0 <= k < |t| && t[k] == x;
        assert s[k] == s[|s| - 1];
      } else {
        assert |Elements(s)| == |Elements(t)| + 1;
        if Distinct(t) {
          forall i, j | 0 <= i < j < |s| ensures s[i] != s[j] {
            if j == |s| - 1 {
              assert s[i] == t[i];
            } else {
              assert s[i] == t[i] && s[j] == t[j];
            }
          }
        } else {
          var i, j :| 0 <= i < j < |t| && t[i] == t[j];
          assert s[i] == s[j];
        }
      }
    }
  }

  // ---------------------------------------------------------------------
  // Barang.js
  // ---------------------------------------------------------------------

  /** `UnitSchema.status`: tersedia (available), dipinjam (on loan), rusak (damaged), hilang (lost). */
  datatype UnitStatus = Tersedia | Dipinjam | Rusak | Hilang

  /** The item-level `status` enumeration, also the allowed return conditions: every unit status but dipinjam. */
  type Kondisi = s: UnitStatus | s != Dipinjam witness Tersedia

  /** `BarangSchema.jurusan`: the three departments. */
  datatype Jurusan = RPL | DKV | TKJ

  /** `BarangSchema.tipe`: habis_pakai (consumable) or tidak_habis_pakai (tracked by unit). */
  datatype Tipe = HabisPakai | TidakHabisPakai

  function UnitStatusName(s: UnitStatus): string {
    match s
    case Tersedia => "tersedia"
    case Dipinjam => "dipinjam"
    case Rusak => "rusak"
    case Hilang => "hilang"
  }

  /** The enum validator of `UnitSchema.status`: exactly the four names are accepted. */
  function ParseUnitStatus(s: string): (r: Option<UnitStatus>)
    ensures r.Some? <==> s == "tersedia" || s == "dipinjam" || s == "rusak" || s == "hilang"
    ensures r.Some? ==> UnitStatusName(r.value) == s
  {
    if s == "tersedia" then Some(Tersedia)
    else if s == "dipinjam" then Some(Dipinjam)
    else if s == "rusak" then Some(Rusak)
    else if s == "hilang" then Some(Hilang)
    else None
  }

  /** `["tersedia", "rusak", "hilang"].includes(s)`: the item status / return condition names. */
  function ParseKondisi(s: string): (r: Option<Kondisi>)
    ensures r.Some? <==> s == "tersedia" || s == "rusak" || s == "hilang"
    ensures r.Some? ==> UnitStatusName(r.value) == s
  {
    match ParseUnitStatus(s)
    case Some(k) => if k == Dipinjam then None else Some(k)
    case None => None
  }

  lemma ParseUnitStatusRoundTrip(s: UnitStatus)
    ensures ParseUnitStatus(UnitStatusName(s)) == Some(s)
  {
  }

  /** Enum validator of `jurusan`. */
  function ParseJurusan(s: string): (r: Option<Jurusan>)
    ensures r.Some? <==> s == "RPL" || s == "DKV" || s == "TKJ"
  {
    if s == "RPL" then Some(RPL) else if s == "DKV" then Some(DKV) else if s == "TKJ" then Some(TKJ) else None
  }

  function JurusanName(j: Jurusan): string {
    match j
    case RPL => "RPL"
    case DKV => "DKV"
    case TKJ => "TKJ"
  }

  /** Enum validator of `tipe`. */
  function ParseTipe(s: string): (r: Option<Tipe>)
    ensures r.Some? <==> s == "habis_pakai" || s == "tidak_habis_pakai"
    ensures r == Some(HabisPakai) <==> s == "habis_pakai"
  {
    if s == "habis_pakai" then Some(HabisPakai)
    else if s == "tidak_habis_pakai" then Some(TidakHabisPakai)
    else None
  }

  /** One physical unit of a tidak_habis_pakai item. */
  datatype Unit = Unit(kode: string, status: UnitStatus)

  /**
   * A Barang document. Absent optional fields are `None`: `stok` for a unit-tracked item,
   * `units` for a consumable one, `stokDipinjam` after an update clears it.
   */
  datatype Barang = Barang(
    nama: string,
    jurusan: Jurusan,
    tipe: Tipe,
    stok: Option<int>,
    status: Kondisi,
    units: Option<seq<Unit>>,
    stokDipinjam: Option<int>,
    maxDurasiPinjam: Option<int>,
    deskripsi: string)

  function Kodes(units: seq<Unit>): (ks: seq<string>)
    ensures |ks| == |units| && forall i :: 0 <= i < |units| ==> ks[i] == units[i].kode
  {
    seq(|units|, i requires 0 <= i < |units| => units[i].kode)
  }

  /** The `units` validator: a non-empty array whose set of codes is as large as the array. */
  predicate UnitsValidator(units: seq<Unit>) {
    |units| > 0 && |Elements(Kodes(units))| == |units|
  }

  /** Pairwise distinct unit codes. */
  predicate UniqueKodes(units: seq<Unit>) {
    forall i, j :: 0 <= i < j < |units| ==> units[i].kode != units[j].kode
  }

  /** The validator's set-size test is exactly "non-empty with pairwise distinct codes". */
  lemma UnitsValidatorMeaning(units: seq<Unit>)
    ensures UnitsValidator(units) <==> |units| > 0 && UniqueKodes(units)
  {
    ElementsBound(Kodes(units));
    if Distinct(Kodes(units)) {
      assert UniqueKodes(units);
    }
    if UniqueKodes(units) {
      forall i, j | 0 <= i < j < |units| ensures Kodes(units)[i] != Kodes(units)[j] {
      }
    }
  }

  /** A unit's `kode` is required and stored trimmed. */
  predicate ValidUnit(u: Unit) {
    u.kode != "" && Trimmed(u.kode)
  }

  /** Everything BarangSchema demands of a stored document. */
  predicate ValidBarang(b: Barang) {
    && b.nama != ""
    && (b.tipe == HabisPakai ==> b.stok.Some?)
    && (b.stok.Some? ==> b.stok.value >= 0)
    && (b.tipe == TidakHabisPakai ==> b.units.Some?)
    && (b.units.Some? ==> UnitsValidator(b.units.value) && forall u :: u in b.units.value ==> ValidUnit(u))
    && (b.maxDurasiPinjam.Some? ==> b.maxDurasiPinjam.value >= 1)
  }

  /** A unit as it arrives in a request body: either field may be missing. */
  datatype UnitInput = UnitInput(kode: Option<string>, status: Option<string>)

  /**
   * Casting one unit into `UnitSchema`: the code is trimmed and required, a missing status
   * defaults to tersedia, a given one must be one of the four names.
   */
  function CastUnit(u: UnitInput): (r: Option<Unit>)
    ensures r.Some? ==> u.kode.Some? && ValidUnit(r.value) && r.value.kode == Trim(u.kode.value)
    ensures r.Some? <==> u.kode.Some? && !IsBlank(u.kode.value) && (u.status.None? || ParseUnitStatus(u.status.value).Some?)
  {
    match u.kode
    case None => None
    case Some(k) =>
      var t := Trim(k);
      TrimEmptyIffBlank(k);
      TrimmedMeaning(k);
      if t == "" then None
      else
        match u.status
        case None => Some(Unit(t, Tersedia))
        case Some(s) =>
          match ParseUnitStatus(s)
          case None => None
          case Some(st) => Some(Unit(t, st))
  }

  /** Every unit of the array casts. */
  predicate AllCast(us: seq<UnitInput>) {
    forall i :: 0 <= i < |us| ==> CastUnit(us[i]).Some?
  }

  /** Casting the `units` array: it fails as soon as one unit fails. */
  function CastUnits(us: seq<UnitInput>): (r: Option<seq<Unit>>)
    ensures r.Some? ==> |r.value| == |us|
  {
    if us == [] then Some([])
    else
      var h := CastUnit(us[0]);
      var t := CastUnits(us[1..]);
      if h.Some? && t.Some? then Some([h.value] + t.value) else None
  }

  /** One step of the cast: the head and the rest are cast separately. */
  lemma CastUnitsCons(us: seq<UnitInput>)
    requires us != []
    ensures CastUnits(us).Some? <==> CastUnit(us[0]).Some? && CastUnits(us[1..]).Some?
    ensures CastUnits(us).Some? ==> CastUnits(us).value == [CastUnit(us[0]).value] + CastUnits(us[1..]).value
  {
  }

  /** The array casts exactly when every unit does. */
  lemma {:induction false} CastUnitsAll(us: seq<UnitInput>)
    ensures CastUnits(us).Some? <==> AllCast(us)
  {
    if us != [] {
      CastUnitsCons(us);
      CastUnitsAll(us[1..]);
      if AllCast(us) {
        forall i | 0 <= i < |us[1..]| ensures CastUnit(us[1..][i]).Some? {
          assert us[1..][i] == us[i + 1];
        }
      }
      if CastUnits(us).Some? {
        forall i | 0 <= i < |us| ensures CastUnit(us[i]).Some? {
          if i > 0 { assert us[i] == us[1..][i - 1]; }
        }
      }
    }
  }

  /** Each unit of a cast array is cast on its own. */
  lemma {:induction false} CastUnitsAt(us: seq<UnitInput>, i: nat)
    requires i < |us| && CastUnits(us).Some?
    ensures CastUnit(us[i]) == Some(CastUnits(us).value[i])
    decreases i
  {
    CastUnitsCons(us);
    if i > 0 {
      assert us[i] == us[1..][i - 1];
      CastUnitsAt(us[1..], i - 1);
    }
  }

  /** The array casts exactly when every unit does, and then each unit is cast on its own. */
  lemma CastUnitsPointwise(us: seq<UnitInput>)
    ensures CastUnits(us).Some? <==> AllCast(us)
    ensures CastUnits(us).Some? ==> forall i :: 0 <= i < |us| ==> CastUnit(us[i]) == Some(CastUnits(us).value[i])
  {
    CastUnitsAll(us);
    if CastUnits(us).Some? {
      forall i | 0 <= i < |us| ensures CastUnit(us[i]) == Some(CastUnits(us).value[i]) {
        CastUnitsAt(us, i);
      }
    }
  }

  /**
   * An item as it arrives in a request body (after JSON parsing). `stokDipinjam` is the body's
   * own `stok_dipinjam`, which the schema stores as given.
   */
  datatype BarangInput = BarangInput(
    nama: string,
    jurusan: string,
    tipe: string,
    stok: Option<int>,
    units: Option<seq<UnitInput>>,
    maxDurasiPinjam: Option<int>,
    deskripsi: Option<string>,
    status: Option<string>,
    stokDipinjam: Option<int>)

  /**
   * `new Barang(body).save()`: casting, defaults (`status` tersedia, `stok_dipinjam` 0,
   * `deskripsi` "") and every validator; `None` is a ValidationError. `stok_dipinjam` has no
   * validator, so a value in the body is stored whatever the units say.
   */
  function NewBarang(input: BarangInput): (r: Option<Barang>)
    ensures r.Some? ==> ValidBarang(r.value)
    ensures r.Some? ==> r.value.stokDipinjam == Some(input.stokDipinjam.GetOr(0))
                        && r.value.nama == input.nama && r.value.stok == input.stok
  {
    var jurusan := ParseJurusan(input.jurusan);
    var tipe := ParseTipe(input.tipe);
    var status := if input.status.None? then Some(Tersedia) else ParseKondisi(input.status.value);
    var units := if input.units.None? then Some(None) else
      (match CastUnits(input.units.value) case Some(us) => Some(Some(us)) case None => None);
    if jurusan.None? || tipe.None? || status.None? || units.None? then None
    else
      var b := Barang(input.nama, jurusan.value, tipe.value, input.stok, status.value, units.value,
        Some(input.stokDipinjam.GetOr(0)), input.maxDurasiPinjam, input.deskripsi.GetOr(""));
      if ValidBarang(b) then Some(b) else None
  }

  // ---------------------------------------------------------------------
  // Peminjaman.js
  // ---------------------------------------------------------------------

  /** `peminjamType`: a student (siswa) or someone else (lainnya). */
  datatype BorrowerType = Siswa | Lainnya

  /** `status`, the approval state: pending by default. */
  datatype LoanStatus = Pending | Approved | Rejected

  /** `rentalStatus`, the possession state: pinjam (out) by default, kembali (returned). */
  datatype RentalStatus = Pinjam | Kembali

  function ParseBorrowerType(s: string): (r: Option<BorrowerType>)
    ensures r.Some? <==> s == "siswa" || s == "lainnya"
    ensures r == Some(Siswa) <==> s == "siswa"
  {
    if s == "siswa" then Some(Siswa) else if s == "lainnya" then Some(Lainnya) else None
  }

  /** One entry of a loan's `unitStatus` audit trail. */
  datatype UnitLoanRecord = UnitLoanRecord(kode: string, statusSaatPinjam: UnitStatus, statusSetelahKembali: Option<Kondisi>)

  /** A Peminjaman document. */
  datatype Loan = Loan(
    barang: Id,
    jurusan: Jurusan,
    peminjamType: BorrowerType,
    peminjamSiswa: Option<Id>,
    peminjamNama: Option<string>,
    peminjamAsal: Option<string>,
    peminjamPhone: string,
    status: LoanStatus,
    rentalStatus: RentalStatus,
    isConsumable: bool,
    jumlah: Option<int>,
    unitKodes: Option<seq<string>>,
    unitStatus: seq<UnitLoanRecord>,
    tglPinjam: Time,
    tglKembali: Option<Time>,
    keterangan: string)

  /** The `unitKodes` validator: when present, non-empty and without duplicates. */
  predicate UnitKodesValidator(ks: seq<string>) {
    |ks| > 0 && |Elements(ks)| == |ks|
  }

  lemma UnitKodesValidatorMeaning(ks: seq<string>)
    ensures UnitKodesValidator(ks) <==> |ks| > 0 && Distinct(ks)
  {
    ElementsBound(ks);
  }

  /** Everything PeminjamanSchema demands of a stored document. */
  predicate ValidLoan(l: Loan) {
    && l.barang != ""
    && (l.peminjamType == Siswa ==> l.peminjamSiswa.Some? && l.peminjamSiswa.value != "")
    && (l.peminjamType == Lainnya ==> l.peminjamNama.Some? && l.peminjamNama.value != "")
    && (l.peminjamType == Lainnya ==> l.peminjamAsal.Some? && l.peminjamAsal.value != "")
    && l.peminjamPhone != ""
    && (l.isConsumable ==> l.jumlah.Some?)
    && (l.jumlah.Some? ==> l.jumlah.value >= 1)
    && (!l.isConsumable ==> l.unitKodes.Some?)
    && (l.unitKodes.Some? ==> UnitKodesValidator(l.unitKodes.value))
  }

  // ---------------------------------------------------------------------
  // The database: the `barang` and `peminjaman` collections.
  // ---------------------------------------------------------------------

  datatype State = State(items: map<Id, Barang>, loans: map<Id, Loan>)

  /** Every stored document passed its schema. */
  ghost predicate ValidState(s: State) {
    && (forall id :: id in s.items ==> ValidBarang(s.items[id]))
    && (forall id :: id in s.loans ==> ValidLoan(s.loans[id]))
  }

  class Db {
    var items: map<Id, Barang>
    var loans: map<Id, Loan>

    constructor ()
      ensures items == map[] && loans == map[]
    {
      items := map[];
      loans := map[];
    }

    function Snapshot(): State
      reads this
    {
      State(items, loans)
    }
  }
}
