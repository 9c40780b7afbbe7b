/**
 * frontend/src/pages/ManageItemsPage.jsx: the client-side validation of the item form
 * (`validateForm`) and the request that `handleSubmit` sends when it passes.
 */
module ItemForm {
  import opened Wrappers
  import opened Strings
  import opened Models

  /** One row of the form's unit list; a missing `kode` is "". */
  datatype FormUnit = FormUnit(kode: string, status: string)

  /** `formData` as the form holds it: the select and text inputs are strings, `stok` a number. */
  datatype FormData = FormData(
    nama: string,
    jurusan: string,
    tipe: string,
    stok: int,
    status: string,
    maxDurasiPinjam: string,
    deskripsi: string,
    units: seq<FormUnit>)

  /** The initial and reset value of `formData`. */
  const EmptyForm := FormData("", "", "", 0, "tersedia", "", "", [])

  /** The keys of `newErrors`: the field names, and `units.<idx>.kode` / `units.<idx>.status`. */
  datatype ErrorKey =
    | NamaKey | JurusanKey | TipeKey | StokKey | StatusKey | UnitsKey | MaxDurasiKey
    | UnitKodeKey(idx: nat) | UnitStatusKey(idx: nat)

  /** The messages stored in `newErrors`. */
  datatype Message =
    | NamaRequired | JurusanRequired | TipeRequired | StokNegative | StatusInvalid
    | UnitsRequired | KodeRequired | KodeNotUnique | UnitStatusInvalid | MaxDurasiInvalid

  function Text(m: Message): string {
    match m
    case NamaRequired => "Nama barang wajib diisi"
    case JurusanRequired => "Jurusan wajib diisi"
    case TipeRequired => "Tipe wajib diisi"
    case StokNegative => "Stok harus ≥ 0"
    case StatusInvalid => "Status tidak valid"
    case UnitsRequired => "Minimal satu unit wajib ditambahkan"
    case KodeRequired => "Kode unit wajib diisi"
    case KodeNotUnique => "Kode unit harus unik"
    case UnitStatusInvalid => "Status unit tidak valid"
    case MaxDurasiInvalid => "Max durasi pinjam harus bilangan bulat ≥ 1"
  }

  type Errors = map<ErrorKey, Message>

  /**
   * `formData.maxDurasiPinjam && (isNaN(m) || parseInt(m) < 1)`: a non-empty value that is not
   * a number, or whose integer prefix is below 1 (a `parseInt` of `NaN` compares false).
   */
  predicate MaxDurasiRejected(m: string) {
    m != "" && (!IsNumeric(m) || (ParseIntAuto(m).Some? && ParseIntAuto(m).value < 1))
  }

  /** A duration written as a decimal number is refused exactly when it is below 1. */
  lemma MaxDurasiDecimal(n: nat)
    ensures MaxDurasiRejected(NatToString(n)) <==> n < 1
  {
    NatTextReads(n);
  }

  /** The checks made before the unit list: nama, jurusan, tipe. */
  function HeaderErrors(f: FormData): (e: Errors)
    ensures NamaKey in e <==> Trim(f.nama) == ""
    ensures JurusanKey in e <==> f.jurusan == ""
    ensures TipeKey in e <==> f.tipe == ""
    ensures e.Keys <= {NamaKey, JurusanKey, TipeKey}
  {
    var e0: Errors := map[];
    var e1 := if Trim(f.nama) == "" then e0[NamaKey := NamaRequired] else e0;
    var e2 := if f.jurusan == "" then e1[JurusanKey := JurusanRequired] else e1;
    if f.tipe == "" then e2[TipeKey := TipeRequired] else e2
  }

  /** The unit codes after `trim()`, which is what the loop compares and records. */
  function TrimmedKodes(units: seq<FormUnit>): (ts: seq<string>)
    ensures |ts| == |units|
    ensures forall i :: 0 <= i < |units| ==> ts[i] == Trim(units[i].kode)
  {
    seq(|units|, i requires 0 <= i < |units| => Trim(units[i].kode))
  }

  /** The set `seen` before the unit at `i`: the non-blank trimmed codes of the earlier units. */
  function SeenBefore(ts: seq<string>, i: nat): set<string>
    requires i <= |ts|
  {
    set j | 0 <= j < i && ts[j] != "" :: ts[j]
  }

  /**
   * The body of the `forEach` over the units (`ts` their trimmed codes), from index `i` on,
   * with the set `seen` and the errors found so far.
   */
  function UnitErrorsFrom(ts: seq<string>, units: seq<FormUnit>, i: nat, seen: set<string>, errs: Errors): Errors
    requires |ts| == |units| && i <= |units|
    decreases |units| - i
  {
    if i == |units| then errs
    else
      UnitErrorsFrom(ts, units, i + 1, SeenAfter(ts[i], seen),
                     StatusCheck(units[i].status, i, KodeCheck(ts[i], i, seen, errs)))
  }

  /** The code check of one round: blank, or already in `seen`. */
  function KodeCheck(t: string, i: nat, seen: set<string>, errs: Errors): Errors {
    if t == "" then errs[UnitKodeKey(i) := KodeRequired]
    else if t in seen then errs[UnitKodeKey(i) := KodeNotUnique]
    else errs
  }

  /** `seen.add(kode)` for a non-blank code not seen yet. */
  function SeenAfter(t: string, seen: set<string>): set<string> {
    if t == "" || t in seen then seen else seen + {t}
  }

  /** The status check of one round. */
  function StatusCheck(status: string, i: nat, errs: Errors): Errors {
    if ParseUnitStatus(status).None? then errs[UnitStatusKey(i) := UnitStatusInvalid] else errs
  }

  /** `validateForm()`: the whole error map. */
  function FormErrors(f: FormData): Errors {
    var e := HeaderErrors(f);
    if f.tipe == "habis_pakai" then
      var e1 := if f.stok < 0 then e[StokKey := StokNegative] else e;
      if ParseKondisi(f.status).None? then e1[StatusKey := StatusInvalid] else e1
    else if f.tipe == "tidak_habis_pakai" then
      var e1 := if f.units == [] then e[UnitsKey := UnitsRequired]
        else UnitErrorsFrom(TrimmedKodes(f.units), f.units, 0, {}, e);
      if MaxDurasiRejected(f.maxDurasiPinjam) then e1[MaxDurasiKey := MaxDurasiInvalid] else e1
    else e
  }

  /** What the form says about the code at `k`: blank, a repeat of an earlier code, or nothing. */
  function KodeVerdict(ts: seq<string>, k: nat): Option<Message>
    requires k < |ts|
  {
    if ts[k] == "" then Some(KodeRequired)
    else if exists j :: 0 <= j < k && ts[j] == ts[k] then Some(KodeNotUnique)
    else None
  }

  /** A non-blank code was seen before exactly when an earlier unit has it. */
  lemma SeenBeforeMeaning(ts: seq<string>, k: nat)
    requires k < |ts| && ts[k] != ""
    ensures ts[k] in SeenBefore(ts, k) <==> exists j :: 0 <= j < k && ts[j] == ts[k]
  {
  }

  /** `seen` grows by the unit's code when it is non-blank. */
  lemma SeenBeforeStep(ts: seq<string>, i: nat)
    requires i < |ts|
    ensures var t := ts[i];
      SeenBefore(ts, i + 1) == if t == "" || t in SeenBefore(ts, i) then SeenBefore(ts, i) else SeenBefore(ts, i) + {t}
  {
    var t := ts[i];
    var a := SeenBefore(ts, i);
    var b := SeenBefore(ts, i + 1);
    if t == "" {
      assert b == a;
    } else {
      assert t in b;
      assert b == a + {t};
    }
  }

  /** A key that the loop from `i` over `n` units writes. */
  predicate Later(key: ErrorKey, i: nat, n: nat) {
    (key.UnitKodeKey? && i <= key.idx < n) || (key.UnitStatusKey? && i <= key.idx < n)
  }

  /** The loop from `i` on leaves every key it does not write as it was. */
  lemma {:induction false} UnitErrorsFromFrame(ts: seq<string>, units: seq<FormUnit>, i: nat, seen: set<string>, errs: Errors)
    requires |ts| == |units| && i <= |units|
    ensures var r := UnitErrorsFrom(ts, units, i, seen, errs);
      forall key :: !Later(key, i, |units|) ==> (key in r <==> key in errs) && (key in r ==> r[key] == errs[key])
    decreases |units| - i
  {
    if i < |units| {
      var seen' := SeenAfter(ts[i], seen);
      var e2 := StatusCheck(units[i].status, i, KodeCheck(ts[i], i, seen, errs));
      UnitErrorsFromFrame(ts, units, i + 1, seen', e2);
      var r := UnitErrorsFrom(ts, units, i, seen, errs);
      assert r == UnitErrorsFrom(ts, units, i + 1, seen', e2);
      forall key | !Later(key, i, |units|)
        ensures (key in r <==> key in errs) && (key in r ==> r[key] == errs[key])
      {
        assert !Later(key, i + 1, |units|);
        assert key != UnitKodeKey(i) && key != UnitStatusKey(i);
      }
    }
  }

  /** The loop from `i` on decides the unit at `k` by `KodeVerdict` and the status check. */
  lemma {:induction false} UnitErrorsFromAt(ts: seq<string>, units: seq<FormUnit>, i: nat, errs: Errors, k: nat)
    requires |ts| == |units| && i <= k < |units|
    requires forall key :: Later(key, i, |units|) ==> key !in errs
    ensures var r := UnitErrorsFrom(ts, units, i, SeenBefore(ts, i), errs);
      && (UnitKodeKey(k) in r <==> KodeVerdict(ts, k).Some?)
      && (UnitKodeKey(k) in r ==> r[UnitKodeKey(k)] == KodeVerdict(ts, k).value)
      && (UnitStatusKey(k) in r <==> ParseUnitStatus(units[k].status).None?)
    decreases k - i
  {
    var seen := SeenBefore(ts, i);
    var t := ts[i];
    var seen' := SeenAfter(t, seen);
    var e2 := StatusCheck(units[i].status, i, KodeCheck(t, i, seen, errs));
    SeenBeforeStep(ts, i);
    if k == i {
      if t != "" {
        SeenBeforeMeaning(ts, i);
      }
      UnitErrorsFromFrame(ts, units, i + 1, seen', e2);
      assert !Later(UnitKodeKey(i), i + 1, |units|) && !Later(UnitStatusKey(i), i + 1, |units|);
    } else {
      UnitErrorsFromAt(ts, units, i + 1, e2, k);
    }
  }

  /** The loop from the first unit writes only keys of existing units, as `KodeVerdict` says. */
  lemma UnitErrorsMeaning(ts: seq<string>, units: seq<FormUnit>, errs: Errors)
    requires |ts| == |units|
    requires forall k: nat :: UnitKodeKey(k) !in errs && UnitStatusKey(k) !in errs
    ensures var r := UnitErrorsFrom(ts, units, 0, {}, errs);
      && (forall k: nat :: UnitKodeKey(k) in r <==> k < |units| && KodeVerdict(ts, k).Some?)
      && (forall k: nat :: UnitKodeKey(k) in r ==> r[UnitKodeKey(k)] == KodeVerdict(ts, k).value)
      && (forall k: nat :: UnitStatusKey(k) in r <==> k < |units| && ParseUnitStatus(units[k].status).None?)
      && (forall key: ErrorKey :: !key.UnitKodeKey? && !key.UnitStatusKey? ==> (key in r <==> key in errs))
      && (forall key: ErrorKey :: !key.UnitKodeKey? && !key.UnitStatusKey? && key in errs ==> r[key] == errs[key])
  {
    assert SeenBefore(ts, 0) == {};
    UnitErrorsFromFrame(ts, units, 0, {}, errs);
    forall k: nat | k < |units|
      ensures var r := UnitErrorsFrom(ts, units, 0, {}, errs);
        && (UnitKodeKey(k) in r <==> KodeVerdict(ts, k).Some?)
        && (UnitKodeKey(k) in r ==> r[UnitKodeKey(k)] == KodeVerdict(ts, k).value)
        && (UnitStatusKey(k) in r <==> ParseUnitStatus(units[k].status).None?)
    {
      UnitErrorsFromAt(ts, units, 0, errs, k);
    }
    forall k: nat | k >= |units|
      ensures !Later(UnitKodeKey(k), 0, |units|) && !Later(UnitStatusKey(k), 0, |units|)
    {
    }
  }

  /**
   * What `validateForm` reports about the fields: the header checks always, the stock and
   * status checks for a consumable, the unit list and loan-duration checks for a unit-tracked
   * item.
   */
  lemma FormFieldErrors(f: FormData)
    ensures var e := FormErrors(f);
      && (NamaKey in e <==> Trim(f.nama) == "")
      && (JurusanKey in e <==> f.jurusan == "")
      && (TipeKey in e <==> f.tipe == "")
      && (StokKey in e <==> f.tipe == "habis_pakai" && f.stok < 0)
      && (StatusKey in e <==> f.tipe == "habis_pakai" && ParseKondisi(f.status).None?)
      && (UnitsKey in e <==> f.tipe == "tidak_habis_pakai" && f.units == [])
      && (MaxDurasiKey in e <==> f.tipe == "tidak_habis_pakai" && MaxDurasiRejected(f.maxDurasiPinjam))
  {
    if f.tipe == "tidak_habis_pakai" && f.units != [] {
      UnitErrorsMeaning(TrimmedKodes(f.units), f.units, HeaderErrors(f));
    }
  }

  /**
   * What `validateForm` reports about the units: a code is flagged at its own index when it
   * is blank or when an earlier unit has it, a status when it is not one of the four.
   */
  lemma FormUnitErrors(f: FormData)
    ensures var e := FormErrors(f); var ts := TrimmedKodes(f.units);
      && (forall k: nat :: UnitKodeKey(k) in e <==>
            f.tipe == "tidak_habis_pakai" && k < |f.units| && KodeVerdict(ts, k).Some?)
      && (forall k: nat :: UnitKodeKey(k) in e ==> e[UnitKodeKey(k)] == KodeVerdict(ts, k).value)
      && (forall k: nat :: UnitStatusKey(k) in e <==>
            f.tipe == "tidak_habis_pakai" && k < |f.units| && ParseUnitStatus(f.units[k].status).None?)
  {
    if f.tipe == "tidak_habis_pakai" && f.units != [] {
      UnitErrorsMeaning(TrimmedKodes(f.units), f.units, HeaderErrors(f));
    }
  }

  /** The `forEach` of `validateForm` over a non-empty unit list, with its `seen` set. */
  method CheckUnits(units: seq<FormUnit>, errors0: Errors) returns (errors: Errors)
    ensures errors == UnitErrorsFrom(TrimmedKodes(units), units, 0, {}, errors0)
  {
    ghost var ts := TrimmedKodes(units);
    errors := errors0;
    var seen: set<string> := {};
    var idx := 0;
    while idx < |units|
      invariant 0 <= idx <= |units|
      invariant UnitErrorsFrom(ts, units, 0, {}, errors0) == UnitErrorsFrom(ts, units, idx, seen, errors)
    {
      ghost var seen0, errs0 := seen, errors;
      var t := Trim(units[idx].kode);
      assert t == ts[idx];
      if t == "" {
        errors := errors[UnitKodeKey(idx) := KodeRequired];
      } else if t in seen {
        errors := errors[UnitKodeKey(idx) := KodeNotUnique];
      } else {
        seen := seen + {t};
      }
      assert errors == KodeCheck(t, idx, seen0, errs0) && seen == SeenAfter(t, seen0);
      ghost var errs1 := errors;
      if ParseUnitStatus(units[idx].status).None? {
        errors := errors[UnitStatusKey(idx) := UnitStatusInvalid];
      }
      assert errors == StatusCheck(units[idx].status, idx, errs1);
      assert UnitErrorsFrom(ts, units, idx, seen0, errs0) == UnitErrorsFrom(ts, units, idx + 1, seen, errors);
      idx := idx + 1;
    }
  }

  /** `validateForm` as written: the checks in order, then the `forEach` with its `seen` set. */
  method ValidateForm(f: FormData) returns (errors: Errors)
    ensures errors == FormErrors(f)
  {
    errors := map[];
    if Trim(f.nama) == "" {
      errors := errors[NamaKey := NamaRequired];
    }
    if f.jurusan == "" {
      errors := errors[JurusanKey := JurusanRequired];
    }
    if f.tipe == "" {
      errors := errors[TipeKey := TipeRequired];
    }
    assert errors == HeaderErrors(f);
    if f.tipe == "habis_pakai" {
      if f.stok < 0 {
        errors := errors[StokKey := StokNegative];
      }
      if ParseKondisi(f.status).None? {
        errors := errors[StatusKey := StatusInvalid];
      }
    } else if f.tipe == "tidak_habis_pakai" {
      if f.units == [] {
        errors := errors[UnitsKey := UnitsRequired];
      } else {
        errors := CheckUnits(f.units, errors);
      }
      if MaxDurasiRejected(f.maxDurasiPinjam) {
        errors := errors[MaxDurasiKey := MaxDurasiInvalid];
      }
    }
  }

  // ---------------------------------------------------------------------
  // handleSubmit
  // ---------------------------------------------------------------------

  /**
   * `basePayload` with the type-specific fields: `stok` and `status` for a consumable, the
   * units with trimmed codes otherwise; `maxDurasiPinjam` only for a unit-tracked item.
   */
  datatype Payload = Payload(
    nama: string,
    jurusan: string,
    tipe: string,
    maxDurasiPinjam: Option<string>,
    deskripsi: string,
    stok: Option<int>,
    status: Option<string>,
    units: Option<seq<FormUnit>>)

  /** The call made: `updateBarang(editingId, payload)` when editing, a POST otherwise. */
  datatype Submission = Update(id: Id, payload: Payload) | Create(payload: Payload)

  function TrimKodes(units: seq<FormUnit>): (r: seq<FormUnit>)
    ensures |r| == |units|
    ensures forall i :: 0 <= i < |units| ==> r[i] == FormUnit(TrimmedKodes(units)[i], units[i].status)
  {
    var ts := TrimmedKodes(units);
    seq(|units|, i requires 0 <= i < |units| => FormUnit(ts[i], units[i].status))
  }

  function MakePayload(f: FormData): Payload {
    var base := Payload(Trim(f.nama), f.jurusan, f.tipe,
      if f.tipe == "tidak_habis_pakai" then Some(f.maxDurasiPinjam) else None,
      Trim(f.deskripsi), None, None, None);
    if f.tipe == "habis_pakai" then base.(stok := Some(f.stok), status := Some(f.status))
    else base.(units := Some(TrimKodes(f.units)))
  }

  /** `handleSubmit`: the error map when it is not empty, else the request to send. */
  function HandleSubmit(f: FormData, editingId: Option<Id>): (r: Result<Submission, Errors>)
    ensures r.Err? <==> FormErrors(f) != map[]
    ensures r.Err? ==> r.error == FormErrors(f)
    ensures r.Ok? ==> r.value.payload == MakePayload(f) && (r.value.Update? <==> editingId.Some?)
  {
    var errors := FormErrors(f);
    if errors != map[] then Err(errors)
    else if editingId.Some? then Ok(Update(editingId.value, MakePayload(f)))
    else Ok(Create(MakePayload(f)))
  }

  /**
   * A submitted form already meets the item rules the server checks: non-blank name, jurusan
   * and tipe; for a consumable a stock of at least 0 and a valid status; for a unit-tracked
   * item a non-empty unit list of distinct non-blank codes with valid statuses.
   */
  lemma SubmittedFormIsClean(f: FormData, editingId: Option<Id>)
    requires HandleSubmit(f, editingId).Ok?
    ensures var p := HandleSubmit(f, editingId).value.payload;
      && p.nama != "" && Trimmed(p.nama) && p.jurusan != "" && p.tipe != ""
      && (p.tipe == "habis_pakai" ==>
            p.stok.Some? && p.stok.value >= 0 && p.status.Some? && ParseKondisi(p.status.value).Some?)
      && (p.tipe != "habis_pakai" ==> p.units.Some?)
      && (p.tipe == "tidak_habis_pakai" ==>
            var us := p.units.value;
            && us != []
            && !MaxDurasiRejected(p.maxDurasiPinjam.value)
            && (forall k :: 0 <= k < |us| ==> us[k].kode != "" && ParseUnitStatus(us[k].status).Some?)
            && (forall j, k :: 0 <= j < k < |us| ==> us[j].kode != us[k].kode))
  {
    FormFieldErrors(f);
    FormUnitErrors(f);
    var e := FormErrors(f);
    assert e == map[];
    TrimmedMeaning(f.nama);
    if f.tipe == "tidak_habis_pakai" {
      var us := TrimKodes(f.units);
      forall k | 0 <= k < |us|
        ensures us[k].kode != "" && ParseUnitStatus(us[k].status).Some?
      {
        assert UnitKodeKey(k) !in e && UnitStatusKey(k) !in e;
      }
      forall j, k | 0 <= j < k < |us|
        ensures us[j].kode != us[k].kode
      {
        assert UnitKodeKey(k) !in e;
        assert KodeVerdict(TrimmedKodes(f.units), k).None?;
      }
    }
  }
}
