/**
 * The item side of backend/controllers/barangController.js: code minting in `addBarang`,
 * the field rewrite of `updateBarang`, the code preview and allocation endpoints, the row
 * parsing of the CSV import, the manual unit-status override and the counts that
 * `getAllBarang` attaches to each unit-tracked item.
 */
module Catalog {
  import opened Wrappers
  import opened Strings
  import opened Codes
  import opened Counter
  import opened Models
  import opened Loans
  import LoanProperties

  /** What a catalog handler answers instead of a document. */
  datatype CatalogError =
    | BadRequest      // addBarang's 400: a validation or cast error on save
    | MissingParams   // getNextKodeUnit without jurusan or nama
    | InvalidStatus   // kembalikanUnit with a status outside tersedia/rusak/hilang
    | UnitNotFound    // kembalikanUnit: no item holds that code
    | SaveRefused     // kembalikanUnit's 500: the save of the overridden item is refused

  // ---------------------------------------------------------------------
  // addBarang: filling in the unit codes
  // ---------------------------------------------------------------------

  /** `u.kode && u.kode.trim()`: the unit arrives with a code of its own. */
  predicate HasKode(u: UnitInput) {
    u.kode.Some? && !IsBlank(u.kode.value)
  }

  /** How many units arrive without a code of their own. */
  function Blanks(units: seq<UnitInput>): nat {
    if units == [] then 0 else (if HasKode(units[0]) then 0 else 1) + Blanks(units[1..])
  }

  /**
   * The loop of `addBarang` over the request's units, from the counters `seqs` with `acc`
   * already pushed: a unit with a code is pushed as it is, a unit without one takes the bare
   * padded next number of `key` and keeps its status. Returns `newUnits` and the counters.
   */
  function FillKodes(units: seq<UnitInput>, seqs: map<string, nat>, key: string, acc: seq<UnitInput>)
    : (seq<UnitInput>, map<string, nat>)
    decreases |units|
  {
    if units == [] then (acc, seqs)
    else if HasKode(units[0]) then FillKodes(units[1..], seqs, key, acc + [units[0]])
    else FillKodes(units[1..], Advance(seqs, key), key,
                   acc + [UnitInput(Some(SeqText(NextValue(seqs, key))), units[0].status)])
  }

  /** The `i`-th unit after filling, when the first minted number is `start`. */
  function Filled(units: seq<UnitInput>, i: nat, start: nat): UnitInput
    requires i < |units|
  {
    if HasKode(units[i]) then units[i]
    else UnitInput(Some(SeqText(start + Blanks(units[..i]))), units[i].status)
  }

  /** The loop keeps what was pushed before it and advances the counter once per blank unit. */
  lemma {:induction false} FillKodesFrame(units: seq<UnitInput>, seqs: map<string, nat>, key: string, acc: seq<UnitInput>)
    ensures var r := FillKodes(units, seqs, key, acc);
      && |r.0| == |acc| + |units| && r.0[..|acc|] == acc
      && r.1 == AdvanceBy(seqs, key, Blanks(units))
    decreases |units|
  {
    if units != [] {
      var head := if HasKode(units[0]) then units[0] else UnitInput(Some(SeqText(NextValue(seqs, key))), units[0].status);
      var seqs' := if HasKode(units[0]) then seqs else Advance(seqs, key);
      FillKodesFrame(units[1..], seqs', key, acc + [head]);
      var r := FillKodes(units, seqs, key, acc);
      assert r == FillKodes(units[1..], seqs', key, acc + [head]);
      PrefixOfPush(r.0, acc, head);
    }
  }

  /** A list that starts with `p + [x]` starts with `p`. */
  lemma PrefixOfPush<T>(s: seq<T>, p: seq<T>, x: T)
    requires |p| + 1 <= |s| && s[..|p| + 1] == p + [x]
    ensures s[..|p|] == p
  {
    assert s[..|p|] == s[..|p| + 1][..|p|];
  }

  /** The `i`-th unit the loop pushes is `Filled(units, i, ...)` from the first peeked value. */
  lemma {:induction false} FillKodesAt(units: seq<UnitInput>, seqs: map<string, nat>, key: string, acc: seq<UnitInput>, i: nat)
    requires i < |units|
    ensures |FillKodes(units, seqs, key, acc).0| == |acc| + |units|
    ensures FillKodes(units, seqs, key, acc).0[|acc| + i] == Filled(units, i, NextValue(seqs, key))
    decreases i
  {
    var start := NextValue(seqs, key);
    var head := if HasKode(units[0]) then units[0] else UnitInput(Some(SeqText(start)), units[0].status);
    var seqs' := if HasKode(units[0]) then seqs else Advance(seqs, key);
    var r := FillKodes(units, seqs, key, acc);
    assert r == FillKodes(units[1..], seqs', key, acc + [head]);
    FillKodesFrame(units[1..], seqs', key, acc + [head]);
    if i == 0 {
      assert units[..0] == [];
      assert r.0[..|acc| + 1][|acc|] == head;
    } else {
      FillKodesAt(units[1..], seqs', key, acc + [head], i - 1);
      assert NextValue(seqs', key) == start + (if HasKode(units[0]) then 0 else 1);
      FilledShift(units, i, start);
    }
  }

  /** Past the first unit, the blanks before `i` are those of the tail plus the first unit's. */
  lemma BlanksShift(units: seq<UnitInput>, i: nat)
    requires 0 < i <= |units|
    ensures Blanks(units[..i]) == (if HasKode(units[0]) then 0 else 1) + Blanks(units[1..][..i - 1])
  {
    assert units[..i][1..] == units[1..][..i - 1];
    assert units[..i][0] == units[0];
  }

  /** The `i`-th filled unit is the `(i-1)`-th of the tail, numbered from one later when the first is blank. */
  lemma FilledShift(units: seq<UnitInput>, i: nat, start: nat)
    requires 0 < i < |units|
    ensures Filled(units[1..], i - 1, start + (if HasKode(units[0]) then 0 else 1)) == Filled(units, i, start)
  {
    BlanksShift(units, i);
    assert units[1..][i - 1] == units[i];
  }

  /**
   * What the loop builds: the list keeps its order and length, a unit with a code is kept
   * unchanged, the blank ones receive consecutive numbers from the peeked value in list order,
   * and the counter is advanced once per blank unit.
   */
  lemma FillKodesShape(units: seq<UnitInput>, seqs: map<string, nat>, key: string)
    ensures var r := FillKodes(units, seqs, key, []);
      && |r.0| == |units|
      && (forall i :: 0 <= i < |units| ==> r.0[i] == Filled(units, i, NextValue(seqs, key)))
      && r.1 == AdvanceBy(seqs, key, Blanks(units))
  {
    FillKodesFrame(units, seqs, key, []);
    forall i | 0 <= i < |units|
      ensures FillKodes(units, seqs, key, []).0[i] == Filled(units, i, NextValue(seqs, key))
    {
      FillKodesAt(units, seqs, key, [], i);
    }
  }

  /** The minted numbers never repeat: two blank units get different codes. */
  lemma MintedKodesDistinct(units: seq<UnitInput>, start: nat, i: nat, j: nat)
    requires i < j < |units| && !HasKode(units[i]) && !HasKode(units[j])
    ensures Filled(units, i, start).kode != Filled(units, j, start).kode
  {
    var a, b := MintedNumbers(units, start, i, j);
    MintedKodeDistinct(a, b);
  }

  /** The numbers two blank units are minted with, the earlier one smaller. */
  lemma MintedNumbers(units: seq<UnitInput>, start: nat, i: nat, j: nat) returns (a: nat, b: nat)
    requires i < j < |units| && !HasKode(units[i]) && !HasKode(units[j])
    ensures a < b
    ensures Filled(units, i, start).kode == Some(SeqText(a)) && Filled(units, j, start).kode == Some(SeqText(b))
  {
    a, b := start + Blanks(units[..i]), start + Blanks(units[..j]);
    BlanksPrefixGrows(units, i, j);
    FilledBlankKode(units, i, start);
    FilledBlankKode(units, j, start);
  }

  /** Two different numbers are minted as two different codes. */
  lemma MintedKodeDistinct(a: nat, b: nat)
    requires a != b
    ensures Some(SeqText(a)) != Some(SeqText(b))
  {
    SeqTextDistinct(a, b);
  }

  /** A unit that arrives without a code takes the number after the blanks before it. */
  lemma FilledBlankKode(units: seq<UnitInput>, i: nat, start: nat)
    requires i < |units| && !HasKode(units[i])
    ensures Filled(units, i, start).kode == Some(SeqText(start + Blanks(units[..i])))
  {
  }

  /** A blank unit at `i` counts among the blanks before any later index `j`. */
  lemma {:induction false} BlanksPrefixGrows(units: seq<UnitInput>, i: nat, j: nat)
    requires i < j <= |units| && !HasKode(units[i])
    ensures Blanks(units[..i]) < Blanks(units[..j])
    decreases i
  {
    if i == 0 {
      assert units[..j][0] == units[0];
    } else {
      assert units[..i][1..] == units[1..][..i - 1];
      assert units[..j][1..] == units[1..][..j - 1];
      assert units[..i][0] == units[0] && units[..j][0] == units[0];
      BlanksPrefixGrows(units[1..], i - 1, j - 1);
    }
  }

  /** The request body `addBarang` hands to `new Barang(...)`, and the counters after the minting. */
  function Prepared(seqs: map<string, nat>, input: BarangInput): (BarangInput, map<string, nat>) {
    var key := CounterKey(input.jurusan, input.nama);
    if input.tipe == "habis_pakai" then (input, Advance(seqs, key))
    else if input.units.Some? then
      var f := FillKodes(input.units.value, seqs, key, []);
      (input.(units := Some(f.0)), f.1)
    else (input, seqs)
  }

  /** `req.body.kode` of a consumable: `jurusan-ABBREV-NNN` from the next number of its key. */
  function ConsumableKode(seqs: map<string, nat>, input: BarangInput): string {
    FullCode(input.jurusan, input.nama, SeqText(NextValue(seqs, CounterKey(input.jurusan, input.nama))))
  }

  /**
   * `addBarang` against the items and the counters: the minting, then the save, which fails
   * on a validation error (or a clash with an existing id). The counter increments are not
   * part of the transaction, so they stay even when the save fails.
   */
  function AddBarangStep(items: map<Id, Barang>, seqs: map<string, nat>, input: BarangInput, newId: Id)
    : (r: (Result<Barang, CatalogError>, map<Id, Barang>, map<string, nat>))
    ensures r.2 == Prepared(seqs, input).1
    ensures r.0.Err? ==> r.0.error == BadRequest && r.1 == items
    ensures r.0.Ok? ==> newId !in items && r.1 == items[newId := r.0.value] && ValidBarang(r.0.value)
    ensures r.0.Ok? ==> r.0.value.stokDipinjam == Some(input.stokDipinjam.GetOr(0)) && r.0.value.nama == input.nama
  {
    var p := Prepared(seqs, input);
    match NewBarang(p.0)
    case None => (Err(BadRequest), items, p.1)
    case Some(b) => if newId in items then (Err(BadRequest), items, p.1) else (Ok(b), items[newId := b], p.1)
  }

  /**
   * A consumable takes exactly one number from its key, whatever the outcome of the save,
   * and its code ends in that number.
   */
  lemma ConsumableMintsOne(items: map<Id, Barang>, seqs: map<string, nat>, input: BarangInput, newId: Id)
    requires input.tipe == "habis_pakai"
    ensures var key := CounterKey(input.jurusan, input.nama);
      && AddBarangStep(items, seqs, input, newId).2 == AdvanceBy(seqs, key, 1)
      && ParseInt(LastSegment(ConsumableKode(seqs, input))) == Some(NextValue(seqs, key))
  {
    FullCodeSequenceRoundTrip(input.jurusan, input.nama, NextValue(seqs, CounterKey(input.jurusan, input.nama)));
  }

  /** A minted code is digits only, so the schema's trim leaves it as it is. */
  lemma SeqTextTrimmed(n: nat)
    ensures Trim(SeqText(n)) == SeqText(n)
  {
    var t := SeqText(n);
    DigitNotSpace(t[0]);
    DigitNotSpace(t[|t| - 1]);
    TrimmedMeaning(t);
  }

  lemma DigitNotSpace(c: char)
    requires IsDigit(c)
    ensures !IsSpace(c)
  {
  }

  /** The counter advances once per blank unit, whether or not the save succeeds. */
  lemma AddedUnitCounters(items: map<Id, Barang>, seqs: map<string, nat>, input: BarangInput, newId: Id)
    requires input.tipe != "habis_pakai" && input.units.Some?
    ensures AddBarangStep(items, seqs, input, newId).2
         == AdvanceBy(seqs, CounterKey(input.jurusan, input.nama), Blanks(input.units.value))
  {
    FillKodesShape(input.units.value, seqs, CounterKey(input.jurusan, input.nama));
  }

  /**
   * The code the `i`-th unit is stored with when the first minted number is `start`: its own
   * code trimmed, or the bare padded number `start + k` for the `k`-th unit without one.
   */
  function SavedKode(us: seq<UnitInput>, i: nat, start: nat): string
    requires i < |us|
  {
    if HasKode(us[i]) then Trim(us[i].kode.value) else SeqText(start + Blanks(us[..i]))
  }

  /**
   * A saved unit-tracked item holds the request's units in order: a unit with a code keeps it
   * (trimmed by the schema), the `k`-th blank one gets the bare padded number `peek + k`.
   */
  lemma AddedUnitKodes(items: map<Id, Barang>, seqs: map<string, nat>, input: BarangInput, newId: Id)
    requires input.tipe != "habis_pakai" && input.units.Some?
    requires AddBarangStep(items, seqs, input, newId).0.Ok?
    ensures var key := CounterKey(input.jurusan, input.nama); var us := input.units.value;
      var saved := AddBarangStep(items, seqs, input, newId).0.value;
      && saved.units.Some? && |saved.units.value| == |us|
      && forall i :: 0 <= i < |us| ==> saved.units.value[i].kode == SavedKode(us, i, NextValue(seqs, key))
  {
    SavedUnitsCast(items, seqs, input, newId);
    FilledUnitKodes(input.units.value, seqs, CounterKey(input.jurusan, input.nama),
                    AddBarangStep(items, seqs, input, newId).0.value.units.value);
  }

  /** The kodes of the filled-in units once the schema has cast them. */
  lemma FilledUnitKodes(us: seq<UnitInput>, seqs: map<string, nat>, key: string, cast: seq<Unit>)
    requires CastUnits(FillKodes(us, seqs, key, []).0) == Some(cast)
    ensures |cast| == |us|
    ensures forall i :: 0 <= i < |us| ==> cast[i].kode == SavedKode(us, i, NextValue(seqs, key))
  {
    FillKodesShape(us, seqs, key);
    var filled := FillKodes(us, seqs, key, []).0;
    CastUnitsPointwise(filled);
    forall i | 0 <= i < |us|
      ensures cast[i].kode == SavedKode(us, i, NextValue(seqs, key))
    {
      KodeAtIndex(us, filled, cast, NextValue(seqs, key), i);
    }
  }

  /** The saved units are the filled-in units cast by the schema. */
  lemma SavedUnitsCast(items: map<Id, Barang>, seqs: map<string, nat>, input: BarangInput, newId: Id)
    requires input.tipe != "habis_pakai" && input.units.Some?
    requires AddBarangStep(items, seqs, input, newId).0.Ok?
    ensures CastUnits(FillKodes(input.units.value, seqs, CounterKey(input.jurusan, input.nama), []).0)
         == AddBarangStep(items, seqs, input, newId).0.value.units
    ensures AddBarangStep(items, seqs, input, newId).0.value.units.Some?
  {
    var filled := FillKodes(input.units.value, seqs, CounterKey(input.jurusan, input.nama), []).0;
    assert NewBarang(input.(units := Some(filled))) == Some(AddBarangStep(items, seqs, input, newId).0.value);
  }

  lemma KodeAtIndex(us: seq<UnitInput>, filled: seq<UnitInput>, saved: seq<Unit>, start: nat, i: nat)
    requires i < |us| == |filled| == |saved|
    requires filled[i] == Filled(us, i, start) && CastUnit(filled[i]) == Some(saved[i])
    ensures saved[i].kode == SavedKode(us, i, start)
  {
    var f := filled[i];
    if HasKode(us[i]) {
      assert f == us[i];
      assert saved[i].kode == Trim(us[i].kode.value);
    } else {
      var n := start + Blanks(us[..i]);
      assert f == UnitInput(Some(SeqText(n)), us[i].status);
      SeqTextTrimmed(n);
      assert saved[i].kode == Trim(SeqText(n));
      assert saved[i].kode == SeqText(n);
    }
  }

  /** The `for (let u of units)` loop of `addBarang`, pushing into `newUnits`. */
  method FillUnitKodes(counters: CounterStore, units: seq<UnitInput>, key: string) returns (newUnits: seq<UnitInput>)
    modifies counters
    ensures (newUnits, counters.seqs) == FillKodes(units, old(counters.seqs), key, [])
  {
    newUnits := [];
    var i := 0;
    while i < |units|
      invariant 0 <= i <= |units|
      invariant FillKodes(units, old(counters.seqs), key, []) == FillKodes(units[i..], counters.seqs, key, newUnits)
    {
      assert units[i..][0] == units[i] && units[i..][1..] == units[i + 1..];
      var u := units[i];
      if u.kode.Some? && !IsBlank(u.kode.value) {
        newUnits := newUnits + [u];
      } else {
        var seqNum := counters.Next(key);
        newUnits := newUnits + [UnitInput(Some(SeqText(seqNum)), u.status)];
      }
      i := i + 1;
    }
    assert units[i..] == [];
  }

  /**
   * `addBarang`: the abbreviation and key, one counter call for a consumable (whose code is
   * returned as `kode`) or the loop over the units, then the save.
   */
  method AddBarang(db: Db, counters: CounterStore, input: BarangInput, newId: Id)
    returns (r: Result<Barang, CatalogError>, kode: Option<string>)
    modifies db, counters
    ensures (r, db.items, counters.seqs) == AddBarangStep(old(db.items), old(counters.seqs), input, newId)
    ensures kode == if input.tipe == "habis_pakai" then Some(ConsumableKode(old(counters.seqs), input)) else None
    ensures db.loans == old(db.loans)
  {
    ghost var step := AddBarangStep(db.items, counters.seqs, input, newId);
    ghost var prepared := Prepared(counters.seqs, input);
    var key := CounterKey(input.jurusan, input.nama);
    var body := input;
    kode := None;
    if input.tipe == "habis_pakai" {
      var seqNum := counters.Next(key);
      kode := Some(FullCode(input.jurusan, input.nama, SeqText(seqNum)));
    } else if input.units.Some? {
      var newUnits := FillUnitKodes(counters, input.units.value, key);
      body := input.(units := Some(newUnits));
    }
    assert (body, counters.seqs) == prepared;
    var saved := NewBarang(body);
    if saved.None? || newId in db.items {
      assert step == (Err(BadRequest), db.items, counters.seqs);
      return Err(BadRequest), kode;
    }
    db.items := db.items[newId := saved.value];
    assert step == (Ok(saved.value), db.items, counters.seqs);
    return Ok(saved.value), kode;
  }

  // ---------------------------------------------------------------------
  // updateBarang: the update document
  // ---------------------------------------------------------------------

  /** What the update does to one field: leave it out, set it, or set it to `undefined`. */
  datatype Change<T> = Keep | SetTo(value: T) | Clear

  /** The `updateData` object passed to `findByIdAndUpdate`. */
  datatype UpdateDoc = UpdateDoc(
    nama: string,
    jurusan: string,
    tipe: string,
    deskripsi: Option<string>,
    maxDurasiPinjam: Option<int>,
    status: string,
    stok: Change<int>,
    units: Change<seq<UnitInput>>,
    stokDipinjam: Change<int>)

  /** A stored unit written back as request data. */
  function AsInput(u: Unit): UnitInput {
    UnitInput(Some(u.kode), Some(UnitStatusName(u.status)))
  }

  function AsInputs(units: seq<Unit>): (r: seq<UnitInput>)
    ensures |r| == |units| && forall i :: 0 <= i < |units| ==> r[i] == AsInput(units[i])
  {
    seq(|units|, i requires 0 <= i < |units| => AsInput(units[i]))
  }

  /** A stored valid unit casts back to itself. */
  lemma CastAsInput(u: Unit)
    requires ValidUnit(u)
    ensures CastUnit(AsInput(u)) == Some(u)
  {
    TrimmedMeaning(u.kode);
    TrimEmptyIffBlank(u.kode);
    ParseUnitStatusRoundTrip(u.status);
  }

  /** The rewrite rules of `updateBarang` for the request body `input` and the stored `existing`. */
  function UpdateData(input: BarangInput, existing: Barang): UpdateDoc {
    var status := if input.status.Some? && input.status.value != "" then input.status.value
                  else UnitStatusName(existing.status);
    if input.tipe == "habis_pakai" then
      UpdateDoc(input.nama, input.jurusan, input.tipe, input.deskripsi, input.maxDurasiPinjam, status,
        SetTo(if input.stok.Some? then input.stok.value else existing.stok.GetOr(0)),
        Clear,
        if existing.tipe == TidakHabisPakai then SetTo(0) else Keep)
    else
      UpdateDoc(input.nama, input.jurusan, input.tipe, input.deskripsi, input.maxDurasiPinjam, status,
        Clear,
        SetTo(if input.units.Some? then input.units.value else AsInputs(existing.units.GetOr([]))),
        Clear)
  }

  /**
   * Exactly one of `stok` and `units` is set, by the new type, to the given value when the
   * body has one; the other fields of the body pass through; the on-loan count is reset to 0
   * only when a unit-tracked item becomes consumable, left alone between consumables and
   * cleared for a unit-tracked result.
   */
  lemma UpdateDataFields(input: BarangInput, existing: Barang)
    ensures var d := UpdateData(input, existing); var habis := input.tipe == "habis_pakai";
      && (d.stok.SetTo? <==> habis) && (d.stok.Clear? <==> !habis)
      && (d.units.SetTo? <==> !habis) && (d.units.Clear? <==> habis)
      && (d.stokDipinjam == SetTo(0) <==> habis && existing.tipe == TidakHabisPakai)
      && (d.stokDipinjam.Keep? <==> habis && existing.tipe == HabisPakai)
      && (d.stokDipinjam.Clear? <==> !habis)
      && (habis && input.stok.Some? ==> d.stok == SetTo(input.stok.value))
      && (!habis && input.units.Some? ==> d.units == SetTo(input.units.value))
      && d.nama == input.nama && d.jurusan == input.jurusan && d.tipe == input.tipe
      && d.deskripsi == input.deskripsi && d.maxDurasiPinjam == input.maxDurasiPinjam
  {
  }

  /** Without a new `stok`, a consumable keeps its stored stock (0 when it had none), never negative. */
  lemma UpdateKeepsStock(input: BarangInput, existing: Barang)
    requires input.tipe == "habis_pakai" && input.stok.None? && ValidBarang(existing)
    ensures var d := UpdateData(input, existing);
      d.stok.SetTo? && d.stok.value >= 0
      && (existing.stok.Some? ==> d.stok.value == existing.stok.value)
      && (existing.stok.None? ==> d.stok.value == 0)
  {
  }

  /** Stored valid units survive being written back as request data and cast again. */
  lemma {:induction false} CastAsInputs(units: seq<Unit>)
    requires forall u :: u in units ==> ValidUnit(u)
    ensures CastUnits(AsInputs(units)) == Some(units)
  {
    if units != [] {
      var u := units[0];
      assert u in units;
      CastAsInput(u);
      assert AsInputs(units)[1..] == AsInputs(units[1..]);
      CastAsInputs(units[1..]);
      assert [u] + units[1..] == units;
    }
  }

  /** Without a new `units` array, a unit-tracked item is written back with exactly its stored units. */
  lemma UpdateKeepsUnits(input: BarangInput, existing: Barang)
    requires input.tipe != "habis_pakai" && input.units.None? && ValidBarang(existing) && existing.units.Some?
    ensures var d := UpdateData(input, existing);
      d.units.SetTo? && CastUnits(d.units.value) == existing.units
  {
    CastAsInputs(existing.units.value);
  }

  /** `status || existing.status || "tersedia"`: a missing or empty status keeps the stored one. */
  lemma UpdateStatusFallback(input: BarangInput, existing: Barang)
    ensures var d := UpdateData(input, existing);
      && (input.status.Some? && input.status.value != "" ==> d.status == input.status.value)
      && (input.status.None? || input.status.value == "" ==> ParseKondisi(d.status) == Some(existing.status))
  {
    ParseUnitStatusRoundTrip(existing.status);
  }

  // ---------------------------------------------------------------------
  // getNextKodeUnit and postNextKodeUnit
  // ---------------------------------------------------------------------

  /** `getNextKodeUnit`: the code the next unit of `jurusan`/`nama` would get, read with `peek`. */
  function NextKodeUnit(seqs: map<string, nat>, jurusan: string, nama: string): (r: Result<string, CatalogError>)
    ensures r.Err? <==> jurusan == "" || nama == ""
    ensures r.Err? ==> r.error == MissingParams
  {
    if jurusan == "" || nama == "" then Err(MissingParams)
    else Ok(FullCode(jurusan, nama, SeqText(NextValue(seqs, CounterKey(jurusan, nama)))))
  }

  /**
   * The preview is `key-NNN` whose number is what the next `getNextSequence(key)` returns, so
   * it is exactly the code a consumable saved next under that name receives.
   */
  lemma NextKodeUnitPreview(seqs: map<string, nat>, input: BarangInput)
    requires input.jurusan != "" && input.nama != ""
    ensures var r := NextKodeUnit(seqs, input.jurusan, input.nama);
      var key := CounterKey(input.jurusan, input.nama);
      && r == Ok(ConsumableKode(seqs, input))
      && r.value[..|key| + 1] == key + "-"
      && ParseInt(LastSegment(r.value)) == Some(NextValue(seqs, key))
  {
    var key := CounterKey(input.jurusan, input.nama);
    FullCodeSequenceRoundTrip(input.jurusan, input.nama, NextValue(seqs, key));
    assert (key + "-" + SeqText(NextValue(seqs, key)))[..|key| + 1] == key + "-";
  }

  /**
   * How many numbers `postNextKodeUnit` allocates for `count` (`None` when the body has
   * none): `parseInt(count) || 1` calls, and never fewer than the first one. The `parseInt`
   * has no radix, so a `0x` count is hexadecimal.
   */
  function AllocateCount(count: Option<string>): (n: nat)
    ensures n >= 1
    ensures count.Some? && ParseIntAuto(count.value).Some? && ParseIntAuto(count.value).value >= 1 ==>
      n == ParseIntAuto(count.value).value
    ensures n > 1 ==> count.Some? && ParseIntAuto(count.value) == Some(n)
  {
    if count.None? then 1
    else
      match ParseIntAuto(count.value)
      case Some(v) => if v >= 1 then v else 1
      case None => 1
  }

  /** `codes.map(seq => String(seq).padStart(3, "000"))`. */
  function Formatted(codes: seq<nat>): (r: seq<string>)
    ensures |r| == |codes| && forall i :: 0 <= i < |codes| ==> r[i] == SeqText(codes[i])
  {
    seq(|codes|, i requires 0 <= i < |codes| => SeqText(codes[i]))
  }

  /** `postNextKodeUnit`: one counter call, then one per further number, then the formatting. */
  method PostNextKodeUnit(counters: CounterStore, key: string, count: Option<string>)
    returns (codes: seq<nat>, formatted: seq<string>)
    modifies counters
    ensures codes == NextRun(old(counters.seqs), key, AllocateCount(count))
    ensures counters.seqs == AdvanceBy(old(counters.seqs), key, AllocateCount(count))
    ensures formatted == Formatted(codes)
  {
    var allocate := AllocateCount(count);
    ghost var seqs0 := counters.seqs;
    var startSeq := counters.Next(key);
    codes := [startSeq];
    var i := 1;
    while i < allocate
      invariant 1 <= i <= allocate
      invariant codes + NextRun(counters.seqs, key, allocate - i) == NextRun(seqs0, key, allocate)
      invariant AdvanceBy(counters.seqs, key, allocate - i) == AdvanceBy(seqs0, key, allocate)
    {
      ghost var before := counters.seqs;
      var next := counters.Next(key);
      assert counters.seqs == Advance(before, key);
      assert codes + NextRun(before, key, allocate - i)
          == (codes + [next]) + NextRun(counters.seqs, key, allocate - i - 1);
      codes := codes + [next];
      i := i + 1;
    }
    formatted := Formatted(codes);
  }

  /**
   * The allocation hands out `AllocateCount(count)` consecutive numbers starting at the peeked
   * one, all with different formatted codes, and leaves the counter at the last of them.
   */
  lemma AllocationConsecutive(seqs: map<string, nat>, key: string, count: Option<string>)
    ensures var n := AllocateCount(count); var codes := NextRun(seqs, key, n);
      && |codes| == n
      && (forall i :: 0 <= i < n ==> codes[i] == NextValue(seqs, key) + i)
      && AdvanceBy(seqs, key, n) == seqs[key := NextValue(seqs, key) + n - 1]
      && forall i, j :: 0 <= i < j < n ==> Formatted(codes)[i] != Formatted(codes)[j]
  {
    var n := AllocateCount(count);
    NextRunConsecutive(seqs, key, n);
    var codes := NextRun(seqs, key, n);
    forall i, j | 0 <= i < j < n ensures Formatted(codes)[i] != Formatted(codes)[j] {
      SeqTextDistinct(codes[i], codes[j]);
    }
  }
  /** A hexadecimal count allocates its value: `0x3` hands out three numbers. */
  lemma AllocateHexCount()
    ensures AllocateCount(Some("0x3")) == 3
  {
    assert "0x3" == "0x" + "3";
    ParseIntAutoHex("3");
    assert "3"[..0] == [];
  }


  // ---------------------------------------------------------------------
  // importBarangCSV: parsing the rows
  // ---------------------------------------------------------------------

  /**
   * The `units` value of a row as JSON gives it: an array of units, or text, which is what
   * the app's own upload page sends (the column joined with ";").
   */
  datatype UnitsColumn = UnitArray(units: seq<UnitInput>) | UnitText(text: string)

  /** One row of the uploaded data; `None` is a missing column. */
  datatype CsvRow = CsvRow(
    nama: Option<string>,
    jurusan: string,
    tipe: string,
    deskripsi: Option<string>,
    stok: Option<string>,
    status: Option<string>,
    units: Option<UnitsColumn>,
    maxDurasiPinjam: Option<string>)

  /**
   * A parsed row, ready for `insertMany`. `stok` and `maxDurasiPinjam` are present only for
   * the type that sets them; inside, `None` is the `NaN` of a failed `parseInt`.
   */
  datatype ImportDoc = ImportDoc(
    nama: Option<string>,
    jurusan: string,
    tipe: string,
    deskripsi: string,
    stok: Option<Option<int>>,
    status: Option<string>,
    units: Option<seq<UnitInput>>,
    maxDurasiPinjam: Option<Option<int>>)

  /** Why the import stops before inserting anything. */
  datatype ImportProblem = NotAnArray | UnitsMissing | UnitsNotArray | UnitWithoutKode | DuplicateKode(kode: string)

  /** `value || fallback` for a text column. */
  function OrDefault(s: Option<string>, fallback: string): string {
    if s.Some? && s.value != "" then s.value else fallback
  }

  /** The unit as the import rewrites it: trimmed code, status defaulting to tersedia. */
  function ImportUnit(u: UnitInput): UnitInput {
    UnitInput(if u.kode.Some? then Some(Trim(u.kode.value)) else None, Some(OrDefault(u.status, "tersedia")))
  }

  function ImportUnits(units: seq<UnitInput>): (r: seq<UnitInput>)
    ensures |r| == |units| && forall i :: 0 <= i < |units| ==> r[i] == ImportUnit(units[i])
  {
    seq(|units|, i requires 0 <= i < |units| => ImportUnit(units[i]))
  }

  /**
   * The `kodeSet` loop from the set `seen`: the first unit without a code, or whose code was
   * already seen, stops it.
   */
  function KodeProblem(units: seq<UnitInput>, seen: set<string>): Option<ImportProblem>
    decreases |units|
  {
    if units == [] then None
    else
      var k := units[0].kode;
      if k.None? || k.value == "" then Some(UnitWithoutKode)
      else if k.value in seen then Some(DuplicateKode(k.value))
      else KodeProblem(units[1..], seen + {k.value})
  }

  /** Every unit has a non-empty code outside `seen`, and no two units share one. */
  predicate KodesUsable(units: seq<UnitInput>, seen: set<string>) {
    && (forall i :: 0 <= i < |units| ==> units[i].kode.Some? && units[i].kode.value != "" && units[i].kode.value !in seen)
    && (forall i, j :: 0 <= i < j < |units| ==> units[i].kode != units[j].kode)
  }

  /** The loop passes exactly when every code is present, non-empty, new and unique. */
  lemma {:induction false} KodeProblemMeaning(units: seq<UnitInput>, seen: set<string>)
    ensures KodeProblem(units, seen).None? <==> KodesUsable(units, seen)
    ensures KodeProblem(units, seen).Some? ==>
      KodeProblem(units, seen).value.UnitWithoutKode? || KodeProblem(units, seen).value.DuplicateKode?
    decreases |units|
  {
    if units != [] {
      var k := units[0].kode;
      if k.Some? && k.value != "" && k.value !in seen {
        var seen' := seen + {k.value};
        KodeProblemMeaning(units[1..], seen');
        if KodesUsable(units[1..], seen') {
          forall i, j | 0 <= i < j < |units| ensures units[i].kode != units[j].kode {
            if i > 0 {
              assert units[1..][i - 1] == units[i] && units[1..][j - 1] == units[j];
            } else {
              assert units[1..][j - 1] == units[j];
            }
          }
        }
        if KodesUsable(units, seen) {
          forall i | 0 <= i < |units[1..]|
            ensures units[1..][i].kode.Some? && units[1..][i].kode.value != "" && units[1..][i].kode.value !in seen'
          {
            assert units[1..][i] == units[i + 1];
            assert units[0].kode != units[i + 1].kode;
          }
          forall i, j | 0 <= i < j < |units[1..]| ensures units[1..][i].kode != units[1..][j].kode {
            assert units[1..][i] == units[i + 1] && units[1..][j] == units[j + 1];
          }
        }
      } else {
        assert !KodesUsable(units, seen) by {
          assert units[0] == units[0];
        }
      }
    }
  }

  /** The `kodeSet` loop as it runs: a set of seen codes, filled one unit at a time. */
  method CheckKodes(units: seq<UnitInput>) returns (problem: Option<ImportProblem>)
    ensures problem == KodeProblem(units, {})
  {
    var kodeSet: set<string> := {};
    var i := 0;
    while i < |units|
      invariant 0 <= i <= |units|
      invariant KodeProblem(units, {}) == KodeProblem(units[i..], kodeSet)
    {
      assert units[i..][0] == units[i] && units[i..][1..] == units[i + 1..];
      var u := units[i];
      if u.kode.None? || u.kode.value == "" {
        return Some(UnitWithoutKode);
      }
      if u.kode.value in kodeSet {
        return Some(DuplicateKode(u.kode.value));
      }
      kodeSet := kodeSet + {u.kode.value};
      i := i + 1;
    }
    return None;
  }

  /** The `units` column: the rewrite of each unit, then the `kodeSet` loop. */
  function ParseUnits(units: seq<UnitInput>): (r: Result<seq<UnitInput>, ImportProblem>)
    ensures r.Ok? <==> KodesUsable(ImportUnits(units), {})
    ensures r.Ok? ==> r.value == ImportUnits(units)
    ensures r.Err? ==> r.error.UnitWithoutKode? || r.error.DuplicateKode?
  {
    KodeProblemMeaning(ImportUnits(units), {});
    match KodeProblem(ImportUnits(units), {})
    case Some(p) => Err(p)
    case None => Ok(ImportUnits(units))
  }

  /** A units column that passes has every code present, trimmed, non-empty and distinct. */
  lemma ParseUnitsChecked(units: seq<UnitInput>)
    requires ParseUnits(units).Ok?
    ensures var us := ParseUnits(units).value;
      && |us| == |units|
      && (forall i :: 0 <= i < |units| ==> units[i].kode.Some? && us[i].kode == Some(Trim(units[i].kode.value)))
      && (forall i :: 0 <= i < |us| ==> us[i].kode.value != "" && Trimmed(us[i].kode.value))
      && (forall i, j :: 0 <= i < j < |us| ==> us[i].kode != us[j].kode)
  {
    var us := ParseUnits(units).value;
    forall i | 0 <= i < |us| ensures Trimmed(us[i].kode.value) {
      TrimmedMeaning(units[i].kode.value);
    }
  }

  /** The fields every row gets: trimmed `nama`, `jurusan` and `tipe` as given, trimmed `deskripsi` or "". */
  function RowBase(row: CsvRow): ImportDoc {
    ImportDoc(
      if row.nama.Some? then Some(Trim(row.nama.value)) else None,
      row.jurusan, row.tipe,
      if row.deskripsi.Some? then Trim(row.deskripsi.value) else "",
      None, None, None, None)
  }

  /** `!item.units`: the column is absent or is the empty text. */
  predicate UnitsAbsent(col: Option<UnitsColumn>) {
    col.None? || col.value == UnitText("")
  }

  /**
   * One row of `rawData.map(...)`: the shared fields, then the fields of its type. A units
   * column given as non-empty text has no `map`, and the thrown `TypeError` fails the row.
   */
  function ParseRow(row: CsvRow): (r: Result<ImportDoc, ImportProblem>)
    ensures r.Err? <==> (row.tipe == "tidak_habis_pakai"
                         && (row.units.None? || row.units.value.UnitText? || ParseUnits(row.units.value.units).Err?))
    ensures r.Err? ==> r.error == if UnitsAbsent(row.units) then UnitsMissing
                                  else if row.units.value.UnitText? then UnitsNotArray
                                  else ParseUnits(row.units.value.units).error
    ensures r.Ok? && row.tipe == "tidak_habis_pakai" ==>
      row.units.Some? && row.units.value.UnitArray? && r.value.units == Some(ParseUnits(row.units.value.units).value)
    ensures row.tipe == "habis_pakai" ==>
      r.Ok? && r.value.stok == Some(ParseIntAuto(OrDefault(row.stok, "0")))
      && r.value.status == Some(OrDefault(row.status, "tersedia")) && r.value.units.None?
    ensures r.Ok? && row.tipe == "tidak_habis_pakai" ==>
      r.value.maxDurasiPinjam == Some(ParseIntAuto(OrDefault(row.maxDurasiPinjam, "1"))) && r.value.stok.None?
  {
    var base := RowBase(row);
    if row.tipe == "habis_pakai" then
      Ok(base.(stok := Some(ParseIntAuto(OrDefault(row.stok, "0"))), status := Some(OrDefault(row.status, "tersedia"))))
    else if row.tipe == "tidak_habis_pakai" then
      if UnitsAbsent(row.units) then Err(UnitsMissing)
      else if row.units.value.UnitText? then Err(UnitsNotArray)
      else
        match ParseUnits(row.units.value.units)
        case Err(p) => Err(p)
        case Ok(units) =>
          Ok(base.(units := Some(units), maxDurasiPinjam := Some(ParseIntAuto(OrDefault(row.maxDurasiPinjam, "1")))))
    else Ok(base)
  }

  /** A consumable row whose `stok` is written `0x10` imports a stock of 16, as `parseInt` reads it. */
  lemma ImportHexStock(row: CsvRow)
    requires row.tipe == "habis_pakai" && row.stok == Some("0x10")
    ensures ParseRow(row).Ok? && ParseRow(row).value.stok == Some(Some(16))
  {
    RadixMatters();
  }

  /** The whole import before `insertMany`: it needs an array, and the first bad row stops it. */
  function ImportRows(data: Option<seq<CsvRow>>): (r: Result<seq<ImportDoc>, ImportProblem>)
    ensures data.None? ==> r == Err(NotAnArray)
    ensures r.Ok? ==> data.Some? && |r.value| == |data.value|
                      && forall i :: 0 <= i < |data.value| ==> ParseRow(data.value[i]) == Ok(r.value[i])
    ensures data.Some? && r.Err? ==> exists i :: 0 <= i < |data.value| && ParseRow(data.value[i]) == Err(r.error)
                                         && forall j :: 0 <= j < i ==> ParseRow(data.value[j]).Ok?
  {
    if data.None? then Err(NotAnArray) else ParseAll(data.value)
  }

  function ParseAll(rows: seq<CsvRow>): (r: Result<seq<ImportDoc>, ImportProblem>)
    ensures r.Ok? ==> |r.value| == |rows| && forall i :: 0 <= i < |rows| ==> ParseRow(rows[i]) == Ok(r.value[i])
    ensures r.Err? ==> exists i :: 0 <= i < |rows| && ParseRow(rows[i]) == Err(r.error)
                                && forall j :: 0 <= j < i ==> ParseRow(rows[j]).Ok?
    decreases |rows|
  {
    if rows == [] then Ok([])
    else
      match ParseRow(rows[0])
      case Err(e) => Err(e)
      case Ok(d) =>
        match ParseAll(rows[1..])
        case Err(e) =>
          var i :| 0 <= i < |rows[1..]| && ParseRow(rows[1..][i]) == Err(e)
                   && forall j :: 0 <= j < i ==> ParseRow(rows[1..][j]).Ok?;
          assert rows[i + 1] == rows[1..][i];
          assert forall j :: 1 <= j < i + 1 ==> rows[j] == rows[1..][j - 1];
          Err(e)
        case Ok(ds) =>
          assert forall i :: 1 <= i < |rows| ==> rows[i] == rows[1..][i - 1];
          Ok([d] + ds)
  }

  /**
   * The app's own upload sends a unit-tracked row's units as ";"-joined text, so such a row
   * with units fails the whole import, however many rows parse before it.
   */
  lemma UploadedTextUnitsFail(rows: seq<CsvRow>, i: nat)
    requires i < |rows| && rows[i].tipe == "tidak_habis_pakai"
    requires rows[i].units.Some? && rows[i].units.value.UnitText? && rows[i].units.value.text != ""
    ensures ParseRow(rows[i]) == Err(UnitsNotArray)
    ensures ImportRows(Some(rows)).Err?
  {
    ImportAllOrNothing(rows);
  }

  /** A clean import: any row that parses can be imported on its own. */
  lemma ImportAllOrNothing(rows: seq<CsvRow>)
    ensures ImportRows(Some(rows)).Ok? <==> forall i :: 0 <= i < |rows| ==> ParseRow(rows[i]).Ok?
  {
    if !ImportRows(Some(rows)).Ok? {
      var e := ImportRows(Some(rows)).error;
      var i :| 0 <= i < |rows| && ParseRow(rows[i]) == Err(e);
    }
  }

  // ---------------------------------------------------------------------
  // kembalikanUnit: the manual status override
  // ---------------------------------------------------------------------

  /** `{"units.kode": kode}` matches the item. */
  predicate HasUnit(b: Barang, kode: string) {
    b.units.Some? && FindUnit(b.units.value, kode) != -1
  }

  /**
   * `unit.status = status` on the first unit with that code; nothing else is touched, in
   * particular `stok_dipinjam` keeps its old value.
   */
  function OverrideUnit(b: Barang, kode: string, st: Kondisi): (r: Barang)
    requires HasUnit(b, kode)
    ensures var i := FindUnit(b.units.value, kode);
      && r.units.Some? && |r.units.value| == |b.units.value|
      && r.units.value[i] == Unit(kode, st)
      && (forall j :: 0 <= j < |b.units.value| && j != i ==> r.units.value[j] == b.units.value[j])
      && r == b.(units := r.units)
  {
    b.(units := Some(SetStatus(b.units.value, FindUnit(b.units.value, kode), st)))
  }

  /** The override keeps a valid item valid, so its save can only fail on an item that was already invalid. */
  lemma OverrideKeepsValid(b: Barang, kode: string, st: Kondisi)
    requires HasUnit(b, kode) && ValidBarang(b)
    ensures ValidBarang(OverrideUnit(b, kode, st))
  {
    var r := OverrideUnit(b, kode, st);
    assert LoanProperties.SameKodes(r.units.value, b.units.value);
    LoanProperties.RelabelKeepsValid(b, r.units.value);
    assert Recalc(b.(units := r.units)).(stokDipinjam := b.stokDipinjam) == r;
  }

  /**
   * Unlike the loan handlers, the override does not recount: taking a unit off loan here keeps
   * `stok_dipinjam` while the number of units on loan drops by one, so a count that was right
   * becomes stale.
   */
  lemma OverrideLeavesCountStale(b: Barang, kode: string, st: Kondisi)
    requires HasUnit(b, kode) && b.units.value[FindUnit(b.units.value, kode)].status == Dipinjam
    ensures var r := OverrideUnit(b, kode, st);
      && r.stokDipinjam == b.stokDipinjam
      && CountStatus(r.units.value, Dipinjam) + 1 == CountStatus(b.units.value, Dipinjam)
      && (b.stokDipinjam == Some(CountStatus(b.units.value, Dipinjam)) ==>
            r.stokDipinjam != Some(CountStatus(r.units.value, Dipinjam)))
  {
    var i := FindUnit(b.units.value, kode);
    var r := OverrideUnit(b, kode, st);
    assert r.units.value == SetStatus(b.units.value, i, st);
    LoanProperties.CountSetStatus(b.units.value, i, st, Dipinjam);
  }

  /**
   * `kembalikanUnit`: the status check, the search for an item holding the code (in no
   * particular order, as `findOne` promises none), the override and the save.
   */
  method KembalikanUnit(db: Db, kode: string, status: string) returns (r: Result<(), CatalogError>)
    modifies db
    ensures db.loans == old(db.loans)
    ensures r.Err? ==> db.items == old(db.items)
    ensures ParseKondisi(status).None? <==> r == Err(InvalidStatus)
    ensures r == Err(UnitNotFound) <==>
      ParseKondisi(status).Some? && forall id :: id in old(db.items) ==> !HasUnit(old(db.items)[id], kode)
    ensures r == Err(SaveRefused) ==>
      exists id :: id in old(db.items) && HasUnit(old(db.items)[id], kode)
        && !ValidBarang(OverrideUnit(old(db.items)[id], kode, ParseKondisi(status).value))
    ensures r.Ok? ==>
      exists id :: id in old(db.items) && HasUnit(old(db.items)[id], kode)
        && db.items == old(db.items)[id := OverrideUnit(old(db.items)[id], kode, ParseKondisi(status).value)]
  {
    var st := ParseKondisi(status);
    if st.None? {
      return Err(InvalidStatus);
    }
    var rest := db.items.Keys;
    while rest != {}
      invariant rest <= db.items.Keys
      invariant forall id :: id in db.items && id !in rest ==> !HasUnit(db.items[id], kode)
      decreases |rest|
    {
      var id :| id in rest;
      var barang := db.items[id];
      if barang.units.Some? && FindUnit(barang.units.value, kode) != -1 {
        var updated := OverrideUnit(barang, kode, st.value);
        if !ValidBarang(updated) {
          return Err(SaveRefused);
        }
        db.items := db.items[id := updated];
        return Ok(());
      }
      rest := rest - {id};
    }
    return Err(UnitNotFound);
  }

  // ---------------------------------------------------------------------
  // getAllBarang: the derived counts
  // ---------------------------------------------------------------------

  /**
   * An item as `getAllBarang` lists it: unit-tracked ones carry `totalUnits`, the number of
   * their units, and `unitTersedia`, the number of those that are tersedia (0 and 0 without units).
   */
  datatype Listing = Listing(item: Barang, totalUnits: Option<nat>, unitTersedia: Option<nat>)

  function ListItem(b: Barang): (r: Listing)
    ensures r.item == b
    ensures r.totalUnits.Some? <==> b.tipe == TidakHabisPakai
    ensures r.unitTersedia.Some? <==> b.tipe == TidakHabisPakai
    ensures r.totalUnits.Some? ==> r.unitTersedia.value <= r.totalUnits.value
    ensures r.totalUnits.Some? && b.units.None? ==> r.totalUnits == Some(0) && r.unitTersedia == Some(0)
    ensures r.totalUnits.Some? && b.units.Some? ==>
      r.totalUnits == Some(|b.units.value|) && r.unitTersedia == Some(|WithStatus(b.units.value, Tersedia)|)
  {
    if b.tipe == TidakHabisPakai then
      var total := if b.units.Some? then |b.units.value| else 0;
      var tersedia := if b.units.Some? then CountStatus(b.units.value, Tersedia) else 0;
      Listing(b, Some(total), Some(tersedia))
    else Listing(b, None, None)
  }

  /** The units that are not available are exactly those on loan, damaged or lost. */
  lemma ListItemCounts(b: Barang)
    requires b.tipe == TidakHabisPakai && b.units.Some?
    ensures var l := ListItem(b); var us := b.units.value;
      l.totalUnits.value - l.unitTersedia.value
        == CountStatus(us, Dipinjam) + CountStatus(us, Rusak) + CountStatus(us, Hilang)
  {
    LoanProperties.CountPartition(b.units.value);
  }

  /** Approving a unit loan takes exactly its units out of the listed availability. */
  lemma ApproveLowersAvailability(s: State, id: Id, now: Time)
    requires id in s.loans && !s.loans[id].isConsumable && s.loans[id].unitKodes.Some?
    requires s.loans[id].barang in s.items && s.items[s.loans[id].barang].tipe == TidakHabisPakai
    requires ApproveStep(s, id, now).0.Ok?
    ensures var l := s.loans[id]; var before := ListItem(s.items[l.barang]);
      var after := ListItem(ApproveStep(s, id, now).1.items[l.barang]);
      after.totalUnits == before.totalUnits
      && after.unitTersedia.value + |l.unitKodes.value| == before.unitTersedia.value
  {
    var l := s.loans[id];
    var b := s.items[l.barang];
    var res := BorrowUnits(b.units.value, l.unitKodes.value, []);
    assert res.Ok?;
    var after := ApproveStep(s, id, now).1.items[l.barang];
    assert after == Recalc(b.(units := Some(res.value.0)));
    LoanProperties.BorrowUnitsCount(b.units.value, l.unitKodes.value, []);
  }
}
