/**
 * frontend/src/components/barangForm.jsx: the unit list of the item form. Adding a unit
 * previews its code client-side: the first add asks the server for the next code of the
 * name and jurusan, later adds count on from the previous number kept in `nextPreviewSeq`.
 */
module UnitEditor {
  import opened Wrappers
  import opened Strings
  import opened Codes
  import opened Counter
  import opened ItemForm
  import Catalog

  /**
   * A JavaScript number as `parseInt` can produce it: `None` is `NaN`. `nextPreviewSeq` is
   * `Option<Num>`, whose `None` is the state's `null`.
   */
  type Num = Option<int>

  /** `String(seqNum).padStart(3, "000")`. */
  function SeqString(n: Num): string {
    match n
    case None => "NaN"
    case Some(v) => PadZeros(IntToString(v), 3)
  }

  /** `seqNum + 1`. */
  function Succ(n: Num): Num {
    match n
    case None => None
    case Some(v) => Some(v + 1)
  }

  /** `parseInt(kode.split("-").pop(), 10)`. */
  function PeekedSeq(kode: string): Num {
    ParseInt(LastSegment(kode))
  }

  /** Why `handleAddUnit` alerts instead of adding: no name or jurusan yet, or the preview request failed. */
  datatype AddError = NeedNamaJurusan | PreviewFailed

  /**
   * `handleAddUnit` on the unit list, for the form's `nama` and `jurusan`: the outcome, the new
   * units and the new `nextPreviewSeq`. `peek` is the `kode` field of a successful
   * `/api/barang/nextKode` response, `None` when the request fails; it is only used while
   * `nextPreviewSeq` is null.
   */
  function AddToUnits(jurusan: string, nama: string, units: seq<FormUnit>, preview: Option<Num>, peek: Option<string>)
    : (r: (Result<(), AddError>, seq<FormUnit>, Option<Num>))
    ensures r.0.Err? ==> r.1 == units && r.2 == preview
    ensures r.0 == Err(NeedNamaJurusan) <==> Trim(nama) == "" || jurusan == ""
    ensures r.0 == Err(PreviewFailed) <==> Trim(nama) != "" && jurusan != "" && preview.None? && peek.None?
    ensures r.0.Ok? ==>
      var n := if preview.Some? then preview.value else PeekedSeq(peek.value);
      && r.1 == units + [FormUnit(FullCode(jurusan, nama, SeqString(n)), "tersedia")]
      && r.2 == Some(Succ(n))
  {
    if Trim(nama) == "" || jurusan == "" then (Err(NeedNamaJurusan), units, preview)
    else if preview.None? && peek.None? then (Err(PreviewFailed), units, preview)
    else
      var abrev := Abbrev(nama);
      var seqNum := if preview.None? then PeekedSeq(peek.value) else preview.value;
      var kodeFull := jurusan + "-" + abrev + "-" + SeqString(seqNum);
      (Ok(()), units + [FormUnit(kodeFull, "tersedia")], Some(Succ(seqNum)))
  }

  /** `handleAddUnit` on the whole form: only the unit list changes, as `AddToUnits` says. */
  function AddUnitStep(f: FormData, preview: Option<Num>, peek: Option<string>): (r: (Result<(), AddError>, FormData, Option<Num>))
    ensures r.1 == f.(units := r.1.units)
    ensures (r.0, r.1.units, r.2) == AddToUnits(f.jurusan, f.nama, f.units, preview, peek)
  {
    var (res, units, next) := AddToUnits(f.jurusan, f.nama, f.units, preview, peek);
    (res, f.(units := units), next)
  }

  /** The number the first add reads from the server's preview is the counter's next value. */
  lemma PeekedServerSeq(seqs: map<string, nat>, jurusan: string, nama: string)
    requires jurusan != "" && nama != ""
    ensures var peek := Catalog.NextKodeUnit(seqs, jurusan, nama);
      peek.Ok? && PeekedSeq(peek.value) == Some(NextValue(seqs, CounterKey(jurusan, nama)))
  {
    FullCodeSequenceRoundTrip(jurusan, nama, NextValue(seqs, CounterKey(jurusan, nama)));
  }

  /** For a counter value the preview's text is the server's. */
  lemma SeqStringOfNat(v: nat)
    ensures SeqString(Some(v)) == SeqText(v)
  {
  }

  /** The kept number is the one the counter for `key` hands out on its next call. */
  predicate PreviewTracks(seqs: map<string, nat>, key: string, preview: Option<Num>) {
    preview == Some(Some(NextValue(seqs, key)))
  }

  /**
   * The first add after a fresh preview whose response is the server's `getNextKodeUnit`
   * appends the code the counter's next call would mint, and the kept number then tracks the
   * counter advanced by that call.
   */
  lemma FirstAddFollowsCounter(seqs: map<string, nat>, jurusan: string, nama: string, units: seq<FormUnit>)
    requires Trim(nama) != "" && jurusan != ""
    ensures var peek := Catalog.NextKodeUnit(seqs, jurusan, nama);
      var key := CounterKey(jurusan, nama);
      && peek.Ok?
      && var r := AddToUnits(jurusan, nama, units, None, Some(peek.value));
      && r.0.Ok?
      && r.1 == units + [FormUnit(FullCode(jurusan, nama, SeqText(NextValue(seqs, key))), "tersedia")]
      && PreviewTracks(Advance(seqs, key), key, r.2)
  {
    TrimEmptyIffBlank(nama);
    PeekedServerSeq(seqs, jurusan, nama);
    SeqStringOfNat(NextValue(seqs, CounterKey(jurusan, nama)));
  }

  /**
   * While the kept number tracks the counter, an add appends the code the counter's next call
   * would mint, and the kept number goes on tracking the counter advanced by that call: the
   * previewed codes are the codes consecutive counter calls hand out.
   */
  lemma KeptAddFollowsCounter(seqs: map<string, nat>, jurusan: string, nama: string, units: seq<FormUnit>,
                              preview: Option<Num>, peek: Option<string>)
    requires Trim(nama) != "" && jurusan != ""
    requires PreviewTracks(seqs, CounterKey(jurusan, nama), preview)
    ensures var key := CounterKey(jurusan, nama);
      var r := AddToUnits(jurusan, nama, units, preview, peek);
      && r.0.Ok?
      && r.1 == units + [FormUnit(FullCode(jurusan, nama, SeqText(NextValue(seqs, key))), "tersedia")]
      && PreviewTracks(Advance(seqs, key), key, r.2)
  {
    SeqStringOfNat(NextValue(seqs, CounterKey(jurusan, nama)));
  }

  /** The fields `handleUnitChange` may set on a unit. */
  datatype UnitField = KodeField | StatusField

  /** `handleUnitChange(index, field, value)`: only that field of the unit at `index` changes. */
  function ChangeUnit(units: seq<FormUnit>, index: int, field: UnitField, value: string): (r: seq<FormUnit>)
    ensures |r| == |units|
    ensures forall i :: 0 <= i < |units| && i != index ==> r[i] == units[i]
    ensures 0 <= index < |units| ==>
      r[index] == (if field == KodeField then units[index].(kode := value) else units[index].(status := value))
  {
    seq(|units|, i requires 0 <= i < |units| =>
      if i == index then (if field == KodeField then units[i].(kode := value) else units[i].(status := value))
      else units[i])
  }

  /** `handleRemoveUnit(index)`: the unit at `index` leaves, the others keep their order. */
  function RemoveUnit(units: seq<FormUnit>, index: int): (r: seq<FormUnit>)
    ensures 0 <= index < |units| ==> |r| == |units| - 1
    ensures !(0 <= index < |units|) ==> r == units
    ensures forall i :: 0 <= i < |r| ==> r[i] == units[if 0 <= index <= i then i + 1 else i]
  {
    if 0 <= index < |units| then units[..index] + units[index + 1..] else units
  }

  /** Removing a unit then putting it back where it was restores the list. */
  lemma RemoveUnitRestores(units: seq<FormUnit>, index: int)
    requires 0 <= index < |units|
    ensures var r := RemoveUnit(units, index); r[..index] + [units[index]] + r[index..] == units
  {
    var r := RemoveUnit(units, index);
    assert r[..index] == units[..index] && r[index..] == units[index + 1..];
  }

  /**
   * The tipe select: the fields of the other type are reset (`stok` to 0 and `status` to
   * tersedia unless consumable; units, loan duration and description cleared unless tracked
   * by unit).
   */
  function SelectTipe(f: FormData, tipe: string): (r: FormData)
    ensures r.tipe == tipe && r.nama == f.nama && r.jurusan == f.jurusan
    ensures r.stok == (if tipe == "habis_pakai" then f.stok else 0)
    ensures r.status == (if tipe == "habis_pakai" then f.status else "tersedia")
    ensures r.units == (if tipe == "tidak_habis_pakai" then f.units else [])
    ensures r.maxDurasiPinjam == (if tipe == "tidak_habis_pakai" then f.maxDurasiPinjam else "")
    ensures r.deskripsi == (if tipe == "tidak_habis_pakai" then f.deskripsi else "")
  {
    f.(tipe := tipe,
       stok := if tipe == "habis_pakai" then f.stok else 0,
       status := if tipe == "habis_pakai" then f.status else "tersedia",
       units := if tipe == "tidak_habis_pakai" then f.units else [],
       maxDurasiPinjam := if tipe == "tidak_habis_pakai" then f.maxDurasiPinjam else "",
       deskripsi := if tipe == "tidak_habis_pakai" then f.deskripsi else "")
  }

  /** The component's state: the shared `formData` and its own `nextPreviewSeq`. */
  class Editor {
    var form: FormData
    var nextPreviewSeq: Option<Num>

    constructor(form: FormData)
      ensures this.form == form && nextPreviewSeq.None?
    {
      this.form := form;
      nextPreviewSeq := None;
    }

    /** `setFormData(next)`, with the effect that forgets the preview when nama or jurusan changed. */
    method SetForm(next: FormData)
      modifies this
      ensures form == next
      ensures nextPreviewSeq == (if next.nama != old(form).nama || next.jurusan != old(form).jurusan then None
                                 else old(nextPreviewSeq))
    {
      var changed := next.nama != form.nama || next.jurusan != form.jurusan;
      form := next;
      if changed {
        nextPreviewSeq := None;
      }
    }

    /** `handleAddUnit`. */
    method AddUnit(peek: Option<string>) returns (r: Result<(), AddError>)
      modifies this
      ensures (r, form, nextPreviewSeq) == AddUnitStep(old(form), old(nextPreviewSeq), peek)
    {
      if Trim(form.nama) == "" || form.jurusan == "" {
        return Err(NeedNamaJurusan);
      }
      var abrev := Abbrev(form.nama);
      var seqNum: Num;
      if nextPreviewSeq == None {
        if peek.None? {
          return Err(PreviewFailed);
        }
        seqNum := PeekedSeq(peek.value);
      } else {
        seqNum := nextPreviewSeq.value;
      }
      var strSeq := SeqString(seqNum);
      var kodeFull := form.jurusan + "-" + abrev + "-" + strSeq;
      form := form.(units := form.units + [FormUnit(kodeFull, "tersedia")]);
      nextPreviewSeq := Some(Succ(seqNum));
      return Ok(());
    }
  }
}
