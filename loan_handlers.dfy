/**
 * The handlers of backend/controllers/peminjamanController.js as they run: each reads the
 * documents, works on a local copy (the units array is changed entry by entry inside a loop,
 * the record entries are pushed one by one) and writes back only at the end. Every handler
 * leaves the store exactly as the matching step function of `Loans` says, so all that is
 * proved about the steps holds for the handlers.
 */
module LoanHandlers {
  import opened Wrappers
  import opened Models
  import opened Loans

  /** Counting the units whose status is `st` one unit at a time. */
  lemma {:induction false} CountStatusAppend(units: seq<Unit>, u: Unit, st: UnitStatus)
    ensures CountStatus(units + [u], st) == CountStatus(units, st) + (if u.status == st then 1 else 0)
    decreases |units|
  {
    if units == [] {
      assert [] + [u] == [u];
      assert [u][1..] == [];
    } else {
      assert (units + [u])[1..] == units[1..] + [u];
      CountStatusAppend(units[1..], u, st);
    }
  }

  /** `barang.units.filter(u => u.status === "dipinjam").length`. */
  method CountDipinjam(units: seq<Unit>) returns (n: nat)
    ensures n == CountStatus(units, Dipinjam)
  {
    n := 0;
    var i := 0;
    while i < |units|
      invariant 0 <= i <= |units|
      invariant n == CountStatus(units[..i], Dipinjam)
    {
      assert units[..i + 1] == units[..i] + [units[i]];
      CountStatusAppend(units[..i], units[i], Dipinjam);
      if units[i].status == Dipinjam {
        n := n + 1;
      }
      i := i + 1;
    }
    assert units[..i] == units;
  }

  /** `recalcStokNonConsumable(barang)`: write the on-loan count into the item and save it under `key`. */
  method RecalcStokNonConsumable(db: Db, key: Id, b: Barang)
    requires b.units.Some?
    modifies db
    ensures db.items == old(db.items)[key := Recalc(b)] && db.loans == old(db.loans)
  {
    var n := CountDipinjam(b.units.value);
    db.items := db.items[key := b.(stokDipinjam := Some(n))];
  }

  /** `create`: the guards in order, the loop over the requested codes, then the save of the new loan. */
  method Create(db: Db, req: LoanRequest, newId: Id, now: Time) returns (r: Result<Loan, LoanError>)
    modifies db
    ensures (r, db.Snapshot()) == CreateStep(old(db.Snapshot()), req, newId, now)
  {
    var guard := CheckRequest(req);
    if guard.Some? {
      return Err(guard.value);
    }
    var consumable := req.isConsumable.value;
    if req.barang !in db.items {
      return Err(ItemNotFound);
    }
    var b := db.items[req.barang];
    if consumable && b.tipe != HabisPakai {
      return Err(NotConsumableItem);
    }
    if !consumable && b.tipe != TidakHabisPakai {
      return Err(NotUnitItem);
    }
    if consumable {
      if b.stok.Some? && b.stok.value < req.jumlah.value {
        return Err(InsufficientStock);
      }
    } else {
      if b.units.None? {
        return Err(ServerError);
      }
      var available := AvailableKodes(b.units.value);
      var kodes := req.unitKodes.value;
      var i := 0;
      while i < |kodes|
        invariant 0 <= i <= |kodes|
        invariant forall j :: 0 <= j < i ==> kodes[j] in available
      {
        if kodes[i] !in available {
          var k := FirstUnavailable(available, kodes);
          assert k == i;
          return Err(UnitNotAvailable(kodes[i]));
        }
        i := i + 1;
      }
      var k := FirstUnavailable(available, kodes);
      assert k == |kodes|;
    }
    var saved := NewLoan(req, b, now);
    if saved.None? || newId in db.loans {
      return Err(ServerError);
    }
    db.loans := db.loans[newId := saved.value];
    return Ok(saved.value);
  }

  /** `approve`: the guards, then the stock change or the loop that takes each listed unit, then the saves. */
  method Approve(db: Db, id: Id, now: Time) returns (r: Result<Loan, LoanError>)
    modifies db
    ensures (r, db.Snapshot()) == ApproveStep(old(db.Snapshot()), id, now)
  {
    if id !in db.loans {
      return Err(LoanNotFound);
    }
    var loan := db.loans[id];
    if loan.status != Pending {
      return Err(AlreadyProcessed);
    }
    if loan.barang !in db.items {
      return Err(ItemNotFound);
    }
    var barang := db.items[loan.barang];
    if loan.isConsumable {
      if barang.stok.Some? && loan.jumlah.Some? && barang.stok.value < loan.jumlah.value {
        return Err(InsufficientStock);
      }
      if barang.stok.None? || loan.jumlah.None? {
        return Err(ServerError);
      }
      barang := barang.(stok := Some(barang.stok.value - loan.jumlah.value));
      db.items := db.items[loan.barang := barang];
    } else {
      if loan.unitKodes.None? || barang.units.None? {
        return Err(ServerError);
      }
      ghost var units0 := barang.units.value;
      var units := barang.units.value;
      var kodes := loan.unitKodes.value;
      var unitStatusArr: seq<UnitLoanRecord> := [];
      var i := 0;
      while i < |kodes|
        invariant 0 <= i <= |kodes|
        invariant BorrowUnits(units0, kodes, []) == BorrowUnits(units, kodes[i..], unitStatusArr)
      {
        assert kodes[i..][0] == kodes[i] && kodes[i..][1..] == kodes[i + 1..];
        var idx := FindUnit(units, kodes[i]);
        if idx == -1 || units[idx].status != Tersedia {
          return Err(UnitNotAvailable(kodes[i]));
        }
        var statusAwal := units[idx].status;
        units := units[idx := units[idx].(status := Dipinjam)];
        unitStatusArr := unitStatusArr + [UnitLoanRecord(kodes[i], statusAwal, None)];
        i := i + 1;
      }
      loan := loan.(unitStatus := unitStatusArr);
      RecalcStokNonConsumable(db, loan.barang, barang.(units := Some(units)));
    }
    loan := loan.(status := Approved, tglPinjam := now);
    db.loans := db.loans[id := loan];
    return Ok(loan);
  }

  /** `reject`. */
  method Reject(db: Db, id: Id) returns (r: Result<Loan, LoanError>)
    modifies db
    ensures (r, db.Snapshot()) == RejectStep(old(db.Snapshot()), id)
  {
    if id !in db.loans {
      return Err(LoanNotFound);
    }
    var loan := db.loans[id];
    if loan.status != Pending {
      return Err(AlreadyProcessed);
    }
    loan := loan.(status := Rejected);
    db.loans := db.loans[id := loan];
    return Ok(loan);
  }

  /** `returnItem`: the guards, the loop giving each unit its condition, then the saves. */
  method ReturnItem(db: Db, id: Id, unitReturns: seq<UnitReturn>, now: Time) returns (r: Result<Loan, LoanError>)
    modifies db
    ensures (r, db.Snapshot()) == ReturnStep(old(db.Snapshot()), id, unitReturns, now)
  {
    if id !in db.loans {
      return Err(LoanNotFound);
    }
    var loan := db.loans[id];
    if loan.isConsumable {
      return Err(ConsumableNotReturnable);
    }
    if loan.rentalStatus == Kembali {
      return Err(AlreadyReturned);
    }
    if loan.status != Approved {
      return Err(NotApproved);
    }
    if loan.barang !in db.items {
      return Err(ServerError);
    }
    var barang := db.items[loan.barang];
    if loan.unitKodes.None? || barang.units.None? {
      return Err(ServerError);
    }
    ghost var units0 := barang.units.value;
    var units := barang.units.value;
    var kodes := loan.unitKodes.value;
    var newUnitStatus: seq<UnitLoanRecord> := [];
    var i := 0;
    while i < |kodes|
      invariant 0 <= i <= |kodes|
      invariant ReturnUnits(units0, kodes, unitReturns, loan.unitStatus, [])
             == ReturnUnits(units, kodes[i..], unitReturns, loan.unitStatus, newUnitStatus)
    {
      assert kodes[i..][0] == kodes[i] && kodes[i..][1..] == kodes[i + 1..];
      var kode := kodes[i];
      var idx := FindUnit(units, kode);
      if idx == -1 || units[idx].status != Dipinjam {
        return Err(UnitNotOnLoan(kode));
      }
      var kondisi := ParseKondisi(ReturnKondisi(unitReturns, kode));
      if kondisi.None? {
        return Err(InvalidCondition(kode));
      }
      units := units[idx := units[idx].(status := kondisi.value)];
      var prevStatus := PriorStatus(loan.unitStatus, kode);
      newUnitStatus := newUnitStatus + [UnitLoanRecord(kode, prevStatus, kondisi)];
      i := i + 1;
    }
    RecalcStokNonConsumable(db, loan.barang, barang.(units := Some(units)));
    loan := loan.(rentalStatus := Kembali, tglKembali := Some(now), unitStatus := newUnitStatus);
    db.loans := db.loans[id := loan];
    return Ok(loan);
  }

  /** `delete`: give back the units of a loan that still holds them, then remove the loan. */
  method Delete(db: Db, id: Id) returns (r: Result<(), LoanError>)
    modifies db
    ensures (r, db.Snapshot()) == DeleteStep(old(db.Snapshot()), id)
  {
    if id !in db.loans {
      return Err(LoanNotFound);
    }
    var loan := db.loans[id];
    if HoldsUnits(loan) && loan.barang in db.items {
      var barang := db.items[loan.barang];
      if loan.unitKodes.None? || barang.units.None? {
        return Err(ServerError);
      }
      ghost var units0 := barang.units.value;
      var units := barang.units.value;
      var kodes := loan.unitKodes.value;
      var i := 0;
      while i < |kodes|
        invariant 0 <= i <= |kodes|
        invariant RestoreUnits(units0, kodes) == RestoreUnits(units, kodes[i..])
      {
        assert kodes[i..][0] == kodes[i] && kodes[i..][1..] == kodes[i + 1..];
        var idx := FindUnit(units, kodes[i]);
        if idx != -1 {
          units := units[idx := units[idx].(status := Tersedia)];
        }
        i := i + 1;
      }
      RecalcStokNonConsumable(db, loan.barang, barang.(units := Some(units)));
    }
    db.loans := db.loans - {id};
    return Ok(());
  }
}
