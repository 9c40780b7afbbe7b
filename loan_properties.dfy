/**
 * What the loan handlers guarantee: the unit loops change exactly the listed units,
 * the stock arithmetic, the order of the guards, and that every handler keeps the
 * store within its schemas.
 */
module LoanProperties {
  import opened Wrappers
  import opened Strings
  import opened Models
  import opened Loans

  // ---------------------------------------------------------------------
  // Unit loops
  // ---------------------------------------------------------------------

  /** Two unit lists with the same codes position by position. */
  predicate SameKodes(a: seq<Unit>, b: seq<Unit>) {
    |a| == |b| && forall i :: 0 <= i < |a| ==> a[i].kode == b[i].kode
  }

  /** `findIndex` on the code looks only at the codes, so status changes do not move it. */
  lemma {:induction false} FindUnitSameKodes(a: seq<Unit>, b: seq<Unit>, kode: string)
    requires SameKodes(a, b)
    ensures FindUnit(a, kode) == FindUnit(b, kode)
  {
    if a != [] && a[0].kode != kode {
      FindUnitSameKodes(a[1..], b[1..], kode);
    }
  }

  lemma SameKodesKodes(a: seq<Unit>, b: seq<Unit>)
    requires SameKodes(a, b)
    ensures Kodes(a) == Kodes(b)
  {
  }

  /** The unit at position `i` is the one `findIndex` picks for one of the listed codes. */
  predicate Listed(units: seq<Unit>, kodes: seq<string>, i: int)
    requires 0 <= i < |units|
  {
    units[i].kode in kodes && FindUnit(units, units[i].kode) == i
  }

  /** The code is found and its (first) unit has status `st`. */
  predicate Usable(units: seq<Unit>, kode: string, st: UnitStatus) {
    var idx := FindUnit(units, kode);
    idx != -1 && units[idx].status == st
  }

  /** The entries `approve` records: statusSaatPinjam is tersedia for every listed code. */
  function BorrowRecords(kodes: seq<string>): (r: seq<UnitLoanRecord>)
    ensures |r| == |kodes|
    ensures forall j :: 0 <= j < |kodes| ==> r[j] == UnitLoanRecord(kodes[j], Tersedia, None)
  {
    seq(|kodes|, j requires 0 <= j < |kodes| => UnitLoanRecord(kodes[j], Tersedia, None))
  }

  /** After one step of a loop over distinct codes, the remaining codes see the units as before. */
  lemma StepKeepsOthers(units: seq<Unit>, kodes: seq<string>, st: UnitStatus)
    requires |kodes| > 0 && Distinct(kodes) && FindUnit(units, kodes[0]) != -1
    ensures var u := SetStatus(units, FindUnit(units, kodes[0]), st);
      && SameKodes(u, units)
      && (forall k :: k in kodes[1..] ==> FindUnit(u, k) == FindUnit(units, k) && FindUnit(u, k) != FindUnit(units, kodes[0]))
      && (forall i :: 0 <= i < |units| ==> (Listed(units, kodes, i) <==> i == FindUnit(units, kodes[0]) || Listed(u, kodes[1..], i)))
  {
    var idx := FindUnit(units, kodes[0]);
    var u := SetStatus(units, idx, st);
    forall k | k in kodes[1..] ensures FindUnit(u, k) == FindUnit(units, k) && FindUnit(u, k) != idx {
      FindUnitSameKodes(u, units, k);
      var j :| 0 <= j < |kodes[1..]| && kodes[1..][j] == k;
      assert kodes[j + 1] == k;
    }
    forall i | 0 <= i < |units|
      ensures Listed(units, kodes, i) <==> i == idx || Listed(u, kodes[1..], i)
    {
      FindUnitSameKodes(u, units, units[i].kode);
      assert units[i].kode in kodes <==> units[i].kode == kodes[0] || units[i].kode in kodes[1..];
    }
  }

  /** Every listed code is found, and its unit has status `st`. */
  predicate AllUsable(units: seq<Unit>, kodes: seq<string>, st: UnitStatus) {
    forall k :: k in kodes ==> Usable(units, k, st)
  }

  /** The units after a loop that gives each listed unit the status `st` and leaves the others alone. */
  predicate RelabelledTo(units: seq<Unit>, kodes: seq<string>, after: seq<Unit>, st: UnitStatus) {
    SameKodes(after, units) &&
    forall i :: 0 <= i < |units| ==>
      after[i] == if Listed(units, kodes, i) then Unit(units[i].kode, st) else units[i]
  }

  /**
   * `approve`'s loop over distinct codes succeeds exactly when every code names a tersedia
   * unit; otherwise it names one code that is missing or not tersedia.
   */
  lemma {:induction false} BorrowUnitsOutcome(units: seq<Unit>, kodes: seq<string>, acc: seq<UnitLoanRecord>)
    requires Distinct(kodes)
    ensures BorrowUnits(units, kodes, acc).Ok? <==> AllUsable(units, kodes, Tersedia)
    ensures BorrowUnits(units, kodes, acc).Err? ==>
      var e := BorrowUnits(units, kodes, acc).error;
      e.UnitNotAvailable? && e.kode in kodes && !Usable(units, e.kode, Tersedia)
    decreases |kodes|
  {
    if kodes != [] {
      var idx := FindUnit(units, kodes[0]);
      if idx != -1 && units[idx].status == Tersedia {
        var u := SetStatus(units, idx, Dipinjam);
        var acc' := acc + [UnitLoanRecord(kodes[0], units[idx].status, None)];
        assert Distinct(kodes[1..]);
        StepKeepsOthers(units, kodes, Dipinjam);
        BorrowUnitsOutcome(u, kodes[1..], acc');
        assert forall k :: k in kodes[1..] ==> (Usable(u, k, Tersedia) <==> Usable(units, k, Tersedia));
        assert AllUsable(u, kodes[1..], Tersedia) <==> AllUsable(units, kodes[1..], Tersedia);
        assert AllUsable(units, kodes, Tersedia) <==> AllUsable(units, kodes[1..], Tersedia) by {
          assert forall k :: k in kodes <==> k == kodes[0] || k in kodes[1..];
        }
      } else {
        assert !AllUsable(units, kodes, Tersedia) by {
          assert kodes[0] in kodes;
        }
      }
    }
  }

  /** When `approve`'s loop succeeds, it has pushed one entry per code, in order, each saying tersedia. */
  lemma {:induction false} BorrowUnitsRecords(units: seq<Unit>, kodes: seq<string>, acc: seq<UnitLoanRecord>)
    requires BorrowUnits(units, kodes, acc).Ok?
    ensures BorrowUnits(units, kodes, acc).value.1 == acc + BorrowRecords(kodes)
    decreases |kodes|, 1
  {
    if kodes == [] {
      assert acc + BorrowRecords(kodes) == acc;
    } else {
      BorrowRecordsStep(units, kodes, acc);
    }
  }

  lemma {:induction false} BorrowRecordsStep(units: seq<Unit>, kodes: seq<string>, acc: seq<UnitLoanRecord>)
    requires kodes != [] && BorrowUnits(units, kodes, acc).Ok?
    ensures BorrowUnits(units, kodes, acc).value.1 == acc + BorrowRecords(kodes)
    decreases |kodes|, 0
  {
    var u := BorrowUnitsUnfold(units, kodes, acc);
    var rec := UnitLoanRecord(kodes[0], Tersedia, None);
    BorrowUnitsRecords(u, kodes[1..], acc + [rec]);
    BorrowRecordsCons(kodes);
    AppendOne(acc, rec, BorrowRecords(kodes[1..]));
  }

  /** Pushing one entry and then the rest is appending the entry followed by the rest. */
  lemma AppendOne<T>(acc: seq<T>, x: T, rest: seq<T>)
    ensures acc + [x] + rest == acc + ([x] + rest)
  {
  }

  /** One successful step of `approve`'s loop: the first code's unit was tersedia and is now dipinjam. */
  lemma BorrowUnitsUnfold(units: seq<Unit>, kodes: seq<string>, acc: seq<UnitLoanRecord>) returns (u: seq<Unit>)
    requires kodes != [] && BorrowUnits(units, kodes, acc).Ok?
    ensures FindUnit(units, kodes[0]) != -1 && units[FindUnit(units, kodes[0])].status == Tersedia
    ensures u == SetStatus(units, FindUnit(units, kodes[0]), Dipinjam)
    ensures BorrowUnits(units, kodes, acc) == BorrowUnits(u, kodes[1..], acc + [UnitLoanRecord(kodes[0], Tersedia, None)])
  {
    u := SetStatus(units, FindUnit(units, kodes[0]), Dipinjam);
  }

  lemma BorrowRecordsCons(kodes: seq<string>)
    requires kodes != []
    ensures BorrowRecords(kodes) == [UnitLoanRecord(kodes[0], Tersedia, None)] + BorrowRecords(kodes[1..])
  {
    var rs := BorrowRecords(kodes);
    var rest := [UnitLoanRecord(kodes[0], Tersedia, None)] + BorrowRecords(kodes[1..]);
    forall j | 0 <= j < |rs| ensures rs[j] == rest[j] {
      if j > 0 { assert kodes[j] == kodes[1..][j - 1]; }
    }
  }

  /** When `approve`'s loop over distinct codes succeeds, exactly the listed units have become dipinjam. */
  lemma {:induction false} BorrowUnitsEffect(units: seq<Unit>, kodes: seq<string>, acc: seq<UnitLoanRecord>)
    requires Distinct(kodes) && BorrowUnits(units, kodes, acc).Ok?
    ensures RelabelledTo(units, kodes, BorrowUnits(units, kodes, acc).value.0, Dipinjam)
    decreases |kodes|
  {
    if kodes != [] {
      var idx := FindUnit(units, kodes[0]);
      var u := SetStatus(units, idx, Dipinjam);
      var acc' := acc + [UnitLoanRecord(kodes[0], units[idx].status, None)];
      assert BorrowUnits(units, kodes, acc) == BorrowUnits(u, kodes[1..], acc');
      assert Distinct(kodes[1..]);
      StepKeepsOthers(units, kodes, Dipinjam);
      BorrowUnitsEffect(u, kodes[1..], acc');
      var after := BorrowUnits(u, kodes[1..], acc').value.0;
      assert RelabelledTo(u, kodes[1..], after, Dipinjam);
      forall i | 0 <= i < |units|
        ensures after[i] == if Listed(units, kodes, i) then Unit(units[i].kode, Dipinjam) else units[i]
      {
        assert u[i].kode == units[i].kode;
        if i == idx {
          assert !Listed(u, kodes[1..], i);
        }
      }
    }
  }

  /** The condition `returnItem` reads for a code, as a status (tersedia when it is not valid). */
  function ConditionOf(unitReturns: seq<UnitReturn>, kode: string): Kondisi {
    ParseKondisi(ReturnKondisi(unitReturns, kode)).GetOr(Tersedia)
  }

  /** Every listed code is on loan and comes with a valid condition. */
  predicate AllReturnable(units: seq<Unit>, kodes: seq<string>, unitReturns: seq<UnitReturn>) {
    forall k :: k in kodes ==> Usable(units, k, Dipinjam) && ParseKondisi(ReturnKondisi(unitReturns, k)).Some?
  }

  /** The units after `returnItem`'s loop: each listed unit has the condition named for its code. */
  predicate Returned(units: seq<Unit>, kodes: seq<string>, after: seq<Unit>, unitReturns: seq<UnitReturn>) {
    SameKodes(after, units) &&
    forall i :: 0 <= i < |units| ==>
      after[i] == if Listed(units, kodes, i) then Unit(units[i].kode, ConditionOf(unitReturns, units[i].kode)) else units[i]
  }

  /** The entries `returnItem` records: the status at loan time and the condition, per code. */
  function ReturnRecords(kodes: seq<string>, unitReturns: seq<UnitReturn>, prior: seq<UnitLoanRecord>): (r: seq<UnitLoanRecord>)
    ensures |r| == |kodes|
    ensures forall j :: 0 <= j < |kodes| ==>
      r[j] == UnitLoanRecord(kodes[j], PriorStatus(prior, kodes[j]), Some(ConditionOf(unitReturns, kodes[j])))
  {
    seq(|kodes|, j requires 0 <= j < |kodes| =>
      UnitLoanRecord(kodes[j], PriorStatus(prior, kodes[j]), Some(ConditionOf(unitReturns, kodes[j]))))
  }

  /**
   * `returnItem`'s loop over distinct codes succeeds exactly when every code names a unit on
   * loan that comes with a valid condition; otherwise it names the code and what is wrong.
   */
  lemma {:induction false} ReturnUnitsOutcome(units: seq<Unit>, kodes: seq<string>, unitReturns: seq<UnitReturn>,
                                               prior: seq<UnitLoanRecord>, acc: seq<UnitLoanRecord>)
    requires Distinct(kodes)
    ensures ReturnUnits(units, kodes, unitReturns, prior, acc).Ok? <==> AllReturnable(units, kodes, unitReturns)
    ensures ReturnUnits(units, kodes, unitReturns, prior, acc).Err? ==>
      var e := ReturnUnits(units, kodes, unitReturns, prior, acc).error;
      || (e.UnitNotOnLoan? && e.kode in kodes && !Usable(units, e.kode, Dipinjam))
      || (e.InvalidCondition? && e.kode in kodes && ParseKondisi(ReturnKondisi(unitReturns, e.kode)).None?)
    decreases |kodes|, 1
  {
    if kodes != [] {
      var idx := FindUnit(units, kodes[0]);
      var c := ParseKondisi(ReturnKondisi(unitReturns, kodes[0]));
      if idx != -1 && units[idx].status == Dipinjam && c.Some? {
        ReturnOutcomeStep(units, kodes, unitReturns, prior, acc);
      } else {
        assert !AllReturnable(units, kodes, unitReturns) by {
          assert kodes[0] in kodes;
        }
      }
    }
  }

  lemma {:induction false} ReturnOutcomeStep(units: seq<Unit>, kodes: seq<string>, unitReturns: seq<UnitReturn>,
                                              prior: seq<UnitLoanRecord>, acc: seq<UnitLoanRecord>)
    requires Distinct(kodes) && kodes != []
    requires Usable(units, kodes[0], Dipinjam) && ParseKondisi(ReturnKondisi(unitReturns, kodes[0])).Some?
    ensures ReturnUnits(units, kodes, unitReturns, prior, acc).Ok? <==> AllReturnable(units, kodes, unitReturns)
    ensures ReturnUnits(units, kodes, unitReturns, prior, acc).Err? ==>
      var e := ReturnUnits(units, kodes, unitReturns, prior, acc).error;
      || (e.UnitNotOnLoan? && e.kode in kodes && !Usable(units, e.kode, Dipinjam))
      || (e.InvalidCondition? && e.kode in kodes && ParseKondisi(ReturnKondisi(unitReturns, e.kode)).None?)
    decreases |kodes|, 0
  {
    var idx := FindUnit(units, kodes[0]);
    var c := ParseKondisi(ReturnKondisi(unitReturns, kodes[0]));
    var u := SetStatus(units, idx, c.value);
    var acc' := acc + [UnitLoanRecord(kodes[0], PriorStatus(prior, kodes[0]), c)];
    assert ReturnUnits(units, kodes, unitReturns, prior, acc) == ReturnUnits(u, kodes[1..], unitReturns, prior, acc');
    assert Distinct(kodes[1..]);
    StepKeepsOthers(units, kodes, c.value);
    ReturnUnitsOutcome(u, kodes[1..], unitReturns, prior, acc');
    assert forall k :: k in kodes[1..] ==> (Usable(u, k, Dipinjam) <==> Usable(units, k, Dipinjam));
    assert AllReturnable(u, kodes[1..], unitReturns) <==> AllReturnable(units, kodes[1..], unitReturns);
    assert AllReturnable(units, kodes, unitReturns) <==> AllReturnable(units, kodes[1..], unitReturns) by {
      assert forall k :: k in kodes <==> k == kodes[0] || k in kodes[1..];
    }
  }

  /** When `returnItem`'s loop succeeds, it has pushed one entry per code, in order. */
  lemma {:induction false} ReturnUnitsRecords(units: seq<Unit>, kodes: seq<string>, unitReturns: seq<UnitReturn>,
                                               prior: seq<UnitLoanRecord>, acc: seq<UnitLoanRecord>)
    requires ReturnUnits(units, kodes, unitReturns, prior, acc).Ok?
    ensures ReturnUnits(units, kodes, unitReturns, prior, acc).value.1 == acc + ReturnRecords(kodes, unitReturns, prior)
    decreases |kodes|, 1
  {
    if kodes == [] {
      assert acc + ReturnRecords(kodes, unitReturns, prior) == acc;
    } else {
      ReturnRecordsStep(units, kodes, unitReturns, prior, acc);
    }
  }

  lemma {:induction false} ReturnRecordsStep(units: seq<Unit>, kodes: seq<string>, unitReturns: seq<UnitReturn>,
                                              prior: seq<UnitLoanRecord>, acc: seq<UnitLoanRecord>)
    requires kodes != [] && ReturnUnits(units, kodes, unitReturns, prior, acc).Ok?
    ensures ReturnUnits(units, kodes, unitReturns, prior, acc).value.1 == acc + ReturnRecords(kodes, unitReturns, prior)
    decreases |kodes|, 0
  {
    var u := ReturnUnitsUnfold(units, kodes, unitReturns, prior, acc);
    var rec := UnitLoanRecord(kodes[0], PriorStatus(prior, kodes[0]), Some(ConditionOf(unitReturns, kodes[0])));
    ReturnUnitsRecords(u, kodes[1..], unitReturns, prior, acc + [rec]);
    ReturnRecordsCons(kodes, unitReturns, prior);
    AppendOne(acc, rec, ReturnRecords(kodes[1..], unitReturns, prior));
  }

  /** One successful step of `returnItem`'s loop: the first code's unit was on loan and has taken its condition. */
  lemma ReturnUnitsUnfold(units: seq<Unit>, kodes: seq<string>, unitReturns: seq<UnitReturn>,
                          prior: seq<UnitLoanRecord>, acc: seq<UnitLoanRecord>) returns (u: seq<Unit>)
    requires kodes != [] && ReturnUnits(units, kodes, unitReturns, prior, acc).Ok?
    ensures FindUnit(units, kodes[0]) != -1 && units[FindUnit(units, kodes[0])].status == Dipinjam
    ensures ParseKondisi(ReturnKondisi(unitReturns, kodes[0])).Some?
    ensures u == SetStatus(units, FindUnit(units, kodes[0]), ConditionOf(unitReturns, kodes[0]))
    ensures ReturnUnits(units, kodes, unitReturns, prior, acc)
         == ReturnUnits(u, kodes[1..], unitReturns, prior,
              acc + [UnitLoanRecord(kodes[0], PriorStatus(prior, kodes[0]), Some(ConditionOf(unitReturns, kodes[0])))])
  {
    u := SetStatus(units, FindUnit(units, kodes[0]), ConditionOf(unitReturns, kodes[0]));
  }

  lemma ReturnRecordsCons(kodes: seq<string>, unitReturns: seq<UnitReturn>, prior: seq<UnitLoanRecord>)
    requires kodes != []
    ensures ReturnRecords(kodes, unitReturns, prior)
         == [UnitLoanRecord(kodes[0], PriorStatus(prior, kodes[0]), Some(ConditionOf(unitReturns, kodes[0])))]
            + ReturnRecords(kodes[1..], unitReturns, prior)
  {
    var rs := ReturnRecords(kodes, unitReturns, prior);
    var rest := [UnitLoanRecord(kodes[0], PriorStatus(prior, kodes[0]), Some(ConditionOf(unitReturns, kodes[0])))]
                + ReturnRecords(kodes[1..], unitReturns, prior);
    forall j | 0 <= j < |rs| ensures rs[j] == rest[j] {
      if j > 0 { assert kodes[j] == kodes[1..][j - 1]; }
    }
  }

  /** When `returnItem`'s loop over distinct codes succeeds, each listed unit has taken its condition. */
  lemma {:induction false} ReturnUnitsEffect(units: seq<Unit>, kodes: seq<string>, unitReturns: seq<UnitReturn>,
                                              prior: seq<UnitLoanRecord>, acc: seq<UnitLoanRecord>)
    requires Distinct(kodes) && ReturnUnits(units, kodes, unitReturns, prior, acc).Ok?
    ensures Returned(units, kodes, ReturnUnits(units, kodes, unitReturns, prior, acc).value.0, unitReturns)
    decreases |kodes|
  {
    if kodes != [] {
      var idx := FindUnit(units, kodes[0]);
      var c := ParseKondisi(ReturnKondisi(unitReturns, kodes[0]));
      var u := SetStatus(units, idx, c.value);
      var acc' := acc + [UnitLoanRecord(kodes[0], PriorStatus(prior, kodes[0]), c)];
      assert ReturnUnits(units, kodes, unitReturns, prior, acc) == ReturnUnits(u, kodes[1..], unitReturns, prior, acc');
      assert Distinct(kodes[1..]);
      StepKeepsOthers(units, kodes, c.value);
      ReturnUnitsEffect(u, kodes[1..], unitReturns, prior, acc');
      var after := ReturnUnits(u, kodes[1..], unitReturns, prior, acc').value.0;
      assert Returned(u, kodes[1..], after, unitReturns);
      forall i | 0 <= i < |units|
        ensures after[i] == if Listed(units, kodes, i) then Unit(units[i].kode, ConditionOf(unitReturns, units[i].kode)) else units[i]
      {
        assert u[i].kode == units[i].kode;
        if i == idx {
          assert !Listed(u, kodes[1..], i);
        }
      }
    }
  }

  /** `delete`'s loop over distinct codes puts exactly the listed units that exist back to tersedia. */
  lemma {:induction false} RestoreUnitsEffect(units: seq<Unit>, kodes: seq<string>)
    requires Distinct(kodes)
    ensures RelabelledTo(units, kodes, RestoreUnits(units, kodes), Tersedia)
    decreases |kodes|
  {
    if kodes != [] {
      var idx := FindUnit(units, kodes[0]);
      assert Distinct(kodes[1..]);
      if idx == -1 {
        RestoreUnitsEffect(units, kodes[1..]);
        forall i | 0 <= i < |units| ensures Listed(units, kodes, i) <==> Listed(units, kodes[1..], i) {
          assert units[i].kode in kodes <==> units[i].kode == kodes[0] || units[i].kode in kodes[1..];
        }
      } else {
        var u := SetStatus(units, idx, Tersedia);
        StepKeepsOthers(units, kodes, Tersedia);
        RestoreUnitsEffect(u, kodes[1..]);
        var after := RestoreUnits(u, kodes[1..]);
        assert RelabelledTo(u, kodes[1..], after, Tersedia);
        forall i | 0 <= i < |units|
          ensures after[i] == if Listed(units, kodes, i) then Unit(units[i].kode, Tersedia) else units[i]
        {
          assert u[i].kode == units[i].kode;
          if i == idx {
            assert !Listed(u, kodes[1..], i);
          }
        }
      }
    }
  }

  /**
   * Approving a unit loan and then deleting it gives back exactly the units as they were:
   * the rollback of `delete` undoes the loop of `approve`.
   */
  lemma BorrowThenRestore(units: seq<Unit>, kodes: seq<string>, acc: seq<UnitLoanRecord>)
    requires Distinct(kodes) && BorrowUnits(units, kodes, acc).Ok?
    ensures RestoreUnits(BorrowUnits(units, kodes, acc).value.0, kodes) == units
  {
    var after := BorrowUnits(units, kodes, acc).value.0;
    BorrowUnitsOutcome(units, kodes, acc);
    BorrowUnitsEffect(units, kodes, acc);
    RestoreUnitsEffect(after, kodes);
    var back := RestoreUnits(after, kodes);
    forall i | 0 <= i < |units| ensures back[i] == units[i] {
      FindUnitSameKodes(after, units, units[i].kode);
      if Listed(units, kodes, i) {
        assert Usable(units, units[i].kode, Tersedia);
      }
    }
  }

  /** Setting one unit's status moves it from one count to another and leaves the rest alone. */
  lemma {:induction false} CountSetStatus(units: seq<Unit>, i: nat, st: UnitStatus, counted: UnitStatus)
    requires i < |units|
    ensures CountStatus(SetStatus(units, i, st), counted) + (if units[i].status == counted then 1 else 0)
         == CountStatus(units, counted) + (if st == counted then 1 else 0)
  {
    var u := SetStatus(units, i, st);
    CountStatusCons(units, counted);
    CountStatusCons(u, counted);
    if i == 0 {
      assert u[1..] == units[1..];
    } else {
      assert u[1..] == SetStatus(units[1..], i - 1, st);
      CountSetStatus(units[1..], i - 1, st, counted);
    }
  }

  /** The count of a non-empty list is its head's share plus the count of its tail. */
  lemma CountStatusCons(units: seq<Unit>, counted: UnitStatus)
    requires units != []
    ensures CountStatus(units, counted)
         == CountStatus(units[1..], counted) + (if units[0].status == counted then 1 else 0)
  {
  }

  /** `approve`'s loop puts exactly one more unit on loan per listed code. */
  lemma {:induction false} BorrowUnitsCount(units: seq<Unit>, kodes: seq<string>, acc: seq<UnitLoanRecord>)
    requires BorrowUnits(units, kodes, acc).Ok?
    ensures CountStatus(BorrowUnits(units, kodes, acc).value.0, Dipinjam) == CountStatus(units, Dipinjam) + |kodes|
    ensures CountStatus(BorrowUnits(units, kodes, acc).value.0, Tersedia) + |kodes| == CountStatus(units, Tersedia)
    ensures |BorrowUnits(units, kodes, acc).value.0| == |units|
    decreases |kodes|
  {
    if kodes != [] {
      var idx := FindUnit(units, kodes[0]);
      var acc' := acc + [UnitLoanRecord(kodes[0], units[idx].status, None)];
      CountSetStatus(units, idx, Dipinjam, Dipinjam);
      CountSetStatus(units, idx, Dipinjam, Tersedia);
      BorrowUnitsCount(SetStatus(units, idx, Dipinjam), kodes[1..], acc');
    }
  }

  /** `returnItem`'s loop takes exactly one unit off loan per listed code: no condition is dipinjam. */
  lemma {:induction false} ReturnUnitsCount(units: seq<Unit>, kodes: seq<string>, unitReturns: seq<UnitReturn>,
                                             prior: seq<UnitLoanRecord>, acc: seq<UnitLoanRecord>)
    requires ReturnUnits(units, kodes, unitReturns, prior, acc).Ok?
    ensures CountStatus(ReturnUnits(units, kodes, unitReturns, prior, acc).value.0, Dipinjam) + |kodes|
         == CountStatus(units, Dipinjam)
    decreases |kodes|
  {
    if kodes != [] {
      var u := ReturnUnitsUnfold(units, kodes, unitReturns, prior, acc);
      CountSetStatus(units, FindUnit(units, kodes[0]), ConditionOf(unitReturns, kodes[0]), Dipinjam);
      ReturnUnitsCount(u, kodes[1..], unitReturns, prior,
        acc + [UnitLoanRecord(kodes[0], PriorStatus(prior, kodes[0]), Some(ConditionOf(unitReturns, kodes[0])))]);
    }
  }

  // ---------------------------------------------------------------------
  // Recount and availability
  // ---------------------------------------------------------------------

  /** A requested code is offered exactly when the item has a tersedia unit with that code. */
  lemma AvailableKodesMeaning(units: seq<Unit>, kode: string)
    ensures kode in AvailableKodes(units) <==> Unit(kode, Tersedia) in units
  {
    var w := WithStatus(units, Tersedia);
    if kode in Kodes(w) {
      var j :| 0 <= j < |w| && Kodes(w)[j] == kode;
      assert w[j] in w;
    }
    if Unit(kode, Tersedia) in units {
      assert Unit(kode, Tersedia) in w;
      var j :| 0 <= j < |w| && w[j] == Unit(kode, Tersedia);
      assert Kodes(w)[j] == kode;
    }
  }

  /** The four status counts of an item's units add up to the number of units. */
  lemma {:induction false} CountPartition(units: seq<Unit>)
    ensures CountStatus(units, Tersedia) + CountStatus(units, Dipinjam) + CountStatus(units, Rusak)
          + CountStatus(units, Hilang) == |units|
  {
    if units != [] {
      CountPartition(units[1..]);
    }
  }

  // ---------------------------------------------------------------------
  // create
  // ---------------------------------------------------------------------

  /** The checks of `create` in the order they run, each with the error it answers when it fails. */
  function CreateChecks(s: State, req: LoanRequest, newId: Id): seq<(bool, LoanError)> {
    RequestChecks(req) + ItemChecks(s, req, newId)
  }

  /** The guards on the request body alone. */
  function RequestChecks(req: LoanRequest): seq<(bool, LoanError)> {
    var consumable := req.isConsumable == Some(true);
    var units := req.isConsumable == Some(false);
    [ (req.barang != "" && req.peminjamType != "" && req.isConsumable.Some? && req.peminjamPhone != "", MissingFields),
      (if req.peminjamType == "siswa" then req.peminjamSiswa != "" else req.peminjamNama != "" && req.peminjamAsal != "",
        MissingBorrower),
      (consumable ==> req.jumlah.Some? && req.jumlah.value >= 1, InvalidJumlah),
      (units ==> req.unitKodes.Some? && |req.unitKodes.value| >= 1, InvalidUnitKodes),
      (units && req.unitKodes.Some? ==> Distinct(req.unitKodes.value), DuplicateUnitKodes) ]
  }

  /** The guards on the requested item, then the save. */
  function ItemChecks(s: State, req: LoanRequest, newId: Id): seq<(bool, LoanError)> {
    var consumable := req.isConsumable == Some(true);
    var units := req.isConsumable == Some(false);
    var item := req.barang in s.items;
    [ (item, ItemNotFound),
      (item && consumable ==> s.items[req.barang].tipe == HabisPakai, NotConsumableItem),
      (item && units ==> s.items[req.barang].tipe == TidakHabisPakai, NotUnitItem),
      (item && consumable && req.jumlah.Some? && s.items[req.barang].stok.Some?
         ==> s.items[req.barang].stok.value >= req.jumlah.value, InsufficientStock),
      (item && units ==> s.items[req.barang].units.Some?, ServerError),
      (item && units && req.unitKodes.Some? && s.items[req.barang].units.Some?
         ==> forall k :: k in req.unitKodes.value ==> Unit(k, Tersedia) in s.items[req.barang].units.value,
        UnitNotAvailable(FirstMissing(s, req))),
      (ParseBorrowerType(req.peminjamType).Some? && !IsBlank(req.peminjamPhone), ServerError),
      (newId !in s.loans, ServerError) ]
  }

  /** The code `create` names when a requested unit is not available: the first such code. */
  function FirstMissing(s: State, req: LoanRequest): string {
    if req.barang in s.items && req.unitKodes.Some? && s.items[req.barang].units.Some? then
      var kodes := req.unitKodes.value;
      var i := FirstUnavailable(AvailableKodes(s.items[req.barang].units.value), kodes);
      if i < |kodes| then kodes[i] else ""
    else ""
  }

  /** The position of the first check that fails, `|checks|` when all pass. */
  function FirstFailing(checks: seq<(bool, LoanError)>): (i: nat)
    ensures i <= |checks|
    ensures forall j :: 0 <= j < i ==> checks[j].0
    ensures i < |checks| ==> !checks[i].0
  {
    if checks == [] || !checks[0].0 then 0
    else
      var r := FirstFailing(checks[1..]);
      assert forall j :: 1 <= j < |checks| ==> checks[j] == checks[1..][j - 1];
      r + 1
  }

  /** Once the request guards pass, the save of the new loan fails only for an unknown type or a blank phone. */
  lemma NewLoanSaves(req: LoanRequest, b: Barang, now: Time)
    requires CheckRequest(req) == None
    ensures NewLoan(req, b, now).Some? <==> ParseBorrowerType(req.peminjamType).Some? && !IsBlank(req.peminjamPhone)
  {
    TrimEmptyIffBlank(req.peminjamPhone);
  }

  /** The first failing check of a concatenation is found in its first part, or else in its second. */
  lemma {:induction false} FirstFailingAppend(a: seq<(bool, LoanError)>, b: seq<(bool, LoanError)>)
    ensures FirstFailing(a + b) == if FirstFailing(a) < |a| then FirstFailing(a) else |a| + FirstFailing(b)
  {
    if a != [] && a[0].0 {
      assert (a + b)[1..] == a[1..] + b;
      FirstFailingAppend(a[1..], b);
    } else if a == [] {
      assert a + b == b;
    }
  }

  /** `CheckRequest` answers with the error of the first failing request guard, and passes when none fails. */
  lemma RequestFirstFailure(req: LoanRequest)
    ensures var checks := RequestChecks(req);
      FirstFailing(checks) < |checks| ==> CheckRequest(req) == Some(checks[FirstFailing(checks)].1)
    ensures CheckRequest(req) == None <==> FirstFailing(RequestChecks(req)) == |RequestChecks(req)|
  {
    var checks := RequestChecks(req);
    var i := FirstFailing(checks);
    if req.unitKodes.Some? {
      ElementsBound(req.unitKodes.value);
    }
    assert i > 0 ==> checks[0].0;
    assert i > 1 ==> checks[1].0;
    assert i > 2 ==> checks[2].0;
    assert i > 3 ==> checks[3].0;
    assert i > 4 ==> checks[4].0;
  }

  /** Past the request guards, `create` answers with the first failing item check, and saves when none fails. */
  lemma ItemFirstFailure(s: State, req: LoanRequest, newId: Id, now: Time)
    requires CheckRequest(req) == None
    ensures var checks := ItemChecks(s, req, newId);
      FirstFailing(checks) < |checks| ==> CreateStep(s, req, newId, now).0 == Err(checks[FirstFailing(checks)].1)
    ensures CreateStep(s, req, newId, now).0.Ok? <==> FirstFailing(ItemChecks(s, req, newId)) == |ItemChecks(s, req, newId)|
  {
    if req.isConsumable.value {
      ConsumableFirstFailure(s, req, newId, now);
    } else {
      UnitFirstFailure(s, req, newId, now);
    }
  }

  /** `ItemFirstFailure` for a consumable request: the unit checks hold trivially. */
  lemma ConsumableFirstFailure(s: State, req: LoanRequest, newId: Id, now: Time)
    requires CheckRequest(req) == None && req.isConsumable == Some(true)
    ensures var checks := ItemChecks(s, req, newId);
      FirstFailing(checks) < |checks| ==> CreateStep(s, req, newId, now).0 == Err(checks[FirstFailing(checks)].1)
    ensures CreateStep(s, req, newId, now).0.Ok? <==> FirstFailing(ItemChecks(s, req, newId)) == |ItemChecks(s, req, newId)|
  {
    var checks := ItemChecks(s, req, newId);
    var i := FirstFailing(checks);
    if req.barang !in s.items {
      assert !checks[0].0;
    } else if s.items[req.barang].tipe != HabisPakai {
      assert checks[0].0 && !checks[1].0;
    } else if !checks[3].0 {
      assert checks[0].0 && checks[1].0 && checks[2].0;
    } else {
      assert checks[0].0 && checks[1].0 && checks[2].0 && checks[3].0 && checks[4].0 && checks[5].0;
      NewLoanSaves(req, s.items[req.barang], now);
      if i > 6 {
        assert checks[6].0;
      }
      if i > 7 {
        assert checks[7].0;
      }
    }
  }

  /** `ItemFirstFailure` for a request of units: the stock check holds trivially. */
  lemma UnitFirstFailure(s: State, req: LoanRequest, newId: Id, now: Time)
    requires CheckRequest(req) == None && req.isConsumable == Some(false)
    ensures var checks := ItemChecks(s, req, newId);
      FirstFailing(checks) < |checks| ==> CreateStep(s, req, newId, now).0 == Err(checks[FirstFailing(checks)].1)
    ensures CreateStep(s, req, newId, now).0.Ok? <==> FirstFailing(ItemChecks(s, req, newId)) == |ItemChecks(s, req, newId)|
  {
    var checks := ItemChecks(s, req, newId);
    var i := FirstFailing(checks);
    if req.barang !in s.items {
      assert !checks[0].0;
    } else if s.items[req.barang].tipe != TidakHabisPakai {
      assert checks[0].0 && checks[1].0 && !checks[2].0;
    } else if s.items[req.barang].units.None? {
      assert checks[0].0 && checks[1].0 && checks[2].0 && checks[3].0 && !checks[4].0;
    } else {
      assert checks[0].0 && checks[1].0 && checks[2].0 && checks[3].0 && checks[4].0;
      AvailableFirstFailure(s, req, newId, now);
    }
  }

  /** The last checks of a request of units, once the item has units: availability, then the save. */
  lemma AvailableFirstFailure(s: State, req: LoanRequest, newId: Id, now: Time)
    requires CheckRequest(req) == None && req.isConsumable == Some(false)
    requires req.barang in s.items && s.items[req.barang].tipe == TidakHabisPakai && s.items[req.barang].units.Some?
    ensures var checks := ItemChecks(s, req, newId);
      5 <= FirstFailing(checks) < |checks| ==> CreateStep(s, req, newId, now).0 == Err(checks[FirstFailing(checks)].1)
    ensures var checks := ItemChecks(s, req, newId);
      5 <= FirstFailing(checks) ==> (CreateStep(s, req, newId, now).0.Ok? <==> FirstFailing(checks) == |checks|)
  {
    var checks := ItemChecks(s, req, newId);
    var i := FirstFailing(checks);
    var b := s.items[req.barang];
    var kodes := req.unitKodes.value;
    var k := FirstUnavailable(AvailableKodes(b.units.value), kodes);
    forall x | x in kodes ensures x in AvailableKodes(b.units.value) <==> Unit(x, Tersedia) in b.units.value {
      AvailableKodesMeaning(b.units.value, x);
    }
    if k < |kodes| {
      assert kodes[k] in kodes;
      assert !checks[5].0;
    } else {
      assert checks[5].0;
      NewLoanSaves(req, b, now);
      if i > 6 {
        assert checks[6].0;
      }
      if i > 7 {
        assert checks[7].0;
      }
    }
  }

  /** `create` answers with the error of the first of its checks that fails, and succeeds when none does. */
  lemma CreateFirstFailure(s: State, req: LoanRequest, newId: Id, now: Time)
    ensures var checks := CreateChecks(s, req, newId);
      FirstFailing(checks) < |checks| ==> CreateStep(s, req, newId, now).0 == Err(checks[FirstFailing(checks)].1)
    ensures CreateStep(s, req, newId, now).0.Ok? <==> FirstFailing(CreateChecks(s, req, newId)) == |CreateChecks(s, req, newId)|
  {
    var rc := RequestChecks(req);
    var ic := ItemChecks(s, req, newId);
    FirstFailingAppend(rc, ic);
    RequestFirstFailure(req);
    if CheckRequest(req) == None {
      ItemFirstFailure(s, req, newId, now);
      if FirstFailing(ic) < |ic| {
        assert (rc + ic)[|rc| + FirstFailing(ic)] == ic[FirstFailing(ic)];
      }
    } else {
      assert (rc + ic)[FirstFailing(rc)] == rc[FirstFailing(rc)];
    }
  }

  // ---------------------------------------------------------------------
  // approve, returnItem, delete on one item
  // ---------------------------------------------------------------------

  /**
   * Approving a pending consumable loan: too little stock is refused, otherwise the stock
   * goes down by exactly the amount lent and stays non-negative; a missing amount fails the save.
   */
  lemma ApproveConsumable(s: State, id: Id, now: Time)
    requires id in s.loans && s.loans[id].status == Pending && s.loans[id].isConsumable
    requires s.loans[id].barang in s.items
    ensures var l := s.loans[id]; var b := s.items[l.barang]; var r := ApproveStep(s, id, now);
      && (b.stok.Some? && l.jumlah.Some? && b.stok.value < l.jumlah.value ==> r.0 == Err(InsufficientStock))
      && (r.0.Ok? <==> b.stok.Some? && l.jumlah.Some? && b.stok.value >= l.jumlah.value)
      && (r.0.Ok? ==> r.1.items[l.barang] == b.(stok := Some(b.stok.value - l.jumlah.value))
                      && r.1.items[l.barang].stok.value >= 0 && r.0.value.unitStatus == l.unitStatus)
  {
  }

  /**
   * Approving a pending unit loan: it succeeds exactly when every requested unit is tersedia;
   * then exactly those units become dipinjam, the item's on-loan count grows by their number,
   * no other field of the item changes, and the loan records each as tersedia at loan time.
   */
  lemma ApproveUnits(s: State, id: Id, now: Time)
    requires id in s.loans && s.loans[id].status == Pending && !s.loans[id].isConsumable
    requires ValidLoan(s.loans[id]) && s.loans[id].barang in s.items && s.items[s.loans[id].barang].units.Some?
    ensures var l := s.loans[id]; var units := s.items[l.barang].units.value; var r := ApproveStep(s, id, now);
      && (r.0.Ok? <==> AllUsable(units, l.unitKodes.value, Tersedia))
      && (r.0.Err? ==> r.0.error.UnitNotAvailable? && r.0.error.kode in l.unitKodes.value
                       && !Usable(units, r.0.error.kode, Tersedia))
      && (r.0.Ok? ==> r.1.items[l.barang].units.Some?
                      && RelabelledTo(units, l.unitKodes.value, r.1.items[l.barang].units.value, Dipinjam)
                      && r.0.value.unitStatus == BorrowRecords(l.unitKodes.value))
    ensures var l := s.loans[id]; var units := s.items[l.barang].units.value; var r := ApproveStep(s, id, now);
      r.0.Ok? ==> var b' := r.1.items[l.barang];
        && b'.units.Some? && b'.stokDipinjam == Some(CountStatus(b'.units.value, Dipinjam))
        && b' == s.items[l.barang].(units := b'.units, stokDipinjam := b'.stokDipinjam)
        && CountStatus(b'.units.value, Dipinjam) == CountStatus(units, Dipinjam) + |l.unitKodes.value|
  {
    var l := s.loans[id];
    var units := s.items[l.barang].units.value;
    var kodes := l.unitKodes.value;
    var r := ApproveStep(s, id, now);
    var res := BorrowUnits(units, kodes, []);
    UnitKodesValidatorMeaning(kodes);
    BorrowUnitsOutcome(units, kodes, []);
    if res.Ok? {
      var after := res.value.0;
      BorrowUnitsEffect(units, kodes, []);
      BorrowUnitsRecords(units, kodes, []);
      BorrowUnitsCount(units, kodes, []);
      assert [] + BorrowRecords(kodes) == BorrowRecords(kodes);
      assert r.1.items[l.barang] == Recalc(s.items[l.barang].(units := Some(after)));
      assert r.1.items[l.barang].stokDipinjam == Some(CountStatus(after, Dipinjam));
      assert CountStatus(after, Dipinjam) == CountStatus(units, Dipinjam) + |kodes|;
      assert r.0.value.unitStatus == res.value.1;
    } else {
      assert r.0 == Err(res.error);
    }
  }

  /**
   * Returning an approved unit loan: it succeeds exactly when every unit is dipinjam and comes
   * with a valid condition; then each unit takes its condition, the item's on-loan count is
   * recounted and drops by their number, no other field of the item changes, and the loan
   * records, per code, the status at loan time and the condition.
   */
  lemma ReturnApplied(s: State, id: Id, unitReturns: seq<UnitReturn>, now: Time)
    requires id in s.loans && HoldsUnits(s.loans[id]) && ValidLoan(s.loans[id])
    requires s.loans[id].barang in s.items && s.items[s.loans[id].barang].units.Some?
    ensures var l := s.loans[id]; var units := s.items[l.barang].units.value;
      var r := ReturnStep(s, id, unitReturns, now);
      && (r.0.Ok? <==> AllReturnable(units, l.unitKodes.value, unitReturns))
      && (r.0.Ok? ==> r.1.items[l.barang].units.Some?
                      && Returned(units, l.unitKodes.value, r.1.items[l.barang].units.value, unitReturns)
                      && r.0.value.unitStatus == ReturnRecords(l.unitKodes.value, unitReturns, l.unitStatus))
    ensures var l := s.loans[id]; var units := s.items[l.barang].units.value;
      var r := ReturnStep(s, id, unitReturns, now);
      r.0.Ok? ==> var b' := r.1.items[l.barang];
        && b'.units.Some? && b'.stokDipinjam == Some(CountStatus(b'.units.value, Dipinjam))
        && b' == s.items[l.barang].(units := b'.units, stokDipinjam := b'.stokDipinjam)
        && CountStatus(b'.units.value, Dipinjam) + |l.unitKodes.value| == CountStatus(units, Dipinjam)
  {
    var l := s.loans[id];
    var units := s.items[l.barang].units.value;
    var kodes := l.unitKodes.value;
    var r := ReturnStep(s, id, unitReturns, now);
    UnitKodesValidatorMeaning(kodes);
    ReturnUnitsOutcome(units, kodes, unitReturns, l.unitStatus, []);
    var res := ReturnUnits(units, kodes, unitReturns, l.unitStatus, []);
    if res.Ok? {
      var after := res.value.0;
      ReturnUnitsEffect(units, kodes, unitReturns, l.unitStatus, []);
      ReturnUnitsRecords(units, kodes, unitReturns, l.unitStatus, []);
      ReturnUnitsCount(units, kodes, unitReturns, l.unitStatus, []);
      assert [] + ReturnRecords(kodes, unitReturns, l.unitStatus) == ReturnRecords(kodes, unitReturns, l.unitStatus);
      assert r.1.items[l.barang] == Recalc(s.items[l.barang].(units := Some(after)));
    }
  }

  /**
   * Deleting a unit loan that still holds its units puts exactly those units back to tersedia,
   * recounts the item and changes no other field of it.
   */
  lemma DeleteRestores(s: State, id: Id)
    requires id in s.loans && HoldsUnits(s.loans[id]) && ValidLoan(s.loans[id])
    requires s.loans[id].barang in s.items && s.items[s.loans[id].barang].units.Some?
    ensures var l := s.loans[id]; var units := s.items[l.barang].units.value; var r := DeleteStep(s, id);
      && r.0.Ok? && r.1.items[l.barang].units.Some?
      && RelabelledTo(units, l.unitKodes.value, r.1.items[l.barang].units.value, Tersedia)
      && r.1.items[l.barang].stokDipinjam == Some(CountStatus(r.1.items[l.barang].units.value, Dipinjam))
      && r.1.items[l.barang] == s.items[l.barang].(units := r.1.items[l.barang].units,
                                                  stokDipinjam := r.1.items[l.barang].stokDipinjam)
  {
    var l := s.loans[id];
    UnitKodesValidatorMeaning(l.unitKodes.value);
    RestoreUnitsEffect(s.items[l.barang].units.value, l.unitKodes.value);
  }

  /**
   * Approving a unit loan and then deleting it leaves the item's units exactly as they were
   * before the approval, and the loan gone.
   */
  lemma ApproveThenDelete(s: State, id: Id, now: Time)
    requires id in s.loans && s.loans[id].status == Pending && !s.loans[id].isConsumable
    requires ValidLoan(s.loans[id]) && s.loans[id].barang in s.items && s.items[s.loans[id].barang].units.Some?
    requires s.loans[id].rentalStatus == Pinjam && ApproveStep(s, id, now).0.Ok?
    ensures var b := s.loans[id].barang; var s2 := DeleteStep(ApproveStep(s, id, now).1, id);
      && s2.0.Ok? && s2.1.loans == s.loans - {id} && s2.1.items.Keys == s.items.Keys
      && s2.1.items[b].units == s.items[b].units
      && s2.1.items[b].stokDipinjam == Some(CountStatus(s.items[b].units.value, Dipinjam))
  {
    var l := s.loans[id];
    var units := s.items[l.barang].units.value;
    var kodes := l.unitKodes.value;
    UnitKodesValidatorMeaning(kodes);
    var s1 := ApproveStep(s, id, now).1;
    assert BorrowUnits(units, kodes, []).Ok?;
    BorrowThenRestore(units, kodes, []);
    assert s1.loans[id].unitKodes == l.unitKodes;
    assert HoldsUnits(s1.loans[id]);
    assert s1.items[l.barang].units == Some(BorrowUnits(units, kodes, []).value.0);
    assert s1.loans - {id} == s.loans - {id};
  }

  // ---------------------------------------------------------------------
  // Every handler keeps the store within its schemas
  // ---------------------------------------------------------------------

  /** Changing unit statuses and recounting keeps an item valid: the validators look only at the codes. */
  lemma RelabelKeepsValid(b: Barang, after: seq<Unit>)
    requires ValidBarang(b) && b.units.Some? && SameKodes(after, b.units.value)
    ensures ValidBarang(Recalc(b.(units := Some(after))))
  {
    SameKodesKodes(after, b.units.value);
    forall u | u in after ensures ValidUnit(u) {
      var i :| 0 <= i < |after| && after[i] == u;
      assert b.units.value[i] in b.units.value;
    }
  }

  lemma CreateKeepsValid(s: State, req: LoanRequest, newId: Id, now: Time)
    requires ValidState(s)
    ensures ValidState(CreateStep(s, req, newId, now).1)
  {
  }

  lemma RejectKeepsValid(s: State, id: Id)
    requires ValidState(s)
    ensures ValidState(RejectStep(s, id).1)
  {
  }

  lemma ApproveKeepsValid(s: State, id: Id, now: Time)
    requires ValidState(s)
    ensures ValidState(ApproveStep(s, id, now).1)
  {
    var r := ApproveStep(s, id, now);
    if r.0.Ok? {
      var l := s.loans[id];
      var b := s.items[l.barang];
      if !l.isConsumable {
        UnitKodesValidatorMeaning(l.unitKodes.value);
        BorrowUnitsEffect(b.units.value, l.unitKodes.value, []);
        RelabelKeepsValid(b, BorrowUnits(b.units.value, l.unitKodes.value, []).value.0);
      }
      assert ValidBarang(r.1.items[l.barang]);
      assert ValidLoan(r.1.loans[id]);
    }
  }

  lemma ReturnKeepsValid(s: State, id: Id, unitReturns: seq<UnitReturn>, now: Time)
    requires ValidState(s)
    ensures ValidState(ReturnStep(s, id, unitReturns, now).1)
  {
    var r := ReturnStep(s, id, unitReturns, now);
    if r.0.Ok? {
      var l := s.loans[id];
      var b := s.items[l.barang];
      UnitKodesValidatorMeaning(l.unitKodes.value);
      ReturnUnitsEffect(b.units.value, l.unitKodes.value, unitReturns, l.unitStatus, []);
      RelabelKeepsValid(b, ReturnUnits(b.units.value, l.unitKodes.value, unitReturns, l.unitStatus, []).value.0);
      assert ValidBarang(r.1.items[l.barang]);
      assert ValidLoan(r.1.loans[id]);
    }
  }

  lemma DeleteKeepsValid(s: State, id: Id)
    requires ValidState(s)
    ensures ValidState(DeleteStep(s, id).1)
  {
    var r := DeleteStep(s, id);
    if r.0.Ok? {
      var l := s.loans[id];
      if HoldsUnits(l) && l.barang in s.items {
        var b := s.items[l.barang];
        UnitKodesValidatorMeaning(l.unitKodes.value);
        RestoreUnitsEffect(b.units.value, l.unitKodes.value);
        RelabelKeepsValid(b, RestoreUnits(b.units.value, l.unitKodes.value));
        assert ValidBarang(r.1.items[l.barang]);
      }
    }
  }
}
