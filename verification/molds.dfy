/** The molds page (molds.php): adding a mold, assigning a part to one of its cavities,
    the per-mold count of assigned cavities, and the page's "Quick Calc" line. */
module MoldsPage {
  import opened Base
  import opened Numeric
  import opened Schema
  import opened Catalog
  import opened Auth
  import opened Input
  import opened Production

  predicate MoldNumberTaken(ms: seq<Mold>, number: string) {
    exists i :: 0 <= i < |ms| && ms[i].number == number
  }

  /** A required integer field, as validated, that passes PHP's truthiness test. */
  predicate GivenWhole(v: Validated) {
    v.Whole? && v.whole != 0
  }

  /** A required decimal field, as validated, that passes PHP's truthiness test. */
  predicate GivenDecimal(v: Validated) {
    v.Decimal? && v.decimal != 0.0
  }

  /** An integer field is given exactly when the posted text is not blank and parses to a
      nonzero integer. */
  lemma GivenWholeIff(s: string)
    ensures GivenWhole(Validate(s, true, IntField)) <==> !IsBlank(s) && ParseInt(s).Some? && ParseInt(s).value != 0
    ensures Truthy(Validate(s, true, IntField)) <==> GivenWhole(Validate(s, true, IntField))
  {
  }

  /** A decimal field is given exactly when the posted text is not blank and parses to a
      nonzero number. */
  lemma GivenDecimalIff(s: string)
    ensures GivenDecimal(Validate(s, true, FloatField)) <==> !IsBlank(s) && ParseDecimal(s).Some? && ParseDecimal(s).value != 0.0
    ensures Truthy(Validate(s, true, FloatField)) <==> GivenDecimal(Validate(s, true, FloatField))
  {
  }

  /** `add_mold`, past the page's `view_molds` check and the action's `manage_molds`. The numeric fields arrive as `validateAndSanitizeInput(..., true, 'int')`
      and `(..., true, 'float')` return them; the number, unit and notes as posted. The
      number, cavity count and shot size must be truthy ("Please fill in all required
      fields" otherwise). A repeated mold number is refused by its UNIQUE key. */
  function AddMold(db: Db, a: Actor, moldNumber: string, totalCavities: Validated, shotSize: Validated,
                   unit: string, notes: string): (r: (Db, Outcome))
    ensures !HasPermission(a, "view_molds") ==> r == (db, Denied)
    ensures !HasPermission(a, "manage_molds") ==> r == (db, Denied)
    ensures r.1 == Denied <==> !MayPost(a, "view_molds", "manage_molds")
    ensures r.1 == Denied || r.1 == Incomplete || r.1 == Duplicate || r.1 == Done
    ensures r.1 == Incomplete <==>
      MayPost(a, "view_molds", "manage_molds") && !(!IsBlank(moldNumber) && GivenWhole(totalCavities) && GivenDecimal(shotSize))
    ensures r.1 == Duplicate <==>
      MayPost(a, "view_molds", "manage_molds") && !IsBlank(moldNumber) && GivenWhole(totalCavities) && GivenDecimal(shotSize)
      && MoldNumberTaken(db.molds, moldNumber)
    ensures r.1 != Done ==> r.0 == db
    ensures r.1 == Done ==>
      && |r.0.molds| == |db.molds| + 1
      && r.0.molds[..|db.molds|] == db.molds
      && var m := r.0.molds[|db.molds|];
      && !HasMold(db, m.id) && m.id >= 1
      && m == Mold(m.id, moldNumber, totalCavities.whole, Store(Decimal4, shotSize.decimal), unit, notes)
      && r.0 == db.(molds := r.0.molds)
  {
    if !MayPost(a, "view_molds", "manage_molds") then (db, Denied)
    else if !(!IsBlank(moldNumber) && GivenWhole(totalCavities) && GivenDecimal(shotSize)) then (db, Incomplete)
    else if MoldNumberTaken(db.molds, moldNumber) then (db, Duplicate)
    else
      var m := Mold(NextId(db.molds, (x: Mold) => x.id), moldNumber, totalCavities.whole, Store(Decimal4, shotSize.decimal), unit, notes);
      (db.(molds := db.molds + [m]), Done)
  }

  /** Adding a mold keeps every constraint of the schema. */
  lemma AddMoldWellFormed(db: Db, a: Actor, moldNumber: string, totalCavities: Validated, shotSize: Validated,
                          unit: string, notes: string)
    requires WellFormed(db)
    ensures WellFormed(AddMold(db, a, moldNumber, totalCavities, shotSize, unit, notes).0)
  {
    if AddMold(db, a, moldNumber, totalCavities, shotSize, unit, notes).1 == Done {
      var m := Mold(NextId(db.molds, (x: Mold) => x.id), moldNumber, totalCavities.whole, Store(Decimal4, shotSize.decimal), unit, notes);
      assert AddMold(db, a, moldNumber, totalCavities, shotSize, unit, notes).0 == db.(molds := db.molds + [m]);
      AppendMoldWellFormed(db, m);
    }
  }

  /** A new mold with a fresh id and an unused number keeps the store well-formed. */
  lemma AppendMoldWellFormed(db: Db, m: Mold)
    requires WellFormed(db) && m.id >= 1
    requires forall i :: 0 <= i < |db.molds| ==> db.molds[i].id != m.id && db.molds[i].number != m.number
    ensures WellFormed(db.(molds := db.molds + [m]))
  {
    var r := db.(molds := db.molds + [m]);
    AppendMoldOk(db.molds, m);
    forall key | key in r.cavities
      ensures HasMold(r, key.0) && HasItem(r, PartKind, r.cavities[key].partId)
    {
      var i :| 0 <= i < |db.molds| && db.molds[i].id == key.0;
      assert r.molds[i] == db.molds[i];
    }
    assert forall k :: Table(r, k) == Table(db, k);
    SameTablesWellFormed(db, r);
  }

  lemma AppendMoldOk(ms: seq<Mold>, m: Mold)
    requires MoldsOk(ms) && m.id >= 1
    requires forall i :: 0 <= i < |ms| ==> ms[i].id != m.id && ms[i].number != m.number
    ensures MoldsOk(ms + [m])
  {
  }

  /** The same mold number cannot be added twice. */
  lemma AddMoldTwice(db: Db, a: Actor, moldNumber: string, totalCavities: Validated, shotSize: Validated,
                     unit: string, notes: string)
    requires AddMold(db, a, moldNumber, totalCavities, shotSize, unit, notes).1 == Done
    ensures AddMold(AddMold(db, a, moldNumber, totalCavities, shotSize, unit, notes).0, a, moldNumber, totalCavities, shotSize, unit, notes).1 == Duplicate
  {
    var r := AddMold(db, a, moldNumber, totalCavities, shotSize, unit, notes).0;
    assert r.molds[|db.molds|].number == moldNumber;
  }

  /** The guard tests the posted shot size, not the stored one: a nonzero size below half
      the column's last digit passes, is stored as 0, and every later production figure
      for the mold divides by zero. */
  lemma TinyShotStoredAsZero(db: Db, a: Actor, moldNumber: string, totalCavities: Validated, shotSize: Validated,
                             unit: string, notes: string)
    requires MayPost(a, "view_molds", "manage_molds") && !IsBlank(moldNumber) && GivenWhole(totalCavities)
    requires !MoldNumberTaken(db.molds, moldNumber)
    requires GivenDecimal(shotSize) && -0.00005 < shotSize.decimal < 0.00005
    ensures var r := AddMold(db, a, moldNumber, totalCavities, shotSize, unit, notes);
      && r.1 == Done
      && r.0.molds[|db.molds|].shotSize == 0.0
      && MaxParts(r.0.molds, r.0.molds[|db.molds|].id, 100.0) == DivisionByZero
  {
    SubScaleStoredAsZero(shotSize.decimal);
    var r := AddMold(db, a, moldNumber, totalCavities, shotSize, unit, notes).0;
    var m := r.molds[|db.molds|];
    assert m.shotSize == 0.0;
    assert FindMold(r.molds, m.id) == Some(m) by {
      assert r.molds == db.molds + [m];
      FindMoldLast(db.molds, m);
    }
  }

  /** A DECIMAL(8,4) column stores anything strictly within half its last digit of zero
      as zero. */
  lemma SubScaleStoredAsZero(x: real)
    requires -0.00005 < x < 0.00005
    ensures Store(Decimal4, x) == 0.0
  {
    if x >= 0.0 {
      FloorUnique(x * 10000.0 + 0.5, 0);
    } else {
      FloorUnique(-x * 10000.0 + 0.5, 0);
    }
  }

  /** Such a size is what a posted `0.0000d` validates to: a zero whole part and a
      fraction below 0.00005 pass the required float check as a nonzero number. */
  lemma SubScaleShotPasses(w: string, f: string)
    requires AllDigits(w) && AllDigits(f) && |w| > 0 && DigitsValue(w) == 0
    requires 0.0 < FractionValue(f) < 0.00005
    ensures GivenDecimal(Validate(w + "." + f, true, FloatField))
    ensures Validate(w + "." + f, true, FloatField).decimal == FractionValue(f)
  {
    ParseDecimalPlain(w, f);
    PlainNotBlank(w, f);
  }

  /** "0.00001" is one: its fraction "00001" is worth 0.00001. */
  lemma TinyFraction()
    ensures AllDigits("0") && DigitsValue("0") == 0
    ensures AllDigits("00001") && FractionValue("00001") == 0.00001
  {
    assert "0"[..0] == "";
    assert "00001"[1..] == "0001" && "0001"[1..] == "001" && "001"[1..] == "01" && "01"[1..] == "1" && "1"[1..] == "";
  }

  /** A mold whose id no earlier mold has is found as itself when appended. */
  lemma {:induction false} FindMoldLast(ms: seq<Mold>, m: Mold)
    requires forall i :: 0 <= i < |ms| ==> ms[i].id != m.id
    ensures FindMold(ms + [m], m.id) == Some(m)
  {
    if |ms| > 0 {
      assert (ms + [m])[1..] == ms[1..] + [m];
      FindMoldLast(ms[1..], m);
    }
  }

  // ---------------------------------------------------------------------------
  // Cavity assignment

  /** `assign_cavity`, past `view_molds` and `manage_molds`: the four fields arrive as `validateAndSanitizeInput(..., true, 'int')`
      returns them and must all be nonzero integers, or nothing happens. The row keyed by
      (mold, cavity number) is inserted or overwritten; a missing mold or part fails its
      foreign key and shows the generic error. */
  function AssignCavity(db: Db, a: Actor, moldId: Validated, cavityNumber: Validated, partId: Validated,
                        partsPerShot: Validated): (r: (Db, Outcome))
    ensures !HasPermission(a, "view_molds") ==> r == (db, Denied)
    ensures !HasPermission(a, "manage_molds") ==> r == (db, Denied)
    ensures r.1 == Denied <==> !MayPost(a, "view_molds", "manage_molds")
    ensures r.1 == Denied || r.1 == Ignored || r.1 == Failed || r.1 == Done
    ensures r.1 == Ignored <==>
      MayPost(a, "view_molds", "manage_molds")
      && !(GivenWhole(moldId) && GivenWhole(cavityNumber) && GivenWhole(partId) && GivenWhole(partsPerShot))
    ensures r.1 == Failed <==>
      MayPost(a, "view_molds", "manage_molds")
      && GivenWhole(moldId) && GivenWhole(cavityNumber) && GivenWhole(partId) && GivenWhole(partsPerShot)
      && !(HasMold(db, moldId.whole) && HasItem(db, PartKind, partId.whole))
    ensures r.1 != Done ==> r.0 == db
    ensures r.1 == Done ==>
      var key := (moldId.whole, cavityNumber.whole);
      && moldId.whole >= 0
      && key in r.0.cavities
      && r.0.cavities[key] == Cavity(partId.whole, partsPerShot.whole)
      && (forall k :: k in r.0.cavities <==> k in db.cavities || k == key)
      && (forall k :: k in db.cavities && k != key ==> r.0.cavities[k] == db.cavities[k])
      && r.0 == db.(cavities := r.0.cavities)
  {
    if !MayPost(a, "view_molds", "manage_molds") then (db, Denied)
    else if !(GivenWhole(moldId) && GivenWhole(cavityNumber) && GivenWhole(partId) && GivenWhole(partsPerShot)) then (db, Ignored)
    else if !(HasMold(db, moldId.whole) && HasItem(db, PartKind, partId.whole)) then (db, Failed)
    else
      MoldIdNat(db, moldId.whole);
      PartIdNat(db, partId.whole);
      (db.(cavities := db.cavities[(moldId.whole, cavityNumber.whole) := Cavity(partId.whole, partsPerShot.whole)]), Done)
  }

  lemma MoldIdNat(db: Db, id: int)
    requires HasMold(db, id)
    ensures id >= 0
  {
    var i :| 0 <= i < |db.molds| && db.molds[i].id == id;
  }

  lemma PartIdNat(db: Db, id: int)
    requires HasItem(db, PartKind, id)
    ensures id >= 0
  {
    var i :| 0 <= i < |Table(db, PartKind)| && Table(db, PartKind)[i].id == id;
  }

  /** Assigning a cavity keeps every constraint of the schema. */
  lemma AssignCavityWellFormed(db: Db, a: Actor, moldId: Validated, cavityNumber: Validated, partId: Validated,
                               partsPerShot: Validated)
    requires WellFormed(db)
    ensures WellFormed(AssignCavity(db, a, moldId, cavityNumber, partId, partsPerShot).0)
  {
    var (r, o) := AssignCavity(db, a, moldId, cavityNumber, partId, partsPerShot);
    if o == Done {
      var key := (moldId.whole, cavityNumber.whole);
      assert r == db.(cavities := db.cavities[key := Cavity(partId.whole, partsPerShot.whole)]);
      assert forall k :: Table(r, k) == Table(db, k);
      assert CavitiesOk(r) by {
        forall c | c in r.cavities
          ensures HasMold(r, c.0) && HasItem(r, PartKind, r.cavities[c].partId)
        {
          if c != key {
            assert c in db.cavities;
          }
        }
      }
      SameTablesWellFormed(db, r);
    }
  }

  /** The cavity rows of a mold. */
  function CavitiesOf(cavities: map<CavityKey, Cavity>, moldId: int): set<CavityKey> {
    set key | key in cavities && key.0 == moldId
  }

  /** `COUNT(mc.cavity_id) AS assigned_cavities` for one mold. */
  function AssignedCavities(db: Db, moldId: int): nat {
    |CavitiesOf(db.cavities, moldId)|
  }

  /** An assignment adds one to its mold's count when the cavity was free, leaves it when
      it only reassigns the cavity, and leaves every other mold's count alone. */
  lemma AssignCavityCount(db: Db, a: Actor, moldId: Validated, cavityNumber: Validated, partId: Validated,
                          partsPerShot: Validated, other: int)
    requires AssignCavity(db, a, moldId, cavityNumber, partId, partsPerShot).1 == Done
    ensures var r := AssignCavity(db, a, moldId, cavityNumber, partId, partsPerShot).0;
      var m := moldId.whole;
      var key := (m, cavityNumber.whole);
      AssignedCavities(r, other) == AssignedCavities(db, other) + (if other == m && key !in db.cavities then 1 else 0)
  {
    var r := AssignCavity(db, a, moldId, cavityNumber, partId, partsPerShot).0;
    var m := moldId.whole;
    var key: CavityKey := (m, cavityNumber.whole);
    var before := CavitiesOf(db.cavities, other);
    var after := CavitiesOf(r.cavities, other);
    if other == m {
      assert after == before + {key};
      if key !in db.cavities {
        assert key !in before;
      } else {
        assert after == before;
      }
    } else {
      assert after == before;
    }
  }

  /** Nothing ties the assignments to the mold's declared cavity count: a one-cavity mold
      can hold two assigned cavities. */
  lemma OverAssigned(db: Db, a: Actor, part: Id)
    requires MayPost(a, "view_molds", "manage_molds") && part >= 1
    requires db.molds == [Mold(1, "M-1", 1, 2.5, "lbs", "")] && db.cavities == map[]
    requires HasItem(db, PartKind, part)
    ensures var r1 := AssignCavity(db, a, Whole(1), Whole(1), Whole(part), Whole(1));
      var r2 := AssignCavity(r1.0, a, Whole(1), Whole(2), Whole(part), Whole(1));
      && r2.1 == Done
      && AssignedCavities(r2.0, 1) == 2 > db.molds[0].totalCavities
  {
    assert db.molds[0].id == 1;
    assert HasMold(db, 1);
    var r1 := AssignCavity(db, a, Whole(1), Whole(1), Whole(part), Whole(1));
    AssignCavityCount(db, a, Whole(1), Whole(1), Whole(part), Whole(1), 1);
    assert HasMold(r1.0, 1);
    AssignCavityCount(r1.0, a, Whole(1), Whole(2), Whole(part), Whole(1), 1);
  }

  // ---------------------------------------------------------------------------
  // The card's Quick Calc line

  /** floor(100 / shot size) * total cavities: the parts 100 units of material make, for
      a shot size of either sign. */
  function QuickCalc(m: Mold): (r: Calc)
    ensures r == DivisionByZero <==> m.shotSize == 0.0
    ensures m.shotSize != 0.0 ==> r == Value((ShotsFrom(m.shotSize, 100.0) * m.totalCavities) as real)
  {
    if m.shotSize == 0.0 then DivisionByZero
    else Value((Floor(100.0 / m.shotSize) * m.totalCavities) as real)
  }

  /** The card's figure is `calculateMaxParts` for 100 units of material. */
  lemma QuickCalcIsMaxParts(ms: seq<Mold>, m: Mold)
    requires m in ms && MoldsOk(ms)
    ensures QuickCalc(m) == MaxParts(ms, m.id, 100.0)
  {
    FindMoldUnique(ms, m);
  }

  lemma {:induction false} FindMoldUnique(ms: seq<Mold>, m: Mold)
    requires m in ms && MoldsOk(ms)
    ensures FindMold(ms, m.id) == Some(m)
  {
    if ms[0] != m {
      assert MoldsOk(ms[1..]) by {
        forall i, j | 0 <= i < j < |ms[1..]|
          ensures ms[1..][i].id != ms[1..][j].id && ms[1..][i].number != ms[1..][j].number
        {
          assert ms[i + 1].id != ms[j + 1].id;
        }
      }
      var k :| 0 <= k < |ms| && ms[k] == m;
      assert ms[0].id != m.id;
      assert m in ms[1..] by {
        assert ms[1..][k - 1] == m;
      }
      FindMoldUnique(ms[1..], m);
    }
  }
}
