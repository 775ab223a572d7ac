/** Production arithmetic: the mold-level calculators `calculateMaxParts` and
    `calculateMaterialNeeded` (includes/functions.php:45-67), their client-side copy
    `calculateProduction` (js/app.js:534-553), and the BOM page's shots-and-materials
    estimate `calculateMaterials` (bom.php:740-771). PHP 8 raises DivisionByZeroError on
    a zero divisor; JavaScript yields Infinity. */
module Production {
  import opened Base
  import opened Numeric
  import opened Schema

  /** A calculator's result, or the division by zero PHP raises. */
  datatype Calc = Value(v: real) | DivisionByZero

  /** The mold row with that id, if any (`SELECT ... FROM molds WHERE mold_id = ?`). */
  function FindMold(ms: seq<Mold>, id: int): (r: Option<Mold>)
    ensures r.Some? ==> r.value in ms && r.value.id == id
    ensures r.None? ==> forall i :: 0 <= i < |ms| ==> ms[i].id != id
  {
    if |ms| == 0 then None else if ms[0].id == id then Some(ms[0]) else FindMold(ms[1..], id)
  }

  // ---------------------------------------------------------------------------
  // The two formulas

  /** floor(available / shot): for a positive shot, the largest whole number of shots the
      material covers; for a negative one (the page accepts it), the least n with
      n * shot at least the material. */
  function ShotsFrom(shot: real, available: real): (n: int)
    requires shot != 0.0
    ensures shot > 0.0 ==> n as real * shot <= available < (n as real + 1.0) * shot
    ensures shot < 0.0 ==> (n as real + 1.0) * shot < available <= n as real * shot
  {
    FloorDivBounds(available, shot);
    Floor(available / shot)
  }

  /** ceil(target / cavities): for a positive count, the least whole number of shots whose
      cavities cover the target; for a negative one, the greatest n with n * cavities at
      most the target. */
  function ShotsFor(cavities: int, target: real): (n: int)
    requires cavities != 0
    ensures cavities > 0 ==> n as real * cavities as real >= target && (n as real - 1.0) * cavities as real < target
    ensures cavities < 0 ==> n as real * cavities as real <= target && (n as real - 1.0) * cavities as real > target
  {
    CeilDivBounds(target, cavities as real);
    Ceil(target / cavities as real)
  }

  /** `calculateMaxParts($mold_id, $available)`: 0 for an unknown mold. */
  function MaxParts(ms: seq<Mold>, moldId: int, available: real): (r: Calc)
    ensures FindMold(ms, moldId).None? ==> r == Value(0.0)
    ensures r == DivisionByZero <==> FindMold(ms, moldId).Some? && FindMold(ms, moldId).value.shotSize == 0.0
    ensures FindMold(ms, moldId).Some? && FindMold(ms, moldId).value.shotSize != 0.0 ==>
      var m := FindMold(ms, moldId).value;
      r == Value((ShotsFrom(m.shotSize, available) * m.totalCavities) as real)
  {
    match FindMold(ms, moldId)
    case None => Value(0.0)
    case Some(m) =>
      if m.shotSize == 0.0 then DivisionByZero
      else Value((Floor(available / m.shotSize) * m.totalCavities) as real)
  }

  /** `calculateMaterialNeeded($mold_id, $target)`: 0 for an unknown mold. */
  function MaterialNeeded(ms: seq<Mold>, moldId: int, target: real): (r: Calc)
    ensures FindMold(ms, moldId).None? ==> r == Value(0.0)
    ensures r == DivisionByZero <==> FindMold(ms, moldId).Some? && FindMold(ms, moldId).value.totalCavities == 0
    ensures FindMold(ms, moldId).Some? && FindMold(ms, moldId).value.totalCavities != 0 ==>
      var m := FindMold(ms, moldId).value;
      r == Value(ShotsFor(m.totalCavities, target) as real * m.shotSize)
  {
    match FindMold(ms, moldId)
    case None => Value(0.0)
    case Some(m) =>
      if m.totalCavities == 0 then DivisionByZero
      else Value(Ceil(target / m.totalCavities as real) as real * m.shotSize)
  }

  // ---------------------------------------------------------------------------
  // The formulas are adjoint: a target needs no more material than is available exactly
  // when it is at most the maximum producible parts.

  /** Whole shots fit in the material exactly when they are at most the shots it covers. */
  lemma ShotsFit(n: int, shot: real, available: real)
    requires shot > 0.0
    ensures n as real * shot <= available <==> n <= ShotsFrom(shot, available)
  {
    var m := ShotsFrom(shot, available);
    if n <= m {
      MulMono(n as real, m as real, shot);
    } else {
      MulMono((m + 1) as real, n as real, shot);
    }
  }

  /** Whole shots cover the target exactly when they are at least the shots it needs. */
  lemma ShotsCover(n: int, cavities: int, target: real)
    requires cavities > 0
    ensures target <= n as real * cavities as real <==> ShotsFor(cavities, target) <= n
  {
    var m := ShotsFor(cavities, target);
    var c := cavities as real;
    if m <= n {
      assert m as real * c >= target;
      MulMono(m as real, n as real, c);
    } else {
      assert (m - 1) as real * c < target;
      MulMono(n as real, (m - 1) as real, c);
      assert n as real * c < target;
    }
  }

  /** The formulas are adjoint: the material a target needs is within what is available
      exactly when the target is at most the maximum producible parts. */
  lemma MaterialWithinAvailable(cavities: int, shot: real, available: real, target: real)
    requires cavities > 0 && shot > 0.0
    ensures ShotsFor(cavities, target) as real * shot <= available
        <==> target <= (ShotsFrom(shot, available) * cavities) as real
  {
    var k := ShotsFor(cavities, target);
    var kk := ShotsFrom(shot, available);
    ShotsFit(k, shot, available);
    ShotsCover(kk, cavities, target);
    assert (kk * cavities) as real == kk as real * cavities as real;
  }

  /** The material needed for the maximum producible parts never exceeds the material
      available. */
  lemma MaterialForMaxParts(ms: seq<Mold>, moldId: int, available: real)
    requires FindMold(ms, moldId).Some?
    requires FindMold(ms, moldId).value.totalCavities > 0 && FindMold(ms, moldId).value.shotSize > 0.0
    ensures MaxParts(ms, moldId, available).Value?
    ensures MaterialNeeded(ms, moldId, MaxParts(ms, moldId, available).v).Value?
    ensures MaterialNeeded(ms, moldId, MaxParts(ms, moldId, available).v).v <= available
  {
    var m := FindMold(ms, moldId).value;
    var p := ShotsFrom(m.shotSize, available) * m.totalCavities;
    MaterialWithinAvailable(m.totalCavities, m.shotSize, available, p as real);
  }

  // ---------------------------------------------------------------------------
  // The client-side calculator

  /** What `calculateProduction` returns. */
  datatype Production = Production(shotsNeeded: int, materialNeeded: real, maxParts: int, canProduce: bool)

  /** `calculateProduction`, with its hard-coded mold: 4 cavities and a 2.5 shot. */
  function CalculateProduction(target: real, available: real): (r: Production)
    ensures r.shotsNeeded as real * 4.0 >= target && (r.shotsNeeded - 1) as real * 4.0 < target
    ensures r.materialNeeded == r.shotsNeeded as real * 2.5
    ensures r.canProduce <==> r.materialNeeded <= available
  {
    var shots := Ceil(target / 4.0);
    var maxParts := Floor(available / 2.5) * 4;
    Production(shots, shots as real * 2.5, maxParts, shots as real * 2.5 <= available)
  }

  /** For a mold with 4 cavities and a 2.5 shot the client's figures are the server's, and
      the client can produce the target exactly when it is at most the maximum parts. */
  lemma ClientMatchesServer(ms: seq<Mold>, moldId: int, target: real, available: real)
    requires FindMold(ms, moldId).Some?
    requires FindMold(ms, moldId).value.totalCavities == 4 && FindMold(ms, moldId).value.shotSize == 2.5
    ensures MaterialNeeded(ms, moldId, target) == Value(CalculateProduction(target, available).materialNeeded)
    ensures MaxParts(ms, moldId, available) == Value(CalculateProduction(target, available).maxParts as real)
    ensures CalculateProduction(target, available).canProduce <==> target <= CalculateProduction(target, available).maxParts as real
  {
    MaterialWithinAvailable(4, 2.5, available, target);
  }

  // ---------------------------------------------------------------------------
  // The BOM page's estimate

  function Sum(s: seq<int>): int {
    if |s| == 0 then 0 else s[0] + Sum(s[1..])
  }

  /** One line of material requirements. The need is shown with `toFixed(4)` and compared
      with the stock in that rounded form. */
  datatype Requirement = Requirement(need: real, available: real, sufficient: bool, shortage: Option<real>)

  /** Shots are None when the parts per shot sum to 0 (JavaScript shows Infinity). */
  datatype Estimate = Estimate(shots: Option<int>, lines: seq<Requirement>)

  function Requirement4(quantity: real, stock: real, target: int): (r: Requirement)
    ensures r.need == Store(Decimal4, quantity * target as real)
    ensures r.sufficient <==> stock >= r.need
    ensures r.shortage.Some? <==> !r.sufficient
    ensures r.shortage.Some? ==> r.shortage.value == r.need - stock && r.shortage.value > 0.0
  {
    var need := Store(Decimal4, quantity * target as real);
    Requirement(need, stock, stock >= need, if stock >= need then None else Some(need - stock))
  }

  /** `calculateMaterials()`: a target of 0 or less shows nothing; otherwise the shots are
      ceil(target / parts per shot summed over every cavity of the part), and each material
      needs quantity per part times the target parts (not times the shots). Materials are
      (quantity_per_part, current_stock) rows. */
  function CalculateMaterials(target: int, partsPerShot: seq<int>, materials: seq<(real, real)>): (r: Option<Estimate>)
    ensures r.None? <==> target <= 0
    ensures r.Some? ==> |r.value.lines| == |materials|
    ensures r.Some? ==> (r.value.shots.None? <==> Sum(partsPerShot) == 0)
    ensures r.Some? && Sum(partsPerShot) > 0 ==>
      var n := r.value.shots.value; var p := Sum(partsPerShot);
      n * p >= target && (n - 1) * p < target
    ensures r.Some? && Sum(partsPerShot) < 0 ==>
      var n := r.value.shots.value; var p := Sum(partsPerShot);
      n * p <= target && (n - 1) * p > target
    ensures r.Some? ==> forall i :: 0 <= i < |materials| ==>
      r.value.lines[i] == Requirement4(materials[i].0, materials[i].1, target)
  {
    if target <= 0 then None
    else
      var p := Sum(partsPerShot);
      var lines := seq(|materials|, i requires 0 <= i < |materials| => Requirement4(materials[i].0, materials[i].1, target));
      if p == 0 then Some(Estimate(None, lines))
      else
        CeilDivBounds(target as real, p as real);
        Some(Estimate(Some(Ceil(target as real / p as real)), lines))
  }

  /** The rounding to four places is exact: a quantity stored at DECIMAL(10,4) times a whole
      target already has at most four places, so the comparison is with the true need. */
  lemma NeedIsExact(quantity: real, target: int)
    requires Store(Decimal4, quantity) == quantity
    ensures Store(Decimal4, quantity * target as real) == quantity * target as real
  {
    var n := RoundHalfAway(quantity * 10000.0);
    assert quantity * 10000.0 == n as real;
    var x := quantity * target as real;
    var m := n * target;
    assert x * 10000.0 == m as real by {
      assert x * 10000.0 == (quantity * 10000.0) * target as real;
    }
    RoundHalfAwayWhole(m as real);
    assert Store(Decimal4, x) == m as real / 10000.0;
  }

  /** The sum of a part's `parts_per_shot` over every cavity row, taken in no particular order. */
  ghost function CavitySum(m: map<CavityKey, Cavity>, part: Id): int
    decreases |m.Keys|
  {
    if m == map[] then 0
    else
      var k :| k in m;
      (if m[k].partId == part then m[k].partsPerShot else 0) + CavitySum(m - {k}, part)
  }

  /** The sum does not depend on which cavity is taken first. */
  lemma {:induction false} CavitySumAny(m: map<CavityKey, Cavity>, part: Id, k: CavityKey)
    requires k in m
    ensures CavitySum(m, part) == (if m[k].partId == part then m[k].partsPerShot else 0) + CavitySum(m - {k}, part)
    decreases |m.Keys|
  {
    var k' :| k' in m && CavitySum(m, part) == (if m[k'].partId == part then m[k'].partsPerShot else 0) + CavitySum(m - {k'}, part);
    if k' != k {
      assert (m - {k'}) - {k} == (m - {k}) - {k'};
      assert |(m - {k}).Keys| < |m.Keys| by {
        assert (m - {k}).Keys < m.Keys;
      }
      CavitySumAny(m - {k'}, part, k);
      CavitySumAny(m - {k}, part, k');
    }
  }

  function Contribution(c: Cavity, part: Id): int {
    if c.partId == part then c.partsPerShot else 0
  }

  /** `moldData.reduce(...)`: the parts per shot of every cavity assigned to the part. */
  method PartsPerShot(cavities: map<CavityKey, Cavity>, part: Id) returns (total: int)
    ensures total == CavitySum(cavities, part)
  {
    total := 0;
    var rest := cavities;
    while rest != map[]
      invariant total + CavitySum(rest, part) == CavitySum(cavities, part)
      decreases |rest.Keys|
    {
      var k :| k in rest;
      CavitySumAny(rest, part, k);
      total := total + Contribution(rest[k], part);
      assert (rest - {k}).Keys < rest.Keys;
      rest := rest - {k};
    }
  }

  /** The rows of the page's mold query (bom.php:340-348) as cavity keys: every cavity row
      assigned to the part exactly once, in any order. The foreign key on `mold_id` means
      the JOIN with `molds` drops none of them. */
  ghost predicate MoldQueryRows(m: map<CavityKey, Cavity>, part: Id, rows: seq<CavityKey>) {
    && (forall i, j :: 0 <= i < j < |rows| ==> rows[i] != rows[j])
    && (forall k :: k in rows <==> k in m && m[k].partId == part)
  }

  /** The `parts_per_shot` column of those rows, as `moldData` carries it to the script. */
  function PartsColumn(m: map<CavityKey, Cavity>, rows: seq<CavityKey>): (c: seq<int>)
    requires forall i :: 0 <= i < |rows| ==> rows[i] in m
    ensures |c| == |rows| && forall i :: 0 <= i < |rows| ==> c[i] == m[rows[i]].partsPerShot
  {
    seq(|rows|, i requires 0 <= i < |rows| => m[rows[i]].partsPerShot)
  }

  /** A part with no cavity rows has a parts-per-shot sum of 0. */
  lemma {:induction false} NoCavityZero(m: map<CavityKey, Cavity>, part: Id)
    requires forall k :: k in m ==> m[k].partId != part
    ensures CavitySum(m, part) == 0
    decreases |m.Keys|
  {
    if m != map[] {
      var k :| k in m;
      CavitySumAny(m, part, k);
      assert (m - {k}).Keys < m.Keys;
      NoCavityZero(m - {k}, part);
    }
  }

  /** What `calculateMaterials` sums, the query's `parts_per_shot` column, is the part's
      cavity sum: the `partsPerShot` it is given is `CavitySum(db.cavities, part)`. */
  lemma {:induction false} QuerySumIsCavitySum(m: map<CavityKey, Cavity>, part: Id, rows: seq<CavityKey>)
    requires MoldQueryRows(m, part, rows)
    ensures Sum(PartsColumn(m, rows)) == CavitySum(m, part)
    decreases |rows|
  {
    if |rows| == 0 {
      NoCavityZero(m, part);
    } else {
      var k := rows[0];
      assert k in rows;
      CavitySumAny(m, part, k);
      var m' := m - {k};
      var rest := rows[1..];
      assert MoldQueryRows(m', part, rest) by {
        forall i, j | 0 <= i < j < |rest|
          ensures rest[i] != rest[j]
        {
          assert rest[i] == rows[i + 1] && rest[j] == rows[j + 1];
        }
        forall k' | k' in rest
          ensures k' != k
        {
          var i :| 0 <= i < |rest| && rest[i] == k';
          assert rows[i + 1] == k';
        }
        assert forall k' :: k' in rows <==> k' == k || k' in rest;
      }
      QuerySumIsCavitySum(m', part, rest);
      assert PartsColumn(m, rows)[1..] == PartsColumn(m', rest);
    }
  }

  /** A part with one material edge of 2.5 per part and four cavities of one part per shot:
      100 parts take 25 shots and need 2.5 * 100 = 250 of the material (quantity times
      parts, not times shots). */
  lemma EstimateExample(stock: real)
    ensures CalculateMaterials(100, [1, 1, 1, 1], [(2.5, stock)]) == Some(Estimate(Some(25), [Requirement4(2.5, stock, 100)]))
    ensures Requirement4(2.5, stock, 100).need == 250.0
  {
    assert Sum([1, 1, 1, 1]) == 4;
    FloorUnique(-25.0, -25);
    var r := CalculateMaterials(100, [1, 1, 1, 1], [(2.5, stock)]);
    assert r.value.shots == Some(25);
    assert r.value.lines == [Requirement4(2.5, stock, 100)];
    RoundHalfAwayWhole(2500000.0);
  }

  /** A mold with 2 cavities and a 3.2 shot: 50 parts take 25 shots and 80 of material. */
  lemma MoldLevelExample(m: Mold)
    requires m.totalCavities == 2 && m.shotSize == 3.2
    ensures MaterialNeeded([m], m.id, 50.0) == Value(80.0)
  {
    FloorUnique(-25.0, -25);
  }
}
