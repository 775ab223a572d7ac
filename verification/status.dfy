/** Stock classification and reorder arithmetic: the three status bands every page
    shows, the low-stock report and its grouping by type, reorder urgency and the
    suggested order, the stock progress bars, the per-page summary counts and listings,
    and the percentage-field clamp. All of it is a pure function of a row's current
    stock and reorder point. */
module Status {
  import opened Base
  import opened Schema
  import Listing

  // ---------------------------------------------------------------------------
  // Status bands

  /** getStockStatusClass, and the `stock_status` CASE of every catalog page. */
  function StatusClass(current: real, reorder: real): (c: string)
    ensures c in {"danger", "warning", "success"}
  {
    if current <= 0.0 then "danger"
    else if current <= reorder then "warning"
    else "success"
  }

  /** getStockStatusText, and the `stock_text` CASE of every catalog page. */
  function StatusText(current: real, reorder: real): (t: string)
    ensures t in {"Out of Stock", "Low Stock", "In Stock"}
  {
    if current <= 0.0 then "Out of Stock"
    else if current <= reorder then "Low Stock"
    else "In Stock"
  }

  /** The bands in terms of the two numbers: nothing on hand, at or below the reorder
      point, above it. Each row falls in exactly one. */
  lemma BandsCharacterised(current: real, reorder: real)
    ensures StatusClass(current, reorder) == "danger" <==> current <= 0.0
    ensures StatusClass(current, reorder) == "warning" <==> 0.0 < current <= reorder
    ensures StatusClass(current, reorder) == "success" <==> 0.0 < current && reorder < current
  {
  }

  /** The class and the text always name the same band. */
  lemma ClassAndTextAgree(current: real, reorder: real)
    ensures StatusClass(current, reorder) == "danger" <==> StatusText(current, reorder) == "Out of Stock"
    ensures StatusClass(current, reorder) == "warning" <==> StatusText(current, reorder) == "Low Stock"
    ensures StatusClass(current, reorder) == "success" <==> StatusText(current, reorder) == "In Stock"
  {
  }

  function BandRank(c: string): int {
    if c == "danger" then 0 else if c == "warning" then 1 else 2
  }

  /** More stock never moves a row to a worse band. */
  lemma BandMonotone(c1: real, c2: real, reorder: real)
    requires c1 <= c2
    ensures BandRank(StatusClass(c1, reorder)) <= BandRank(StatusClass(c2, reorder))
  {
  }

  // ---------------------------------------------------------------------------
  // The low-stock report

  /** The report's filter `current_stock <= reorder_point`. */
  predicate IsLow(it: Item) {
    it.stock <= it.reorder
  }

  /** With a nonnegative reorder point, an item is reported low exactly when its band is
      not "success". */
  lemma LowIffNotSuccess(it: Item)
    requires it.reorder >= 0.0
    ensures IsLow(it) <==> StatusClass(it.stock, it.reorder) != "success"
  {
  }

  /** A negative reorder point (the integer filter accepts one) separates the two: an
      item with nothing on hand shows "danger" yet is not reported low. */
  lemma NegativeReorderNotReported()
    ensures var it := Item(1, "x", 0.0, -1.0, ComponentInfo(Sourcing("", "", None)));
            StatusClass(it.stock, it.reorder) == "danger" && !IsLow(it)
  {
  }

  /** One line of the report: type, id, name, current stock and reorder point. */
  datatype LowItem = LowItem(kind: ItemKind, id: Id, name: string, stock: real, reorder: real)

  function LineOf(k: ItemKind, it: Item): LowItem {
    LowItem(k, it.id, it.name, it.stock, it.reorder)
  }

  /** One table's query: its low rows in storage order, one line per low row. */
  function LowRows(t: seq<Item>, k: ItemKind): (r: seq<LowItem>)
    ensures |r| <= |t|
    ensures forall j :: 0 <= j < |r| ==> r[j].kind == k && r[j].stock <= r[j].reorder
    ensures forall i :: 0 <= i < |t| ==> (LineOf(k, t[i]) in r <==> IsLow(t[i]))
    ensures |r| == CountLow(t)
  {
    if |t| == 0 then []
    else
      var rest := LowRows(t[1..], k);
      assert forall i :: 1 <= i < |t| ==> t[i] == t[1..][i - 1];
      if IsLow(t[0]) then [LineOf(k, t[0])] + rest else rest
  }

  /** Every line of a table's query names a row of that table. */
  lemma {:induction false} LowRowIds(t: seq<Item>, k: ItemKind)
    ensures forall j :: 0 <= j < |LowRows(t, k)| ==> HasId(t, LowRows(t, k)[j].id)
  {
    if |t| > 0 {
      LowRowIds(t[1..], k);
      var rest := LowRows(t[1..], k);
      var r := LowRows(t, k);
      forall j | 0 <= j < |r|
        ensures HasId(t, r[j].id)
      {
        if IsLow(t[0]) && j == 0 {
          assert t[0].id == r[0].id;
        } else {
          var j' := if IsLow(t[0]) then j - 1 else j;
          assert r[j] == rest[j'];
          var i :| 0 <= i < |t[1..]| && t[1..][i].id == rest[j'].id;
          assert t[i + 1].id == r[j].id;
        }
      }
    }
  }

  /** No two lines of the report coincide. */
  predicate Distinct(r: seq<LowItem>) {
    forall i, j :: 0 <= i < j < |r| ==> r[i] != r[j]
  }

  lemma ConsDistinct(x: LowItem, rest: seq<LowItem>)
    requires Distinct(rest) && forall j :: 0 <= j < |rest| ==> rest[j].id != x.id
    ensures Distinct([x] + rest)
  {
    var r := [x] + rest;
    forall i, j | 0 <= i < j < |r|
      ensures r[i] != r[j]
    {
      assert r[j] == rest[j - 1];
      if i > 0 { assert r[i] == rest[i - 1]; }
    }
  }

  /** With unique ids no low row is reported twice. */
  lemma {:induction false} LowRowsOnce(t: seq<Item>, k: ItemKind)
    requires UniqueIds(t)
    ensures Distinct(LowRows(t, k))
  {
    if |t| > 0 {
      assert UniqueIds(t[1..]) by {
        assert forall i :: 0 <= i < |t| - 1 ==> t[1..][i] == t[i + 1];
      }
      LowRowsOnce(t[1..], k);
      if IsLow(t[0]) {
        LowRowIds(t[1..], k);
        var rest := LowRows(t[1..], k);
        forall j | 0 <= j < |rest|
          ensures rest[j].id != t[0].id
        {
          var i :| 0 <= i < |t[1..]| && t[1..][i].id == rest[j].id;
          assert t[1..][i] == t[i + 1];
        }
        ConsDistinct(LineOf(k, t[0]), rest);
      }
    }
  }

  function KindRank(k: ItemKind): int {
    match k
    case MaterialKind => 0
    case ComponentKind => 1
    case ConsumableKind => 2
    case PackagingKind => 3
    case PartKind => 4
  }

  /** The five queries' results one after the other. */
  function Report(db: Db): seq<LowItem> {
    LowRows(db.materials, MaterialKind) + LowRows(db.components, ComponentKind)
    + LowRows(db.consumables, ConsumableKind) + LowRows(db.packaging, PackagingKind)
    + LowRows(db.parts, PartKind)
  }

  predicate KindsOrdered(r: seq<LowItem>) {
    forall i, j :: 0 <= i < j < |r| ==> KindRank(r[i].kind) <= KindRank(r[j].kind)
  }

  predicate RanksAtMost(r: seq<LowItem>, n: int) {
    forall j :: 0 <= j < |r| ==> KindRank(r[j].kind) <= n
  }

  lemma AppendOrdered(x: seq<LowItem>, y: seq<LowItem>, k: ItemKind)
    requires KindsOrdered(x) && RanksAtMost(x, KindRank(k))
    requires forall j :: 0 <= j < |y| ==> y[j].kind == k
    ensures KindsOrdered(x + y) && RanksAtMost(x + y, KindRank(k))
  {
    var r := x + y;
    forall i, j | 0 <= i < j < |r|
      ensures KindRank(r[i].kind) <= KindRank(r[j].kind)
    {
      if j >= |x| {
        assert r[j] == y[j - |x|];
        if i >= |x| { assert r[i] == y[i - |x|]; }
      }
    }
  }

  lemma ReportOrdered(db: Db)
    ensures KindsOrdered(Report(db))
  {
    var a := LowRows(db.materials, MaterialKind);
    var b := LowRows(db.components, ComponentKind);
    var c := LowRows(db.consumables, ConsumableKind);
    var d := LowRows(db.packaging, PackagingKind);
    var e := LowRows(db.parts, PartKind);
    assert Report(db) == a + b + c + d + e;
    assert KindsOrdered(a) && RanksAtMost(a, KindRank(MaterialKind));
    AppendOrdered(a, b, ComponentKind);
    AppendOrdered(a + b, c, ConsumableKind);
    AppendOrdered(a + b + c, d, PackagingKind);
    AppendOrdered(a + b + c + d, e, PartKind);
  }

  lemma ReportMembers(db: Db, k: ItemKind, i: int)
    requires 0 <= i < |Table(db, k)|
    ensures LineOf(k, Table(db, k)[i]) in Report(db) <==> IsLow(Table(db, k)[i])
  {
    var a := LowRows(db.materials, MaterialKind);
    var b := LowRows(db.components, ComponentKind);
    var c := LowRows(db.consumables, ConsumableKind);
    var d := LowRows(db.packaging, PackagingKind);
    var e := LowRows(db.parts, PartKind);
    var x := LineOf(k, Table(db, k)[i]);
    assert x in Report(db) <==> x in a || x in b || x in c || x in d || x in e;
  }

  lemma ReportMembersAll(db: Db)
    ensures forall k, i :: 0 <= i < |Table(db, k)| ==> (LineOf(k, Table(db, k)[i]) in Report(db) <==> IsLow(Table(db, k)[i]))
  {
    forall k, i | 0 <= i < |Table(db, k)|
      ensures LineOf(k, Table(db, k)[i]) in Report(db) <==> IsLow(Table(db, k)[i])
    {
      ReportMembers(db, k, i);
    }
  }

  /** getLowStockItems: exactly the rows at or below their reorder point, one line per
      low row, materials first, then components, consumables, packaging and parts. */
  function LowStockItems(db: Db): (r: seq<LowItem>)
    ensures KindsOrdered(r)
    ensures forall k, i :: 0 <= i < |Table(db, k)| ==> (LineOf(k, Table(db, k)[i]) in r <==> IsLow(Table(db, k)[i]))
    ensures |r| == CountLow(db.materials) + CountLow(db.components) + CountLow(db.consumables)
                   + CountLow(db.packaging) + CountLow(db.parts)
  {
    ReportOrdered(db);
    ReportMembersAll(db);
    Report(db)
  }

  lemma AppendDistinct(x: seq<LowItem>, y: seq<LowItem>, k: ItemKind)
    requires Distinct(x) && Distinct(y) && RanksAtMost(x, KindRank(k) - 1)
    requires forall j :: 0 <= j < |y| ==> y[j].kind == k
    ensures Distinct(x + y)
  {
    var r := x + y;
    forall i, j | 0 <= i < j < |r|
      ensures r[i] != r[j]
    {
      if j >= |x| {
        assert r[j] == y[j - |x|];
        if i >= |x| { assert r[i] == y[i - |x|]; }
      }
    }
  }

  /** In a well-formed store the report names each low row exactly once. */
  lemma LowStockItemsOnce(db: Db)
    requires WellFormed(db)
    ensures Distinct(LowStockItems(db))
  {
    var a := LowRows(db.materials, MaterialKind);
    var b := LowRows(db.components, ComponentKind);
    var c := LowRows(db.consumables, ConsumableKind);
    var d := LowRows(db.packaging, PackagingKind);
    var e := LowRows(db.parts, PartKind);
    forall k ensures Distinct(LowRows(Table(db, k), k)) {
      TableOkOf(db, k);
      LowRowsOnce(Table(db, k), k);
    }
    assert Distinct(a) && Distinct(b) && Distinct(c) && Distinct(d) && Distinct(e) by {
      assert a == LowRows(Table(db, MaterialKind), MaterialKind);
      assert b == LowRows(Table(db, ComponentKind), ComponentKind);
      assert c == LowRows(Table(db, ConsumableKind), ConsumableKind);
      assert d == LowRows(Table(db, PackagingKind), PackagingKind);
      assert e == LowRows(Table(db, PartKind), PartKind);
    }
    assert KindsOrdered(a) && RanksAtMost(a, KindRank(MaterialKind));
    AppendDistinct(a, b, ComponentKind);
    AppendOrdered(a, b, ComponentKind);
    AppendDistinct(a + b, c, ConsumableKind);
    AppendOrdered(a + b, c, ConsumableKind);
    AppendDistinct(a + b + c, d, PackagingKind);
    AppendOrdered(a + b + c, d, PackagingKind);
    AppendDistinct(a + b + c + d, e, PartKind);
    assert LowStockItems(db) == a + b + c + d + e;
  }

  /** reorder.php's grouping: the report's lines of one type, in report order. */
  function Bucket(items: seq<LowItem>, k: ItemKind): (r: seq<LowItem>)
    ensures |r| <= |items|
    ensures forall x :: x in r <==> x in items && x.kind == k
  {
    if |items| == 0 then []
    else
      var rest := Bucket(items[1..], k);
      assert forall x :: x in items <==> x == items[0] || x in items[1..];
      if items[0].kind == k then [items[0]] + rest else rest
  }

  lemma {:induction false} BucketAppend(a: seq<LowItem>, b: seq<LowItem>, k: ItemKind)
    ensures Bucket(a + b, k) == Bucket(a, k) + Bucket(b, k)
  {
    if |a| > 0 {
      assert (a + b)[1..] == a[1..] + b;
      BucketAppend(a[1..], b, k);
    } else {
      assert a + b == b;
    }
  }

  lemma {:induction false} BucketOfRows(t: seq<Item>, k: ItemKind, k': ItemKind)
    ensures Bucket(LowRows(t, k'), k) == if k == k' then LowRows(t, k') else []
  {
    if |t| > 0 {
      var rest := LowRows(t[1..], k');
      BucketOfRows(t[1..], k, k');
      if IsLow(t[0]) {
        assert ([LineOf(k', t[0])] + rest)[1..] == rest;
      }
    }
  }

  lemma BucketSplit(a: seq<LowItem>, b: seq<LowItem>, c: seq<LowItem>, d: seq<LowItem>, e: seq<LowItem>, k: ItemKind)
    ensures Bucket(a + b + c + d + e, k) == Bucket(a, k) + Bucket(b, k) + Bucket(c, k) + Bucket(d, k) + Bucket(e, k)
  {
    BucketAppend(a + b + c + d, e, k);
    BucketAppend(a + b + c, d, k);
    BucketAppend(a + b, c, k);
    BucketAppend(a, b, k);
  }

  function Pick<T>(k: ItemKind, a: T, b: T, c: T, d: T, e: T): T {
    match k
    case MaterialKind => a
    case ComponentKind => b
    case ConsumableKind => c
    case PackagingKind => d
    case PartKind => e
  }

  lemma BucketPick(a: seq<LowItem>, b: seq<LowItem>, c: seq<LowItem>, d: seq<LowItem>, e: seq<LowItem>, k: ItemKind)
    requires Bucket(a, k) == if k == MaterialKind then a else []
    requires Bucket(b, k) == if k == ComponentKind then b else []
    requires Bucket(c, k) == if k == ConsumableKind then c else []
    requires Bucket(d, k) == if k == PackagingKind then d else []
    requires Bucket(e, k) == if k == PartKind then e else []
    ensures Bucket(a + b + c + d + e, k) == Pick(k, a, b, c, d, e)
  {
    BucketSplit(a, b, c, d, e, k);
    match k {
      case MaterialKind => assert Bucket(a, k) + [] + [] + [] + [] == a;
      case ComponentKind => assert [] + Bucket(b, k) + [] + [] + [] == b;
      case ConsumableKind => assert [] + [] + Bucket(c, k) + [] + [] == c;
      case PackagingKind => assert [] + [] + [] + Bucket(d, k) + [] == d;
      case PartKind => assert [] + [] + [] + [] + Bucket(e, k) == e;
    }
  }

  lemma BucketOfReport(db: Db, k: ItemKind)
    ensures Bucket(Report(db), k) == LowRows(Table(db, k), k)
  {
    var a := LowRows(db.materials, MaterialKind);
    var b := LowRows(db.components, ComponentKind);
    var c := LowRows(db.consumables, ConsumableKind);
    var d := LowRows(db.packaging, PackagingKind);
    var e := LowRows(db.parts, PartKind);
    BucketOfRows(db.materials, k, MaterialKind);
    BucketOfRows(db.components, k, ComponentKind);
    BucketOfRows(db.consumables, k, ConsumableKind);
    BucketOfRows(db.packaging, k, PackagingKind);
    BucketOfRows(db.parts, k, PartKind);
    BucketPick(a, b, c, d, e, k);
  }

  /** Each bucket holds exactly what its table's own query returns, in the same order. */
  lemma BucketOfLowStock(db: Db, k: ItemKind)
    ensures Bucket(LowStockItems(db), k) == LowRows(Table(db, k), k)
  {
    BucketOfReport(db, k);
  }

  function BucketTotal(items: seq<LowItem>): nat {
    |Bucket(items, MaterialKind)| + |Bucket(items, ComponentKind)| + |Bucket(items, ConsumableKind)|
    + |Bucket(items, PackagingKind)| + |Bucket(items, PartKind)|
  }

  /** Every line lands in exactly one bucket, so the bucket sizes add up to the report. */
  lemma {:induction false} BucketsPartition(items: seq<LowItem>)
    ensures BucketTotal(items) == |items|
  {
    if |items| > 0 {
      BucketsPartition(items[1..]);
    }
  }

  // ---------------------------------------------------------------------------
  // Reorder urgency and suggested order

  datatype Urgency = Critical | High | Normal

  /** getUrgencyLevel; its lead-time argument is never read. */
  function UrgencyOf(current: real, reorder: real): (u: Urgency)
    ensures u == Critical <==> current <= 0.0
    ensures u == High <==> 0.0 < current && current <= reorder * 0.5
  {
    if current <= 0.0 then Critical
    else if current <= reorder * 0.5 then High
    else Normal
  }

  /** Critical urgency and the danger band are the same condition. */
  lemma CriticalIsDanger(current: real, reorder: real)
    ensures UrgencyOf(current, reorder) == Critical <==> StatusClass(current, reorder) == "danger"
  {
  }

  /** High urgency lies inside the warning band; a reported line that is not critical
      is in the warning band. */
  lemma UrgencyWithinBands(it: Item)
    ensures UrgencyOf(it.stock, it.reorder) == High ==> StatusClass(it.stock, it.reorder) == "warning"
    ensures IsLow(it) && UrgencyOf(it.stock, it.reorder) != Critical ==> StatusClass(it.stock, it.reorder) == "warning"
  {
  }

  /** max(reorder * 2 - current, reorder) */
  function SuggestedOrder(current: real, reorder: real): (s: real)
    ensures s >= reorder
    ensures s >= 2.0 * reorder - current
  {
    Max(reorder * 2.0 - current, reorder)
  }

  /** For a reported line the suggestion tops stock up to twice the reorder point; above
      the reorder point it is the reorder point itself. */
  lemma SuggestedRestocks(current: real, reorder: real)
    ensures current <= reorder ==> current + SuggestedOrder(current, reorder) == 2.0 * reorder
    ensures current >= reorder ==> SuggestedOrder(current, reorder) == reorder
  {
  }

  // ---------------------------------------------------------------------------
  // Progress bars

  /** The catalog pages' bar: min(current / max(reorder * 2, 1) * 100, 100) percent. */
  function ProgressWidth(current: real, reorder: real): (w: real)
    ensures w <= 100.0
    ensures w <= 0.0 <==> current <= 0.0
  {
    var d := Max(reorder * 2.0, 1.0);
    PositiveQuotient(current, d);
    Min(current / d * 100.0, 100.0)
  }

  lemma PositiveQuotient(c: real, d: real)
    requires d > 0.0
    ensures c / d * 100.0 <= 0.0 <==> c <= 0.0
  {
    assert c == (c / d) * d;
    if c / d > 0.0 { assert (c / d) * d > 0.0; }
    if c / d < 0.0 { assert (c / d) * d < 0.0; }
  }

  /** For d > 0, comparing c / d * 100 with k is comparing c * 100 with k * d. */
  lemma ScaledLeq(c: real, d: real, k: real)
    requires d > 0.0
    ensures c / d * 100.0 <= k <==> c * 100.0 <= k * d
    ensures c / d * 100.0 >= k <==> c * 100.0 >= k * d
  {
    var q := c / d;
    assert c == q * d;
    if q * 100.0 <= k {
      assert q * 100.0 * d <= k * d;
    } else {
      assert q * 100.0 * d > k * d;
    }
    if q * 100.0 >= k {
      assert q * 100.0 * d >= k * d;
    } else {
      assert q * 100.0 * d < k * d;
    }
  }

  /** The bar is full exactly when stock reaches twice the reorder point (or 1). */
  lemma FullBar(current: real, reorder: real)
    ensures ProgressWidth(current, reorder) == 100.0 <==> current >= Max(reorder * 2.0, 1.0)
  {
    var d := Max(reorder * 2.0, 1.0);
    ScaledLeq(current, d, 100.0);
  }

  /** A bar in the warning band is at most half full; when the reorder point is at least
      one half, half full is exactly the reorder point. */
  lemma HalfMark(current: real, reorder: real)
    ensures current <= reorder ==> ProgressWidth(current, reorder) <= 50.0
    ensures reorder * 2.0 >= 1.0 ==> (ProgressWidth(current, reorder) <= 50.0 <==> current <= reorder)
  {
    var d := Max(reorder * 2.0, 1.0);
    ScaledLeq(current, d, 50.0);
    if reorder * 2.0 >= 1.0 {
      assert d == reorder * 2.0;
      assert 50.0 * d == reorder * 100.0;
    } else if current <= reorder {
      assert d == 1.0;
    }
  }

  /** updateStockProgress's width, min(current / max * 100, 100). A zero maximum gives
      JavaScript's Infinity, clamped to 100, for positive stock, and -Infinity or NaN,
      which no width can be, otherwise. */
  function ScriptWidth(current: real, max: real): (w: Option<real>)
    ensures max != 0.0 ==> w.Some?
    ensures w.Some? ==> w.value <= 100.0
    ensures max == 0.0 ==> (w.Some? <==> current > 0.0)
  {
    if max == 0.0 then (if current > 0.0 then Some(100.0) else None)
    else Some(Min(current / max * 100.0, 100.0))
  }

  /** updateStockProgress's class for the bar. */
  function ScriptBarClass(current: real, reorder: real): string {
    if current <= 0.0 then "stock-progress-bar bg-danger"
    else if current <= reorder then "stock-progress-bar bg-warning"
    else "stock-progress-bar bg-success"
  }

  /** The script colours its bar by the same bands as the server, and given the server's
      maximum it draws the same width. */
  lemma ScriptAgreesWithPages(current: real, reorder: real)
    ensures ScriptBarClass(current, reorder) == "stock-progress-bar bg-" + StatusClass(current, reorder)
    ensures ScriptWidth(current, Max(reorder * 2.0, 1.0)) == Some(ProgressWidth(current, reorder))
  {
  }

  // ---------------------------------------------------------------------------
  // Summary counts and listings

  function CountLow(t: seq<Item>): (n: nat)
    ensures n <= |t|
  {
    if |t| == 0 then 0 else (if IsLow(t[0]) then 1 else 0) + CountLow(t[1..])
  }

  /** The out-of-stock filter `current_stock <= 0`. */
  predicate IsOut(it: Item) {
    it.stock <= 0.0
  }

  function CountOut(t: seq<Item>): (n: nat)
    ensures n <= |t|
  {
    if |t| == 0 then 0 else (if IsOut(t[0]) then 1 else 0) + CountOut(t[1..])
  }

  /** The low count of a suffix is the number of its positions holding a low row. */
  lemma {:induction false} CountLowFrom(t: seq<Item>, lo: nat)
    requires lo <= |t|
    ensures CountLow(t[lo..]) == |set i | lo <= i < |t| && IsLow(t[i])|
    decreases |t| - lo
  {
    var s := set i | lo <= i < |t| && IsLow(t[i]);
    if lo == |t| {
      assert s == {};
    } else {
      CountLowFrom(t, lo + 1);
      assert t[lo..][1..] == t[lo + 1..];
      var s' := set i | lo + 1 <= i < |t| && IsLow(t[i]);
      if IsLow(t[lo]) {
        assert s == s' + {lo};
      } else {
        assert s == s';
      }
    }
  }

  /** The out count of a suffix is the number of its positions holding an empty row. */
  lemma {:induction false} CountOutFrom(t: seq<Item>, lo: nat)
    requires lo <= |t|
    ensures CountOut(t[lo..]) == |set i | lo <= i < |t| && IsOut(t[i])|
    decreases |t| - lo
  {
    var s := set i | lo <= i < |t| && IsOut(t[i]);
    if lo == |t| {
      assert s == {};
    } else {
      CountOutFrom(t, lo + 1);
      assert t[lo..][1..] == t[lo + 1..];
      var s' := set i | lo + 1 <= i < |t| && IsOut(t[i]);
      if IsOut(t[lo]) {
        assert s == s' + {lo};
      } else {
        assert s == s';
      }
    }
  }

  /** A page's summary row. SUM over no rows is NULL, so an empty table shows no counts. */
  datatype Summary = Summary(total: nat, low: Option<nat>, out: Option<nat>)

  /** `COUNT(*)`, `SUM(current_stock <= reorder_point)` and `SUM(current_stock <= 0)`. */
  function Summarise(t: seq<Item>): (s: Summary)
    ensures s.total == |t|
    ensures s.low.None? <==> |t| == 0
    ensures s.out.None? <==> |t| == 0
    ensures |t| > 0 ==> s.low == Some(|set i | 0 <= i < |t| && IsLow(t[i])|)
    ensures |t| > 0 ==> s.out == Some(|set i | 0 <= i < |t| && IsOut(t[i])|)
  {
    CountLowFrom(t, 0);
    CountOutFrom(t, 0);
    assert t[0..] == t;
    if |t| == 0 then Summary(0, None, None)
    else Summary(|t|, Some(CountLow(t)), Some(CountOut(t)))
  }

  /** With nonnegative reorder points, everything out of stock is also counted low. */
  lemma {:induction false} OutWithinLow(t: seq<Item>)
    requires forall i :: 0 <= i < |t| ==> t[i].reorder >= 0.0
    ensures CountOut(t) <= CountLow(t)
  {
    if |t| > 0 {
      OutWithinLow(t[1..]);
    }
  }

  /** The number of lines the report shows for a table is the number of its low rows. */
  lemma LowCountIsReported(t: seq<Item>, k: ItemKind)
    ensures |LowRows(t, k)| == |set i | 0 <= i < |t| && IsLow(t[i])|
  {
    CountLowFrom(t, 0);
    assert t[0..] == t;
  }

  function CountType(t: seq<Item>, p: PartType): (n: nat)
    ensures n <= |t|
  {
    if |t| == 0 then 0
    else (if t[0].info.PartInfo? && t[0].info.partType == p then 1 else 0) + CountType(t[1..], p)
  }

  /** part_type is a NOT NULL ENUM holding one of its two labels or the error value `''`,
      so the three type counts split the parts table; the page shows the first two. */
  lemma {:induction false} TypeCountsSplit(t: seq<Item>)
    requires RowsOfKind(t, PartKind)
    ensures CountType(t, ShootShip) + CountType(t, ValueAdded) + CountType(t, BlankType) == |t|
  {
    if |t| > 0 {
      assert t[0].info.PartInfo?;
      assert RowsOfKind(t[1..], PartKind) by {
        assert forall i :: 0 <= i < |t[1..]| ==> t[1..][i] == t[i + 1];
      }
      TypeCountsSplit(t[1..]);
    }
  }

  /** Appending a row adds one to the count of its own type only. */
  lemma {:induction false} CountTypeAppend(t: seq<Item>, x: Item, p: PartType)
    ensures CountType(t + [x], p) == CountType(t, p) + (if x.info.PartInfo? && x.info.partType == p then 1 else 0)
  {
    if |t| > 0 {
      assert (t + [x])[1..] == t[1..] + [x];
      CountTypeAppend(t[1..], x, p);
    } else {
      assert (t + [x])[1..] == [];
    }
  }

  /** ORDER BY of each catalog page: parts by part number, the rest by name. */
  function PageOrder(k: ItemKind): Item -> seq<Listing.KeyPart> {
    if k == PartKind then (it: Item) => [Listing.TextOrNull(PartNumberOf(it))]
    else (it: Item) => [Listing.TextKey(it.name)]
  }

  /** A catalog page's listing: every row of the table once, in the page's order; each
      row is shown with StatusClass and StatusText of its own stock and reorder point. */
  function PageListing(t: seq<Item>, k: ItemKind): (r: seq<Item>)
    ensures multiset(r) == multiset(t)
    ensures Listing.Sorted(r, PageOrder(k))
  {
    Listing.SortBy(t, PageOrder(k))
  }

  // ---------------------------------------------------------------------------
  // The percentage field

  datatype FieldValue = Kept | Replaced(v: real)

  /** formatPercentageInput on the field's parsed value (None for NaN): above 100 the
      field becomes 100, below 0 it becomes 0, anything else is left as typed. */
  function FormatPercentage(parsed: Option<real>): (f: FieldValue)
    ensures f == Replaced(100.0) <==> parsed.Some? && parsed.value > 100.0
    ensures f == Replaced(0.0) <==> parsed.Some? && parsed.value < 0.0
    ensures f.Kept? <==> parsed.None? || 0.0 <= parsed.value <= 100.0
  {
    match parsed
    case None => Kept
    case Some(v) => if v > 100.0 then Replaced(100.0) else if v < 0.0 then Replaced(0.0) else Kept
  }

  /** What the field parses to afterwards. */
  function AfterFormat(parsed: Option<real>): Option<real> {
    match FormatPercentage(parsed)
    case Kept => parsed
    case Replaced(v) => Some(v)
  }

  /** A number ends up between 0 and 100, and formatting again changes nothing. */
  lemma FormatClamps(parsed: Option<real>)
    ensures AfterFormat(parsed).Some? <==> parsed.Some?
    ensures AfterFormat(parsed).Some? ==> 0.0 <= AfterFormat(parsed).value <= 100.0
    ensures FormatPercentage(AfterFormat(parsed)) == Kept
  {
  }
}
