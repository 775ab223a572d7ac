/** The BOM page's four listings (bom.php:295-335): each joins a junction table with its
    catalog table for the selected part and orders the rows with ORDER BY. Sort keys are
    compared column by column; NULL sorts before every value, as in MySQL, and strings
    compare by code point. MySQL promises no order among rows with equal keys, and the
    contracts below promise none either. */
module Listing {
  import opened Base
  import opened Schema

  /** One column of an ORDER BY key. */
  datatype KeyPart = NullKey | IntKey(i: int) | TextKey(s: string)

  /** Lexicographic order of strings by code point. */
  predicate TextLeq(a: string, b: string) {
    |a| == 0 || (|b| > 0 && (a[0] < b[0] || (a[0] == b[0] && TextLeq(a[1..], b[1..]))))
  }

  /** Order of one column: NULL first; numbers before text only matters for a column
      that mixes them, which none does. */
  predicate PartLeq(x: KeyPart, y: KeyPart) {
    match x
    case NullKey => true
    case IntKey(a) => (match y case NullKey => false case IntKey(b) => a <= b case TextKey(_) => true)
    case TextKey(a) => (match y case TextKey(b) => TextLeq(a, b) case _ => false)
  }

  /** Order of whole keys: the first column that differs decides. */
  predicate KeyLeq(a: seq<KeyPart>, b: seq<KeyPart>) {
    |a| == 0 || (|b| > 0 && ((PartLeq(a[0], b[0]) && a[0] != b[0]) || (a[0] == b[0] && KeyLeq(a[1..], b[1..]))))
  }

  predicate Sorted<T>(s: seq<T>, key: T -> seq<KeyPart>) {
    forall i, j :: 0 <= i < j < |s| ==> KeyLeq(key(s[i]), key(s[j]))
  }

  // ---------------------------------------------------------------------------
  // The orders are total and transitive

  lemma {:induction false} TextLeqTotal(a: string, b: string)
    ensures TextLeq(a, b) || TextLeq(b, a)
  {
    if |a| > 0 && |b| > 0 && a[0] == b[0] {
      TextLeqTotal(a[1..], b[1..]);
    }
  }

  lemma {:induction false} TextLeqAntisym(a: string, b: string)
    requires TextLeq(a, b) && TextLeq(b, a)
    ensures a == b
  {
    if |a| > 0 {
      TextLeqAntisym(a[1..], b[1..]);
    }
  }

  lemma {:induction false} TextLeqTrans(a: string, b: string, c: string)
    requires TextLeq(a, b) && TextLeq(b, c)
    ensures TextLeq(a, c)
  {
    if |a| > 0 && |c| > 0 && a[0] == b[0] && b[0] == c[0] {
      TextLeqTrans(a[1..], b[1..], c[1..]);
    }
  }

  lemma PartLeqRefl(x: KeyPart)
    ensures PartLeq(x, x)
  {
    if x.TextKey? {
      TextLeqReflexive(x.s);
    }
  }

  lemma {:induction false} TextLeqReflexive(a: string)
    ensures TextLeq(a, a)
  {
    if |a| > 0 {
      TextLeqReflexive(a[1..]);
    }
  }

  lemma PartLeqTotal(x: KeyPart, y: KeyPart)
    ensures PartLeq(x, y) || PartLeq(y, x)
  {
    if x.TextKey? && y.TextKey? {
      TextLeqTotal(x.s, y.s);
    }
  }

  lemma PartLeqAntisym(x: KeyPart, y: KeyPart)
    requires PartLeq(x, y) && PartLeq(y, x)
    ensures x == y
  {
    if x.TextKey? && y.TextKey? {
      TextLeqAntisym(x.s, y.s);
    }
  }

  lemma PartLeqTrans(x: KeyPart, y: KeyPart, z: KeyPart)
    requires PartLeq(x, y) && PartLeq(y, z)
    ensures PartLeq(x, z)
  {
    if x.TextKey? && y.TextKey? && z.TextKey? {
      TextLeqTrans(x.s, y.s, z.s);
    }
  }

  lemma {:induction false} KeyLeqTotal(a: seq<KeyPart>, b: seq<KeyPart>)
    ensures KeyLeq(a, b) || KeyLeq(b, a)
  {
    if |a| > 0 && |b| > 0 {
      PartLeqTotal(a[0], b[0]);
      if a[0] == b[0] {
        KeyLeqTotal(a[1..], b[1..]);
      }
    }
  }

  lemma {:induction false} KeyLeqTrans(a: seq<KeyPart>, b: seq<KeyPart>, c: seq<KeyPart>)
    requires KeyLeq(a, b) && KeyLeq(b, c)
    ensures KeyLeq(a, c)
  {
    if |a| > 0 {
      assert |b| > 0 && |c| > 0;
      if a[0] == b[0] && b[0] == c[0] {
        KeyLeqTrans(a[1..], b[1..], c[1..]);
      } else {
        PartLeqRefl(a[0]);
        PartLeqRefl(b[0]);
        PartLeqTrans(a[0], b[0], c[0]);
        if a[0] == c[0] {
          PartLeqAntisym(a[0], b[0]);
        }
      }
    }
  }

  // ---------------------------------------------------------------------------
  // An insertion sort

  /** x placed before the first element whose key is not below x's: after every element
      with a smaller key and before every element with an equal or larger one. */
  function InsertSorted<T>(x: T, s: seq<T>, key: T -> seq<KeyPart>): (r: seq<T>)
    ensures multiset(r) == multiset(s) + multiset{x}
  {
    if |s| == 0 || KeyLeq(key(x), key(s[0])) then [x] + s
    else
      assert s == [s[0]] + s[1..];
      [s[0]] + InsertSorted(x, s[1..], key)
  }

  lemma {:induction false} InsertSortedSorted<T>(x: T, s: seq<T>, key: T -> seq<KeyPart>)
    requires Sorted(s, key)
    ensures Sorted(InsertSorted(x, s, key), key)
  {
    var r := InsertSorted(x, s, key);
    if |s| == 0 {
    } else if KeyLeq(key(x), key(s[0])) {
      forall j | 1 <= j < |r|
        ensures KeyLeq(key(x), key(r[j]))
      {
        if j > 1 {
          KeyLeqTrans(key(x), key(s[0]), key(s[j - 1]));
        }
      }
    } else {
      KeyLeqTotal(key(x), key(s[0]));
      var rest := InsertSorted(x, s[1..], key);
      InsertSortedSorted(x, s[1..], key);
      forall j | 0 <= j < |rest|
        ensures KeyLeq(key(s[0]), key(rest[j]))
      {
        assert rest[j] in multiset(rest);
        if rest[j] != x {
          assert rest[j] in multiset(s[1..]);
          var m :| 0 <= m < |s[1..]| && s[1..][m] == rest[j];
          assert s[m + 1] == rest[j];
        }
      }
    }
  }

  /** Rows ordered by key. */
  function SortBy<T>(s: seq<T>, key: T -> seq<KeyPart>): (r: seq<T>)
    ensures multiset(r) == multiset(s)
    ensures Sorted(r, key)
  {
    if |s| == 0 then []
    else
      var tail := SortBy(s[1..], key);
      InsertSortedSorted(s[0], tail, key);
      assert s == [s[0]] + s[1..];
      InsertSorted(s[0], tail, key)
  }

  // ---------------------------------------------------------------------------
  // The four listings

  /** The line (edge data, row) the join produces for a row linked to the part. */
  predicate Linked<V(==)>(edges: map<EdgeKey, V>, part: Id, x: (V, Item)) {
    (part, x.1.id) in edges && x.0 == edges[(part, x.1.id)]
  }

  /** Join of a catalog table with the selected part's edges, in storage order: one line
      (edge data, item row) per row that has an edge from the part, so a line occurs as
      often as its row occurs in the table, and no other line occurs. */
  function Join<V(==,!new)>(t: seq<Item>, edges: map<EdgeKey, V>, part: Id): (r: seq<(V, Item)>)
    ensures forall x :: x in r <==> x.1 in t && Linked(edges, part, x)
    ensures forall x :: multiset(r)[x] == if Linked(edges, part, x) then multiset(t)[x.1] else 0
    ensures |r| <= |t|
  {
    if |t| == 0 then []
    else
      var rest := Join(t[1..], edges, part);
      assert t == [t[0]] + t[1..];
      assert forall y :: y in t <==> y == t[0] || y in t[1..];
      if (part, t[0].id) in edges then [(edges[(part, t[0].id)], t[0])] + rest else rest
  }

  function TextOrNull(s: Option<string>): KeyPart {
    match s
    case Some(v) => TextKey(v)
    case None => NullKey
  }

  function Category(it: Item): Option<string> {
    match it.info
    case PackagingInfo(_, _, c, _, _, _) => c
    case _ => None
  }

  /** ORDER BY m.part_number, m.material_name */
  function MaterialOrder(x: (real, Item)): seq<KeyPart> {
    [TextOrNull(PartNumberOf(x.1)), TextKey(x.1.name)]
  }

  /** ORDER BY c.component_name */
  function ComponentOrder(x: (int, Item)): seq<KeyPart> {
    [TextKey(x.1.name)]
  }

  /** ORDER BY pcon.application_step, con.consumable_name */
  function ConsumableOrder(x: (ConsumableEdge, Item)): seq<KeyPart> {
    [IntKey(x.0.step), TextKey(x.1.name)]
  }

  /** ORDER BY p.packaging_category, p.part_number, p.packaging_name */
  function PackagingOrder(x: (PackagingEdge, Item)): seq<KeyPart> {
    [TextOrNull(Category(x.1)), TextOrNull(PartNumberOf(x.1)), TextKey(x.1.name)]
  }

  /** The selected part's materials with their quantities per part. */
  function BomMaterials(db: Db, part: Id): (r: seq<(real, Item)>)
    ensures Sorted(r, MaterialOrder)
    ensures forall x :: x in r <==> x.1 in db.materials && Linked(db.bom.materials, part, x)
    ensures forall x :: multiset(r)[x] == if Linked(db.bom.materials, part, x) then multiset(db.materials)[x.1] else 0
  {
    var j := Join(db.materials, db.bom.materials, part);
    var r := SortBy(j, MaterialOrder);
    assert forall x :: x in r <==> x in multiset(j);
    r
  }

  /** The selected part's components with their counts. */
  function BomComponents(db: Db, part: Id): (r: seq<(int, Item)>)
    ensures Sorted(r, ComponentOrder)
    ensures forall x :: x in r <==> x.1 in db.components && Linked(db.bom.components, part, x)
    ensures forall x :: multiset(r)[x] == if Linked(db.bom.components, part, x) then multiset(db.components)[x.1] else 0
  {
    var j := Join(db.components, db.bom.components, part);
    var r := SortBy(j, ComponentOrder);
    assert forall x :: x in r <==> x in multiset(j);
    r
  }

  /** The selected part's consumables with their edge data. */
  function BomConsumables(db: Db, part: Id): (r: seq<(ConsumableEdge, Item)>)
    ensures Sorted(r, ConsumableOrder)
    ensures forall x :: x in r <==> x.1 in db.consumables && Linked(db.bom.consumables, part, x)
    ensures forall x :: multiset(r)[x] == if Linked(db.bom.consumables, part, x) then multiset(db.consumables)[x.1] else 0
  {
    var j := Join(db.consumables, db.bom.consumables, part);
    var r := SortBy(j, ConsumableOrder);
    assert forall x :: x in r <==> x in multiset(j);
    r
  }

  /** The selected part's packaging with its edge data. */
  function BomPackaging(db: Db, part: Id): (r: seq<(PackagingEdge, Item)>)
    ensures Sorted(r, PackagingOrder)
    ensures forall x :: x in r <==> x.1 in db.packaging && Linked(db.bom.packaging, part, x)
    ensures forall x :: multiset(r)[x] == if Linked(db.bom.packaging, part, x) then multiset(db.packaging)[x.1] else 0
  {
    var j := Join(db.packaging, db.bom.packaging, part);
    var r := SortBy(j, PackagingOrder);
    assert forall x :: x in r <==> x in multiset(j);
    r
  }

  /** With unique ids every row occurs once in its table. */
  lemma {:induction false} UniqueRowsOnce(t: seq<Item>)
    requires UniqueIds(t)
    ensures forall y :: y in t ==> multiset(t)[y] == 1
  {
    if |t| > 0 {
      assert UniqueIds(t[1..]) by {
        assert forall i :: 0 <= i < |t| - 1 ==> t[1..][i] == t[i + 1];
      }
      UniqueRowsOnce(t[1..]);
      assert t == [t[0]] + t[1..];
      assert t[0] !in t[1..];
    }
  }

  /** In a well-formed store each of the part's BOM lines is listed exactly once. */
  lemma BomListingsOnce(db: Db, part: Id)
    requires WellFormed(db)
    ensures forall x :: x in BomMaterials(db, part) ==> multiset(BomMaterials(db, part))[x] == 1
    ensures forall x :: x in BomComponents(db, part) ==> multiset(BomComponents(db, part))[x] == 1
    ensures forall x :: x in BomConsumables(db, part) ==> multiset(BomConsumables(db, part))[x] == 1
    ensures forall x :: x in BomPackaging(db, part) ==> multiset(BomPackaging(db, part))[x] == 1
  {
    TableOkOf(db, MaterialKind);
    TableOkOf(db, ComponentKind);
    TableOkOf(db, ConsumableKind);
    TableOkOf(db, PackagingKind);
    UniqueRowsOnce(db.materials);
    UniqueRowsOnce(db.components);
    UniqueRowsOnce(db.consumables);
    UniqueRowsOnce(db.packaging);
  }
}
