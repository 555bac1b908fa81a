/**
 * The order of the "timestamp" index of the "images" object store, following the
 * W3C Indexed Database API: index records are sorted by index key (the timestamp),
 * then by the primary key (the id). `KeyLess` compares string keys character by character,
 * where a character is a Dafny `char` (a Unicode scalar value).
 */
module IndexOrder {
  import opened Images

  /** String key comparison: the first differing character decides, and a proper prefix comes first. */
  predicate KeyLess(a: string, b: string)
    decreases |a|
  {
    if |a| == 0 then |b| > 0
    else if |b| == 0 then false
    else a[0] < b[0] || (a[0] == b[0] && KeyLess(a[1..], b[1..]))
  }

  lemma {:induction false} KeyLessIrreflexive(a: string)
    ensures !KeyLess(a, a)
    decreases |a|
  {
    if |a| > 0 { KeyLessIrreflexive(a[1..]); }
  }

  lemma {:induction false} KeyLessTransitive(a: string, b: string, c: string)
    requires KeyLess(a, b) && KeyLess(b, c)
    ensures KeyLess(a, c)
    decreases |a|
  {
    if |a| > 0 && a[0] == b[0] && b[0] == c[0] {
      KeyLessTransitive(a[1..], b[1..], c[1..]);
    }
  }

  lemma {:induction false} KeyLessTotal(a: string, b: string)
    requires a != b
    ensures KeyLess(a, b) || KeyLess(b, a)
    decreases |a|
  {
    if |a| > 0 && |b| > 0 && a[0] == b[0] {
      assert a == [a[0]] + a[1..] && b == [b[0]] + b[1..];
      KeyLessTotal(a[1..], b[1..]);
    }
  }

  /** `x` comes before `y` in the timestamp index. */
  predicate IndexLess(x: SavedImage, y: SavedImage)
  {
    x.timestamp < y.timestamp || (x.timestamp == y.timestamp && KeyLess(x.id, y.id))
  }

  lemma IndexLessTransitive(x: SavedImage, y: SavedImage, z: SavedImage)
    requires IndexLess(x, y) && IndexLess(y, z)
    ensures IndexLess(x, z)
  {
    if x.timestamp == y.timestamp == z.timestamp {
      KeyLessTransitive(x.id, y.id, z.id);
    }
  }

  /** A list is in strict index order. */
  predicate IndexOrdered(s: seq<SavedImage>)
  {
    forall i, j :: 0 <= i < j < |s| ==> IndexLess(s[i], s[j])
  }

  /** The object store's records are keyed by their own `id` (key path "id"). */
  ghost predicate KeyedById(records: map<string, SavedImage>)
  {
    forall k :: k in records ==> records[k].id == k
  }

  /** `index` lists every record of `records` in index order, and nothing else. */
  ghost predicate Indexes(index: seq<SavedImage>, records: map<string, SavedImage>)
  {
    && IndexOrdered(index)
    && (forall i :: 0 <= i < |index| ==> index[i].id in records && records[index[i].id] == index[i])
    && (forall k :: k in records ==> records[k] in index)
  }

  /** Where the engine places a newly stored record in the index: after every record that sorts before it. */
  function InsertIndexed(s: seq<SavedImage>, x: SavedImage): (r: seq<SavedImage>)
    ensures multiset(r) == multiset(s) + multiset{x}
    ensures |r| == |s| + 1
  {
    if s == [] then [x]
    else if IndexLess(x, s[0]) then [x] + s
    else
      assert s == [s[0]] + s[1..];
      [s[0]] + InsertIndexed(s[1..], x)
  }

  lemma {:induction false} InsertKeepsOrder(s: seq<SavedImage>, x: SavedImage)
    requires IndexOrdered(s)
    requires forall y :: y in s ==> y.id != x.id
    ensures IndexOrdered(InsertIndexed(s, x))
  {
    if s == [] {
    } else if IndexLess(x, s[0]) {
      forall j | 0 <= j < |s| ensures IndexLess(x, s[j]) {
        if j > 0 { IndexLessTransitive(x, s[0], s[j]); }
      }
    } else {
      assert s[0] in s;
      KeyLessTotal(x.id, s[0].id);
      assert IndexLess(s[0], x);
      InsertKeepsOrder(s[1..], x);
      var r := InsertIndexed(s[1..], x);
      forall y | y in r ensures IndexLess(s[0], y) {
        assert y in multiset(r);
      }
      var t := [s[0]] + r;
      forall i, j | 0 <= i < j < |t| ensures IndexLess(t[i], t[j]) {
        if i == 0 { assert t[j] == r[j - 1] && t[j] in r; }
        else { assert t[i] == r[i - 1] && t[j] == r[j - 1]; }
      }
    }
  }

  lemma {:induction false} RemoveKeepsOrder(s: seq<SavedImage>, id: string)
    requires IndexOrdered(s)
    ensures IndexOrdered(RemoveById(s, id))
  {
    if s != [] {
      RemoveKeepsOrder(s[1..], id);
    }
  }

  /** Deleting the id of a record just added to the index gives back the index as it was. */
  lemma {:induction false} RemoveUndoesInsert(s: seq<SavedImage>, x: SavedImage)
    requires forall y :: y in s ==> y.id != x.id
    ensures RemoveById(InsertIndexed(s, x), x.id) == s
  {
    if s == [] || IndexLess(x, s[0]) {
      RemoveAbsentId(s, x.id);
    } else {
      assert s[0] in s;
      RemoveUndoesInsert(s[1..], x);
    }
  }

  /** Records listed in index order all carry different ids. */
  lemma IndexedIdsDistinct(index: seq<SavedImage>, records: map<string, SavedImage>)
    requires Indexes(index, records)
    ensures forall i, j :: 0 <= i < j < |index| ==> index[i].id != index[j].id
  {
    forall i, j | 0 <= i < j < |index| ensures index[i].id != index[j].id {
      if index[i].id == index[j].id {
        KeyLessIrreflexive(index[i].id);
      }
    }
  }

  /** The index is empty exactly when the object store is. */
  lemma IndexEmptyIff(index: seq<SavedImage>, records: map<string, SavedImage>)
    requires Indexes(index, records)
    ensures index == [] <==> records == map[]
  {
    if records != map[] {
      var k :| k in records;
      assert records[k] in index;
    }
    if index != [] {
      assert index[0].id in records;
    }
  }

  /** Adding a record with a fresh id keeps the index in step with the store. */
  lemma IndexesAfterInsert(index: seq<SavedImage>, records: map<string, SavedImage>, x: SavedImage)
    requires KeyedById(records) && Indexes(index, records)
    requires x.id !in records
    ensures Indexes(InsertIndexed(index, x), records[x.id := x])
  {
    InsertKeepsOrder(index, x);
    var r := InsertIndexed(index, x);
    var m := records[x.id := x];
    forall y | y in r ensures y.id in m && m[y.id] == y {
      assert y in multiset(r);
    }
    forall k | k in m ensures m[k] in r {
      assert m[k] in multiset(r);
    }
  }

  /** Deleting a key keeps the index in step with the store. */
  lemma IndexesAfterRemove(index: seq<SavedImage>, records: map<string, SavedImage>, id: string)
    requires KeyedById(records) && Indexes(index, records)
    ensures Indexes(RemoveById(index, id), records - {id})
  {
    RemoveKeepsOrder(index, id);
  }
}
