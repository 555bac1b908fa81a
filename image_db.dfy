/**
 * The IndexedDB photo store of lib/indexeddb.ts: database "web-camera-db", version 1,
 * one object store "images" keyed by "id" with a non-unique "timestamp" index, and a
 * module-level connection that is opened once and then reused.
 */
module ImageDb {
  import opened Images
  import opened IndexOrder

  const DbName := "web-camera-db"
  const DbVersion: nat := 1
  const StoreName := "images"

  datatype IndexSchema = IndexSchema(name: string, keyPath: string, unique: bool)
  datatype StoreSchema = StoreSchema(keyPath: string, indexes: seq<IndexSchema>)

  /** What the upgrade handler creates: key path "id" and the non-unique "timestamp" index. */
  const ImagesSchema := StoreSchema("id", [IndexSchema("timestamp", "timestamp", false)])

  /** An open connection; `serial` tells apart the connections produced by successive open requests. */
  datatype Connection = Connection(name: string, version: nat, serial: nat)

  /** The error each function rejects with when its open or its request reports failure. */
  datatype DbError = InitFailed | SaveFailed | ReadFailed | DeleteFailed

  datatype Result<T> = Ok(value: T) | Err(error: DbError)

  datatype Status = Done | Failed(error: DbError)

  /** How the browser answers: whether `indexedDB.open` succeeds, and whether the one request an operation issues fails. */
  datatype HostResponse = HostResponse(openAllowed: bool, requestFault: bool)

  /** Sum of `dataUrl.length` over a list of records. */
  function DataLength(s: seq<SavedImage>): (total: nat)
    ensures s == [] ==> total == 0
    ensures forall i :: 0 <= i < |s| ==> |s[i].dataUrl| <= total
  {
    if s == [] then 0 else |s[0].dataUrl| + DataLength(s[1..])
  }

  lemma {:induction false} DataLengthAppend(s: seq<SavedImage>, x: SavedImage)
    ensures DataLength(s + [x]) == DataLength(s) + |x.dataUrl|
  {
    if s != [] {
      assert (s + [x])[1..] == s[1..] + [x];
      DataLengthAppend(s[1..], x);
    }
  }

  /** Storing a record adds exactly its data length to the total. */
  lemma {:induction false} DataLengthInsert(s: seq<SavedImage>, x: SavedImage)
    ensures DataLength(InsertIndexed(s, x)) == DataLength(s) + |x.dataUrl|
  {
    if s != [] && !IndexLess(x, s[0]) {
      DataLengthInsert(s[1..], x);
    }
  }

  /** Deleting records never adds to the total. */
  lemma {:induction false} DataLengthRemove(s: seq<SavedImage>, id: string)
    ensures DataLength(RemoveById(s, id)) <= DataLength(s)
  {
    if s != [] {
      DataLengthRemove(s[1..], id);
    }
  }

  /** The estimate `getStorageUsage` reports for a list: three quarters of its total data length. */
  function UsageEstimate(s: seq<SavedImage>): (r: real)
    ensures r >= 0.0
    ensures s == [] ==> r == 0.0
  {
    (DataLength(s) as real) * 0.75
  }

  lemma UsageGrowsOnSave(s: seq<SavedImage>, x: SavedImage)
    ensures UsageEstimate(InsertIndexed(s, x)) == UsageEstimate(s) + (|x.dataUrl| as real) * 0.75
    ensures UsageEstimate(InsertIndexed(s, x)) >= UsageEstimate(s)
  {
    DataLengthInsert(s, x);
  }

  lemma UsageShrinksOnDelete(s: seq<SavedImage>, id: string)
    ensures UsageEstimate(RemoveById(s, id)) <= UsageEstimate(s)
  {
    DataLengthRemove(s, id);
  }

  /** Where `images.sort((a, b) => b.timestamp - a.timestamp)` puts `x` in an already sorted list:
      before the first record with a timestamp not above its own, so equal timestamps keep their order. */
  function InsertNewestFirst(x: SavedImage, t: seq<SavedImage>): (r: seq<SavedImage>)
    ensures multiset(r) == multiset(t) + multiset{x}
    ensures |r| == |t| + 1
  {
    if t == [] || x.timestamp >= t[0].timestamp then [x] + t
    else
      assert t == [t[0]] + t[1..];
      [t[0]] + InsertNewestFirst(x, t[1..])
  }

  /** The stable sort by descending timestamp that `getLatestImage` applies to the fetched list. */
  function SortNewestFirst(s: seq<SavedImage>): (r: seq<SavedImage>)
    ensures multiset(r) == multiset(s)
    ensures |r| == |s|
  {
    if s == [] then []
    else
      assert s == [s[0]] + s[1..];
      InsertNewestFirst(s[0], SortNewestFirst(s[1..]))
  }

  predicate NewestFirst(s: seq<SavedImage>)
  {
    forall i, j :: 0 <= i < j < |s| ==> s[i].timestamp >= s[j].timestamp
  }

  lemma {:induction false} InsertNewestFirstOrdered(x: SavedImage, t: seq<SavedImage>)
    requires NewestFirst(t)
    ensures NewestFirst(InsertNewestFirst(x, t))
  {
    if t != [] && x.timestamp < t[0].timestamp {
      InsertNewestFirstOrdered(x, t[1..]);
      var r := InsertNewestFirst(x, t[1..]);
      forall y | y in r ensures y.timestamp <= t[0].timestamp {
        assert y in multiset(r);
      }
      var u := [t[0]] + r;
      forall i, j | 0 <= i < j < |u| ensures u[i].timestamp >= u[j].timestamp {
        if i == 0 { assert u[j] == r[j - 1] && u[j] in r; }
        else { assert u[i] == r[i - 1] && u[j] == r[j - 1]; }
      }
    }
  }

  /** The sort yields its input rearranged into descending timestamp order. */
  lemma {:induction false} SortNewestFirstOrdered(s: seq<SavedImage>)
    ensures NewestFirst(SortNewestFirst(s))
  {
    if s != [] {
      SortNewestFirstOrdered(s[1..]);
      InsertNewestFirstOrdered(s[0], SortNewestFirst(s[1..]));
    }
  }

  /** Position of the first record in `s` whose timestamp is the largest. */
  function FirstNewest(s: seq<SavedImage>): (k: nat)
    requires |s| > 0
    ensures k < |s|
    ensures forall i :: 0 <= i < |s| ==> s[i].timestamp <= s[k].timestamp
    ensures forall i :: 0 <= i < k ==> s[i].timestamp < s[k].timestamp
  {
    if |s| == 1 then 0
    else
      var k := FirstNewest(s[1..]);
      if s[0].timestamp >= s[k + 1].timestamp then 0 else k + 1
  }

  /** Because the sort is stable, its first element is the first newest record of its input. */
  lemma {:induction false} SortedHeadIsFirstNewest(s: seq<SavedImage>)
    requires |s| > 0
    ensures SortNewestFirst(s)[0] == s[FirstNewest(s)]
  {
    if |s| > 1 {
      SortedHeadIsFirstNewest(s[1..]);
    }
  }

  /** In index order the first newest record has the smallest id among the records sharing its timestamp. */
  lemma FirstNewestHasLeastId(s: seq<SavedImage>)
    requires |s| > 0 && IndexOrdered(s)
    ensures forall i :: 0 <= i < |s| && i != FirstNewest(s) && s[i].timestamp == s[FirstNewest(s)].timestamp
              ==> KeyLess(s[FirstNewest(s)].id, s[i].id)
  {
  }

  /** The store as lib/indexeddb.ts sees it: the persisted database and the cached connection. */
  class ImageDatabase {
    /** Version of the persisted database; 0 while it does not exist yet. */
    var version: nat
    /** The database's object stores by name. */
    var stores: map<string, StoreSchema>
    /** Contents of the "images" object store, by primary key. */
    var records: map<string, SavedImage>
    /** The "timestamp" index: the same records in index order. */
    var index: seq<SavedImage>
    /** The module-level `db` variable. */
    var db: Option<Connection>
    /** How many times `indexedDB.open` has been called. */
    var openRequests: nat

    ghost predicate Valid()
      reads this
    {
      && KeyedById(records)
      && Indexes(index, records)
      && (version == 0 ==> stores == map[] && records == map[])
      && (version != 0 ==> version == DbVersion && stores == map[StoreName := ImagesSchema])
      && (db.Some? ==> version == DbVersion && db.value.name == DbName && db.value.version == DbVersion
                       && db.value.serial < openRequests)
    }

    /** A browser in which the database has never been created, and a freshly loaded module. */
    constructor ()
      ensures Valid()
      ensures version == 0 && records == map[] && index == [] && db == None && openRequests == 0
    {
      version, stores, records, index := 0, map[], map[], [];
      db, openRequests := None, 0;
    }

    /** A page reload over a database created earlier: its records and their index persist,
        while the freshly loaded module has no cached connection. */
    constructor Reloaded(records: map<string, SavedImage>, index: seq<SavedImage>, openRequests: nat)
      requires KeyedById(records) && Indexes(index, records)
      ensures Valid()
      ensures version == DbVersion && stores == map[StoreName := ImagesSchema]
      ensures this.records == records && this.index == index && db == None && this.openRequests == openRequests
    {
      version, stores := DbVersion, map[StoreName := ImagesSchema];
      this.records, this.index := records, index;
      db, this.openRequests := None, openRequests;
    }

    /** The `onupgradeneeded` handler: creates the "images" store and its index only when the store is absent. */
    method OnUpgradeNeeded()
      modifies this`stores
      ensures StoreName in old(stores) ==> stores == old(stores)
      ensures StoreName !in old(stores) ==> stores == old(stores)[StoreName := ImagesSchema]
    {
      if StoreName !in stores {
        stores := stores[StoreName := ImagesSchema];
      }
    }

    /** `initDB`: returns the cached connection when there is one; otherwise opens the database,
        upgrading it to version 1 if needed, and caches the new connection. */
    method InitDb(host: HostResponse) returns (r: Result<Connection>)
      requires Valid()
      modifies this
      ensures Valid()
      ensures records == old(records) && index == old(index)
      ensures old(db).Some? ==> r == Ok(old(db).value) && unchanged(this)
      ensures old(db).None? ==> openRequests == old(openRequests) + 1
      ensures old(db).None? && !host.openAllowed ==>
                r == Err(InitFailed) && db == None && version == old(version) && stores == old(stores)
      ensures old(db).None? && host.openAllowed ==>
                && r == Ok(Connection(DbName, DbVersion, old(openRequests)))
                && db == Some(r.value)
                && version == DbVersion && StoreName in stores && stores[StoreName] == ImagesSchema
    {
      if db.Some? {
        return Ok(db.value);
      }
      var serial := openRequests;
      openRequests := openRequests + 1;
      if !host.openAllowed {
        return Err(InitFailed);
      }
      if version < DbVersion {
        OnUpgradeNeeded();
        version := DbVersion;
      }
      var connection := Connection(DbName, DbVersion, serial);
      db := Some(connection);
      r := Ok(connection);
    }

    /** `saveImage`: `add` stores a record under a fresh id and never overwrites an existing one. */
    method SaveImage(image: SavedImage, host: HostResponse) returns (r: Status)
      requires Valid()
      modifies this
      ensures Valid()
      ensures db.Some? <==> old(db).Some? || host.openAllowed
      ensures old(db).Some? ==> db == old(db) && openRequests == old(openRequests)
      ensures old(db).None? ==> openRequests == old(openRequests) + 1
      ensures r == Done <==> (old(db).Some? || host.openAllowed) && !host.requestFault && image.id !in old(records)
      ensures r == Done ==> records == old(records)[image.id := image] && index == InsertIndexed(old(index), image)
      ensures r != Done ==> records == old(records) && index == old(index)
      ensures old(db).None? && !host.openAllowed ==> r == Failed(InitFailed)
      ensures (old(db).Some? || host.openAllowed) && r != Done ==> r == Failed(SaveFailed)
    {
      var c := InitDb(host);
      if c.Err? {
        return Failed(c.error);
      }
      if host.requestFault || image.id in records {
        return Failed(SaveFailed);
      }
      IndexesAfterInsert(index, records, image);
      records := records[image.id := image];
      index := InsertIndexed(index, image);
      r := Done;
    }

    /** `getAllImages`: every stored record once, through the "timestamp" index. */
    method GetAllImages(host: HostResponse) returns (r: Result<seq<SavedImage>>)
      requires Valid()
      modifies this
      ensures Valid()
      ensures records == old(records) && index == old(index)
      ensures db.Some? <==> old(db).Some? || host.openAllowed
      ensures old(db).Some? ==> db == old(db) && openRequests == old(openRequests)
      ensures old(db).None? ==> openRequests == old(openRequests) + 1
      ensures r.Ok? <==> (old(db).Some? || host.openAllowed) && !host.requestFault
      ensures old(db).None? && !host.openAllowed ==> r == Err(InitFailed)
      ensures (old(db).Some? || host.openAllowed) && r.Err? ==> r == Err(ReadFailed)
      ensures r.Ok? ==> r.value == index
      ensures r.Ok? ==> IndexOrdered(r.value)
      ensures r.Ok? ==> forall x :: x in r.value <==> x.id in records && records[x.id] == x
      ensures r.Ok? ==> forall i, j :: 0 <= i < j < |r.value| ==> r.value[i].id != r.value[j].id
      ensures r.Ok? ==> (r.value == [] <==> records == map[])
    {
      var c := InitDb(host);
      if c.Err? {
        return Err(c.error);
      }
      if host.requestFault {
        return Err(ReadFailed);
      }
      IndexedIdsDistinct(index, records);
      IndexEmptyIff(index, records);
      r := Ok(index);
    }

    /** `deleteImage`: removes the record with that key, and succeeds also when there is none. */
    method DeleteImage(id: string, host: HostResponse) returns (r: Status)
      requires Valid()
      modifies this
      ensures Valid()
      ensures db.Some? <==> old(db).Some? || host.openAllowed
      ensures old(db).Some? ==> db == old(db) && openRequests == old(openRequests)
      ensures old(db).None? ==> openRequests == old(openRequests) + 1
      ensures r == Done <==> (old(db).Some? || host.openAllowed) && !host.requestFault
      ensures r == Done ==> records == old(records) - {id} && index == RemoveById(old(index), id)
      ensures r != Done ==> records == old(records) && index == old(index)
      ensures old(db).None? && !host.openAllowed ==> r == Failed(InitFailed)
      ensures (old(db).Some? || host.openAllowed) && r != Done ==> r == Failed(DeleteFailed)
    {
      var c := InitDb(host);
      if c.Err? {
        return Failed(c.error);
      }
      if host.requestFault {
        return Failed(DeleteFailed);
      }
      RemoveRecord(id);
      r := Done;
    }

    /** The `delete` request's effect on the store and its index, once the transaction is open. */
    method RemoveRecord(id: string)
      requires Valid()
      modifies this`records, this`index
      ensures Valid()
      ensures records == old(records) - {id} && index == RemoveById(old(index), id)
    {
      IndexesAfterRemove(index, records, id);
      var remaining, reindexed := records - {id}, RemoveById(index, id);
      assert KeyedById(remaining);
      assert version == 0 ==> remaining == map[];
      records, index := remaining, reindexed;
    }

    /** `getLatestImage`: null for an empty store, otherwise the head of the list sorted newest first. */
    method GetLatestImage(host: HostResponse) returns (r: Result<Option<SavedImage>>)
      requires Valid()
      modifies this
      ensures Valid()
      ensures records == old(records) && index == old(index)
      ensures db.Some? <==> old(db).Some? || host.openAllowed
      ensures old(db).Some? ==> db == old(db) && openRequests == old(openRequests)
      ensures old(db).None? ==> openRequests == old(openRequests) + 1
      ensures r.Ok? <==> (old(db).Some? || host.openAllowed) && !host.requestFault
      ensures old(db).None? && !host.openAllowed ==> r == Err(InitFailed)
      ensures (old(db).Some? || host.openAllowed) && r.Err? ==> r == Err(ReadFailed)
      ensures r.Ok? ==> (r.value == None <==> records == map[])
      ensures r.Ok? && r.value.Some? ==>
                var x := r.value.value;
                && x.id in records && records[x.id] == x
                && (forall k :: k in records ==> records[k].timestamp <= x.timestamp)
                && (forall k :: k in records && k != x.id && records[k].timestamp == x.timestamp ==> KeyLess(x.id, k))
    {
      var all := GetAllImages(host);
      if all.Err? {
        return Err(all.error);
      }
      var images := all.value;
      if |images| == 0 {
        return Ok(None);
      }
      var sorted := SortNewestFirst(images);
      SortedHeadIsFirstNewest(images);
      FirstNewestHasLeastId(images);
      var x := sorted[0];
      forall k | k in records
        ensures records[k].timestamp <= x.timestamp
        ensures k != x.id && records[k].timestamp == x.timestamp ==> KeyLess(x.id, k)
      {
        var i :| 0 <= i < |images| && images[i] == records[k];
        assert images[i].id == k;
      }
      r := Ok(Some(x));
    }

    /** `getStorageUsage`: adds up three quarters of each fetched record's data URL length. */
    method GetStorageUsage(host: HostResponse) returns (r: Result<real>)
      requires Valid()
      modifies this
      ensures Valid()
      ensures records == old(records) && index == old(index)
      ensures db.Some? <==> old(db).Some? || host.openAllowed
      ensures old(db).Some? ==> db == old(db) && openRequests == old(openRequests)
      ensures old(db).None? ==> openRequests == old(openRequests) + 1
      ensures r.Ok? <==> (old(db).Some? || host.openAllowed) && !host.requestFault
      ensures old(db).None? && !host.openAllowed ==> r == Err(InitFailed)
      ensures (old(db).Some? || host.openAllowed) && r.Err? ==> r == Err(ReadFailed)
      ensures r.Ok? ==> r.value == UsageEstimate(index)
    {
      var all := GetAllImages(host);
      if all.Err? {
        return Err(all.error);
      }
      var images := all.value;
      var totalSize := 0.0;
      for i := 0 to |images|
        invariant totalSize == (DataLength(images[..i]) as real) * 0.75
        modifies {}
      {
        DataLengthAppend(images[..i], images[i]);
        assert images[..i + 1] == images[..i] + [images[i]];
        totalSize := totalSize + (|images[i].dataUrl| as real) * 0.75;
      }
      assert images[..|images|] == images;
      r := Ok(totalSize);
    }
  }

  /* Three photos saved in the order a, b, c with timestamps 100, 300 and 200. */
  const PhotoA := SavedImage("a", "A", 100)
  const PhotoB := SavedImage("b", "BB", 300)
  const PhotoC := SavedImage("c", "C", 200)

  /** The index lists them by timestamp: a, c, b. */
  lemma ScenarioListing()
    ensures InsertIndexed(InsertIndexed(InsertIndexed([], PhotoA), PhotoB), PhotoC) == [PhotoA, PhotoC, PhotoB]
  {
    assert InsertIndexed([PhotoA], PhotoB) == [PhotoA] + InsertIndexed([], PhotoB);
    assert IndexLess(PhotoC, PhotoB);
    assert InsertIndexed([PhotoA, PhotoB], PhotoC) == [PhotoA] + InsertIndexed([PhotoB], PhotoC);
  }

  /** The latest of them is b. */
  lemma ScenarioLatest()
    ensures SortNewestFirst([PhotoA, PhotoC, PhotoB])[0] == PhotoB
  {
    SortedHeadIsFirstNewest([PhotoA, PhotoC, PhotoB]);
  }

  /** Their data URLs hold four characters, so the estimate is 3. */
  lemma ScenarioUsage()
    ensures UsageEstimate([PhotoA, PhotoC, PhotoB]) == 3.0
  {
    assert [PhotoA, PhotoC, PhotoB][1..] == [PhotoC, PhotoB] && [PhotoC, PhotoB][1..] == [PhotoB];
    assert |PhotoB.dataUrl| == 2 && |PhotoC.dataUrl| == 1 && |PhotoA.dataUrl| == 1;
    assert DataLength([PhotoB]) == 2;
    assert DataLength([PhotoC, PhotoB]) == 3;
  }

  /** Deleting "b" leaves a, c; deleting an id never saved leaves all three. */
  lemma ScenarioDelete()
    ensures RemoveById([PhotoA, PhotoC, PhotoB], "b") == [PhotoA, PhotoC]
    ensures RemoveById([PhotoA, PhotoC, PhotoB], "x") == [PhotoA, PhotoC, PhotoB]
  {
    assert [PhotoA, PhotoC, PhotoB][1..] == [PhotoC, PhotoB] && [PhotoC, PhotoB][1..] == [PhotoB];
    assert RemoveById([PhotoB], "b") == [];
    RemoveAbsentId([PhotoA, PhotoC, PhotoB], "x");
  }
}
