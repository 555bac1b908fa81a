# Photo persistence of a browser camera app, in Dafny

The app captures still frames from a camera in the browser and keeps them on the device.
It has two independent ways of keeping them, and this project models both, with the small
pure rules of the camera screen.

- **The IndexedDB store** (`lib/indexeddb.ts`). It uses database `web-camera-db` at version 1,
  with one object store `images`. The store is keyed by `id` and has a non-unique `timestamp` index.
  A module-level connection is opened once and then reused. There are five operations: save
  (`add`, never overwrites), list all (through the index), delete by id, latest, and an estimate
  of storage use. Module `ImageDb` models this as the class `ImageDatabase`. The class holds the
  persisted version and object stores, the records by primary key, the index as a list in index
  order, the cached connection, and a count of open requests. Module `IndexOrder` states the
  index order that the Indexed Database API prescribes: by index key (timestamp), then by primary
  key (id), with string keys compared character by character. It also says where the engine
  places a stored record and what a delete leaves.
- **The localStorage list `"camera-images"`**. The camera screen (`components/camera-view.tsx`)
  appends every capture to it and shows its last element as the thumbnail. The gallery
  (`app/preview-list/page.tsx`) loads the list, deletes by id with a filter, and writes the
  result back. Module `CameraView` models the camera screen as the class `CameraScreen`, plus the
  pure zoom and camera-switch updaters. Module `PreviewList` models the gallery as pure functions
  over its page state. Module `Images` holds what both share: the `SavedImage` record, the
  storage value, and the filter-by-id. Module `Decimal` models `Date.now().toString()` and the
  `${timestamp}` in the download name, with a parser as its inverse.

Behaviour fixed by the code:
- `getLatestImage` sorts the fetched list with a stable sort by descending timestamp and takes
  the first element. The list arrives in index order, so on equal timestamps the record with
  the **smallest** id wins.
- `getAllImages` returns records in ascending timestamp order, as the index delivers them.
- The localStorage list does not check ids for uniqueness. Deleting an id in the gallery removes
  every record that carries it.
- When the canvas gives no 2D context, `capturePhoto` sets `isCapturing` and never starts the
  timer that clears it. `CameraScreen.CapturePhoto` keeps that behaviour.

## Model

| member | source | states |
|---|---|---|
| `Images.StoredImages` | components/camera-view.tsx:151-152 | both pages read the list stored under `camera-images`, or an empty list when the key is missing |
| `Images.RemoveById` | app/preview-list/page.tsx:34 | the filter keeps exactly the records whose id differs (by multiplicity), and the length drops by the number of matching records |
| `Images.RemoveAbsentId` | app/preview-list/page.tsx:34 | filtering out an id no record carries returns the list unchanged |
| `Images.RemoveByIdIdempotent` | app/preview-list/page.tsx:34 | filtering the same id twice equals filtering it once |
| `Images.RemoveByIdAppend` | app/preview-list/page.tsx:34 | the filter distributes over concatenation, so survivors keep their relative order |
| `Decimal.NumberToString` | components/camera-view.tsx:154 | the text of a non-negative integer is non-empty decimal digits without a leading zero; a negative one gets a minus sign before such digits |
| `Decimal.DigitsRoundTrip` | components/camera-view.tsx:154 | the decimal digits of a non-negative integer parse back to it |
| `Decimal.NumberRoundTrip` | components/camera-view.tsx:154 | the decimal text of any integer, sign included, parses back to it |
| `Decimal.NumberToStringInjective` | components/camera-view.tsx:154 | different integers have different decimal texts |
| `IndexOrder.InsertIndexed` | lib/indexeddb.ts:52 | storing a record adds exactly that record to the index, one element longer |
| `IndexOrder.InsertKeepsOrder` | lib/indexeddb.ts:52 | adding a record with a fresh id keeps the index in strict (timestamp, id) order |
| `IndexOrder.RemoveKeepsOrder` | lib/indexeddb.ts:91 | deleting keeps the index in strict (timestamp, id) order |
| `IndexOrder.RemoveUndoesInsert` | lib/indexeddb.ts:91 | deleting the id of a record just stored gives back the previous index |
| `IndexOrder.IndexedIdsDistinct` | lib/indexeddb.ts:71-72 | an index consistent with the store lists each id at most once |
| `IndexOrder.IndexEmptyIff` | lib/indexeddb.ts:72 | the index is empty exactly when the object store is empty |
| `IndexOrder.IndexesAfterInsert` | lib/indexeddb.ts:52 | after `add` of a fresh id, the index lists exactly the new store's records in order |
| `IndexOrder.IndexesAfterRemove` | lib/indexeddb.ts:91 | after `delete`, the index lists exactly the remaining records in order |
| `ImageDb.DataLength` | lib/indexeddb.ts:120-123 | the summed data URL length is 0 for no records and at least each record's own length |
| `ImageDb.DataLengthAppend` | lib/indexeddb.ts:120-123 | the summed data length grows by one record's length when that record is appended |
| `ImageDb.DataLengthInsert` | lib/indexeddb.ts:122 | storing a record adds exactly its data URL length to the total |
| `ImageDb.DataLengthRemove` | lib/indexeddb.ts:122 | deleting never raises the total data length |
| `ImageDb.UsageEstimate` | lib/indexeddb.ts:116-126 | the estimate is non-negative and 0 for an empty list |
| `ImageDb.UsageGrowsOnSave` | lib/indexeddb.ts:122 | a save raises the estimate by exactly 0.75 times the new data URL length, so it never decreases |
| `ImageDb.UsageShrinksOnDelete` | lib/indexeddb.ts:122 | a delete never raises the estimate |
| `ImageDb.InsertNewestFirst` | lib/indexeddb.ts:111 | one insertion step of the sort adds exactly the inserted record |
| `ImageDb.SortNewestFirst` | lib/indexeddb.ts:111 | the sort returns a permutation of the fetched list |
| `ImageDb.InsertNewestFirstOrdered` | lib/indexeddb.ts:111 | one insertion step keeps the list in descending timestamp order |
| `ImageDb.SortNewestFirstOrdered` | lib/indexeddb.ts:111 | the sort's result is in descending timestamp order |
| `ImageDb.FirstNewest` | lib/indexeddb.ts:111-112 | the position of a record with the largest timestamp, before which every timestamp is smaller |
| `ImageDb.SortedHeadIsFirstNewest` | lib/indexeddb.ts:111-112 | the stable sort's first element is the first record with the largest timestamp |
| `ImageDb.FirstNewestHasLeastId` | lib/indexeddb.ts:111-112 | in index order the first newest record has a smaller id than every other record with its timestamp |
| `ImageDb.ScenarioListing` | lib/indexeddb.ts:65-82 | saving timestamps 100, 300, 200 under ids a, b, c lists them as a, c, b |
| `ImageDb.ScenarioLatest` | lib/indexeddb.ts:104-113 | of those three the latest is b |
| `ImageDb.ScenarioUsage` | lib/indexeddb.ts:116-126 | of those three the estimate is 3 |
| `ImageDb.ScenarioDelete` | lib/indexeddb.ts:85-101 | deleting b leaves a, c; deleting an id never saved leaves all three |
| `ImageDb.ImageDatabase.constructor` | lib/indexeddb.ts:13 | a fresh module has no cached connection, over a database not yet created |
| `ImageDb.ImageDatabase.Reloaded` | lib/indexeddb.ts:13 | after a page reload the version-1 database keeps its records and index, and the module starts again with no cached connection |
| `ImageDb.ImageDatabase.OnUpgradeNeeded` | lib/indexeddb.ts:33-41 | the `images` store with key path `id` and the non-unique `timestamp` index is created only when the store is absent; otherwise nothing changes |
| `ImageDb.ImageDatabase.InitDb` | lib/indexeddb.ts:16-43 | with a cached connection: returns it and changes nothing, no new open request; otherwise one open request, and on success an upgraded database and the new connection cached |
| `ImageDb.ImageDatabase.SaveImage` | lib/indexeddb.ts:46-62 | succeeds iff the database opens, the request does not fail and the id is fresh; then the store gains exactly that record; otherwise store and index are unchanged and the error says which step failed; a cached connection is reused with no new open request, and a connection opened during the call stays cached |
| `ImageDb.ImageDatabase.GetAllImages` | lib/indexeddb.ts:65-82 | on success returns every stored record once, in strict (timestamp, id) order, and an empty list for an empty store; the store is unchanged; a cached connection is reused with no new open request, and a connection opened during the call stays cached |
| `ImageDb.ImageDatabase.DeleteImage` | lib/indexeddb.ts:85-101 | on success the record with that key is gone and nothing else changes, also when there was none; a failure changes nothing; a cached connection is reused with no new open request, and a connection opened during the call stays cached |
| `ImageDb.ImageDatabase.RemoveRecord` | lib/indexeddb.ts:91 | the `delete` request removes the key from the store and the id from the index, keeping them in step |
| `ImageDb.ImageDatabase.GetLatestImage` | lib/indexeddb.ts:104-113 | null iff the store is empty; otherwise a stored record with the largest timestamp and the smallest id among those sharing it; a cached connection is reused with no new open request, and a connection opened during the call stays cached |
| `ImageDb.ImageDatabase.GetStorageUsage` | lib/indexeddb.ts:116-126 | the loop's total equals 0.75 times the summed data URL lengths of all stored records; a cached connection is reused with no new open request, and a connection opened during the call stays cached |
| `CameraView.ZoomAfter` | components/camera-view.tsx:171-173 | the new zoom lies in [1, 3], equals `prev + delta` when that is in range, and is the nearer bound otherwise |
| `CameraView.ZoomButtonsStayOnGrid` | components/camera-view.tsx:299-317 | from 1, 1.5, ..., 3 a ±0.5 press moves one half step, and stays at 3 (resp. 1) at the end of the range |
| `CameraView.NextCameraIndex` | components/camera-view.tsx:123-127 | with more than one camera the index advances by one and wraps to 0 after the last; with at most one it stays |
| `CameraView.SwitchingAdvances` | components/camera-view.tsx:125 | presses that do not pass the last camera each advance the index by one |
| `CameraView.SwitchingComposes` | components/camera-view.tsx:125 | `a` presses followed by `b` presses are `a + b` presses |
| `CameraView.FullCycleReturns` | components/camera-view.tsx:125 | as many presses as cameras return to the starting camera, staying in range on the way |
| `CameraView.CapturedImage` | components/camera-view.tsx:153-157 | the new record's id is exactly the decimal text of the first `Date.now()` and reads back as it; its data and timestamp are the captured ones |
| `CameraView.CaptureIdsDiffer` | components/camera-view.tsx:154 | captures at different milliseconds get different ids |
| `CameraView.StoreCapture` | components/camera-view.tsx:151-159 | the stored list gains the new record at its end with earlier records kept in order; other keys are untouched |
| `CameraView.LastDataUrl` | components/camera-view.tsx:63-71 | there is a thumbnail to load iff the stored list is non-empty, and it is a stored record's data URL |
| `CameraView.CaptureIsLastImage` | components/camera-view.tsx:158-161 | after a capture the thumbnail a reload would show is the captured image, and the capture adds no other record with its id |
| `CameraView.CameraScreen.constructor` | components/camera-view.tsx:24-32 | the screen starts at zoom 1, not capturing, with no thumbnail, no cameras and camera index 0 |
| `CameraView.CameraScreen.LoadLastImage` | components/camera-view.tsx:63-71 | the thumbnail becomes the last stored data URL, and stays unchanged when the key is missing or the list is empty |
| `CameraView.CameraScreen.CamerasFound` | components/camera-view.tsx:57 | the camera count is set from enumeration and the index is not reset |
| `CameraView.CameraScreen.SwitchCamera` | components/camera-view.tsx:123-127 | the index advances cyclically, staying below the count when there is more than one camera, and is unchanged otherwise |
| `CameraView.CameraScreen.AdjustZoom` | components/camera-view.tsx:171-173 | the zoom becomes the clamped sum and stays in [1, 3] |
| `CameraView.CameraScreen.CapturePhoto` | components/camera-view.tsx:129-169 | nothing happens while capturing or unmounted; otherwise `isCapturing` is set, and with a 2D context the record is appended to the stored list and becomes the thumbnail |
| `CameraView.CameraScreen.ShutterTimerFires` | components/camera-view.tsx:164-166 | the timer clears `isCapturing` |
| `PreviewList.Mount` | app/preview-list/page.tsx:18-24 | the page shows the stored list when the key exists and an empty list otherwise |
| `PreviewList.DeleteImage` | app/preview-list/page.tsx:33-37 | the kept photos are exactly those with another id, each with its multiplicity, the length drops by the number removed, the key is always written and its list equals the shown list, and other keys are untouched |
| `PreviewList.DeleteAbsentKeepsImages` | app/preview-list/page.tsx:34 | deleting an id no photo carries keeps every photo |
| `PreviewList.DeleteIdempotent` | app/preview-list/page.tsx:33-37 | deleting the same id twice leaves the page as deleting it once |
| `PreviewList.DeleteKeepsOrder` | app/preview-list/page.tsx:34 | surviving photos keep their relative order |
| `PreviewList.DeleteThenRemount` | app/preview-list/page.tsx:35-36 | after a delete, mounting the gallery again shows the same list, which is the stored list with that id filtered out |
| `PreviewList.DownloadFileName` | app/preview-list/page.tsx:29 | the name is `photo-`, then exactly the decimal text of the photo's timestamp, which parses back to it, then `.png` |
| `PreviewList.DownloadFileNameRoundTrip` | app/preview-list/page.tsx:29 | the name `photo-<timestamp>.png` reads back as the photo's timestamp |
| `PreviewList.DownloadFileNamesDiffer` | app/preview-list/page.tsx:29 | photos with different timestamps download under different names |

## Left out

- Asynchrony: promises, request callbacks and transactions are collapsed into one atomic step per operation. The race in which concurrent `initDB` calls each open a connection before `db` is set is not modelled.
- Host answers are parameters (`HostResponse`): whether `indexedDB.open` succeeds and whether the operation's single request fails. The model takes a request's success as its transaction's commit, as `saveImage` and `deleteImage` do when they resolve on `request.onsuccess` (lib/indexeddb.ts:54-56, 93-95).
- Commit-time aborts are not modelled. An example is a QuotaExceededError raised when the transaction commits. The source has already resolved the promise by then, so the call reports success and the write is lost.
- Blocked opens are not modelled. `initDB` sets no `onblocked` handler (lib/indexeddb.ts:21-42), so an open blocked by another connection leaves the promise pending rather than rejected.
- Synchronous exceptions are not modelled. One example is `database.transaction` on a connection the browser has closed. Such an exception rejects with the browser's own DOMException, not with the function's own error, and the cached `db` is never reset.
- DataLength: sums Dafny characters, whereas `dataUrl.length` counts UTF-16 code units. The two agree on data URLs, which are ASCII.
- The persisted database is assumed to be touched only by this module. So version 0 means "not created", and any created database is version 1 with exactly the `images` store.
- SortNewestFirst: stability is stated only through its first element (`SortedHeadIsFirstNewest`), the one element `getLatestImage` uses, not as a general property of the whole result.
- GetLatestImage: `Array.prototype.sort` works in place on the freshly fetched array. The model computes the sorted copy as a function of that snapshot, which no other code can see.
- Key order compares strings by Dafny characters (Unicode scalar values), not UTF-16 code units. The two differ only for ids with characters outside the Basic Multilingual Plane. Ids produced by the app are decimal digits.
- Floating point: zoom and the storage estimate are exact reals. Half steps and `length * 0.75` are exact in binary floating point for realistic lengths; the rounding of very large sums is not modelled.
- Times: `Date.now()` readings are non-negative integer parameters. `Number#toString` is modelled for integers only; exponent notation from 1e21 up is not modelled.
- JSON: localStorage values are the parsed lists (serialisation is taken as an identity round trip). A `setItem` that throws on a full quota is not modelled.
- Camera hardware and the media stack: `getUserMedia`, device enumeration (only its count enters, through `CamerasFound`), stopping tracks, canvas drawing with the zoom transform, and `toDataURL` (its result is the `imageData` parameter). Camera error messages and `toLocaleString` formatting are left out too.
- React: state updates are applied immediately. The stale `isCapturing` seen by two clicks within one render is not modelled.
- `downloadImage` is modelled only as its file name; creating and clicking the link is DOM work.
- `components/camera-app.tsx`, `public/sw.js`, `components/pwa-register.tsx`, `app/page.tsx` and `app/camera/page.tsx` are UI, routing or service-worker caching with no data logic, and are not part of this model.
