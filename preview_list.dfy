/**
 * The gallery page (app/preview-list/page.tsx): it loads the "camera-images" list from
 * localStorage once, offers each photo for download, and deletes by id, replacing both
 * its state and the stored list with the filtered list.
 */
module PreviewList {
  import opened Images
  import opened Decimal

  /** The page's `images` state and the localStorage it writes to. */
  datatype GalleryPage = GalleryPage(images: seq<SavedImage>, storage: Storage)

  /** The page after its mount effect: the stored list when the key exists, an empty list otherwise. */
  function Mount(storage: Storage): (page: GalleryPage)
    ensures page.storage == storage
    ensures ImagesKey in storage ==> page.images == storage[ImagesKey]
    ensures ImagesKey !in storage ==> page.images == []
  {
    GalleryPage(StoredImages(storage), storage)
  }

  /** The page shows exactly what localStorage holds. */
  ghost predicate InSync(page: GalleryPage)
  {
    page.images == StoredImages(page.storage)
  }

  /** `deleteImage(id)`: filter out every record with that id, then set the state and the stored list to the result. */
  function DeleteImage(page: GalleryPage, id: string): (after: GalleryPage)
    ensures forall x :: multiset(after.images)[x] == if x.id == id then 0 else multiset(page.images)[x]
    ensures forall x :: x in after.images <==> x in page.images && x.id != id
    ensures |after.images| == |page.images| - CountId(page.images, id)
    ensures InSync(after) && ImagesKey in after.storage
    ensures forall k :: k != ImagesKey ==> (k in after.storage <==> k in page.storage)
    ensures forall k :: k != ImagesKey && k in page.storage ==> after.storage[k] == page.storage[k]
  {
    var updated := RemoveById(page.images, id);
    GalleryPage(updated, page.storage[ImagesKey := updated])
  }

  /** Deleting an id no photo carries changes no photo; it still writes the list back. */
  lemma DeleteAbsentKeepsImages(page: GalleryPage, id: string)
    requires forall x :: x in page.images ==> x.id != id
    ensures DeleteImage(page, id).images == page.images
  {
    RemoveAbsentId(page.images, id);
  }

  /** Deleting the same id twice leaves the page as deleting it once. */
  lemma DeleteIdempotent(page: GalleryPage, id: string)
    ensures DeleteImage(DeleteImage(page, id), id) == DeleteImage(page, id)
  {
    RemoveByIdIdempotent(page.images, id);
  }

  /** Photos that survive a deletion keep their order: deleting from a joined list deletes from each part. */
  lemma DeleteKeepsOrder(front: seq<SavedImage>, back: seq<SavedImage>, storage: Storage, id: string)
    ensures DeleteImage(GalleryPage(front + back, storage), id).images
         == DeleteImage(GalleryPage(front, storage), id).images + DeleteImage(GalleryPage(back, storage), id).images
  {
    RemoveByIdAppend(front, back, id);
  }

  /** A page that starts in step with storage stays in step, and a later mount shows the same list. */
  lemma DeleteThenRemount(page: GalleryPage, id: string)
    requires InSync(page)
    ensures Mount(DeleteImage(page, id).storage).images == DeleteImage(page, id).images
    ensures Mount(DeleteImage(page, id).storage).images == RemoveById(StoredImages(page.storage), id)
  {
  }

  /** The name the download link gives a photo: `photo-${image.timestamp}.png`. */
  function DownloadFileName(image: SavedImage): (name: string)
    ensures |name| >= 11 && name[..6] == "photo-" && name[|name| - 4..] == ".png"
    ensures name[6..|name| - 4] == NumberToString(image.timestamp)
    ensures ParseNumber(name[6..|name| - 4]) == Some(image.timestamp)
  {
    var digits := NumberToString(image.timestamp);
    NumberRoundTrip(image.timestamp);
    var name := "photo-" + digits + ".png";
    assert name[6..|name| - 4] == digits;
    name
  }

  /** Reads the capture time back out of a download file name. */
  function TimestampOfFileName(name: string): Option<int>
  {
    if |name| >= 10 && name[..6] == "photo-" && name[|name| - 4..] == ".png"
    then ParseNumber(name[6..|name| - 4])
    else None
  }

  /** A download file name names its photo's capture time, and nothing else. */
  lemma DownloadFileNameRoundTrip(image: SavedImage)
    ensures TimestampOfFileName(DownloadFileName(image)) == Some(image.timestamp)
  {
    var digits := NumberToString(image.timestamp);
    var name := DownloadFileName(image);
    assert |digits| >= 1 by {
      if image.timestamp >= 0 { assert digits == Digits(image.timestamp); }
    }
    assert name[..6] == "photo-";
    assert name[|name| - 4..] == ".png";
    assert name[6..|name| - 4] == digits;
    NumberRoundTrip(image.timestamp);
  }

  /** Photos taken at different times download under different names. */
  lemma DownloadFileNamesDiffer(a: SavedImage, b: SavedImage)
    requires a.timestamp != b.timestamp
    ensures DownloadFileName(a) != DownloadFileName(b)
  {
    DownloadFileNameRoundTrip(a);
    DownloadFileNameRoundTrip(b);
  }
}
