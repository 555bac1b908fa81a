/** The saved-photo record and the list operations that both photo stores share. */
module Images {

  datatype Option<T> = None | Some(value: T)

  /** One captured photo: a string id, the PNG data URL and the capture time in milliseconds. */
  datatype SavedImage = SavedImage(id: string, dataUrl: string, timestamp: int)

  /** The browser's localStorage; each value is the JSON array stored under its key, already parsed. */
  type Storage = map<string, seq<SavedImage>>

  /** The localStorage key under which the camera view and the gallery keep their photo list. */
  const ImagesKey := "camera-images"

  /** What both pages read from storage: the stored list, or an empty list when the key is missing. */
  function StoredImages(storage: Storage): (images: seq<SavedImage>)
    ensures ImagesKey in storage ==> images == storage[ImagesKey]
    ensures ImagesKey !in storage ==> images == []
  {
    if ImagesKey in storage then storage[ImagesKey] else []
  }

  /** How many records of `images` carry the id `id`. */
  function CountId(images: seq<SavedImage>, id: string): nat
  {
    if images == [] then 0
    else (if images[0].id == id then 1 else 0) + CountId(images[1..], id)
  }

  /** `images.filter(img => img.id !== id)`: every record with that id goes, the rest stay in order. */
  function RemoveById(images: seq<SavedImage>, id: string): (r: seq<SavedImage>)
    ensures forall x :: multiset(r)[x] == if x.id == id then 0 else multiset(images)[x]
    ensures forall x :: x in r <==> x in images && x.id != id
    ensures |r| == |images| - CountId(images, id)
  {
    if images == [] then []
    else
      assert images == [images[0]] + images[1..];
      if images[0].id == id then RemoveById(images[1..], id)
      else [images[0]] + RemoveById(images[1..], id)
  }

  /** Removing an id that no record carries leaves the list as it was. */
  lemma {:induction false} RemoveAbsentId(images: seq<SavedImage>, id: string)
    requires forall x :: x in images ==> x.id != id
    ensures RemoveById(images, id) == images
  {
    if images != [] {
      assert images[0] in images;
      RemoveAbsentId(images[1..], id);
    }
  }

  /** Removing the same id twice is the same as removing it once. */
  lemma RemoveByIdIdempotent(images: seq<SavedImage>, id: string)
    ensures RemoveById(RemoveById(images, id), id) == RemoveById(images, id)
  {
    RemoveAbsentId(RemoveById(images, id), id);
  }

  /** Removal works piecewise over a concatenation, so the survivors keep their relative order. */
  lemma {:induction false} RemoveByIdAppend(a: seq<SavedImage>, b: seq<SavedImage>, id: string)
    ensures RemoveById(a + b, id) == RemoveById(a, id) + RemoveById(b, id)
  {
    if a == [] {
      assert a + b == b;
    } else {
      assert (a + b)[0] == a[0];
      assert (a + b)[1..] == a[1..] + b;
      RemoveByIdAppend(a[1..], b, id);
    }
  }
}
