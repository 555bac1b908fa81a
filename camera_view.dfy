/**
 * The data side of the camera screen (components/camera-view.tsx): the zoom and camera
 * index updaters, the capture that appends to the "camera-images" list in localStorage,
 * and the thumbnail read back from that list.
 */
module CameraView {
  import opened Images
  import opened Decimal

  const MinZoom: real := 1.0
  const MaxZoom: real := 3.0
  /** What the zoom-in and zoom-out buttons pass to `adjustZoom`. */
  const ZoomStep: real := 0.5

  /** The `setZoom` updater: `Math.max(1, Math.min(3, prev + delta))`. */
  function ZoomAfter(prev: real, delta: real): (z: real)
    ensures MinZoom <= z <= MaxZoom
    ensures MinZoom <= prev + delta <= MaxZoom ==> z == prev + delta
    ensures prev + delta > MaxZoom ==> z == MaxZoom
    ensures prev + delta < MinZoom ==> z == MinZoom
  {
    var inner := if MaxZoom < prev + delta then MaxZoom else prev + delta;
    if MinZoom > inner then MinZoom else inner
  }

  /** A zoom level the buttons can reach: 1, 1.5, 2, 2.5 or 3, written as `halves / 2`. */
  predicate OnZoomGrid(halves: int) { 2 <= halves <= 6 }

  /** From any level on the half-step grid, one button press lands on the neighbouring level,
      or stays at the end of the range. */
  lemma ZoomButtonsStayOnGrid(halves: int)
    requires OnZoomGrid(halves)
    ensures ZoomAfter(halves as real / 2.0, ZoomStep) == (if halves < 6 then halves + 1 else 6) as real / 2.0
    ensures ZoomAfter(halves as real / 2.0, -ZoomStep) == (if halves > 2 then halves - 1 else 2) as real / 2.0
  {
  }

  /** The `setCurrentCameraIndex` updater, run only when more than one camera was found. */
  function NextCameraIndex(prev: nat, cameraCount: nat): (i: nat)
    ensures cameraCount > 1 ==> i < cameraCount
    ensures cameraCount > 1 && prev + 1 < cameraCount ==> i == prev + 1
    ensures cameraCount > 1 && prev + 1 == cameraCount ==> i == 0
    ensures cameraCount <= 1 ==> i == prev
  {
    if cameraCount > 1 then (prev + 1) % cameraCount else prev
  }

  /** The index after `presses` presses of the switch button. */
  function SwitchedIndex(start: nat, cameraCount: nat, presses: nat): nat
  {
    if presses == 0 then start else NextCameraIndex(SwitchedIndex(start, cameraCount, presses - 1), cameraCount)
  }

  /** Presses that do not reach the end of the camera list each advance the index by one. */
  lemma {:induction false} SwitchingAdvances(start: nat, cameraCount: nat, presses: nat)
    requires 1 < cameraCount && start + presses < cameraCount
    ensures SwitchedIndex(start, cameraCount, presses) == start + presses
  {
    if presses > 0 {
      SwitchingAdvances(start, cameraCount, presses - 1);
    }
  }

  /** Pressing `a` times and then `b` times is pressing `a + b` times. */
  lemma {:induction false} SwitchingComposes(start: nat, cameraCount: nat, a: nat, b: nat)
    ensures SwitchedIndex(SwitchedIndex(start, cameraCount, a), cameraCount, b) == SwitchedIndex(start, cameraCount, a + b)
  {
    if b > 0 {
      SwitchingComposes(start, cameraCount, a, b - 1);
    }
  }

  /** As many presses as there are cameras bring the current camera back, and every press stays in range. */
  lemma FullCycleReturns(start: nat, cameraCount: nat)
    requires 1 < cameraCount && start < cameraCount
    ensures SwitchedIndex(start, cameraCount, cameraCount) == start
    ensures forall p :: 0 <= p <= cameraCount ==> SwitchedIndex(start, cameraCount, p) < cameraCount
  {
    var toLast := cameraCount - 1 - start;
    SwitchingAdvances(start, cameraCount, toLast);
    assert SwitchedIndex(start, cameraCount, toLast + 1) == 0;
    SwitchingAdvances(0, cameraCount, start);
    SwitchingComposes(start, cameraCount, toLast + 1, start);
    forall p | 0 <= p <= cameraCount ensures SwitchedIndex(start, cameraCount, p) < cameraCount {
      if p > 0 {
        assert SwitchedIndex(start, cameraCount, p)
            == NextCameraIndex(SwitchedIndex(start, cameraCount, p - 1), cameraCount);
      }
    }
  }

  /** The record a capture builds: the id is the decimal text of one `Date.now()`, the timestamp a second `Date.now()`. */
  function CapturedImage(idTime: nat, timestamp: nat, imageData: string): (image: SavedImage)
    ensures image.id == NumberToString(idTime) && ParseNumber(image.id) == Some(idTime as int)
    ensures image.dataUrl == imageData && image.timestamp == timestamp
  {
    NumberRoundTrip(idTime);
    SavedImage(NumberToString(idTime), imageData, timestamp)
  }

  /** Captures taken at different milliseconds get different ids. */
  lemma CaptureIdsDiffer(t1: nat, t2: nat, s1: nat, s2: nat, d1: string, d2: string)
    requires t1 != t2
    ensures CapturedImage(t1, s1, d1).id != CapturedImage(t2, s2, d2).id
  {
    if NumberToString(t1) == NumberToString(t2) {
      NumberToStringInjective(t1, t2);
    }
  }

  /** The storage after a capture: the parsed list with the new record pushed on its end, written back. */
  function StoreCapture(storage: Storage, image: SavedImage): (after: Storage)
    ensures StoredImages(after) == StoredImages(storage) + [image]
    ensures forall k :: k != ImagesKey ==> (k in after <==> k in storage)
    ensures forall k :: k != ImagesKey && k in storage ==> after[k] == storage[k]
  {
    storage[ImagesKey := StoredImages(storage) + [image]]
  }

  /** What `loadLastImage` finds: the data URL of the last stored record, if there is one. */
  function LastDataUrl(storage: Storage): (url: Option<string>)
    ensures url.None? <==> StoredImages(storage) == []
    ensures url.Some? ==> exists i :: 0 <= i < |StoredImages(storage)| && StoredImages(storage)[i].dataUrl == url.value
  {
    var images := StoredImages(storage);
    if |images| > 0 then Some(images[|images| - 1].dataUrl) else None
  }

  /** After a capture the thumbnail a fresh mount would load is the captured image. */
  lemma CaptureIsLastImage(storage: Storage, image: SavedImage)
    ensures LastDataUrl(StoreCapture(storage, image)) == Some(image.dataUrl)
    ensures RemoveById(StoredImages(StoreCapture(storage, image)), image.id) == RemoveById(StoredImages(storage), image.id)
  {
    RemoveByIdAppend(StoredImages(storage), [image], image.id);
  }

  /** The browser's localStorage, shared by the camera screen and the gallery. */
  class LocalStorage {
    var items: Storage

    constructor (items: Storage)
      ensures this.items == items
    {
      this.items := items;
    }
  }

  /** The camera screen's React state that the data logic touches. */
  class CameraScreen {
    var zoom: real
    var isCapturing: bool
    /** The 200 ms timer that clears `isCapturing` has been started and has not fired yet. */
    var shutterTimerPending: bool
    var lastImage: Option<string>
    var cameraCount: nat
    var currentCameraIndex: nat
    const storage: LocalStorage

    ghost predicate Valid()
      reads this
    {
      && MinZoom <= zoom <= MaxZoom
      && (shutterTimerPending ==> isCapturing)
    }

    /** The initial state of the component: zoom 1, no thumbnail, no cameras yet, camera 0. */
    constructor (storage: LocalStorage)
      ensures Valid() && this.storage == storage
      ensures zoom == 1.0 && !isCapturing && !shutterTimerPending && lastImage == None
      ensures cameraCount == 0 && currentCameraIndex == 0
    {
      this.storage := storage;
      zoom, isCapturing, shutterTimerPending, lastImage := 1.0, false, false, None;
      cameraCount, currentCameraIndex := 0, 0;
    }

    /** `loadLastImage`: the thumbnail becomes the last stored photo, and stays as it was when there is none. */
    method LoadLastImage()
      requires Valid()
      modifies this`lastImage
      ensures Valid()
      ensures LastDataUrl(storage.items).Some? ==> lastImage == LastDataUrl(storage.items)
      ensures LastDataUrl(storage.items).None? ==> lastImage == old(lastImage)
    {
      var images := StoredImages(storage.items);
      if |images| > 0 {
        lastImage := Some(images[|images| - 1].dataUrl);
      }
    }

    /** `setCameras` with the devices found by enumeration; the current index is not reset. */
    method CamerasFound(count: nat)
      requires Valid()
      modifies this`cameraCount
      ensures Valid() && cameraCount == count
    {
      cameraCount := count;
    }

    /** `switchCamera`: advances cyclically when there is more than one camera, otherwise does nothing. */
    method SwitchCamera()
      requires Valid()
      modifies this`currentCameraIndex
      ensures Valid()
      ensures currentCameraIndex == NextCameraIndex(old(currentCameraIndex), cameraCount)
      ensures cameraCount > 1 ==> currentCameraIndex < cameraCount
      ensures cameraCount <= 1 ==> currentCameraIndex == old(currentCameraIndex)
    {
      if cameraCount > 1 {
        currentCameraIndex := NextCameraIndex(currentCameraIndex, cameraCount);
      }
    }

    /** `adjustZoom`: the zoom moves by `delta` and is held within [1, 3]. */
    method AdjustZoom(delta: real)
      requires Valid()
      modifies this`zoom
      ensures Valid()
      ensures zoom == ZoomAfter(old(zoom), delta)
    {
      zoom := ZoomAfter(zoom, delta);
    }

    /** `capturePhoto`. `elementsMounted`: the video and canvas elements exist; `hasContext`: the canvas
        gave a 2D context; `idTime`, `stampTime`: the two `Date.now()` readings; `imageData`: `toDataURL`'s result. */
    method CapturePhoto(elementsMounted: bool, hasContext: bool, idTime: nat, stampTime: nat, imageData: string)
      requires Valid()
      modifies this, storage
      ensures Valid()
      ensures zoom == old(zoom) && cameraCount == old(cameraCount) && currentCameraIndex == old(currentCameraIndex)
      ensures !elementsMounted || old(isCapturing) ==>
                isCapturing == old(isCapturing) && shutterTimerPending == old(shutterTimerPending)
                && lastImage == old(lastImage) && storage.items == old(storage.items)
      ensures elementsMounted && !old(isCapturing) ==> isCapturing
      ensures elementsMounted && !old(isCapturing) && !hasContext ==>
                !shutterTimerPending && lastImage == old(lastImage) && storage.items == old(storage.items)
      ensures elementsMounted && !old(isCapturing) && hasContext ==>
                && shutterTimerPending
                && storage.items == StoreCapture(old(storage.items), CapturedImage(idTime, stampTime, imageData))
                && lastImage == Some(imageData)
                && lastImage == LastDataUrl(storage.items)
    {
      if elementsMounted && !isCapturing {
        isCapturing := true;
        if hasContext {
          var images := StoredImages(storage.items);
          var newImage := CapturedImage(idTime, stampTime, imageData);
          images := images + [newImage];
          storage.items := storage.items[ImagesKey := images];
          lastImage := Some(imageData);
          shutterTimerPending := true;
          CaptureIsLastImage(old(storage.items), newImage);
        }
      }
    }

    /** The shutter timer fires 200 ms after a capture and lets the shutter be pressed again. */
    method ShutterTimerFires()
      requires Valid() && shutterTimerPending
      modifies this`isCapturing, this`shutterTimerPending
      ensures Valid() && !isCapturing && !shutterTimerPending
    {
      isCapturing, shutterTimerPending := false, false;
    }
  }
}
