/** `CGdipdraw`: one image cache and one draw engine behind three path-based entry points.
    Each entry point resolves the path through `LoadImageFromStream` and hands whatever it
    returns, NULL included, to the matching draw operation. */
module Facade {
  import opened CInt
  import opened Gdip
  import opened ImageData
  import opened DrawImage

  class Gdipdraw {
    /** `m_imageData` */
    const imageData: GdiPlusImageData
    /** `m_drawImage` */
    const drawImage: GdiPlusDrawImage

    ghost predicate Valid()
      reads this, imageData, drawImage
    {
      imageData.Valid() && drawImage.Valid()
    }

    constructor ()
      ensures Valid() && fresh(imageData) && fresh(drawImage)
      ensures imageData.files == map[] && imageData.decodes == 0 && imageData.opens == 0
      ensures drawImage.rotate == 0
    {
      imageData := new GdiPlusImageData();
      drawImage := new GdiPlusDrawImage();
    }

    /** `DrawImage`: load, then `DrawImageStatic`; the rotation angle is untouched. `call` is
        what the backend was asked to draw, if anything. */
    method DrawImage(path: string, dest: Rect, fs: FileSystem, io: IoSteps, decoded: Handle, drawStatus: Status)
      returns (ok: bool, ghost call: DrawCall)
      requires Valid()
      modifies imageData`files, imageData`opens, imageData`decodes
      ensures Valid()
      ensures var l := StreamLoad(old(imageData.files), path, fs, io, decoded);
              imageData.files == l.files
              && DrawResult(ok, call) == GdiPlusDrawImage.DrawImageStatic(l.image, dest, drawStatus)
              && imageData.decodes == old(imageData.decodes) + (if l.decoded then 1 else 0)
              && imageData.opens == old(imageData.opens) + (if l.fileOpened then 1 else 0)
    {
      var image := imageData.LoadImageFromStream(path, fs, io, decoded);
      var r := GdiPlusDrawImage.DrawImageStatic(image, dest, drawStatus);
      ok, call := r.ok, r.call;
    }

    /** `DrawImageRotation`: load, then the engine's rotated draw, which moves the one angle
        the engine keeps for every path. */
    method DrawImageRotation(path: string, dest: Rect, fs: FileSystem, io: IoSteps, decoded: Handle,
                             drawStatus: Status, nRotate: int := 0)
      returns (ok: bool, ghost call: DrawCall)
      requires Valid() && IsInt32(nRotate)
      requires Drawable(StreamLoad(imageData.files, path, fs, io, decoded).image) ==> IsInt32(drawImage.rotate + nRotate)
      modifies imageData`files, imageData`opens, imageData`decodes, drawImage
      ensures Valid()
      ensures var l := StreamLoad(old(imageData.files), path, fs, io, decoded);
              var o := RotationStep(old(drawImage.rotate), l.image, dest, drawStatus, nRotate);
              imageData.files == l.files && DrawResult(ok, call) == o.result && drawImage.rotate == o.angle
              && imageData.decodes == old(imageData.decodes) + (if l.decoded then 1 else 0)
              && imageData.opens == old(imageData.opens) + (if l.fileOpened then 1 else 0)
    {
      var image := imageData.LoadImageFromStream(path, fs, io, decoded);
      var r := drawImage.DrawImageRotation(image, dest, drawStatus, nRotate);
      ok, call := r.ok, r.call;
    }

    /** `DrawImageZoom`: load, then `DrawImageZoom`; the rotation angle is untouched. */
    method DrawImageZoom(path: string, dest: Rect, fs: FileSystem, io: IoSteps, decoded: Handle,
                         drawStatus: Status, mode: InterpolationMode := InterpolationModeBicubic)
      returns (ok: bool, ghost call: DrawCall)
      requires Valid()
      modifies imageData`files, imageData`opens, imageData`decodes
      ensures Valid()
      ensures var l := StreamLoad(old(imageData.files), path, fs, io, decoded);
              imageData.files == l.files
              && DrawResult(ok, call) == GdiPlusDrawImage.DrawImageZoom(l.image, dest, drawStatus, mode)
              && imageData.decodes == old(imageData.decodes) + (if l.decoded then 1 else 0)
              && imageData.opens == old(imageData.opens) + (if l.fileOpened then 1 else 0)
    {
      var image := imageData.LoadImageFromStream(path, fs, io, decoded);
      var r := GdiPlusDrawImage.DrawImageZoom(image, dest, drawStatus, mode);
      ok, call := r.ok, r.call;
    }

    /** `ClearAllImageData`, which the destructor calls. */
    method ClearAllImageData()
      requires Valid()
      modifies imageData`files
      ensures Valid() && imageData.files == map[]
    {
      imageData.ClearAllImageData();
    }
  }

  /** "a.png" exists and decodes to a 64x64 image: drawing it into a 128x128 rectangle
      succeeds, opens and decodes it once, and asks the backend to stretch the whole 64x64
      image over the 128x128 rectangle; drawing it again, whatever the I/O and the decoder
      would now do, succeeds from the cache without opening or decoding; after a clear the
      next draw decodes afresh; a path that does not exist fails and caches nothing. */
  method CacheScenario() {
    var gdip := new Gdipdraw();
    var fs := {"a.png"};
    var first := Ptr(Image(1, 64, 64, Ok));
    var ok, call := gdip.DrawImage("a.png", Rect(0, 0, 128, 128), fs, AllIoSucceeds, first, Ok);
    assert ok && gdip.imageData.decodes == 1 && gdip.imageData.opens == 1;
    assert gdip.imageData.files == map["a.png" := first];
    assert call == Call(DrawRequest(first.image, Rect(0, 0, 128, 128), Rect(0, 0, 64, 64), Identity, Unchanged));
    ok, call := gdip.DrawImageZoom("a.png", Rect(0, 0, 32, 32), fs, IoSteps(false, false, false, false, false, false), Null, Ok);
    assert ok && gdip.imageData.decodes == 1 && gdip.imageData.opens == 1;
    assert call.request.src == Rect(0, 0, 64, 64) && call.request.interpolation == SetTo(InterpolationModeBicubic);
    ok, call := gdip.DrawImageRotation("b.png", Rect(0, 0, 32, 32), fs, AllIoSucceeds, first, Ok, 90);
    assert !ok && call == NoCall && gdip.imageData.files == map["a.png" := first] && gdip.drawImage.rotate == 0;
    gdip.ClearAllImageData();
    ok, call := gdip.DrawImage("a.png", Rect(0, 0, 128, 128), fs, AllIoSucceeds, Ptr(Image(2, 64, 64, Ok)), Ok);
    assert ok && gdip.imageData.decodes == 2 && gdip.imageData.opens == 2;
  }
}
