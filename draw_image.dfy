/** `CGdiPlusDrawImage`: three ways of drawing a decoded image into a destination rectangle,
    behind one guard, and a rotation angle that persists across rotated draws. The backend's
    answer to `Graphics::DrawImage` is an input (`drawStatus`); what the engine asks of the
    backend is part of each result. */
module DrawImage {
  import opened CInt
  import opened Gdip
  import ImageData

  /** The guard shared by every draw, the negation of "NULL, or zero height, or a last
      status other than `Ok`". Every pointer it accepts is one the loaders would cache. */
  predicate Drawable(h: Handle)
    ensures Drawable(h) <==> !(h == Null || h.image.height == 0 || h.image.status != Ok)
    ensures Drawable(h) ==> ImageData.Usable(h)
  {
    h.Ptr? && h.image.height != 0 && h.image.status == Ok
  }

  /** The source rectangle of every draw: the whole image, in pixels. */
  function FullSource(img: Image): Rect {
    Rect(0, 0, img.width, img.height)
  }

  /** `(X + Width / 2, Y + Height / 2)` with C++ division: the centre of the rectangle,
      rounded toward its origin corner by at most half a pixel on each axis. */
  function Centre(dest: Rect): (c: (int, int))
    ensures 0 <= dest.width ==> 0 <= dest.width - 2 * (c.0 - dest.x) <= 1
    ensures dest.width < 0 ==> 0 <= 2 * (c.0 - dest.x) - dest.width <= 1
    ensures 0 <= dest.height ==> 0 <= dest.height - 2 * (c.1 - dest.y) <= 1
    ensures dest.height < 0 ==> 0 <= 2 * (c.1 - dest.y) - dest.height <= 1
  {
    (dest.x + Div(dest.width, 2), dest.y + Div(dest.height, 2))
  }

  /** `(angle + delta) % 360` with C++ remainder: the same rotation as `angle + delta`
      (equal modulo 360), strictly between -360 and 360, and of the sign of `angle + delta`. */
  function NextAngle(angle: int, delta: int): (r: int)
    ensures -360 < r < 360
    ensures 0 <= angle + delta ==> 0 <= r
    ensures angle + delta <= 0 ==> r <= 0
    ensures (angle + delta - r) % 360 == 0
  {
    var r := Rem(angle + delta, 360);
    assert angle + delta - r == Div(angle + delta, 360) * 360;
    r
  }

  /** One rotated draw: the draw's result and the engine's angle afterwards. */
  datatype RotationOutcome = RotationOutcome(result: DrawResult, angle: int)

  /** `DrawImageRotation` from the angle `angle`: behind the guard, the angle advances by
      `nRotate` before the draw, so it advances whatever the backend answers; the image is
      drawn rotated by the new angle about the centre of `dest`. */
  function RotationStep(angle: int, img: Handle, dest: Rect, drawStatus: Status, nRotate: int): (o: RotationOutcome)
    ensures !Drawable(img) ==> o.angle == angle && o.result == DrawResult(false, NoCall)
    ensures Drawable(img) ==> o.angle == NextAngle(angle, nRotate)
    ensures o.result.ok <==> Drawable(img) && drawStatus == Ok
    ensures o.result.call.Call? <==> Drawable(img)
    ensures o.result.call.Call? ==>
              var c := Centre(dest);
              o.result.call.request
              == DrawRequest(img.image, dest, FullSource(img.image), RotateAbout(c.0, c.1, o.angle), Unchanged)
  {
    if !Drawable(img) then RotationOutcome(DrawResult(false, NoCall), angle)
    else
      var c := Centre(dest);
      var a := NextAngle(angle, nRotate);
      var request := DrawRequest(img.image, dest, FullSource(img.image), RotateAbout(c.0, c.1, a), Unchanged);
      RotationOutcome(DrawResult(drawStatus == Ok, Call(request)), a)
  }

  /** The sum of a sequence of rotation requests. */
  function Sum(deltas: seq<int>): int
    decreases |deltas|
  {
    if deltas == [] then 0 else deltas[0] + Sum(deltas[1..])
  }

  /** The engine's angle after rotated draws of drawable images with the given deltas. */
  function AngleAfter(angle: int, deltas: seq<int>): (r: int)
    decreases |deltas|
    ensures deltas == [] ==> r == angle
    ensures deltas != [] ==> -360 < r < 360
  {
    if deltas == [] then angle else AngleAfter(NextAngle(angle, deltas[0]), deltas[1..])
  }

  /** However the deltas are split over calls, the accumulated angle is the same rotation
      as the starting angle plus their sum, though not always the same number
      (see `TruncationSplitRequest`). */
  lemma {:induction false} AngleAfterCongruent(angle: int, deltas: seq<int>)
    decreases |deltas|
    ensures (AngleAfter(angle, deltas) - (angle + Sum(deltas))) % 360 == 0
  {
    if deltas != [] {
      var next := NextAngle(angle, deltas[0]);
      AngleAfterCongruent(next, deltas[1..]);
      var k1 := (AngleAfter(next, deltas[1..]) - (next + Sum(deltas[1..]))) / 360;
      var k2 := (angle + deltas[0] - next) / 360;
      assert AngleAfter(next, deltas[1..]) - (next + Sum(deltas[1..])) == 360 * k1;
      assert angle + deltas[0] - next == 360 * k2;
      assert AngleAfter(angle, deltas) - (angle + Sum(deltas)) == 360 * (k1 - k2);
    }
  }

  /** Because `%` truncates, the stored angle follows the sign of the running total rather
      than lying in [0, 360): -110 from 20 stores -90. */
  lemma TruncationKeepsSign()
    ensures AngleAfter(20, [-110]) == -90
  {
    var a := NextAngle(20, -110);
    assert a == Rem(-90, 360) == -90;
    assert [-110][1..] == [];
  }

  /** Truncation and splitting: 370 then -20 from 0 stores -10 (compare `TruncationSingleRequest`). */
  lemma TruncationSplitRequest()
    ensures AngleAfter(0, [370, -20]) == -10
  {
    var a := NextAngle(0, 370);
    assert a == Rem(370, 360) == 10;
    var b := NextAngle(a, -20);
    assert b == Rem(-10, 360) == -10;
    assert [370, -20][1..] == [-20] && [-20][1..] == [];
  }

  /** A single request of 350 from 0 stores 350, where 370 then -20 stores -10. */
  lemma TruncationSingleRequest()
    ensures AngleAfter(0, [350]) == 350
  {
    var a := NextAngle(0, 350);
    assert a == Rem(350, 360) == 350;
    assert [350][1..] == [];
  }

  /** The three draw operations share their guard and their outcome: they succeed together,
      reach the backend together, and ask it to draw the same image from the same source
      into the same rectangle; only the transform and the interpolation differ. */
  lemma SharedGuard(img: Handle, dest: Rect, drawStatus: Status, mode: InterpolationMode, angle: int, nRotate: int)
    ensures var s := GdiPlusDrawImage.DrawImageStatic(img, dest, drawStatus);
            var z := GdiPlusDrawImage.DrawImageZoom(img, dest, drawStatus, mode);
            var r := RotationStep(angle, img, dest, drawStatus, nRotate).result;
            s.ok == z.ok == r.ok
            && s.call.Call? == z.call.Call? == r.call.Call? == Drawable(img)
            && (s.call.Call? ==>
                  z.call.request == s.call.request.(interpolation := SetTo(mode))
                  && r.call.request == s.call.request.(transform := r.call.request.transform))
  {
  }

  class GdiPlusDrawImage {
    /** `m_nRotate`: one angle shared by every image drawn through this engine */
    var rotate: int

    ghost predicate Valid()
      reads this
    {
      -360 < rotate < 360
    }

    constructor ()
      ensures Valid() && rotate == 0
    {
      rotate := 0;
    }

    /** `DrawImageStatic`: the whole image stretched into `dest`; true exactly when the
        guard passes and the backend answers `Ok`, with no backend call when it fails. */
    static function DrawImageStatic(img: Handle, dest: Rect, drawStatus: Status): (r: DrawResult)
      ensures r.call == NoCall <==> !Drawable(img)
      ensures r.ok <==> Drawable(img) && drawStatus == Ok
      ensures r.call.Call? ==>
                r.call.request == DrawRequest(img.image, dest, FullSource(img.image), Identity, Unchanged)
    {
      if !Drawable(img) then DrawResult(false, NoCall)
      else DrawResult(drawStatus == Ok, Call(DrawRequest(img.image, dest, FullSource(img.image), Identity, Unchanged)))
    }

    /** `DrawImageZoom`: as `DrawImageStatic`, with the interpolation mode set first. */
    static function DrawImageZoom(img: Handle, dest: Rect, drawStatus: Status,
                                  mode: InterpolationMode := InterpolationModeBicubic): (r: DrawResult)
      ensures r.call == NoCall <==> !Drawable(img)
      ensures r.ok <==> Drawable(img) && drawStatus == Ok
      ensures r.call.Call? ==>
                r.call.request == DrawRequest(img.image, dest, FullSource(img.image), Identity, SetTo(mode))
    {
      if !Drawable(img) then DrawResult(false, NoCall)
      else DrawResult(drawStatus == Ok, Call(DrawRequest(img.image, dest, FullSource(img.image), Identity, SetTo(mode))))
    }

    /** `DrawImageRotation`. The sum `m_nRotate + nRotate` is stored in an `INT` before the
        remainder is taken, so it must not overflow. */
    method DrawImageRotation(img: Handle, dest: Rect, drawStatus: Status, nRotate: int := 0) returns (r: DrawResult)
      requires Valid() && IsInt32(nRotate)
      requires Drawable(img) ==> IsInt32(rotate + nRotate)
      modifies this
      ensures Valid()
      ensures var o := RotationStep(old(rotate), img, dest, drawStatus, nRotate);
              r == o.result && rotate == o.angle
    {
      if img == Null || img.image.height == 0 || img.image.status != Ok {
        return DrawResult(false, NoCall);
      }
      var (nX, nY) := Centre(dest);
      rotate := rotate + nRotate;
      rotate := Rem(rotate, 360);
      // TranslateTransform(nX, nY); RotateTransform(rotate); TranslateTransform(-nX, -nY)
      var request := DrawRequest(img.image, dest, FullSource(img.image), RotateAbout(nX, nY, rotate), Unchanged);
      // ResetTransform follows the draw whatever its status
      r := DrawResult(drawStatus == Ok, Call(request));
    }
  }

  /** Rotated draws through one engine: 90, 90 and 200 degrees from 0 store 90, 180 and 20,
      the angle moves even when the backend fails the draw, and a rejected image moves nothing. */
  method RotationScenario() {
    var engine := new GdiPlusDrawImage();
    var img := Ptr(Image(1, 64, 64, Ok));
    var dest := Rect(0, 0, 128, 128);
    var r := engine.DrawImageRotation(img, dest, Ok, 90);
    assert engine.rotate == 90 && r.ok;
    assert r.call.request.transform == RotateAbout(64, 64, 90);
    r := engine.DrawImageRotation(img, dest, Ok, 90);
    assert engine.rotate == 180;
    r := engine.DrawImageRotation(img, dest, GenericError, 200);
    assert engine.rotate == 20 && !r.ok && r.call.Call?;
    r := engine.DrawImageRotation(Ptr(Image(2, 64, 0, Ok)), dest, Ok, 45);
    assert engine.rotate == 20 && r == DrawResult(false, NoCall);
  }
}
