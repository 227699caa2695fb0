# gdipdraw: the image cache and draw engine, in Dafny

`gdipdraw` is a small GDI+ rendering layer for a Windows desktop application. It loads
images from disk on demand and caches the decoded `Gdiplus::Image*` by path
(`CGdiPlusImageData`). It draws them into a destination rectangle in one of three ways
(`CGdiPlusDrawImage`): a plain stretch blit, a rotated draw, or a draw with a chosen
interpolation mode. The rotation angle is one counter that every rotated draw passing the guard advances. A
facade (`CGdipdraw`) puts one cache and one engine behind three path-based entry points.

The model keeps the source's shape:

- `cint.dfy` (module `CInt`): the C++ integer rules the code depends on. `INT` is 32 bits,
  and `/` and `%` truncate toward zero, while Dafny's are Euclidean.
- `gdip.dfy` (module `Gdip`): what the code observes of GDI+. `Status`,
  `InterpolationMode` and `Rect` are values. An image is its id, width, height and last
  status; the id stands for its address. A pointer is `Null` or `Ptr(image)`. A draw
  request records what `Graphics::DrawImage` is asked to do.
- `image_data.dfy` (module `ImageData`): the class `GdiPlusImageData`.
  - Its path → pointer map is a field; its methods change that map in place.
  - Each loader method is proved against a pure function of the old map and the oracles
    (`StreamLoad`, `FileLoadAsWritten`).
  - Lemmas over sequences of loads state the load-once behaviour.
  - Two ghost counters, `opens` and `decodes`, count file opens and decoder calls.
- `draw_image.dfy` (module `DrawImage`): the class `GdiPlusDrawImage`.
  - It holds `rotate` (`m_nRotate`).
  - `DrawImageStatic` and `DrawImageZoom` change no state, so they are static functions.
  - `DrawImageRotation` updates the field. It is proved against `RotationStep`.
- `gdipdraw.dfy` (module `Facade`): the class `Gdipdraw`, composing the two.

Oracles replace everything outside the core:

- `fs` is the set of paths `PathFileExists` reports as present.
- `IoSteps` says which of `CreateFile`, `GetFileSizeEx`, `GlobalAlloc`, `GlobalLock`,
  `ReadFile` and `CreateStreamOnHGlobal` succeed.
- `decoded` is the pointer `Bitmap::FromStream` or `Bitmap::FromFile` returns.
- `drawStatus` is the status `Graphics::DrawImage` returns.

Where a reader might expect otherwise, the model follows the code:

- One might expect the stored angle to lie in [0, 360). The code's `%` truncates, so the
  angle lies strictly between -360 and 360 and takes the sign of the running total
  (`DrawImage.TruncationKeepsSign`, `DrawImage.TruncationSplitRequest`).
- One might expect a NULL path to fail. Both loaders pass the path to `BitmapHasLoaded`,
  which builds a `std::wstring` from it before any NULL test could run. In the stream loader
  that call comes first; in the file loader it follows a NULL-safe existence check. The
  loaders therefore take a non-NULL `string`, and only `CheckFileExists` models the NULL
  branch.
- One might expect a short read to fail. The code tests only the return value of
  `ReadFile`, and the model does the same.
- One might expect high-quality bicubic as the default zoom mode. The code's default
  argument is `InterpolationModeBicubic`.
- One might expect a single atomic get-or-load. The code locks the lookup and the insert
  separately. The model is sequential, so the two behave alike here (see "Left out").

## Model

| member | source | states |
|---|---|---|
| `CInt.Div` | gdipdraw.hpp:246-247 | C++ `/` by a positive divisor: the quotient rounded toward zero (bounds on `q*d` for either sign of the dividend) |
| `CInt.Rem` | gdipdraw.hpp:249-250 | C++ `%` by a positive divisor: `Div(a,d)*d + r == a`, `r` has the sign of `a` and magnitude below `d` |
| `ImageData.Usable` | gdipdraw.hpp:137 | a pointer is usable exactly when the loaders' rejection test (NULL, or a last status other than `Ok`) fails, the test also made at line 71; only such pointers are cached |
| `ImageData.MapInsert` | gdipdraw.hpp:181-185 | `std::map::insert`: the key set gains the path, existing entries are never overwritten, a new key maps to the given pointer |
| `ImageData.StreamLoad` | gdipdraw.hpp:80-155 | cache hit returns the cached pointer with no file access and no change; a missing file returns NULL unchanged, without opening or decoding; the file is opened on a miss and decoded exactly when all six I/O steps succeed; every earlier failure returns NULL and leaves the cache; the decoder's pointer is returned as is; the cache gains exactly this one entry iff the decode is non-NULL with status `Ok`; only usable pointers are ever cached |
| `ImageData.FileLoadAsWritten` | gdipdraw.hpp:54-78 | for every existing file the result is NULL with the cache untouched and no open or decode; for a missing but cached path the cached pointer, with no open or decode; a missing, uncached path is opened and decoded, and the result is the decoded pointer if usable and NULL otherwise; the cache grows, by exactly that path and pointer, only for a missing, uncached path with a usable decode |
| `ImageData.FileLoadIntended` | gdipdraw.hpp:54-78 | the same order of tests (existence, then cache, then decode) with the existence test the right way round: a missing file gives NULL and no change, even when cached, with no open or decode; a present cached file returns the cached pointer with no open or decode; a present, uncached file is opened and decoded, giving the decoded pointer if usable and NULL otherwise; the cache grows, by exactly that path and pointer, iff the file exists, is uncached and decodes usably; results are NULL or usable |
| `ImageData.FileLoadIntendedMatchesStream` | gdipdraw.hpp:54-155 | for every input the corrected file loader and a fully successful stream load leave the same cache and decode alike; they return the same pointer whenever the stream loader's is usable, unless the path is cached but its file is gone, where the file loader gives NULL and the stream loader the cached pointer |
| `ImageData.ExistingFileNeverLoaded` | gdipdraw.hpp:58-62 | concrete case: an existing, well-decoding "a.png" gives NULL and an empty cache as written, the decoded image and a one-entry cache as intended |
| `ImageData.Serve` | gdipdraw.hpp:80-155 | replaying loads one after another gives one outcome per load and never drops a cached path |
| `ImageData.CachedEntryIsServedAt` | gdipdraw.hpp:90-94 | once a path is cached, the i-th later load keeps its entry and, if it loads that path, returns the cached pointer with no file open and no decode |
| `ImageData.CachedEntryIsServed` | gdipdraw.hpp:90-94 | once a path is cached, every later load keeps its entry, and every later load of it returns that same pointer without opening the file or decoding |
| `ImageData.AtMostOneInsertPerPath` | gdipdraw.hpp:90-141 | over any sequence of loads a path is inserted at most once, and never if it was already cached |
| `ImageData.GdiPlusImageData.constructor` | gdipdraw.hpp:35 | a new cache is empty and valid |
| `ImageData.GdiPlusImageData.CheckFileExists` | gdipdraw.hpp:187-197 | true exactly for a non-NULL path that the filesystem reports as present |
| `ImageData.GdiPlusImageData.BitmapHasLoaded` | gdipdraw.hpp:169-179 | returns true iff the path is a key; then the out-pointer is the stored one, otherwise it is left as passed; the map is not modified |
| `ImageData.GdiPlusImageData.InsertBitmapInMap` | gdipdraw.hpp:181-185 | the map becomes `MapInsert` of the old map; no other field changes |
| `ImageData.GdiPlusImageData.ClearAllImageData` | gdipdraw.hpp:157-167 | the file map is empty afterwards; the stream map and the counters are untouched |
| `ImageData.GdiPlusImageData.LoadImageFromStream` | gdipdraw.hpp:80-155 | returns and leaves the cache that `StreamLoad` gives; counts one open and one decode exactly when `StreamLoad` says they happen; keeps the cache valid |
| `ImageData.GdiPlusImageData.LoadImageFromFile` | gdipdraw.hpp:54-78 | returns and leaves the cache that `FileLoadAsWritten` gives, with the counters to match; keeps the cache valid |
| `DrawImage.Drawable` | gdipdraw.hpp:221 | the draw guard accepts exactly what fails "NULL, or zero height, or a last status other than `Ok`" (the same test at lines 242 and 273); every pointer it accepts is `Usable` |
| `DrawImage.Centre` | gdipdraw.hpp:246-247 | the rotation centre lies within half a pixel of the rectangle's true centre on each axis, rounded toward the origin corner |
| `DrawImage.NextAngle` | gdipdraw.hpp:249-250 | the new angle is congruent to `angle + delta` modulo 360, strictly between -360 and 360, with the sign of `angle + delta` |
| `DrawImage.RotationStep` | gdipdraw.hpp:242-265 | a rejected pointer leaves the angle and makes no backend call, and a drawable one always reaches the backend; otherwise the angle becomes `NextAngle(angle, nRotate)` whatever the draw status, and the full image is drawn into the rectangle rotated by the new angle about `Centre(dest)`; true iff drawable and the backend answers `Ok` |
| `DrawImage.AngleAfter` | gdipdraw.hpp:249-250 | after one or more rotated draws the stored angle is strictly between -360 and 360 |
| `DrawImage.AngleAfterCongruent` | gdipdraw.hpp:249-250 | the angle after any sequence of rotated draws is congruent modulo 360 to the start plus the sum of the deltas |
| `DrawImage.TruncationKeepsSign` | gdipdraw.hpp:249-250 | the truncating remainder stores negative angles: -110 from 20 gives -90 |
| `DrawImage.TruncationSplitRequest` | gdipdraw.hpp:249-250 | splitting a rotation can change the stored number: 370 then -20 from 0 gives -10 |
| `DrawImage.TruncationSingleRequest` | gdipdraw.hpp:249-250 | the same total in one request, 350 from 0, gives 350 |
| `DrawImage.SharedGuard` | gdipdraw.hpp:216-288 | the three draws succeed together and reach the backend together, exactly for drawable pointers, with the same image, source and destination; they differ only in transform and interpolation |
| `DrawImage.GdiPlusDrawImage.constructor` | gdipdraw.hpp:202-204 | the angle starts at 0 |
| `DrawImage.GdiPlusDrawImage.DrawImageStatic` | gdipdraw.hpp:216-235 | no backend call iff the guard rejects; true iff drawable and the backend answers `Ok`; the request is the full image into `dest` with no transform |
| `DrawImage.GdiPlusDrawImage.DrawImageZoom` | gdipdraw.hpp:268-288 | as `DrawImageStatic`, with the interpolation mode (default `InterpolationModeBicubic`) set on the request |
| `DrawImage.GdiPlusDrawImage.DrawImageRotation` | gdipdraw.hpp:237-266 | result and new `rotate` are those of `RotationStep` from the old angle; the angle stays in (-360, 360) |
| `Facade.Gdipdraw.constructor` | gdipdraw.hpp:294 | a fresh, empty cache and a fresh engine at angle 0 |
| `Facade.Gdipdraw.DrawImage` | gdipdraw.hpp:322-327 | the result and the backend request are those of `DrawImageStatic` on the `StreamLoad` pointer; the cache and the open and decode counts are those `StreamLoad` gives; the angle is untouched |
| `Facade.Gdipdraw.DrawImageRotation` | gdipdraw.hpp:334-339 | the result and the backend request are those of `RotationStep` on the `StreamLoad` pointer, which also moves the shared angle; the cache and counts are those `StreamLoad` gives |
| `Facade.Gdipdraw.DrawImageZoom` | gdipdraw.hpp:341-346 | the result and the backend request are those of `DrawImageZoom` on the `StreamLoad` pointer; the cache and counts are those `StreamLoad` gives; the angle is untouched |
| `Facade.Gdipdraw.ClearAllImageData` | gdipdraw.hpp:329-332 | the cache is empty afterwards |

Two methods with no contract of their own show what a caller can conclude from these
contracts. `DrawImage.RotationScenario` draws with deltas 90, 90 and 200 from 0, which store
90, 180 and 20. The angle moves on a failed backend draw but not on a rejected image.
`Facade.CacheScenario` draws an existing 64x64 "a.png" into a 128x128 rectangle. The first
draw opens and decodes the file once and asks the backend to stretch the 64x64 source over
the 128x128 destination. A second draw is served from the cache with no decode. After a clear,
the next draw decodes again. A missing path fails and caches nothing.

## Findings

| source | as written | input that shows it | evidently intended | confidence | as-written member | corrected member |
|---|---|---|---|---|---|---|
| gdipdraw.hpp:58-62 | `LoadImageFromFile` returns NULL when `CheckFileExists` reports the file present | "a.png" present, decoding to a good 64x64 image: NULL, nothing cached | return NULL when the file is absent (test at line 60 negated). The stream loader makes the same test at lines 96-100 but consults the cache first (lines 90-94), so the two still differ for a cached path whose file is gone | high; not executed | `ImageData.FileLoadAsWritten` (exhibited by `ImageData.ExistingFileNeverLoaded`) | `ImageData.FileLoadIntended` (proved by `ImageData.FileLoadIntendedMatchesStream`) |

Nothing in the library calls `LoadImageFromFile`; the facade uses `LoadImageFromStream`. So
the method `ImageData.GdiPlusImageData.LoadImageFromFile` keeps the code as written, and the
corrected definition is the model's statement of what was meant.

## Left out

- GDI+ start-up and shut-down (`CInitGdiPlus`, gdipdraw.hpp:12-30): foreign lifecycle calls.
  The destructor of `CGdipdraw` is not modelled either, though the `ClearAllImageData` it
  calls is.
- Win32 file and memory I/O: each step is a success flag. File contents, file sizes and the
  bytes read are not modelled.
- Decoding, rasterisation and the device context: the image is an abstract record and the
  draw status is an input. `TranslateTransform`, `RotateTransform` and `SetInterpolationMode`
  appear only as fields of the draw request. `ResetTransform` is not modelled, because every
  draw builds its own `Graphics` object and so no later draw can observe the reset.
- Memory ownership: the `delete` loop in `ClearAllImageData`, the leaked non-`Ok` pointer
  returned by the stream loader, `GlobalFree` and `pStream->Release()`.
- Locking (`CLock`/`CLockContainer` in gdiplock.hpp) and concurrency. The model is sequential.
  The race in which two first loads of one path both decode, with one image leaked, cannot
  arise in it.
- The singleton accessor (singleton.h): process-wide plumbing.
- `m_mapBitmapFromSteam` is modelled only as a field that `Valid()` keeps empty.
  `CGdiPlusDrawImage`'s own unused `m_imageData` (gdipdraw.hpp:213) is not modelled.
- Path semantics: paths are compared as exact strings. Whether the filesystem matches them
  case-insensitively is folded into the `fs` oracle.
- DrawImage.Centre: computes on unbounded integers. An `X + Width / 2` outside the `INT`
  range, which is overflow in the source, is not excluded.
- DrawImage.GdiPlusDrawImage.DrawImageRotation: requires that `m_nRotate + nRotate` fit in an
  `INT` rather than modelling signed overflow, which is undefined in C++.
