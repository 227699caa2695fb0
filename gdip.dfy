/** The parts of the GDI+ backend that the image cache and the draw engine observe.
    Decoding and rasterising are opaque: an image is only what the drawing code asks of it
    (its size and its last status), and a pointer to one is either NULL or that image. */
module Gdip {

  /** `Gdiplus::Status`; the drawing code only ever compares it with `Ok`. */
  datatype Status =
    | Ok | GenericError | InvalidParameter | OutOfMemory | ObjectBusy | InsufficientBuffer
    | NotImplemented | Win32Error | WrongState | Aborted | FileNotFound | ValueOverflow
    | AccessDenied | UnknownImageFormat | FontFamilyNotFound | FontStyleNotFound
    | NotTrueTypeFont | UnsupportedGdiplusVersion | GdiplusNotInitialized
    | PropertyNotFound | PropertyNotSupported | ProfileNotFound

  /** A decoded image: `GetWidth()`, `GetHeight()` and `GetLastStatus()`.
      `id` stands for the object's address; nothing here forces two decodes to give distinct ids. */
  datatype Image = Image(id: nat, width: nat, height: nat, status: Status)

  /** A `Gdiplus::Image*`. */
  datatype Handle = Null | Ptr(image: Image)

  /** `Gdiplus::Rect`: a destination or source rectangle. */
  datatype Rect = Rect(x: int, y: int, width: int, height: int)

  /** `Gdiplus::InterpolationMode`. */
  datatype InterpolationMode =
    | InterpolationModeInvalid | InterpolationModeDefault | InterpolationModeLowQuality
    | InterpolationModeHighQuality | InterpolationModeBilinear | InterpolationModeBicubic
    | InterpolationModeNearestNeighbor | InterpolationModeHighQualityBilinear
    | InterpolationModeHighQualityBicubic

  /** The world transform of the `Graphics` object when an image is drawn. */
  datatype Transform =
    | Identity
      /** translate by (cx, cy), rotate by `degrees`, translate back by (-cx, -cy) */
    | RotateAbout(cx: int, cy: int, degrees: int)

  /** The interpolation mode of the `Graphics` object: its own default, or set by the caller. */
  datatype Interpolation = Unchanged | SetTo(mode: InterpolationMode)

  /** One `Graphics::DrawImage(image, dest, src.x, src.y, src.width, src.height, UnitPixel)`
      together with the graphics state in force when it is issued. */
  datatype DrawRequest = DrawRequest(
    image: Image, dest: Rect, src: Rect, transform: Transform, interpolation: Interpolation)

  /** Whether a draw operation reached the backend, and with what. */
  datatype DrawCall = NoCall | Call(request: DrawRequest)

  /** What a draw operation returns (its `BOOL`) and what it asked of the backend. */
  datatype DrawResult = DrawResult(ok: bool, call: DrawCall)
}
