/** `CGdiPlusImageData`: a cache from file path to decoded image, filled on first use.
    The filesystem and the backend are oracles: `fs` is the set of paths `PathFileExists`
    reports, `IoSteps` says which Win32 calls of the in-memory load succeed, and `decoded` is
    the pointer the decoder hands back. */
module ImageData {
  import opened Gdip

  /** An `LPCTSTR` argument: NULL or a string. */
  datatype PathArg = NullPath | PathText(text: string)

  /** The paths the filesystem reports as present. */
  type FileSystem = set<string>

  /** Outcome of each Win32 step of the in-memory load, in the order they are called:
      `CreateFile`, `GetFileSizeEx`, `GlobalAlloc`, `GlobalLock`, `ReadFile`, `CreateStreamOnHGlobal`. */
  datatype IoSteps = IoSteps(open: bool, sizeQuery: bool, alloc: bool, lock: bool, read: bool, stream: bool)

  const AllIoSucceeds: IoSteps := IoSteps(true, true, true, true, true, true)

  /** A pointer the loaders accept for caching: the negation of their rejection test
      "NULL, or a last status other than `Ok`". */
  predicate Usable(h: Handle)
    ensures Usable(h) <==> !(h == Null || h.image.status != Ok)
  {
    h.Ptr? && h.image.status == Ok
  }

  /** What the loaders keep in the cache: only usable images. */
  predicate CacheValid(m: map<string, Handle>) {
    forall p :: p in m ==> Usable(m[p])
  }

  /** `std::map::insert`: adds the pair when the key is absent and never overwrites. */
  function MapInsert(m: map<string, Handle>, path: string, image: Handle): (r: map<string, Handle>)
    ensures r.Keys == m.Keys + {path}
    ensures forall p :: p in m ==> r[p] == m[p]
    ensures path !in m ==> r[path] == image
  {
    if path in m then m else m[path := image]
  }

  /** One load: the pointer returned, the cache afterwards, and whether the loader
      tried to open the file and called the decoder. */
  datatype LoadOutcome = LoadOutcome(image: Handle, files: map<string, Handle>, fileOpened: bool, decoded: bool)

  /** `LoadImageFromStream`: cache lookup, existence check, read the whole file into a
      global memory block, decode from a stream over it, cache the result if it is usable. */
  function StreamLoad(files: map<string, Handle>, path: string, fs: FileSystem, io: IoSteps, decoded: Handle): (r: LoadOutcome)
    // a cache hit hands back the cached pointer and touches neither the file nor the cache
    ensures path in files ==> r.image == files[path] && r.files == files && !r.fileOpened && !r.decoded
    // a miss on a missing file fails before opening it
    ensures path !in files && path !in fs ==> r.image == Null && r.files == files && !r.fileOpened && !r.decoded
    // a miss on a present file opens it; the decoder runs exactly when every I/O step succeeds
    ensures path !in files && path in fs ==>
              r.fileOpened && (r.decoded <==> io.open && io.sizeQuery && io.alloc && io.lock && io.read && io.stream)
    // every failure before the decoder gives NULL and leaves the cache alone
    ensures path !in files && !r.decoded ==> r.image == Null && r.files == files
    // the decoder's pointer is returned as it is, usable or not
    ensures r.decoded ==> r.image == decoded
    // the cache changes only by gaining this one path, and only with a usable pointer
    ensures r.files != files <==> r.decoded && Usable(decoded)
    ensures r.files != files ==> r.files == files[path := decoded] && path !in files
    ensures CacheValid(files) ==> CacheValid(r.files)
  {
    if path in files then LoadOutcome(files[path], files, false, false)
    else if !GdiPlusImageData.CheckFileExists(PathText(path), fs) then LoadOutcome(Null, files, false, false)
    else if !(io.open && io.sizeQuery && io.alloc && io.lock && io.read && io.stream) then
      LoadOutcome(Null, files, true, false)
    else if Usable(decoded) then LoadOutcome(decoded, MapInsert(files, path, decoded), true, true)
    else LoadOutcome(decoded, files, true, true)
  }

  /** `LoadImageFromFile` as written: its existence test is inverted, so it gives up on
      every file that exists and only goes on to the cache and the decoder for missing ones. */
  function FileLoadAsWritten(files: map<string, Handle>, path: string, fs: FileSystem, decoded: Handle): (r: LoadOutcome)
    ensures path in fs ==> r.image == Null && r.files == files && !r.fileOpened && !r.decoded
    ensures path !in fs && path in files ==> r.image == files[path] && r.files == files && !r.fileOpened && !r.decoded
    // a missing, uncached path is decoded; a pointer that is not usable is reported as NULL
    ensures path !in fs && path !in files ==>
              r.fileOpened && r.decoded && r.image == (if Usable(decoded) then decoded else Null)
    ensures r.files != files <==> path !in fs && path !in files && Usable(decoded)
    ensures r.files != files ==> r.files == files[path := decoded]
    ensures CacheValid(files) ==> CacheValid(r.files)
  {
    if GdiPlusImageData.CheckFileExists(PathText(path), fs) then LoadOutcome(Null, files, false, false)
    else if path in files then LoadOutcome(files[path], files, false, false)
    else if Usable(decoded) then LoadOutcome(decoded, MapInsert(files, path, decoded), true, true)
    else LoadOutcome(Null, files, true, true)
  }

  /** `LoadImageFromFile` with the existence test the stream loader uses:
      a missing file gives NULL, a present one is looked up and decoded on a miss. */
  function FileLoadIntended(files: map<string, Handle>, path: string, fs: FileSystem, decoded: Handle): (r: LoadOutcome)
    ensures path !in fs ==> r.image == Null && r.files == files && !r.fileOpened && !r.decoded
    ensures path in fs && path in files ==> r.image == files[path] && r.files == files && !r.fileOpened && !r.decoded
    ensures path in fs && path !in files ==>
              r.fileOpened && r.decoded && r.image == (if Usable(decoded) then decoded else Null)
    ensures r.files != files <==> path in fs && path !in files && Usable(decoded)
    ensures r.files != files ==> r.files == files[path := decoded]
    ensures CacheValid(files) ==> CacheValid(r.files) && (r.image == Null || Usable(r.image))
  {
    if !GdiPlusImageData.CheckFileExists(PathText(path), fs) then LoadOutcome(Null, files, false, false)
    else if path in files then LoadOutcome(files[path], files, false, false)
    else if Usable(decoded) then LoadOutcome(decoded, MapInsert(files, path, decoded), true, true)
    else LoadOutcome(Null, files, true, true)
  }

  /** The corrected file loader against a stream load whose I/O all succeeds. For every
      input they leave the same cache and call the decoder alike. They hand back the same
      usable pointer, except in two cases. Where the stream loader returns an unusable
      decode, the file loader returns NULL. And because the file loader still tests
      existence before the cache, a cached path whose file has gone gives NULL there but
      the cached pointer from the stream loader. */
  lemma FileLoadIntendedMatchesStream(files: map<string, Handle>, path: string, fs: FileSystem, decoded: Handle)
    ensures var a := FileLoadIntended(files, path, fs, decoded);
            var b := StreamLoad(files, path, fs, AllIoSucceeds, decoded);
            a.files == b.files && a.decoded == b.decoded
    ensures var a := FileLoadIntended(files, path, fs, decoded);
            var b := StreamLoad(files, path, fs, AllIoSucceeds, decoded);
            path in fs || path !in files ==>
              (Usable(b.image) ==> a.image == b.image)
              && (a.image != b.image ==> a.image == Null && !Usable(b.image))
    ensures var a := FileLoadIntended(files, path, fs, decoded);
            var b := StreamLoad(files, path, fs, AllIoSucceeds, decoded);
            path !in fs && path in files ==> a.image == Null && b.image == files[path]
  {
  }

  /** The inverted test on a concrete file: "a.png" exists and decodes to a good 64x64
      image, yet the file loader as written returns NULL and caches nothing, where the
      intended loader returns and caches the decoded image. */
  lemma ExistingFileNeverLoaded()
    ensures var img := Ptr(Image(1, 64, 64, Ok));
            var asWritten := FileLoadAsWritten(map[], "a.png", {"a.png"}, img);
            var intended := FileLoadIntended(map[], "a.png", {"a.png"}, img);
            asWritten.image == Null && asWritten.files == map[]
            && intended.image == img && intended.files == map["a.png" := img]
  {
  }

  /** One call of `LoadImageFromStream` with its oracles. */
  datatype LoadRequest = LoadRequest(path: string, fs: FileSystem, io: IoSteps, decoded: Handle)

  function Load(files: map<string, Handle>, req: LoadRequest): LoadOutcome {
    StreamLoad(files, req.path, req.fs, req.io, req.decoded)
  }

  /** The outcomes of a sequence of stream loads, each starting from the cache the
      previous one left. */
  function Serve(files: map<string, Handle>, reqs: seq<LoadRequest>): (outs: seq<LoadOutcome>)
    decreases |reqs|
    ensures |outs| == |reqs|
    ensures forall i :: 0 <= i < |reqs| ==> files.Keys <= outs[i].files.Keys
  {
    if reqs == [] then []
    else
      var o := Load(files, reqs[0]);
      [o] + Serve(o.files, reqs[1..])
  }

  /** How many loads of `reqs` add `p` to the cache. */
  function Inserts(files: map<string, Handle>, reqs: seq<LoadRequest>, p: string): nat
    decreases |reqs|
  {
    if reqs == [] then 0
    else
      var o := Load(files, reqs[0]);
      (if reqs[0].path == p && o.files != files then 1 else 0) + Inserts(o.files, reqs[1..], p)
  }

  /** Once a path is cached, the `i`-th later load keeps its entry, and if it loads that
      path it returns the cached pointer without opening the file or decoding again. */
  lemma {:induction false} CachedEntryIsServedAt(files: map<string, Handle>, reqs: seq<LoadRequest>, p: string, i: nat)
    requires p in files && i < |reqs|
    decreases i
    ensures var out := Serve(files, reqs)[i];
            p in out.files && out.files[p] == files[p]
            && (reqs[i].path == p ==> out.image == files[p] && !out.fileOpened && !out.decoded)
  {
    var o := Load(files, reqs[0]);
    assert Serve(files, reqs) == [o] + Serve(o.files, reqs[1..]);
    assert p in o.files && o.files[p] == files[p];
    if i > 0 {
      CachedEntryIsServedAt(o.files, reqs[1..], p, i - 1);
      assert reqs[i] == reqs[1..][i - 1];
    }
  }

  /** Once a path is cached, every later load keeps its entry, and every later load of
      that path returns the cached pointer without opening the file or decoding again. */
  lemma CachedEntryIsServed(files: map<string, Handle>, reqs: seq<LoadRequest>, p: string)
    requires p in files
    ensures var outs := Serve(files, reqs);
            forall i :: 0 <= i < |reqs| ==> p in outs[i].files && outs[i].files[p] == files[p]
    ensures var outs := Serve(files, reqs);
            forall i :: 0 <= i < |reqs| && reqs[i].path == p ==>
              outs[i].image == files[p] && !outs[i].fileOpened && !outs[i].decoded
  {
    forall i | 0 <= i < |reqs|
      ensures var out := Serve(files, reqs)[i];
              p in out.files && out.files[p] == files[p]
              && (reqs[i].path == p ==> out.image == files[p] && !out.fileOpened && !out.decoded)
    {
      CachedEntryIsServedAt(files, reqs, p, i);
    }
  }

  /** A path is added to the cache at most once over any sequence of loads, and never
      when it is already cached: a good decode is never repeated. */
  lemma {:induction false} AtMostOneInsertPerPath(files: map<string, Handle>, reqs: seq<LoadRequest>, p: string)
    ensures Inserts(files, reqs, p) <= if p in files then 0 else 1
    decreases |reqs|
  {
    if reqs != [] {
      var o := Load(files, reqs[0]);
      AtMostOneInsertPerPath(o.files, reqs[1..], p);
    }
  }

  class GdiPlusImageData {
    /** `m_mapBitmapFromFile` */
    var files: map<string, Handle>
    /** `m_mapBitmapFromSteam`: declared but never written */
    var streams: map<string, Handle>
    /** how many times a loader has tried to open a file */
    ghost var opens: nat
    /** how many times a loader has called the decoder */
    ghost var decodes: nat

    ghost predicate Valid()
      reads this
    {
      CacheValid(files) && streams == map[]
    }

    constructor ()
      ensures Valid() && files == map[] && opens == 0 && decodes == 0
    {
      files, streams := map[], map[];
      opens, decodes := 0, 0;
    }

    /** `CheckFileExists`: NULL is never a file; otherwise the filesystem decides. */
    static function CheckFileExists(path: PathArg, fs: FileSystem): (present: bool)
      ensures present <==> path != NullPath && path.text in fs
    {
      match path
      case NullPath => false
      case PathText(text) => text in fs
    }

    /** `BitmapHasLoaded`: the out-parameter `image` is overwritten only on a hit. */
    method BitmapHasLoaded(path: string, image: Handle) returns (found: bool, image': Handle)
      ensures found <==> path in files
      ensures found ==> image' == files[path]
      ensures !found ==> image' == image
    {
      found := path in files;
      image' := image;
      if found {
        image' := files[path];
      }
    }

    /** `InsertBitmapInMap` */
    method InsertBitmapInMap(path: string, image: Handle)
      modifies this`files
      ensures files == MapInsert(old(files), path, image)
    {
      if path !in files {
        files := files[path := image];
      }
    }

    /** `ClearAllImageData`: deletes every cached image, then empties the file cache. */
    method ClearAllImageData()
      modifies this`files
      ensures files == map[]
    {
      files := map[];
    }

    method LoadImageFromStream(path: string, fs: FileSystem, io: IoSteps, decoded: Handle) returns (image: Handle)
      modifies this`files, this`opens, this`decodes
      ensures var r := StreamLoad(old(files), path, fs, io, decoded);
              image == r.image && files == r.files
              && opens == old(opens) + (if r.fileOpened then 1 else 0)
              && decodes == old(decodes) + (if r.decoded then 1 else 0)
      ensures old(Valid()) ==> Valid()
    {
      var hasLoaded;
      hasLoaded, image := BitmapHasLoaded(path, Null);
      if hasLoaded {
        return;
      }
      if !CheckFileExists(PathText(path), fs) {
        return Null;
      }
      opens := opens + 1;
      if !io.open {       // CreateFile: goto Exit0
        return Null;
      }
      if !io.sizeQuery {  // GetFileSizeEx: goto Clear0
        return Null;
      }
      if !io.alloc {      // GlobalAlloc
        return Null;
      }
      if !io.lock {       // GlobalLock
        return Null;
      }
      if !io.read {       // ReadFile
        return Null;
      }
      if !io.stream {     // CreateStreamOnHGlobal
        return Null;
      }
      decodes := decodes + 1;
      image := decoded;  // Bitmap::FromStream
      if image != Null && image.image.status == Ok {
        InsertBitmapInMap(path, image);
      }
    }

    method LoadImageFromFile(path: string, fs: FileSystem, decoded: Handle) returns (image: Handle)
      modifies this`files, this`opens, this`decodes
      ensures var r := FileLoadAsWritten(old(files), path, fs, decoded);
              image == r.image && files == r.files
              && opens == old(opens) + (if r.fileOpened then 1 else 0)
              && decodes == old(decodes) + (if r.decoded then 1 else 0)
      ensures old(Valid()) ==> Valid()
    {
      if CheckFileExists(PathText(path), fs) {
        return Null;
      }
      var hasLoaded;
      hasLoaded, image := BitmapHasLoaded(path, Null);
      if hasLoaded {
        return;
      }
      opens, decodes := opens + 1, decodes + 1;
      image := decoded;  // Bitmap::FromFile
      if image == Null || image.image.status != Ok {
        return Null;
      }
      InsertBitmapInMap(path, image);
    }
  }
}
