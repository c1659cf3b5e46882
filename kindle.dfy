/**
 * The device layer (src/device/kindle.rs): choosing the Kindle among the
 * attached USB devices, resolving a slash-separated path to an MTP object id by
 * walking the object graph one segment at a time, listing a folder, and
 * downloading a file.
 *
 * The device is abstract: a storage pool whose first storage holds, for every
 * parent (the root or a folder id), the sequence of child objects in the order
 * the device reports them.
 */
module Kindle {
  import opened Wrappers
  import opened Strings
  import opened Errors

  type U16 = x: nat | x < 0x1_0000
  type U32 = x: nat | x < 0x1_0000_0000
  type U64 = x: nat | x < 0x1_0000_0000_0000_0000

  /** MTP object ids are 32-bit. */
  type ObjectId = U32

  /** Amazon's USB vendor id: the only vendor the tool talks to. */
  const AmazonVendorId: U16 := 0x1949

  const NoStorageMessage := "No storage found"
  const RootPathMessage := "Cannot resolve root path to ID"

  /** Only the folder file type matters to the tool. */
  datatype Filetype = FolderType | OtherType(code: nat)

  /** Where an object sits: at the top of the storage, or inside a folder. */
  datatype Parent = Root | Folder(id: ObjectId)

  /** An object as the device reports it. */
  datatype Object = Object(id: ObjectId, name: string, size: U64, ftype: Filetype)

  /** A storage of the device: its description and capacities, and its object graph. */
  datatype Storage = Storage(
    description: Option<string>,
    maximumCapacity: U64,
    freeSpace: U64,
    children: map<Parent, seq<Object>>)

  /** An opened device: its storages in the order the storage pool yields them. */
  datatype Device = Device(storagePool: seq<Storage>)

  /** A raw USB device: its vendor id, and the device that opening it yields, if any. */
  datatype RawDevice = RawDevice(vendorId: U16, connection: Option<Device>)

  /** The outcome of enumerating the raw devices: a list, or the library's error text. */
  datatype Enumeration = Devices(list: seq<RawDevice>) | EnumError(text: string)

  /** A listed object as the tool reports it. */
  datatype FileEntry = FileEntry(name: string, size: U64, isFolder: bool, id: ObjectId)

  datatype StorageInfo = StorageInfo(description: string, totalBytes: U64, freeBytes: U64)

  // ---------------------------------------------------------------------------
  // Device selection (`Kindle::detect`)

  predicate IsKindle(d: RawDevice) {
    d.vendorId == AmazonVendorId
  }

  /** `k` is the position of the first Amazon device of `list`. */
  predicate IsFirstKindle(list: seq<RawDevice>, k: nat) {
    k < |list| && IsKindle(list[k]) && forall j :: 0 <= j < k ==> !IsKindle(list[j])
  }

  /** Picks the first Amazon device and opens it; maps enumeration failures to errors. */
  function Detect(en: Enumeration): (r: Result<Device>)
    ensures en.EnumError? && Contains(en.text, "NoDeviceAttached") ==> r == Err(DeviceNotFound)
    ensures en.EnumError? && !Contains(en.text, "NoDeviceAttached") ==> r == Err(Mtp(en.text))
    ensures en.Devices? ==>
      (r.Ok? <==> exists k: nat :: IsFirstKindle(en.list, k) && en.list[k].connection.Some?)
    ensures en.Devices? && r.Ok? ==>
      exists k: nat :: IsFirstKindle(en.list, k) && en.list[k].connection == Some(r.value)
    ensures en.Devices? && r.Err? ==> r.error == DeviceNotFound
  {
    match en
    case EnumError(text) =>
      if Contains(text, "NoDeviceAttached") then Err(DeviceNotFound) else Err(Mtp(text))
    case Devices(list) =>
      match FindIndex(list, IsKindle)
      case None => Err(DeviceNotFound)
      case Some(k) =>
        assert IsFirstKindle(list, k);
        assert forall k': nat :: IsFirstKindle(list, k') ==> k' == k;
        match list[k].connection
        case None => Err(DeviceNotFound)
        case Some(d) => Ok(d)
  }

  // ---------------------------------------------------------------------------
  // The storage and its object graph

  /** The first storage of the pool, or the "No storage found" error. */
  function FirstStorage(dev: Device): (r: Result<Storage>)
    ensures r.Ok? <==> |dev.storagePool| > 0
    ensures r.Ok? ==> r.value == dev.storagePool[0]
    ensures r.Err? ==> r.error == Mtp(NoStorageMessage)
  {
    if |dev.storagePool| == 0 then Err(Mtp(NoStorageMessage)) else Ok(dev.storagePool[0])
  }

  /** The children of `p`, in device order (`files_and_folders`). */
  function FilesAndFolders(st: Storage, p: Parent): seq<Object> {
    if p in st.children then st.children[p] else []
  }

  /** The first child of `p` whose name is exactly `name` (`find` on the listing). */
  function Lookup(st: Storage, p: Parent, name: string): (r: Option<Object>)
    ensures r.Some? ==> r.value.name == name
  {
    var files := FilesAndFolders(st, p);
    match FindIndex(files, (o: Object) => o.name == name)
    case None => None
    case Some(k) => Some(files[k])
  }

  /** The lookup finds nothing exactly when no child has the name, and otherwise the first that has it. */
  lemma LookupFirst(st: Storage, p: Parent, name: string)
    ensures Lookup(st, p, name).None? <==> forall o :: o in FilesAndFolders(st, p) ==> o.name != name
    ensures Lookup(st, p, name).Some? ==>
      exists k: nat :: FirstNamed(FilesAndFolders(st, p), name, k) && FilesAndFolders(st, p)[k] == Lookup(st, p, name).value
  {
    var files := FilesAndFolders(st, p);
    match FindIndex(files, (o: Object) => o.name == name)
    case None =>
    case Some(k) =>
      assert FirstNamed(files, name, k);
  }

  /** `k` is the position of the first object of `files` named `name`. */
  predicate FirstNamed(files: seq<Object>, name: string, k: nat) {
    k < |files| && files[k].name == name && forall j :: 0 <= j < k ==> files[j].name != name
  }

  /** The storage description, capacity and free space (`Kindle::storage_info`). */
  function GetStorageInfo(dev: Device): (r: Result<StorageInfo>)
    ensures r.Ok? <==> |dev.storagePool| > 0
    ensures r.Err? ==> r.error == Mtp(NoStorageMessage)
    ensures r.Ok? ==> var st := dev.storagePool[0];
      && r.value.totalBytes == st.maximumCapacity
      && r.value.freeBytes == st.freeSpace
      && (st.description.None? ==> r.value.description == "Internal Storage")
      && (st.description.Some? ==> r.value.description == st.description.value)
  {
    var st :- FirstStorage(dev);
    Ok(StorageInfo(st.description.GetOr("Internal Storage"), st.maximumCapacity, st.freeSpace))
  }

  // ---------------------------------------------------------------------------
  // Path segments

  /** The segments of a path: the non-empty `/`-separated pieces after the leading slashes. */
  function Segments(path: string): (r: seq<string>)
    ensures forall i :: 0 <= i < |r| ==> r[i] != "" && '/' !in r[i]
  {
    var pieces := Split(TrimStart(path, '/'), '/');
    var r := NonEmpty(pieces);
    assert forall i :: 0 <= i < |r| ==> '/' !in r[i] by {
      forall i | 0 <= i < |r| ensures '/' !in r[i] {
        var j :| 0 <= j < |pieces| && pieces[j] == r[i];
      }
    }
    r
  }

  /** A path that is still non-empty once its leading slashes are trimmed has at least one segment. */
  lemma TrimmedPathHasSegment(path: string)
    requires TrimStart(path, '/') != []
    ensures |Segments(path)| > 0
  {
    var t := TrimStart(path, '/');
    assert t[0] != '/';
    var pieces := Split(t, '/');
    assert pieces[0] == [t[0]] + Split(t[1..], '/')[0];
    assert pieces == [pieces[0]] + pieces[1..];
  }

  /** The trimmed path is empty exactly when the path has no segments. */
  lemma NoSegmentsIffTrimmedEmpty(path: string)
    ensures TrimStart(path, '/') == [] <==> Segments(path) == []
  {
    if TrimStart(path, '/') != [] {
      TrimmedPathHasSegment(path);
    } else {
      assert Split("", '/') == [""];
    }
  }

  /** The trimmed path is empty exactly when the path is empty or made only of slashes. */
  lemma TrimmedEmptyIffOnlySlashes(path: string)
    ensures TrimStart(path, '/') == [] <==> forall i :: 0 <= i < |path| ==> path[i] == '/'
  {
    var t := TrimStart(path, '/');
    if t != [] {
      assert path[|path| - |t|] == t[0];
    }
  }

  /** The empty path has no segments. */
  lemma SegmentsOfEmpty()
    ensures Segments("") == []
  {
    assert Split("", '/') == [""];
  }

  /** A non-empty name without `/` is a path of exactly that one segment. */
  lemma SegmentsOfName(n: string)
    requires n != "" && '/' !in n
    ensures Segments(n) == [n]
  {
    assert n[0] != '/';
    assert TrimStart(n, '/') == n;
    SplitNoSep(n, '/');
    NonEmptySingle(n);
  }

  /** Leading slashes only produce empty pieces, which the filter drops anyway. */
  lemma {:induction false} FilteredSplitIgnoresLeadingSlashes(q: string)
    ensures NonEmpty(Split(q, '/')) == NonEmpty(Split(TrimStart(q, '/'), '/'))
    decreases |q|
  {
    if |q| > 0 && q[0] == '/' {
      assert Split(q, '/') == [""] + Split(q[1..], '/');
      NonEmptyAppend([""], Split(q[1..], '/'));
      NonEmptySingle("");
      FilteredSplitIgnoresLeadingSlashes(q[1..]);
    }
  }

  /** Paths that trim to the same text have the same segments. */
  lemma SegmentsOfSameTrim(p: string, q: string)
    requires TrimStart(p, '/') == TrimStart(q, '/')
    ensures Segments(p) == Segments(q)
  {
  }

  /** A path that is only slashes adds nothing in front of another path. */
  lemma SegmentsAfterSlashes(p: string, q: string)
    requires TrimStart(p, '/') == []
    ensures Segments(p + "/" + q) == Segments(q)
  {
    assert TrimStart(p + "/" + q, '/') == TrimStart(q, '/') by {
      var sq := "/" + q;
      assert p + "/" + q == p + sq;
      TrimStartAppend(p, '/', sq);
      assert sq[0] == '/' && sq[1..] == q;
    }
    SegmentsOfSameTrim(p + "/" + q, q);
  }

  /** A `/` between two strings may be grouped with the second one. */
  lemma SlashRegroup(p: string, q: string)
    ensures p + "/" + q == p + ("/" + q)
  {
  }

  /** Trimming stops inside a path that has segments, so the rest is kept verbatim. */
  lemma TrimOfNamedConcat(p: string, q: string)
    requires TrimStart(p, '/') != []
    ensures TrimStart(p + "/" + q, '/') == TrimStart(p, '/') + "/" + q
  {
    SlashRegroup(p, q);
    SlashRegroup(TrimStart(p, '/'), q);
    TrimStartAppend(p, '/', "/" + q);
  }

  /** After a path with segments, the pieces of the second path follow those of the first. */
  lemma SegmentsAfterNamed(p: string, q: string)
    requires TrimStart(p, '/') != []
    ensures Segments(p + "/" + q) == Segments(p) + Segments(q)
  {
    var t := TrimStart(p, '/');
    var x := Split(t, '/');
    var y := Split(q, '/');
    TrimOfNamedConcat(p, q);
    SplitAppend(t, '/', q);
    assert Segments(p + "/" + q) == NonEmpty(x + y);
    NonEmptyAppend(x, y);
    FilteredSplitIgnoresLeadingSlashes(q);
  }

  /** Joining two paths with a `/` concatenates their segments, whatever slashes either path carries. */
  lemma SegmentsConcat(p: string, q: string)
    ensures Segments(p + "/" + q) == Segments(p) + Segments(q)
  {
    if TrimStart(p, '/') == [] {
      NoSegmentsIffTrimmedEmpty(p);
      SegmentsAfterSlashes(p, q);
    } else {
      SegmentsAfterNamed(p, q);
    }
  }

  /** One leading slash does not change the segments. */
  lemma SegmentsAfterSlash(q: string)
    ensures Segments("/" + q) == Segments(q)
  {
    assert TrimStart("/" + q, '/') == TrimStart(q, '/') by {
      var sq := "/" + q;
      assert sq[0] == '/' && sq[1..] == q;
    }
    SegmentsOfSameTrim("/" + q, q);
  }

  /** Two trailing slashes do not change the segments. */
  lemma SegmentsBeforeSlashes(p: string)
    ensures Segments(p + "//") == Segments(p)
  {
    var slash := "/" + "";
    assert p + "/" + slash == p + "//" by {
      assert |p + "/" + slash| == |p + "//"|;
      forall i | 0 <= i < |p + "//"| ensures (p + "/" + slash)[i] == (p + "//")[i] {
      }
    }
    SegmentsConcat(p, slash);
    SegmentsAfterSlash("");
    SegmentsOfEmpty();
    assert Segments(slash) == [];
  }

  /** Leading slashes, trailing slashes and runs of slashes do not change the segments. */
  lemma SlashVariantsAgree(n: string)
    requires n != "" && '/' !in n
    ensures Segments(n) == Segments("/" + n) == Segments("//" + n + "//") == [n]
  {
    var b := n + "//";
    var c := "/" + b;
    var d := "/" + c;
    assert d == "//" + n + "//" by {
      assert |d| == |"//" + n + "//"|;
      forall i | 0 <= i < |d| ensures d[i] == ("//" + n + "//")[i] {
      }
    }
    SegmentsOfName(n);
    SegmentsAfterSlash(n);
    SegmentsBeforeSlashes(n);
    SegmentsAfterSlash(b);
    SegmentsAfterSlash(c);
  }

  /** A non-empty join of non-empty pieces starts with the first piece's first character. */
  lemma JoinStartsWith(xs: seq<string>, sep: char)
    requires |xs| > 0 && xs[0] != ""
    ensures |Join(xs, sep)| > 0 && Join(xs, sep)[0] == xs[0][0]
  {
  }

  /** Non-empty `/`-free pieces joined by `/` have exactly those pieces as segments. */
  lemma SegmentsOfJoin(xs: seq<string>)
    requires forall i :: 0 <= i < |xs| ==> xs[i] != "" && '/' !in xs[i]
    ensures Segments(Join(xs, '/')) == xs
  {
    if xs == [] {
      assert TrimStart("", '/') == "";
      assert Split("", '/') == [""];
    } else {
      var t := Join(xs, '/');
      JoinStartsWith(xs, '/');
      assert TrimStart(t, '/') == t;
      SplitJoin(xs, '/');
    }
  }

  /** Re-normalising the segments of a path, joined by `/`, gives the same segments. */
  lemma NormalizeIdempotent(path: string)
    ensures Segments(Join(Segments(path), '/')) == Segments(path)
  {
    SegmentsOfJoin(Segments(path));
  }

  // ---------------------------------------------------------------------------
  // Path resolution

  function NotFoundMessage(part: string): string {
    "'" + part + "' not found in path"
  }

  function NotDirectoryMessage(part: string): string {
    "'" + part + "' is not a directory"
  }

  /** The walk from `p` along `segs`: first exact-name match at each step, folders in between. */
  function Walk(st: Storage, p: Parent, segs: seq<string>): Result<ObjectId>
    requires |segs| > 0
    decreases |segs|
  {
    match Lookup(st, p, segs[0])
    case None => Err(FileNotFound(NotFoundMessage(segs[0])))
    case Some(o) =>
      if |segs| == 1 then Ok(o.id)
      else if !o.ftype.FolderType? then Err(InvalidPath(NotDirectoryMessage(segs[0])))
      else Walk(st, Folder(o.id), segs[1..])
  }

  /** One step of a walk: how the first segment's lookup decides it or hands it on. */
  lemma WalkStep(st: Storage, p: Parent, segs: seq<string>)
    requires |segs| > 0
    ensures Lookup(st, p, segs[0]).None? ==> Walk(st, p, segs) == Err(FileNotFound(NotFoundMessage(segs[0])))
    ensures Lookup(st, p, segs[0]).Some? && |segs| == 1 ==> Walk(st, p, segs) == Ok(Lookup(st, p, segs[0]).value.id)
    ensures Lookup(st, p, segs[0]).Some? && |segs| > 1 && !Lookup(st, p, segs[0]).value.ftype.FolderType? ==>
      Walk(st, p, segs) == Err(InvalidPath(NotDirectoryMessage(segs[0])))
    ensures Lookup(st, p, segs[0]).Some? && |segs| > 1 && Lookup(st, p, segs[0]).value.ftype.FolderType? ==>
      Walk(st, p, segs) == Walk(st, Folder(Lookup(st, p, segs[0]).value.id), segs[1..])
  {
  }

  /** The object id a path names (`resolve_path`), as a function of the device. */
  function Resolve(dev: Device, path: string): (r: Result<ObjectId>)
    ensures |dev.storagePool| == 0 ==> r == Err(Mtp(NoStorageMessage))
    ensures |dev.storagePool| > 0 && Segments(path) == [] ==> r == Err(InvalidPath(RootPathMessage))
    ensures r.Ok? ==> |Segments(path)| > 0
  {
    NoSegmentsIffTrimmedEmpty(path);
    var st :- FirstStorage(dev);
    if TrimStart(path, '/') == [] then Err(InvalidPath(RootPathMessage))
    else
      TrimmedPathHasSegment(path);
      Walk(st, Root, Segments(path))
  }

  /** Paths with the same segments resolve alike: `a`, `/a` and `//a//` name the same object. */
  lemma ResolveDependsOnSegments(dev: Device, p: string, q: string)
    requires Segments(p) == Segments(q)
    ensures Resolve(dev, p) == Resolve(dev, q)
  {
    NoSegmentsIffTrimmedEmpty(p);
    NoSegmentsIffTrimmedEmpty(q);
  }

  /** Resolving a path is the same as resolving its normalised form. */
  lemma ResolveNormalized(dev: Device, path: string)
    ensures Resolve(dev, Join(Segments(path), '/')) == Resolve(dev, path)
  {
    NormalizeIdempotent(path);
    ResolveDependsOnSegments(dev, Join(Segments(path), '/'), path);
  }

  /** Resolves a path by walking from the root one segment at a time (`resolve_path`). */
  method ResolvePath(dev: Device, path: string) returns (r: Result<ObjectId>)
    ensures r == Resolve(dev, path)
  {
    if |dev.storagePool| == 0 {
      return Err(Mtp(NoStorageMessage));
    }
    var storage := dev.storagePool[0];
    var trimmed := TrimStart(path, '/');
    if trimmed == [] {
      return Err(InvalidPath(RootPathMessage));
    }
    var parts := NonEmpty(Split(trimmed, '/'));
    TrimmedPathHasSegment(path);
    assert parts == Segments(path);
    r := WalkSegments(storage, parts);
  }

  /** The loop of `resolve_path`: one lookup per segment, descending into each folder. */
  method WalkSegments(storage: Storage, parts: seq<string>) returns (r: Result<ObjectId>)
    requires |parts| > 0
    ensures r == Walk(storage, Root, parts)
  {
    var currentParent := Root;
    for i := 0 to |parts|
      invariant i < |parts|
      invariant Walk(storage, currentParent, parts[i..]) == Walk(storage, Root, parts)
    {
      var found := Lookup(storage, currentParent, parts[i]);
      assert parts[i..][0] == parts[i] && |parts[i..]| == |parts| - i;
      WalkStep(storage, currentParent, parts[i..]);
      match found {
        case Some(f) =>
          if i == |parts| - 1 {
            return Ok(f.id);
          }
          if !f.ftype.FolderType? {
            return Err(InvalidPath(NotDirectoryMessage(parts[i])));
          }
          assert parts[i..][1..] == parts[i + 1..];
          currentParent := Folder(f.id);
        case None =>
          return Err(FileNotFound(NotFoundMessage(parts[i])));
      }
    }
    assert false;
    return Err(InvalidPath("Path resolution failed"));
  }

  // ---------------------------------------------------------------------------
  // What a walk means: chains of folders

  /**
   * `objs` are the objects the walk from `p` meets along `segs`: at each step the
   * first child with the segment's name, and every one of them a folder.
   */
  ghost predicate FolderChain(st: Storage, p: Parent, segs: seq<string>, objs: seq<Object>)
    decreases |segs|
  {
    && |objs| == |segs|
    && (|segs| > 0 ==>
          && Lookup(st, p, segs[0]) == Some(objs[0])
          && objs[0].ftype.FolderType?
          && FolderChain(st, Folder(objs[0].id), segs[1..], objs[1..]))
  }

  /** The parent a chain of folders from `p` ends in. */
  function EndOf(p: Parent, objs: seq<Object>): Parent {
    if objs == [] then p else Folder(objs[|objs| - 1].id)
  }

  /** Every object of a folder chain is a folder named by its segment. */
  lemma {:induction false} ChainSpellsSegments(st: Storage, p: Parent, segs: seq<string>, objs: seq<Object>)
    requires FolderChain(st, p, segs, objs)
    ensures forall i :: 0 <= i < |segs| ==> objs[i].name == segs[i] && objs[i].ftype.FolderType?
    decreases |segs|
  {
    if |segs| > 0 {
      ChainSpellsSegments(st, Folder(objs[0].id), segs[1..], objs[1..]);
      forall i | 1 <= i < |segs|
        ensures objs[i].name == segs[i] && objs[i].ftype.FolderType?
      {
        assert objs[1..][i - 1] == objs[i] && segs[1..][i - 1] == segs[i];
      }
    }
  }

  /** Prepending a first step to a folder chain. */
  lemma ChainCons(st: Storage, p: Parent, segs: seq<string>, k: nat, o: Object, objs: seq<Object>)
    requires k < |segs|
    requires Lookup(st, p, segs[0]) == Some(o) && o.ftype.FolderType?
    requires FolderChain(st, Folder(o.id), segs[1..][..k], objs)
    ensures FolderChain(st, p, segs[..k + 1], [o] + objs)
    ensures EndOf(p, [o] + objs) == EndOf(Folder(o.id), objs)
  {
    assert segs[..k + 1][1..] == segs[1..][..k];
    assert ([o] + objs)[1..] == objs;
  }

  /** After a folder chain over the first `k` segments, the walk continues from where it ends. */
  lemma {:induction false} WalkAlongChain(st: Storage, p: Parent, segs: seq<string>, k: nat, objs: seq<Object>)
    requires k < |segs| && FolderChain(st, p, segs[..k], objs)
    ensures Walk(st, p, segs) == Walk(st, EndOf(p, objs), segs[k..])
    decreases k
  {
    if k == 0 {
      assert segs[0..] == segs;
    } else {
      assert segs[..k][1..] == segs[1..][..k - 1];
      WalkAlongChain(st, Folder(objs[0].id), segs[1..], k - 1, objs[1..]);
      assert segs[1..][k - 1..] == segs[k..];
    }
  }

  /** A walk succeeds with `o`: folders along all but the last segment, then `o` for the last. */
  ghost predicate ReachesVia(st: Storage, p: Parent, segs: seq<string>, objs: seq<Object>, o: Object)
    requires |segs| > 0
  {
    FolderChain(st, p, segs[..|segs| - 1], objs) && Lookup(st, EndOf(p, objs), segs[|segs| - 1]) == Some(o)
  }

  /** A walk fails at segment `k`: folders before it, and no child of that name. */
  ghost predicate MissingAt(st: Storage, p: Parent, segs: seq<string>, k: nat, objs: seq<Object>) {
    k < |segs| && FolderChain(st, p, segs[..k], objs) && Lookup(st, EndOf(p, objs), segs[k]) == None
  }

  /** A walk fails at segment `k`: folders before it, and a non-folder `o` where more segments follow. */
  ghost predicate NonFolderAt(st: Storage, p: Parent, segs: seq<string>, k: nat, objs: seq<Object>, o: Object) {
    && k + 1 < |segs|
    && FolderChain(st, p, segs[..k], objs)
    && Lookup(st, EndOf(p, objs), segs[k]) == Some(o)
    && !o.ftype.FolderType?
  }

  /** The folders and the final object a successful walk passes through. */
  lemma {:induction false} WalkOkChain(st: Storage, p: Parent, segs: seq<string>) returns (objs: seq<Object>, o: Object)
    requires |segs| > 0 && Walk(st, p, segs).Ok?
    ensures ReachesVia(st, p, segs, objs, o) && o.id == Walk(st, p, segs).value
    decreases |segs|
  {
    var o0 := Lookup(st, p, segs[0]).value;
    if |segs| == 1 {
      objs, o := [], o0;
    } else {
      var rest := segs[1..];
      assert o0.ftype.FolderType?;
      assert Walk(st, p, segs) == Walk(st, Folder(o0.id), rest);
      var tail;
      tail, o := WalkOkChain(st, Folder(o0.id), rest);
      ReachesViaCons(st, p, segs, o0, tail, o);
      objs := [o0] + tail;
    }
  }

  lemma WalkOkHasChain(st: Storage, p: Parent, segs: seq<string>)
    requires |segs| > 0 && Walk(st, p, segs).Ok?
    ensures exists objs: seq<Object>, o: Object :: ReachesVia(st, p, segs, objs, o) && o.id == Walk(st, p, segs).value
  {
    var objs, o := WalkOkChain(st, p, segs);
  }

  /** Prepending a first folder to a successful walk. */
  lemma ReachesViaCons(st: Storage, p: Parent, segs: seq<string>, o0: Object, objs: seq<Object>, o: Object)
    requires |segs| >= 2
    requires Lookup(st, p, segs[0]) == Some(o0) && o0.ftype.FolderType?
    requires ReachesVia(st, Folder(o0.id), segs[1..], objs, o)
    ensures ReachesVia(st, p, segs, [o0] + objs, o)
  {
    ChainCons(st, p, segs, |segs| - 2, o0, objs);
    assert segs[..|segs| - 1] == segs[..|segs| - 2 + 1];
    assert segs[1..][|segs[1..]| - 1] == segs[|segs| - 1];
  }

  /** A walk succeeds with id `id` exactly when it reaches, through folders, an object with that id. */
  lemma WalkOkIff(st: Storage, p: Parent, segs: seq<string>, id: ObjectId)
    requires |segs| > 0
    ensures Walk(st, p, segs) == Ok(id) <==>
      exists objs: seq<Object>, o: Object :: ReachesVia(st, p, segs, objs, o) && o.id == id
  {
    if Walk(st, p, segs) == Ok(id) {
      WalkOkHasChain(st, p, segs);
    }
    if exists objs: seq<Object>, o: Object :: ReachesVia(st, p, segs, objs, o) && o.id == id {
      var objs, o :| ReachesVia(st, p, segs, objs, o) && o.id == id;
      ReachesGivesWalk(st, p, segs, objs, o);
    }
  }

  /** A walk that reaches `o` through folders returns `o`'s id. */
  lemma ReachesGivesWalk(st: Storage, p: Parent, segs: seq<string>, objs: seq<Object>, o: Object)
    requires |segs| > 0 && ReachesVia(st, p, segs, objs, o)
    ensures Walk(st, p, segs) == Ok(o.id)
  {
    WalkAlongChain(st, p, segs, |segs| - 1, objs);
    assert segs[|segs| - 1..] == [segs[|segs| - 1]];
  }

  /** Where a walk that fails with "not found" stops, and the folders before that point. */
  lemma {:induction false} WalkNotFoundChain(st: Storage, p: Parent, segs: seq<string>, m: string)
    returns (k: nat, objs: seq<Object>)
    requires |segs| > 0 && Walk(st, p, segs) == Err(FileNotFound(m))
    ensures MissingAt(st, p, segs, k, objs) && m == NotFoundMessage(segs[k])
    decreases |segs|
  {
    match Lookup(st, p, segs[0])
    case None =>
      k, objs := 0, [];
    case Some(o0) =>
      var rest := segs[1..];
      assert |segs| > 1 && o0.ftype.FolderType?;
      assert Walk(st, p, segs) == Walk(st, Folder(o0.id), rest);
      var j, tail := WalkNotFoundChain(st, Folder(o0.id), rest, m);
      assert rest[j] == segs[j + 1];
      ChainCons(st, p, segs, j, o0, tail);
      k, objs := j + 1, [o0] + tail;
  }

  lemma WalkNotFoundHasChain(st: Storage, p: Parent, segs: seq<string>, m: string)
    requires |segs| > 0 && Walk(st, p, segs) == Err(FileNotFound(m))
    ensures exists k: nat, objs: seq<Object> :: MissingAt(st, p, segs, k, objs) && m == NotFoundMessage(segs[k])
  {
    var k, objs := WalkNotFoundChain(st, p, segs, m);
  }

  /** A walk fails with "not found" for segment `k` exactly when folders lead to it and it is missing. */
  lemma WalkNotFoundIff(st: Storage, p: Parent, segs: seq<string>, m: string)
    requires |segs| > 0
    ensures Walk(st, p, segs) == Err(FileNotFound(m)) <==>
      exists k: nat, objs: seq<Object> :: MissingAt(st, p, segs, k, objs) && m == NotFoundMessage(segs[k])
  {
    if Walk(st, p, segs) == Err(FileNotFound(m)) {
      WalkNotFoundHasChain(st, p, segs, m);
    }
    if exists k: nat, objs: seq<Object> :: MissingAt(st, p, segs, k, objs) && m == NotFoundMessage(segs[k]) {
      var k: nat, objs: seq<Object> :| MissingAt(st, p, segs, k, objs) && m == NotFoundMessage(segs[k]);
      WalkAlongChain(st, p, segs, k, objs);
    }
  }

  /** Where a walk that fails with "is not a directory" stops, the folders before and the object there. */
  lemma {:induction false} WalkNotDirectoryChain(st: Storage, p: Parent, segs: seq<string>, m: string)
    returns (k: nat, objs: seq<Object>, o: Object)
    requires |segs| > 0 && Walk(st, p, segs) == Err(InvalidPath(m))
    ensures NonFolderAt(st, p, segs, k, objs, o) && m == NotDirectoryMessage(segs[k])
    decreases |segs|
  {
    var o0 := Lookup(st, p, segs[0]).value;
    if !o0.ftype.FolderType? {
      k, objs, o := 0, [], o0;
    } else {
      var rest := segs[1..];
      assert Walk(st, p, segs) == Walk(st, Folder(o0.id), rest);
      var j, tail;
      j, tail, o := WalkNotDirectoryChain(st, Folder(o0.id), rest, m);
      assert rest[j] == segs[j + 1];
      ChainCons(st, p, segs, j, o0, tail);
      k, objs := j + 1, [o0] + tail;
    }
  }

  lemma WalkNotDirectoryHasChain(st: Storage, p: Parent, segs: seq<string>, m: string)
    requires |segs| > 0 && Walk(st, p, segs) == Err(InvalidPath(m))
    ensures exists k: nat, objs: seq<Object>, o: Object ::
      NonFolderAt(st, p, segs, k, objs, o) && m == NotDirectoryMessage(segs[k])
  {
    var k, objs, o := WalkNotDirectoryChain(st, p, segs, m);
  }

  /** A walk fails with "is not a directory" exactly when it meets a non-folder before the last segment. */
  lemma WalkNotDirectoryIff(st: Storage, p: Parent, segs: seq<string>, m: string)
    requires |segs| > 0
    ensures Walk(st, p, segs) == Err(InvalidPath(m)) <==>
      exists k: nat, objs: seq<Object>, o: Object ::
        NonFolderAt(st, p, segs, k, objs, o) && m == NotDirectoryMessage(segs[k])
  {
    if Walk(st, p, segs) == Err(InvalidPath(m)) {
      WalkNotDirectoryHasChain(st, p, segs, m);
    }
    if exists k: nat, objs: seq<Object>, o: Object ::
        NonFolderAt(st, p, segs, k, objs, o) && m == NotDirectoryMessage(segs[k]) {
      var k: nat, objs: seq<Object>, o: Object :| NonFolderAt(st, p, segs, k, objs, o) && m == NotDirectoryMessage(segs[k]);
      WalkAlongChain(st, p, segs, k, objs);
    }
  }

  /** A walk only ever fails with "not found" or "is not a directory". */
  lemma {:induction false} WalkErrorKinds(st: Storage, p: Parent, segs: seq<string>)
    requires |segs| > 0
    ensures Walk(st, p, segs).Err? ==> Walk(st, p, segs).error.FileNotFound? || Walk(st, p, segs).error.InvalidPath?
    decreases |segs|
  {
    if |segs| > 1 && Lookup(st, p, segs[0]).Some? {
      WalkErrorKinds(st, Folder(Lookup(st, p, segs[0]).value.id), segs[1..]);
    }
  }

  /** Once a walk fails, the segments after the failing one are never looked at. */
  lemma {:induction false} WalkErrorIgnoresLaterSegments(st: Storage, p: Parent, a: seq<string>, b: seq<string>)
    requires |a| > 0 && Walk(st, p, a).Err?
    ensures Walk(st, p, a + b) == Walk(st, p, a)
    decreases |a|
  {
    assert (a + b)[0] == a[0];
    if |a| > 1 && Lookup(st, p, a[0]).Some? && Lookup(st, p, a[0]).value.ftype.FolderType? {
      assert (a + b)[1..] == a[1..] + b;
      WalkErrorIgnoresLaterSegments(st, Folder(Lookup(st, p, a[0]).value.id), a[1..], b);
    }
  }

  /** `resolve_path` succeeds exactly when folders named by the segments lead from the root to the object. */
  lemma ResolveOkIff(dev: Device, path: string, id: ObjectId)
    ensures Resolve(dev, path) == Ok(id) <==>
      && |dev.storagePool| > 0
      && |Segments(path)| > 0
      && exists objs: seq<Object>, o: Object :: ReachesVia(dev.storagePool[0], Root, Segments(path), objs, o) && o.id == id
  {
    NoSegmentsIffTrimmedEmpty(path);
    if |dev.storagePool| > 0 && |Segments(path)| > 0 {
      WalkOkIff(dev.storagePool[0], Root, Segments(path), id);
    }
  }

  // ---------------------------------------------------------------------------
  // Listing (`list_files`) and download (`download_file`)

  /** The paths that `list_files` treats as the root without resolving them. */
  predicate IsRootPath(path: string) {
    path == "/" || path == ""
  }

  function ToEntry(o: Object): FileEntry {
    FileEntry(o.name, o.size, o.ftype.FolderType?, o.id)
  }

  /** The listing of a parent as file entries (the `map`/`collect` of `list_files`). */
  function ToEntries(objs: seq<Object>): (r: seq<FileEntry>)
    ensures Mirrors(objs, r)
  {
    seq(|objs|, i requires 0 <= i < |objs| => ToEntry(objs[i]))
  }

  /** `entries` report `objs` one for one, in the same order. */
  ghost predicate Mirrors(objs: seq<Object>, entries: seq<FileEntry>) {
    && |entries| == |objs|
    && forall i :: 0 <= i < |objs| ==>
         && entries[i].name == objs[i].name
         && entries[i].size == objs[i].size
         && entries[i].id == objs[i].id
         && (entries[i].isFolder <==> objs[i].ftype == FolderType)
  }

  /** The children of the root (for "/" and "") or of the folder the path resolves to. */
  function ListFiles(dev: Device, path: string): (r: Result<seq<FileEntry>>)
    ensures |dev.storagePool| == 0 ==> r == Err(Mtp(NoStorageMessage))
    ensures |dev.storagePool| > 0 && IsRootPath(path) ==>
      r.Ok? && Mirrors(FilesAndFolders(dev.storagePool[0], Root), r.value)
    ensures |dev.storagePool| > 0 && !IsRootPath(path) && Resolve(dev, path).Err? ==>
      r == Err(Resolve(dev, path).error)
    ensures |dev.storagePool| > 0 && !IsRootPath(path) && Resolve(dev, path).Ok? ==>
      r.Ok? && Mirrors(FilesAndFolders(dev.storagePool[0], Folder(Resolve(dev, path).value)), r.value)
  {
    var st :- FirstStorage(dev);
    if IsRootPath(path) then Ok(ToEntries(FilesAndFolders(st, Root)))
    else
      var id :- Resolve(dev, path);
      Ok(ToEntries(FilesAndFolders(st, Folder(id))))
  }

  /** "//" is not the root for `list_files`: it goes to `resolve_path`, which refuses it. */
  lemma ListDoubleSlashFails(dev: Device)
    requires |dev.storagePool| > 0
    ensures ListFiles(dev, "//") == Err(InvalidPath(RootPathMessage))
  {
    TrimmedEmptyIffOnlySlashes("//");
    NoSegmentsIffTrimmedEmpty("//");
  }

  /**
   * Resolves the remote path and fetches that object to `local`; `fetch` stands
   * for the library's transfer and gives its error text, if any.
   */
  function DownloadFile(dev: Device, remote: string, local: string, fetch: (ObjectId, string) -> Option<string>): (r: Result<()>)
    ensures Resolve(dev, remote).Err? ==> r == Err(Resolve(dev, remote).error)
    ensures Resolve(dev, remote).Ok? && fetch(Resolve(dev, remote).value, local).None? ==> r == Ok(())
    ensures Resolve(dev, remote).Ok? && fetch(Resolve(dev, remote).value, local).Some? ==>
      r == Err(TransferFailed(fetch(Resolve(dev, remote).value, local).value))
  {
    var id :- Resolve(dev, remote);
    if |dev.storagePool| == 0 then Err(Mtp(NoStorageMessage))
    else
      match fetch(id, local)
      case None => Ok(())
      case Some(e) => Err(TransferFailed(e))
  }
}
