/**
 * The bundle archive and the edits the build makes to it (`findBundleRoot`,
 * `rebase`, `stripSignatures` and the payload replacement in app.js). An
 * archive is a map from path to entry, as JSZip's `files` table is; its
 * operations are key deletion and insertion.
 */
module Archive {
  import opened Wrappers
  import opened Text
  import opened Plist

  /** What a file holds: raw bytes, text, or an edited property list (serialisation is not modelled). */
  datatype Content = Bytes(data: seq<bv8>) | Script(text: string) | PlistDocument(dict: seq<Element>)

  /** A folder, or a file with its optional UNIX permission bits. */
  datatype Entry = Dir | File(content: Content, permissions: Option<int>)

  const ExecutableMode := 493  // 0o755
  const RegularMode := 420     // 0o644

  /** `path` with a trailing '/' added when missing, as folder names are stored. */
  function ForceSlash(path: string): (r: string)
    ensures EndsWith(r, "/")
    ensures EndsWith(path, "/") ==> r == path
  {
    if EndsWith(path, "/") then path else path + "/"
  }

  /** `files` without every path that starts with `prefix`. */
  function PrefixRemoved(files: map<string, Entry>, prefix: string): (r: map<string, Entry>)
    ensures forall p :: p in r <==> p in files && !StartsWith(p, prefix)
    ensures forall p :: p in r ==> r[p] == files[p]
  {
    map p | p in files && !StartsWith(p, prefix) :: files[p]
  }

  /**
   * JSZip's `remove(name)`: a file is deleted by itself; otherwise `name`
   * (with a '/' added when it is not an entry) is taken as a folder and
   * everything under it is deleted.
   */
  function Removed(files: map<string, Entry>, name: string): (r: map<string, Entry>)
    ensures r.Keys <= files.Keys
    ensures forall p :: p in r ==> r[p] == files[p]
    ensures forall p :: p in files && !StartsWith(p, name) ==> p in r
    ensures name !in r
    ensures name in files && files[name].File? ==> r == files - {name}
    ensures name in files && files[name].Dir? ==> forall p :: p in r <==> p in files && !StartsWith(p, name)
    ensures name !in files && ForceSlash(name) in files && files[ForceSlash(name)].File? ==>
      r == files - {ForceSlash(name)}
    ensures name !in files && !(ForceSlash(name) in files && files[ForceSlash(name)].File?) ==>
      forall p :: p in r <==> p in files && !StartsWith(p, ForceSlash(name))
  {
    if name in files then
      if files[name].File? then
        assert StartsWith(name, name);
        files - {name}
      else
        assert StartsWith(name, name);
        PrefixRemoved(files, name)
    else
      var folder := ForceSlash(name);
      assert forall p :: StartsWith(p, folder) ==> StartsWith(p, name) by {
        forall p | StartsWith(p, folder)
          ensures StartsWith(p, name)
        {
          assert p[..|name|] == folder[..|name|];
        }
      }
      assert StartsWith(folder, folder);
      if folder in files && files[folder].File? then files - {folder}
      else PrefixRemoved(files, folder)
  }

  /** Removing a folder removes everything stored under it. */
  lemma RemovedFolderIsEmptied(files: map<string, Entry>, name: string, p: string)
    requires EndsWith(name, "/") && (name !in files || files[name].Dir?)
    requires StartsWith(p, name)
    ensures p !in Removed(files, name)
  {
  }

  class Zip {
    var files: map<string, Entry>

    constructor()
      ensures files == map[]
    {
      files := map[];
    }

    /** `remove(name)`. */
    method Remove(name: string)
      modifies this
      ensures files == Removed(old(files), name)
    {
      files := Removed(files, name);
    }

    /** `file(path, data, options)`: store (or overwrite) a file. */
    method PutFile(path: string, content: Content, permissions: Option<int>)
      modifies this
      ensures files == old(files)[path := File(content, permissions)]
    {
      files := files[path := File(content, permissions)];
    }

    /** `folder(name)`: add the folder unless an entry by that name exists. */
    method PutFolder(name: string)
      modifies this
      ensures ForceSlash(name) in old(files) ==> files == old(files)
      ensures ForceSlash(name) !in old(files) ==> files == old(files)[ForceSlash(name) := Dir]
    {
      var key := ForceSlash(name);
      if key !in files {
        files := files[key := Dir];
      }
    }
  }

  /** The first segment of a path, `path.split('/')[0]`. */
  function Head(path: string): string {
    Before(path, '/')
  }

  /** A first segment naming a screen-saver bundle. */
  predicate IsBundleHead(head: string) {
    head != "" && EndsWith(head, ".saver")
  }

  /** The distinct bundle roots, with their '/', among the first segments of `paths`. */
  function Roots(paths: set<string>): (r: set<string>)
    ensures forall p :: p in paths && IsBundleHead(Head(p)) ==> Head(p) + "/" in r
    ensures forall root :: root in r ==> EndsWith(root, ".saver/")
  {
    var r := set p | p in paths && IsBundleHead(Head(p)) :: Head(p) + "/";
    assert forall root :: root in r ==> EndsWith(root, ".saver/") by {
      forall root | root in r
        ensures EndsWith(root, ".saver/")
      {
        var p :| p in paths && IsBundleHead(Head(p)) && root == Head(p) + "/";
        var h := Head(p);
        assert h[|h| - 6..] == ".saver";
        assert root[|root| - 7..] == h[|h| - 6..] + "/";
      }
    }
    r
  }

  /** Roots of a union are the union of the roots. */
  lemma RootsUnion(a: set<string>, b: set<string>)
    ensures Roots(a + b) == Roots(a) + Roots(b)
  {
  }

  /**
   * `findBundleRoot`: collect the distinct bundle roots over all paths, and
   * answer the root when there is exactly one, and nothing otherwise.
   */
  method FindBundleRoot(zip: Zip) returns (root: Option<string>)
    ensures root.Some? <==> |Roots(zip.files.Keys)| == 1
    ensures root.Some? ==> Roots(zip.files.Keys) == {root.value}
    ensures root.Some? ==> EndsWith(root.value, ".saver/")
  {
    var roots: set<string> := {};
    var todo := zip.files.Keys;
    while todo != {}
      invariant todo <= zip.files.Keys
      invariant roots == Roots(zip.files.Keys - todo)
      decreases todo
    {
      var path :| path in todo;
      var head := Head(path);
      RootsUnion(zip.files.Keys - todo, {path});
      assert zip.files.Keys - (todo - {path}) == (zip.files.Keys - todo) + {path};
      if head != "" && EndsWith(head, ".saver") {
        roots := roots + {head + "/"};
      } else {
        assert Roots({path}) == {};
      }
      todo := todo - {path};
    }
    assert zip.files.Keys - todo == zip.files.Keys;
    if |roots| == 1 {
      var only :| only in roots;
      assert |roots - {only}| == 0;
      assert roots == {only} by {
        assert roots - {only} == {};
      }
      root := Some(only);
    } else {
      root := None;
    }
  }

  /** Where `rebase` moves a path: the old root prefix replaced by the new one, other paths kept. */
  function Target(path: string, oldRoot: string, newRoot: string): (r: string)
    ensures StartsWith(path, oldRoot) ==> StartsWith(r, newRoot) && r[|newRoot|..] == path[|oldRoot|..]
    ensures !StartsWith(path, oldRoot) ==> r == path
  {
    if StartsWith(path, oldRoot) then newRoot + path[|oldRoot|..] else path
  }

  /** Moving from one root to another and back restores every path that was under the first root or under neither. */
  lemma TargetRoundTrip(path: string, a: string, b: string)
    requires StartsWith(path, a) || !StartsWith(path, b)
    ensures Target(Target(path, a, b), b, a) == path
  {
    if StartsWith(path, a) {
      var t := Target(path, a, b);
      assert t[..|b|] == b;
      assert path == a + path[|a|..];
    }
  }

  /** With empty roots nothing moves. */
  lemma TargetEmptyRoots(path: string)
    ensures Target(path, "", "") == path
  {
    assert StartsWith(path, "");
    assert path[0..] == path;
  }

  /**
   * The permissions a copied file gets: the stored bits when there are
   * some, else 0o755 for a file inside the executable folder, else 0o644.
   */
  function Permissions(target: string, stored: Option<int>, executableFolder: string): (r: int)
    ensures stored.Some? ==> r == stored.value
    ensures stored.None? ==> (r == ExecutableMode <==> StartsWith(target, executableFolder) && !EndsWith(target, "/"))
    ensures stored.None? ==> (r == RegularMode <==> !(StartsWith(target, executableFolder) && !EndsWith(target, "/")))
  {
    match stored
    case Some(bits) => bits
    case None => if StartsWith(target, executableFolder) && !EndsWith(target, "/") then ExecutableMode else RegularMode
  }

  /** The key an entry is copied to: folders are stored with a trailing '/'. */
  function NewKey(path: string, entry: Entry, oldRoot: string, newRoot: string): string {
    if entry.Dir? then ForceSlash(Target(path, oldRoot, newRoot)) else Target(path, oldRoot, newRoot)
  }

  /** The copied entry: a folder stays a folder; a file keeps its content and gets definite permissions. */
  function Moved(path: string, entry: Entry, oldRoot: string, newRoot: string, executableFolder: string): (r: Entry)
    ensures r.Dir? <==> entry.Dir?
    ensures entry.File? ==> r.content == entry.content
    ensures entry.File? ==> r.permissions == Some(Permissions(Target(path, oldRoot, newRoot), entry.permissions, executableFolder))
  {
    match entry
    case Dir => Dir
    case File(content, permissions) =>
      File(content, Some(Permissions(Target(path, oldRoot, newRoot), permissions, executableFolder)))
  }

  /** Every folder is stored under a name ending in '/', as JSZip names folders. */
  predicate FoldersSlashed(files: map<string, Entry>) {
    forall p :: p in files && files[p].Dir? ==> EndsWith(p, "/")
  }

  /** A folder already named with its '/' is copied to its target path as it is. */
  lemma NewKeyIsTarget(path: string, entry: Entry, oldRoot: string, newRoot: string)
    requires entry.Dir? ==> EndsWith(path, "/")
    requires EndsWith(newRoot, "/")
    ensures NewKey(path, entry, oldRoot, newRoot) == Target(path, oldRoot, newRoot)
  {
    var t := Target(path, oldRoot, newRoot);
    if entry.Dir? && StartsWith(path, oldRoot) {
      if |path| == |oldRoot| {
        assert t == newRoot;
      } else {
        assert t[|t| - 1] == path[|path| - 1];
      }
    }
  }

  /**
   * With folders named with their '/', and no entry outside the old root
   * already under the new one, no two entries are copied to the same key.
   */
  lemma SlashedInjective(files: map<string, Entry>, oldRoot: string, newRoot: string)
    requires FoldersSlashed(files)
    requires EndsWith(newRoot, "/")
    requires forall q :: q in files && StartsWith(q, newRoot) ==> StartsWith(q, oldRoot)
    ensures Injective(files, oldRoot, newRoot)
  {
    forall p, q | p in files && q in files && p != q
      ensures NewKey(p, files[p], oldRoot, newRoot) != NewKey(q, files[q], oldRoot, newRoot)
    {
      NewKeyIsTarget(p, files[p], oldRoot, newRoot);
      NewKeyIsTarget(q, files[q], oldRoot, newRoot);
      TargetApart(p, q, oldRoot, newRoot);
    }
  }

  /** Two different paths have different targets unless one outside the old root lies under the new one. */
  lemma TargetApart(p: string, q: string, oldRoot: string, newRoot: string)
    requires p != q
    requires StartsWith(p, newRoot) ==> StartsWith(p, oldRoot)
    requires StartsWith(q, newRoot) ==> StartsWith(q, oldRoot)
    ensures Target(p, oldRoot, newRoot) != Target(q, oldRoot, newRoot)
  {
    if StartsWith(p, oldRoot) && StartsWith(q, oldRoot) {
      assert p == oldRoot + p[|oldRoot|..];
      assert q == oldRoot + q[|oldRoot|..];
    }
  }

  /** A path under `<name>.saver/`, for a name without '/', makes that folder a bundle root. */
  lemma UnderBundleRoot(paths: set<string>, q: string, name: string)
    requires q in paths && name != "" && '/' !in name
    requires StartsWith(q, name + ".saver/")
    ensures name + ".saver/" in Roots(paths)
  {
    var head := name + ".saver";
    var k := |head|;
    assert q[..k + 1] == head + "/";
    assert q[..k] == head && q[k] == '/';
    assert '/' !in head;
    BeforeFirst(q, '/', k);
    assert head[|head| - 6..] == ".saver";
    assert IsBundleHead(Head(q));
  }

  /**
   * A path missing under the old root is missing under the new one after
   * the move, when folders are named with their '/' and nothing outside the
   * old root already lies under the new one.
   */
  lemma MovedAbsent(files: map<string, Entry>, oldRoot: string, newRoot: string, rest: string)
    requires FoldersSlashed(files) && EndsWith(newRoot, "/")
    requires forall q :: q in files && StartsWith(q, newRoot) ==> StartsWith(q, oldRoot)
    requires oldRoot + rest !in files
    ensures newRoot + rest !in Image(files, files.Keys, oldRoot, newRoot)
  {
    forall p | p in files
      ensures NewKey(p, files[p], oldRoot, newRoot) != newRoot + rest
    {
      NewKeyIsTarget(p, files[p], oldRoot, newRoot);
      if StartsWith(p, oldRoot) {
        assert p == oldRoot + p[|oldRoot|..];
      } else if Target(p, oldRoot, newRoot) == newRoot + rest {
        assert StartsWith(p, newRoot);
      }
    }
  }

  /**
   * A folder emptied under the old root is empty under the new one after
   * the move, under the same conditions as `MovedAbsent`.
   */
  lemma MovedNothingUnder(files: map<string, Entry>, oldRoot: string, newRoot: string, rest: string)
    requires FoldersSlashed(files) && EndsWith(newRoot, "/")
    requires forall q :: q in files && StartsWith(q, newRoot) ==> StartsWith(q, oldRoot)
    requires forall q :: q in files ==> !StartsWith(q, oldRoot + rest)
    ensures forall k :: k in Image(files, files.Keys, oldRoot, newRoot) ==> !StartsWith(k, newRoot + rest)
  {
    forall p | p in files
      ensures !StartsWith(NewKey(p, files[p], oldRoot, newRoot), newRoot + rest)
    {
      NewKeyIsTarget(p, files[p], oldRoot, newRoot);
      var t := Target(p, oldRoot, newRoot);
      var n := |newRoot| + |rest|;
      if StartsWith(p, oldRoot) && |p| >= |oldRoot| + |rest| {
        var mid := p[|oldRoot|..|oldRoot| + |rest|];
        assert p[..|oldRoot| + |rest|] == oldRoot + mid;
        assert t[..n] == newRoot + mid;
        assert (newRoot + mid)[|newRoot|..] == mid && (oldRoot + mid)[|oldRoot|..] == mid;
      } else if !StartsWith(p, oldRoot) && |p| >= n {
        assert t[..n][..|newRoot|] == p[..|newRoot|];
      }
    }
  }

  /** No two entries are copied to the same key. */
  predicate Injective(files: map<string, Entry>, oldRoot: string, newRoot: string) {
    forall p, q :: p in files && q in files && p != q ==>
      NewKey(p, files[p], oldRoot, newRoot) != NewKey(q, files[q], oldRoot, newRoot)
  }

  /** The keys the entries at `paths` are copied to. */
  function Image(files: map<string, Entry>, paths: set<string>, oldRoot: string, newRoot: string): set<string>
    requires paths <= files.Keys
  {
    set p | p in paths :: NewKey(p, files[p], oldRoot, newRoot)
  }

  /**
   * `r` is the copy `rebase` and `createInstaller` build from the entries at
   * `paths`: exactly their new keys, each holding the moved entry, so folders
   * stay folders and files keep their content and get definite permissions.
   */
  ghost predicate IsCopy(r: map<string, Entry>, files: map<string, Entry>, paths: set<string>,
                         oldRoot: string, newRoot: string, executableFolder: string)
    requires paths <= files.Keys
  {
    && r.Keys == Image(files, paths, oldRoot, newRoot)
    && forall p :: p in paths ==>
         NewKey(p, files[p], oldRoot, newRoot) in r &&
         r[NewKey(p, files[p], oldRoot, newRoot)] == Moved(p, files[p], oldRoot, newRoot, executableFolder)
  }

  /** Copying one more path adds its key to the image. */
  lemma ImageStep(files: map<string, Entry>, paths: set<string>, p: string, oldRoot: string, newRoot: string)
    requires paths <= files.Keys && p in files
    ensures Image(files, paths + {p}, oldRoot, newRoot)
         == Image(files, paths, oldRoot, newRoot) + {NewKey(p, files[p], oldRoot, newRoot)}
  {
  }

  /** When keys do not collide, a copy extended with one more moved entry is the copy of one more path. */
  lemma IsCopyStep(r: map<string, Entry>, files: map<string, Entry>, paths: set<string>, p: string,
                   oldRoot: string, newRoot: string, executableFolder: string)
    requires paths <= files.Keys && p in files && p !in paths
    requires Injective(files, oldRoot, newRoot)
    requires IsCopy(r, files, paths, oldRoot, newRoot, executableFolder)
    ensures NewKey(p, files[p], oldRoot, newRoot) !in r
    ensures IsCopy(r[NewKey(p, files[p], oldRoot, newRoot) := Moved(p, files[p], oldRoot, newRoot, executableFolder)],
                   files, paths + {p}, oldRoot, newRoot, executableFolder)
  {
    ImageStep(files, paths, p, oldRoot, newRoot);
  }

  /**
   * The copying loop shared by `rebase` and `createInstaller`: every entry
   * of `source`, in the order JSZip lists them (here an arbitrary one), is
   * added to a fresh archive, a folder with `folder` and a file with `file`
   * and its permissions. The keys are always the image; when no two entries
   * collide the result is the copy.
   */
  method CopyEntries(source: Zip, oldRoot: string, newRoot: string, executableFolder: string) returns (clone: Zip)
    ensures fresh(clone)
    ensures clone.files.Keys == Image(source.files, source.files.Keys, oldRoot, newRoot)
    ensures Injective(source.files, oldRoot, newRoot) ==>
      IsCopy(clone.files, source.files, source.files.Keys, oldRoot, newRoot, executableFolder)
  {
    clone := new Zip();
    var files := source.files;
    var todo := files.Keys;
    var done: set<string> := {};
    while todo != {}
      invariant fresh(clone)
      invariant todo + done == files.Keys && todo !! done
      invariant clone.files.Keys == Image(files, done, oldRoot, newRoot)
      invariant Injective(files, oldRoot, newRoot) ==>
        IsCopy(clone.files, files, done, oldRoot, newRoot, executableFolder)
      decreases todo
    {
      var path :| path in todo;
      var entry := files[path];
      var target := Target(path, oldRoot, newRoot);
      ImageStep(files, done, path, oldRoot, newRoot);
      if Injective(files, oldRoot, newRoot) {
        IsCopyStep(clone.files, files, done, path, oldRoot, newRoot, executableFolder);
      }
      match entry {
        case Dir =>
          clone.PutFolder(target);
        case File(content, permissions) =>
          clone.PutFile(target, content, Some(Permissions(target, permissions, executableFolder)));
      }
      done := done + {path};
      todo := todo - {path};
    }
  }

  /**
   * `rebase`: the same archive when the roots are equal; otherwise a fresh
   * copy with the old root replaced by the new one, whose files inside
   * `<newRoot>Contents/MacOS/` default to being executable.
   */
  method Rebase(zip: Zip, oldRoot: string, newRoot: string) returns (result: Zip)
    ensures oldRoot == newRoot ==> result == zip
    ensures oldRoot != newRoot ==> fresh(result)
    ensures oldRoot != newRoot ==> result.files.Keys == Image(zip.files, zip.files.Keys, oldRoot, newRoot)
    ensures oldRoot != newRoot && Injective(zip.files, oldRoot, newRoot) ==>
      IsCopy(result.files, zip.files, zip.files.Keys, oldRoot, newRoot, newRoot + "Contents/MacOS/")
  {
    if oldRoot == newRoot {
      return zip;
    }
    result := CopyEntries(zip, oldRoot, newRoot, newRoot + "Contents/MacOS/");
  }

  /** The three code-signature paths `stripSignatures` removes. */
  function SignaturePaths(root: string): seq<string> {
    [root + "Contents/_CodeSignature/", root + "Contents/_CodeSignature/CodeResources", root + "Contents/CodeResources"]
  }

  /** The table after `stripSignatures`: each signature path removed in turn. */
  function Stripped(files: map<string, Entry>, root: string): map<string, Entry> {
    Removed(Removed(Removed(files, SignaturePaths(root)[0]), SignaturePaths(root)[1]), SignaturePaths(root)[2])
  }

  /** `stripSignatures`: remove the signature folder and the two resource lists. */
  method StripSignatures(zip: Zip, root: string)
    modifies zip
    ensures zip.files == Stripped(old(zip.files), root)
    ensures forall p :: p in SignaturePaths(root) ==> p !in zip.files
    ensures zip.files.Keys <= old(zip.files).Keys
    ensures forall p :: p in zip.files ==> zip.files[p] == old(zip.files)[p]
    ensures forall p ::
      p in old(zip.files) && !StartsWith(p, SignaturePaths(root)[0]) &&
      !StartsWith(p, SignaturePaths(root)[1]) && !StartsWith(p, SignaturePaths(root)[2])
      ==> p in zip.files
  {
    var paths := SignaturePaths(root);
    zip.Remove(paths[0]);
    zip.Remove(paths[1]);
    zip.Remove(paths[2]);
  }

  function PayloadPath(root: string): string {
    root + "Contents/Resources/payload.mp4"
  }

  function LegacyPayloadPath(root: string): string {
    root + "Contents/Resources/payload.mov"
  }

  /** The table after the payload swap: both payload names removed, then the new payload.mp4 stored. */
  function PayloadSwapped(files: map<string, Entry>, root: string, bytes: seq<bv8>): map<string, Entry> {
    Removed(Removed(files, PayloadPath(root)), LegacyPayloadPath(root))[PayloadPath(root) := File(Bytes(bytes), Some(RegularMode))]
  }

  /** The payload swap: drop any old .mp4 or .mov payload, then store the new bytes as payload.mp4 with 0o644. */
  method ReplacePayload(zip: Zip, root: string, bytes: seq<bv8>)
    modifies zip
    ensures zip.files == PayloadSwapped(old(zip.files), root, bytes)
    ensures LegacyPayloadPath(root) !in zip.files
    ensures zip.files[PayloadPath(root)] == File(Bytes(bytes), Some(RegularMode))
    ensures forall p :: p in old(zip.files) && !StartsWith(p, PayloadPath(root)) && !StartsWith(p, LegacyPayloadPath(root)) ==>
      p in zip.files && zip.files[p] == old(zip.files)[p]
    ensures forall p :: p in zip.files && p != PayloadPath(root) ==> p in old(zip.files) && zip.files[p] == old(zip.files)[p]
  {
    zip.Remove(PayloadPath(root));
    zip.Remove(LegacyPayloadPath(root));
    assert PayloadPath(root) != LegacyPayloadPath(root) by {
      assert PayloadPath(root)[|PayloadPath(root)| - 1] != LegacyPayloadPath(root)[|LegacyPayloadPath(root)| - 1];
    }
    zip.PutFile(PayloadPath(root), Bytes(bytes), Some(RegularMode));
  }
}
