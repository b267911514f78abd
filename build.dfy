/**
 * The bundle-editing steps of `buildSaver` (app.js): find the template's
 * bundle, check its Info.plist, prepare the video, strip the code
 * signature, swap the payload, patch the property list, move the bundle to
 * its new name and wrap it with an installer. Template loading, probing,
 * reading the file and compressing the downloads are outside the model;
 * the probe, the engine replies and the parsed property list are inputs.
 */
module Build {
  import opened Wrappers
  import opened Text
  import opened Classifier
  import opened Progress
  import opened Orchestrator
  import opened Plist
  import opened Archive
  import opened Installer
  import opened Naming

  /** The two downloads offered at the end, with their file names, and the plan's description. */
  datatype Downloads = Downloads(
    bundle: map<string, Entry>,
    bundleName: string,
    installer: map<string, Entry>,
    installerName: string,
    description: string)

  const MissingRootMessage := "Template missing .saver root folder."
  const MissingInfoMessage := "Info.plist not found in template."
  const FallbackMessage := "Build failed."

  /** The status text for a failure: the error's message, or a fixed sentence when it is empty. */
  function FailureText(message: string): (r: string)
    ensures r != ""
    ensures message != "" ==> r == message
  {
    if message != "" then message else FallbackMessage
  }

  function InfoPath(root: string): string {
    root + "Contents/Info.plist"
  }

  /** The template has a file (not a folder) at `path`, as `zip.file(path)` requires. */
  predicate HasFile(files: map<string, Entry>, path: string) {
    path in files && files[path].File?
  }

  /** The property-list edits the build makes: the bundle's display name, then its identifier. */
  function BundleValues(saverName: string, bundleId: string): seq<(string, string)> {
    [("CFBundleName", saverName), ("CFBundleIdentifier", bundleId)]
  }

  /** The two keys the build sets are different, so both read back as set. */
  lemma BundleValuesSet(children: seq<Element>, saverName: string, bundleId: string)
    ensures Lookup(UpsertAll(children, BundleValues(saverName, bundleId)), "CFBundleName") == Some(saverName)
    ensures Lookup(UpsertAll(children, BundleValues(saverName, bundleId)), "CFBundleIdentifier") == Some(bundleId)
  {
    var values := BundleValues(saverName, bundleId);
    assert values[0].0 != values[1].0;
    assert DistinctKeys(values);
    UpsertAllSetsEach(children, values, 0);
    UpsertAllSetsEach(children, values, 1);
  }

  /** The patched property list the build stores: the template's dictionary with the two keys set. */
  function PatchedDict(parsed: ParsedPlist, saverName: string, bundleId: string): seq<Element>
    requires parsed.WellFormed? && parsed.dict.Some?
  {
    UpsertAll(parsed.dict.value, BundleValues(saverName, bundleId))
  }

  /** The paths the "Updating bundle" step may touch: the signature, the old and new payloads and Info.plist. */
  predicate Edited(root: string, p: string) {
    || StartsWith(p, SignaturePaths(root)[0]) || StartsWith(p, SignaturePaths(root)[1])
    || StartsWith(p, SignaturePaths(root)[2])
    || StartsWith(p, PayloadPath(root)) || StartsWith(p, LegacyPayloadPath(root))
    || p == InfoPath(root)
  }

  /**
   * `edited` is `template` after a successful "Updating bundle" step: the
   * payload holds `bytes` and Info.plist holds `dict`; no signature path and
   * no payload.mov is left, and the signature folder is empty unless a file
   * held its name; every other entry is the template's, unchanged.
   */
  predicate UpdatedFrom(edited: map<string, Entry>, template: map<string, Entry>, root: string,
                        bytes: seq<bv8>, dict: seq<Element>) {
    && PayloadPath(root) in edited && edited[PayloadPath(root)] == File(Bytes(bytes), Some(RegularMode))
    && InfoPath(root) in edited && edited[InfoPath(root)] == File(PlistDocument(dict), None)
    && Unsigned(edited, root)
    && (!HasFile(template, SignaturePaths(root)[0]) ==> NothingUnder(edited, SignaturePaths(root)[0]))
    && (forall p :: p in template && !Edited(root, p) ==> p in edited && edited[p] == template[p])
    && (forall p :: p in edited ==>
          || p == PayloadPath(root)
          || (p == InfoPath(root) && edited[p].File?)
          || (p in template && edited[p] == template[p]))
  }

  /** The first two edits of "Updating bundle": strip the signature and swap the payload. */
  method StripAndReplace(zip: Zip, root: string, bytes: seq<bv8>)
    modifies zip
    ensures zip.files == PayloadSwapped(Stripped(old(zip.files), root), root, bytes)
    ensures Unsigned(zip.files, root)
    ensures !HasFile(old(zip.files), SignaturePaths(root)[0]) ==> NothingUnder(zip.files, SignaturePaths(root)[0])
    ensures forall p :: p in SignaturePaths(root) ==> p !in zip.files
    ensures PayloadPath(root) in zip.files && zip.files[PayloadPath(root)] == File(Bytes(bytes), Some(RegularMode))
    ensures forall p :: p in old(zip.files) && !Edited(root, p) ==> p in zip.files && zip.files[p] == old(zip.files)[p]
    ensures forall p :: p in zip.files && p != PayloadPath(root) ==> p in old(zip.files) && zip.files[p] == old(zip.files)[p]
  {
    StripSignatures(zip, root);
    ReplacePayload(zip, root, bytes);
    SwappedIsUnsigned(old(zip.files), root, bytes);
  }

  /**
   * After the strip and the swap no signature path and no payload.mov is
   * left, and the signature folder is empty unless a file held its name.
   */
  lemma SwappedIsUnsigned(files: map<string, Entry>, root: string, bytes: seq<bv8>)
    ensures Unsigned(PayloadSwapped(Stripped(files, root), root, bytes), root)
    ensures !HasFile(files, SignaturePaths(root)[0]) ==>
      NothingUnder(PayloadSwapped(Stripped(files, root), root, bytes), SignaturePaths(root)[0])
  {
    StrippedIsUnsigned(files, root);
    SwapKeepsUnsigned(Stripped(files, root), root, bytes);
  }

  /** After `stripSignatures` no signature path is left, and the folder is empty unless a file held its name. */
  lemma StrippedIsUnsigned(files: map<string, Entry>, root: string)
    ensures forall p :: p in SignaturePaths(root) ==> p !in Stripped(files, root)
    ensures !HasFile(files, SignaturePaths(root)[0]) ==> NothingUnder(Stripped(files, root), SignaturePaths(root)[0])
  {
    var folder := SignaturePaths(root)[0];
    assert EndsWith(folder, "/") by {
      assert folder[|folder| - 1..] == "/";
    }
    assert Stripped(files, root).Keys <= Removed(files, folder).Keys;
  }

  /** The payload swap removes payload.mov and adds nothing under the signature paths. */
  lemma SwapKeepsUnsigned(files: map<string, Entry>, root: string, bytes: seq<bv8>)
    requires forall p :: p in SignaturePaths(root) ==> p !in files
    ensures Unsigned(PayloadSwapped(files, root, bytes), root)
    ensures NothingUnder(files, SignaturePaths(root)[0]) ==>
      NothingUnder(PayloadSwapped(files, root, bytes), SignaturePaths(root)[0])
  {
    var folder := SignaturePaths(root)[0];
    assert PayloadPath(root)[|root| + 9] != folder[|root| + 9];
    assert !StartsWith(PayloadPath(root), folder);
    assert PayloadPath(root) != LegacyPayloadPath(root) by {
      assert PayloadPath(root)[|PayloadPath(root)| - 1] != LegacyPayloadPath(root)[|LegacyPayloadPath(root)| - 1];
    }
    assert forall p :: p in SignaturePaths(root) ==> |p| != |PayloadPath(root)|;
    assert Removed(Removed(files, PayloadPath(root)), LegacyPayloadPath(root)).Keys <= files.Keys;
  }

  /**
   * The "Updating bundle" step: strip the signature, replace the payload,
   * then patch Info.plist from the text read before the edits. A parse
   * failure stops the step after the first two edits, with the parser's
   * message; otherwise the payload and the patched property list are in
   * place. Either way the signature paths and the old payload.mov are gone.
   * Every other entry of the bundle
   * (the executable under Contents/MacOS, the resources) stays as it was,
   * and nothing else is added.
   */
  method UpdateBundle(zip: Zip, root: string, bytes: seq<bv8>, parsed: ParsedPlist,
                      saverName: string, bundleId: string)
    returns (failure: Option<string>)
    modifies zip
    ensures parsed.Malformed? ==> failure == Some(InvalidXmlMessage)
    ensures parsed.WellFormed? && parsed.dict.None? ==> failure == Some(MissingDictMessage)
    ensures parsed.WellFormed? && parsed.dict.Some? ==> failure == None
    ensures failure.Some? ==> zip.files == PayloadSwapped(Stripped(old(zip.files), root), root, bytes)
    ensures failure.None? ==>
      zip.files == PayloadSwapped(Stripped(old(zip.files), root), root, bytes)
                     [InfoPath(root) := File(PlistDocument(PatchedDict(parsed, saverName, bundleId)), None)]
    ensures forall p :: p in SignaturePaths(root) ==> p !in zip.files
    ensures Unsigned(zip.files, root)
    ensures !HasFile(old(zip.files), SignaturePaths(root)[0]) ==> NothingUnder(zip.files, SignaturePaths(root)[0])
    ensures PayloadPath(root) in zip.files && zip.files[PayloadPath(root)] == File(Bytes(bytes), Some(RegularMode))
    ensures failure.None? ==>
      InfoPath(root) in zip.files && zip.files[InfoPath(root)] == File(PlistDocument(PatchedDict(parsed, saverName, bundleId)), None)
    ensures forall p :: p in old(zip.files) && !Edited(root, p) ==> p in zip.files && zip.files[p] == old(zip.files)[p]
    ensures forall p :: p in zip.files ==>
      || p == PayloadPath(root)
      || (p == InfoPath(root) && zip.files[p].File?)
      || (p in old(zip.files) && zip.files[p] == old(zip.files)[p])
    ensures failure.None? ==> UpdatedFrom(zip.files, old(zip.files), root, bytes, PatchedDict(parsed, saverName, bundleId))
  {
    StripAndReplace(zip, root, bytes);
    if parsed.WellFormed? && parsed.dict.Some? {
      InfoWritten(old(zip.files), zip.files, root, bytes, File(PlistDocument(PatchedDict(parsed, saverName, bundleId)), None));
    }
    failure := WriteInfo(zip, root, parsed, saverName, bundleId);
  }

  /**
   * Storing the property list file over a stripped and swapped bundle
   * `edited` keeps what the strip and the swap promise about `files`: no
   * signature path, no payload.mov, the new payload, and every other entry.
   */
  lemma InfoWritten(files: map<string, Entry>, edited: map<string, Entry>, root: string, bytes: seq<bv8>, entry: Entry)
    requires entry.File?
    requires Unsigned(edited, root)
    requires PayloadPath(root) in edited && edited[PayloadPath(root)] == File(Bytes(bytes), Some(RegularMode))
    requires forall p :: p in files && !Edited(root, p) ==> p in edited && edited[p] == files[p]
    requires forall p :: p in edited && p != PayloadPath(root) ==> p in files && edited[p] == files[p]
    ensures Unsigned(edited[InfoPath(root) := entry], root)
    ensures NothingUnder(edited, SignaturePaths(root)[0]) ==>
      NothingUnder(edited[InfoPath(root) := entry], SignaturePaths(root)[0])
    ensures edited[InfoPath(root) := entry][PayloadPath(root)] == File(Bytes(bytes), Some(RegularMode))
    ensures forall p :: p in files && !Edited(root, p) ==>
      p in edited[InfoPath(root) := entry] && edited[InfoPath(root) := entry][p] == files[p]
    ensures forall p :: p in edited[InfoPath(root) := entry] ==>
      || p == PayloadPath(root)
      || (p == InfoPath(root) && edited[InfoPath(root) := entry][p].File?)
      || (p in files && edited[InfoPath(root) := entry][p] == files[p])
  {
    assert |PayloadPath(root)| != |InfoPath(root)|;
    assert forall p :: p in SignaturePaths(root) ==> |p| != |InfoPath(root)|;
    assert |LegacyPayloadPath(root)| != |InfoPath(root)|;
    assert InfoPath(root)[|root| + 9] != SignaturePaths(root)[0][|root| + 9];
  }

  /** The last edit of "Updating bundle": store the patched Info.plist, or fail with the parser's message. */
  method WriteInfo(zip: Zip, root: string, parsed: ParsedPlist, saverName: string, bundleId: string)
    returns (failure: Option<string>)
    modifies zip
    ensures parsed.Malformed? ==> failure == Some(InvalidXmlMessage)
    ensures parsed.WellFormed? && parsed.dict.None? ==> failure == Some(MissingDictMessage)
    ensures parsed.WellFormed? && parsed.dict.Some? ==> failure == None
    ensures failure.Some? ==> zip.files == old(zip.files)
    ensures failure.None? ==>
      zip.files == old(zip.files)[InfoPath(root) := File(PlistDocument(PatchedDict(parsed, saverName, bundleId)), None)]
  {
    var patched := PatchPlist(parsed, BundleValues(saverName, bundleId));
    if patched.Failure? {
      return Some(patched.error);
    }
    zip.PutFile(InfoPath(root), PlistDocument(patched.value), None);
    failure := None;
  }

  /**
   * The payload and the property list reach the renamed bundle: unchanged
   * when the root keeps its name, and moved under the new root when it does
   * not and no two entries collide.
   */
  lemma RebasedEntries(edited: map<string, Entry>, bundle: map<string, Entry>, root: string, newRoot: string,
                       bytes: seq<bv8>, dict: seq<Element>)
    requires PayloadPath(root) in edited && edited[PayloadPath(root)] == File(Bytes(bytes), Some(RegularMode))
    requires InfoPath(root) in edited && edited[InfoPath(root)] == File(PlistDocument(dict), None)
    requires Unsigned(edited, root)
    requires root == newRoot ==> bundle == edited
    requires root != newRoot ==> IsCopy(bundle, edited, edited.Keys, root, newRoot, newRoot + "Contents/MacOS/")
    requires root != newRoot ==> FoldersSlashed(edited) && EndsWith(newRoot, "/")
    requires root != newRoot ==> forall q :: q in edited && StartsWith(q, newRoot) ==> StartsWith(q, root)
    ensures Delivers(bundle, newRoot, bytes, dict)
    ensures NothingUnder(edited, SignaturePaths(root)[0]) ==> NothingUnder(bundle, SignaturePaths(newRoot)[0])
  {
    if root == newRoot {
      return;
    }
    MovedAbsent(edited, root, newRoot, "Contents/_CodeSignature/");
    MovedAbsent(edited, root, newRoot, "Contents/_CodeSignature/CodeResources");
    MovedAbsent(edited, root, newRoot, "Contents/CodeResources");
    MovedAbsent(edited, root, newRoot, "Contents/Resources/payload.mov");
    if NothingUnder(edited, SignaturePaths(root)[0]) {
      MovedNothingUnder(edited, root, newRoot, "Contents/_CodeSignature/");
    }
    var p := PayloadPath(root);
    assert p[..|root|] == root && p[|root|..] == "Contents/Resources/payload.mp4";
    assert NewKey(p, edited[p], root, newRoot) == PayloadPath(newRoot);
    var i := InfoPath(root);
    assert i[..|root|] == root && i[|root|..] == "Contents/Info.plist";
    assert NewKey(i, edited[i], root, newRoot) == InfoPath(newRoot);
  }

  /**
   * `files` holds the payload `bytes` and the property list `dict` under
   * `root`, and no signature path or old .mov payload.
   */
  predicate Delivers(files: map<string, Entry>, root: string, bytes: seq<bv8>, dict: seq<Element>) {
    && PayloadPath(root) in files && files[PayloadPath(root)] == File(Bytes(bytes), Some(RegularMode))
    && InfoPath(root) in files && files[InfoPath(root)].File? && files[InfoPath(root)].content == PlistDocument(dict)
    && Unsigned(files, root)
  }

  /** None of the three signature paths, and no old payload.mov, is under `root`. */
  predicate Unsigned(files: map<string, Entry>, root: string) {
    && (forall p :: p in SignaturePaths(root) ==> p !in files)
    && LegacyPayloadPath(root) !in files
  }

  /** Nothing is stored inside the folder `folder`. */
  predicate NothingUnder(files: map<string, Entry>, folder: string) {
    forall p :: p in files ==> !StartsWith(p, folder)
  }

  /**
   * The "Packaging downloads" step: move the edited bundle to
   * `<saverName>.saver/` and wrap the result with the installer for
   * `<saverName>.saver`. `template` is the bundle before the update, which
   * changed only the edited paths. When the root keeps its name, or the
   * template can be renamed without collisions, the moved bundle holds the
   * payload, the property list and every untouched template entry.
   */
  method Package(edited: Zip, root: string, saverName: string, ghost template: map<string, Entry>,
                 ghost bytes: seq<bv8>, ghost dict: seq<Element>)
    returns (bundle: Zip, installer: Zip)
    requires UpdatedFrom(edited.files, template, root, bytes, dict)
    ensures ScriptPath in installer.files
    ensures installer.files[ScriptPath] == File(Script(InstallerScript(saverName + ".saver")), Some(ExecutableMode))
    ensures root == saverName + ".saver/" ==> bundle == edited
    ensures root == saverName + ".saver/" || Renameable(template, root, saverName) ==>
      Packaged(bundle.files, template, root, saverName + ".saver/", bytes, dict)
  {
    var newRoot := saverName + ".saver/";
    if root != newRoot && Renameable(template, root, saverName) {
      EditedInjective(template, edited.files, root, saverName);
    }
    bundle := Rebase(edited, root, newRoot);
    if root == newRoot || Renameable(template, root, saverName) {
      RebasedEntries(edited.files, bundle.files, root, newRoot, bytes, dict);
      KeptThroughRebase(template, edited.files, bundle.files, root, newRoot);
    }
    installer := CreateInstaller(bundle, saverName + ".saver");
  }

  /**
   * The template checks at the start of `buildSaver`: the single bundle
   * root, and a file (not a folder) at its `Contents/Info.plist`.
   */
  method OpenTemplate(template: Zip) returns (r: Result<string, string>)
    ensures |Roots(template.files.Keys)| != 1 <==> r == Failure(MissingRootMessage)
    ensures |Roots(template.files.Keys)| == 1 && !HasFile(template.files, InfoPath(RootOf(template.files)))
            <==> r == Failure(MissingInfoMessage)
    ensures r.Success? ==> r.value == RootOf(template.files) && HasFile(template.files, InfoPath(r.value))
    ensures r.Failure? ==> r.error == MissingRootMessage || r.error == MissingInfoMessage
  {
    var root := FindBundleRoot(template);
    if root.None? {
      return Failure(MissingRootMessage);
    }
    assert root.value == RootOf(template.files);
    var infoPath := InfoPath(root.value);
    if !(infoPath in template.files && template.files[infoPath].File?) {
      return Failure(MissingInfoMessage);
    }
    r := Success(root.value);
  }

  /**
   * What lets the bundle move to `<saverName>.saver/` without two entries
   * landing on one key: `root` is the template's only bundle root, its
   * folders are named with their '/', as JSZip names them, and the new name
   * is a single path segment.
   */
  predicate Renameable(files: map<string, Entry>, root: string, saverName: string) {
    Roots(files.Keys) == {root} && FoldersSlashed(files) && saverName != "" && '/' !in saverName
  }

  /**
   * Every entry of `template` outside the edited paths is in `bundle`: at the
   * same path when the root keeps its name, and otherwise moved under the new
   * root as `rebase` moves it.
   */
  ghost predicate KeepsTemplate(bundle: map<string, Entry>, template: map<string, Entry>, root: string, newRoot: string) {
    forall p :: p in template && !Edited(root, p) ==>
      if root == newRoot then p in bundle && bundle[p] == template[p]
      else
        && NewKey(p, template[p], root, newRoot) in bundle
        && bundle[NewKey(p, template[p], root, newRoot)] == Moved(p, template[p], root, newRoot, newRoot + "Contents/MacOS/")
  }

  /**
   * `bundle` is the download built from `template` moved from `root` to
   * `newRoot`: it holds the payload and the property list, no signature
   * path and no payload.mov, an empty signature folder unless the template
   * held a file under that name, and every untouched template entry.
   */
  ghost predicate Packaged(bundle: map<string, Entry>, template: map<string, Entry>, root: string, newRoot: string,
                           bytes: seq<bv8>, dict: seq<Element>) {
    && Delivers(bundle, newRoot, bytes, dict)
    && KeepsTemplate(bundle, template, root, newRoot)
    && (!HasFile(template, SignaturePaths(root)[0]) ==> NothingUnder(bundle, SignaturePaths(newRoot)[0]))
  }

  /** What survives the bundle update reaches the moved bundle. */
  lemma KeptThroughRebase(template: map<string, Entry>, edited: map<string, Entry>, bundle: map<string, Entry>,
                          root: string, newRoot: string)
    requires forall p :: p in template && !Edited(root, p) ==> p in edited && edited[p] == template[p]
    requires root == newRoot ==> bundle == edited
    requires root != newRoot ==> IsCopy(bundle, edited, edited.Keys, root, newRoot, newRoot + "Contents/MacOS/")
    ensures KeepsTemplate(bundle, template, root, newRoot)
  {
  }

  /** The edited bundle of a renameable template moves to the new root with no collision. */
  lemma EditedInjective(template: map<string, Entry>, edited: map<string, Entry>, root: string, saverName: string)
    requires Renameable(template, root, saverName) && root != saverName + ".saver/"
    requires forall p :: p in edited ==>
      || (p == PayloadPath(root) && edited[p].File?)
      || (p == InfoPath(root) && edited[p].File?)
      || (p in template && edited[p] == template[p])
    ensures Injective(edited, root, saverName + ".saver/")
    ensures FoldersSlashed(edited)
    ensures forall q :: q in edited && StartsWith(q, saverName + ".saver/") ==> StartsWith(q, root)
  {
    var newRoot := saverName + ".saver/";
    forall q | q in template
      ensures StartsWith(q, newRoot) ==> newRoot in Roots(template.Keys)
    {
      if StartsWith(q, newRoot) {
        UnderBundleRoot(template.Keys, q, saverName);
      }
    }
    assert newRoot !in Roots(template.Keys);
    assert StartsWith(PayloadPath(root), root) && StartsWith(InfoPath(root), root);
    assert EndsWith(newRoot, "/");
    SlashedInjective(edited, root, newRoot);
  }

  /**
   * The part of `buildSaver` after the video is ready: update the bundle,
   * package the two downloads and fill the bar. Only a property list that
   * does not parse, or has no `<dict>`, makes it fail.
   */
  method Assemble(template: Zip, root: string, plan: VideoPlan, parsed: ParsedPlist,
                  saverName: string, bundleId: string, tracker: ProgressTracker)
    returns (outcome: Result<Downloads, string>)
    modifies template, tracker
    requires tracker.Valid() && tracker.current <= 1.0
    ensures tracker.Valid()
    ensures parsed.Malformed? ==> outcome == Failure(InvalidXmlMessage)
    ensures parsed.WellFormed? && parsed.dict.None? ==> outcome == Failure(MissingDictMessage)
    ensures parsed.WellFormed? && parsed.dict.Some? ==>
      && outcome.Success?
      && outcome.value.description == plan.description
      && outcome.value.bundleName == saverName + ".saver.zip"
      && outcome.value.installerName == saverName + "-install.zip"
      && ScriptPath in outcome.value.installer
      && outcome.value.installer[ScriptPath] == File(Script(InstallerScript(saverName + ".saver")), Some(ExecutableMode))
      && tracker.current == 1.0
    ensures outcome.Success? && (root == saverName + ".saver/" || Renameable(old(template.files), root, saverName)) ==>
      Packaged(outcome.value.bundle, old(template.files), root, saverName + ".saver/",
               plan.bytes, PatchedDict(parsed, saverName, bundleId))
  {
    tracker.Set(0.82);
    var failure := UpdateBundle(template, root, plan.bytes, parsed, saverName, bundleId);
    if failure.Some? {
      return Failure(failure.value);
    }
    tracker.Set(0.88);
    var saverZip, installerZip := Package(template, root, saverName, old(template.files),
                                          plan.bytes, PatchedDict(parsed, saverName, bundleId));
    var downloads := Downloads(saverZip.files, saverName + ".saver.zip", installerZip.files,
                               saverName + "-install.zip", plan.description);
    tracker.Set(1.0);
    outcome := Success(downloads);
  }

  /**
   * The part of `buildSaver` after the template checks: prepare the video
   * and, when that succeeds, assemble the downloads.
   */
  method Produce(template: Zip, root: string, saverName: string, bundleId: string,
                 mode: Mode, probe: Option<ProbeResult>, first: Reply, second: Reply,
                 parsed: ParsedPlist, tracker: ProgressTracker)
    returns (outcome: Result<Downloads, string>, calls: seq<EngineCall>)
    modifies template, tracker
    requires tracker.Valid() && tracker.current <= 0.3
    ensures tracker.Valid()
    ensures calls == Prepare(mode, probe, first, second).calls
    ensures outcome.Failure? ==> outcome.error != ""
    ensures Prepare(mode, probe, first, second).outcome.Failure? ==>
      outcome == Failure(FailureText(Prepare(mode, probe, first, second).outcome.error))
    ensures Prepare(mode, probe, first, second).outcome.Success? && parsed.Malformed? ==>
      outcome == Failure(InvalidXmlMessage)
    ensures Prepare(mode, probe, first, second).outcome.Success? && parsed.WellFormed? && parsed.dict.None? ==>
      outcome == Failure(MissingDictMessage)
    ensures Prepare(mode, probe, first, second).outcome.Success? && parsed.WellFormed? && parsed.dict.Some? ==>
      outcome.Success?
    ensures outcome.Success? ==>
      && Prepare(mode, probe, first, second).outcome.Success?
      && parsed.WellFormed? && parsed.dict.Some?
      && outcome.value.description == Prepare(mode, probe, first, second).outcome.value.description
      && outcome.value.bundleName == saverName + ".saver.zip"
      && outcome.value.installerName == saverName + "-install.zip"
      && ScriptPath in outcome.value.installer
      && outcome.value.installer[ScriptPath] == File(Script(InstallerScript(saverName + ".saver")), Some(ExecutableMode))
      && tracker.current == 1.0
    ensures outcome.Success? && (root == saverName + ".saver/" || Renameable(old(template.files), root, saverName)) ==>
      Packaged(outcome.value.bundle, old(template.files), root, saverName + ".saver/",
               Prepare(mode, probe, first, second).outcome.value.bytes, PatchedDict(parsed, saverName, bundleId))
  {
    var execution := PrepareVideo(mode, probe, first, second, tracker);
    calls := execution.calls;
    if execution.outcome.Failure? {
      return Failure(FailureText(execution.outcome.error)), calls;
    }
    assert tracker.current <= 0.82;
    outcome := Assemble(template, root, execution.outcome.value, parsed, saverName, bundleId, tracker);
  }

  /** The template has exactly one bundle root, and a file at its Contents/Info.plist. */
  predicate TemplateOpens(files: map<string, Entry>) {
    |Roots(files.Keys)| == 1 && HasFile(files, InfoPath(RootOf(files)))
  }

  /**
   * `buildSaver`. A template without exactly one bundle root, or without
   * its Info.plist, fails before the video is touched and before any engine
   * call; an engine failure fails with its message (or "Build failed."); a
   * property list that does not parse or has no `<dict>` fails with its
   * message; otherwise the build succeeds, offering `<name>.saver.zip`
   * with the new payload and the patched Info.plist under `<name>.saver/`,
   * and `<name>-install.zip` with the installer script for `<name>.saver`,
   * and leaves the bar at 1.
   */
  method BuildSaver(template: Zip, rawName: string, rawId: string, now: nat,
                    mode: Mode, probe: Option<ProbeResult>, first: Reply, second: Reply,
                    parsed: ParsedPlist, tracker: ProgressTracker)
    returns (outcome: Result<Downloads, string>, calls: seq<EngineCall>)
    modifies template, tracker
    requires tracker.Valid()
    ensures tracker.Valid()
    ensures |Roots(old(template.files).Keys)| != 1 ==>
      outcome == Failure(MissingRootMessage) && calls == [] && template.files == old(template.files)
    ensures |Roots(old(template.files).Keys)| == 1 && !HasFile(old(template.files), InfoPath(RootOf(old(template.files)))) ==>
      outcome == Failure(MissingInfoMessage) && calls == [] && template.files == old(template.files)
    ensures TemplateOpens(old(template.files)) ==> calls == Prepare(mode, probe, first, second).calls
    ensures outcome.Failure? ==> outcome.error != ""
    ensures TemplateOpens(old(template.files)) && Prepare(mode, probe, first, second).outcome.Failure? ==>
      outcome == Failure(FailureText(Prepare(mode, probe, first, second).outcome.error))
    ensures TemplateOpens(old(template.files)) && Prepare(mode, probe, first, second).outcome.Success? ==>
      && (parsed.Malformed? ==> outcome == Failure(InvalidXmlMessage))
      && (parsed.WellFormed? && parsed.dict.None? ==> outcome == Failure(MissingDictMessage))
      && (parsed.WellFormed? && parsed.dict.Some? ==> outcome.Success?)
    ensures outcome.Success? ==>
      && TemplateOpens(old(template.files))
      && Prepare(mode, probe, first, second).outcome.Success?
      && parsed.WellFormed? && parsed.dict.Some?
      && outcome.value.description == Prepare(mode, probe, first, second).outcome.value.description
      && outcome.value.bundleName == SaverName(rawName) + ".saver.zip"
      && outcome.value.installerName == SaverName(rawName) + "-install.zip"
      && ScriptPath in outcome.value.installer
      && outcome.value.installer[ScriptPath]
           == File(Script(InstallerScript(SaverName(rawName) + ".saver")), Some(ExecutableMode))
      && tracker.current == 1.0
    ensures outcome.Success? &&
            (RootOf(old(template.files)) == SaverName(rawName) + ".saver/" || FoldersSlashed(old(template.files))) ==>
      Packaged(outcome.value.bundle, old(template.files), RootOf(old(template.files)), SaverName(rawName) + ".saver/",
               Prepare(mode, probe, first, second).outcome.value.bytes,
               PatchedDict(parsed, SaverName(rawName), BundleId(rawId, now)))
  {
    calls := [];
    tracker.Reset();
    tracker.Set(0.0);
    tracker.Set(0.05);
    var root := OpenTemplate(template);
    if root.Failure? {
      return Failure(root.error), calls;
    }
    var saverName := SaverName(rawName);
    var bundleId := BundleId(rawId, now);
    assert Roots(template.files.Keys) == {root.value};

    tracker.Set(0.15);
    tracker.Set(0.25);
    tracker.Set(0.3);
    outcome, calls := Produce(template, root.value, saverName, bundleId, mode, probe, first, second,
                              parsed, tracker);
  }

  /** The only root of a set of paths with exactly one. */
  function RootOf(files: map<string, Entry>): string {
    var roots := Roots(files.Keys);
    if |roots| == 1 then OnlyElement(roots) else ""
  }

  /** The element of a one-element set. */
  function OnlyElement(s: set<string>): (x: string)
    requires |s| == 1
    ensures s == {x}
  {
    var x :| x in s;
    assert |s - {x}| == 0;
    assert s - {x} == {};
    x
  }
}
