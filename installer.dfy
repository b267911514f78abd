/**
 * The installer download (`createInstaller` and `installerScript` in
 * app.js): a copy of the bundle archive plus an executable bash script
 * that copies the bundle into ~/Library/Screen Savers.
 */
module Installer {
  import opened Wrappers
  import opened Text
  import opened Archive

  /** The script text up to the bundle name, which is the default of `$1`. */
  const ScriptHead := "#!/usr/bin/env bash\nset -euo pipefail\nNAME=\"${1:-"

  /** The script text after the bundle name. */
  const ScriptTail := "}\"\nSRC=\"$(cd \"$(dirname \"$0\")\" && pwd)/$NAME\"\nDST=\"$HOME/Library/Screen Savers\"\nmkdir -p \"$DST\"\ncp -R \"$SRC\" \"$DST/\"\necho \"Installed to: $DST/$NAME\"\nopen \"$DST\"\n"

  const ScriptPath := "install.command"

  /** `installerScript(name)`: the fixed text with only the name substituted. */
  function InstallerScript(name: string): (r: string)
    ensures StartsWith(r, ScriptHead) && EndsWith(r, ScriptTail)
    ensures |r| == |ScriptHead| + |name| + |ScriptTail|
  {
    var r := ScriptHead + name + ScriptTail;
    assert r[..|ScriptHead|] == ScriptHead;
    assert r[|r| - |ScriptTail|..] == ScriptTail;
    r
  }

  /** Reading the bundle name back out of a script: the text between the fixed head and tail. */
  function ScriptName(script: string): Option<string> {
    if |script| >= |ScriptHead| + |ScriptTail| && StartsWith(script, ScriptHead) && EndsWith(script, ScriptTail)
    then Some(script[|ScriptHead|..|script| - |ScriptTail|])
    else None
  }

  /** The name substituted into the script is the one read back, so different names give different scripts. */
  lemma ScriptNameRoundTrip(name: string)
    ensures ScriptName(InstallerScript(name)) == Some(name)
  {
    var r := InstallerScript(name);
    assert r[|ScriptHead|..|r| - |ScriptTail|] == name;
  }

  /** Everything but the name is fixed: two scripts are equal exactly when their names are. */
  lemma InstallerScriptInjective(a: string, b: string)
    ensures InstallerScript(a) == InstallerScript(b) <==> a == b
  {
    if InstallerScript(a) == InstallerScript(b) {
      ScriptNameRoundTrip(a);
      ScriptNameRoundTrip(b);
    }
  }

  /** The folder whose files `createInstaller` makes executable by default: `<rootName>.saver/Contents/MacOS/`. */
  function InstallerExecutableFolder(rootName: string): string {
    rootName + ".saver/Contents/MacOS/"
  }

  /**
   * `createInstaller`: copy every entry of the bundle under its own path,
   * then add `install.command` with mode 0o755.
   */
  method CreateInstaller(bundle: Zip, rootName: string) returns (zip: Zip)
    ensures fresh(zip)
    ensures ScriptPath in zip.files
    ensures zip.files[ScriptPath] == File(Script(InstallerScript(rootName)), Some(ExecutableMode))
    ensures zip.files.Keys == Image(bundle.files, bundle.files.Keys, "", "") + {ScriptPath}
    ensures Injective(bundle.files, "", "") ==>
      exists copy :: IsCopy(copy, bundle.files, bundle.files.Keys, "", "", InstallerExecutableFolder(rootName))
                  && zip.files == copy[ScriptPath := File(Script(InstallerScript(rootName)), Some(ExecutableMode))]
  {
    zip := CopyEntries(bundle, "", "", InstallerExecutableFolder(rootName));
    ghost var copy := zip.files;
    zip.PutFile(ScriptPath, Script(InstallerScript(rootName)), Some(ExecutableMode));
  }

  /** With empty roots a copied entry keeps its path (folders with their trailing '/'). */
  lemma InstallerKeepsPaths(path: string, entry: Entry)
    requires entry.File? || EndsWith(path, "/")
    ensures NewKey(path, entry, "", "") == path
  {
    TargetEmptyRoots(path);
  }

  /**
   * The build calls `createInstaller` with a root name that already ends
   * in ".saver", so the executable folder it tests,
   * `<name>.saver.saver/Contents/MacOS/`, never contains a bundle path:
   * a file without stored permissions under the bundle always gets 0o644.
   */
  lemma InstallerExecutableDefaultNeverApplies(rootName: string, path: string)
    requires EndsWith(rootName, ".saver")
    requires StartsWith(path, rootName + "/")
    ensures Permissions(path, None, InstallerExecutableFolder(rootName)) == RegularMode
  {
    var folder := InstallerExecutableFolder(rootName);
    assert path[|rootName|] == '/';
    assert folder[|rootName|] == '.';
  }

  /**
   * By contrast, `rebase` tests `<root>Contents/MacOS/` with the root's own
   * '/', so the same file there would be made executable.
   */
  lemma RebaseExecutableDefaultApplies(root: string, name: string)
    requires name != "" && !EndsWith(name, "/")
    ensures Permissions(root + "Contents/MacOS/" + name, None, root + "Contents/MacOS/") == ExecutableMode
  {
    var path := root + "Contents/MacOS/" + name;
    assert path[..|root + "Contents/MacOS/"|] == root + "Contents/MacOS/";
    assert path[|path| - 1..] == name[|name| - 1..];
  }
}
