/**
 * The names the build derives from the page's inputs (`sanitize` and the
 * defaults in `buildSaver`, app.js).
 */
module Naming {
  import opened Wrappers
  import opened Text

  /** The characters `sanitize` keeps: `[A-Za-z0-9 _.-]`. */
  predicate Allowed(c: char) {
    ('A' <= c <= 'Z') || ('a' <= c <= 'z') || ('0' <= c <= '9') || c == ' ' || c == '_' || c == '.' || c == '-'
  }

  /** `replace(/[^A-Za-z0-9 _.-]+/g, '')`: drop every other character, keeping the order of the rest. */
  function KeepAllowed(s: string): (r: string)
    ensures |r| <= |s|
    ensures forall i :: 0 <= i < |r| ==> Allowed(r[i])
    ensures forall c :: c in s && Allowed(c) ==> c in r
    ensures forall c :: c in r ==> c in s
  {
    if s == [] then []
    else if Allowed(s[0]) then [s[0]] + KeepAllowed(s[1..])
    else KeepAllowed(s[1..])
  }

  /** A string of allowed characters is left as it is. */
  lemma {:induction false} KeepAllowedIdentity(s: string)
    requires forall i :: 0 <= i < |s| ==> Allowed(s[i])
    ensures KeepAllowed(s) == s
  {
    if s != [] {
      KeepAllowedIdentity(s[1..]);
      assert s == [s[0]] + s[1..];
    }
  }

  /** Filtering a concatenation filters each part: `KeepAllowed` drops characters and never reorders or repeats one. */
  lemma {:induction false} KeepAllowedAppend(a: string, b: string)
    ensures KeepAllowed(a + b) == KeepAllowed(a) + KeepAllowed(b)
  {
    if a == [] {
      assert a + b == b;
    } else {
      assert (a + b)[0] == a[0] && (a + b)[1..] == a[1..] + b;
      KeepAllowedAppend(a[1..], b);
    }
  }

  /** One character is kept exactly when it is allowed. */
  lemma KeepAllowedChar(c: char)
    ensures KeepAllowed([c]) == if Allowed(c) then [c] else []
  {
    assert [c][1..] == [];
  }

  /** Trimming a string that neither starts nor ends with white space changes nothing. */
  lemma TrimOfTrimmed(s: string)
    requires s == [] || (!IsSpace(s[0]) && !IsSpace(s[|s| - 1]))
    ensures Trim(s) == s
  {
    var t := TrimStart(s);
    assert |s| > 0 ==> !IsSpace(s[0]);
    assert t == s;
    var r := TrimEnd(t);
    assert |t| > 0 ==> !IsSpace(t[|t| - 1]);
  }

  /** An infix of a string of allowed characters has only allowed characters, so no '/'. */
  lemma InfixAllowed(r: string, s: string, start: int)
    requires InfixAt(r, s, start)
    requires forall i :: 0 <= i < |s| ==> Allowed(s[i])
    ensures forall i :: 0 <= i < |r| ==> Allowed(r[i])
    ensures '/' !in r
  {
    assert forall i :: 0 <= i < |r| ==> r[i] == s[start + i];
  }

  /**
   * `sanitize`: the input filtered to letters, digits, space, '_', '.' and
   * '-', then trimmed; nothing else survives, and no '/' can reach a path.
   */
  function Sanitize(value: string): (r: string)
    ensures r == Trim(KeepAllowed(value))
    ensures forall i :: 0 <= i < |r| ==> Allowed(r[i])
    ensures '/' !in r
    ensures r == [] || (r[0] != ' ' && r[|r| - 1] != ' ')
  {
    var kept := KeepAllowed(value);
    var r := Trim(kept);
    InfixAllowed(r, kept, |kept| - |TrimStart(kept)|);
    r
  }

  /** Every allowed character of the input other than a space survives sanitising. */
  lemma SanitizeKeepsAllowed(value: string, c: char)
    requires c in value && Allowed(c) && c != ' '
    ensures c in Sanitize(value)
  {
    TrimKeepsNonSpace(KeepAllowed(value), c);
  }

  /** Sanitising twice is sanitising once. */
  lemma SanitizeIdempotent(value: string)
    ensures Sanitize(Sanitize(value)) == Sanitize(value)
  {
    var r := Sanitize(value);
    KeepAllowedIdentity(r);
    TrimOfTrimmed(r);
  }

  const DefaultSaverName := "MySaver"
  const BundleIdPrefix := "local.videosaver."

  /** `sanitize(name) || 'MySaver'`: never empty and always safe as a path segment. */
  function SaverName(raw: string): (r: string)
    ensures r != "" && '/' !in r
    ensures Sanitize(raw) != "" ==> r == Sanitize(raw)
    ensures Sanitize(raw) == "" ==> r == DefaultSaverName
  {
    var s := Sanitize(raw);
    if s != "" then s
    else
      assert forall i :: 0 <= i < |DefaultSaverName| ==> Allowed(DefaultSaverName[i]);
      DefaultSaverName
  }

  /** `bundleId.trim() || 'local.videosaver.<now>'`: never empty. */
  function BundleId(raw: string, now: nat): (r: string)
    ensures r != ""
    ensures Trim(raw) != "" ==> r == Trim(raw)
    ensures Trim(raw) == "" ==> StartsWith(r, BundleIdPrefix)
  {
    var t := Trim(raw);
    if t != "" then t
    else
      var r := BundleIdPrefix + NatToString(now);
      assert r[..|BundleIdPrefix|] == BundleIdPrefix;
      r
  }
}
