/**
 * Editing the bundle's Info.plist (`upsertKey` and `patchPlist` in app.js).
 * The document is abstracted to the child elements of its top-level
 * `<dict>`, each a tag name and its text; parsing and serialising XML are
 * outside the model, parsing is an input that succeeded or failed.
 */
module Plist {
  import opened Wrappers

  datatype Element = Element(tag: string, text: string)

  /** A `<key>` element whose text is exactly `key`. */
  predicate IsKey(e: Element, key: string) {
    e.tag == "key" && e.text == key
  }

  /** The first index at or after `from` holding the key `key`. */
  function FirstKeyFrom(children: seq<Element>, key: string, from: nat): (r: Option<nat>)
    requires from <= |children|
    ensures r.None? <==> forall i :: from <= i < |children| ==> !IsKey(children[i], key)
    ensures r.Some? ==> from <= r.value < |children| && IsKey(children[r.value], key)
    ensures r.Some? ==> forall i :: from <= i < r.value ==> !IsKey(children[i], key)
    decreases |children| - from
  {
    if from == |children| then None
    else if IsKey(children[from], key) then Some(from)
    else FirstKeyFrom(children, key, from + 1)
  }

  /** The index of the first `<key>` child with text `key`, if any. */
  function FirstKey(children: seq<Element>, key: string): (r: Option<nat>)
    ensures r.None? <==> forall i :: 0 <= i < |children| ==> !IsKey(children[i], key)
    ensures r.Some? ==> r.value < |children| && IsKey(children[r.value], key)
    ensures r.Some? ==> forall i :: 0 <= i < r.value ==> !IsKey(children[i], key)
  {
    FirstKeyFrom(children, key, 0)
  }

  /** The first key is determined by where the key first occurs. */
  lemma FirstKeyIs(children: seq<Element>, key: string, i: nat)
    requires i < |children| && IsKey(children[i], key)
    requires forall j :: 0 <= j < i ==> !IsKey(children[j], key)
    ensures FirstKey(children, key) == Some(i)
  {
  }

  /**
   * How a property-list reader sees the value of `key`: the text of the
   * `<string>` element right after the first matching `<key>`, if there is one.
   */
  function Lookup(children: seq<Element>, key: string): Option<string> {
    match FirstKey(children, key)
    case None => None
    case Some(i) =>
      if i + 1 < |children| && children[i + 1].tag == "string" then Some(children[i + 1].text) else None
  }

  /** The element right after the first `<key>` child with text `key`: that key's value, whatever its type. */
  function ValueOf(children: seq<Element>, key: string): Option<Element> {
    match FirstKey(children, key)
    case None => None
    case Some(i) => if i + 1 < |children| then Some(children[i + 1]) else None
  }

  function StringElement(value: string): Element {
    Element("string", value)
  }

  /** The `<string>` child follows the first `<key>` child with text `key`. */
  predicate StringFollows(children: seq<Element>, key: string) {
    var i := FirstKey(children, key);
    i.Some? && i.value + 1 < |children| && children[i.value + 1].tag == "string"
  }

  /**
   * `upsertKey` on the children: for the first matching key, overwrite the
   * `<string>` after it or insert one there; with no matching key append a
   * `<key>`/`<string>` pair. No other child is removed, changed or moved
   * relative to the others.
   */
  function Upserted(children: seq<Element>, key: string, value: string): (r: seq<Element>)
    ensures |children| <= |r| <= |children| + 2
    ensures StringFollows(children, key) ==>
      var i := FirstKey(children, key).value;
      && |r| == |children| && r[i + 1] == StringElement(value)
      && forall j :: 0 <= j < |r| && j != i + 1 ==> r[j] == children[j]
    ensures FirstKey(children, key).Some? && !StringFollows(children, key) ==>
      var i := FirstKey(children, key).value;
      && |r| == |children| + 1 && r[i + 1] == StringElement(value)
      && (forall j :: 0 <= j <= i ==> r[j] == children[j])
      && (forall j :: i + 1 < j < |r| ==> r[j] == children[j - 1])
    ensures FirstKey(children, key).None? ==>
      && |r| == |children| + 2 && r[..|children|] == children
      && r[|children|] == Element("key", key) && r[|children| + 1] == StringElement(value)
  {
    match FirstKey(children, key)
    case Some(i) =>
      if i + 1 < |children| && children[i + 1].tag == "string" then children[i + 1 := StringElement(value)]
      else children[..i + 1] + [StringElement(value)] + children[i + 1..]
    case None => children + [Element("key", key), StringElement(value)]
  }

  /** After an upsert, the key reads back as the value. */
  lemma UpsertedLookup(children: seq<Element>, key: string, value: string)
    ensures Lookup(Upserted(children, key, value), key) == Some(value)
  {
    var r := Upserted(children, key, value);
    match FirstKey(children, key)
    case Some(i) =>
      FirstKeyIs(r, key, i);
    case None =>
      FirstKeyIs(r, key, |children|);
  }

  /** Two child lists that agree on which indices hold `other` have the same first `other` key. */
  lemma SameKeyPositions(c: seq<Element>, r: seq<Element>, other: string)
    requires |c| == |r|
    requires forall j :: 0 <= j < |r| ==> (IsKey(r[j], other) <==> IsKey(c[j], other))
    ensures FirstKey(r, other) == FirstKey(c, other)
  {
    var o := FirstKey(c, other);
    if o.Some? {
      FirstKeyIs(r, other, o.value);
    }
  }

  /** Appending a key/string pair for `key` keeps the value of `other`. */
  lemma AppendKeepsOthers(c: seq<Element>, key: string, value: string, other: string)
    requires other != key
    ensures Lookup(c + [Element("key", key), StringElement(value)], other) == Lookup(c, other)
    ensures ValueOf(c, other).Some? ==> ValueOf(c + [Element("key", key), StringElement(value)], other) == ValueOf(c, other)
  {
    var r := c + [Element("key", key), StringElement(value)];
    var o := FirstKey(c, other);
    if o.Some? {
      FirstKeyIs(r, other, o.value);
    } else {
      assert forall j :: 0 <= j < |r| ==> !IsKey(r[j], other);
    }
  }

  /** Overwriting the string after `key` (at `i + 1`) keeps the value of `other`. */
  lemma ReplaceKeepsOthers(c: seq<Element>, key: string, value: string, other: string, i: nat)
    requires other != key
    requires i + 1 < |c| && IsKey(c[i], key) && c[i + 1].tag == "string"
    ensures Lookup(c[i + 1 := StringElement(value)], other) == Lookup(c, other)
    ensures ValueOf(c[i + 1 := StringElement(value)], other) == ValueOf(c, other)
  {
    var r := c[i + 1 := StringElement(value)];
    SameKeyPositions(c, r, other);
  }

  /** Where the children land when `e` is inserted at index `k`. */
  lemma InsertedIndices(c: seq<Element>, k: nat, e: Element)
    requires k <= |c|
    ensures |c[..k] + [e] + c[k..]| == |c| + 1
    ensures (c[..k] + [e] + c[k..])[k] == e
    ensures forall j :: 0 <= j < k ==> (c[..k] + [e] + c[k..])[j] == c[j]
    ensures forall j :: k < j <= |c| ==> (c[..k] + [e] + c[k..])[j] == c[j - 1]
  {
  }

  /** Inserting a string after `key` (at `i + 1`) keeps the value of `other`. */
  lemma InsertKeepsOthers(c: seq<Element>, key: string, value: string, other: string, i: nat)
    requires other != key
    requires i < |c| && IsKey(c[i], key)
    ensures Lookup(c[..i + 1] + [StringElement(value)] + c[i + 1..], other) == Lookup(c, other)
    ensures ValueOf(c[..i + 1] + [StringElement(value)] + c[i + 1..], other) == ValueOf(c, other)
  {
    var r := c[..i + 1] + [StringElement(value)] + c[i + 1..];
    InsertedIndices(c, i + 1, StringElement(value));
    var o := FirstKey(c, other);
    if o.None? {
      assert forall j :: 0 <= j < |r| ==> !IsKey(r[j], other);
    } else if o.value < i {
      FirstKeyIs(r, other, o.value);
    } else {
      var n := o.value;
      assert i < n;
      assert forall j :: 0 <= j < n + 1 ==> !IsKey(r[j], other);
      FirstKeyIs(r, other, n + 1);
      assert r[n + 1] == c[n];
      assert n + 2 < |r| ==> r[n + 2] == c[n + 1];
    }
  }

  /**
   * An upsert leaves every other key's value as it was: its `<string>` text,
   * and the element after it of whatever type (`<true/>`, `<array>`, …).
   */
  lemma UpsertedKeepsOthers(children: seq<Element>, key: string, value: string, other: string)
    requires other != key
    ensures Lookup(Upserted(children, key, value), other) == Lookup(children, other)
    ensures ValueOf(children, other).Some? ==> ValueOf(Upserted(children, key, value), other) == ValueOf(children, other)
  {
    match FirstKey(children, key)
    case None =>
      AppendKeepsOthers(children, key, value, other);
    case Some(i) =>
      if i + 1 < |children| && children[i + 1].tag == "string" {
        ReplaceKeepsOthers(children, key, value, other, i);
      } else {
        InsertKeepsOthers(children, key, value, other, i);
      }
  }

  /** Upserting the same key and value twice is the same as doing it once. */
  lemma UpsertedIdempotent(children: seq<Element>, key: string, value: string)
    ensures Upserted(Upserted(children, key, value), key, value) == Upserted(children, key, value)
  {
    var r := Upserted(children, key, value);
    match FirstKey(children, key)
    case Some(i) =>
      FirstKeyIs(r, key, i);
    case None =>
      FirstKeyIs(r, key, |children|);
  }

  /** The number of `<key>` children with text `key`. */
  function KeyCount(children: seq<Element>, key: string): nat {
    if children == [] then 0
    else (if IsKey(children[0], key) then 1 else 0) + KeyCount(children[1..], key)
  }

  lemma {:induction false} KeyCountAppend(a: seq<Element>, b: seq<Element>, key: string)
    ensures KeyCount(a + b, key) == KeyCount(a, key) + KeyCount(b, key)
    decreases |a|
  {
    if a == [] {
      assert a + b == b;
    } else {
      assert (a + b)[1..] == a[1..] + b;
      KeyCountAppend(a[1..], b, key);
    }
  }

  /** A single child counts one exactly when it is the key. */
  lemma KeyCountOne(e: Element, key: string)
    ensures KeyCount([e], key) == if IsKey(e, key) then 1 else 0
  {
    assert [e][1..] == [];
  }

  /** Putting a `<string>` in place of another at index `j` keeps every key count. */
  lemma ReplaceKeyCount(children: seq<Element>, j: nat, value: string, key: string)
    requires j < |children| && children[j].tag == "string"
    ensures KeyCount(children[j := StringElement(value)], key) == KeyCount(children, key)
  {
    var front, back := children[..j], children[j + 1..];
    assert children == front + ([children[j]] + back);
    assert children[j := StringElement(value)] == front + ([StringElement(value)] + back);
    KeyCountAppend(front, [children[j]] + back, key);
    KeyCountAppend(front, [StringElement(value)] + back, key);
    KeyCountAppend([children[j]], back, key);
    KeyCountAppend([StringElement(value)], back, key);
    KeyCountOne(children[j], key);
    KeyCountOne(StringElement(value), key);
  }

  /** Inserting a `<string>` at index `j` keeps every key count. */
  lemma InsertKeyCount(children: seq<Element>, j: nat, value: string, key: string)
    requires j <= |children|
    ensures KeyCount(children[..j] + [StringElement(value)] + children[j..], key) == KeyCount(children, key)
  {
    var front, back := children[..j], children[j..];
    assert children == front + back;
    assert front + [StringElement(value)] + back == front + ([StringElement(value)] + back);
    KeyCountAppend(front, back, key);
    KeyCountAppend(front, [StringElement(value)] + back, key);
    KeyCountAppend([StringElement(value)], back, key);
    KeyCountOne(StringElement(value), key);
  }

  /** An upsert never duplicates the key: afterwards it occurs as often as before, and at least once. */
  lemma UpsertedKeyCount(children: seq<Element>, key: string, value: string)
    ensures KeyCount(Upserted(children, key, value), key) ==
      if KeyCount(children, key) == 0 then 1 else KeyCount(children, key)
  {
    match FirstKey(children, key)
    case None =>
      KeyCountAppend(children, [Element("key", key), StringElement(value)], key);
      KeyCountNone(children, key);
      KeyCountAppend([Element("key", key)], [StringElement(value)], key);
      KeyCountOne(Element("key", key), key);
      KeyCountOne(StringElement(value), key);
    case Some(i) =>
      KeyCountSplit(children, key, i);
      assert children == children[..i + 1] + children[i + 1..];
      KeyCountAppend(children[..i + 1], children[i + 1..], key);
      if i + 1 < |children| && children[i + 1].tag == "string" {
        ReplaceKeyCount(children, i + 1, value, key);
      } else {
        InsertKeyCount(children, i + 1, value, key);
      }
  }

  /** A sequence without the key counts zero of it. */
  lemma {:induction false} KeyCountNone(children: seq<Element>, key: string)
    requires forall i :: 0 <= i < |children| ==> !IsKey(children[i], key)
    ensures KeyCount(children, key) == 0
    decreases |children|
  {
    if children != [] {
      KeyCountNone(children[1..], key);
    }
  }

  /** A sequence with the key at index `i` counts it at least once up to and including `i`. */
  lemma {:induction false} KeyCountSplit(children: seq<Element>, key: string, i: nat)
    requires i < |children| && IsKey(children[i], key)
    ensures KeyCount(children[..i + 1], key) >= 1
  {
    var front := children[..i];
    assert children[..i + 1] == front + [children[i]];
    KeyCountAppend(front, [children[i]], key);
    assert [children[i]][1..] == [];
  }

  /** The children of the `<dict>`, edited in place as `upsertKey` does through the DOM. */
  class PlistDict {
    var children: seq<Element>

    constructor(children: seq<Element>)
      ensures this.children == children
    {
      this.children := children;
    }

    /** `upsertKey`: scan the children for the first matching key, then edit or append. */
    method UpsertKey(key: string, value: string)
      modifies this
      ensures children == Upserted(old(children), key, value)
    {
      var i := 0;
      while i < |children|
        invariant 0 <= i <= |children|
        invariant children == old(children)
        invariant forall j :: 0 <= j < i ==> !IsKey(children[j], key)
      {
        if children[i].tag == "key" && children[i].text == key {
          FirstKeyIs(children, key, i);
          if i + 1 < |children| && children[i + 1].tag == "string" {
            children := children[i + 1 := StringElement(value)];
          } else {
            children := children[..i + 1] + [StringElement(value)] + children[i + 1..];
          }
          return;
        }
        i := i + 1;
      }
      children := children + [Element("key", key), StringElement(value)];
    }
  }

  /** Upserting each key/value pair in order. */
  function UpsertAll(children: seq<Element>, values: seq<(string, string)>): seq<Element>
    decreases |values|
  {
    if values == [] then children
    else
      var last := values[|values| - 1];
      Upserted(UpsertAll(children, values[..|values| - 1]), last.0, last.1)
  }

  /** The keys of `values` are pairwise different, as the keys of an object are. */
  predicate DistinctKeys(values: seq<(string, string)>) {
    forall i, j :: 0 <= i < j < |values| ==> values[i].0 != values[j].0
  }

  /** After upserting pairs with different keys, every key reads back as its value. */
  lemma {:induction false} UpsertAllSetsEach(children: seq<Element>, values: seq<(string, string)>, k: nat)
    requires DistinctKeys(values) && k < |values|
    ensures Lookup(UpsertAll(children, values), values[k].0) == Some(values[k].1)
    decreases |values|
  {
    var n := |values| - 1;
    var init := values[..n];
    var prev := UpsertAll(children, init);
    assert UpsertAll(children, values) == Upserted(prev, values[n].0, values[n].1);
    if k == n {
      UpsertedLookup(prev, values[n].0, values[n].1);
    } else {
      assert DistinctKeys(init);
      assert init[k] == values[k];
      UpsertAllSetsEach(children, init, k);
      UpsertedKeepsOthers(prev, values[n].0, values[n].1, values[k].0);
    }
  }

  /** The outcome of parsing Info.plist: not XML at all, or XML with or without a top-level `<dict>`. */
  datatype ParsedPlist = Malformed | WellFormed(dict: Option<seq<Element>>)

  const InvalidXmlMessage := "Invalid Info.plist XML."
  const MissingDictMessage := "Info.plist missing <dict>."

  /**
   * `patchPlist`: fail on a parse error or a missing `<dict>`, otherwise
   * upsert every pair in order and give back the edited children.
   */
  method PatchPlist(parsed: ParsedPlist, values: seq<(string, string)>) returns (r: Result<seq<Element>, string>)
    ensures parsed.Malformed? ==> r == Failure(InvalidXmlMessage)
    ensures parsed.WellFormed? && parsed.dict.None? ==> r == Failure(MissingDictMessage)
    ensures parsed.WellFormed? && parsed.dict.Some? ==> r == Success(UpsertAll(parsed.dict.value, values))
  {
    if parsed.Malformed? {
      return Failure(InvalidXmlMessage);
    }
    if parsed.dict.None? {
      return Failure(MissingDictMessage);
    }
    var dict := new PlistDict(parsed.dict.value);
    var i := 0;
    while i < |values|
      invariant 0 <= i <= |values|
      invariant dict.children == UpsertAll(parsed.dict.value, values[..i])
    {
      assert values[..i + 1][..i] == values[..i];
      dict.UpsertKey(values[i].0, values[i].1);
      i := i + 1;
    }
    assert values[..i] == values;
    r := Success(dict.children);
  }
}
