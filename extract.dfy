/**
 * The two field extractors of the invoice transformer: a document-wide
 * lookup of `section[@schema_id=S]/datapoint[@schema_id=D]` with an optional
 * fallback pair, and a lookup among the datapoints of one line-item `tuple`.
 */
module Extract {
  import opened Wrappers
  import opened Xml

  /** `findtext` over the matches of a path: `None` when nothing matched, else the first match's text or `""`. */
  function FindText(matches: seq<Element>): Option<string> {
    if matches == [] then None else Some(TextOf(matches[0]))
  }

  /**
   * The `datapoint[@schema_id=d]` children of every `section[@schema_id=s]`
   * among `candidates`, section by section, each section's children in order.
   */
  function SectionDatapoints(candidates: seq<Element>, s: string, d: string): seq<Element> {
    if candidates == [] then []
    else
      (if HasSchemaId(candidates[0], "section", s) then WithSchemaId(candidates[0].children, "datapoint", d) else [])
      + SectionDatapoints(candidates[1..], s, d)
  }

  /** `root.findtext('.//section[@schema_id="s"]/datapoint[@schema_id="d"]')`. */
  function FindValue(root: Element, s: string, d: string): Option<string> {
    FindText(SectionDatapoints(Descendants(root), s, d))
  }

  /** `dp` is a `datapoint[@schema_id=d]` child of some `section[@schema_id=s]` below `root`. */
  ghost predicate Locates(root: Element, s: string, d: string, dp: Element) {
    exists sec :: Below(sec, root) && HasSchemaId(sec, "section", s) && dp in sec.children && HasSchemaId(dp, "datapoint", d)
  }

  /** A non-empty, present optional identifier (`if fallback_section and ...`). */
  predicate Given(id: Option<string>) {
    id.Some? && id.value != ""
  }

  /** The value is present and non-empty (Python truthiness of an optional string). */
  predicate Truthy(v: Option<string>) {
    v.Some? && v.value != ""
  }

  /**
   * `extract_value_from_section_and_datapoint`: the primary lookup; when it is
   * absent or empty and both fallback identifiers are given, the fallback
   * lookup; `""` when what is left is absent.
   */
  function SectionValue(root: Element, s: string, d: string, fs: Option<string>, fd: Option<string>): string {
    var value := FindValue(root, s, d);
    var value := if !Truthy(value) && Given(fs) && Given(fd) then FindValue(root, fs.value, fd.value) else value;
    value.GetOr("")
  }

  /**
   * `item.findtext("datapoint[@schema_id='d']")`: only the direct children of
   * the item are searched; absent when none matches, else the text of the
   * first matching child.
   */
  function ItemLookup(item: Element, d: string): Option<string> {
    FindText(WithSchemaId(item.children, "datapoint", d))
  }

  /** The item lookup against its reference reading. */
  lemma ItemLookupSpec(item: Element, d: string)
    ensures ItemLookup(item, d).None? <==> !exists c :: c in item.children && HasSchemaId(c, "datapoint", d)
    ensures ItemLookup(item, d).Some? ==>
      exists j :: FirstMatchAt(item.children, "datapoint", d, j) && ItemLookup(item, d).value == TextOf(item.children[j])
  {
    var m := WithSchemaId(item.children, "datapoint", d);
    if m != [] {
      assert m[0] in m;
      WithSchemaIdFirst(item.children, "datapoint", d);
    }
  }

  /**
   * `extract_value_from_datapoint`: the primary datapoint's text when it is
   * non-empty, otherwise whatever the fallback lookup gives, absent included.
   */
  function ItemValue(item: Element, d: string, fd: string): Option<string> {
    var value := ItemLookup(item, d);
    if Truthy(value) then value else ItemLookup(item, fd)
  }

  lemma {:induction false} SectionDatapointsMembers(x: Element, candidates: seq<Element>, s: string, d: string)
    ensures x in SectionDatapoints(candidates, s, d) <==>
      exists sec :: sec in candidates && HasSchemaId(sec, "section", s) && x in sec.children && HasSchemaId(x, "datapoint", d)
    decreases candidates
  {
    if candidates != [] {
      SectionDatapointsMembers(x, candidates[1..], s, d);
      var c := candidates[0];
      if exists sec :: sec in candidates && HasSchemaId(sec, "section", s) && x in sec.children && HasSchemaId(x, "datapoint", d) {
        var sec :| sec in candidates && HasSchemaId(sec, "section", s) && x in sec.children && HasSchemaId(x, "datapoint", d);
        if sec != c {
          assert sec in candidates[1..];
        }
      }
      if x in SectionDatapoints(candidates[1..], s, d) {
        var sec :| sec in candidates[1..] && HasSchemaId(sec, "section", s) && x in sec.children && HasSchemaId(x, "datapoint", d);
        assert sec in candidates;
      }
    }
  }

  /** `sec` is a `section[@schema_id=s]` with at least one `datapoint[@schema_id=d]` child. */
  predicate HoldsDatapoint(sec: Element, s: string, d: string) {
    HasSchemaId(sec, "section", s) && WithSchemaId(sec.children, "datapoint", d) != []
  }

  /** `candidates[i]` is the first of `candidates` holding such a datapoint. */
  predicate FirstSectionAt(candidates: seq<Element>, s: string, d: string, i: int) {
    0 <= i < |candidates| && HoldsDatapoint(candidates[i], s, d)
    && forall k | 0 <= k < i :: !HoldsDatapoint(candidates[k], s, d)
  }

  /** The first match of the path is the first matching child of the first section that has one. */
  lemma {:induction false} SectionDatapointsFirst(candidates: seq<Element>, s: string, d: string)
    requires SectionDatapoints(candidates, s, d) != []
    ensures exists i, j :: FirstSectionAt(candidates, s, d, i) && FirstMatchAt(candidates[i].children, "datapoint", d, j)
                           && SectionDatapoints(candidates, s, d)[0] == candidates[i].children[j]
    decreases |candidates|
  {
    var c := candidates[0];
    if HoldsDatapoint(c, s, d) {
      WithSchemaIdFirst(c.children, "datapoint", d);
      var j :| FirstMatchAt(c.children, "datapoint", d, j) && c.children[j] == WithSchemaId(c.children, "datapoint", d)[0];
      assert FirstSectionAt(candidates, s, d, 0);
    } else {
      assert SectionDatapoints(candidates, s, d) == SectionDatapoints(candidates[1..], s, d);
      SectionDatapointsFirst(candidates[1..], s, d);
      var i, j :| FirstSectionAt(candidates[1..], s, d, i) && FirstMatchAt(candidates[1..][i].children, "datapoint", d, j)
                  && SectionDatapoints(candidates[1..], s, d)[0] == candidates[1..][i].children[j];
      assert FirstSectionAt(candidates, s, d, i + 1);
    }
  }

  /**
   * The document-wide lookup against its reference reading: it is absent
   * exactly when no matching datapoint sits in a matching section anywhere
   * below the root, and a present value is the text of such a datapoint:
   * in document order, the first matching child of the first section that
   * has one.
   */
  lemma FindValueSpec(root: Element, s: string, d: string)
    ensures FindValue(root, s, d).None? <==> !exists dp :: Locates(root, s, d, dp)
    ensures FindValue(root, s, d).Some? ==>
      exists dp :: Locates(root, s, d, dp) && TextOf(dp) == FindValue(root, s, d).value
    ensures FindValue(root, s, d).Some? ==>
      var walk := Descendants(root);
      exists i, j :: FirstSectionAt(walk, s, d, i) && FirstMatchAt(walk[i].children, "datapoint", d, j)
                     && FindValue(root, s, d).value == TextOf(walk[i].children[j])
  {
    var m := SectionDatapoints(Descendants(root), s, d);
    if m != [] {
      SectionDatapointsFirst(Descendants(root), s, d);
      SectionDatapointsMembers(m[0], Descendants(root), s, d);
      var sec :| sec in Descendants(root) && HasSchemaId(sec, "section", s) && m[0] in sec.children && HasSchemaId(m[0], "datapoint", d);
      DescendantsAreBelow(sec, root);
      assert Locates(root, s, d, m[0]);
    } else {
      forall dp | Locates(root, s, d, dp) ensures false {
        var sec :| Below(sec, root) && HasSchemaId(sec, "section", s) && dp in sec.children && HasSchemaId(dp, "datapoint", d);
        DescendantsAreBelow(sec, root);
        SectionDatapointsMembers(dp, Descendants(root), s, d);
      }
    }
  }

  /**
   * The fallback rule of the section extractor: a non-empty primary value is
   * returned unchanged; the fallback pair is consulted only when the primary
   * is empty or absent and both fallback identifiers are non-empty; the
   * result is otherwise `""`, never absent.
   */
  lemma SectionValueRule(root: Element, s: string, d: string, fs: Option<string>, fd: Option<string>)
    ensures Truthy(FindValue(root, s, d)) ==> SectionValue(root, s, d, fs, fd) == FindValue(root, s, d).value
    ensures !Truthy(FindValue(root, s, d)) && Given(fs) && Given(fd) ==>
      SectionValue(root, s, d, fs, fd) == FindValue(root, fs.value, fd.value).GetOr("")
    ensures !Truthy(FindValue(root, s, d)) && !(Given(fs) && Given(fd)) ==> SectionValue(root, s, d, fs, fd) == ""
  {
  }

  /**
   * Every non-empty extracted value is the text of a datapoint the document
   * really holds under the primary pair, or under the fallback pair when both
   * fallback identifiers are given.
   */
  lemma SectionValueSound(root: Element, s: string, d: string, fs: Option<string>, fd: Option<string>)
    ensures SectionValue(root, s, d, fs, fd) != "" ==>
      exists dp :: TextOf(dp) == SectionValue(root, s, d, fs, fd) &&
        (Locates(root, s, d, dp) || (Given(fs) && Given(fd) && Locates(root, fs.value, fd.value, dp)))
  {
    FindValueSpec(root, s, d);
    if Given(fs) && Given(fd) {
      FindValueSpec(root, fs.value, fd.value);
    }
  }

  /**
   * A field the document does not carry extracts as `""`: absence is data,
   * never an error.
   */
  lemma MissingFieldIsEmpty(root: Element, s: string, d: string, fs: Option<string>, fd: Option<string>)
    requires !exists dp :: Locates(root, s, d, dp)
    requires Given(fs) && Given(fd) ==> !exists dp :: Locates(root, fs.value, fd.value, dp)
    ensures SectionValue(root, s, d, fs, fd) == ""
  {
    FindValueSpec(root, s, d);
    if Given(fs) && Given(fd) {
      FindValueSpec(root, fs.value, fd.value);
    }
  }

  /**
   * The item extractor: the primary datapoint's text when it is non-empty,
   * otherwise the fallback lookup, which is absent exactly when the item has
   * no datapoint child carrying the fallback identifier; every present
   * result is the text of a datapoint child of the item.
   */
  lemma ItemValueRule(item: Element, d: string, fd: string)
    ensures Truthy(ItemLookup(item, d)) ==> ItemValue(item, d, fd) == ItemLookup(item, d)
    ensures !Truthy(ItemLookup(item, d)) ==> ItemValue(item, d, fd) == ItemLookup(item, fd)
    ensures !Truthy(ItemLookup(item, d)) ==>
      (ItemValue(item, d, fd).None? <==> !exists c :: c in item.children && HasSchemaId(c, "datapoint", fd))
    ensures ItemValue(item, d, fd).Some? ==>
      exists c :: c in item.children && TextOf(c) == ItemValue(item, d, fd).value &&
        (HasSchemaId(c, "datapoint", d) || HasSchemaId(c, "datapoint", fd))
  {
    var p := WithSchemaId(item.children, "datapoint", d);
    var f := WithSchemaId(item.children, "datapoint", fd);
    if p != [] {
      assert p[0] in p;
    }
    if f != [] {
      assert f[0] in f;
    }
  }
}
