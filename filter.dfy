/**
 * `filter_xml_by_annotation_id`: from a queue export, keep the one
 * annotation whose `url` names the requested annotation id, together with
 * the export's pagination element.
 */
module AnnotationFilter {
  import opened Wrappers
  import opened Text
  import opened Xml
  import opened Errors

  const NotFoundPrefix: string := "Annotation id not found, available annotations: "

  /** What `str(e)` gives for the interpreter's errors on the paths below. */
  const FindallOnNone: string := "'NoneType' object has no attribute 'findall'"
  const SplitOnNone: string := "'NoneType' object has no attribute 'split'"
  const UnexpectedDetail1: string := "HTTPException.__init__() got an unexpected keyword argument 'detail1'"
  const AppendNone: string := "append() argument must be xml.etree.ElementTree.Element, not None"

  /** The url an annotation must carry: the Rossum base url, `annotations/`, then the id in decimal. */
  function TargetUrl(baseUrl: string, annotationId: int): string {
    baseUrl + "annotations/" + IntToString(annotationId)
  }

  /** `a.get("url")`. */
  function UrlOf(a: Element): Option<string> {
    Get(a, "url")
  }

  predicate HasUrl(a: Element, url: string) {
    UrlOf(a) == Some(url)
  }

  /** The annotations whose `url` attribute is `url`, in order. */
  function Matching(annotations: seq<Element>, url: string): (r: seq<Element>)
    ensures |r| <= |annotations|
  {
    if annotations == [] then []
    else (if HasUrl(annotations[0], url) then [annotations[0]] else []) + Matching(annotations[1..], url)
  }

  /** The filtered list holds exactly the annotations that carry the url. */
  lemma {:induction false} MatchingMembers(annotations: seq<Element>, url: string, x: Element)
    ensures x in Matching(annotations, url) <==> x in annotations && HasUrl(x, url)
    decreases |annotations|
  {
    if annotations != [] {
      MatchingMembers(annotations[1..], url, x);
      assert annotations == [annotations[0]] + annotations[1..];
    }
  }

  /**
   * `[a.get("url").split("/")[-1] for a in annotations]`: the last path
   * segment of every url, in order; an annotation without a url makes the
   * `split` fail on `None`.
   */
  function UrlSegments(annotations: seq<Element>): Result<seq<string>, Failure>
    decreases |annotations|
  {
    if annotations == [] then Ok([])
    else
      var url := UrlOf(annotations[0]);
      if url.None? then Err(AttributeError(SplitOnNone))
      else
        var rest :- UrlSegments(annotations[1..]);
        Ok([LastSegment(url.value)] + rest)
  }

  /**
   * The listing fails exactly when some annotation has no url, with the
   * `AttributeError` of `None.split`; otherwise it has one entry per
   * annotation, the last segment of its url.
   */
  lemma {:induction false} UrlSegmentsSpec(annotations: seq<Element>)
    ensures var r := UrlSegments(annotations);
            (r.Ok? <==> forall i | 0 <= i < |annotations| :: UrlOf(annotations[i]).Some?)
            && (r.Ok? ==> |r.value| == |annotations|
                          && forall i | 0 <= i < |annotations| :: r.value[i] == LastSegment(UrlOf(annotations[i]).value))
            && (r.Err? ==> r.error == AttributeError(SplitOnNone))
    decreases |annotations|
  {
    if annotations != [] {
      var tail := annotations[1..];
      UrlSegmentsSpec(tail);
      assert forall i | 1 <= i < |annotations| :: annotations[i] == tail[i - 1];
      var r := UrlSegments(annotations);
      if UrlOf(annotations[0]).Some? && UrlSegments(tail).Ok? {
        assert r.value == [LastSegment(UrlOf(annotations[0]).value)] + UrlSegments(tail).value;
      }
    }
  }

  /**
   * The three outcomes once the matches are known: the not-found listing,
   * the failing `detail1` call, or the new `export` root (which needs the
   * export's pagination).
   */
  function Select(annotations: seq<Element>, matches: seq<Element>, pagination: Option<Element>): Result<Element, Failure> {
    if |matches| == 0 then
      var ids :- UrlSegments(annotations);
      Err(HttpError(404, NotFoundPrefix + Join(", ", ids)))
    else if |matches| > 1 then Err(TypeError(UnexpectedDetail1))
    else if pagination.None? then Err(TypeError(AppendNone))
    else Ok(Element("export", map[], None, [Element("results", map[], None, [matches[0]]), pagination.value]))
  }

  /** The outcome of the filter on a parsed export, in the order the source checks its cases. */
  function Filtered(root: Element, annotationId: int, baseUrl: string): Result<Element, Failure> {
    match FindChild(root, "results")
    case None => Err(AttributeError(FindallOnNone))
    case Some(results) =>
      var annotations := Tagged(results.children, "annotation");
      Select(annotations, Matching(annotations, TargetUrl(baseUrl, annotationId)), FindChild(root, "pagination"))
  }

  lemma {:induction false} MatchingAppend(annotations: seq<Element>, a: Element, url: string)
    ensures Matching(annotations + [a], url) == Matching(annotations, url) + (if HasUrl(a, url) then [a] else [])
    decreases |annotations|
  {
    if annotations != [] {
      assert (annotations + [a])[1..] == annotations[1..] + [a];
      MatchingAppend(annotations[1..], a, url);
    }
  }

  /** The list comprehension that keeps the annotations carrying the target url. */
  method CollectMatches(annotations: seq<Element>, url: string) returns (matches: seq<Element>)
    ensures matches == Matching(annotations, url)
  {
    matches := [];
    for i := 0 to |annotations|
      invariant matches == Matching(annotations[..i], url)
    {
      MatchingAppend(annotations[..i], annotations[i], url);
      assert annotations[..i + 1] == annotations[..i] + [annotations[i]];
      if HasUrl(annotations[i], url) {
        matches := matches + [annotations[i]];
      }
    }
    assert annotations[..|annotations|] == annotations;
  }

  /**
   * `filter_xml_by_annotation_id` on a parsed export: collects the matching
   * annotations, rejects zero or several matches, then assembles a fresh
   * `export` root holding a `results` element with the one match, followed
   * by the original `pagination`.
   */
  method FilterXmlByAnnotationId(root: Element, annotationId: int, baseUrl: string) returns (r: Result<Element, Failure>)
    ensures r == Filtered(root, annotationId, baseUrl)
  {
    var results := FindChild(root, "results");
    if results.None? {
      assert Filtered(root, annotationId, baseUrl) == Err(AttributeError(FindallOnNone));
      return Err(AttributeError(FindallOnNone));
    }
    var annotations := Tagged(results.value.children, "annotation");
    var targetUrl := TargetUrl(baseUrl, annotationId);
    var matches := CollectMatches(annotations, targetUrl);
    assert Filtered(root, annotationId, baseUrl) == Select(annotations, matches, FindChild(root, "pagination"));

    if |matches| == 0 {
      var ids := UrlSegments(annotations);
      if ids.Err? {
        assert Select(annotations, matches, FindChild(root, "pagination")) == Err(ids.error);
        return Err(ids.error);
      }
      assert Select(annotations, matches, FindChild(root, "pagination")) == Err(HttpError(404, NotFoundPrefix + Join(", ", ids.value)));
      return Err(HttpError(404, NotFoundPrefix + Join(", ", ids.value)));
    } else if |matches| > 1 {
      assert Select(annotations, matches, FindChild(root, "pagination")) == Err(TypeError(UnexpectedDetail1));
      return Err(TypeError(UnexpectedDetail1));
    }

    var filteredResults := NewElement("results");
    filteredResults := AppendChild(filteredResults, matches[0]);
    assert filteredResults.children == [matches[0]];
    var filteredRoot := NewElement("export");
    filteredRoot := AppendChild(filteredRoot, filteredResults);
    assert filteredRoot.children == [filteredResults];
    var pagination := FindChild(root, "pagination");
    if pagination.None? {
      assert Select(annotations, matches, pagination) == Err(TypeError(AppendNone));
      return Err(TypeError(AppendNone));
    }
    filteredRoot := AppendChild(filteredRoot, pagination.value);
    assert filteredRoot.children == [filteredResults, pagination.value];
    assert filteredRoot == Element("export", map[], None, [Element("results", map[], None, [matches[0]]), pagination.value]);
    r := Ok(filteredRoot);
  }

  /** Exactly one position of `annotations` carries the url. */
  predicate UniqueMatch(annotations: seq<Element>, url: string, k: int) {
    0 <= k < |annotations| && HasUrl(annotations[k], url)
    && forall j | 0 <= j < |annotations| && j != k :: !HasUrl(annotations[j], url)
  }

  lemma {:induction false} NoneMatch(annotations: seq<Element>, url: string)
    requires forall i | 0 <= i < |annotations| :: !HasUrl(annotations[i], url)
    ensures Matching(annotations, url) == []
    decreases |annotations|
  {
    if annotations != [] {
      assert forall i | 0 <= i < |annotations[1..]| :: annotations[1..][i] == annotations[i + 1];
      NoneMatch(annotations[1..], url);
    }
  }

  /** One match in the filtered list is one annotation, at one position, carrying the url. */
  lemma {:induction false} SingleMatchIff(annotations: seq<Element>, url: string)
    ensures |Matching(annotations, url)| == 1 <==> exists k :: UniqueMatch(annotations, url, k)
    ensures forall k | UniqueMatch(annotations, url, k) :: Matching(annotations, url) == [annotations[k]]
    decreases |annotations|
  {
    if annotations != [] {
      var tail := annotations[1..];
      SingleMatchIff(tail, url);
      if HasUrl(annotations[0], url) {
        if |Matching(annotations, url)| == 1 {
          assert Matching(tail, url) == [];
          forall j | 0 < j < |annotations| ensures !HasUrl(annotations[j], url) {
            assert annotations[j] == tail[j - 1] && tail[j - 1] in tail;
            MatchingMembers(tail, url, tail[j - 1]);
          }
          assert UniqueMatch(annotations, url, 0);
        }
        forall k | UniqueMatch(annotations, url, k) ensures Matching(annotations, url) == [annotations[k]] {
          assert k == 0;
          forall j | 0 <= j < |tail| ensures !HasUrl(tail[j], url) {
            assert tail[j] == annotations[j + 1];
          }
          NoneMatch(tail, url);
        }
      } else {
        forall k | UniqueMatch(annotations, url, k) ensures UniqueMatch(tail, url, k - 1) {
          assert k != 0;
          forall j | 0 <= j < |tail| && j != k - 1 ensures !HasUrl(tail[j], url) {
            assert tail[j] == annotations[j + 1];
          }
        }
        if |Matching(annotations, url)| == 1 {
          var k :| UniqueMatch(tail, url, k);
          assert UniqueMatch(annotations, url, k + 1);
        }
      }
    }
  }

  /** `Select` succeeds exactly on one match and a pagination element. */
  lemma SelectOkIff(annotations: seq<Element>, matches: seq<Element>, pagination: Option<Element>)
    ensures Select(annotations, matches, pagination).Ok? <==> |matches| == 1 && pagination.Some?
  {
    if |matches| == 0 {
      var ids := UrlSegments(annotations);
      assert Select(annotations, matches, pagination).Err?;
    }
  }

  /**
   * The filter succeeds exactly when the export has a `results` element,
   * exactly one of its direct `annotation` children carries the target url,
   * and the export has a `pagination` element.
   */
  lemma FilterSucceedsIff(root: Element, annotationId: int, baseUrl: string)
    ensures Filtered(root, annotationId, baseUrl).Ok? <==>
              FindChild(root, "results").Some?
              && (exists k :: UniqueMatch(Tagged(FindChild(root, "results").value.children, "annotation"),
                                          TargetUrl(baseUrl, annotationId), k))
              && FindChild(root, "pagination").Some?
  {
    var results := FindChild(root, "results");
    if results.Some? {
      var annotations := Tagged(results.value.children, "annotation");
      var url := TargetUrl(baseUrl, annotationId);
      var matches := Matching(annotations, url);
      var pagination := FindChild(root, "pagination");
      assert Filtered(root, annotationId, baseUrl) == Select(annotations, matches, pagination);
      SelectOkIff(annotations, matches, pagination);
      SingleMatchIff(annotations, url);
      assert Filtered(root, annotationId, baseUrl).Ok? <==> |matches| == 1 && pagination.Some?;
      assert |matches| == 1 <==> exists k :: UniqueMatch(annotations, url, k);
      assert annotations == Tagged(FindChild(root, "results").value.children, "annotation");
    }
  }

  /**
   * When the `k`-th direct `annotation` child of `results` is the only one
   * carrying the target url and the export has a `pagination`, the output is
   * a new root `export` with exactly two children: a bare `results` holding
   * only that annotation, and the export's own first `pagination`.
   */
  lemma FilterOutput(root: Element, annotationId: int, baseUrl: string, k: int)
    requires FindChild(root, "results").Some? && FindChild(root, "pagination").Some?
    requires UniqueMatch(Tagged(FindChild(root, "results").value.children, "annotation"), TargetUrl(baseUrl, annotationId), k)
    ensures var annotations := Tagged(FindChild(root, "results").value.children, "annotation");
            Filtered(root, annotationId, baseUrl)
            == Ok(Element("export", map[], None, [Element("results", map[], None, [annotations[k]]),
                                                  FindChild(root, "pagination").value]))
  {
    var annotations := Tagged(FindChild(root, "results").value.children, "annotation");
    var url := TargetUrl(baseUrl, annotationId);
    var matches := Matching(annotations, url);
    var pagination := FindChild(root, "pagination");
    assert Filtered(root, annotationId, baseUrl) == Select(annotations, matches, pagination);
    SingleMatchIff(annotations, url);
    assert matches == [annotations[k]];
  }

  /** The url of the kept annotation ends in the requested id, which reads back as that id. */
  lemma MatchNamesId(root: Element, annotationId: int, baseUrl: string)
    requires Filtered(root, annotationId, baseUrl).Ok?
    ensures var kept := Filtered(root, annotationId, baseUrl).value.children[0].children[0];
            UrlOf(kept).Some?
            && LastSegment(UrlOf(kept).value) == IntToString(annotationId)
            && ParseInt(LastSegment(UrlOf(kept).value)) == Some(annotationId)
  {
    var annotations := Tagged(FindChild(root, "results").value.children, "annotation");
    var kept := Filtered(root, annotationId, baseUrl).value.children[0].children[0];
    assert kept in Matching(annotations, TargetUrl(baseUrl, annotationId));
    MatchingMembers(annotations, TargetUrl(baseUrl, annotationId), kept);
    SlashBeforeId(baseUrl, annotationId);
    IntToStringRoundTrip(annotationId);
  }

  /** The target url is the base url and `annotations`, a slash, and the id. */
  lemma SlashBeforeId(baseUrl: string, k: int)
    ensures LastSegment(TargetUrl(baseUrl, k)) == IntToString(k)
  {
    assert TargetUrl(baseUrl, k) == (baseUrl + "annotations") + "/" + IntToString(k);
    LastSegmentAfterSlash(baseUrl + "annotations", IntToString(k));
  }

  /** Zero matches and several matches are both failures; several always give the `detail1` `TypeError`. */
  lemma FilterNeedsOneMatch(root: Element, annotationId: int, baseUrl: string)
    requires FindChild(root, "results").Some?
    ensures var m := Matching(Tagged(FindChild(root, "results").value.children, "annotation"), TargetUrl(baseUrl, annotationId));
            (|m| == 0 ==> Filtered(root, annotationId, baseUrl).Err?)
            && (|m| > 1 ==> Filtered(root, annotationId, baseUrl) == Err(TypeError(UnexpectedDetail1)))
  {
  }

  /**
   * With no match and every annotation carrying a url, the filter fails with
   * a 404 whose detail lists the last url segment of every annotation, in
   * order: for an annotation of the same account that is the annotation's id.
   */
  lemma NotFoundListsIds(root: Element, annotationId: int, baseUrl: string)
    requires FindChild(root, "results").Some?
    requires var annotations := Tagged(FindChild(root, "results").value.children, "annotation");
             Matching(annotations, TargetUrl(baseUrl, annotationId)) == []
             && forall i | 0 <= i < |annotations| :: UrlOf(annotations[i]).Some?
    ensures var annotations := Tagged(FindChild(root, "results").value.children, "annotation");
            UrlSegments(annotations).Ok? &&
            var ids := UrlSegments(annotations).value;
            Filtered(root, annotationId, baseUrl) == Err(HttpError(404, NotFoundPrefix + Join(", ", ids)))
            && |ids| == |annotations|
            && forall i, k | 0 <= i < |annotations| && HasUrl(annotations[i], TargetUrl(baseUrl, k)) :: ids[i] == IntToString(k)
  {
    var annotations := Tagged(FindChild(root, "results").value.children, "annotation");
    UrlSegmentsSpec(annotations);
    forall i, k | 0 <= i < |annotations| && HasUrl(annotations[i], TargetUrl(baseUrl, k))
      ensures UrlSegments(annotations).value[i] == IntToString(k)
    {
      SlashBeforeId(baseUrl, k);
    }
  }

  /** An annotation without a url, when nothing matches, makes the listing itself fail. */
  lemma NotFoundWithoutUrl(root: Element, annotationId: int, baseUrl: string)
    requires FindChild(root, "results").Some?
    requires var annotations := Tagged(FindChild(root, "results").value.children, "annotation");
             Matching(annotations, TargetUrl(baseUrl, annotationId)) == []
             && exists i | 0 <= i < |annotations| :: UrlOf(annotations[i]).None?
    ensures Filtered(root, annotationId, baseUrl) == Err(AttributeError(SplitOnNone))
  {
    UrlSegmentsSpec(Tagged(FindChild(root, "results").value.children, "annotation"));
  }
}
