/**
 * The alert identifier is read off the alert's `generatorURL`: the URL is
 * split on '/' and the identifier is the piece right after the first piece
 * equal to "grafana".
 */
module Extractor {
  import opened Wrappers
  import opened Text

  const GrafanaSegment := "grafana"

  /** `parts.index(x)`, with `None` where Python raises `ValueError`. */
  function IndexOf(parts: seq<string>, x: string): (r: Option<nat>)
    ensures r.None? <==> x !in parts
    ensures r.Some? ==>
      r.value < |parts| && parts[r.value] == x &&
      forall k :: 0 <= k < r.value ==> parts[k] != x
  {
    if |parts| == 0 then None
    else if parts[0] == x then Some(0)
    else match IndexOf(parts[1..], x)
      case None => None
      case Some(k) => Some(k + 1)
  }

  /** The pieces of the URL. */
  function Segments(url: string): seq<string>
  {
    Split(url, '/')
  }

  /** `k` is the position of the first "grafana" piece. */
  predicate IsFirstGrafana(parts: seq<string>, k: int)
  {
    0 <= k < |parts| && parts[k] == GrafanaSegment &&
    forall j :: 0 <= j < k ==> parts[j] != GrafanaSegment
  }

  /**
   * The identifier of an alert, or `None` where the source's lookup raises
   * `ValueError` (no "grafana" piece) or `IndexError` ("grafana" is the
   * last piece).
   */
  function ExtractId(url: string): (r: Option<string>)
    ensures r.Some? ==> '/' !in r.value
  {
    var parts := Segments(url);
    match IndexOf(parts, GrafanaSegment)
    case None => None
    case Some(i) => if i + 1 < |parts| then Some(parts[i + 1]) else None
  }

  /**
   * Extraction succeeds exactly when some piece other than the last is
   * "grafana", and then yields the piece after the first "grafana".
   */
  lemma ExtractIdSpec(url: string)
    ensures ExtractId(url).Some? <==>
      exists k :: 0 <= k < |Segments(url)| - 1 && Segments(url)[k] == GrafanaSegment
    ensures ExtractId(url).Some? ==>
      exists k :: IsFirstGrafana(Segments(url), k) && k + 1 < |Segments(url)| &&
        ExtractId(url).value == Segments(url)[k + 1]
  {
    var parts := Segments(url);
    match IndexOf(parts, GrafanaSegment)
    case None =>
    case Some(i) =>
      assert IsFirstGrafana(parts, i);
  }

  /** The first occurrence of `x` after an `x`-free prefix is right after that prefix. */
  lemma IndexOfAfter(pre: seq<string>, post: seq<string>, x: string)
    requires x !in pre && |post| > 0 && post[0] == x
    ensures IndexOf(pre + post, x) == Some(|pre|)
  {
    var parts := pre + post;
    assert parts[|pre|] == x;
    assert forall k :: 0 <= k < |pre| ==> parts[k] == pre[k];
  }

  /** The pieces of `<pre>/grafana/<id>[/<rest>]`. */
  lemma {:induction false} SegmentsOfPath(pre: string, id: string, rest: string)
    requires '/' !in id
    requires rest == "" || rest[0] == '/'
    ensures Segments(pre + "/grafana/" + id + rest)
         == Segments(pre) + [GrafanaSegment, id] + (if rest == "" then [] else Segments(rest[1..]))
  {
    var url := pre + "/grafana/" + id + rest;
    var tail := id + rest;
    assert url == pre + ['/'] + (GrafanaSegment + ['/'] + tail);
    SplitAround(pre, '/', GrafanaSegment + ['/'] + tail);
    SplitPieceThenSep(GrafanaSegment, '/', tail);
    if rest == "" {
      assert tail == id;
      SplitNoSep(id, '/');
    } else {
      assert tail == id + ['/'] + rest[1..];
      SplitPieceThenSep(id, '/', rest[1..]);
    }
  }

  /**
   * For a URL of the form `<pre>/grafana/<id>[/<rest>]` whose prefix has no
   * "grafana" piece, the identifier is exactly `<id>`.
   */
  lemma ExtractFromPath(pre: string, id: string, rest: string)
    requires GrafanaSegment !in Segments(pre)
    requires '/' !in id
    requires rest == "" || rest[0] == '/'
    ensures ExtractId(pre + "/grafana/" + id + rest) == Some(id)
  {
    var url := pre + "/grafana/" + id + rest;
    var after := [GrafanaSegment, id] + (if rest == "" then [] else Segments(rest[1..]));
    SegmentsOfPath(pre, id, rest);
    assert Segments(url) == Segments(pre) + after;
    IndexOfAfter(Segments(pre), after, GrafanaSegment);
    assert Segments(url)[|Segments(pre)| + 1] == id;
  }

  /** Without a "grafana" piece, extraction fails. */
  lemma ExtractNeedsGrafana(url: string)
    requires GrafanaSegment !in Segments(url)
    ensures ExtractId(url) == None
  {
  }

  /** A URL ending in the piece "grafana" (its only one) has no identifier. */
  lemma {:induction false} ExtractGrafanaLast(pre: string)
    requires GrafanaSegment !in Segments(pre)
    ensures ExtractId(pre + "/grafana") == None
  {
    assert pre + "/grafana" == pre + ['/'] + GrafanaSegment;
    SplitAround(pre, '/', GrafanaSegment);
    SplitNoSep(GrafanaSegment, '/');
    IndexOfAfter(Segments(pre), [GrafanaSegment], GrafanaSegment);
  }

  /** A prefix without the letter 'g' cannot contain a "grafana" piece. */
  lemma NoGrafanaWithoutG(pre: string)
    requires 'g' !in pre
    ensures GrafanaSegment !in Segments(pre)
  {
    if GrafanaSegment in Segments(pre) {
      var i :| 0 <= i < |Segments(pre)| && Segments(pre)[i] == GrafanaSegment;
      assert 'g' in Segments(pre)[i];
      SplitChars(pre, '/', i, 'g');
    }
  }
}
