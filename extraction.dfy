/**
 * parseRendering: the walk over the <script> elements of the rendered page
 * that fills JsAssetsSrc and JsAssetsCode.
 */
module Extraction {
  import opened Wrappers
  import opened Fragment

  /** What the walk keeps of an element for JsAssetsSrc: its src attribute, even an empty one. */
  function SrcOf(e: ScriptElement): Option<string> {
    e.src
  }

  /** What the walk keeps of an element for JsAssetsCode: the text of an element without src, unless it is empty. */
  function CodeOf(e: ScriptElement): Option<string> {
    if e.src.None? && e.text != "" then Some(e.text) else None
  }

  /** The values `pick` keeps of `elems`, in document order. */
  function Gather(elems: seq<ScriptElement>, pick: ScriptElement -> Option<string>): seq<string>
    decreases |elems|
  {
    if elems == [] then []
    else
      var last := elems[|elems| - 1];
      Gather(elems[..|elems| - 1], pick) + (if pick(last).Some? then [pick(last).value] else [])
  }

  /** JsAssetsSrc of a page with script elements `elems`. */
  function Sources(elems: seq<ScriptElement>): seq<string> {
    Gather(elems, SrcOf)
  }

  /** JsAssetsCode of a page with script elements `elems`. */
  function InlineCodes(elems: seq<ScriptElement>): seq<string> {
    Gather(elems, CodeOf)
  }

  /** The number of elements the walk drops: no src and empty text. */
  function Dropped(elems: seq<ScriptElement>): nat
    decreases |elems|
  {
    if elems == [] then 0
    else
      var last := elems[|elems| - 1];
      Dropped(elems[..|elems| - 1]) + (if last.src.None? && last.text == "" then 1 else 0)
  }

  /**
   * parseRendering: renders the chart, parses the page and walks its script
   * elements in order, appending the src of those that have one to
   * JsAssetsSrc and the non-empty text of the others to JsAssetsCode. A
   * failure to render or to parse is returned as it is.
   */
  method ParseRendering(chart: BaseConfiguration) returns (r: Result<RenderData, Error>)
    ensures chart.rendering.RenderFailed? ==> r == Failure(RenderFailure)
    ensures chart.rendering.Unparsable? ==> r == Failure(ParseFailure)
    ensures chart.rendering.Parsed? ==>
      r == Success(RenderData(chart.chartId, Sources(chart.rendering.scripts), InlineCodes(chart.rendering.scripts)))
  {
    match chart.rendering
    case RenderFailed =>
      r := Failure(RenderFailure);
    case Unparsable =>
      r := Failure(ParseFailure);
    case Parsed(elems) =>
      var srcs: seq<string> := [];
      var codes: seq<string> := [];
      var i := 0;
      while i < |elems|
        invariant 0 <= i <= |elems|
        invariant srcs == Sources(elems[..i])
        invariant codes == InlineCodes(elems[..i])
      {
        var e := elems[i];
        assert elems[..i + 1][..i] == elems[..i];
        match e.src {
          case None =>
            if e.text != "" {
              codes := codes + [e.text];
            }
          case Some(src) =>
            srcs := srcs + [src];
        }
        i := i + 1;
      }
      assert elems[..i] == elems;
      r := Success(RenderData(chart.chartId, srcs, codes));
  }

  /** Gathering distributes over concatenation: the values of `a` come first, in their order. */
  lemma {:induction false} GatherAppend(a: seq<ScriptElement>, b: seq<ScriptElement>, pick: ScriptElement -> Option<string>)
    ensures Gather(a + b, pick) == Gather(a, pick) + Gather(b, pick)
    decreases |b|
  {
    if b != [] {
      var init := b[..|b| - 1];
      assert (a + b)[..|a + b| - 1] == a + init;
      GatherAppend(a, init, pick);
    } else {
      assert a + b == a;
    }
  }

  /** A value is gathered exactly when some element yields it. */
  lemma {:induction false} GatherMember(elems: seq<ScriptElement>, pick: ScriptElement -> Option<string>, x: string)
    ensures x in Gather(elems, pick) <==> exists i :: 0 <= i < |elems| && pick(elems[i]) == Some(x)
    decreases |elems|
  {
    if elems != [] {
      var init := elems[..|elems| - 1];
      GatherMember(init, pick, x);
      if exists i :: 0 <= i < |init| && pick(init[i]) == Some(x) {
        var i :| 0 <= i < |init| && pick(init[i]) == Some(x);
        assert pick(elems[i]) == Some(x);
      }
      if exists i :: 0 <= i < |elems| && pick(elems[i]) == Some(x) {
        var i :| 0 <= i < |elems| && pick(elems[i]) == Some(x);
        if i < |init| {
          assert pick(init[i]) == Some(x);
        }
      }
    }
  }

  /**
   * Element `i`, when it yields a value, lands at position
   * |Gather(elems[..i])| of the result: one position per earlier kept
   * element.
   */
  lemma GatherPosition(elems: seq<ScriptElement>, pick: ScriptElement -> Option<string>, i: nat)
    requires i < |elems| && pick(elems[i]).Some?
    ensures |Gather(elems[..i], pick)| < |Gather(elems, pick)|
    ensures Gather(elems, pick)[|Gather(elems[..i], pick)|] == pick(elems[i]).value
  {
    assert elems == elems[..i + 1] + elems[i + 1..];
    GatherAppend(elems[..i + 1], elems[i + 1..], pick);
    assert elems[..i + 1][..i] == elems[..i];
  }

  /** Kept elements keep their document order: an earlier one has a smaller position. */
  lemma GatherOrder(elems: seq<ScriptElement>, pick: ScriptElement -> Option<string>, i: nat, j: nat)
    requires i < j <= |elems| && pick(elems[i]).Some?
    ensures |Gather(elems[..i], pick)| < |Gather(elems[..j], pick)|
  {
    GatherPosition(elems[..j], pick, i);
    assert elems[..j][..i] == elems[..i];
  }

  /**
   * Every element with a src attribute, an empty one included, has its src
   * in JsAssetsSrc, at the position given by the number of src elements
   * before it; nothing else is in JsAssetsSrc.
   */
  lemma SourcesComplete(elems: seq<ScriptElement>, i: nat)
    requires i < |elems| && elems[i].src.Some?
    ensures |Sources(elems[..i])| < |Sources(elems)|
    ensures Sources(elems)[|Sources(elems[..i])|] == elems[i].src.value
  {
    GatherPosition(elems, SrcOf, i);
  }

  /** Every non-empty inline text lands in JsAssetsCode, at the position given by the inline codes before it. */
  lemma InlineCodesComplete(elems: seq<ScriptElement>, i: nat)
    requires i < |elems| && elems[i].src.None? && elems[i].text != ""
    ensures |InlineCodes(elems[..i])| < |InlineCodes(elems)|
    ensures InlineCodes(elems)[|InlineCodes(elems[..i])|] == elems[i].text
  {
    GatherPosition(elems, CodeOf, i);
  }

  /** JsAssetsSrc holds exactly the src values of the page's script elements. */
  lemma SourcesMember(elems: seq<ScriptElement>, x: string)
    ensures x in Sources(elems) <==> exists i :: 0 <= i < |elems| && elems[i].src == Some(x)
  {
    GatherMember(elems, SrcOf, x);
  }

  /**
   * JsAssetsCode holds exactly the texts of the elements without src whose
   * text is not empty; in particular it never holds "".
   */
  lemma InlineCodesMember(elems: seq<ScriptElement>, x: string)
    ensures x in InlineCodes(elems) <==>
      x != "" && exists i :: 0 <= i < |elems| && elems[i].src.None? && elems[i].text == x
  {
    GatherMember(elems, CodeOf, x);
    if x in InlineCodes(elems) {
      var i :| 0 <= i < |elems| && CodeOf(elems[i]) == Some(x);
      assert elems[i].src.None? && elems[i].text == x;
    }
    if x != "" && exists i :: 0 <= i < |elems| && elems[i].src.None? && elems[i].text == x {
      var i :| 0 <= i < |elems| && elems[i].src.None? && elems[i].text == x;
      assert CodeOf(elems[i]) == Some(x);
    }
  }

  /**
   * Every element goes to exactly one of JsAssetsSrc, JsAssetsCode or the
   * dropped ones, so the two lists together are never longer than the page's
   * list of scripts.
   */
  lemma {:induction false} PartitionCount(elems: seq<ScriptElement>)
    ensures |Sources(elems)| + |InlineCodes(elems)| + Dropped(elems) == |elems|
    ensures |Sources(elems)| + |InlineCodes(elems)| <= |elems|
    decreases |elems|
  {
    if elems != [] {
      PartitionCount(elems[..|elems| - 1]);
    }
  }

  /** The text of an element with a src attribute changes neither list. */
  lemma TextOfSourcedElementIgnored(elems: seq<ScriptElement>, i: nat, text: string)
    requires i < |elems| && elems[i].src.Some?
    ensures Sources(elems[i := elems[i].(text := text)]) == Sources(elems)
    ensures InlineCodes(elems[i := elems[i].(text := text)]) == InlineCodes(elems)
  {
    var changed := elems[i := elems[i].(text := text)];
    assert elems == elems[..i] + [elems[i]] + elems[i + 1..];
    assert changed == elems[..i] + [changed[i]] + elems[i + 1..];
    GatherAppend(elems[..i] + [elems[i]], elems[i + 1..], SrcOf);
    GatherAppend(elems[..i], [elems[i]], SrcOf);
    GatherAppend(elems[..i] + [changed[i]], elems[i + 1..], SrcOf);
    GatherAppend(elems[..i], [changed[i]], SrcOf);
    GatherAppend(elems[..i] + [elems[i]], elems[i + 1..], CodeOf);
    GatherAppend(elems[..i], [elems[i]], CodeOf);
    GatherAppend(elems[..i] + [changed[i]], elems[i + 1..], CodeOf);
    GatherAppend(elems[..i], [changed[i]], CodeOf);
  }
}
