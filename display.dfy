/**
 * DisplayContent: the dispatch over the supported chart types, the check
 * that the extraction found both script URLs and inline code, and the
 * assembly of the final HTML with fmt.Sprintf.
 */
module Display {
  import opened Wrappers
  import opened Fragment
  import opened Extraction
  import opened Template

  /** The chart types in the SupportedCharts constraint, and any other type by its name. */
  datatype ChartKind =
    | Bar | Bar3D | BoxPlot | Custom | EffectScatter | Funnel | Gauge | Geo | Graph
    | HeatMap | Kline | Line3D | Line | Liquid | Map | Parallel | Pie | Radar | Sankey
    | Scatter3D | Scatter | Sunburst | Surface3D | ThemeRiver | Tree | TreeMap | WordCloud
    | Unlisted(typeName: string)

  /** A chart: its type and the BaseConfiguration every supported type embeds. */
  datatype Chart = Chart(kind: ChartKind, base: BaseConfiguration)

  /** The fixed pieces of the format `<div id="%s" style="%s"></div><script>%s</script>`. */
  const DivOpen: string := "<div id=\""
  const StyleOpen: string := "\" style=\""
  const DivClose: string := "\"></div><script>"
  const ScriptClose: string := "</script>"

  /** fmt.Sprintf of that format: each argument is inserted as it is, without escaping. */
  function Sprintf(id: string, style: string, code: string): (h: string)
    ensures |h| >= |DivOpen| + |ScriptClose|
    ensures h[..|DivOpen|] == DivOpen && h[|h| - |ScriptClose|..] == ScriptClose
  {
    DivOpen + id + StyleOpen + style + DivClose + code + ScriptClose
  }

  /**
   * The HTML that DisplayContent returns for the extracted data: an error
   * when there is no script URL or no inline code, otherwise the container
   * div followed by the script that displayTmpl produces.
   */
  function Assemble(data: RenderData, style: string): (r: Result<string, Error>)
    ensures r.Failure? <==> data.jsAssetsSrc == [] || data.jsAssetsCode == []
    ensures r.Failure? ==> r.error == MissingAssets
  {
    if |data.jsAssetsSrc| == 0 || |data.jsAssetsCode| == 0 then Failure(MissingAssets)
    else Success(Sprintf(data.chartId, style, Script(data)))
  }

  /**
   * DisplayContent: an unsupported type, a failed rendering or an unparsable
   * page is an error; otherwise the script elements are extracted and the
   * HTML assembled from them.
   */
  method DisplayContent(chart: Chart, style: string) returns (r: Result<string, Error>)
    ensures chart.kind.Unlisted? ==> r == Failure(UnsupportedType(chart.kind.typeName))
    ensures !chart.kind.Unlisted? && chart.base.rendering.RenderFailed? ==> r == Failure(RenderFailure)
    ensures !chart.kind.Unlisted? && chart.base.rendering.Unparsable? ==> r == Failure(ParseFailure)
    ensures !chart.kind.Unlisted? && chart.base.rendering.Parsed? ==>
      var elems := chart.base.rendering.scripts;
      r == Assemble(RenderData(chart.base.chartId, Sources(elems), InlineCodes(elems)), style)
  {
    if chart.kind.Unlisted? {
      return Failure(UnsupportedType(chart.kind.typeName));
    }
    var parsed := ParseRendering(chart.base);
    match parsed {
      case Failure(e) =>
        r := Failure(e);
      case Success(data) =>
        r := Assemble(data, style);
    }
  }

  /**
   * fmt.Sprintf puts every argument verbatim at a position fixed by the
   * lengths of the arguments before it: the id inside the id attribute, the
   * style inside the style attribute, and the code inside the script element.
   */
  lemma SprintfFields(id: string, style: string, code: string)
    ensures var h := Sprintf(id, style, code);
      var a := |DivOpen|; var b := a + |id|; var c := b + |StyleOpen|;
      var d := c + |style|; var e := d + |DivClose|; var f := e + |code|;
      |h| == f + |ScriptClose| &&
      h[..a] == DivOpen && h[a..b] == id && h[b..c] == StyleOpen && h[c..d] == style &&
      h[d..e] == DivClose && h[e..f] == code && h[f..] == ScriptClose
  {
  }

  /**
   * On success the HTML is the container div with the chart's id and the
   * caller's style, verbatim, then a script element holding exactly the
   * output of displayTmpl; both lists were non-empty.
   */
  lemma AssembleLayout(data: RenderData, style: string)
    requires Assemble(data, style).Success?
    ensures data.jsAssetsSrc != [] && data.jsAssetsCode != []
    ensures var h := Assemble(data, style).value;
      var a := |DivOpen|; var b := a + |data.chartId|; var c := b + |StyleOpen|;
      var d := c + |style|; var e := d + |DivClose|; var f := e + |Script(data)|;
      |h| == f + |ScriptClose| &&
      h[..a] == DivOpen && h[a..b] == data.chartId && h[b..c] == StyleOpen && h[c..d] == style &&
      h[d..e] == DivClose && h[e..f] == Script(data) && h[f..] == ScriptClose
  {
    SprintfFields(data.chartId, style, Script(data));
  }

  /**
   * Knowing the lengths of the id and the style, the HTML determines the id,
   * the style and the script: no two different inputs of the same lengths
   * give the same HTML.
   */
  lemma SprintfInjective(id: string, style: string, code: string, id': string, style': string, code': string)
    requires |id| == |id'| && |style| == |style'|
    requires Sprintf(id, style, code) == Sprintf(id', style', code')
    ensures id == id' && style == style' && code == code'
  {
    SprintfFields(id, style, code);
    SprintfFields(id', style', code');
  }

  /** The script elements that give no src, or no non-empty inline code, are the ones that make DisplayContent fail. */
  lemma MissingAssetsIff(chartId: string, elems: seq<ScriptElement>, style: string)
    ensures
      Assemble(RenderData(chartId, Sources(elems), InlineCodes(elems)), style) == Failure(MissingAssets) <==>
      (forall i :: 0 <= i < |elems| ==> elems[i].src.None?) ||
      (forall i :: 0 <= i < |elems| ==> elems[i].src.Some? || elems[i].text == "")
  {
    if Sources(elems) != [] {
      SourcesMember(elems, Sources(elems)[0]);
    }
    if InlineCodes(elems) != [] {
      InlineCodesMember(elems, InlineCodes(elems)[0]);
    }
    if i :| 0 <= i < |elems| && elems[i].src.Some? {
      SourcesMember(elems, elems[i].src.value);
    }
    if i :| 0 <= i < |elems| && elems[i].src.None? && elems[i].text != "" {
      InlineCodesMember(elems, elems[i].text);
    }
  }
}
