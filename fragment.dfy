/**
 * The values that flow from the rendered chart page to the notebook HTML:
 * the script elements of the page, the data kept of them (renderData) and
 * the errors of the pipeline.
 */
module Fragment {
  import opened Wrappers

  /**
   * One <script> element of the rendered page, as the HTML parser reports
   * it: its src attribute when it has one (possibly empty) and its text.
   */
  datatype ScriptElement = ScriptElement(src: Option<string>, text: string)

  /**
   * renderData: the id of the chart's container, the script URLs and the
   * inline script bodies, each list in document order.
   */
  datatype RenderData = RenderData(chartId: string, jsAssetsSrc: seq<string>, jsAssetsCode: seq<string>)

  /** What chart.Render followed by the HTML parser gives: a failure of either, or the script elements. */
  datatype Rendering = RenderFailed | Unparsable | Parsed(scripts: seq<ScriptElement>)

  /** The part of a chart that the extraction reads: its ChartID and what rendering it produces. */
  datatype BaseConfiguration = BaseConfiguration(chartId: string, rendering: Rendering)

  /** The failures of DisplayContent. */
  datatype Error =
    | UnsupportedType(typeName: string)  // a chart type outside the supported list
    | RenderFailure                      // chart.Render failed
    | ParseFailure                       // the rendered page could not be parsed
    | MissingAssets                      // no script URL or no inline code was found
}
