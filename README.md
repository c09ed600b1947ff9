# gonb-echarts, modelled in Dafny

gonb-echarts shows go-echarts charts in a GoNB notebook. `DisplayContent`
asks the chart to render itself as a whole HTML page and keeps the page's
`<script>` elements:

- the URL of every script that has a `src` attribute goes to `JsAssetsSrc`;
- the text of every inline script (one without `src`) goes to `JsAssetsCode`, unless that text is empty; empty inline scripts are dropped.

It then fills the `displayTmpl` text template with these lists and wraps
the result in a `<div>` plus `<script>` fragment. Inside the notebook, the
generated JavaScript loads the script URLs, by RequireJS when the page has
it and by new script tags otherwise. It then runs the chart code
(`echartsFn`) once every URL has loaded.

The model covers:

- `Extraction`: the walk of `parseRendering` over the page's script elements, a method with a loop, and the partition it computes.
- `Template`: the exact text that `displayTmpl` produces, and where each code string and each URL sits in it.
- `Display`: `DisplayContent`, which covers the type switch, the check that both lists are non-empty, and the `fmt.Sprintf` assembly.
- `ModuleNames`: `moduleName`, a method with a loop, built on `path.Base`, `filepath.Ext` and `strings.TrimSuffix` with Unix semantics. Those three are modelled in `GoStrings`.
- `Loader`: the JavaScript bootstrap as a class `Bootstrap`, with its `loadScriptsThenExecute` loop, the `loadedCount` counter and the call of `echartsFn`. The script's top-level run is the constructor (echarts.go:155-174): the RequireJS head/tail split, or the direct call of `loadScriptsThenExecute`. After that, two kinds of event are delivered to it one at a time. `OnEchartsReady` is the callback of `require(['echarts'])` (echarts.go:165-168). `OnScriptLoaded` is one completed load, which calls `scriptLoaded` (echarts.go:125-130, 139-142, 148). The JavaScript string methods it uses (`lastIndexOf`, `substring`) are in `JsStrings`.

The other modules are `Wrappers` (Option, Result) and `Fragment` (the data model).

Some parts of the system are not modelled; they become inputs instead:

- HTML parsing and `chart.Render` become a value `Rendering`. It is a render failure, a parse failure, or the list of script elements, each an `src` option and a text.
- Whether the page has RequireJS is a parameter `Mechanism`.
- The page's existing script elements are a set of URLs.

## Model

| member | source | states |
|---|---|---|
| Extraction.ParseRendering | echarts.go:46-77 | A render failure and a parse failure become errors. Otherwise the chart id is kept and the two lists are exactly Sources and InlineCodes of the script elements. |
| Extraction.GatherAppend | echarts.go:64-74 | The walk over a concatenation of element lists is the concatenation of the walks. |
| Extraction.GatherMember | echarts.go:64-74 | A string is collected iff some element yields it. |
| Extraction.GatherOrder | echarts.go:64-74 | Elements are collected in document order: an earlier collected element comes before anything a later one adds. |
| Extraction.GatherPosition | echarts.go:64-74 | The value of a collected element sits in the result right after what the elements before it produced. |
| Extraction.SourcesComplete | echarts.go:65-73 | Every element with a src attribute, including `src=""`, has its URL in JsAssetsSrc, at its document-order position. |
| Extraction.InlineCodesComplete | echarts.go:66-70 | Every element without src and with non-empty text has that text in JsAssetsCode, at its document-order position. |
| Extraction.SourcesMember | echarts.go:65-73 | A URL is in JsAssetsSrc iff some element has exactly that src attribute. |
| Extraction.InlineCodesMember | echarts.go:66-70 | A text is in JsAssetsCode iff some element without src has that non-empty text. |
| Extraction.PartitionCount | echarts.go:64-74 | Every element lands in JsAssetsSrc, in JsAssetsCode, or among the dropped empty inline scripts, so the two lists together are no longer than the element list. |
| Extraction.TextOfSourcedElementIgnored | echarts.go:65-73 | Changing the text of an element that has a src changes neither list. |
| Template.Script | echarts.go:99-177 | The output of displayTmpl, the template at echarts.go:99-177 filled with renderData: it starts with the text before the range over JsAssetsCode and ends with the fixed loader code after the range over JsAssetsSrc. Where the entries sit in between is stated by CodeInScript and SrcInScript. |
| Template.ItemsAppend | echarts.go:102-110 | A `range` block over a concatenation is the concatenation of the two blocks. |
| Template.ItemAt | echarts.go:102-110 | Item `i` of a `range` block appears verbatim at its offset, with the fixed text of the block before and after it. |
| Template.ItemsInOrder | echarts.go:102-110 | In a `range` block, an earlier item ends before a later one starts. |
| Template.CodeInFill | echarts.go:100-106 | Whatever follows the `echartsSrcs` block, each inline code appears verbatim inside the body of echartsFn, between its opening and the text that closes it. |
| Template.SrcInFill | echarts.go:107-111 | Whatever text follows the range over JsAssetsSrc, each URL appears verbatim between the text before it (ending in a quote) and the text after it (a quote and a comma). Both lie inside the range, and the given text comes after the range. |
| Template.SrcQuoted | echarts.go:108-110 | In the elements of echartsSrcs, each URL stands between two double quotes and is followed by a comma. |
| Template.CodeInScript | echarts.go:99-105 | In the output of displayTmpl, every JsAssetsCode entry appears verbatim inside the body of echartsFn, on its own line: a line break and two tabs precede it, and a line break follows it, all before the text that closes echartsFn. |
| Template.SrcInScript | echarts.go:107-112 | In the output of displayTmpl, every JsAssetsSrc entry appears verbatim as an element of echartsSrcs: an opening quote precedes it, a closing quote and a comma follow it, and it lies before the `];` line that closes the array. |
| Template.LoaderCodeCloses | echarts.go:111 | The text after the range over JsAssetsSrc starts with the line `];` that closes echartsSrcs. |
| Template.ScriptKeepsOrder | echarts.go:101-111 | In the output, the inline codes appear in their order in renderData, and so do the URLs. |
| Display.Assemble | echarts.go:261-275 | The result is an error iff JsAssetsSrc or JsAssetsCode is empty, and that error is the missing-assets error. |
| Display.DisplayContent | echarts.go:197-276 | An unsupported type, a render failure and a parse failure each give their own error. Otherwise the result is Assemble of the extracted lists. |
| Display.Sprintf | echarts.go:275 | fmt.Sprintf of the fragment format: the HTML starts with `<div id="` and ends with `</script>`. SprintfFields places every argument. |
| Display.SprintfFields | echarts.go:275 | The HTML is the fixed text `<div id="`, the id, `" style="`, the style, `"></div><script>`, the code and `</script>`, each at its offset and unescaped. |
| Display.AssembleLayout | echarts.go:261-275 | A success implies both lists are non-empty, and the HTML is the div with the chart id and the style, followed by the displayTmpl output inside `<script>`. |
| Display.SprintfInjective | echarts.go:275 | Given the lengths of id and style, the HTML determines id, style and code. |
| Display.MissingAssetsIff | echarts.go:64-264 | DisplayContent fails on a parsed page iff no script element has a src, or no element is an inline script with non-empty text. |
| GoStrings.TrimSuffix | echarts.go:90 | strings.TrimSuffix: the result followed by the suffix is the input when the input ends with the suffix; otherwise the input is unchanged. |
| GoStrings.Ext | echarts.go:90 | filepath.Ext: a suffix of the path that is empty or starts with the last '.' of the final element, and that contains no other '.' and no '/'. It is empty iff every '.' of the path has a '/' after it. |
| GoStrings.Base | echarts.go:88 | path.Base: "" gives ".", a path of slashes only gives "/", and any other path gives a non-empty name without '/'. That name is a suffix of the path once its trailing slashes are removed, and a '/' precedes it unless it is all of that path. |
| GoStrings.BaseOfElement | echarts.go:88 | path.Base leaves a non-empty name without '/' unchanged. |
| ModuleNames.BeforeFirstDot | echarts.go:87-97 | The part before the first '.': it has no '.', it is a prefix, the next character is a '.' when it is shorter, and it is everything when there is no '.'. |
| ModuleNames.TrimExtStep | echarts.go:90-94 | One loop turn changes the name iff it has a '.'. The stripped name is a prefix with the same part before the first '.'. |
| ModuleNames.ModuleName | echarts.go:87-97 | The loop terminates. The result is path.Base of the source up to its first '.': it has no '.' and is a prefix of the base name. |
| ModuleNames.ModuleNameIdempotent | echarts.go:87-97 | moduleName(moduleName(s)) == moduleName(s). |
| JsStrings.LastIndexOf | echarts.go:159 | lastIndexOf: -1, or an index where the pattern occurs with no occurrence after it. |
| JsStrings.Substring | echarts.go:159 | substring(start, end): at most the whole string. For indices in order within the string it is the slice between them, for indices out of order the slice between them swapped, and for a negative end the prefix up to the clamped start. |
| Loader.EchartsPath | echarts.go:159 | The RequireJS path of 'echarts', the head URL with `substring(0, lastIndexOf(".js"))` applied: always a prefix of the URL. EchartsPathCut says where it is cut. |
| Loader.EchartsPathOfJsUrl | echarts.go:157-159 | A URL ending in ".js" gives the RequireJS path without that extension. |
| Loader.EchartsPathCut | echarts.go:159 | The path is the URL cut at the last ".js". Without ".js" it is empty, because substring(0, -1) is "". |
| Loader.Counter | echarts.go:121-130 | The closure scriptLoaded after k calls for n scripts: loadedCount is k, and fn has not run while k < n. CounterFiresOnce gives the number of runs in every case. |
| Loader.CounterFiresOnce | echarts.go:121-130 | After k calls of scriptLoaded, loadedCount is k, and fn has run once if 0 < n <= k and not at all otherwise. |
| Loader.CounterFiresOnNth | echarts.go:125-130 | With n > 0 scripts, fn has not run after n - 1 calls, has run once after the n-th, and never runs again. |
| Loader.RequestedAreMissing | echarts.go:132-152 | A load is started only for a listed URL that had no script element on the page. |
| Loader.RequestedCoversMissing | echarts.go:132-152 | Every listed URL with no script element on the page gets a load. |
| Loader.RequestedOnce | echarts.go:132-152 | With script tags, no URL is loaded twice, even when it is listed twice. |
| Loader.NothingRequestedWhenPresent | echarts.go:134-137 | When the page already has every URL, no load is started. |
| Loader.RequestedLength | echarts.go:132-152 | No more loads are started than there are URLs. |
| Loader.ScanScripts | echarts.go:132-152 | The loop starts exactly the loads Requested gives, in order, and leaves the page as DocumentAfter says. loadedCount is the number of list entries the loop finds on the page when it reaches them, and fn has run iff that is every entry. |
| Loader.ScanRequests | echarts.go:132-152 | One loop turn keeps the invariant on the loads started. |
| Loader.ScanPage | echarts.go:143-150 | One loop turn keeps the invariant on the page's script elements. |
| Loader.Bootstrap.constructor | echarts.go:155-174 | Under RequireJS with an empty list, the script aborts. Under RequireJS otherwise, the head URL is removed and becomes the path of 'echarts', and the rest is kept for later. With script tags, loadScriptsThenExecute starts on all URLs. |
| Loader.Bootstrap.LoadScriptsThenExecute | echarts.go:113-153 | With no URL, fn runs at once. Otherwise, as in ScanScripts, the loads are started, the page is updated, and loadedCount plus outstanding equals the number of URLs. |
| Loader.Bootstrap.OnEchartsReady | echarts.go:165-168 | The 'echarts' callback runs loadScriptsThenExecute on the remaining URLs and is a no-op in any other phase. |
| Loader.Bootstrap.OnScriptLoaded | echarts.go:125-130 | One load event increments loadedCount, and fn runs when it reaches the number of URLs. With nothing outstanding, the state is unchanged. |
| Loader.RunToCompletion | echarts.go:113-174 | When every awaited event is delivered, fn runs exactly once, except under RequireJS with an empty list, where it never runs. There is one load event per load started. When there is at least one, fn has not run before the last of them. With none, fn ran before any load event: at once when the list handed to loadScriptsThenExecute is empty, otherwise during its loop when every URL was on the page. The loads and the final page are Requested and DocumentAfter of the URLs handed to loadScriptsThenExecute. |
| Loader.RunTwice | echarts.go:132-137 | Showing the same output twice with script tags starts no load the second time, and fn still runs exactly once each time. |

## Left out

- HTML parsing with goquery (echarts.go:55-60) and `chart.Render` (echarts.go:49) are external libraries. Their outcome is the input value `Rendering`, and the wrapped error messages are reduced to the error kinds `RenderFailure` and `ParseFailure`.
- The chart types are not modelled. Only the kind of chart and its `BaseConfiguration` (ChartID plus rendering) are, so each of the 27 supported arms makes the same call.
- `Display.ChartKind.Unlisted` models the `default` arm of the type switch (echarts.go:255-256). In the source, the generic `DisplayContent` accepts only the 27 chart types of its type constraint, so the Go compiler makes that arm unreachable. The model keeps the arm, and its `UnsupportedType` error, as written.
- `Display` (echarts.go:182-189) passes the HTML to `gonbui.DisplayHtml`, which is notebook I/O. Only `DisplayContent` is modelled.
- The failure of `displayTmpl.Execute` (echarts.go:268-272) is left out. The template only prints strings, and the model writes it as a total function of renderData.
- Browser behaviour is left out: DOM, `document.head`, async script loading, network failures, `onerror` logging, `console.log` and the `window.echarts` binding. Loads that complete are explicit events. A load that never completes is a missing event, which leaves fn not run.
- Script elements that RequireJS itself adds are not modelled. This includes the element it loaded the module 'echarts' through, which is on the page by the time the 'echarts' callback runs the loop of loadScriptsThenExecute. RequireJS loads are taken not to add elements that the loop's `querySelector` could find. So under RequireJS the model leaves the page's set of script elements unchanged, and it does not track loaded RequireJS modules across runs.
- A load callback that could fire several times for one load is left out, as is the ordering between loads. Each started load completes once, and the order of completions does not matter to the counter.
- RunTwice covers a re-run only with script tags. Under RequireJS, what is cached between runs is RequireJS's own state, which is not modelled.
- `moduleName` is not called anywhere in the repository. It is modelled as written.
- URLs are inserted unescaped into a JavaScript string literal (echarts.go:109) and into a CSS selector (echarts.go:134). The model does not parse JavaScript or CSS. For a URL containing `"`, `\` or a line break, the real script is a syntax error, so nothing runs and fn never runs, or the string's escapes change the URL. `Loader.Bootstrap` takes its `sources` to be `JsAssetsSrc` as they are. That holds only for URLs without those characters, and the model does not state this link between `Template` and `Loader`.
- A nil `chart` pointer makes `&c.BaseConfiguration` panic (echarts.go:201-254). The value type `Chart` has no nil, so the panic is not modelled.
