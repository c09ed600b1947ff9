/**
 * The text that displayTmpl (a text/template, which does no escaping)
 * produces for a renderData: a fixed opening, one block per inline code
 * inside the body of echartsFn, a fixed middle, one quoted array element per
 * script URL inside echartsSrcs, and the fixed loader code.
 */
module Template {
  import opened Fragment

  /** The text of a {{range}} over `items`: `before`, the item verbatim, `after`, for each item in order. */
  function Items(items: seq<string>, before: string, after: string): string
    decreases |items|
  {
    if items == [] then ""
    else Items(items[..|items| - 1], before, after) + before + items[|items| - 1] + after
  }

  /** Up to the first {{range}}: the opening of the arrow function and of echartsFn. */
  const Opening: string := "\n(() => {\n\tlet echartsFn = function() {\n\t"

  /** Around each {{.}} of the range over JsAssetsCode. */
  const CodeBefore: string := "\n\t\t"
  const CodeAfter: string := "\n\t"

  /** Between the two ranges: the end of echartsFn and the start of the echartsSrcs array. */
  const Middle: string := "\n\t}\n\n\tlet echartsSrcs = [\n\t"

  /** Around each {{.}} of the range over JsAssetsSrc: a double-quoted array element. */
  const SrcBefore: string := "\n\t\t\""
  const SrcAfter: string := "\",\t\n\t"

  /** The lines of displayTmpl after the second range: the end of echartsSrcs, loadScriptsThenExecute and the loader selection. */
  const LoaderLines: seq<string> := [ArrayClose] + LoaderBody

  /** The line that closes the echartsSrcs array. */
  const ArrayClose: string := "\t];"

  /** The lines after it: loadScriptsThenExecute and the loader selection. */
  const LoaderBody: seq<string> := [
    "",
    "\tfunction loadScriptsThenExecute(scripts, fn) {",
    "\t\tif (scripts.length == 0) {",
    "\t\t\t// Nothing to load, execute immediately.",
    "\t\t\tfn();",
    "\t\t\treturn;",
    "\t\t}",
    "",
    "\t\t// Keep track of loaded scripts",
    "\t\tlet loadedCount = 0;",
    "\t\tconst head = document.head;",
    "\t\t",
    "\t\t// Function to handle successful script loading",
    "\t\tconst scriptLoaded = () => {",
    "\t\t\tloadedCount++;",
    "\t\t\tif (loadedCount === scripts.length) {",
    "\t\t\t\tfn(); // Execute the callback function when all scripts are loaded",
    "\t\t\t}",
    "\t\t};",
    "\t\t",
    "\t\tfor (const src of scripts) {",
    "\t\t\t// Check if script is already loaded",
    "\t\t\tconst existingScript = document.querySelector(\'script[src=\"\'+src+\'\"]\');",
    "\t\t\tif (existingScript) {",
    "\t\t\t\t// Script already loaded. ",
    "\t\t\t\tscriptLoaded(); // Proceed as if loaded",
    "\t\t\t} else if (typeof requirejs === \"function\") {",
    "\t\t\t\trequire([src], function(loadedModule) {",
    "        \t\t\t// Note: \'loadedModule\' will contain the exports from the script, if any.",
    "        \t\t\tscriptLoaded(); ",
    "\t\t\t\t});",
    "\t\t\t} else {",
    "\t\t\t\t// Create the script element",
    "\t\t\t\tconst script = document.createElement(\'script\');",
    "\t\t\t\tscript.async = false;  // Order matters, this must be false.",
    "\t\t\t\tscript.src = src;",
    "\t\t\t\tscript.onload = scriptLoaded;",
    "\t\t\t\tscript.onerror = () => console.error(\'Failed to load script: \'+src);",
    "\t\t\t\thead.appendChild(script);",
    "\t\t\t}",
    "\t\t}",
    "\t}",
    "",
    "\tif (typeof requirejs === \"function\") {",
    "\t\tconsole.log(\"Using RequireJS\");",
    "\t\tlet src = echartsSrcs.shift();  // The first source is echarts, which must be loaded with RequireJS. ",
    "\t\t// Use RequireJS to load module.",
    "\t\tlet srcWithoutExtension = src.substring(0, src.lastIndexOf(\".js\"));",
    "\t\trequirejs.config({",
    "\t\t\tpaths: {",
    "\t\t\t\t\'echarts\': srcWithoutExtension",
    "\t\t\t}",
    "\t\t});",
    "\t\trequire([\'echarts\'], function(echarts) {",
    "\t\t\twindow.echarts = echarts;  // Define echarts globally.",
    "\t\t\tloadScriptsThenExecute(echartsSrcs, echartsFn);  // Load rest of scripts.\t",
    "\t\t});",
    "\t\treturn",
    "",
    "\t} else {",
    "\t\tconsole.log(\"Not using RequireJS\");",
    "\t\tloadScriptsThenExecute(echartsSrcs, echartsFn);",
    "\t}",
    "",
    "})();"
  ]

  /** The text after the second range: a line break, then each of LoaderLines ended by one. */
  const LoaderCode: string := "\n" + Items(LoaderLines, "", "\n")

  /** The output of displayTmpl for `data`. */
  function Script(data: RenderData): (s: string)
    ensures |s| >= |Opening| + |LoaderCode|
    ensures s[..|Opening|] == Opening && s[|s| - |LoaderCode|..] == LoaderCode
  {
    Ends(Opening, CodeBlock(data.jsAssetsCode), Middle + SrcBlock(data.jsAssetsSrc), LoaderCode);
    Fill(data, LoaderCode)
  }

  /** The template's text up to the end of the second range, followed by `tail`. */
  function Fill(data: RenderData, tail: string): string {
    Opening + CodeBlock(data.jsAssetsCode) + (Middle + SrcBlock(data.jsAssetsSrc) + tail)
  }

  /** The body of echartsFn. */
  function CodeBlock(codes: seq<string>): string {
    Items(codes, CodeBefore, CodeAfter)
  }

  /** The elements of echartsSrcs. */
  function SrcBlock(srcs: seq<string>): string {
    Items(srcs, SrcBefore, SrcAfter)
  }

  /** The range over a concatenation is the concatenation of the ranges. */
  lemma {:induction false} ItemsAppend(a: seq<string>, b: seq<string>, before: string, after: string)
    ensures Items(a + b, before, after) == Items(a, before, after) + Items(b, before, after)
    decreases |b|
  {
    if b == [] {
      assert a + b == a;
    } else {
      var init := b[..|b| - 1];
      assert (a + b)[..|a + b| - 1] == a + init;
      ItemsAppend(a, init, before, after);
    }
  }

  /** Where item `i` sits in the range: after the text of the items before it and `before`. */
  function ItemOffset(items: seq<string>, i: nat, before: string, after: string): nat
    requires i <= |items|
  {
    |Items(items[..i], before, after)| + |before|
  }

  /**
   * Item `i` appears verbatim in the range at ItemOffset, with `before` just
   * ahead of it and `after` just behind it.
   */
  lemma ItemAt(items: seq<string>, i: nat, before: string, after: string)
    requires i < |items|
    ensures var off := ItemOffset(items, i, before, after);
      var text := Items(items, before, after);
      off + |items[i]| + |after| <= |text| &&
      text[off - |before|..off] == before &&
      text[off..off + |items[i]|] == items[i] &&
      text[off + |items[i]|..off + |items[i]| + |after|] == after
  {
    ItemsSplit(items, i, before, after);
    Framed(Items(items, before, after), ItemOffset(items, i, before, after),
      Items(items[..i], before, after), before, items[i], after, Items(items[i + 1..], before, after));
  }

  /** In `text`, made of `pre + before + item + after + post`, the three middle parts cut out again; `item` starts at `off`. */
  lemma Framed(text: string, off: nat, pre: string, before: string, item: string, after: string, post: string)
    requires text == pre + before + item + after + post && off == |pre| + |before|
    ensures off + |item| + |after| <= |text| &&
      text[off - |before|..off] == before &&
      text[off..off + |item|] == item &&
      text[off + |item|..off + |item| + |after|] == after
  {
    assert text == pre + before + (item + after + post);
    Parts(pre, before, item + after + post);
    assert text == (pre + before) + item + (after + post);
    Parts(pre + before, item, after + post);
    Parts(pre + before + item, after, post);
  }

  /** The range over `items`, split around item `i`. */
  lemma ItemsSplit(items: seq<string>, i: nat, before: string, after: string)
    requires i < |items|
    ensures Items(items, before, after) ==
      Items(items[..i], before, after) + before + items[i] + after + Items(items[i + 1..], before, after)
  {
    assert items == items[..i + 1] + items[i + 1..];
    ItemsAppend(items[..i + 1], items[i + 1..], before, after);
    assert items[..i + 1][..i] == items[..i];
  }

  /** Items keep their order: item `i` ends before item `j` starts. */
  lemma ItemsInOrder(items: seq<string>, i: nat, j: nat, before: string, after: string)
    requires i < j < |items|
    ensures ItemOffset(items, i, before, after) + |items[i]| + |after| + |before| <= ItemOffset(items, j, before, after)
  {
    assert items[..j] == items[..i + 1] + items[i + 1..j];
    ItemsAppend(items[..i + 1], items[i + 1..j], before, after);
    assert items[..i + 1][..i] == items[..i];
  }

  /** Where inline code `i` starts in the script. */
  function CodeOffset(data: RenderData, i: nat): nat
    requires i <= |data.jsAssetsCode|
  {
    |Opening| + ItemOffset(data.jsAssetsCode, i, CodeBefore, CodeAfter)
  }

  /** Where script URL `i` starts in the script. */
  function SrcOffset(data: RenderData, i: nat): nat
    requires i <= |data.jsAssetsSrc|
  {
    |Opening| + |CodeBlock(data.jsAssetsCode)| + |Middle| + ItemOffset(data.jsAssetsSrc, i, SrcBefore, SrcAfter)
  }

  /**
   * Every inline code appears verbatim in the script, on its own line inside
   * the body of echartsFn: after the opening of echartsFn, between the line
   * breaks of CodeBefore and CodeAfter, and before the text that closes it.
   */
  lemma CodeInFill(data: RenderData, tail: string, i: nat)
    requires i < |data.jsAssetsCode|
    ensures var s := Fill(data, tail); var off := CodeOffset(data, i); var c := data.jsAssetsCode[i];
      var end := |Opening| + |CodeBlock(data.jsAssetsCode)|;
      s[..|Opening|] == Opening &&
      |Opening| + |CodeBefore| <= off && off + |c| + |CodeAfter| <= end &&
      s[off - |CodeBefore|..off] == CodeBefore &&
      s[off..off + |c|] == c &&
      s[off + |c|..off + |c| + |CodeAfter|] == CodeAfter &&
      end + |Middle| <= |s| && s[end..end + |Middle|] == Middle
  {
    var codes := data.jsAssetsCode;
    var cb := CodeBlock(codes);
    var sb := SrcBlock(data.jsAssetsSrc);
    var s := Fill(data, tail);
    ItemAt(codes, i, CodeBefore, CodeAfter);
    Parts(Opening, cb, Middle + sb + tail);
    Embedded(s, |Opening|, cb, ItemOffset(codes, i, CodeBefore, CodeAfter), CodeOffset(data, i),
      CodeBefore, codes[i], CodeAfter);
    Parts(Middle, sb, tail);
    InSuffix(Opening + cb, Middle + sb + tail, 0, |Middle|);
  }

  /**
   * Every script URL appears verbatim in the script as an element of the
   * echartsSrcs array: between SrcBefore, which ends with a double quote,
   * and SrcAfter, which starts with a double quote and a comma, and before
   * `tail`, the text after the range.
   */
  lemma SrcInFill(data: RenderData, tail: string, i: nat)
    requires i < |data.jsAssetsSrc|
    ensures var s := Fill(data, tail); var off := SrcOffset(data, i); var src := data.jsAssetsSrc[i];
      var start := |Opening| + |CodeBlock(data.jsAssetsCode)| + |Middle|;
      var end := start + |SrcBlock(data.jsAssetsSrc)|;
      start + |SrcBefore| <= off && off + |src| + |SrcAfter| <= end && end <= |s| &&
      s[off - |SrcBefore|..off] == SrcBefore &&
      s[off..off + |src|] == src &&
      s[off + |src|..off + |src| + |SrcAfter|] == SrcAfter &&
      s[off - 1] == '"' && s[off + |src|] == '"' && s[off + |src| + 1] == ',' &&
      s[end..] == tail
  {
    var srcs := data.jsAssetsSrc;
    ItemAt(srcs, i, SrcBefore, SrcAfter);
    ElementIn(Fill(data, tail), Opening + CodeBlock(data.jsAssetsCode), Middle, SrcBlock(srcs), tail,
      ItemOffset(srcs, i, SrcBefore, SrcAfter), SrcOffset(data, i), srcs[i]);
  }

  /**
   * An element `src` of the echartsSrcs range `y`, at offset `k` there,
   * stays an element of the array in `s`, made of `x + (m + y + z)`, at
   * offset `off`.
   */
  lemma ElementIn(s: string, x: string, m: string, y: string, z: string, k: nat, off: nat, src: string)
    requires s == x + (m + y + z) && off == |x| + |m| + k
    requires |SrcBefore| <= k && k + |src| + |SrcAfter| <= |y|
    requires y[k - |SrcBefore|..k] == SrcBefore && y[k..k + |src|] == src
    requires y[k + |src|..k + |src| + |SrcAfter|] == SrcAfter
    ensures var start := |x| + |m|; var end := start + |y|;
      start + |SrcBefore| <= off && off + |src| + |SrcAfter| <= end && end <= |s| &&
      s[off - |SrcBefore|..off] == SrcBefore &&
      s[off..off + |src|] == src &&
      s[off + |src|..off + |src| + |SrcAfter|] == SrcAfter &&
      s[off - 1] == '"' && s[off + |src|] == '"' && s[off + |src| + 1] == ',' &&
      s[end..] == z
  {
    Inside(x, m, y, z);
    Embedded(s, |x| + |m|, y, k, off, SrcBefore, src, SrcAfter);
    At(s, off - |SrcBefore|, off, SrcBefore, |SrcBefore| - 1);
    At(s, off + |src|, off + |src| + |SrcAfter|, SrcAfter, 0);
    At(s, off + |src|, off + |src| + |SrcAfter|, SrcAfter, 1);
  }

  /**
   * `y` sits in `s` at `base`, and `item` sits in `y` at `k` between
   * `before` and `after`: then `item` sits in `s` at `off`, between them.
   */
  lemma Embedded(s: string, base: nat, y: string, k: nat, off: nat, before: string, item: string, after: string)
    requires base + |y| <= |s| && s[base..base + |y|] == y && off == base + k
    requires |before| <= k && k + |item| + |after| <= |y|
    requires y[k - |before|..k] == before && y[k..k + |item|] == item
    requires y[k + |item|..k + |item| + |after|] == after
    ensures s[off - |before|..off] == before
    ensures s[off..off + |item|] == item
    ensures s[off + |item|..off + |item| + |after|] == after
  {
    Sub(s, base, base + |y|, y, k - |before|, k);
    Sub(s, base, base + |y|, y, k, k + |item|);
    Sub(s, base, base + |y|, y, k + |item|, k + |item| + |after|);
  }

  /** A concatenation with `p + rest` starts with `x + p`. */
  lemma StartsWith(x: string, t: string, p: string, rest: string)
    requires t == p + rest
    ensures |x + t| >= |x| + |p| && (x + t)[..|x| + |p|] == x + p
  {
    assert x + t == (x + p) + rest;
  }

  /** In `x + (m + y + z)`, `y` is found after `x` and `m`, and `z` is all that follows it. */
  lemma Inside(x: string, m: string, y: string, z: string)
    ensures var s := x + (m + y + z); var base := |x| + |m|;
      base + |y| <= |s| && s[base..base + |y|] == y && s[base + |y|..] == z
  {
    var s := x + (m + y + z);
    assert s == (x + m) + y + z;
    Parts(x + m, y, z);
  }

  /** In the elements of echartsSrcs, URL `i` stands between two double quotes and is followed by a comma. */
  lemma SrcQuoted(srcs: seq<string>, i: nat)
    requires i < |srcs|
    ensures var sb := SrcBlock(srcs); var off := ItemOffset(srcs, i, SrcBefore, SrcAfter);
      0 < off && off + |srcs[i]| + 1 < |sb| &&
      sb[off - 1] == '"' && sb[off..off + |srcs[i]|] == srcs[i] && sb[off + |srcs[i]|] == '"' &&
      sb[off + |srcs[i]| + 1] == ','
  {
    var sb := SrcBlock(srcs);
    ItemAt(srcs, i, SrcBefore, SrcAfter);
    var off := ItemOffset(srcs, i, SrcBefore, SrcAfter);
    At(sb, off - |SrcBefore|, off, SrcBefore, |SrcBefore| - 1);
    At(sb, off + |srcs[i]|, off + |srcs[i]| + |SrcAfter|, SrcAfter, 0);
    At(sb, off + |srcs[i]|, off + |srcs[i]| + |SrcAfter|, SrcAfter, 1);
  }

  /**
   * Every inline code appears verbatim in displayTmpl's output, on its own
   * line inside the body of echartsFn: after the opening of echartsFn and
   * before the text that closes it.
   */
  lemma CodeInScript(data: RenderData, i: nat)
    requires i < |data.jsAssetsCode|
    ensures var s := Script(data); var off := CodeOffset(data, i); var c := data.jsAssetsCode[i];
      var end := |Opening| + |CodeBlock(data.jsAssetsCode)|;
      s[..|Opening|] == Opening &&
      |Opening| + |CodeBefore| <= off && off + |c| + |CodeAfter| <= end &&
      s[off - |CodeBefore|..off] == CodeBefore &&
      s[off..off + |c|] == c &&
      s[off + |c|..off + |c| + |CodeAfter|] == CodeAfter &&
      end + |Middle| <= |s| && s[end..end + |Middle|] == Middle
  {
    CodeInFill(data, LoaderCode, i);
  }

  /**
   * Every script URL appears verbatim in displayTmpl's output as an element
   * of the echartsSrcs array: after the opening quote, followed by the
   * closing quote and a comma, and before the `];` that ends the array.
   */
  lemma SrcInScript(data: RenderData, i: nat)
    requires i < |data.jsAssetsSrc|
    ensures var s := Script(data); var off := SrcOffset(data, i); var src := data.jsAssetsSrc[i];
      var start := |Opening| + |CodeBlock(data.jsAssetsCode)| + |Middle|;
      var end := start + |SrcBlock(data.jsAssetsSrc)|;
      start + |SrcBefore| <= off && off + |src| + |SrcAfter| <= end &&
      s[off - |SrcBefore|..off] == SrcBefore &&
      s[off..off + |src|] == src &&
      s[off + |src|..off + |src| + |SrcAfter|] == SrcAfter &&
      s[off - 1] == '"' && s[off + |src|] == '"' && s[off + |src| + 1] == ',' &&
      end + 5 <= |s| && s[end..end + 5] == "\n\t];\n"
  {
    SrcInFill(data, LoaderCode, i);
    LoaderCodeCloses();
    var s := Script(data);
    var end := |Opening| + |CodeBlock(data.jsAssetsCode)| + |Middle| + |SrcBlock(data.jsAssetsSrc)|;
    assert s[end..][..5] == s[end..end + 5];
  }

  /** LoaderCode starts by closing the echartsSrcs array, on a line of its own. */
  lemma LoaderCodeCloses()
    ensures |LoaderCode| >= 5 && LoaderCode[..5] == "\n\t];\n"
  {
    var t := Items(LoaderLines, "", "\n");
    var rest := Items(LoaderLines[1..], "", "\n");
    assert t == "\t];\n" + rest by {
      ItemsSplit(LoaderLines, 0, "", "\n");
      assert LoaderLines[..0] == [];
      assert LoaderLines[0] == ArrayClose;
    }
    StartsWith("\n", t, "\t];\n", rest);
  }

  /** `x + y + (z + t)` starts with `x` and ends with `t`. */
  lemma Ends(x: string, y: string, z: string, t: string)
    ensures var s := x + y + (z + t);
      |s| >= |x| + |t| && s[..|x|] == x && s[|s| - |t|..] == t
  {
    Parts(x, y, z + t);
    assert x + y + (z + t) == (x + y + z) + t;
  }

  /** The three parts of a concatenation, cut out again. */
  lemma Parts(x: string, y: string, z: string)
    ensures (x + y + z)[..|x|] == x
    ensures (x + y + z)[|x|..|x| + |y|] == y
    ensures (x + y + z)[|x| + |y|..] == z
  {
  }

  /** A slice of the second part of a concatenation. */
  lemma InSuffix(x: string, z: string, lo: nat, hi: nat)
    requires lo <= hi <= |z|
    ensures (x + z)[|x| + lo..|x| + hi] == z[lo..hi]
  {
    assert forall k :: lo <= k < hi ==> (x + z)[|x| + k] == z[k];
  }

  /** An element of a slice is an element of the whole. */
  lemma At(s: string, lo: nat, hi: nat, t: string, k: nat)
    requires lo <= hi <= |s| && s[lo..hi] == t && k < |t|
    ensures s[lo + k] == t[k]
  {
  }

  /** A slice of a slice is a slice. */
  lemma Sub(s: string, lo: nat, hi: nat, t: string, i: nat, j: nat)
    requires lo <= hi <= |s| && s[lo..hi] == t && i <= j <= |t|
    ensures s[lo + i..lo + j] == t[i..j]
  {
    assert forall k :: i <= k < j ==> t[k] == s[lo + k];
  }

  /** Inline codes and script URLs each appear in the script in their order in renderData. */
  lemma ScriptKeepsOrder(data: RenderData, i: nat, j: nat)
    ensures i < j < |data.jsAssetsCode| ==> CodeOffset(data, i) + |data.jsAssetsCode[i]| < CodeOffset(data, j)
    ensures i < j < |data.jsAssetsSrc| ==> SrcOffset(data, i) + |data.jsAssetsSrc[i]| < SrcOffset(data, j)
  {
    if i < j < |data.jsAssetsCode| {
      ItemsInOrder(data.jsAssetsCode, i, j, CodeBefore, CodeAfter);
    }
    if i < j < |data.jsAssetsSrc| {
      ItemsInOrder(data.jsAssetsSrc, i, j, SrcBefore, SrcAfter);
    }
  }
}
