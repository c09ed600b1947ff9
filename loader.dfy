/**
 * The browser side of the generated script, as a state machine: the choice
 * between RequireJS and script tags, loadScriptsThenExecute with its
 * loadedCount and scriptLoaded closure, and the call of echartsFn. The
 * asynchronous callbacks are events delivered to the machine one at a time.
 */
module Loader {
  import opened Wrappers
  import opened JsStrings

  /** What the page offers for loading, tested at run time by `typeof requirejs === "function"`. */
  datatype Mechanism = RequireJs | ScriptTags

  datatype Phase =
    | AwaitingEcharts  // RequireJS is loading the 'echarts' module
    | Counting         // loadScriptsThenExecute is waiting for scriptLoaded calls
    | RanImmediately   // loadScriptsThenExecute had nothing to load and ran fn
    | Aborted          // the list was empty under RequireJS: shift() gave undefined and the script threw

  /** The path the RequireJS branch configures for the module 'echarts': the URL up to its last ".js". */
  function EchartsPath(src: string): (p: string)
    ensures |p| <= |src| && p == src[..|p|]
  {
    Substring(src, 0, LastIndexOf(src, ".js"))
  }

  /** A URL ending in ".js" loses exactly that extension. */
  lemma EchartsPathOfJsUrl(src: string)
    requires |src| >= 3 && src[|src| - 3..] == ".js"
    ensures EchartsPath(src) == src[..|src| - 3]
  {
    assert OccursAt(src, ".js", |src| - 3);
  }

  /**
   * In general the path is the URL cut before the last occurrence of ".js",
   * wherever that is; a URL without ".js" gives the empty path, since
   * lastIndexOf returns -1 and substring(0, -1) is "".
   */
  lemma EchartsPathCut(src: string)
    ensures var k := LastIndexOf(src, ".js");
      (k >= 0 ==> EchartsPath(src) == src[..k] && forall j :: k < j ==> !OccursAt(src, ".js", j)) &&
      (k < 0 ==> EchartsPath(src) == "" && forall j :: !OccursAt(src, ".js", j))
  {
  }

  /** The state of the closure scriptLoaded: its counter and how often it has run fn. */
  datatype CounterState = CounterState(loadedCount: nat, fnRuns: nat)

  /**
   * The closure scriptLoaded of a call of loadScriptsThenExecute with `n`
   * scripts, after `k` calls.
   */
  function Counter(n: nat, k: nat): (c: CounterState)
    ensures c.loadedCount == k
    ensures k < n ==> c.fnRuns == 0
    decreases k
  {
    if k == 0 then CounterState(0, 0)
    else
      var prev := Counter(n, k - 1);
      var count := prev.loadedCount + 1;
      CounterState(count, if count == n then prev.fnRuns + 1 else prev.fnRuns)
  }

  /**
   * After `k` calls of scriptLoaded, loadedCount is `k` and fn has run once
   * if `k` has reached the number of scripts, and not at all before.
   */
  lemma {:induction false} CounterFiresOnce(n: nat, k: nat)
    ensures Counter(n, k) == CounterState(k, if 0 < n <= k then 1 else 0)
    decreases k
  {
    if k > 0 {
      CounterFiresOnce(n, k - 1);
    }
  }

  /** With n > 0 scripts, fn runs on the n-th call of scriptLoaded, and never again. */
  lemma CounterFiresOnNth(n: nat, k: nat)
    requires 0 < n
    ensures Counter(n, n - 1).fnRuns == 0 && Counter(n, n).fnRuns == 1
    ensures k >= n ==> Counter(n, k).fnRuns == 1
  {
    CounterFiresOnce(n, n - 1);
    CounterFiresOnce(n, n);
    CounterFiresOnce(n, k);
  }

  /** The URLs of a list, as a set. */
  function Elements(s: seq<string>): set<string> {
    set x | x in s
  }

  /**
   * The loads that the loop of loadScriptsThenExecute starts for `scripts`
   * when the page already has script elements with the URLs in `document`:
   * a URL found there counts as loaded; any other is requested, and with
   * script tags its element is added to the page before the next URL is
   * looked up.
   */
  function Requested(scripts: seq<string>, document: set<string>, mechanism: Mechanism): seq<string>
    decreases |scripts|
  {
    if scripts == [] then []
    else if scripts[0] in document then Requested(scripts[1..], document, mechanism)
    else
      var next := if mechanism == ScriptTags then document + {scripts[0]} else document;
      [scripts[0]] + Requested(scripts[1..], next, mechanism)
  }

  /** The URLs of the page's script elements after that loop. */
  function DocumentAfter(scripts: seq<string>, document: set<string>, mechanism: Mechanism): set<string> {
    if mechanism == ScriptTags then document + Elements(scripts) else document
  }

  /** A requested URL is one of the scripts and was not on the page. */
  lemma {:induction false} RequestedAreMissing(scripts: seq<string>, document: set<string>, mechanism: Mechanism)
    ensures forall x :: x in Requested(scripts, document, mechanism) ==> x in scripts && x !in document
    decreases |scripts|
  {
    if scripts != [] {
      var next := if mechanism == ScriptTags then document + {scripts[0]} else document;
      RequestedAreMissing(scripts[1..], document, mechanism);
      RequestedAreMissing(scripts[1..], next, mechanism);
    }
  }

  /** Every script that was not on the page is requested. */
  lemma {:induction false} RequestedCoversMissing(scripts: seq<string>, document: set<string>, mechanism: Mechanism)
    ensures forall x :: x in scripts && x !in document ==> x in Requested(scripts, document, mechanism)
    decreases |scripts|
  {
    if scripts != [] {
      var next := if mechanism == ScriptTags then document + {scripts[0]} else document;
      RequestedCoversMissing(scripts[1..], document, mechanism);
      RequestedCoversMissing(scripts[1..], next, mechanism);
      forall x | x in scripts && x !in document
        ensures x in Requested(scripts, document, mechanism)
      {
        if x != scripts[0] {
          assert x in scripts[1..];
        }
      }
    }
  }

  /** No element of `s` occurs twice. */
  predicate Distinct(s: seq<string>) {
    forall i, j :: 0 <= i < j < |s| ==> s[i] != s[j]
  }

  /** With script tags no URL is requested twice, even when it is listed twice. */
  lemma {:induction false} RequestedOnce(scripts: seq<string>, document: set<string>)
    ensures Distinct(Requested(scripts, document, ScriptTags))
    decreases |scripts|
  {
    if scripts != [] {
      var r := Requested(scripts, document, ScriptTags);
      if scripts[0] in document {
        assert r == Requested(scripts[1..], document, ScriptTags);
        RequestedOnce(scripts[1..], document);
      } else {
        var next := document + {scripts[0]};
        var tail := Requested(scripts[1..], next, ScriptTags);
        assert r == [scripts[0]] + tail;
        RequestedOnce(scripts[1..], next);
        RequestedAreMissing(scripts[1..], next, ScriptTags);
        forall i, j | 0 <= i < j < |r| ensures r[i] != r[j] {
          assert r[j] == tail[j - 1];
          if i == 0 {
            assert tail[j - 1] in tail;
            assert tail[j - 1] !in next;
          } else {
            assert r[i] == tail[i - 1];
          }
        }
      }
    }
  }

  /** When every script is already on the page, nothing is requested. */
  lemma {:induction false} NothingRequestedWhenPresent(scripts: seq<string>, document: set<string>, mechanism: Mechanism)
    requires Elements(scripts) <= document
    ensures Requested(scripts, document, mechanism) == []
    decreases |scripts|
  {
    if scripts != [] {
      assert scripts[0] in Elements(scripts);
      assert Elements(scripts[1..]) <= Elements(scripts);
      NothingRequestedWhenPresent(scripts[1..], document, mechanism);
    }
  }

  /**
   * One run of the generated script on a page: the URLs still to load
   * (echartsSrcs), the page's script elements, the loads started, and the
   * counter of loadScriptsThenExecute.
   */
  class Bootstrap {
    const mechanism: Mechanism
    var srcs: seq<string>             // echartsSrcs, without its head under RequireJS
    var echartsPath: Option<string>   // the path requirejs.config gives the module 'echarts'
    var document: set<string>         // the src of every script element of the page
    var requests: seq<string>         // the loads loadScriptsThenExecute started, in order
    var outstanding: nat              // those of them whose callback has not run yet
    var loadedCount: nat
    var fnCalls: nat                  // how many times echartsFn ran
    var phase: Phase

    ghost predicate Valid()
      reads this
    {
      && (phase == AwaitingEcharts ==>
            mechanism == RequireJs && echartsPath.Some? && requests == [] &&
            outstanding == 0 && loadedCount == 0 && fnCalls == 0)
      && (phase == Counting ==>
            srcs != [] && loadedCount + outstanding == |srcs| && outstanding <= |requests| &&
            fnCalls == Counter(|srcs|, loadedCount).fnRuns)
      && (phase == RanImmediately ==> srcs == [] && requests == [] && outstanding == 0 && fnCalls == 1)
      && (phase == Aborted ==> mechanism == RequireJs && requests == [] && outstanding == 0 && fnCalls == 0)
    }

    /** The state loadScriptsThenExecute leaves, for the URLs `srcs` and a page that had `before`. */
    ghost predicate StartedFrom(before: set<string>)
      reads this
    {
      if srcs == [] then
        phase == RanImmediately && fnCalls == 1 && requests == [] && document == before
      else
        phase == Counting &&
        requests == Requested(srcs, before, mechanism) &&
        outstanding == |requests| &&
        loadedCount == |srcs| - |requests| &&
        fnCalls == Counter(|srcs|, loadedCount).fnRuns &&
        document == DocumentAfter(srcs, before, mechanism)
    }

    /**
     * The top level of the generated script. Under RequireJS it takes the
     * first URL off echartsSrcs and asks for the module 'echarts' at that URL
     * without ".js" (an empty list makes shift() give undefined and the
     * script throw); otherwise it starts loadScriptsThenExecute on all URLs.
     */
    constructor (sources: seq<string>, mechanism: Mechanism, document: set<string>)
      ensures Valid() && this.mechanism == mechanism
      ensures mechanism == RequireJs && sources == [] ==>
        phase == Aborted && fnCalls == 0 && this.document == document
      ensures mechanism == RequireJs && sources != [] ==>
        phase == AwaitingEcharts && srcs == sources[1..] &&
        echartsPath == Some(EchartsPath(sources[0])) && this.document == document
      ensures mechanism == ScriptTags ==>
        srcs == sources && echartsPath == None && StartedFrom(document)
    {
      this.mechanism := mechanism;
      this.document := document;
      requests := [];
      outstanding := 0;
      loadedCount := 0;
      fnCalls := 0;
      srcs := sources;
      echartsPath := None;
      phase := Aborted;
      new;
      if mechanism == RequireJs {
        if sources != [] {
          srcs := sources[1..];
          echartsPath := Some(EchartsPath(sources[0]));
          phase := AwaitingEcharts;
        }
      } else {
        LoadScriptsThenExecute();
      }
    }

    /**
     * loadScriptsThenExecute(srcs, echartsFn): with no URL, run fn at once.
     * Otherwise, for each URL in order, count it as loaded when the page has
     * a script element with that src, else start loading it (a new script
     * element under script tags, a require under RequireJS).
     */
    method LoadScriptsThenExecute()
      requires requests == [] && outstanding == 0 && loadedCount == 0 && fnCalls == 0
      requires mechanism == ScriptTags || echartsPath.Some?
      modifies this
      ensures Valid() && StartedFrom(old(document))
      ensures srcs == old(srcs) && echartsPath == old(echartsPath)
    {
      if srcs == [] {
        fnCalls := 1;
        phase := RanImmediately;
        return;
      }
      var started, page, count, calls := ScanScripts(srcs, document, mechanism);
      requests, outstanding, loadedCount, fnCalls := started, |started|, count, calls;
      document := page;
      phase := Counting;
    }

    /** The callback of require(['echarts']): bind the module, then load the rest of the URLs. */
    method OnEchartsReady()
      requires Valid()
      modifies this
      ensures Valid() && srcs == old(srcs) && echartsPath == old(echartsPath)
      ensures old(phase) == AwaitingEcharts ==> StartedFrom(old(document))
      ensures old(phase) != AwaitingEcharts ==> unchanged(this)
    {
      if phase == AwaitingEcharts {
        LoadScriptsThenExecute();
      }
    }

    /**
     * One started load completes and calls scriptLoaded: loadedCount goes up
     * by one and fn runs when it reaches the number of URLs. With no load
     * outstanding there is no callback to run and nothing changes.
     */
    method OnScriptLoaded()
      requires Valid()
      modifies this
      ensures Valid()
      ensures old(phase) == Counting && old(outstanding) > 0 ==>
        loadedCount == old(loadedCount) + 1 && outstanding == old(outstanding) - 1 &&
        fnCalls == old(fnCalls) + (if loadedCount == |srcs| then 1 else 0) &&
        phase == old(phase) && srcs == old(srcs) && requests == old(requests) &&
        document == old(document) && echartsPath == old(echartsPath)
      ensures !(old(phase) == Counting && old(outstanding) > 0) ==> unchanged(this)
    {
      if phase == Counting && outstanding > 0 {
        CounterFiresOnce(|srcs|, loadedCount);
        loadedCount := loadedCount + 1;
        outstanding := outstanding - 1;
        if loadedCount == |srcs| {
          fnCalls := fnCalls + 1;
        }
      }
    }
  }

  /**
   * The loop of loadScriptsThenExecute over a non-empty list `scripts` on a
   * page whose script elements have the URLs in `document`: each URL found
   * in the page calls scriptLoaded at once; each other one is requested and,
   * with script tags, gets its element in the page. Returns the loads
   * started, the page's URLs afterwards, loadedCount, and how often fn ran.
   */
  method ScanScripts(scripts: seq<string>, document: set<string>, mechanism: Mechanism)
    returns (started: seq<string>, page: set<string>, count: nat, calls: nat)
    requires scripts != []
    ensures started == Requested(scripts, document, mechanism)
    ensures page == DocumentAfter(scripts, document, mechanism)
    ensures count == |scripts| - |started|
    ensures calls == Counter(|scripts|, count).fnRuns
    ensures |started| <= |scripts|
  {
    RequestedLength(scripts, document, mechanism);
    ghost var total := Requested(scripts, document, mechanism);
    started, page, count, calls := [], document, 0, 0;
    var i := 0;
    assert scripts[i..] == scripts;
    while i < |scripts|
      invariant 0 <= i <= |scripts|
      invariant started + Requested(scripts[i..], page, mechanism) == total
      invariant page == DocumentAfter(scripts[..i], document, mechanism)
      invariant count + |started| == i
      invariant calls == if count == |scripts| then 1 else 0
    {
      var src := scripts[i];
      ScanRequests(scripts, i, mechanism, started, page, total);
      ScanPage(scripts, i, document, mechanism, page);
      if src in page {
        // scriptLoaded(), called at once
        count := count + 1;
        if count == |scripts| {
          calls := calls + 1;
        }
      } else if mechanism == RequireJs {
        started := started + [src];
      } else {
        started := started + [src];
        page := page + {src};
      }
      i := i + 1;
    }
    assert scripts[..i] == scripts;
    assert scripts[i..] == [];
    CounterFiresOnce(|scripts|, count);
  }

  /** One turn of the loop of loadScriptsThenExecute keeps its invariant about the loads started, `total`. */
  lemma ScanRequests(scripts: seq<string>, i: nat, mechanism: Mechanism,
                     started: seq<string>, page: set<string>, total: seq<string>)
    requires i < |scripts|
    requires started + Requested(scripts[i..], page, mechanism) == total
    ensures scripts[i] in page ==>
      started + Requested(scripts[i + 1..], page, mechanism) == total
    ensures scripts[i] !in page && mechanism == RequireJs ==>
      (started + [scripts[i]]) + Requested(scripts[i + 1..], page, mechanism) == total
    ensures scripts[i] !in page && mechanism == ScriptTags ==>
      (started + [scripts[i]]) + Requested(scripts[i + 1..], page + {scripts[i]}, mechanism) == total
  {
    RequestedStep(scripts, i, page, mechanism);
    var src := scripts[i];
    if src !in page {
      var next := if mechanism == ScriptTags then page + {src} else page;
      assert (started + [src]) + Requested(scripts[i + 1..], next, mechanism)
          == started + ([src] + Requested(scripts[i + 1..], next, mechanism));
    }
  }

  /** One turn of the loop of loadScriptsThenExecute keeps its invariant about the page. */
  lemma ScanPage(scripts: seq<string>, i: nat, document: set<string>, mechanism: Mechanism, page: set<string>)
    requires i < |scripts|
    requires page == DocumentAfter(scripts[..i], document, mechanism)
    ensures scripts[i] in page || mechanism == RequireJs ==>
      page == DocumentAfter(scripts[..i + 1], document, mechanism)
    ensures mechanism == ScriptTags ==>
      page + {scripts[i]} == DocumentAfter(scripts[..i + 1], document, mechanism)
  {
    ElementsStep(scripts, i);
  }

  /** One turn of the loop of loadScriptsThenExecute, as seen by Requested. */
  lemma RequestedStep(scripts: seq<string>, i: nat, document: set<string>, mechanism: Mechanism)
    requires i < |scripts|
    ensures Requested(scripts[i..], document, mechanism) ==
      if scripts[i] in document then Requested(scripts[i + 1..], document, mechanism)
      else [scripts[i]] + Requested(scripts[i + 1..], if mechanism == ScriptTags then document + {scripts[i]} else document, mechanism)
  {
    assert scripts[i..][1..] == scripts[i + 1..];
  }

  /** The URLs of a longer prefix. */
  lemma ElementsStep(scripts: seq<string>, i: nat)
    requires i < |scripts|
    ensures Elements(scripts[..i + 1]) == Elements(scripts[..i]) + {scripts[i]}
  {
    assert scripts[..i + 1] == scripts[..i] + [scripts[i]];
  }

  /** No more loads are requested than there are URLs. */
  lemma {:induction false} RequestedLength(scripts: seq<string>, document: set<string>, mechanism: Mechanism)
    ensures |Requested(scripts, document, mechanism)| <= |scripts|
    decreases |scripts|
  {
    if scripts != [] {
      var next := if mechanism == ScriptTags then document + {scripts[0]} else document;
      RequestedLength(scripts[1..], document, mechanism);
      RequestedLength(scripts[1..], next, mechanism);
    }
  }

  /**
   * Runs the generated script on a page and then delivers every callback it
   * waits for: the 'echarts' module under RequireJS, then one load event per
   * load started. Returns how often fn ran, how many load events there were,
   * how often fn had run before the last of them, the loads started and the
   * page's script elements at the end. fn runs exactly once unless the list
   * was empty under RequireJS: on the last load event when a load was
   * started, and otherwise before any load event: at once when the list
   * handed to loadScriptsThenExecute is empty, and during its loop when
   * every URL was on the page.
   */
  method RunToCompletion(sources: seq<string>, mechanism: Mechanism, document: set<string>)
    returns (calls: nat, events: nat, callsBeforeLast: nat, requests: seq<string>, after: set<string>)
    ensures calls == (if mechanism == RequireJs && sources == [] then 0 else 1)
    ensures events == |requests|
    ensures events > 0 ==> callsBeforeLast == 0
    ensures var rest := if mechanism == RequireJs && sources != [] then sources[1..] else sources;
      !(mechanism == RequireJs && sources == []) ==>
        requests == Requested(rest, document, mechanism) && after == DocumentAfter(rest, document, mechanism)
  {
    var b := new Bootstrap(sources, mechanism, document);
    b.OnEchartsReady();
    ghost var rest := b.srcs;
    ghost var started := b.requests;
    ghost var page := b.document;
    events, callsBeforeLast := 0, 0;
    CounterFiresOnce(|b.srcs|, b.loadedCount);
    while b.outstanding > 0
      invariant b.Valid() && b.phase != AwaitingEcharts
      invariant b.mechanism == mechanism && b.srcs == rest && b.document == page && b.requests == started
      invariant events + b.outstanding == |started|
      invariant callsBeforeLast == 0
      invariant b.phase == Aborted <==> mechanism == RequireJs && sources == []
      invariant b.phase == Counting && b.outstanding > 0 ==> b.fnCalls == 0
      decreases b.outstanding
    {
      callsBeforeLast := b.fnCalls;
      b.OnScriptLoaded();
      events := events + 1;
      CounterFiresOnce(|b.srcs|, b.loadedCount);
    }
    CounterFiresOnce(|b.srcs|, b.loadedCount);
    calls, requests, after := b.fnCalls, b.requests, b.document;
  }

  /**
   * The same output shown twice on one page with script tags (a notebook
   * cell run again): the second run finds every script element the first
   * one added, starts no load, and still runs fn exactly once.
   */
  method RunTwice(sources: seq<string>, document: set<string>)
    returns (firstRequests: seq<string>, secondRequests: seq<string>, firstCalls: nat, secondCalls: nat)
    ensures firstRequests == Requested(sources, document, ScriptTags)
    ensures secondRequests == []
    ensures firstCalls == 1 && secondCalls == 1
  {
    var page: set<string>;
    var events, before: nat;
    firstCalls, events, before, firstRequests, page := RunToCompletion(sources, ScriptTags, document);
    NothingRequestedWhenPresent(sources, page, ScriptTags);
    secondCalls, events, before, secondRequests, page := RunToCompletion(sources, ScriptTags, page);
  }
}
