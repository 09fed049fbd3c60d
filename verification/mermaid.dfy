/** The flowchart tab: a syntactic gate on the diagram text, then either
    the diagram container, which the diagram library fills in, or a fixed
    fallback notice. The library itself is not modelled: only whether it is
    asked to run. */
module Mermaid {
  import opened JsString

  const Keyword: string := "graph"

  const FallbackTitle: string := "Could Not Generate Flowchart"

  /** `chartData && chartData.trim().startsWith('graph')`. */
  predicate IsValidMermaid(chartData: string) {
    chartData != "" && StartsWith(Trim(chartData), Keyword)
  }

  datatype MermaidView =
    | InvalidDataMessage(title: string)    // the fixed notice
    | Diagram(source: string)

  /** The notice shown instead of a diagram. */
  const Fallback: MermaidView := InvalidDataMessage(FallbackTitle)

  /** What the component shows, and whether its effect calls the library
      (`initialize` then `run`), given whether the library script has
      loaded. An exception from the library is caught and logged, so it
      never changes what is shown. */
  datatype Rendered = Rendered(view: MermaidView, runsLibrary: bool)

  function Render(chartData: string, libraryLoaded: bool): (r: Rendered)
    ensures r.view.Diagram? <==> IsValidMermaid(chartData)
    ensures r.view.Diagram? ==> r.view.source == chartData
    ensures r.runsLibrary <==> r.view.Diagram? && libraryLoaded
  {
    var valid := IsValidMermaid(chartData);
    Rendered(if valid then Diagram(chartData) else Fallback, valid && libraryLoaded)
  }

  /** An invalid text shows the notice headed "Could Not Generate
      Flowchart", and only an invalid one does. */
  lemma InvalidShowsFallback(chartData: string, libraryLoaded: bool)
    ensures Render(chartData, libraryLoaded).view == Fallback <==> !IsValidMermaid(chartData)
  {
  }

  /** `trimEnd` never cuts into a prefix that ends in a non-whitespace
      character. */
  lemma TrimEndKeepsPrefix(u: string, w: string)
    requires StartsWith(u, w) && w != [] && !IsWs(w[|w| - 1])
    ensures StartsWith(TrimEnd(u), w)
  {
    var r := TrimEnd(u);
    assert r[..|w|] == u[..|w|];
  }

  /** Only leading whitespace matters: the text is valid exactly when it
      starts with `graph` once its leading whitespace is dropped. */
  lemma ValidIffLeadingKeyword(s: string)
    ensures IsValidMermaid(s) <==> StartsWith(TrimStart(s), Keyword)
  {
    var u := TrimStart(s);
    var t := TrimEnd(u);
    assert Trim(s) == t;
    if StartsWith(u, Keyword) {
      TrimEndKeepsPrefix(u, Keyword);
    }
    if StartsWith(t, Keyword) {
      assert t == u[..|t|];
      assert u[..|Keyword|] == t[..|Keyword|];
    }
  }

  /** The empty text and whitespace-only text are invalid. */
  lemma BlankInvalid(s: string)
    requires AllWs(s)
    ensures !IsValidMermaid(s)
    ensures Render(s, true) == Rendered(Fallback, false)
  {
    TrimEmptyIffBlank(s);
  }

  /** The emptiness test adds nothing to the `trim` test. */
  lemma EmptinessTestRedundant(s: string)
    ensures IsValidMermaid(s) <==> StartsWith(Trim(s), Keyword)
  {
    if s == "" {
      TrimEmptyIffBlank(s);
    }
  }

  /** Whitespace around the text never changes validity. */
  lemma PaddingIrrelevant(p: string, s: string, q: string)
    requires AllWs(p) && AllWs(q)
    ensures IsValidMermaid(p + s + q) == IsValidMermaid(s)
  {
    TrimIgnoresPadding(p, s, q);
    EmptinessTestRedundant(p + s + q);
    EmptinessTestRedundant(s);
  }

  /** The check reads only the keyword: whatever follows it, even with no
      separator, is accepted. */
  lemma PrefixOnly(w: string, rest: string)
    requires AllWs(w)
    ensures IsValidMermaid(w + Keyword + rest)
  {
    assert w + Keyword + rest == w + (Keyword + rest);
    TrimStartSkips(w, Keyword + rest);
    assert (Keyword + rest)[0] == 'g';
    assert TrimStart(Keyword + rest) == Keyword + rest;
    assert (Keyword + rest)[..|Keyword|] == Keyword;
    ValidIffLeadingKeyword(w + Keyword + rest);
  }

  /** A valid text is shown as written, padding included, and the library
      runs exactly when it has loaded. */
  lemma ValidShownVerbatim(s: string, loaded: bool)
    requires IsValidMermaid(s)
    ensures Render(s, loaded) == Rendered(Diagram(s), loaded)
  {
  }

  /** Text that starts with anything but whitespace or the keyword is
      invalid. */
  lemma OtherStartInvalid(s: string)
    requires |s| > 0 && !IsWs(s[0]) && !StartsWith(s, Keyword)
    ensures !IsValidMermaid(s)
  {
    ValidIffLeadingKeyword(s);
  }

  /** "graphX" is accepted although it is no diagram. */
  lemma KeywordGlued()
    ensures IsValidMermaid("graphX")
  {
    var s := "graphX";
    assert !IsWs(s[0]) && TrimStart(s) == s;
    assert s[..|Keyword|] == Keyword;
    ValidIffLeadingKeyword(s);
  }

  /** A flowchart in the newer `flowchart` syntax is refused. */
  lemma FlowchartSyntaxRefused()
    ensures !IsValidMermaid("flowchart TD")
  {
    var f := "flowchart TD";
    assert f[0] == 'f' && f[..5] != Keyword;
    OtherStartInvalid(f);
  }
}
