/** The application shell: five pieces of state, the handlers that change
    them, and the choice of what the result area shows.

    `handleAnalyzeClick` is split at its `await`: `Click` runs the part
    before it and hands the text to analyse to the environment (`call`);
    `Succeed` and `Fail` run the part after it when that call settles. A
    settle event with no call outstanding changes nothing. React's batching
    and re-rendering are not modelled: each event is one sequential step. */
module App {
  import opened Wrappers
  import opened JsString
  import opened Types
  import Mermaid
  import DataChart
  import GeminiService
  import Prompt
  import Json

  const BlankInputMessage: string := "Please enter some text to analyze."
  const UnknownErrorMessage: string := "An unknown error occurred."

  datatype AppState = AppState(
    inputText: string,
    result: Option<AnalysisResult>,
    isLoading: bool,
    error: Option<string>,
    activeTab: Tab)

  /** The state on first render; the initial text is a parameter. */
  function Initial(initialText: string): (s: AppState)
    ensures s.inputText == initialText && s.result.None? && !s.isLoading && s.error.None?
    ensures s.activeTab == Refined
  {
    AppState(initialText, None, false, None, Refined)
  }

  /** What a rejected analysis threw: an `Error` with its message, or some
      other value. */
  datatype Thrown = ErrorValue(message: string) | NonErrorValue

  datatype Event =
    | Edit(text: string)             // the text area's `onChange`
    | Click                          // the analyse button
    | Succeed(analysis: AnalysisResult)
    | Fail(thrown: Thrown)
    | SelectTab(tab: Tab)            // a tab button

  /** The next state, and the text sent for analysis if the step starts a
      call. */
  datatype Transition = Transition(state: AppState, call: Option<string>)

  /** `err instanceof Error ? err.message : "An unknown error occurred."` */
  function Message(t: Thrown): (m: string)
    ensures t.ErrorValue? ==> m == t.message
    ensures t.NonErrorValue? ==> m == UnknownErrorMessage
  {
    match t
    case ErrorValue(msg) => msg
    case NonErrorValue => UnknownErrorMessage
  }

  /** The analyse button: disabled, and relabelled, while a call is out. */
  datatype ButtonView = ButtonView(caption: string, disabled: bool)

  function Button(s: AppState): (b: ButtonView)
    ensures b.disabled <==> s.isLoading
    ensures b.caption == (if s.isLoading then "Analyzing..." else "Analyze Content")
  {
    ButtonView(if s.isLoading then "Analyzing..." else "Analyze Content", s.isLoading)
  }

  function Step(s: AppState, e: Event): (t: Transition)
    ensures t.call.Some? <==> e.Click? && !s.isLoading && Trim(s.inputText) != ""
    ensures t.call.Some? ==> t.call.value == s.inputText
    ensures t.state.inputText == (if e.Edit? then e.text else s.inputText)
  {
    match e
    case Edit(text) => Transition(s.(inputText := text), None)
    case Click =>
      if Button(s).disabled then Transition(s, None)
      else if Trim(s.inputText) == "" then Transition(s.(error := Some(BlankInputMessage)), None)
      else Transition(s.(isLoading := true, error := None, result := None), Some(s.inputText))
    case Succeed(r) =>
      if !s.isLoading then Transition(s, None)
      else Transition(s.(result := Some(r), activeTab := Refined, isLoading := false), None)
    case Fail(thrown) =>
      if !s.isLoading then Transition(s, None)
      else Transition(s.(error := Some(Message(thrown)), isLoading := false), None)
    case SelectTab(tab) =>
      // the tab buttons exist only while a result is shown
      if s.result.None? then Transition(s, None)
      else Transition(s.(activeTab := tab), None)
  }

  /** While a call is out there is neither a result nor an error. */
  predicate Inv(s: AppState) {
    s.isLoading ==> s.result.None? && s.error.None?
  }

  lemma StepPreservesInv(s: AppState, e: Event)
    requires Inv(s)
    ensures Inv(Step(s, e).state)
  {
  }

  /** A blank click reports the problem and changes nothing else: no call,
      and any earlier result stays on screen. */
  lemma BlankClick(s: AppState)
    requires !s.isLoading && AllWs(s.inputText)
    ensures Step(s, Click) == Transition(s.(error := Some(BlankInputMessage)), None)
  {
    TrimEmptyIffBlank(s.inputText);
  }

  /** A click on non-blank text starts exactly one call, with that text,
      and clears the earlier result and error. */
  lemma StartClick(s: AppState)
    requires !s.isLoading && !AllWs(s.inputText)
    ensures Step(s, Click) == Transition(s.(isLoading := true, error := None, result := None), Some(s.inputText))
  {
    TrimEmptyIffBlank(s.inputText);
  }

  /** While a call is out the button is disabled, so a click does nothing:
      never a second call. */
  lemma DisabledBlocksClick(s: AppState)
    requires Button(s).disabled
    ensures Step(s, Click) == Transition(s, None)
  {
  }

  /** Settling the outstanding call leaves exactly one of result and error,
      and stops loading. On success the first tab is shown; on failure the
      thrown message, or the fixed one for a non-`Error`, is shown. */
  lemma SettleGivesOneOutcome(s: AppState, e: Event)
    requires Inv(s) && s.isLoading && (e.Succeed? || e.Fail?)
    ensures var s' := Step(s, e).state;
      && !s'.isLoading
      && (s'.result.Some? <==> s'.error.None?)
      && (e.Succeed? ==> s'.result == Some(e.analysis) && s'.activeTab == Refined)
      && (e.Fail? ==> s'.error == Some(Message(e.thrown)) && s'.result.None?)
  {
  }

  /** A failure from the gateway always shows its one fixed message. */
  lemma GatewayFailureShown(s: AppState, t: Prompt.Template, text: string,
                            service: string -> GeminiService.CallOutcome, parse: string -> Option<Json.Json>)
    requires s.isLoading
    requires GeminiService.AnalyzeContent(t, text, service, parse).Failure?
    ensures var msg := GeminiService.AnalyzeContent(t, text, service, parse).error;
      Step(s, Fail(ErrorValue(msg))).state.error == Some(GeminiService.FailureMessage)
  {
  }

  /** Editing changes only the text, and never starts a call. */
  lemma EditIsLocal(s: AppState, text: string)
    ensures Step(s, Edit(text)) == Transition(s.(inputText := text), None)
  {
  }

  /** Selecting a tab changes only the active tab, and only when the tabs
      are on screen, that is, when there is a result. */
  lemma SelectTabIsLocal(s: AppState, tab: Tab)
    ensures Step(s, SelectTab(tab)) == Transition(if s.result.Some? then s.(activeTab := tab) else s, None)
  {
  }

  /** The outcome of a sequence of events: the final state, the calls
      started in order, and how many of them settled. */
  datatype RunResult = RunResult(state: AppState, calls: seq<string>, settled: nat)

  predicate Settles(s: AppState, e: Event) {
    s.isLoading && (e.Succeed? || e.Fail?)
  }

  /** None of the texts is blank. */
  predicate AllNonBlank(texts: seq<string>) {
    forall i :: 0 <= i < |texts| ==> Trim(texts[i]) != ""
  }

  lemma AllNonBlankConcat(a: seq<string>, b: seq<string>)
    requires AllNonBlank(a) && AllNonBlank(b)
    ensures AllNonBlank(a + b)
  {
    forall i | 0 <= i < |a + b| ensures Trim((a + b)[i]) != "" {
      if i < |a| { assert (a + b)[i] == a[i]; } else { assert (a + b)[i] == b[i - |a|]; }
    }
  }

  /** Every call a run starts carries text that is not blank. */
  function Run(s: AppState, es: seq<Event>): (r: RunResult)
    ensures AllNonBlank(r.calls)
    decreases |es|
  {
    if |es| == 0 then RunResult(s, [], 0)
    else
      var t := Step(s, es[0]);
      var rest := Run(t.state, es[1..]);
      var first := if t.call.Some? then [t.call.value] else [];
      AllNonBlankConcat(first, rest.calls);
      RunResult(rest.state, first + rest.calls, rest.settled + (if Settles(s, es[0]) then 1 else 0))
  }

  function Flag(b: bool): nat { if b then 1 else 0 }

  /** Calls are started and settled one at a time: whatever the events, the
      calls started plus the one out at the start equal the calls settled
      plus the one out at the end, and the invariant holds throughout. */
  lemma {:induction false} RunAccounting(s: AppState, es: seq<Event>)
    requires Inv(s)
    ensures var r := Run(s, es);
      && |r.calls| + Flag(s.isLoading) == r.settled + Flag(r.state.isLoading)
      && Inv(r.state)
    decreases |es|
  {
    if |es| > 0 {
      var t := Step(s, es[0]);
      StepPreservesInv(s, es[0]);
      RunAccounting(t.state, es[1..]);
    }
  }

  /** From the first render, at most one call is ever out, and one is out
      exactly while the page shows it is loading. */
  lemma AtMostOneCallOut(initialText: string, es: seq<Event>)
    ensures var r := Run(Initial(initialText), es);
      |r.calls| == r.settled + Flag(r.state.isLoading)
  {
    RunAccounting(Initial(initialText), es);
  }

  /** What the result area shows under each tab. */
  datatype TabView =
    | RefinedView(content: string)
    | QuestionsView(questions: seq<string>)
    | GlossaryView(items: seq<GlossaryItem>)
    | AnswersView(answers: seq<UserAnswer>)
    | FlowsView(flowchart: Mermaid.Rendered)
    | VizView(chart: DataChart.ChartView)

  /** The tab a view belongs to. */
  function TabOf(v: TabView): Tab {
    match v
    case RefinedView(_) => Refined
    case QuestionsView(_) => Questions
    case GlossaryView(_) => Glossary
    case AnswersView(_) => Answers
    case FlowsView(_) => Flows
    case VizView(_) => Viz
  }

  /** `renderTabContent`: nothing without a result, otherwise the view of
      the active tab. `libraryLoaded` says whether the diagram library's
      script has loaded. */
  function RenderTabContent(s: AppState, libraryLoaded: bool): (v: Option<TabView>)
    ensures v.Some? <==> s.result.Some?
    ensures v.Some? ==> TabOf(v.value) == s.activeTab
  {
    match s.result
    case None => None
    case Some(r) => Some(ViewOf(r, s.activeTab, libraryLoaded))
  }

  /** The view of `r` under `tab`. */
  function ViewOf(r: AnalysisResult, tab: Tab, libraryLoaded: bool): (v: TabView)
    ensures TabOf(v) == tab
  {
    match tab
    case Refined => RefinedView(r.refinedContent)
    case Questions => QuestionsView(r.generatedQuestions)
    case Glossary => GlossaryView(r.glossary)
    case Answers => AnswersView(r.userAnswers)
    case Flows => FlowsView(Mermaid.Render(r.energyFlows, libraryLoaded))
    case Viz => VizView(DataChart.Render(r.chartData))
  }

  /** The two results agree on the field the tab shows. */
  predicate SameField(t: Tab, a: AnalysisResult, b: AnalysisResult) {
    match t
    case Refined => a.refinedContent == b.refinedContent
    case Questions => a.generatedQuestions == b.generatedQuestions
    case Glossary => a.glossary == b.glossary
    case Answers => a.userAnswers == b.userAnswers
    case Flows => a.energyFlows == b.energyFlows
    case Viz => a.chartData == b.chartData
  }

  /** Each tab shows one field of the result and nothing else: results
      that agree on that field look the same under the tab. */
  lemma TabShowsOnlyItsField(s: AppState, a: AnalysisResult, b: AnalysisResult, loaded: bool)
    requires SameField(s.activeTab, a, b)
    ensures RenderTabContent(s.(result := Some(a)), loaded) == RenderTabContent(s.(result := Some(b)), loaded)
  {
  }

  /** The four text tabs show their field in full: different fields look
      different. */
  lemma TextTabsFaithful(s: AppState, a: AnalysisResult, b: AnalysisResult, loaded: bool)
    requires s.activeTab in {Refined, Questions, Glossary, Answers}
    requires RenderTabContent(s.(result := Some(a)), loaded) == RenderTabContent(s.(result := Some(b)), loaded)
    ensures SameField(s.activeTab, a, b)
  {
  }

  /** The flowchart tab shows the diagram text as written when it is
      valid, and the notice otherwise. */
  lemma FlowsTab(s: AppState, loaded: bool)
    requires s.result.Some? && s.activeTab == Flows
    ensures var flows := s.result.value.energyFlows;
      RenderTabContent(s, loaded) == Some(FlowsView(
        if Mermaid.IsValidMermaid(flows) then Mermaid.Rendered(Mermaid.Diagram(flows), loaded)
        else Mermaid.Rendered(Mermaid.Fallback, false)))
  {
  }

  /** The chart tab shows the chart of `chartData`. */
  lemma VizTab(s: AppState, loaded: bool)
    requires s.result.Some? && s.activeTab == Viz
    ensures RenderTabContent(s, loaded) == Some(VizView(DataChart.Render(s.result.value.chartData)))
  {
  }

  /** The chart tab tells different chart data apart. */
  lemma VizTabFaithful(s: AppState, a: AnalysisResult, b: AnalysisResult, loaded: bool)
    requires s.activeTab == Viz
    requires RenderTabContent(s.(result := Some(a)), loaded) == RenderTabContent(s.(result := Some(b)), loaded)
    ensures a.chartData == b.chartData
  {
    VizTab(s.(result := Some(a)), loaded);
    VizTab(s.(result := Some(b)), loaded);
    DataChart.RenderInjective(a.chartData, b.chartData);
  }

  /** One button per tab, in this order. */
  datatype TabButton = TabButton(id: Tab, caption: string)

  const TabButtons: seq<TabButton> := [
    TabButton(Refined, "Refined"), TabButton(Questions, "Questions"),
    TabButton(Glossary, "Glossary"), TabButton(Answers, "Answers"),
    TabButton(Flows, "Flows"), TabButton(Viz, "Viz")]

  /** Every tab has exactly one button, and a new analysis opens on the
      first. */
  lemma EachTabOneButton(t: Tab)
    ensures exists i :: 0 <= i < |TabButtons| && TabButtons[i].id == t
    ensures forall i, j :: 0 <= i < j < |TabButtons| ==> TabButtons[i].id != TabButtons[j].id
    ensures TabButtons[0].id == Refined
  {
    match t
    case Refined => assert TabButtons[0].id == t;
    case Questions => assert TabButtons[1].id == t;
    case Glossary => assert TabButtons[2].id == t;
    case Answers => assert TabButtons[3].id == t;
    case Flows => assert TabButtons[4].id == t;
    case Viz => assert TabButtons[5].id == t;
  }
}
