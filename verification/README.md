# AI Content Analysis Engine — a Dafny model of its core

The application takes a text, sends it to a generative-AI service with a
fixed prompt and a structured-output schema, and shows the answer in six
tabs: refined content, generated questions, a glossary, answers to three
fixed questions, energy flowcharts (Mermaid syntax) and bar-chart data.

This project models the logic around the one external call, and proves
properties of it:

- **The analysis gateway** (`GeminiService`, with `Prompt`, `Schema`,
  `Json` and `JsString`). It builds the prompt with the caller's text
  embedded verbatim, trims and parses the reply, and checks the six
  top-level fields shallowly. On success it returns the parsed document
  unchanged. It turns every failure (transport, missing text, syntax, a
  `null` document, a failed check) into one fixed message.
- **The result types** (`Types`), and the JSON form of a result (`Codec`),
  which connects the gateway's untyped document to the typed result the
  shell stores.
- **The flowchart gate** (`Mermaid`): the `isValidMermaid` test and the
  choice between the diagram container and the fallback notice.
- **The bar chart** (`DataChart`): the empty-data notice, the series keys
  (the first row's keys minus `name`), and colour `i mod 5` for bar `i`.
- **The shell** (`App`): the five pieces of state, the click, settle, edit
  and tab events, the disabled button, and what the result area shows for
  each tab.

Modelling choices:

- JavaScript semantics are written out.
  - `trim` removes the ECMAScript WhiteSpace and LineTerminator characters.
  - Truthiness, `Array.isArray` and `typeof` are predicates on the parsed
    value.
  - Reading a property of `null` throws.
  - A repeated key in a JSON object keeps its last value, at the place
    where the key first appeared (`Json.Build`).
- `JSON.parse` is a parameter of type `string -> Option<Json>`: it answers
  `None` where it would throw.
- The service call is a parameter whose outcome is either a response, whose
  `text` may be absent, or a rejection.
- The prompt is built from a `Prompt.Template`: an introduction and the task
  lines. `GeminiService.AnalyzeContent` takes the template as a parameter,
  and `Prompt.AnalysisTemplate` holds the one the service sends, word for
  word. Every prompt property is proved for all templates.
- `handleAnalyzeClick` is cut at its `await`. `Click` runs the part before
  it and emits the text to analyse. `Succeed` and `Fail` run the part after
  it when that call settles. A settle event arriving with no call
  outstanding changes nothing.

Two facts about the code are worth stating on their own:

- The gateway accepts any text, blank included; only the shell rejects
  blank input (App.tsx:110-113). So `GeminiService.AnalyzeContent` takes
  any text.
- `energyFlows` is only checked to be a string
  (services/geminiService.ts:123), so an empty one passes
  (`GeminiService.ChecksAsymmetry`).

## Model

| member | source | states |
|---|---|---|
| `JsString.Trim` | services/geminiService.ts:114 | `s.trim()`; `JsString.TrimSplits` shows the result is `s` with its leading and trailing whitespace cut off and has no whitespace at either end, and `JsString.TrimUnique` shows no other split gives a different middle |
| `JsString.StartsWith` | components/MermaidChart.tsx:31 | `s.startsWith(p)`: `p` is a prefix of `s`, which `JsString.StartsWithIff` restates as `s == p + rest` for some `rest` |
| `JsString.StartsWithIff` | components/MermaidChart.tsx:31 | `s.startsWith(p)` holds exactly when `s` is `p` followed by some text |
| `JsString.TrimIgnoresPadding` | services/geminiService.ts:114 | whitespace added at either end of a string never changes what `trim` returns |
| `JsString.TrimEmptyIffBlank` | App.tsx:110 | `trim` returns the empty string exactly for the empty and whitespace-only strings |
| `JsString.TrimIdempotent` | services/geminiService.ts:114 | trimming twice is trimming once |
| `JsString.TrimSplits` | services/geminiService.ts:114 | every string is leading whitespace, then what `trim` returns, then trailing whitespace, and that middle neither starts nor ends with whitespace |
| `JsString.TrimUnique` | services/geminiService.ts:114 | whatever whitespace surrounds a trimmed string, `trim` gives back exactly that string |
| `Json.LookupFindsLast` | services/geminiService.ts:119-124 | a member read finds a value exactly when some member has the key, and then it is the last member with that key |
| `Json.Lookup` | services/geminiService.ts:119-124 | the value of a member of a parsed object; `Json.LookupFindsLast` shows it is the last member with the key, and absent exactly when no member has it |
| `Json.Assign` | services/geminiService.ts:115 | the property write `JSON.parse` does per member: a new key goes after all others, an existing key keeps its place |
| `Json.LookupAssign` | services/geminiService.ts:115 | after the write, the written key reads the new value and every other key reads what it read before |
| `Json.AssignDistinct` | services/geminiService.ts:115 | a write never makes a key occur twice |
| `Json.BuildLookup` | services/geminiService.ts:115 | the object `JSON.parse` builds from a literal has each key once, and every key reads as in the literal, its last value |
| `Json.BuildDistinct` | services/geminiService.ts:115 | a literal without repeated keys parses to exactly its members, in order |
| `Json.Get` | services/geminiService.ts:119-124 | reading a member throws exactly when the document is `null`, gives the object's member on an object, and reads `undefined` on anything else |
| `Json.Truthy` | services/geminiService.ts:119 | JavaScript truthiness; `Json.FalsyValues` lists the falsy values |
| `Json.FalsyValues` | services/geminiService.ts:119 | a member is falsy exactly when it is `undefined`, `null`, `false`, `0` or `""` |
| `Json.IsArray` | services/geminiService.ts:120-124 | `Array.isArray`: true exactly for arrays (`Json.ArraysAreObjects`) |
| `Json.ArraysAreObjects` | services/geminiService.ts:120-124 | `Array.isArray` holds exactly for arrays, and `typeof` reports every array as "object" |
| `Json.TypeOf` | services/geminiService.ts:123 | `typeof`; `Json.TypeOfString` shows "string" singles out exactly the strings |
| `Schema.ResponseRequiresSixFields` | services/geminiService.ts:79 | the response requires exactly the six keys refinedContent, generatedQuestions, glossary, userAnswers, energyFlows, chartData; they are distinct and each is declared |
| `Schema.EveryDeclaredPropertyRequired` | services/geminiService.ts:12-80 | glossary items require term and definition, answers require question and answer, chart rows require name, Demand, Capacity and Surplus, and in every object schema the required list is exactly the declared properties in order |
| `Prompt.BuildPrompt` | services/geminiService.ts:83-101 | the prompt around the text; characterised by `Prompt.EmbeddedTextRoundTrip`, `Prompt.TextBetweenDelimiters` and `Prompt.TasksInOrder` |
| `Prompt.EmbeddedTextRoundTrip` | services/geminiService.ts:83-101 | the caller's text can be read back unchanged out of the prompt built around it |
| `Prompt.BuildPromptInjective` | services/geminiService.ts:83-101 | different texts give different prompts |
| `Prompt.TextBetweenDelimiters` | services/geminiService.ts:86-89 | the text sits right after an opening `---` delimiter line and right before a closing one |
| `Prompt.TasksInOrder` | services/geminiService.ts:91-100 | every task appears after the text, in its listed order, without overlapping the next |
| `Prompt.NumberedTasks` | services/geminiService.ts:91-100 | one line per task, line i opening with the marker for number i+1 followed by task i's title |
| `GeminiService.Validate` | services/geminiService.ts:118-127 | a document is accepted exactly when it is an object that passes all six checks; accepted documents come back unchanged; a `null` document fails on the member read, anything else on the format check |
| `GeminiService.Interpret` | services/geminiService.ts:104-127 | success exactly when the call delivered text, the trimmed text parsed, and the document passed the checks; the result is the parsed document |
| `GeminiService.Report` | services/geminiService.ts:130-133 | every failure becomes the one fixed message, and success passes through unchanged |
| `GeminiService.AnalyzeResponse` | services/geminiService.ts:114-133 | the only failure message is "Failed to get a valid response from the AI. Please try again."; success exactly when delivery, parse and checks all succeed, with the parsed document returned |
| `GeminiService.AnalyzeContent` | services/geminiService.ts:82-133 | every failure carries the fixed message, and a success needs the call for this text's prompt to have delivered |
| `GeminiService.PaddingIrrelevant` | services/geminiService.ts:114-115 | whitespace around the reply text never changes the outcome |
| `GeminiService.ValidateAgainstSchema` | services/geminiService.ts:118-127 | acceptance is exactly an object whose first declared field is truthy and whose other five declared fields are present with the kind the schema gives them |
| `GeminiService.ConformingAccepted` | services/geminiService.ts:118-127 | a document conforming to the response schema with non-empty refinedContent is accepted |
| `GeminiService.ExtraMemberIgnored` | services/geminiService.ts:118-129 | an extra member with another key never changes the verdict and is kept in the returned document |
| `GeminiService.ArrayContentsIgnored` | services/geminiService.ts:118-127 | replacing the elements of any array member never changes the verdict |
| `GeminiService.ChecksAsymmetry` | services/geminiService.ts:119-123 | an empty energyFlows is accepted while an empty refinedContent is rejected; a number or object as refinedContent is accepted though it does not conform to the schema |
| `GeminiService.ParsedVerdict` | services/geminiService.ts:114-133 | a reply whose trimmed text parses to an object succeeds with that object exactly when it passes the six checks, and otherwise fails with the fixed message |
| `GeminiService.ChartDataPresenceDecides` | services/geminiService.ts:124-133 | for any document whose other five members pass, the response fails with the fixed message when chartData is missing and succeeds, returning the document, once an empty chartData is appended |
| `GeminiService.AppendedChartDataPasses` | services/geminiService.ts:118-125 | a document whose first five members pass the checks passes all six once an empty `chartData` array is appended, whatever it held before |
| `Types.Keys` | types.ts:11-14 | the keys of a chart row, one per member, in member order |
| `Codec.Decode` | types.ts:1-23 | a document decodes exactly when it is an object whose six members have their declared types; the result's fields are those members, decoded, and its chart rows have distinct keys and a string name |
| `Codec.DecodeRow` | types.ts:11-14 | a row decodes exactly when the object `JSON.parse` builds from it has only string or number members and a string `name`; the row is then well formed, encodes to that object, and reads every key as the literal does |
| `Codec.RowOfMembers` | types.ts:11-14 | entries encoding a parsed object form a well-formed row exactly when `name` holds a string |
| `Codec.RepeatedKeyBuilt` | services/geminiService.ts:115 | a literal repeating a key parses to that key once, at its first place, with its last value |
| `Codec.RepeatedKeyRow` | types.ts:11-14 | the row `{"name":"2025","Demand":1,"Demand":2}` decodes to the row with `Demand` 2 |
| `Codec.DecodeEncode` | types.ts:16-23 | decoding the document of a well-formed result gives back that result |
| `Codec.RowRoundTrip` | types.ts:11-14 | a well-formed chart row survives encoding and decoding |
| `Codec.GlossaryItemRoundTrip` | types.ts:1-4 | a glossary item survives encoding and decoding |
| `Codec.UserAnswerRoundTrip` | types.ts:6-9 | an answer survives encoding and decoding |
| `Codec.EncodedVerdict` | services/geminiService.ts:118-127 | the gateway accepts the document of a result exactly when its refinedContent is non-empty |
| `Codec.TypedDocumentsPass` | services/geminiService.ts:118-129 | every document that really is a result with non-empty refinedContent passes the checks |
| `Codec.CastIsUnchecked` | services/geminiService.ts:129 | a document with a number among its questions passes the checks but is not a result: the final cast is unchecked |
| `Codec.GlossaryItemConformance` | services/geminiService.ts:24-39 | a glossary element conforms to its item schema exactly when it decodes as a glossary item |
| `Codec.UserAnswerConformance` | services/geminiService.ts:42-57 | an answer element conforms to its item schema exactly when it decodes as an answer |
| `Mermaid.IsValidMermaid` | components/MermaidChart.tsx:31 | `isValidMermaid`; `Mermaid.ValidIffLeadingKeyword` shows it holds exactly when the text starts with `graph` after its leading whitespace |
| `Mermaid.Render` | components/MermaidChart.tsx:31-57 | the diagram is shown exactly when the text is valid, holding the text as written; the library runs exactly when the diagram is shown and the library has loaded |
| `Mermaid.InvalidShowsFallback` | components/MermaidChart.tsx:14-47 | the notice headed "Could Not Generate Flowchart" is shown exactly when the text is invalid |
| `Mermaid.ValidIffLeadingKeyword` | components/MermaidChart.tsx:31 | a text is valid exactly when it starts with `graph` after its leading whitespace |
| `Mermaid.BlankInvalid` | components/MermaidChart.tsx:31-47 | empty and whitespace-only texts are invalid, show the notice and never run the library |
| `Mermaid.EmptinessTestRedundant` | components/MermaidChart.tsx:31 | the emptiness test adds nothing to the trimmed-prefix test |
| `Mermaid.PaddingIrrelevant` | components/MermaidChart.tsx:31 | whitespace around the text never changes validity |
| `Mermaid.PrefixOnly` | components/MermaidChart.tsx:31 | any text that begins, after whitespace, with `graph` is valid whatever follows |
| `Mermaid.OtherStartInvalid` | components/MermaidChart.tsx:31 | a text starting with neither whitespace nor `graph` is invalid |
| `Mermaid.KeywordGlued` | components/MermaidChart.tsx:31 | "graphX", which is no diagram, passes the check |
| `Mermaid.FlowchartSyntaxRefused` | components/MermaidChart.tsx:31 | a diagram in the newer "flowchart TD" syntax fails the check |
| `Mermaid.ValidShownVerbatim` | components/MermaidChart.tsx:54-55 | a valid text is shown untrimmed, and the library runs exactly when it has loaded |
| `DataChart.Render` | components/DataChart.tsx:11-24 | the notice "No chart data available." exactly for empty data; otherwise the data is passed on unchanged with one bar per series key |
| `DataChart.EmptyShowsNotice` | components/DataChart.tsx:11-12 | empty data gives the notice and no bars |
| `DataChart.RenderInjective` | components/DataChart.tsx:11-24 | different data never give the same chart |
| `DataChart.RemoveName` | components/DataChart.tsx:16 | the filtered keys are exactly the keys other than `name` |
| `DataChart.BarKeys` | components/DataChart.tsx:16 | the series keys are exactly the first row's keys other than `name` |
| `DataChart.RemoveNameAt` | components/DataChart.tsx:16 | with distinct keys and `name` at position p, the series keys are the keys with position p cut out, order kept |
| `DataChart.RemoveNameAbsent` | components/DataChart.tsx:16 | without `name`, the series keys are all keys in order |
| `DataChart.SeriesOfWellFormedRow` | components/DataChart.tsx:16 | for a well-formed first row the series keys are its keys with the one `name` position removed |
| `DataChart.NameNeverPlotted` | components/DataChart.tsx:16 | no bar plots `name` |
| `DataChart.FirstRowOnly` | components/DataChart.tsx:16 | later rows never change the bars, and a key absent from the first row gets no bar |
| `DataChart.Colour` | components/DataChart.tsx:19 | every colour used is a palette entry |
| `DataChart.BarsMatchKeys` | components/DataChart.tsx:45-47 | bar i plots series key i and is painted with palette entry i mod 5 |
| `DataChart.ColoursCycle` | components/DataChart.tsx:45-47 | two bars share a colour exactly when their positions differ by a multiple of five |
| `App.Initial` | App.tsx:103-107 | the first state has no result, no error, no call out and the first tab active |
| `App.Message` | App.tsx:123 | an `Error`'s message is shown as is; any other thrown value shows "An unknown error occurred." |
| `App.Button` | App.tsx:237-243 | the button is disabled exactly while loading, and relabelled then |
| `App.Step` | App.tsx:109-127 | a call starts exactly on a click that is not loading and whose text is not blank, carrying that text; only editing changes the text |
| `App.StepPreservesInv` | App.tsx:114-125 | no step leaves a result or an error on screen while loading |
| `App.BlankClick` | App.tsx:110-113 | a blank click sets the blank-input message, starts no call, and leaves loading and any earlier result as they were |
| `App.StartClick` | App.tsx:114-116 | a non-blank click starts loading, clears error and result, and starts a call with the text |
| `App.DisabledBlocksClick` | App.tsx:239 | while the button is disabled a click changes nothing and starts no second call |
| `App.SettleGivesOneOutcome` | App.tsx:118-126 | settling the outstanding call stops loading and leaves exactly one of result and error; success stores the result and resets the tab, failure shows the thrown message |
| `App.GatewayFailureShown` | App.tsx:123 | a gateway failure reaches the screen as the gateway's one fixed message |
| `App.EditIsLocal` | App.tsx:233 | editing changes only the text |
| `App.SelectTabIsLocal` | App.tsx:265 | selecting a tab changes only the active tab, and only while a result is shown |
| `App.Run` | App.tsx:109-116 | every call started over any sequence of events carries text that is not blank |
| `App.RunAccounting` | App.tsx:109-127 | over any sequence of events, calls started plus one out at the start equal calls settled plus one out at the end, and the loading invariant holds |
| `App.AtMostOneCallOut` | App.tsx:109-127 | from the first render, at most one call is ever out, and one is out exactly while loading |
| `App.RenderTabContent` | App.tsx:129-200 | nothing is shown without a result; otherwise the view of the active tab |
| `App.TabShowsOnlyItsField` | App.tsx:132-196 | results that agree on the active tab's field look the same under that tab |
| `App.TextTabsFaithful` | App.tsx:133-178 | under the four text tabs, results that look the same agree on the tab's field |
| `App.FlowsTab` | App.tsx:179-187 | the flowchart tab shows the diagram text as written when valid and the notice otherwise |
| `App.VizTab` | App.tsx:188-196 | the chart tab shows the bar chart of the result's `chartData` |
| `App.VizTabFaithful` | App.tsx:188-196 | two results whose chart tabs look the same have the same `chartData` |
| `App.EachTabOneButton` | App.tsx:202-209 | every tab has exactly one button, the first being the tab a new analysis opens on |

## Left out

- The service call itself is a parameter. That covers the network, the model name, the temperature 0.2 and the module-load credential check (services/geminiService.ts:4-10, 104-112). The call is I/O and configuration.
- `JSON.parse` is a parameter. Re-implementing the JSON grammar is outside the core.
- Field descriptions in the schema, and the quality of the generator's answers. These are natural-language hints and non-deterministic external behaviour.
- The diagram library's `initialize`/`run` and the charting library's drawing. These are foreign code; the model records only whether the diagram library is asked to run and what data and series the chart gets.
- `useEffect` timing, React state batching and re-rendering. Each event is one sequential step.
- Logging, JSX markup, classes, icons, the explanatory paragraph under the flowchart notice, and the initial text constant. These are presentation only; the initial text is a parameter of `App.Initial`.
- `Object.keys` order. A chart row is an ordered list of entries taken in the order `Object.keys` gives; the placement of integer-like keys first is not modelled.
- Values that slip through the unchecked cast at services/geminiService.ts:129. The shell and the renderers are modelled only for results that really are `AnalysisResult`s, the ones `Codec.Decode` accepts. `Codec.CastIsUnchecked` shows other documents pass the gateway. `chartData` always passes `Array.isArray` (services/geminiService.ts:124), so DataChart's `!data` guard (components/DataChart.tsx:11) never fires. But its elements are never inspected: a falsy first element such as `null` makes `data[0] || {}` (components/DataChart.tsx:16) fall back to `{}`, giving no bars, and a string as the first row would give one bar per character index; none of that is modelled.
- `App.Step`: a `Succeed` or `Fail` event with no call outstanding is ignored. In the application a call settles only after it started.
- `GeminiService.AnalyzeContent`: its own contract states only the failure message and that success needs a delivery. The full success condition is stated by `GeminiService.AnalyzeResponse`, which it calls.
- `Codec.Decode`: the chart-row schema's number types for Demand, Capacity and Surplus are not required by `Decode`, which follows the TypeScript row type (any string or number members, with a string `name`).
