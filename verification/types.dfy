/** The data the application passes around once an analysis has come back:
    the analysis itself and the six result tabs. */
module Types {

  datatype GlossaryItem = GlossaryItem(term: string, definition: string)

  datatype UserAnswer = UserAnswer(question: string, answer: string)

  /** A chart cell is a string or a number. */
  datatype Scalar = Text(text: string) | Number(number: real)

  datatype Entry = Entry(key: string, value: Scalar)

  /** One row of chart data: its members in the order `Object.keys` lists
      them. The model takes that order as given (the special placement of
      integer-like keys is not modelled). */
  datatype ChartDataItem = ChartDataItem(entries: seq<Entry>)

  datatype AnalysisResult = AnalysisResult(
    refinedContent: string,
    generatedQuestions: seq<string>,
    glossary: seq<GlossaryItem>,
    userAnswers: seq<UserAnswer>,
    energyFlows: string,
    chartData: seq<ChartDataItem>)

  datatype Tab = Refined | Questions | Glossary | Answers | Flows | Viz

  /** `Object.keys(row)`. */
  function Keys(row: ChartDataItem): (ks: seq<string>)
    ensures |ks| == |row.entries|
    ensures forall i :: 0 <= i < |ks| ==> ks[i] == row.entries[i].key
    decreases |row.entries|
  {
    if |row.entries| == 0 then []
    else Keys(ChartDataItem(row.entries[..|row.entries| - 1])) + [row.entries[|row.entries| - 1].key]
  }

  predicate Distinct(ks: seq<string>) {
    forall i, j :: 0 <= i < j < |ks| ==> ks[i] != ks[j]
  }

  /** A row as a JavaScript object can be: no key twice, and a string
      `name`, as the `ChartDataItem` interface demands. */
  predicate WellFormedRow(row: ChartDataItem) {
    && Distinct(Keys(row))
    && exists i :: 0 <= i < |row.entries| && row.entries[i].key == "name" && row.entries[i].value.Text?
  }

  predicate WellFormed(r: AnalysisResult) {
    forall i :: 0 <= i < |r.chartData| ==> WellFormedRow(r.chartData[i])
  }
}
