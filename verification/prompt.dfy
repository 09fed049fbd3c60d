/** The instruction prompt built around the caller's text: an introduction,
    the text between two `---` delimiter lines, and numbered tasks. The
    layout, including the template literal's indentation and line breaks,
    is kept exactly.

    The layout is a function of a `Template` (the introduction and the task
    lines); the properties below hold for every template, and
    `AnalysisTemplate` is the one the service sends. */
module Prompt {
  import opened Wrappers
  import opened JsString

  const Indent: string := "    "

  /** The line that opens and closes the embedded text. */
  const DelimiterLine: string := "    ---\n"

  /** The text begins on the line after the opening delimiter, indented. */
  const OpenDelimiter: string := DelimiterLine + Indent

  /** The text ends where the closing delimiter line begins. */
  const CloseDelimiter: string := "\n" + DelimiterLine

  const TasksHeader: string := "\n    TASKS:\n"

  /** The template literal closes on an indented line. */
  const Outro: string := "  "

  datatype Template = Template(intro: string, tasks: seq<string>)

  /** The decimal numeral of `n`. */
  function Numeral(n: nat): (r: string)
    ensures |r| > 0
  {
    var digit := [(('0' as int) + n % 10) as char];
    if n < 10 then digit else Numeral(n / 10) + digit
  }

  /** The marker that opens task number `n`, e.g. `    1.  **`. */
  function TaskMarker(n: nat): string {
    Indent + Numeral(n) + ".  **"
  }

  /** One task of the prompt: a bold title and what it asks for. */
  datatype Task = Task(title: string, body: string)

  /** Task number `n` as it appears in the prompt: number, bold title, body. */
  function TaskLine(n: nat, task: Task): (r: string)
    ensures StartsWith(r, TaskMarker(n))
    ensures |TaskMarker(n)| + |task.title| <= |r|
    ensures r[|TaskMarker(n)|..|TaskMarker(n)| + |task.title|] == task.title
  {
    var r := TaskMarker(n) + task.title + ("**: " + task.body);
    assert r[..|TaskMarker(n)|] == TaskMarker(n);
    r
  }

  /** The task lines, numbered from 1 in the order given. */
  function NumberedTasks(tasks: seq<Task>): (lines: seq<string>)
    ensures |lines| == |tasks|
    ensures forall i :: 0 <= i < |tasks| ==> StartsWith(lines[i], TaskMarker(i + 1))
    ensures forall i :: 0 <= i < |tasks| ==>
      var m := |TaskMarker(i + 1)|;
      m + |tasks[i].title| <= |lines[i]| && lines[i][m..m + |tasks[i].title|] == tasks[i].title
  {
    seq(|tasks|, k requires 0 <= k < |tasks| => TaskLine(k + 1, tasks[k]))
  }

  /** The three questions every analysis must answer, in order. */
  const FixedQuestionLines: seq<string> := [
    "        - Question 1: explique o curtailment para um idiota (explain curtailment for an idiot).\n",
    "        - Question 2: quanto terremos de excedente energetico renovavel ate 2030 (how much renewable energy surplus will we have by 2030).\n",
    "        - Question 3: quanto podera ser interligado globalmente? (how much can be interconnected globally?).\n"
  ]

  /** The six tasks, in the order the response fields are declared; the
      fourth ends with the fixed questions. */
  const AnalysisTasks: seq<Task> := [
    Task("Refine Content",
      "Rewrite the text to be clearer, more concise, and well-structured. Correct any grammatical errors. The tone should be informative and professional. Maintain the original language of the text.\n"),
    Task("Generate Questions",
      "Create a list of 5 insightful questions that can be answered from the provided text, to stimulate discussion.\n"),
    Task("Create Glossary",
      "Identify key technical terms and create a glossary. For each term, provide a simple, easy-to-understand definition in the same language as the text.\n"),
    Task("Answer Specific Questions",
      "Provide clear and concise answers to the following specific questions based *only* on the provided text. If the text does not contain enough information to answer a question, state that clearly.\n"
        + Concat(FixedQuestionLines)),
    Task("Generate Energy Flowcharts",
      "Create Mermaid.js graph syntax for two separate flowcharts (one for 2025, one for 2030) that visualize the energy flow from generation to potential surplus and curtailment, based on the data in the text. Use 'graph TD' direction. The syntax for both charts should be in a single string, separated by a newline and each with a title.\n"),
    Task("Generate Chart Data",
      "Extract the data for \"Demanda Global\", \"Capacidade Renov\U{00E1}vel\", and \"Excedente Potencial\" for the years 2025 and 2030. Format this into a JSON array for a bar chart. Example: [{ \"name\": \"2025\", \"Demand\": 31000, \"Capacity\": 40000, \"Surplus\": 9000 }, ...]. Use the numeric values from the text.\n")
  ]

  const AnalysisTemplate: Template := Template(
    "\n    Analyze the following text and perform six tasks. Structure your entire response as a single JSON object matching the provided schema.\n"
      + "\n"
      + "    TEXT TO ANALYZE:\n",
    NumberedTasks(AnalysisTasks))

  function Concat(parts: seq<string>): (r: string)
    ensures |r| == TotalLength(parts)
  {
    if |parts| == 0 then "" else parts[0] + Concat(parts[1..])
  }

  function TotalLength(parts: seq<string>): nat {
    if |parts| == 0 then 0 else |parts[0]| + TotalLength(parts[1..])
  }

  /** Everything before the caller's text. */
  function Head(t: Template): string {
    t.intro + OpenDelimiter
  }

  /** Everything after the caller's text. */
  function Tail(t: Template): string {
    CloseDelimiter + (TasksHeader + Concat(t.tasks) + Outro)
  }

  /** The prompt for `text`; the text is interpolated without any change. */
  function BuildPrompt(t: Template, text: string): string {
    Head(t) + text + Tail(t)
  }

  /** Reads the caller's text back out of a prompt, if `p` has the shape of one. */
  function EmbeddedText(t: Template, p: string): (r: Option<string>)
    ensures r.Some? ==> |r.value| == |p| - |Head(t)| - |Tail(t)|
  {
    if |p| >= |Head(t)| + |Tail(t)| && p[..|Head(t)|] == Head(t) && p[|p| - |Tail(t)|..] == Tail(t)
    then Some(p[|Head(t)|..|p| - |Tail(t)|])
    else None
  }

  /** The text is embedded verbatim: it can be read back out of the prompt. */
  lemma EmbeddedTextRoundTrip(t: Template, text: string)
    ensures EmbeddedText(t, BuildPrompt(t, text)) == Some(text)
  {
    var p := BuildPrompt(t, text);
    assert p[..|Head(t)|] == Head(t) && p[|p| - |Tail(t)|..] == Tail(t);
    assert p[|Head(t)|..|p| - |Tail(t)|] == text;
  }

  /** Different texts give different prompts. */
  lemma BuildPromptInjective(t: Template, a: string, b: string)
    requires BuildPrompt(t, a) == BuildPrompt(t, b)
    ensures a == b
  {
    EmbeddedTextRoundTrip(t, a);
    EmbeddedTextRoundTrip(t, b);
  }

  /** The text sits on a line of its own between two delimiter lines: the
      prompt reads `...---\n    ` + text + `\n    ---\n...`. */
  lemma TextBetweenDelimiters(t: Template, text: string)
    ensures var p := BuildPrompt(t, text);
      var h := |Head(t)|;
      && p[|t.intro|..h] == OpenDelimiter
      && p[h..h + |text|] == text
      && p[h + |text|..h + |text| + |CloseDelimiter|] == CloseDelimiter
  {
    var rest := TasksHeader + Concat(t.tasks) + Outro;
    var p := (t.intro + OpenDelimiter) + text + (CloseDelimiter + rest);
    assert p == t.intro + OpenDelimiter + text + CloseDelimiter + rest;
  }

  /** Where part `i` starts inside `Concat(parts)`. */
  function Offset(parts: seq<string>, i: nat): nat
    requires i <= |parts|
  {
    TotalLength(parts[..i])
  }

  lemma {:induction false} ConcatContainsPart(parts: seq<string>, i: nat)
    requires i < |parts|
    ensures OccursAt(Concat(parts), Offset(parts, i), parts[i])
    decreases i
  {
    var rest := parts[1..];
    assert Concat(parts) == parts[0] + Concat(rest);
    if i == 0 {
      assert parts[..0] == [];
      MiddleOccurs([], parts[0], Concat(rest));
      assert [] + parts[0] + Concat(rest) == Concat(parts);
    } else {
      ConcatContainsPart(rest, i - 1);
      assert parts[..i][0] == parts[0] && parts[..i][1..] == rest[..i - 1];
      assert Offset(parts, i) == |parts[0]| + Offset(rest, i - 1);
      assert rest[i - 1] == parts[i];
      ShiftOccurs(parts[0], Concat(rest), Offset(rest, i - 1), parts[i]);
    }
  }

  /** Putting text in front moves every occurrence along by its length. */
  lemma ShiftOccurs(a: string, b: string, start: nat, part: string)
    requires OccursAt(b, start, part)
    ensures OccursAt(a + b, |a| + start, part)
  {
    forall m | 0 <= m < |part| ensures (a + b)[|a| + start + m] == part[m] {
      assert (a + b)[|a| + (start + m)] == b[start + m];
    }
  }

  lemma {:induction false} PrefixLengthStep(parts: seq<string>, i: nat)
    requires i < |parts|
    ensures Offset(parts, i + 1) == Offset(parts, i) + |parts[i]|
    decreases i
  {
    if i == 0 {
      assert parts[..1] == [parts[0]];
      assert parts[..1][1..] == [];
      assert parts[..0] == [];
    } else {
      var rest := parts[1..];
      PrefixLengthStep(rest, i - 1);
      assert parts[..i + 1][1..] == rest[..i];
      assert parts[..i][1..] == rest[..i - 1];
      assert rest[i - 1] == parts[i];
    }
  }

  /** Later parts start after earlier ones end. */
  lemma {:induction false} OffsetsIncrease(parts: seq<string>, i: nat, j: nat)
    requires i < j <= |parts|
    ensures Offset(parts, i) + |parts[i]| <= Offset(parts, j)
    decreases j
  {
    PrefixLengthStep(parts, j - 1);
    if j > i + 1 {
      OffsetsIncrease(parts, i, j - 1);
    }
  }

  /** A slice of a slice is a slice of the whole. */
  lemma SliceInside(p: string, base: nat, c: string, off: nat, part: string)
    requires OccursAt(p, base, c) && OccursAt(c, off, part)
    ensures OccursAt(p, base + off, part)
  {
    forall m | 0 <= m < |part| ensures p[base + off + m] == part[m] {
      assert part[m] == c[off + m] == p[base + (off + m)];
    }
  }

  /** Everything before the first task. */
  function BeforeTasks(t: Template, text: string): string {
    Head(t) + text + (CloseDelimiter + TasksHeader)
  }

  /** Where task `i` begins in the prompt. */
  function TaskStart(t: Template, text: string, i: nat): nat
    requires i <= |t.tasks|
  {
    |BeforeTasks(t, text)| + Offset(t.tasks, i)
  }

  /** The prompt is the part before the tasks, the tasks, and the outro. */
  lemma PromptAroundTasks(t: Template, text: string)
    ensures BuildPrompt(t, text) == BeforeTasks(t, text) + Concat(t.tasks) + Outro
  {
    var a, b, c, d, e := Head(t), text, CloseDelimiter, TasksHeader, Concat(t.tasks);
    assert a + b + (c + (d + e + Outro)) == (a + b + (c + d)) + e + Outro;
  }

  /** `part` occurs in `p` starting at position `start`. */
  predicate OccursAt(p: string, start: nat, part: string) {
    start + |part| <= |p| && forall m :: 0 <= m < |part| ==> p[start + m] == part[m]
  }

  /** Every task line appears in the prompt after the text, and the tasks
      appear in their listed order without overlapping. */
  lemma TasksInOrder(t: Template, text: string, i: nat, j: nat)
    requires i < j < |t.tasks|
    ensures TaskStart(t, text, i) + |t.tasks[i]| <= TaskStart(t, text, j)
    ensures OccursAt(BuildPrompt(t, text), TaskStart(t, text, i), t.tasks[i])
    ensures OccursAt(BuildPrompt(t, text), TaskStart(t, text, j), t.tasks[j])
  {
    PromptAroundTasks(t, text);
    PartsInOrder(BeforeTasks(t, text), t.tasks, Outro, i, j);
  }

  /** The same, for any parts placed between any prefix and suffix. */
  lemma PartsInOrder(pre: string, parts: seq<string>, post: string, i: nat, j: nat)
    requires i < j < |parts|
    ensures Offset(parts, i) + |parts[i]| <= Offset(parts, j)
    ensures OccursAt(pre + Concat(parts) + post, |pre| + Offset(parts, i), parts[i])
    ensures OccursAt(pre + Concat(parts) + post, |pre| + Offset(parts, j), parts[j])
  {
    PartInside(pre, parts, post, i);
    PartInside(pre, parts, post, j);
    OffsetsIncrease(parts, i, j);
  }

  lemma PartInside(pre: string, parts: seq<string>, post: string, i: nat)
    requires i < |parts|
    ensures OccursAt(pre + Concat(parts) + post, |pre| + Offset(parts, i), parts[i])
  {
    MiddleOccurs(pre, Concat(parts), post);
    ConcatContainsPart(parts, i);
    SliceInside(pre + Concat(parts) + post, |pre|, Concat(parts), Offset(parts, i), parts[i]);
  }

  lemma MiddleOccurs(pre: string, c: string, post: string)
    ensures OccursAt(pre + c + post, |pre|, c)
  {
    var p := pre + c + post;
    forall m | 0 <= m < |c| ensures p[|pre| + m] == c[m] {
      assert p == pre + (c + post);
    }
  }
}
