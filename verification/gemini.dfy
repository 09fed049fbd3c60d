/** The analysis gateway: one request to the generative-AI service, then
    trim, parse, a shallow check of the six top-level fields, and either the
    parsed value, unchanged, or one fixed failure message.

    The service call is an input (`CallOutcome`): the network, the model
    name, the sampling temperature and the credential check are not part of
    the model. `JSON.parse` is an uninterpreted function `parse`, which
    answers `None` where it would throw a SyntaxError. */
module GeminiService {
  import opened Wrappers
  import opened JsString
  import opened Json
  import opened Schema
  import opened Prompt

  /** What the awaited `generateContent` call produced: a response, whose
      `text` accessor may be `undefined`, or a rejected promise. */
  datatype CallOutcome = Delivered(text: Option<string>) | CallFailed

  /** Why an analysis failed. The caller never sees this: every fault is
      reported with the same message. */
  datatype Fault =
    | TransportFault     // the call itself rejected
    | MissingText        // `response.text` was undefined, so `.trim()` threw
    | SyntaxFault        // `JSON.parse` threw
    | NullDereference    // the document was `null`, so reading a field threw
    | FormatMismatch     // one of the six checks failed

  const FailureMessage: string := "Failed to get a valid response from the AI. Please try again."

  /** The six checks, one conjunct per field in the order the source tests them. */
  predicate AllChecksPass(fields: seq<Field>) {
    && Truthy(Lookup(fields, "refinedContent"))
    && IsArray(Lookup(fields, "generatedQuestions"))
    && IsArray(Lookup(fields, "glossary"))
    && IsArray(Lookup(fields, "userAnswers"))
    && TypeOf(Lookup(fields, "energyFlows")) == "string"
    && IsArray(Lookup(fields, "chartData"))
  }

  /** The validator: read the six fields (reading from `null` throws) and
      reject the document if any check fails. */
  function Validate(v: Json): (r: Result<Json, Fault>)
    ensures r.Success? ==> r.value == v
    ensures r.Success? <==> v.Obj? && AllChecksPass(v.fields)
    ensures r.Failure? ==> r.error == (if v.Null? then NullDereference else FormatMismatch)
  {
    if v.Null? then Failure(NullDereference)
    else if
      || !Truthy(Get(v, "refinedContent").value)
      || !IsArray(Get(v, "generatedQuestions").value)
      || !IsArray(Get(v, "glossary").value)
      || !IsArray(Get(v, "userAnswers").value)
      || TypeOf(Get(v, "energyFlows").value) != "string"
      || !IsArray(Get(v, "chartData").value)
    then Failure(FormatMismatch)
    else Success(v)
  }

  /** Everything after the call returns: trim, parse, validate. */
  function Interpret(reply: CallOutcome, parse: string -> Option<Json>): (r: Result<Json, Fault>)
    ensures r.Success? <==>
      && reply.Delivered? && reply.text.Some?
      && parse(Trim(reply.text.value)).Some?
      && Validate(parse(Trim(reply.text.value)).value).Success?
    ensures r.Success? ==> r.value == parse(Trim(reply.text.value)).value
  {
    match reply
    case CallFailed => Failure(TransportFault)
    case Delivered(None) => Failure(MissingText)
    case Delivered(Some(text)) =>
      match parse(Trim(text))
      case None => Failure(SyntaxFault)
      case Some(v) => Validate(v)
  }

  /** The `catch` block: every fault becomes the same message, so no partial
      result and no fault detail ever reaches the caller. */
  function Report(r: Result<Json, Fault>): (out: Result<Json, string>)
    ensures out.Success? <==> r.Success?
    ensures out.Success? ==> out.value == r.value
    ensures out.Failure? ==> out.error == FailureMessage
  {
    match r
    case Success(v) => Success(v)
    case Failure(_) => Failure(FailureMessage)
  }

  /** What `analyzeContent` resolves or rejects with, given the reply. */
  function AnalyzeResponse(reply: CallOutcome, parse: string -> Option<Json>): (r: Result<Json, string>)
    ensures r.Failure? ==> r.error == FailureMessage
    ensures r.Success? <==>
      && reply.Delivered? && reply.text.Some?
      && parse(Trim(reply.text.value)).Some?
      && Validate(parse(Trim(reply.text.value)).value).Success?
    ensures r.Success? ==> r.value == parse(Trim(reply.text.value)).value
  {
    Report(Interpret(reply, parse))
  }

  /** `analyzeContent(text)`: one call, whose prompt embeds `text` in the
      template `t` (the service sends `AnalysisTemplate`); `service` stands
      for the generative-AI service answering that prompt. */
  function AnalyzeContent(t: Template, text: string, service: string -> CallOutcome, parse: string -> Option<Json>): (r: Result<Json, string>)
    ensures r.Failure? ==> r.error == FailureMessage
    ensures r.Success? ==> service(BuildPrompt(t, text)).Delivered?
  {
    AnalyzeResponse(service(BuildPrompt(t, text)), parse)
  }

  /** Whitespace around the response body never changes the outcome. */
  lemma PaddingIrrelevant(p: string, body: string, q: string, parse: string -> Option<Json>)
    requires AllWs(p) && AllWs(q)
    ensures Interpret(Delivered(Some(p + body + q)), parse) == Interpret(Delivered(Some(body)), parse)
  {
    TrimIgnoresPadding(p, body, q);
  }

  /** Member `p.name` is present and has the top-level kind `p` declares. */
  predicate ShallowMatch(fields: seq<Field>, p: Property) {
    Lookup(fields, p.name).Some? && HasKind(Lookup(fields, p.name).value, p.schema)
  }

  /** The validator accepts a document exactly when it is an object whose
      first declared field (`refinedContent`) is truthy and whose other five
      declared fields are present with the top-level kind the schema gives
      them. */
  lemma ValidateAgainstSchema(v: Json)
    ensures |ResponseSchema.properties| == 6
    ensures Validate(v).Success? <==>
      && v.Obj?
      && Truthy(Lookup(v.fields, ResponseSchema.properties[0].name))
      && forall j :: 1 <= j < 6 ==> ShallowMatch(v.fields, ResponseSchema.properties[j])
  {
    DeclaredTopLevel();
    if v.Obj? {
      ChecksAgainstDeclared(v.fields, ResponseSchema.properties);
    }
  }

  /** The declared top-level properties, in order. */
  lemma DeclaredTopLevel()
    ensures var props := ResponseSchema.properties;
      && |props| == 6
      && props[0].name == "refinedContent"
      && props[1].name == "generatedQuestions" && props[1].schema.ArrayOf?
      && props[2].name == "glossary" && props[2].schema.ArrayOf?
      && props[3].name == "userAnswers" && props[3].schema.ArrayOf?
      && props[4].name == "energyFlows" && props[4].schema == StringType
      && props[5].name == "chartData" && props[5].schema.ArrayOf?
  {
  }

  lemma ChecksAgainstDeclared(fields: seq<Field>, props: seq<Property>)
    requires |props| == 6
    requires props[0].name == "refinedContent"
    requires props[1].name == "generatedQuestions" && props[1].schema.ArrayOf?
    requires props[2].name == "glossary" && props[2].schema.ArrayOf?
    requires props[3].name == "userAnswers" && props[3].schema.ArrayOf?
    requires props[4].name == "energyFlows" && props[4].schema == StringType
    requires props[5].name == "chartData" && props[5].schema.ArrayOf?
    ensures AllChecksPass(fields) <==>
      Truthy(Lookup(fields, props[0].name)) && forall j :: 1 <= j < 6 ==> ShallowMatch(fields, props[j])
  {
    if Truthy(Lookup(fields, props[0].name)) && forall j :: 1 <= j < 6 ==> ShallowMatch(fields, props[j]) {
      assert ShallowMatch(fields, props[1]);
      assert ShallowMatch(fields, props[2]);
      assert ShallowMatch(fields, props[3]);
      assert ShallowMatch(fields, props[4]);
      assert ShallowMatch(fields, props[5]);
    }
  }

  /** A document that conforms to the schema and has non-empty
      `refinedContent` is accepted. */
  lemma ConformingAccepted(v: Json)
    requires Conforms(v, ResponseSchema)
    requires Lookup(v.fields, "refinedContent") != Some(Str(""))
    ensures Validate(v).Success?
  {
    var props := ResponseSchema.properties;
    ResponseRequiresSixFields();
    forall j | 0 <= j < 6 ensures ShallowMatch(v.fields, props[j]) {
      assert props[j].name == TopLevelKeys[j];
      assert props[j].name in ResponseSchema.required;
      ConformsHasKind(Lookup(v.fields, props[j].name).value, props[j].schema);
    }
    ValidateAgainstSchema(v);
    assert ShallowMatch(v.fields, props[0]) && props[0] == Property("refinedContent", StringType);
  }

  /** A member whose key is not one of the six is never looked at. */
  lemma ExtraMemberIgnored(fields: seq<Field>, extra: Field)
    requires extra.key !in TopLevelKeys
    ensures Validate(Obj(fields + [extra])) == (if Validate(Obj(fields)).Success? then Success(Obj(fields + [extra])) else Failure(FormatMismatch))
  {
    forall k | k in TopLevelKeys ensures Lookup(fields + [extra], k) == Lookup(fields, k) {
      LookupAppendOther(fields, extra, k);
    }
    assert "refinedContent" in TopLevelKeys && "generatedQuestions" in TopLevelKeys && "glossary" in TopLevelKeys;
    assert "userAnswers" in TopLevelKeys && "energyFlows" in TopLevelKeys && "chartData" in TopLevelKeys;
  }

  /** Array contents are never inspected: replacing the elements of any
      array-valued member by other elements never changes the verdict. */
  lemma ArrayContentsIgnored(fields: seq<Field>, i: nat, items: seq<Json>)
    requires i < |fields| && fields[i].value.Arr?
    ensures Validate(Obj(fields[i := Field(fields[i].key, Arr(items))])).Success?
        == Validate(Obj(fields)).Success?
  {
    var fields' := fields[i := Field(fields[i].key, Arr(items))];
    LookupReplaceArray(fields, i, items, "refinedContent");
    LookupReplaceArray(fields, i, items, "generatedQuestions");
    LookupReplaceArray(fields, i, items, "glossary");
    LookupReplaceArray(fields, i, items, "userAnswers");
    LookupReplaceArray(fields, i, items, "energyFlows");
    LookupReplaceArray(fields, i, items, "chartData");
    assert AllChecksPass(fields') <==> AllChecksPass(fields);
  }

  /** Two possibly-undefined values that are equal, or both arrays. */
  predicate ArrayLike(x: Option<Json>, y: Option<Json>) {
    x == y || (x.Some? && y.Some? && x.value.Arr? && y.value.Arr?)
  }

  lemma {:induction false} LookupReplaceArray(fields: seq<Field>, i: nat, items: seq<Json>, key: string)
    requires i < |fields| && fields[i].value.Arr?
    ensures ArrayLike(Lookup(fields[i := Field(fields[i].key, Arr(items))], key), Lookup(fields, key))
    decreases |fields|
  {
    var fields' := fields[i := Field(fields[i].key, Arr(items))];
    var n := |fields|;
    if i < n - 1 && fields[n - 1].key != key {
      assert fields'[..n - 1] == fields[..n - 1][i := Field(fields[i].key, Arr(items))];
      LookupReplaceArray(fields[..n - 1], i, items, key);
    } else if i == n - 1 && fields[n - 1].key != key {
      assert fields'[..n - 1] == fields[..n - 1];
    }
  }

  /** A document with the six fields in declaration order. */
  function Document(refined: Json, questions: Json, glossary: Json, answers: Json, flows: Json, chart: Json): Json {
    Obj([Field("refinedContent", refined), Field("generatedQuestions", questions),
         Field("glossary", glossary), Field("userAnswers", answers),
         Field("energyFlows", flows), Field("chartData", chart)])
  }

  /** Each field of a `Document` reads back as the value it was given. */
  lemma DocumentLookups(a: Json, b: Json, c: Json, d: Json, e: Json, f: Json)
    ensures var fs := Document(a, b, c, d, e, f).fields;
      && Lookup(fs, "refinedContent") == Some(a)
      && Lookup(fs, "generatedQuestions") == Some(b)
      && Lookup(fs, "glossary") == Some(c)
      && Lookup(fs, "userAnswers") == Some(d)
      && Lookup(fs, "energyFlows") == Some(e)
      && Lookup(fs, "chartData") == Some(f)
      && Lookup(fs[..5], "chartData") == None
  {
    var f1, f2, f3 := Field("refinedContent", a), Field("generatedQuestions", b), Field("glossary", c);
    var f4, f5, f6 := Field("userAnswers", d), Field("energyFlows", e), Field("chartData", f);
    var p1 := [f1];
    var p2 := p1 + [f2];
    var p3 := p2 + [f3];
    var p4 := p3 + [f4];
    var p5 := p4 + [f5];
    assert Document(a, b, c, d, e, f).fields == p5 + [f6];
    assert p5 == Document(a, b, c, d, e, f).fields[..5];
    LookupAppended(p1, f2);
    LookupAppended(p2, f3);
    LookupAppended(p3, f4);
    LookupAppended(p4, f5);
    LookupAppended(p5, f6);
    assert [f1][..0] == [];
    LookupAppendOther(p1, f2, "refinedContent");
    LookupAppendOther(p2, f3, "refinedContent");
    LookupAppendOther(p2, f3, "generatedQuestions");
    LookupAppendOther(p3, f4, "refinedContent");
    LookupAppendOther(p3, f4, "generatedQuestions");
    LookupAppendOther(p3, f4, "glossary");
    LookupAppendOther(p4, f5, "refinedContent");
    LookupAppendOther(p4, f5, "generatedQuestions");
    LookupAppendOther(p4, f5, "glossary");
    LookupAppendOther(p4, f5, "userAnswers");
    LookupAppendOther(p5, f6, "refinedContent");
    LookupAppendOther(p5, f6, "generatedQuestions");
    LookupAppendOther(p5, f6, "glossary");
    LookupAppendOther(p5, f6, "userAnswers");
    LookupAppendOther(p5, f6, "energyFlows");
    LookupFindsLast(p5, "chartData");
  }

  /** The asymmetry of the checks: an empty `energyFlows` passes, an empty
      `refinedContent` fails, and a `refinedContent` that is a non-zero
      number or an object passes although the schema declares a string. */
  lemma ChecksAsymmetry()
    ensures Validate(Document(Str("text"), Arr([]), Arr([]), Arr([]), Str(""), Arr([]))).Success?
    ensures Validate(Document(Str(""), Arr([]), Arr([]), Arr([]), Str("graph TD"), Arr([]))) == Failure(FormatMismatch)
    ensures Validate(Document(Num(1.0), Arr([]), Arr([]), Arr([]), Str(""), Arr([]))).Success?
    ensures Validate(Document(Obj([]), Arr([]), Arr([]), Arr([]), Str(""), Arr([]))).Success?
    ensures !Conforms(Document(Num(1.0), Arr([]), Arr([]), Arr([]), Str(""), Arr([])), ResponseSchema)
  {
    DocumentLookups(Str("text"), Arr([]), Arr([]), Arr([]), Str(""), Arr([]));
    DocumentLookups(Str(""), Arr([]), Arr([]), Arr([]), Str("graph TD"), Arr([]));
    DocumentLookups(Num(1.0), Arr([]), Arr([]), Arr([]), Str(""), Arr([]));
    DocumentLookups(Obj([]), Arr([]), Arr([]), Arr([]), Str(""), Arr([]));
    DeclaredTopLevel();
    assert ResponseSchema.properties[0] == Property("refinedContent", StringType);
  }

  /** Of two documents that differ only in `chartData`, one without it and
      one with an empty array there, and that pass the other five checks,
      the first fails with the fixed message and the second succeeds and
      comes back unchanged. */
  lemma ChartDataPresenceDecides(fields: seq<Field>, parse: string -> Option<Json>, without: string, with: string)
    requires Truthy(Lookup(fields, "refinedContent"))
    requires IsArray(Lookup(fields, "generatedQuestions")) && IsArray(Lookup(fields, "glossary"))
    requires IsArray(Lookup(fields, "userAnswers")) && TypeOf(Lookup(fields, "energyFlows")) == "string"
    requires Lookup(fields, "chartData").None?
    requires parse(Trim(without)) == Some(Obj(fields))
    requires parse(Trim(with)) == Some(Obj(fields + [Field("chartData", Arr([]))]))
    ensures AnalyzeResponse(Delivered(Some(without)), parse) == Failure(FailureMessage)
    ensures AnalyzeResponse(Delivered(Some(with)), parse) == Success(Obj(fields + [Field("chartData", Arr([]))]))
  {
    var f := Field("chartData", Arr([]));
    assert !AllChecksPass(fields);
    AppendedChartDataPasses(fields);
    ParsedVerdict(without, parse, Obj(fields));
    ParsedVerdict(with, parse, Obj(fields + [f]));
  }

  /** Appending an empty chartData to such a document makes all six checks
      pass. */
  lemma AppendedChartDataPasses(fields: seq<Field>)
    requires Truthy(Lookup(fields, "refinedContent"))
    requires IsArray(Lookup(fields, "generatedQuestions")) && IsArray(Lookup(fields, "glossary"))
    requires IsArray(Lookup(fields, "userAnswers")) && TypeOf(Lookup(fields, "energyFlows")) == "string"
    ensures AllChecksPass(fields + [Field("chartData", Arr([]))])
  {
    var f := Field("chartData", Arr([]));
    LookupAppended(fields, f);
    LookupAppendOther(fields, f, "refinedContent");
    LookupAppendOther(fields, f, "generatedQuestions");
    LookupAppendOther(fields, f, "glossary");
    LookupAppendOther(fields, f, "userAnswers");
    LookupAppendOther(fields, f, "energyFlows");
  }

  /** The response whose trimmed text parses to the object `v` succeeds
      with `v` exactly when `v` passes the checks, and otherwise fails with
      the fixed message. */
  lemma ParsedVerdict(text: string, parse: string -> Option<Json>, v: Json)
    requires v.Obj? && parse(Trim(text)) == Some(v)
    ensures AnalyzeResponse(Delivered(Some(text)), parse) ==
      if AllChecksPass(v.fields) then Success(v) else Failure(FailureMessage)
  {
  }
}
