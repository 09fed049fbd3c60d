/** The JSON form of an `AnalysisResult`. The gateway hands back the parsed
    document cast to `AnalysisResult` without looking inside the arrays;
    `Decode` is the check the cast stands for, and `Encode` is the document a
    well-behaved generator would produce. */
module Codec {
  import opened Wrappers
  import opened Json
  import opened Types
  import opened GeminiService
  import opened Schema

  /** Encode every element of a sequence. */
  function EncodeAll<T>(xs: seq<T>, enc: T -> Json): (vs: seq<Json>)
    ensures |vs| == |xs|
    ensures forall i :: 0 <= i < |xs| ==> vs[i] == enc(xs[i])
    decreases |xs|
  {
    if |xs| == 0 then [] else [enc(xs[0])] + EncodeAll(xs[1..], enc)
  }

  /** Decode every element of a sequence; one failure fails the whole. */
  function DecodeAll<T>(vs: seq<Json>, dec: Json -> Option<T>): (r: Option<seq<T>>)
    ensures r.Some? <==> forall i :: 0 <= i < |vs| ==> dec(vs[i]).Some?
    ensures r.Some? ==> |r.value| == |vs| && forall i :: 0 <= i < |vs| ==> dec(vs[i]) == Some(r.value[i])
    decreases |vs|
  {
    if |vs| == 0 then Some([])
    else match (dec(vs[0]), DecodeAll(vs[1..], dec))
      case (Some(x), Some(rest)) =>
        assert forall i :: 1 <= i < |vs| ==> vs[i] == vs[1..][i - 1];
        Some([x] + rest)
      case (None, _) => None
      case (_, None) =>
        assert forall i :: 1 <= i < |vs| ==> vs[i] == vs[1..][i - 1];
        None
  }

  /** Element-wise round trips make a sequence round trip. */
  lemma DecodeAllEncodeAll<T>(xs: seq<T>, enc: T -> Json, dec: Json -> Option<T>)
    requires forall i :: 0 <= i < |xs| ==> dec(enc(xs[i])) == Some(xs[i])
    ensures DecodeAll(EncodeAll(xs, enc), dec) == Some(xs)
  {
    var r := DecodeAll(EncodeAll(xs, enc), dec);
    assert r.Some?;
    assert r.value == xs;
  }

  function EncodeString(s: string): Json { Str(s) }

  function DecodeString(v: Json): (r: Option<string>)
    ensures r.Some? <==> v.Str?
    ensures r.Some? ==> EncodeString(r.value) == v
  {
    if v.Str? then Some(v.s) else None
  }

  function EncodeGlossaryItem(g: GlossaryItem): Json {
    Obj([Field("term", Str(g.term)), Field("definition", Str(g.definition))])
  }

  /** An object with string `term` and `definition`; other members are
      allowed, as with any TypeScript interface. */
  function DecodeGlossaryItem(v: Json): (r: Option<GlossaryItem>)
    ensures r.Some? <==>
      v.Obj? && Lookup(v.fields, "term").Some? && Lookup(v.fields, "term").value.Str?
      && Lookup(v.fields, "definition").Some? && Lookup(v.fields, "definition").value.Str?
    ensures r.Some? ==>
      Lookup(v.fields, "term") == Some(Str(r.value.term)) && Lookup(v.fields, "definition") == Some(Str(r.value.definition))
  {
    if !v.Obj? then None
    else match (Lookup(v.fields, "term"), Lookup(v.fields, "definition"))
      case (Some(Str(t)), Some(Str(d))) => Some(GlossaryItem(t, d))
      case _ => None
  }

  function EncodeUserAnswer(a: UserAnswer): Json {
    Obj([Field("question", Str(a.question)), Field("answer", Str(a.answer))])
  }

  /** An object with string `question` and `answer`. */
  function DecodeUserAnswer(v: Json): (r: Option<UserAnswer>)
    ensures r.Some? <==>
      v.Obj? && Lookup(v.fields, "question").Some? && Lookup(v.fields, "question").value.Str?
      && Lookup(v.fields, "answer").Some? && Lookup(v.fields, "answer").value.Str?
    ensures r.Some? ==>
      Lookup(v.fields, "question") == Some(Str(r.value.question)) && Lookup(v.fields, "answer") == Some(Str(r.value.answer))
  {
    if !v.Obj? then None
    else match (Lookup(v.fields, "question"), Lookup(v.fields, "answer"))
      case (Some(Str(q)), Some(Str(a))) => Some(UserAnswer(q, a))
      case _ => None
  }

  function EncodeScalar(x: Scalar): Json {
    match x
    case Text(t) => Str(t)
    case Number(n) => Num(n)
  }

  function DecodeScalar(v: Json): (r: Option<Scalar>)
    ensures r.Some? <==> v.Str? || v.Num?
    ensures r.Some? ==> EncodeScalar(r.value) == v
  {
    match v
    case Str(t) => Some(Text(t))
    case Num(n) => Some(Number(n))
    case _ => None
  }

  function EncodeEntries(es: seq<Entry>): (fs: seq<Field>)
    ensures |fs| == |es|
    ensures forall i :: 0 <= i < |es| ==> fs[i] == Field(es[i].key, EncodeScalar(es[i].value))
    decreases |es|
  {
    if |es| == 0 then [] else [Field(es[0].key, EncodeScalar(es[0].value))] + EncodeEntries(es[1..])
  }

  function DecodeEntries(fs: seq<Field>): (r: Option<seq<Entry>>)
    ensures r.Some? <==> forall i :: 0 <= i < |fs| ==> DecodeScalar(fs[i].value).Some?
    ensures r.Some? ==> EncodeEntries(r.value) == fs
    decreases |fs|
  {
    if |fs| == 0 then Some([])
    else match (DecodeScalar(fs[0].value), DecodeEntries(fs[1..]))
      case (Some(x), Some(rest)) =>
        var es := [Entry(fs[0].key, x)] + rest;
        assert EncodeEntries(es) == [fs[0]] + fs[1..];
        Some(es)
      case (None, _) => None
      case (_, None) =>
        assert forall i :: 1 <= i < |fs| ==> fs[i] == fs[1..][i - 1];
        None
  }

  function EncodeRow(row: ChartDataItem): Json {
    Obj(EncodeEntries(row.entries))
  }

  /** A row as `JSON.parse` builds it from an object literal (a repeated
      key keeps its first place and its last value): every member a string
      or a number, and `name` a string. */
  function DecodeRow(v: Json): (r: Option<ChartDataItem>)
    ensures r.Some? <==> v.Obj? && DecodeEntries(Build(v.fields)).Some? && NameIsText(v.fields)
    ensures r.Some? ==> WellFormedRow(r.value) && EncodeRow(r.value) == Obj(Build(v.fields))
    ensures r.Some? ==> SameMembers(EncodeRow(r.value).fields, v.fields)
  {
    if !v.Obj? then None
    else
      var parsed := Build(v.fields);
      match DecodeEntries(parsed)
      case None => None
      case Some(es) =>
        RowOfMembers(v.fields, es);
        if WellFormedRow(ChartDataItem(es)) then Some(ChartDataItem(es)) else None
  }

  /** The member `name` holds a string. */
  predicate NameIsText(fs: seq<Field>) {
    Lookup(fs, "name").Some? && Lookup(fs, "name").value.Str?
  }


  /** Entries that encode to the members of a parsed literal form a row
      exactly when the literal's `name` holds a string. */
  lemma RowOfMembers(literal: seq<Field>, es: seq<Entry>)
    requires EncodeEntries(es) == Build(literal)
    ensures WellFormedRow(ChartDataItem(es)) <==> NameIsText(literal)
    ensures SameMembers(Build(literal), literal)
  {
    BuildLookup(literal);
    SameName(Build(literal), literal);
    RowIffName(Build(literal), es);
  }

  lemma SameName(a: seq<Field>, b: seq<Field>)
    requires SameMembers(a, b)
    ensures NameIsText(a) <==> NameIsText(b)
  {
    assert Lookup(a, "name") == Lookup(b, "name");
  }

  /** Entries that encode to members with distinct keys form a row exactly
      when `name` holds a string. */
  lemma RowIffName(fs: seq<Field>, es: seq<Entry>)
    requires DistinctKeys(fs) && EncodeEntries(es) == fs
    ensures WellFormedRow(ChartDataItem(es)) <==> NameIsText(fs)
  {
    EntryKeysDistinct(fs, es);
    if NameIsText(fs) {
      NameEntry(fs, es);
    }
    if exists i :: 0 <= i < |es| && es[i].key == "name" && es[i].value.Text? {
      NamedEntry(fs, es);
    }
  }

  lemma EntryKeysDistinct(fs: seq<Field>, es: seq<Entry>)
    requires DistinctKeys(fs) && EncodeEntries(es) == fs
    ensures Distinct(Keys(ChartDataItem(es)))
  {
    assert forall i :: 0 <= i < |es| ==> Keys(ChartDataItem(es))[i] == fs[i].key;
  }

  /** A string `name` among the members is an entry `name` holding text. */
  lemma NameEntry(fs: seq<Field>, es: seq<Entry>)
    requires EncodeEntries(es) == fs && NameIsText(fs)
    ensures exists i :: 0 <= i < |es| && es[i].key == "name" && es[i].value.Text?
  {
    LookupFindsLast(fs, "name");
    var i :| 0 <= i < |fs| && fs[i] == Field("name", Lookup(fs, "name").value)
             && forall j :: i < j < |fs| ==> fs[j].key != "name";
    assert EncodeScalar(es[i].value) == Lookup(fs, "name").value;
  }

  /** With distinct keys, an entry `name` holding text makes `name` a
      string among the members. */
  lemma NamedEntry(fs: seq<Field>, es: seq<Entry>)
    requires DistinctKeys(fs) && EncodeEntries(es) == fs
    requires exists i :: 0 <= i < |es| && es[i].key == "name" && es[i].value.Text?
    ensures NameIsText(fs)
  {
    var i :| 0 <= i < |es| && es[i].key == "name" && es[i].value.Text?;
    assert fs[i] == Field("name", Str(es[i].value.text));
    LookupFindsLast(fs, "name");
  }

  /** A literal that repeats a key parses to the key once, at its first
      place, with its last value. */
  lemma RepeatedKeyBuilt(a: Field, b: Field, c: Field)
    requires a.key != b.key && b.key == c.key
    ensures Build([a, b, c]) == [a, c]
  {
    assert [a, b][..1] == [a];
    assert Build([a]) == [] + [a] == [a];
    assert [a][..0] == [];
    assert Lookup([a], b.key).None?;
    assert Build([a, b]) == [a] + [b] == [a, b];
    assert [a, b, c][..2] == [a, b];
    assert Lookup([a, b], c.key).Some?;
    assert Replace([a, b], c) == [a] + [c];
  }

  /** The row of `{"name":"2025","Demand":1,"Demand":2}` is the row
      `{name: "2025", Demand: 2}`. */
  lemma RepeatedKeyRow()
    ensures DecodeRow(Obj([Field("name", Str("2025")), Field("Demand", Num(1.0)), Field("Demand", Num(2.0))]))
         == Some(ChartDataItem([Entry("name", Text("2025")), Entry("Demand", Number(2.0))]))
  {
    var a, b, c := Field("name", Str("2025")), Field("Demand", Num(1.0)), Field("Demand", Num(2.0));
    RepeatedKeyBuilt(a, b, c);
    var es := [Entry("name", Text("2025")), Entry("Demand", Number(2.0))];
    assert EncodeEntries(es) == [a, c];
    assert NameIsText([a, b, c]) by {
      assert [a, b, c][..2] == [a, b];
      assert [a, b][..1] == [a];
      assert Lookup([a, b, c], "name") == Lookup([a], "name") == Some(a.value);
    }
    DecodeRowOf([a, b, c], es);
  }

  /** A literal whose parsed members are the encoding of `es`, with a
      string `name`, decodes to the row of `es`. */
  lemma DecodeRowOf(literal: seq<Field>, es: seq<Entry>)
    requires EncodeEntries(es) == Build(literal) && NameIsText(literal)
    ensures DecodeRow(Obj(literal)) == Some(ChartDataItem(es))
  {
    EntriesRoundTrip(es);
    RowOfMembers(literal, es);
  }

  /** The document for a result: the six fields in declaration order. */
  function Encode(r: AnalysisResult): Json {
    Document(Str(r.refinedContent),
             Arr(EncodeAll(r.generatedQuestions, EncodeString)),
             Arr(EncodeAll(r.glossary, EncodeGlossaryItem)),
             Arr(EncodeAll(r.userAnswers, EncodeUserAnswer)),
             Str(r.energyFlows),
             Arr(EncodeAll(r.chartData, EncodeRow)))
  }

  function DecodeArray<T>(x: Option<Json>, dec: Json -> Option<T>): (r: Option<seq<T>>)
    ensures r.Some? ==> IsArray(x)
  {
    if IsArray(x) then DecodeAll(x.value.items, dec) else None
  }

  function DecodeText(x: Option<Json>): (r: Option<string>)
    ensures r.Some? <==> TypeOf(x) == "string"
    ensures r.Some? ==> x == Some(Str(r.value))
  {
    if x.Some? && x.value.Str? then Some(x.value.s) else None
  }

  /** Each of the six members has its declared type, down to the elements
      of the four arrays. */
  predicate ReadsAsResult(fs: seq<Field>) {
    && TypeOf(Lookup(fs, "refinedContent")) == "string"
    && DecodeArray(Lookup(fs, "generatedQuestions"), DecodeString).Some?
    && DecodeArray(Lookup(fs, "glossary"), DecodeGlossaryItem).Some?
    && DecodeArray(Lookup(fs, "userAnswers"), DecodeUserAnswer).Some?
    && TypeOf(Lookup(fs, "energyFlows")) == "string"
    && DecodeArray(Lookup(fs, "chartData"), DecodeRow).Some?
  }

  /** The document really is an `AnalysisResult`: an object whose six
      fields, and every element of its four arrays, have the declared
      types. */
  function Decode(v: Json): (r: Option<AnalysisResult>)
    ensures r.Some? <==> v.Obj? && ReadsAsResult(v.fields)
    ensures r.Some? ==>
      && Lookup(v.fields, "refinedContent") == Some(Str(r.value.refinedContent))
      && DecodeArray(Lookup(v.fields, "generatedQuestions"), DecodeString) == Some(r.value.generatedQuestions)
      && DecodeArray(Lookup(v.fields, "glossary"), DecodeGlossaryItem) == Some(r.value.glossary)
      && DecodeArray(Lookup(v.fields, "userAnswers"), DecodeUserAnswer) == Some(r.value.userAnswers)
      && Lookup(v.fields, "energyFlows") == Some(Str(r.value.energyFlows))
      && DecodeArray(Lookup(v.fields, "chartData"), DecodeRow) == Some(r.value.chartData)
    ensures r.Some? ==> WellFormed(r.value)
  {
    if !v.Obj? then None
    else
      var fs := v.fields;
      var a :- DecodeText(Lookup(fs, "refinedContent"));
      var b :- DecodeArray(Lookup(fs, "generatedQuestions"), DecodeString);
      var c :- DecodeArray(Lookup(fs, "glossary"), DecodeGlossaryItem);
      var d :- DecodeArray(Lookup(fs, "userAnswers"), DecodeUserAnswer);
      var e :- DecodeText(Lookup(fs, "energyFlows"));
      var f :- DecodeArray(Lookup(fs, "chartData"), DecodeRow);
      DecodedRowsWellFormed(Lookup(fs, "chartData").value.items, f);
      Some(AnalysisResult(a, b, c, d, e, f))
  }

  /** Rows decoded one by one are well formed. */
  lemma DecodedRowsWellFormed(items: seq<Json>, rows: seq<ChartDataItem>)
    requires |rows| == |items| && forall i :: 0 <= i < |items| ==> DecodeRow(items[i]) == Some(rows[i])
    ensures forall i :: 0 <= i < |rows| ==> WellFormedRow(rows[i])
  {
  }

  lemma GlossaryItemRoundTrip(g: GlossaryItem)
    ensures DecodeGlossaryItem(EncodeGlossaryItem(g)) == Some(g)
  {
    var a, b := Field("term", Str(g.term)), Field("definition", Str(g.definition));
    assert EncodeGlossaryItem(g).fields == [a] + [b];
    LookupAppended([a], b);
    LookupAppendOther([a], b, "term");
    LookupAppended([], a);
    assert [] + [a] == [a];
  }

  lemma UserAnswerRoundTrip(x: UserAnswer)
    ensures DecodeUserAnswer(EncodeUserAnswer(x)) == Some(x)
  {
    var a, b := Field("question", Str(x.question)), Field("answer", Str(x.answer));
    assert EncodeUserAnswer(x).fields == [a] + [b];
    LookupAppended([a], b);
    LookupAppendOther([a], b, "question");
    LookupAppended([], a);
    assert [] + [a] == [a];
  }

  lemma {:induction false} EntriesRoundTrip(es: seq<Entry>)
    ensures DecodeEntries(EncodeEntries(es)) == Some(es)
    decreases |es|
  {
    if |es| > 0 {
      var fs := EncodeEntries(es);
      var tail := EncodeEntries(es[1..]);
      assert fs == [Field(es[0].key, EncodeScalar(es[0].value))] + tail;
      assert fs[1..] == tail;
      EntriesRoundTrip(es[1..]);
      assert DecodeScalar(fs[0].value) == Some(es[0].value);
      assert DecodeEntries(fs) == Some([Entry(fs[0].key, es[0].value)] + es[1..]);
      assert [Entry(es[0].key, es[0].value)] + es[1..] == es;
    }
  }

  lemma RowRoundTrip(row: ChartDataItem)
    requires WellFormedRow(row)
    ensures DecodeRow(EncodeRow(row)) == Some(row)
  {
    var fs := EncodeEntries(row.entries);
    assert forall i :: 0 <= i < |fs| ==> fs[i].key == Keys(row)[i];
    BuildDistinct(fs);
    RowOfMembers(fs, row.entries);
    DecodeRowOf(fs, row.entries);
  }

  /** Decoding undoes encoding for every well-formed result. */
  lemma DecodeEncode(r: AnalysisResult)
    requires WellFormed(r)
    ensures Decode(Encode(r)) == Some(r)
  {
    DecodeAllEncodeAll(r.generatedQuestions, EncodeString, DecodeString);
    GlossaryRoundTrip(r.glossary);
    AnswersRoundTrip(r.userAnswers);
    RowsRoundTrip(r.chartData);
    DecodeOfParts(r, EncodeAll(r.generatedQuestions, EncodeString), EncodeAll(r.glossary, EncodeGlossaryItem),
                  EncodeAll(r.userAnswers, EncodeUserAnswer), EncodeAll(r.chartData, EncodeRow));
  }

  lemma GlossaryRoundTrip(xs: seq<GlossaryItem>)
    ensures DecodeAll(EncodeAll(xs, EncodeGlossaryItem), DecodeGlossaryItem) == Some(xs)
  {
    forall i | 0 <= i < |xs| ensures DecodeGlossaryItem(EncodeGlossaryItem(xs[i])) == Some(xs[i]) {
      GlossaryItemRoundTrip(xs[i]);
    }
    DecodeAllEncodeAll(xs, EncodeGlossaryItem, DecodeGlossaryItem);
  }

  lemma AnswersRoundTrip(xs: seq<UserAnswer>)
    ensures DecodeAll(EncodeAll(xs, EncodeUserAnswer), DecodeUserAnswer) == Some(xs)
  {
    forall i | 0 <= i < |xs| ensures DecodeUserAnswer(EncodeUserAnswer(xs[i])) == Some(xs[i]) {
      UserAnswerRoundTrip(xs[i]);
    }
    DecodeAllEncodeAll(xs, EncodeUserAnswer, DecodeUserAnswer);
  }

  lemma RowsRoundTrip(xs: seq<ChartDataItem>)
    requires forall i :: 0 <= i < |xs| ==> WellFormedRow(xs[i])
    ensures DecodeAll(EncodeAll(xs, EncodeRow), DecodeRow) == Some(xs)
  {
    forall i | 0 <= i < |xs| ensures DecodeRow(EncodeRow(xs[i])) == Some(xs[i]) {
      RowRoundTrip(xs[i]);
    }
    DecodeAllEncodeAll(xs, EncodeRow, DecodeRow);
  }

  /** A document whose four arrays decode to the result's arrays decodes to
      the result. */
  lemma DecodeOfParts(r: AnalysisResult, qs: seq<Json>, gs: seq<Json>, ans: seq<Json>, rows: seq<Json>)
    requires DecodeAll(qs, DecodeString) == Some(r.generatedQuestions)
    requires DecodeAll(gs, DecodeGlossaryItem) == Some(r.glossary)
    requires DecodeAll(ans, DecodeUserAnswer) == Some(r.userAnswers)
    requires DecodeAll(rows, DecodeRow) == Some(r.chartData)
    ensures Decode(Document(Str(r.refinedContent), Arr(qs), Arr(gs), Arr(ans), Str(r.energyFlows), Arr(rows))) == Some(r)
  {
    DocumentLookups(Str(r.refinedContent), Arr(qs), Arr(gs), Arr(ans), Str(r.energyFlows), Arr(rows));
    DecodeFromFields(Document(Str(r.refinedContent), Arr(qs), Arr(gs), Arr(ans), Str(r.energyFlows), Arr(rows)).fields,
                     r, qs, gs, ans, rows);
  }

  lemma DecodeArrayOf<T>(items: seq<Json>, dec: Json -> Option<T>, out: seq<T>)
    requires DecodeAll(items, dec) == Some(out)
    ensures DecodeArray(Some(Arr(items)), dec) == Some(out)
  {
  }

  /** An object whose six fields hold the parts of `r` decodes to `r`. */
  lemma DecodeFromFields(fs: seq<Field>, r: AnalysisResult, qs: seq<Json>, gs: seq<Json>, ans: seq<Json>, rows: seq<Json>)
    requires Lookup(fs, "refinedContent") == Some(Str(r.refinedContent))
    requires Lookup(fs, "generatedQuestions") == Some(Arr(qs)) && DecodeAll(qs, DecodeString) == Some(r.generatedQuestions)
    requires Lookup(fs, "glossary") == Some(Arr(gs)) && DecodeAll(gs, DecodeGlossaryItem) == Some(r.glossary)
    requires Lookup(fs, "userAnswers") == Some(Arr(ans)) && DecodeAll(ans, DecodeUserAnswer) == Some(r.userAnswers)
    requires Lookup(fs, "energyFlows") == Some(Str(r.energyFlows))
    requires Lookup(fs, "chartData") == Some(Arr(rows)) && DecodeAll(rows, DecodeRow) == Some(r.chartData)
    ensures Decode(Obj(fs)) == Some(r)
  {
    DecodeArrayOf(qs, DecodeString, r.generatedQuestions);
    DecodeArrayOf(gs, DecodeGlossaryItem, r.glossary);
    DecodeArrayOf(ans, DecodeUserAnswer, r.userAnswers);
    DecodeArrayOf(rows, DecodeRow, r.chartData);
  }

  /** The gateway accepts the document of a result exactly when its
      `refinedContent` is non-empty; an empty `energyFlows` does not matter. */
  lemma EncodedVerdict(r: AnalysisResult)
    ensures Validate(Encode(r)).Success? <==> r.refinedContent != ""
  {
    DocumentLookups(Str(r.refinedContent),
                    Arr(EncodeAll(r.generatedQuestions, EncodeString)),
                    Arr(EncodeAll(r.glossary, EncodeGlossaryItem)),
                    Arr(EncodeAll(r.userAnswers, EncodeUserAnswer)),
                    Str(r.energyFlows),
                    Arr(EncodeAll(r.chartData, EncodeRow)));
  }

  /** Every document that really is a result with non-empty
      `refinedContent` passes the gateway's checks. */
  lemma TypedDocumentsPass(v: Json)
    requires Decode(v).Some? && Decode(v).value.refinedContent != ""
    ensures Validate(v).Success?
  {
  }

  /** The checks do not establish the type the gateway casts to: a question
      that is a number passes them. */
  lemma CastIsUnchecked()
    ensures var v := Document(Str("text"), Arr([Num(1.0)]), Arr([]), Arr([]), Str(""), Arr([]));
      Validate(v).Success? && Decode(v) == None
  {
    DocumentLookups(Str("text"), Arr([Num(1.0)]), Arr([]), Arr([]), Str(""), Arr([]));
  }

  /** A glossary entry decodes exactly when it conforms to the item schema
      the response declares for it. */
  lemma GlossaryItemConformance(v: Json)
    ensures Conforms(v, GlossaryItemSchema) <==> DecodeGlossaryItem(v).Some?
  {
    var props := GlossaryItemSchema.properties;
    assert props[0] == Property("term", StringType) && props[1] == Property("definition", StringType);
    assert "term" in GlossaryItemSchema.required && "definition" in GlossaryItemSchema.required;
  }

  /** An answer decodes exactly when it conforms to its item schema. */
  lemma UserAnswerConformance(v: Json)
    ensures Conforms(v, UserAnswerSchema) <==> DecodeUserAnswer(v).Some?
  {
    var props := UserAnswerSchema.properties;
    assert props[0] == Property("question", StringType) && props[1] == Property("answer", StringType);
    assert "question" in UserAnswerSchema.required && "answer" in UserAnswerSchema.required;
  }
}
