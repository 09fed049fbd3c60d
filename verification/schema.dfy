/** The structured-output schema sent with every request: the declarative
    description of the response shape the generator is asked to produce.
    Field descriptions (natural-language hints for the generator) are not
    part of the model. */
module Schema {
  import opened Wrappers
  import opened Json

  datatype Schema =
    | StringType
    | NumberType
    | ArrayOf(items: Schema)
    | ObjectOf(properties: seq<Property>, required: seq<string>)

  datatype Property = Property(name: string, schema: Schema)

  const GlossaryItemSchema: Schema :=
    ObjectOf([Property("term", StringType), Property("definition", StringType)],
             ["term", "definition"])

  const UserAnswerSchema: Schema :=
    ObjectOf([Property("question", StringType), Property("answer", StringType)],
             ["question", "answer"])

  const ChartRowSchema: Schema :=
    ObjectOf([Property("name", StringType), Property("Demand", NumberType),
              Property("Capacity", NumberType), Property("Surplus", NumberType)],
             ["name", "Demand", "Capacity", "Surplus"])

  /** The six top-level fields of an analysis, in declaration order. */
  const TopLevelKeys: seq<string> :=
    ["refinedContent", "generatedQuestions", "glossary", "userAnswers", "energyFlows", "chartData"]

  const ResponseSchema: Schema :=
    ObjectOf([Property("refinedContent", StringType),
              Property("generatedQuestions", ArrayOf(StringType)),
              Property("glossary", ArrayOf(GlossaryItemSchema)),
              Property("userAnswers", ArrayOf(UserAnswerSchema)),
              Property("energyFlows", StringType),
              Property("chartData", ArrayOf(ChartRowSchema))],
             TopLevelKeys)

  /** The schema declared for property `name` of an object schema. */
  function PropertySchema(s: Schema, name: string): (r: Option<Schema>)
    ensures r.Some? <==> s.ObjectOf? && exists j :: 0 <= j < |s.properties| && s.properties[j].name == name
    ensures r.Some? ==> exists j :: 0 <= j < |s.properties| && s.properties[j] == Property(name, r.value)
  {
    if !s.ObjectOf? then None else FindProperty(s.properties, name)
  }

  function FindProperty(props: seq<Property>, name: string): (r: Option<Schema>)
    ensures r.Some? <==> exists j :: 0 <= j < |props| && props[j].name == name
    ensures r.Some? ==> exists j :: 0 <= j < |props| && props[j] == Property(name, r.value)
  {
    if |props| == 0 then None
    else if props[0].name == name then Some(props[0].schema)
    else
      var r := FindProperty(props[1..], name);
      assert forall j :: 1 <= j < |props| ==> props[j] == props[1..][j - 1];
      r
  }

  /** The constructor a value must have to match a schema at the top level,
      without looking inside it. */
  predicate HasKind(v: Json, s: Schema) {
    match s
    case StringType => v.Str?
    case NumberType => v.Num?
    case ArrayOf(_) => v.Arr?
    case ObjectOf(_, _) => v.Obj?
  }

  /** Deep conformance: every required member present, every declared member
      that is present conforms to its declaration, every array element
      conforms to the item schema. Undeclared members are allowed. */
  predicate Conforms(v: Json, s: Schema)
    decreases s
  {
    match s
    case StringType => v.Str?
    case NumberType => v.Num?
    case ArrayOf(item) =>
      v.Arr? && forall i :: 0 <= i < |v.items| ==> Conforms(v.items[i], item)
    case ObjectOf(props, required) =>
      && v.Obj?
      && (forall k :: k in required ==> Lookup(v.fields, k).Some?)
      && forall j :: 0 <= j < |props| ==>
           (Lookup(v.fields, props[j].name).None? ||
            Conforms(Lookup(v.fields, props[j].name).value, props[j].schema))
  }

  /** Conformance implies the right top-level constructor. */
  lemma ConformsHasKind(v: Json, s: Schema)
    requires Conforms(v, s)
    ensures HasKind(v, s)
  {
  }

  /** The response must carry exactly the six analysis fields, each of them
      declared, and nothing else is required. */
  lemma ResponseRequiresSixFields()
    ensures ResponseSchema.required == TopLevelKeys
    ensures |TopLevelKeys| == 6
    ensures forall k :: k in TopLevelKeys ==> PropertySchema(ResponseSchema, k).Some?
    ensures forall i, j :: 0 <= i < j < |TopLevelKeys| ==> TopLevelKeys[i] != TopLevelKeys[j]
  {
    forall k | k in TopLevelKeys ensures PropertySchema(ResponseSchema, k).Some? {
      var props := ResponseSchema.properties;
      var j :| 0 <= j < 6 && TopLevelKeys[j] == k;
      assert props[j].name == k;
    }
  }

  /** The names of the declared properties, in order. */
  function Names(props: seq<Property>): (ns: seq<string>)
    ensures |ns| == |props|
    ensures forall i :: 0 <= i < |props| ==> ns[i] == props[i].name
    decreases |props|
  {
    if |props| == 0 then [] else [props[0].name] + Names(props[1..])
  }

  /** Every object schema of the response requires exactly the properties
      it declares, in declaration order, and the response nests the three
      item schemas under its three arrays of objects. */
  lemma EveryDeclaredPropertyRequired()
    ensures GlossaryItemSchema.required == Names(GlossaryItemSchema.properties)
    ensures UserAnswerSchema.required == Names(UserAnswerSchema.properties)
    ensures ChartRowSchema.required == Names(ChartRowSchema.properties)
    ensures ResponseSchema.required == Names(ResponseSchema.properties)
    ensures ResponseSchema.properties[2].schema == ArrayOf(GlossaryItemSchema)
    ensures ResponseSchema.properties[3].schema == ArrayOf(UserAnswerSchema)
    ensures ResponseSchema.properties[5].schema == ArrayOf(ChartRowSchema)
  {
    RequiredMatches(GlossaryItemSchema);
    RequiredMatches(UserAnswerSchema);
    RequiredMatches(ChartRowSchema);
    RequiredMatches(ResponseSchema);
  }

  lemma RequiredMatches(s: Schema)
    requires s.ObjectOf? && |s.required| == |s.properties|
    requires forall i :: 0 <= i < |s.properties| ==> s.required[i] == s.properties[i].name
    ensures s.required == Names(s.properties)
  {
  }
}
