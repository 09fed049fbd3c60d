/** The value `JSON.parse` hands back, and the handful of JavaScript
    operators the response validator applies to it: property access,
    truthiness, `Array.isArray` and `typeof`. */
module Json {
  import opened Wrappers

  /** A parsed JSON document. Numbers are JavaScript doubles; `JSON.parse`
      never yields NaN, and -0 behaves like 0 for every operator used here,
      so `real` is enough. An object keeps its members in source order. */
  datatype Json =
    | Null
    | Bool(b: bool)
    | Num(n: real)
    | Str(s: string)
    | Arr(items: seq<Json>)
    | Obj(fields: seq<Field>)

  datatype Field = Field(key: string, value: Json)

  /** The member `key` of an object literal. When the source text repeats a
      key, `JSON.parse` keeps the last occurrence, so the search runs from the
      end. */
  function Lookup(fields: seq<Field>, key: string): Option<Json>
    decreases |fields|
  {
    if |fields| == 0 then None
    else if fields[|fields| - 1].key == key then Some(fields[|fields| - 1].value)
    else Lookup(fields[..|fields| - 1], key)
  }

  /** `Lookup` finds a member exactly when one has the key, and then it is
      the last member with that key. */
  lemma {:induction false} LookupFindsLast(fields: seq<Field>, key: string)
    ensures Lookup(fields, key).None? <==> forall i :: 0 <= i < |fields| ==> fields[i].key != key
    ensures Lookup(fields, key).Some? ==>
      exists i :: 0 <= i < |fields| && fields[i] == Field(key, Lookup(fields, key).value)
                  && forall j :: i < j < |fields| ==> fields[j].key != key
    decreases |fields|
  {
    if |fields| > 0 {
      var last := |fields| - 1;
      if fields[last].key == key {
        assert Lookup(fields, key) == Some(fields[last].value);
        assert fields[last] == Field(key, Lookup(fields, key).value);
      } else {
        var init := fields[..last];
        assert Lookup(fields, key) == Lookup(init, key);
        LookupFindsLast(init, key);
        assert forall i :: 0 <= i < last ==> init[i] == fields[i];
        if Lookup(init, key).Some? {
          var i :| 0 <= i < |init| && init[i] == Field(key, Lookup(init, key).value)
                   && forall j :: i < j < |init| ==> init[j].key != key;
          assert fields[i] == Field(key, Lookup(fields, key).value);
          assert forall j :: i < j < |fields| ==> fields[j].key != key;
        }
      }
    }
  }

  /** Reading any key of the two gives the same. */
  ghost predicate SameMembers(a: seq<Field>, b: seq<Field>) {
    forall key :: Lookup(a, key) == Lookup(b, key)
  }

  /** No key occurs twice. */
  predicate DistinctKeys(fields: seq<Field>) {
    forall i, j :: 0 <= i < j < |fields| ==> fields[i].key != fields[j].key
  }

  /** Overwrite the value of the last member with `f`'s key, keeping its
      place. */
  function Replace(fields: seq<Field>, f: Field): (r: seq<Field>)
    ensures |r| == |fields|
    ensures forall i :: 0 <= i < |fields| ==> r[i].key == fields[i].key
    decreases |fields|
  {
    if |fields| == 0 then []
    else
      var last := |fields| - 1;
      if fields[last].key == f.key then fields[..last] + [f]
      else Replace(fields[..last], f) + [fields[last]]
  }

  /** The property assignment `obj[f.key] = f.value` that `JSON.parse`
      performs for each member it reads: a new key is added after all the
      others, an existing one keeps its place and takes the new value. */
  function Assign(fields: seq<Field>, f: Field): (r: seq<Field>)
    ensures Lookup(fields, f.key).None? ==> r == fields + [f]
    ensures Lookup(fields, f.key).Some? ==>
      |r| == |fields| && forall i :: 0 <= i < |fields| ==> r[i].key == fields[i].key
  {
    if Lookup(fields, f.key).None? then fields + [f] else Replace(fields, f)
  }

  /** The object `JSON.parse` builds from the members of an object literal
      read in source order. */
  function Build(fields: seq<Field>): seq<Field>
    decreases |fields|
  {
    if |fields| == 0 then []
    else Assign(Build(fields[..|fields| - 1]), fields[|fields| - 1])
  }

  /** Overwriting the last member with a key changes that key's value and
      no other. */
  lemma {:induction false} LookupReplace(fields: seq<Field>, f: Field, key: string)
    requires Lookup(fields, f.key).Some?
    ensures Lookup(Replace(fields, f), key) == if key == f.key then Some(f.value) else Lookup(fields, key)
    decreases |fields|
  {
    var last := |fields| - 1;
    var init := fields[..last];
    if fields[last].key == f.key {
      assert Replace(fields, f) == init + [f];
      if key != f.key {
        LookupAppendOther(init, f, key);
      }
    } else {
      assert Replace(fields, f) == Replace(init, f) + [fields[last]];
      assert Lookup(fields, f.key) == Lookup(init, f.key);
      LookupReplace(init, f, key);
      assert (Replace(init, f) + [fields[last]])[..last] == Replace(init, f);
    }
  }

  /** After `obj[f.key] = f.value`, reading `f.key` gives `f.value` and
      reading any other key gives what it gave before. */
  lemma LookupAssign(fields: seq<Field>, f: Field, key: string)
    ensures Lookup(Assign(fields, f), key) == if key == f.key then Some(f.value) else Lookup(fields, key)
  {
    if Lookup(fields, f.key).None? {
      if key != f.key {
        LookupAppendOther(fields, f, key);
      }
    } else {
      LookupReplace(fields, f, key);
    }
  }

  /** Assignment never makes a key occur twice. */
  lemma AssignDistinct(fields: seq<Field>, f: Field)
    requires DistinctKeys(fields)
    ensures DistinctKeys(Assign(fields, f))
  {
    if Lookup(fields, f.key).None? {
      LookupFindsLast(fields, f.key);
      var r := fields + [f];
      assert forall i :: 0 <= i < |fields| ==> r[i] == fields[i];
    }
  }

  /** The object `JSON.parse` builds has every key once, and reading any
      key of it gives what reading the literal gives: the last value written
      under that key. */
  lemma {:induction false} BuildLookup(fields: seq<Field>)
    ensures DistinctKeys(Build(fields))
    ensures SameMembers(Build(fields), fields)
    decreases |fields|
  {
    if |fields| > 0 {
      var last := |fields| - 1;
      var init := fields[..last];
      BuildLookup(init);
      AssignDistinct(Build(init), fields[last]);
      forall key ensures Lookup(Build(fields), key) == Lookup(fields, key) {
        LookupAssign(Build(init), fields[last], key);
      }
    }
  }

  /** A literal whose keys are distinct parses to exactly its members. */
  lemma {:induction false} BuildDistinct(fields: seq<Field>)
    requires DistinctKeys(fields)
    ensures Build(fields) == fields
    decreases |fields|
  {
    if |fields| > 0 {
      var last := |fields| - 1;
      var init := fields[..last];
      assert DistinctKeys(init) by {
        assert forall i :: 0 <= i < last ==> init[i] == fields[i];
      }
      BuildDistinct(init);
      LookupFindsLast(init, fields[last].key);
      assert Lookup(init, fields[last].key).None?;
      assert init + [fields[last]] == fields;
    }
  }

  /** The outcome of evaluating `v.key` for a JavaScript value `v`. */
  datatype Access = Threw | Value(value: Option<Json>)

  /** `v.key`: reading a property of `null` throws a TypeError; a property
      that is not there reads as `undefined` (`None`). The keys this
      application reads are never properties of strings, numbers, booleans or
      arrays. */
  function Get(v: Json, key: string): (r: Access)
    ensures r.Threw? <==> v.Null?
    ensures v.Obj? ==> r == Value(Lookup(v.fields, key))
    ensures !v.Obj? && !v.Null? ==> r == Value(None)
  {
    match v
    case Null => Threw
    case Obj(fields) => Value(Lookup(fields, key))
    case _ => Value(None)
  }

  /** JavaScript truthiness of a possibly `undefined` value. */
  predicate Truthy(x: Option<Json>) {
    match x
    case None => false
    case Some(Null) => false
    case Some(Bool(b)) => b
    case Some(Num(n)) => n != 0.0
    case Some(Str(s)) => s != ""
    case Some(_) => true
  }

  /** `Array.isArray(x)`. */
  predicate IsArray(x: Option<Json>) {
    x.Some? && x.value.Arr?
  }

  /** `typeof x`. */
  function TypeOf(x: Option<Json>): string {
    match x
    case None => "undefined"
    case Some(Bool(_)) => "boolean"
    case Some(Num(_)) => "number"
    case Some(Str(_)) => "string"
    case Some(_) => "object"
  }

  /** Appending a member with another key leaves every other lookup alone. */
  lemma LookupAppendOther(fields: seq<Field>, f: Field, key: string)
    requires f.key != key
    ensures Lookup(fields + [f], key) == Lookup(fields, key)
  {
    assert (fields + [f])[..|fields + [f]| - 1] == fields;
  }

  /** The member appended last is the one found under its key. */
  lemma LookupAppended(fields: seq<Field>, f: Field)
    ensures Lookup(fields + [f], f.key) == Some(f.value)
  {
  }

  /** The falsy values of JavaScript that a parsed member can be:
      `undefined`, `null`, `false`, `0` and `""`. */
  lemma FalsyValues(x: Option<Json>)
    ensures !Truthy(x) <==>
      x == None || x == Some(Null) || x == Some(Bool(false)) || x == Some(Num(0.0)) || x == Some(Str(""))
  {
  }

  /** Arrays are objects to `typeof`, and only arrays pass `Array.isArray`. */
  lemma ArraysAreObjects(x: Option<Json>)
    ensures IsArray(x) <==> x.Some? && x.value.Arr?
    ensures IsArray(x) ==> TypeOf(x) == "object"
  {
  }

  /** `typeof x === 'string'` singles out exactly the strings. */
  lemma TypeOfString(x: Option<Json>)
    ensures TypeOf(x) == "string" <==> x.Some? && x.value.Str?
  {
  }
}
