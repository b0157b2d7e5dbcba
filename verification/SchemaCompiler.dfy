// json-schema-to-zod.ts: a JSON Schema subset compiled to a validator and a list of form fields.
// Keyword meanings follow JSON Schema Validation draft 2020-12, sections 6.1.1 (type), 6.1.2 (enum),
// 6.2.2 (maximum), 6.2.4 (minimum), 6.3.1 (maxLength), 6.3.2 (minLength) and 6.5.3 (required).
module SchemaCompiler {
  import opened Options
  import opened Json

  // ---------------------------------------------------------------------------
  // The target language: the zod combinators the compiler uses
  // ---------------------------------------------------------------------------

  datatype LengthCheck = MinLength(min: real) | MaxLength(max: real)
  datatype NumberCheck = IntCheck | MinCheck(min: real) | MaxCheck(max: real)

  datatype Zod =
    | ZString(lengths: seq<LengthCheck>)
    | ZNumber(checks: seq<NumberCheck>)
    | ZBoolean
    | ZRecord
    | ZEnum(values: seq<Json>)
    | ZLiterals(values: seq<Json>)
    | ZUnknown
    | ZOptional(inner: Zod)
    | ZBlankOptional(inner: Zod)

  predicate LengthOk(c: LengthCheck, n: nat) {
    match c
    case MinLength(min) => n as real >= min
    case MaxLength(max) => n as real <= max
  }

  predicate IsInteger(x: real) {
    x == x.Floor as real
  }

  predicate NumberOk(c: NumberCheck, x: real) {
    match c
    case IntCheck => IsInteger(x)
    case MinCheck(min) => x >= min
    case MaxCheck(max) => x <= max
  }

  // Does the validator accept a value, or undefined (None)?  ZEnum is z.enum, which admits strings only;
  // ZLiterals is a union of literals; ZBlankOptional reads "" as undefined and accepts that.
  predicate Accepts(z: Zod, v: Option<Json>) {
    match z
    case ZString(lengths) =>
      v.Some? && v.value.JStr? && forall c :: c in lengths ==> LengthOk(c, |v.value.str|)
    case ZNumber(checks) =>
      v.Some? && v.value.JNum? && forall c :: c in checks ==> NumberOk(c, v.value.num)
    case ZBoolean => v.Some? && v.value.JBool?
    case ZRecord => v.Some? && v.value.JObj?
    case ZEnum(values) => v.Some? && v.value.JStr? && v.value in values
    case ZLiterals(values) => v.Some? && v.value in values
    case ZUnknown => true
    case ZOptional(inner) => v == None || Accepts(inner, v)
    case ZBlankOptional(inner) => Cleaned(v) == None || Accepts(inner, v)
  }

  function Cleaned(v: Option<Json>): Option<Json> {
    if v == Some(JStr("")) then None else v
  }

  // What parsing returns for an accepted value.
  function Output(z: Zod, v: Option<Json>): Option<Json> {
    if z.ZBlankOptional? then Cleaned(v) else v
  }

  // z.object(shape): unknown keys are stripped, undefined results left out.
  predicate AcceptsObject(shape: seq<(string, Zod)>, data: Json) {
    data.JObj? && forall i :: 0 <= i < |shape| ==> Accepts(shape[i].1, Get(data.fields, shape[i].0))
  }

  function ParseObject(shape: seq<(string, Zod)>, data: seq<(string, Json)>): seq<(string, Json)> {
    if shape == [] then []
    else
      var v := Output(shape[0].1, Get(data, shape[0].0));
      (if v.Some? then [(shape[0].0, v.value)] else []) + ParseObject(shape[1..], data)
  }

  // ---------------------------------------------------------------------------
  // The compiler
  // ---------------------------------------------------------------------------

  datatype FieldKind = StringKind | NumberKind | IntegerKind | BooleanKind | EnumKind | ObjectKind

  datatype FormField = FormField(
    name: string, kind: FieldKind, required: bool, enumValues: Option<seq<Json>>, minimum: Option<real>, maximum: Option<real>)

  datatype SchemaError = NotAnObjectSchema | NotASchema(name: string) | HasRef(name: string) | IsArray(name: string)
                       | BadEnum(name: string) | BadType(name: string)

  datatype Result<+T> = Ok(value: T) | Err(error: SchemaError)

  datatype ConfigSchema = ConfigSchema(kind: Option<Json>, properties: seq<(string, Json)>, required: Option<Json>)

  type Prop = seq<(string, Json)>

  function NumberOrUndef(v: Option<Json>): Option<real> {
    if v.Some? && v.value.JNum? then Some(v.value.num) else None
  }

  predicate EnumMember(v: Json) {
    v.JStr? || v.JNum?
  }

  function Members(items: seq<Json>): (r: seq<Json>)
    ensures forall v :: v in r <==> v in items && EnumMember(v)
  {
    if items == [] then [] else (if EnumMember(items[0]) then [items[0]] else []) + Members(items[1..])
  }

  predicate HasEnum(p: Prop) {
    Get(p, "enum").Some? && Get(p, "enum").value.JArr?
  }

  function EnumItems(p: Prop): seq<Json> {
    if HasEnum(p) then Get(p, "enum").value.items else []
  }

  function StringZod(p: Prop, required: bool): Zod {
    var min, max := NumberOrUndef(Get(p, "minLength")), NumberOrUndef(Get(p, "maxLength"));
    ZString((if required then [MinLength(1.0)] else [])
            + (if min.Some? then [MinLength(min.value)] else [])
            + (if max.Some? then [MaxLength(max.value)] else []))
  }

  function NumberZod(p: Prop, integer: bool): Zod {
    var min, max := NumberOrUndef(Get(p, "minimum")), NumberOrUndef(Get(p, "maximum"));
    ZNumber((if integer then [IntCheck] else [])
            + (if min.Some? then [MinCheck(min.value)] else [])
            + (if max.Some? then [MaxCheck(max.value)] else []))
  }

  function ApplyOptional(z: Zod, required: bool): Zod {
    if required then z else ZBlankOptional(z)
  }

  function Plain(name: string, kind: FieldKind, required: bool): FormField {
    FormField(name, kind, required, None, None, None)
  }

  function ConvertProperty(name: string, p: Prop, required: bool): Result<(Zod, FormField)> {
    if HasEnum(p) then
      var values := Members(EnumItems(p));
      if values == [] then Err(BadEnum(name))
      else
        var z := if values[0].JStr? then ZEnum(values) else ZLiterals(values);
        Ok((ApplyOptional(z, required), FormField(name, EnumKind, required, Some(values), None, None)))
    else
      match Get(p, "type")
      case None =>
        Ok((if required then ZUnknown else ZOptional(ZUnknown), Plain(name, StringKind, required)))
      case Some(t) =>
        if t == JStr("string") then
          Ok((ApplyOptional(StringZod(p, required), required), Plain(name, StringKind, required)))
        else if t == JStr("number") || t == JStr("integer") then
          var integer := t == JStr("integer");
          Ok((ApplyOptional(NumberZod(p, integer), required),
              FormField(name, if integer then IntegerKind else NumberKind, required, None,
                        NumberOrUndef(Get(p, "minimum")), NumberOrUndef(Get(p, "maximum")))))
        else if t == JStr("boolean") then Ok((ApplyOptional(ZBoolean, required), Plain(name, BooleanKind, required)))
        else if t == JStr("object") then Ok((ApplyOptional(ZRecord, required), Plain(name, ObjectKind, required)))
        else Err(BadType(name))
  }

  predicate RequiredNames(required: Option<Json>, name: string) {
    required.Some? && required.value.JArr? && JStr(name) in required.value.items
  }

  function CompileProperty(name: string, raw: Json, required: bool): Result<(Zod, FormField)> {
    if !raw.JObj? then Err(NotASchema(name))
    else if Get(raw.fields, "$ref").Some? then Err(HasRef(name))
    else if Get(raw.fields, "type") == Some(JStr("array")) then Err(IsArray(name))
    else ConvertProperty(name, raw.fields, required)
  }

  datatype Conversion = Conversion(shape: seq<(string, Zod)>, fields: seq<FormField>)

  function CompileAll(properties: seq<(string, Json)>, required: Option<Json>): Result<Conversion> {
    if properties == [] then Ok(Conversion([], []))
    else
      var last := properties[|properties| - 1];
      match CompileAll(properties[..|properties| - 1], required)
      case Err(e) => Err(e)
      case Ok(c) =>
        match CompileProperty(last.0, last.1, RequiredNames(required, last.0))
        case Err(e) => Err(e)
        case Ok((z, f)) => Ok(Conversion(c.shape + [(last.0, z)], c.fields + [f]))
  }

  function Compile(schema: ConfigSchema): Result<Conversion> {
    if schema.kind != Some(JStr("object")) then Err(NotAnObjectSchema)
    else CompileAll(schema.properties, schema.required)
  }

  // The loop of jsonSchemaToZod.
  method JsonSchemaToZod(schema: ConfigSchema) returns (result: Result<Conversion>)
    ensures result == Compile(schema)
  {
    if schema.kind != Some(JStr("object")) {
      return Err(NotAnObjectSchema);
    }
    var shape, fields := [], [];
    for i := 0 to |schema.properties|
      invariant CompileAll(schema.properties[..i], schema.required) == Ok(Conversion(shape, fields))
    {
      var (name, raw) := schema.properties[i];
      assert schema.properties[..i + 1][..i] == schema.properties[..i];
      var property := CompileProperty(name, raw, RequiredNames(schema.required, name));
      if property.Err? {
        ErrorsPropagate(schema.properties, schema.required, i + 1);
        return Err(property.error);
      }
      shape := shape + [(name, property.value.0)];
      fields := fields + [property.value.1];
    }
    assert schema.properties[..|schema.properties|] == schema.properties;
    result := Ok(Conversion(shape, fields));
  }

  lemma {:induction false} ErrorsPropagate(properties: seq<(string, Json)>, required: Option<Json>, n: nat)
    requires n <= |properties| && CompileAll(properties[..n], required).Err?
    ensures CompileAll(properties, required) == CompileAll(properties[..n], required)
    decreases |properties| - n
  {
    if n == |properties| {
      assert properties[..n] == properties;
    } else {
      assert properties[..n + 1][..n] == properties[..n];
      ErrorsPropagate(properties, required, n + 1);
    }
  }

  // ---------------------------------------------------------------------------
  // The source language: what the keywords mean
  // ---------------------------------------------------------------------------

  // None of the compiler's helpers is used here, only the look-up of a keyword.
  predicate Whole(n: int, x: real) {
    n as real == x
  }

  ghost predicate HasType(t: Json, v: Json) {
    (t == JStr("string") && v.JStr?) || (t == JStr("boolean") && v.JBool?) || (t == JStr("object") && v.JObj?) ||
    (t == JStr("number") && v.JNum?) || (t == JStr("integer") && v.JNum? && exists n :: Whole(n, v.num))
  }

  // A lower and an upper bound; one that is not a number is no bound.
  ghost predicate AtLeast(p: Prop, key: string, x: real) {
    var keyword: Option<Json> := Get(p, key);
    match keyword
    case Some(JNum(bound)) => x >= bound
    case _ => true
  }

  ghost predicate AtMost(p: Prop, key: string, x: real) {
    var keyword: Option<Json> := Get(p, key);
    match keyword
    case Some(JNum(bound)) => x <= bound
    case _ => true
  }

  // A bound constrains values of its own kind only.
  ghost predicate TypeAndBounds(p: Prop, v: Json) {
    && (forall t :: Get(p, "type") == Some(t) ==> HasType(t, v))
    && (v.JStr? ==> AtLeast(p, "minLength", |v.str| as real) && AtMost(p, "maxLength", |v.str| as real))
    && (v.JNum? ==> AtLeast(p, "minimum", v.num) && AtMost(p, "maximum", v.num))
  }

  ghost predicate Enumerated(p: Prop) {
    exists items :: Get(p, "enum") == Some(JArr(items))
  }

  // v is one of the values the enum lists.
  ghost predicate ListedValue(p: Prop, v: Json) {
    exists items :: Get(p, "enum") == Some(JArr(items)) && v in items
  }

  ghost predicate Satisfies(p: Prop, v: Json) {
    TypeAndBounds(p, v) && (Enumerated(p) ==> ListedValue(p, v))
  }

  // The schema lists the name as required.
  ghost predicate Listed(required: Option<Json>, name: string) {
    exists items, k :: required == Some(JArr(items)) && 0 <= k < |items| && items[k] == JStr(name)
  }

  // What a form may submit for a property: a required one must be there and, if it is a plain string,
  // not be blank; an optional one may be absent or blank.
  ghost predicate Submittable(p: Prop, required: bool, v: Option<Json>) {
    if required then v.Some? && Satisfies(p, v.value) && (Enumerated(p) || v != Some(JStr("")))
    else v == None || v == Some(JStr("")) || Satisfies(p, v.value)
  }

  // The compiler reads the keywords in the same way.
  lemma ReadingsAgree(p: Prop, key: string, x: real)
    ensures AtLeast(p, key, x) <==> (NumberOrUndef(Get(p, key)).Some? ==> x >= NumberOrUndef(Get(p, key)).value)
    ensures AtMost(p, key, x) <==> (NumberOrUndef(Get(p, key)).Some? ==> x <= NumberOrUndef(Get(p, key)).value)
  {
  }

  lemma EnumsAgree(p: Prop, v: Json)
    ensures Enumerated(p) <==> HasEnum(p)
    ensures ListedValue(p, v) <==> v in EnumItems(p)
  {
    if HasEnum(p) {
      assert Get(p, "enum") == Some(JArr(EnumItems(p)));
    }
  }

  lemma ListingsAgree(required: Option<Json>, name: string)
    ensures Listed(required, name) <==> RequiredNames(required, name)
  {
    if RequiredNames(required, name) {
      assert required == Some(JArr(required.value.items));
      var k :| 0 <= k < |required.value.items| && required.value.items[k] == JStr(name);
    }
  }

  lemma IntegersAgree(x: real)
    ensures (exists n :: Whole(n, x)) <==> IsInteger(x)
  {
    if IsInteger(x) {
      assert Whole(x.Floor, x);
    }
  }

  // ---------------------------------------------------------------------------
  // The compiler succeeds exactly on the supported subset
  // ---------------------------------------------------------------------------

  predicate KnownType(t: Json) {
    t in {JStr("string"), JStr("number"), JStr("integer"), JStr("boolean"), JStr("object")}
  }

  ghost predicate SupportedProperty(raw: Json) {
    && raw.JObj?
    && Get(raw.fields, "$ref") == None
    && Get(raw.fields, "type") != Some(JStr("array"))
    && (if Enumerated(raw.fields) then exists v :: ListedValue(raw.fields, v) && (v.JStr? || v.JNum?)
        else forall t :: Get(raw.fields, "type") == Some(t) ==> KnownType(t))
  }

  lemma PropertyCompilesIffSupported(name: string, raw: Json, required: bool)
    ensures CompileProperty(name, raw, required).Ok? <==> SupportedProperty(raw)
  {
    if raw.JObj? {
      EnumsAgree(raw.fields, JNull);
      if HasEnum(raw.fields) {
        var items := EnumItems(raw.fields);
        if Members(items) != [] {
          var v := Members(items)[0];
          assert v in items && EnumMember(v);
          EnumsAgree(raw.fields, v);
        }
        if v :| ListedValue(raw.fields, v) && (v.JStr? || v.JNum?) {
          EnumsAgree(raw.fields, v);
          assert v in Members(items);
        }
      }
    }
  }

  lemma {:induction false} AllCompileIffSupported(properties: seq<(string, Json)>, required: Option<Json>)
    ensures CompileAll(properties, required).Ok? <==> forall i :: 0 <= i < |properties| ==> SupportedProperty(properties[i].1)
  {
    if properties != [] {
      var n := |properties| - 1;
      AllCompileIffSupported(properties[..n], required);
      PropertyCompilesIffSupported(properties[n].0, properties[n].1, RequiredNames(required, properties[n].0));
      assert forall i :: 0 <= i < n ==> properties[..n][i] == properties[i];
    }
  }

  lemma CompilesIffSupported(schema: ConfigSchema)
    ensures Compile(schema).Ok? <==>
              && schema.kind == Some(JStr("object"))
              && forall i :: 0 <= i < |schema.properties| ==> SupportedProperty(schema.properties[i].1)
  {
    AllCompileIffSupported(schema.properties, schema.required);
  }

  // Why a property is refused.
  ghost function RefusedAs(name: string, raw: Json): SchemaError {
    if !raw.JObj? then NotASchema(name)
    else if Get(raw.fields, "$ref") != None then HasRef(name)
    else if Get(raw.fields, "type") == Some(JStr("array")) then IsArray(name)
    else if Enumerated(raw.fields) then BadEnum(name)
    else BadType(name)
  }

  lemma PropertyRefusedAs(name: string, raw: Json, required: bool)
    requires !SupportedProperty(raw)
    ensures CompileProperty(name, raw, required) == Err(RefusedAs(name, raw))
  {
    PropertyCompilesIffSupported(name, raw, required);
    if raw.JObj? {
      EnumsAgree(raw.fields, JNull);
    }
  }

  // A schema that is not compiled is refused for its kind, or for its first unsupported property.
  lemma {:induction false} RefusedForFirst(schema: ConfigSchema, i: nat)
    ensures schema.kind != Some(JStr("object")) ==> Compile(schema) == Err(NotAnObjectSchema)
    ensures schema.kind == Some(JStr("object")) && i < |schema.properties| && !SupportedProperty(schema.properties[i].1) &&
            (forall j :: 0 <= j < i ==> SupportedProperty(schema.properties[j].1)) ==>
              Compile(schema) == Err(RefusedAs(schema.properties[i].0, schema.properties[i].1))
  {
    if i < |schema.properties| && !SupportedProperty(schema.properties[i].1) &&
       (forall j :: 0 <= j < i ==> SupportedProperty(schema.properties[j].1)) {
      hide SupportedProperty, CompileProperty;
      var (properties, required) := (schema.properties, schema.required);
      AllCompileIffSupported(properties[..i], required);
      PropertyRefusedAs(properties[i].0, properties[i].1, RequiredNames(required, properties[i].0));
      assert properties[..i + 1][..i] == properties[..i];
      ErrorsPropagate(properties, required, i + 1);
    }
  }

  lemma {:induction false} CompiledAt(properties: seq<(string, Json)>, required: Option<Json>, i: nat)
    requires CompileAll(properties, required).Ok? && i < |properties|
    ensures var c := CompileAll(properties, required).value;
            && |c.shape| == |c.fields| == |properties|
            && c.shape[i].0 == properties[i].0
            && CompileProperty(properties[i].0, properties[i].1, RequiredNames(required, properties[i].0))
               == Ok((c.shape[i].1, c.fields[i]))
  {
    var n := |properties| - 1;
    if n > 0 {
      CompiledAt(properties[..n], required, if i < n then i else 0);
    }
  }

  // ---------------------------------------------------------------------------
  // Compilation preserves meaning
  // ---------------------------------------------------------------------------

  lemma StringMeaning(p: Prop, required: bool, v: Json)
    requires Get(p, "type") == Some(JStr("string")) && !Enumerated(p)
    ensures Accepts(StringZod(p, required), Some(v)) <==> Satisfies(p, v) && (required ==> v != JStr(""))
  {
    if v.JStr? {
      ReadingsAgree(p, "minLength", |v.str| as real);
      ReadingsAgree(p, "maxLength", |v.str| as real);
    }
    hide AtLeast, AtMost;
    var z := StringZod(p, required);
    var min, max := NumberOrUndef(Get(p, "minLength")), NumberOrUndef(Get(p, "maxLength"));
    assert required ==> MinLength(1.0) in z.lengths;
    assert min.Some? ==> MinLength(min.value) in z.lengths;
    assert max.Some? ==> MaxLength(max.value) in z.lengths;
    assert v.JStr? && |v.str| == 0 ==> v == JStr("");
  }

  lemma NumberMeaning(p: Prop, integer: bool, v: Json)
    requires Get(p, "type") == Some(JStr(if integer then "integer" else "number")) && !Enumerated(p)
    ensures Accepts(NumberZod(p, integer), Some(v)) <==> Satisfies(p, v)
  {
    if v.JNum? {
      ReadingsAgree(p, "minimum", v.num);
      ReadingsAgree(p, "maximum", v.num);
      IntegersAgree(v.num);
    }
    hide AtLeast, AtMost;
    var z := NumberZod(p, integer);
    var min, max := NumberOrUndef(Get(p, "minimum")), NumberOrUndef(Get(p, "maximum"));
    assert integer ==> IntCheck in z.checks;
    assert min.Some? ==> MinCheck(min.value) in z.checks;
    assert max.Some? ==> MaxCheck(max.value) in z.checks;
  }

  // The first string or number of the list is a number.
  ghost predicate LeadsWithNumber(items: seq<Json>) {
    exists i :: 0 <= i < |items| && items[i].JNum? && forall j :: 0 <= j < i ==> !items[j].JStr? && !items[j].JNum?
  }

  // The values an enum validator keeps: the strings, and the numbers if the list leads with one.
  ghost predicate KeptValue(p: Prop, v: Json) {
    exists items :: Get(p, "enum") == Some(JArr(items)) && v in items && (v.JStr? || (v.JNum? && LeadsWithNumber(items)))
  }

  // The enum keeps precisely the listed values that the other keywords of the property allow
  // (a blank does not matter where it counts as absent).
  ghost predicate EnumFaithful(p: Prop, required: bool) {
    forall v :: ListedValue(p, v) && (required || v != JStr("")) ==> (KeptValue(p, v) <==> TypeAndBounds(p, v))
  }

  lemma {:induction false} FirstMember(items: seq<Json>)
    requires Members(items) != []
    ensures Members(items)[0].JNum? <==> LeadsWithNumber(items)
    ensures Members(items)[0].JStr? || Members(items)[0].JNum?
  {
    if !EnumMember(items[0]) {
      FirstMember(items[1..]);
      LeadsLater(items);
      hide LeadsWithNumber;
    } else {
      assert Members(items)[0] == items[0];
    }
  }

  lemma LeadsLater(items: seq<Json>)
    requires items != [] && !items[0].JStr? && !items[0].JNum?
    ensures LeadsWithNumber(items) <==> LeadsWithNumber(items[1..])
  {
    var rest := items[1..];
    if LeadsWithNumber(rest) {
      var i :| 0 <= i < |rest| && rest[i].JNum? && forall j :: 0 <= j < i ==> !rest[j].JStr? && !rest[j].JNum?;
      assert items[i + 1] == rest[i] && forall j :: 1 <= j < i + 1 ==> items[j] == rest[j - 1];
    }
    if LeadsWithNumber(items) {
      var i :| 0 <= i < |items| && items[i].JNum? && forall j :: 0 <= j < i ==> !items[j].JStr? && !items[j].JNum?;
      assert rest[i - 1] == items[i] && forall j :: 0 <= j < i - 1 ==> rest[j] == items[j + 1];
    }
  }

  lemma EnumMeaning(p: Prop, v: Json)
    requires Enumerated(p) && Members(EnumItems(p)) != []
    ensures var values := Members(EnumItems(p));
            Accepts(if values[0].JStr? then ZEnum(values) else ZLiterals(values), Some(v)) <==> KeptValue(p, v)
  {
    EnumsAgree(p, v);
    FirstMember(EnumItems(p));
    assert Get(p, "enum") == Some(JArr(EnumItems(p)));
    hide LeadsWithNumber;
  }

  // A typed or enumerated property accepts what the schema allows, for every value; for an enum
  // this is so exactly when the enum is faithful to the other keywords.
  lemma PropertyPreservesMeaning(name: string, raw: Json, required: bool)
    requires SupportedProperty(raw) && (Enumerated(raw.fields) || Get(raw.fields, "type").Some?)
    ensures var z := CompileProperty(name, raw, required).value.0;
            (forall v :: Accepts(z, v) <==> Submittable(raw.fields, required, v)) <==>
            (Enumerated(raw.fields) ==> EnumFaithful(raw.fields, required))
  {
    PropertyCompilesIffSupported(name, raw, required);
    EnumsAgree(raw.fields, JNull);
    var p, z := raw.fields, CompileProperty(name, raw, required).value.0;
    if HasEnum(p) {
      EnumPreserves(name, raw, required);
    } else {
      forall v
        ensures Accepts(z, v) <==> Submittable(p, required, v)
      {
        TypedPreserves(name, raw, required, v);
      }
    }
  }

  lemma TypedPreserves(name: string, raw: Json, required: bool, v: Option<Json>)
    requires SupportedProperty(raw) && !Enumerated(raw.fields) && Get(raw.fields, "type").Some?
    requires CompileProperty(name, raw, required).Ok?
    ensures Accepts(CompileProperty(name, raw, required).value.0, v) <==> Submittable(raw.fields, required, v)
  {
    var p := raw.fields;
    EnumsAgree(p, JNull);
    hide AtLeast, AtMost, NumberZod, StringZod;
    if v.Some? {
      if Get(p, "type") == Some(JStr("string")) {
        StringMeaning(p, required, v.value);
      } else if Get(p, "type") == Some(JStr("number")) {
        NumberMeaning(p, false, v.value);
      } else if Get(p, "type") == Some(JStr("integer")) {
        NumberMeaning(p, true, v.value);
      }
    }
  }

  lemma EnumPreserves(name: string, raw: Json, required: bool)
    requires SupportedProperty(raw) && Enumerated(raw.fields) && CompileProperty(name, raw, required).Ok?
    ensures var z := CompileProperty(name, raw, required).value.0;
            (forall v :: Accepts(z, v) <==> Submittable(raw.fields, required, v)) <==> EnumFaithful(raw.fields, required)
  {
    var p, z := raw.fields, CompileProperty(name, raw, required).value.0;
    EnumsAgree(p, JNull);
    var values := Members(EnumItems(p));
    var inner := if values[0].JStr? then ZEnum(values) else ZLiterals(values);
    assert z == ApplyOptional(inner, required);
    forall v: Json
      ensures Accepts(inner, Some(v)) <==> KeptValue(p, v)
    {
      EnumMeaning(p, v);
    }
    hide KeptValue, ListedValue, TypeAndBounds, CompileProperty, EnumFaithful, Submittable;
    EnumValidatorFaithful(p, inner, required);
  }

  // A validator that keeps those values is right for an enum exactly when the enum is faithful.
  lemma EnumValidatorFaithful(p: Prop, inner: Zod, required: bool)
    requires Enumerated(p) && (inner.ZEnum? || inner.ZLiterals?)
    requires forall v: Json :: Accepts(inner, Some(v)) <==> KeptValue(p, v)
    ensures (forall v :: Accepts(ApplyOptional(inner, required), v) <==> Submittable(p, required, v)) <==> EnumFaithful(p, required)
  {
    assert forall v :: KeptValue(p, v) ==> ListedValue(p, v);
    hide KeptValue, ListedValue, TypeAndBounds, Enumerated;
    var z := ApplyOptional(inner, required);
    if EnumFaithful(p, required) {
      forall v
        ensures Accepts(z, v) <==> Submittable(p, required, v)
      {
      }
    } else {
      var v :| ListedValue(p, v) && (required || v != JStr("")) && !(KeptValue(p, v) <==> TypeAndBounds(p, v));
      assert !(Accepts(inner, Some(v)) <==> Satisfies(p, v));
      assert !(Accepts(z, Some(v)) <==> Submittable(p, required, Some(v)));
    }
  }

  // No bound excludes any value but the blank: only a minimum length of at most 1 may be there.
  ghost predicate BoundsIdle(p: Prop) {
    && (forall bound :: Get(p, "minLength") == Some(JNum(bound)) ==> bound <= 1.0)
    && (forall bound :: Get(p, "maxLength") != Some(JNum(bound)))
    && (forall bound :: Get(p, "minimum") != Some(JNum(bound)) && Get(p, "maximum") != Some(JNum(bound)))
  }

  lemma {:induction false} LongString(n: nat) returns (s: string)
    ensures |s| == n
  {
    s := "";
    if n > 0 {
      s := LongString(n - 1);
      s := s + "a";
    }
  }

  // A value, not blank, that some bound excludes.
  lemma BoundExcludes(p: Prop) returns (v: Json)
    requires !BoundsIdle(p)
    ensures !TypeAndBounds(p, v) && v != JStr("")
  {
    if bound :| Get(p, "minLength") == Some(JNum(bound)) && bound > 1.0 {
      v := JStr("a");
    } else if bound :| Get(p, "maxLength") == Some(JNum(bound)) {
      var s := LongString(if bound < 0.0 then 1 else bound.Floor + 1);
      v := JStr(s);
    } else if bound :| Get(p, "minimum") == Some(JNum(bound)) {
      v := JNum(bound - 1.0);
    } else {
      var bound :| Get(p, "maximum") == Some(JNum(bound));
      v := JNum(bound + 1.0);
    }
  }

  // A property with neither type nor enum is not checked at all, not even for presence; that is what the
  // schema says exactly when it is optional and its bounds exclude nothing.
  lemma UntypedAcceptsAnything(name: string, raw: Json, required: bool)
    requires SupportedProperty(raw) && !Enumerated(raw.fields) && Get(raw.fields, "type") == None
    ensures CompileProperty(name, raw, required).Ok?
    ensures var z := CompileProperty(name, raw, required).value.0;
            && (forall v :: Accepts(z, v))
            && ((forall v :: Accepts(z, v) <==> Submittable(raw.fields, required, v)) <==> !required && BoundsIdle(raw.fields))
  {
    EnumsAgree(raw.fields, JNull);
    var z := CompileProperty(name, raw, required).value.0;
    assert forall v :: Accepts(z, v);
    hide Accepts, TypeAndBounds, Enumerated;
    if required {
      assert Accepts(z, None) && !Submittable(raw.fields, required, None);
    } else if !BoundsIdle(raw.fields) {
      var v := BoundExcludes(raw.fields);
      assert !Submittable(raw.fields, required, Some(v));
      assert Accepts(z, Some(v));
    } else {
      forall v
        ensures Submittable(raw.fields, required, v)
      {
        if v.Some? && v.value != JStr("") {
          hide BoundsIdle;
          IdleAllows(raw.fields, v.value);
        }
      }
    }
  }

  lemma IdleAllows(p: Prop, v: Json)
    requires Get(p, "type") == None && BoundsIdle(p) && v != JStr("")
    ensures TypeAndBounds(p, v)
  {
  }

  // What a caller can check before compiling: the property is typed, or an enum in harmony with the
  // other keywords, or optional with bounds that exclude nothing.
  ghost predicate Faithful(raw: Json, required: bool) {
    raw.JObj? &&
    if Enumerated(raw.fields) then EnumFaithful(raw.fields, required)
    else Get(raw.fields, "type").Some? || (!required && BoundsIdle(raw.fields))
  }

  // One property's validator accepts exactly the submittable values if and only if it is faithful.
  lemma PropertyFaithfulIff(name: string, raw: Json, required: bool)
    requires SupportedProperty(raw)
    ensures CompileProperty(name, raw, required).Ok?
    ensures var z := CompileProperty(name, raw, required).value.0;
            (forall v :: Accepts(z, v) <==> Submittable(raw.fields, required, v)) <==> Faithful(raw, required)
  {
    PropertyCompilesIffSupported(name, raw, required);
    if Enumerated(raw.fields) || Get(raw.fields, "type").Some? {
      PropertyPreservesMeaning(name, raw, required);
    } else {
      UntypedAcceptsAnything(name, raw, required);
    }
  }

  // An enum that lists a text for an integer property: the validator takes the text, the schema nothing.
  lemma UnfaithfulEnum(required: bool)
    ensures var raw := JObj([("type", JStr("integer")), ("enum", JArr([JStr("a")]))]);
            SupportedProperty(raw) && !Faithful(raw, required) &&
            Accepts(CompileProperty("p", raw, required).value.0, Some(JStr("a"))) &&
            !Submittable(raw.fields, required, Some(JStr("a")))
  {
    var raw := JObj([("type", JStr("integer")), ("enum", JArr([JStr("a")]))]);
    assert |"type"| == |"enum"| && "type"[0] != "enum"[0];
    assert |"$ref"| == 4 && "$ref"[0] == '$' && "type"[0] == 't' && "enum"[0] == 'e';
    assert Get(raw.fields[1..], "enum") == Some(JArr([JStr("a")]));
    assert Get(raw.fields, "enum") == Some(JArr([JStr("a")]));
    assert Get(raw.fields[1..], "$ref") == None && Get(raw.fields, "$ref") == None;
    assert EnumItems(raw.fields) == [JStr("a")] && EnumMember(JStr("a"));
    assert JStr("a") in EnumItems(raw.fields);
    EnumsAgree(raw.fields, JStr("a"));
    PropertyCompilesIffSupported("p", raw, required);
    assert |"integer"| != |"array"|;
    assert !TypeAndBounds(raw.fields, JStr("a")) by {
      assert |"integer"| != |"string"| && |"integer"| != |"object"|;
      assert "integer"[0] != "boolean"[0];
    }
    EnumMeaning(raw.fields, JStr("a"));
  }

  // ---------------------------------------------------------------------------
  // Whole schemas
  // ---------------------------------------------------------------------------

  ghost predicate RequiredAt(schema: ConfigSchema, i: nat)
    requires i < |schema.properties|
  {
    Listed(schema.required, schema.properties[i].0)
  }

  // What the compiled validator and the schema say about the value of the i-th property.
  predicate AcceptsAt(schema: ConfigSchema, i: nat, v: Option<Json>)
    requires Compile(schema).Ok? && i < |schema.properties|
  {
    ShapeLength(schema.properties, schema.required);
    Accepts(Compile(schema).value.shape[i].1, v)
  }

  ghost predicate SubmittableAt(schema: ConfigSchema, i: nat, v: Option<Json>)
    requires i < |schema.properties|
  {
    schema.properties[i].1.JObj? && Submittable(schema.properties[i].1.fields, RequiredAt(schema, i), v)
  }

  // The object may be submitted: every property of the schema is submittable.
  ghost predicate SubmittableObject(schema: ConfigSchema, data: Json) {
    data.JObj? &&
    forall i :: 0 <= i < |schema.properties| ==> SubmittableAt(schema, i, Get(data.fields, schema.properties[i].0))
  }

  ghost predicate PreservesMeaning(schema: ConfigSchema)
    requires Compile(schema).Ok?
  {
    forall data :: AcceptsObject(Compile(schema).value.shape, data) <==> SubmittableObject(schema, data)
  }

  lemma AcceptsObjectAt(schema: ConfigSchema, data: Json)
    requires Compile(schema).Ok?
    ensures AcceptsObject(Compile(schema).value.shape, data) <==>
            data.JObj? && forall i :: 0 <= i < |schema.properties| ==> AcceptsAt(schema, i, Get(data.fields, schema.properties[i].0))
  {
    ShapeLength(schema.properties, schema.required);
    forall i | 0 <= i < |schema.properties|
      ensures Compile(schema).value.shape[i].0 == schema.properties[i].0
    {
      CompiledAt(schema.properties, schema.required, i);
    }
    hide Accepts, Compile;
    var shape := Compile(schema).value.shape;
    if data.JObj? {
      forall i | 0 <= i < |schema.properties|
        ensures AcceptsAt(schema, i, Get(data.fields, schema.properties[i].0)) <==> Accepts(shape[i].1, Get(data.fields, shape[i].0))
      {
      }
    }
  }

  lemma FaithfulAt(schema: ConfigSchema, i: nat)
    requires Compile(schema).Ok? && i < |schema.properties|
    ensures (forall v :: AcceptsAt(schema, i, v) <==> SubmittableAt(schema, i, v)) <==>
            Faithful(schema.properties[i].1, RequiredAt(schema, i))
  {
    AllCompileIffSupported(schema.properties, schema.required);
    CompiledAt(schema.properties, schema.required, i);
    var (name, raw) := schema.properties[i];
    ListingsAgree(schema.required, name);
    PropertyFaithfulIff(name, raw, RequiredAt(schema, i));
    hide Accepts, Submittable, Faithful, SupportedProperty, CompileAll;
    assert forall v :: AcceptsAt(schema, i, v) <==> Accepts(CompileProperty(name, raw, RequiredAt(schema, i)).value.0, v);
  }

  // The compiled validator accepts an object iff every property of the schema is submittable, for
  // every object, when every property is faithful.
  lemma CompilationPreservesMeaning(schema: ConfigSchema, data: Json)
    requires Compile(schema).Ok?
    requires forall i :: 0 <= i < |schema.properties| ==> Faithful(schema.properties[i].1, RequiredAt(schema, i))
    ensures AcceptsObject(Compile(schema).value.shape, data) <==> SubmittableObject(schema, data)
  {
    hide Compile, Faithful, SubmittableAt, AcceptsAt, AcceptsObject;
    AcceptsObjectAt(schema, data);
    forall i, v | 0 <= i < |schema.properties|
      ensures AcceptsAt(schema, i, v) <==> SubmittableAt(schema, i, v)
    {
      FaithfulAt(schema, i);
    }
  }

  // A field is marked required exactly when the schema's `required` is an array with an entry that is its
  // name; a typed or enumerated property then fails when absent, and else passes.
  lemma RequiredExactly(schema: ConfigSchema, i: nat)
    requires Compile(schema).Ok? && i < |schema.properties|
    ensures var name := schema.properties[i].0;
            |Compile(schema).value.fields| == |schema.properties| &&
            (Compile(schema).value.fields[i].required <==>
             schema.required.Some? && schema.required.value.JArr? &&
             exists k :: 0 <= k < |schema.required.value.items| && schema.required.value.items[k] == JStr(name))
    ensures schema.properties[i].1.JObj? && (Enumerated(schema.properties[i].1.fields) || Get(schema.properties[i].1.fields, "type").Some?) ==>
              (AcceptsAt(schema, i, None) <==> !Listed(schema.required, schema.properties[i].0))
  {
    var (name, raw) := schema.properties[i];
    FieldsMatchValidator(schema, i);
    CompiledAt(schema.properties, schema.required, i);
    hide CompileAll, CompileProperty, Describes, AcceptsAt, Enumerated;
    if schema.required.Some? && schema.required.value.JArr? {
      assert schema.required == Some(JArr(schema.required.value.items));
    }
    if raw.JObj? && (Enumerated(raw.fields) || Get(raw.fields, "type").Some?) {
      ListingsAgree(schema.required, name);
      AbsentAccepted(name, raw, RequiredNames(schema.required, name));
      hide Listed, RequiredNames;
      AcceptsAtIs(schema, i, None);
    }
  }

  lemma AcceptsAtIs(schema: ConfigSchema, i: nat, v: Option<Json>)
    requires Compile(schema).Ok? && i < |schema.properties|
    ensures |Compile(schema).value.shape| == |schema.properties|
    ensures AcceptsAt(schema, i, v) <==> Accepts(Compile(schema).value.shape[i].1, v)
  {
    ShapeLength(schema.properties, schema.required);
  }

  lemma AbsentAccepted(name: string, raw: Json, required: bool)
    requires CompileProperty(name, raw, required).Ok? && (Enumerated(raw.fields) || Get(raw.fields, "type").Some?)
    ensures Accepts(CompileProperty(name, raw, required).value.0, None) <==> !required
  {
    EnumsAgree(raw.fields, JNull);
    hide Enumerated, Members, StringZod, NumberZod;
    PropertyDescribed(name, raw, required);
  }

  // So an object that lacks a required, typed or enumerated property is refused.
  lemma MissingIsRefused(schema: ConfigSchema, i: nat, data: Json)
    requires Compile(schema).Ok? && i < |schema.properties| && Listed(schema.required, schema.properties[i].0)
    requires schema.properties[i].1.JObj?
    requires Enumerated(schema.properties[i].1.fields) || Get(schema.properties[i].1.fields, "type").Some?
    requires data.JObj? ==> Get(data.fields, schema.properties[i].0) == None
    ensures !AcceptsObject(Compile(schema).value.shape, data)
  {
    RequiredExactly(schema, i);
    AcceptsObjectAt(schema, data);
    hide Compile, AcceptsAt, AcceptsObject, Listed, Enumerated;
  }

  // An object with chosen values for the properties of the schema.
  function Filled(properties: seq<(string, Json)>, vs: seq<Option<Json>>): seq<(string, Json)>
    requires |vs| == |properties|
  {
    if properties == [] then []
    else (if vs[0].Some? then [(properties[0].0, vs[0].value)] else []) + Filled(properties[1..], vs[1..])
  }

  lemma {:induction false} FilledOnly(properties: seq<(string, Json)>, vs: seq<Option<Json>>, key: string)
    requires |vs| == |properties| && forall i :: 0 <= i < |properties| ==> properties[i].0 != key
    ensures Get(Filled(properties, vs), key) == None
  {
    if properties != [] {
      assert forall i :: 0 <= i < |properties[1..]| ==> properties[1..][i] == properties[i + 1];
      FilledOnly(properties[1..], vs[1..], key);
      var rest := Filled(properties[1..], vs[1..]);
      if vs[0].Some? {
        assert Filled(properties, vs)[1..] == rest;
      } else {
        assert Filled(properties, vs) == rest;
      }
    }
  }

  lemma {:induction false} FilledAt(properties: seq<(string, Json)>, vs: seq<Option<Json>>, i: nat)
    requires |vs| == |properties| && Distinct(properties) && i < |properties|
    ensures Get(Filled(properties, vs), properties[i].0) == vs[i]
  {
    var rest := Filled(properties[1..], vs[1..]);
    assert forall j :: 0 <= j < |properties[1..]| ==> properties[1..][j] == properties[j + 1];
    if vs[0].Some? {
      assert Filled(properties, vs)[1..] == rest;
    } else {
      assert Filled(properties, vs) == rest;
    }
    if i == 0 {
      FilledOnly(properties[1..], vs[1..], properties[0].0);
    } else {
      FilledAt(properties[1..], vs[1..], i - 1);
    }
  }

  ghost predicate AllAccepted(schema: ConfigSchema, vs: seq<Option<Json>>)
    requires Compile(schema).Ok? && |vs| == |schema.properties|
  {
    forall i :: 0 <= i < |vs| ==> AcceptsAt(schema, i, vs[i])
  }

  ghost predicate AllSubmittable(schema: ConfigSchema, vs: seq<Option<Json>>)
    requires |vs| == |schema.properties|
  {
    forall i :: 0 <= i < |vs| ==> SubmittableAt(schema, i, vs[i])
  }

  // If meaning is preserved, then value by value.
  lemma ValuesAgree(schema: ConfigSchema, vs: seq<Option<Json>>)
    requires Compile(schema).Ok? && Distinct(schema.properties) && |vs| == |schema.properties| && PreservesMeaning(schema)
    ensures AllAccepted(schema, vs) <==> AllSubmittable(schema, vs)
  {
    hide Compile, AcceptsAt, SubmittableAt, AcceptsObject;
    var data := JObj(Filled(schema.properties, vs));
    AcceptsObjectAt(schema, data);
    forall i | 0 <= i < |vs|
      ensures Get(data.fields, schema.properties[i].0) == vs[i]
    {
      FilledAt(schema.properties, vs, i);
    }
    assert AcceptsObject(Compile(schema).value.shape, data) <==> SubmittableObject(schema, data);
    assert SubmittableObject(schema, data) <==> AllSubmittable(schema, vs);
  }

  ghost predicate NeverAccepted(schema: ConfigSchema, i: nat)
    requires Compile(schema).Ok? && i < |schema.properties|
  {
    forall v :: !AcceptsAt(schema, i, v)
  }

  ghost predicate NeverSubmittable(schema: ConfigSchema, i: nat)
    requires i < |schema.properties|
  {
    forall v :: !SubmittableAt(schema, i, v)
  }

  // No value at all for some property.
  ghost predicate AcceptsNothing(schema: ConfigSchema)
    requires Compile(schema).Ok?
  {
    exists i :: 0 <= i < |schema.properties| && NeverAccepted(schema, i)
  }

  ghost predicate AllowsNothing(schema: ConfigSchema) {
    exists i :: 0 <= i < |schema.properties| && NeverSubmittable(schema, i)
  }

  lemma {:induction false} PickAccepted(schema: ConfigSchema, n: nat) returns (vs: seq<Option<Json>>)
    requires Compile(schema).Ok? && !AcceptsNothing(schema) && n <= |schema.properties|
    ensures |vs| == n && forall i :: 0 <= i < n ==> AcceptsAt(schema, i, vs[i])
  {
    hide Compile, AcceptsAt;
    vs := [];
    if n > 0 {
      var last := n - 1;
      vs := PickAccepted(schema, last);
      assert !NeverAccepted(schema, last);
      var v :| AcceptsAt(schema, last, v);
      vs := vs + [v];
    }
  }

  lemma {:induction false} PickSubmittable(schema: ConfigSchema, n: nat) returns (vs: seq<Option<Json>>)
    requires !AllowsNothing(schema) && n <= |schema.properties|
    ensures |vs| == n && forall i :: 0 <= i < n ==> SubmittableAt(schema, i, vs[i])
  {
    hide SubmittableAt;
    vs := [];
    if n > 0 {
      var last := n - 1;
      vs := PickSubmittable(schema, last);
      assert !NeverSubmittable(schema, last);
      var v :| SubmittableAt(schema, last, v);
      vs := vs + [v];
    }
  }

  // With one choice of values that both sides take, a property can be varied alone.
  lemma VariedAlone(schema: ConfigSchema, good: seq<Option<Json>>, i: nat, v: Option<Json>)
    requires Compile(schema).Ok? && Distinct(schema.properties) && |good| == |schema.properties| && PreservesMeaning(schema)
    requires AllAccepted(schema, good) && AllSubmittable(schema, good) && i < |good|
    ensures AcceptsAt(schema, i, v) <==> SubmittableAt(schema, i, v)
  {
    hide Compile, AcceptsAt, SubmittableAt, PreservesMeaning;
    var vs := good[i := v];
    ValuesAgree(schema, vs);
    assert vs[i] == v && forall k :: 0 <= k < |vs| && k != i ==> vs[k] == good[k];
  }

  lemma NothingTaken(schema: ConfigSchema, data: Json)
    requires Compile(schema).Ok? && AcceptsNothing(schema) && AllowsNothing(schema)
    ensures !AcceptsObject(Compile(schema).value.shape, data) && !SubmittableObject(schema, data)
  {
    hide Compile, AcceptsAt, SubmittableAt, AcceptsObject;
    AcceptsObjectAt(schema, data);
    var i :| 0 <= i < |schema.properties| && NeverAccepted(schema, i);
    var j :| 0 <= j < |schema.properties| && NeverSubmittable(schema, j);
    if data.JObj? {
      assert !AcceptsAt(schema, i, Get(data.fields, schema.properties[i].0));
      assert !SubmittableAt(schema, j, Get(data.fields, schema.properties[j].0));
    }
  }

  // For a schema with distinct names, validator and schema agree on every object if and only if every
  // property is faithful, or neither of them takes any object at all.
  lemma MeaningPreservedIff(schema: ConfigSchema)
    requires Compile(schema).Ok? && Distinct(schema.properties)
    ensures PreservesMeaning(schema) <==>
              (forall i :: 0 <= i < |schema.properties| ==> Faithful(schema.properties[i].1, RequiredAt(schema, i))) ||
              (AcceptsNothing(schema) && AllowsNothing(schema))
  {
    hide Compile, AcceptsAt, SubmittableAt, Faithful, AcceptsObject;
    if forall i :: 0 <= i < |schema.properties| ==> Faithful(schema.properties[i].1, RequiredAt(schema, i)) {
      forall data
        ensures AcceptsObject(Compile(schema).value.shape, data) <==> SubmittableObject(schema, data)
      {
        CompilationPreservesMeaning(schema, data);
      }
    } else if AcceptsNothing(schema) && AllowsNothing(schema) {
      forall data
        ensures AcceptsObject(Compile(schema).value.shape, data) <==> SubmittableObject(schema, data)
      {
        NothingTaken(schema, data);
      }
    } else if PreservesMeaning(schema) {
      var good := BothTake(schema);
      forall i | 0 <= i < |schema.properties|
        ensures Faithful(schema.properties[i].1, RequiredAt(schema, i))
      {
        forall v
          ensures AcceptsAt(schema, i, v) <==> SubmittableAt(schema, i, v)
        {
          VariedAlone(schema, good, i, v);
        }
        FaithfulAt(schema, i);
      }
    }
  }

  lemma BothTake(schema: ConfigSchema) returns (good: seq<Option<Json>>)
    requires Compile(schema).Ok? && Distinct(schema.properties) && PreservesMeaning(schema)
    requires !(AcceptsNothing(schema) && AllowsNothing(schema))
    ensures |good| == |schema.properties| && AllAccepted(schema, good) && AllSubmittable(schema, good)
  {
    hide Compile, AcceptsAt, SubmittableAt, PreservesMeaning, AcceptsNothing, AllowsNothing;
    if AcceptsNothing(schema) {
      good := PickSubmittable(schema, |schema.properties|);
    } else {
      good := PickAccepted(schema, |schema.properties|);
    }
    ValuesAgree(schema, good);
  }

  lemma ShapeLength(properties: seq<(string, Json)>, required: Option<Json>)
    requires CompileAll(properties, required).Ok?
    ensures |CompileAll(properties, required).value.shape| == |CompileAll(properties, required).value.fields| == |properties|
  {
    if properties != [] {
      CompiledAt(properties, required, 0);
    }
  }

  // ---------------------------------------------------------------------------
  // The form fields describe the validator
  // ---------------------------------------------------------------------------

  // For every value but the blank, the descriptor alone tells what the validator does with it; only the
  // lengths of strings and the freedom of an untyped property are not in the descriptor.
  ghost predicate Describes(f: FormField, z: Zod) {
    && (f.required <==> !z.ZBlankOptional? && !z.ZOptional?)
    && (z != ZUnknown ==> (f.required <==> !Accepts(z, None)))
    && (f.kind != StringKind ==> forall v: Json :: v != JStr("") ==> (Accepts(z, Some(v)) <==> Fits(f, v)))
    && (f.kind == StringKind && z != ZUnknown && z != ZOptional(ZUnknown) ==>
          forall v: Json :: Accepts(z, Some(v)) ==> v.JStr?)
  }

  predicate Fits(f: FormField, v: Json) {
    match f.kind
    case StringKind => v.JStr?
    case BooleanKind => v.JBool?
    case ObjectKind => v.JObj?
    case EnumKind =>
      f.enumValues.Some? && f.enumValues.value != [] && v in f.enumValues.value && (f.enumValues.value[0].JStr? ==> v.JStr?)
    case NumberKind => v.JNum? && WithinBounds(f, v.num)
    case IntegerKind => v.JNum? && IsInteger(v.num) && WithinBounds(f, v.num)
  }

  predicate WithinBounds(f: FormField, x: real) {
    (f.minimum.Some? ==> x >= f.minimum.value) && (f.maximum.Some? ==> x <= f.maximum.value)
  }

  lemma PropertyDescribed(name: string, raw: Json, required: bool)
    requires CompileProperty(name, raw, required).Ok?
    ensures var (z, f) := CompileProperty(name, raw, required).value;
            f.name == name && f.required == required && Describes(f, z)
  {
    var p := raw.fields;
    var (z, f) := CompileProperty(name, raw, required).value;
    if HasEnum(p) {
      EnumDescribed(Members(EnumItems(p)), f, z);
    } else if f.kind in {NumberKind, IntegerKind} {
      NumberDescribed(p, f, z);
    } else {
      PlainDescribed(p, f, z);
    }
  }

  lemma EnumDescribed(values: seq<Json>, f: FormField, z: Zod)
    requires f.kind == EnumKind && f.enumValues == Some(values) && values != []
    requires z == ApplyOptional(if values[0].JStr? then ZEnum(values) else ZLiterals(values), f.required)
    ensures Describes(f, z)
  {
  }

  lemma PlainDescribed(p: Prop, f: FormField, z: Zod)
    requires || (f.kind == StringKind && z == ApplyOptional(StringZod(p, f.required), f.required))
             || (f.kind == StringKind && z == if f.required then ZUnknown else ZOptional(ZUnknown))
             || (f.kind == BooleanKind && z == ApplyOptional(ZBoolean, f.required))
             || (f.kind == ObjectKind && z == ApplyOptional(ZRecord, f.required))
    ensures Describes(f, z)
  {
  }

  lemma NumberDescribed(p: Prop, f: FormField, z: Zod)
    requires f.kind in {NumberKind, IntegerKind} && z == ApplyOptional(NumberZod(p, f.kind == IntegerKind), f.required)
    requires f.minimum == NumberOrUndef(Get(p, "minimum")) && f.maximum == NumberOrUndef(Get(p, "maximum"))
    ensures Describes(f, z)
  {
    var n := NumberZod(p, f.kind == IntegerKind);
    assert f.kind == IntegerKind ==> IntCheck in n.checks;
    assert f.minimum.Some? ==> MinCheck(f.minimum.value) in n.checks;
    assert f.maximum.Some? ==> MaxCheck(f.maximum.value) in n.checks;
  }

  // Field by field, in the schema's order, name for name.
  lemma FieldsMatchValidator(schema: ConfigSchema, i: nat)
    requires Compile(schema).Ok? && i < |schema.properties|
    ensures var c := Compile(schema).value;
            && |c.fields| == |c.shape| == |schema.properties|
            && c.fields[i].name == c.shape[i].0 == schema.properties[i].0
            && c.fields[i].required == Listed(schema.required, schema.properties[i].0)
            && Describes(c.fields[i], c.shape[i].1)
  {
    ListingsAgree(schema.required, schema.properties[i].0);
    CompiledAt(schema.properties, schema.required, i);
    PropertyDescribed(schema.properties[i].0, schema.properties[i].1, RequiredNames(schema.required, schema.properties[i].0));
  }

  // ---------------------------------------------------------------------------
  // What is submitted
  // ---------------------------------------------------------------------------

  lemma {:induction false} ParsedField(shape: seq<(string, Zod)>, data: seq<(string, Json)>, key: string)
    requires Distinct(shape)
    ensures Get(ParseObject(shape, data), key) ==
            if Get(shape, key).Some? then Output(Get(shape, key).value, Get(data, key)) else None
  {
    if shape != [] {
      ParsedField(shape[1..], data, key);
      if shape[0].0 == key {
        GetMissing(shape[1..], key);
        assert forall i :: 0 <= i < |shape[1..]| ==> shape[1..][i] == shape[i + 1];
      }
      var v := Output(shape[0].1, Get(data, shape[0].0));
      var rest := ParseObject(shape[1..], data);
      assert ParseObject(shape, data) == (if v.Some? then [(shape[0].0, v.value)] else []) + rest;
      if v.Some? {
        assert ParseObject(shape, data)[1..] == rest;
      } else {
        assert ParseObject(shape, data) == rest;
      }
    }
  }

  // The submitted payload has no blank optional values, validates again, and parses to itself.
  lemma ParsingIsClean(shape: seq<(string, Zod)>, data: Json)
    requires Distinct(shape) && AcceptsObject(shape, data)
    ensures var out := ParseObject(shape, data.fields);
            && AcceptsObject(shape, JObj(out))
            && ParseObject(shape, out) == out
            && forall i :: 0 <= i < |shape| ==>
                 Get(out, shape[i].0) == if shape[i].1.ZBlankOptional? then Cleaned(Get(data.fields, shape[i].0))
                                         else Get(data.fields, shape[i].0)
  {
    var out := ParseObject(shape, data.fields);
    forall i | 0 <= i < |shape|
      ensures Get(out, shape[i].0) == Output(shape[i].1, Get(data.fields, shape[i].0))
      ensures Accepts(shape[i].1, Get(out, shape[i].0))
    {
      GetAt(shape, i);
      ParsedField(shape, data.fields, shape[i].0);
    }
    SameFieldsSameParse(shape, data.fields, out);
  }

  lemma {:induction false} SameFieldsSameParse(shape: seq<(string, Zod)>, data: seq<(string, Json)>, out: seq<(string, Json)>)
    requires forall i :: 0 <= i < |shape| ==> Get(out, shape[i].0) == Output(shape[i].1, Get(data, shape[i].0))
    ensures ParseObject(shape, out) == ParseObject(shape, data)
  {
    if shape != [] {
      assert Get(out, shape[0].0) == Output(shape[0].1, Get(data, shape[0].0));
      forall i | 0 <= i < |shape[1..]|
        ensures Get(out, shape[1..][i].0) == Output(shape[1..][i].1, Get(data, shape[1..][i].0))
      {
        assert shape[1..][i] == shape[i + 1];
      }
      SameFieldsSameParse(shape[1..], data, out);
    }
  }
}
