/**
  The non-recursive parts of the JSON Schema resolver: its error kinds, the
  keyword tests on a node, reference names, the type lookup, numeric
  literals, and the builders of scalar fields.
*/
module ParserSupport {
  import opened Wrappers
  import opened JavaText
  import opened Json
  import opened FieldModel

  /** The exceptions the resolver raises, its own and the Java runtime's. */
  datatype Error =
    | WrongJsonSchema
    | MissingDefinition
    | NotTypeObjectFound
    | ReferenceNotSupported(reference: string)
    | NotSupportedFile
    | IncorrectTypeInCombination
    | TypesAndPropertiesMixed
    | NullPointer
    | IndexOutOfBounds
    | NumberFormat(text: string)

  /** The message each error carries. */
  function Message(e: Error): string
  {
    match e
    case WrongJsonSchema => "Wrong Json Schema"
    case MissingDefinition => "Wrong Json Schema, Missing definition"
    case NotTypeObjectFound => "Not Type Object found"
    case ReferenceNotSupported(r) => "Reference not Supported: " + r
    case NotSupportedFile => "Not supported file"
    case IncorrectTypeInCombination => "Incorrect type in combination"
    case TypesAndPropertiesMixed => "Incorrect combination, types and properties mixed"
    case NullPointer => "NullPointerException"
    case IndexOutOfBounds => "IndexOutOfBoundsException"
    case NumberFormat(t) => "For input string: \"" + t + "\""
  }

  /**
    The branch choice of `anyOf`/`oneOf`, injected instead of drawn at
    random: given the combinator node and its branch count `n`, an index in
    `[0, n)`.
  */
  type Selector = pick: (Json, nat) -> nat | forall node, n :: 0 < n ==> pick(node, n) < n
    witness (node: Json, n: nat) => 0

  const InternalMapField: string := "internalMapField"

  // ----- keyword tests -----

  predicate IsRefNode(j: Json) { Has(j, "$ref") }

  /** `get("$ref").asText()`. */
  function RefText(j: Json): string { AsText(Get(j, "$ref")) }

  /** Only references inside the same document (`#...`) are supported. */
  predicate IsRefNodeSupported(j: Json) { StartsWith(RefText(j), "#") }

  predicate IsAnyType(j: Json) { Has(j, "type") }

  predicate IsCombine(j: Json) { Has(j, "anyOf") || Has(j, "allOf") || Has(j, "oneOf") }

  predicate HasProperties(j: Json) { Has(j, "properties") }

  /** The combinator a node uses: `anyOf` first, then `allOf`, else `oneOf`. */
  function Combinator(j: Json): (c: string)
    ensures c == "anyOf" || c == "allOf" || c == "oneOf"
  {
    if Has(j, "anyOf") then "anyOf" else if Has(j, "allOf") then "allOf" else "oneOf"
  }

  /** A branch that is an object (has `properties`) or a reference. */
  predicate IsStructural(p: Json) { HasNonNull(p, "properties") || HasNonNull(p, "$ref") }

  /** A branch that is neither an object nor a reference. */
  predicate IsScalar(p: Json) { !HasNonNull(p, "properties") && !HasNonNull(p, "$ref") }

  predicate AllStructural(bs: seq<Json>) { forall i :: 0 <= i < |bs| ==> IsStructural(bs[i]) }

  predicate AllScalar(bs: seq<Json>) { forall i :: 0 <= i < |bs| ==> IsScalar(bs[i]) }

  // ----- requiredness -----

  /**
    `checkRequiredCollection`: an array or map is required when its parent is
    an object or when it is listed as required; Java `null` counts as false.
  */
  function CheckRequiredCollection(isParentObject: Option<bool>, required: Option<bool>): (r: bool)
    ensures r <==> (isParentObject == Some(true) || required == Some(true))
  {
    var isRequired := if required.Some? then required.value else false;
    (isParentObject.Some? && isParentObject.value) || isRequired
  }

  /**
    `propagateRequired`: an object takes `required` as it is, an array or a
    map re-derives it by `CheckRequiredCollection`, anything else (and a
    Java `null`) is returned as it is.
  */
  function PropagateRequired(f: Field, required: Option<bool>, isParentObject: Option<bool>): (r: Field)
    ensures f.NullField? ==> r == f
    ensures !f.NullField? ==> !r.NullField? && r.name == f.name && Kind(r) == Kind(f)
    ensures r.ObjectField? == f.ObjectField? && r.ArrayField? == f.ArrayField? && r.MapField? == f.MapField?
    ensures f.ObjectField? ==>
      r.properties == f.properties && r.required == f.required && r.isFieldRequired == required
    ensures f.ArrayField? ==>
      r.values == f.values && r.minItems == f.minItems && r.uniqueItems == f.uniqueItems
    ensures f.MapField? ==> r.mapType == f.mapType
    ensures (f.ArrayField? || f.MapField?) ==>
      r.isFieldRequired == Some(CheckRequiredCollection(isParentObject, required))
    ensures !(f.ObjectField? || f.ArrayField? || f.MapField?) ==> r == f
  {
    match f
    case ObjectField(n, _, rs, _) => ObjectField(n, GetProperties(f), rs, required)
    case ArrayField(n, vs, _, mi, u) =>
      ArrayField(n, vs, Some(CheckRequiredCollection(isParentObject, required)), mi, u)
    case MapField(n, t, _) => MapField(n, t, Some(CheckRequiredCollection(isParentObject, required)))
    case _ => f
  }

  /** The texts of a `required` list, with Java `null`s and empty names dropped. */
  function NonEmptyTexts(xs: seq<Json>): (r: seq<string>)
    ensures forall s :: s in r <==> s != "" && exists i :: 0 <= i < |xs| && TextValue(xs[i]) == Some(s)
  {
    if xs == [] then []
    else
      var rest := NonEmptyTexts(xs[1..]);
      assert forall i :: 0 <= i < |xs[1..]| ==> xs[1..][i] == xs[i + 1];
      match TextValue(xs[0])
      case Some(s) => if s != "" then [s] + rest else rest
      case None => rest
  }

  /** The names an object lists under `required`. */
  function RequiredNames(j: Json): seq<string>
  {
    NonEmptyTexts(Elements(Get(j, "required")))
  }

  /** An array element is required when `minItems` is present, not blank and not "0". */
  predicate MinItemsRequired(j: Json)
  {
    var t := AsText(Get(j, "minItems"));
    !IsBlank(t) && t != "0"
  }

  // ----- references -----

  /**
    `extractRefName`: what follows the last `/` of a reference, or the whole
    reference when it has no `/`.
  */
  function ExtractRefName(reference: string): (r: string)
    ensures '/' !in r
    ensures |r| <= |reference| && r == reference[|reference| - |r|..]
    ensures '/' in reference ==> reference[|reference| - |r| - 1] == '/'
    ensures '/' !in reference ==> r == reference
  {
    var k := LastIndexOf(reference, '/');
    assert '/' in reference ==> k >= 0;
    reference[k + 1..]
  }

  /** A reference into `definitions` names the definition written after `#/definitions/`. */
  lemma DefinitionRefName(n: string)
    requires '/' !in n
    ensures ExtractRefName("#/definitions/" + n) == n
  {
    var s := "#/definitions/" + n;
    var r := ExtractRefName(s);
    assert s[|s| - |n| - 1] == '/';
    assert forall j :: |s| - |n| <= j < |s| ==> s[j] == n[j - (|s| - |n|)];
    assert s[|s| - |n|..] == n;
  }

  // ----- types -----

  /** `getNonNUll`: the first element whose text is not "null" (any case), if any. */
  function FirstNonNull(xs: seq<Json>): (r: Option<string>)
    ensures r.Some? ==> !EqualsIgnoreCase(r.value, "null")
  {
    if xs == [] then None
    else if EqualsIgnoreCase(AsText(xs[0]), "null") then FirstNonNull(xs[1..])
    else Some(AsText(xs[0]))
  }

  /** `FirstNonNull` finds the first non-"null" element and only it. */
  lemma {:induction false} FirstNonNullFinds(xs: seq<Json>)
    ensures FirstNonNull(xs).None? <==>
      forall i :: 0 <= i < |xs| ==> EqualsIgnoreCase(AsText(xs[i]), "null")
    ensures FirstNonNull(xs).Some? ==>
      exists k :: 0 <= k < |xs| && FirstNonNull(xs).value == AsText(xs[k])
        && forall i :: 0 <= i < k ==> EqualsIgnoreCase(AsText(xs[i]), "null")
  {
    if xs != [] && EqualsIgnoreCase(AsText(xs[0]), "null") {
      FirstNonNullFinds(xs[1..]);
      assert forall i :: 0 < i < |xs| ==> xs[i] == xs[1..][i - 1];
      if FirstNonNull(xs).Some? {
        var k :| 0 <= k < |xs[1..]| && FirstNonNull(xs[1..]).value == AsText(xs[1..][k])
          && forall i :: 0 <= i < k ==> EqualsIgnoreCase(AsText(xs[1..][i]), "null");
        assert forall i :: 0 <= i < k + 1 ==> EqualsIgnoreCase(AsText(xs[i]), "null");
      }
    } else if xs != [] {
      assert FirstNonNull(xs).value == AsText(xs[0]);
    }
  }

  /** The iterator loop of `getNonNUll`. */
  method GetNonNull(xs: seq<Json>) returns (t: Option<string>)
    ensures t == FirstNonNull(xs)
  {
    t := None;
    var i := 0;
    while i < |xs| && t.None?
      invariant 0 <= i <= |xs|
      invariant t.None? ==> FirstNonNull(xs) == FirstNonNull(xs[i..])
      invariant t.Some? ==> t == FirstNonNull(xs)
    {
      assert xs[i..][1..] == xs[i + 1..];
      var text := AsText(xs[i]);
      t := Some(text);
      if EqualsIgnoreCase(text, "null") {
        t := None;
      }
      i := i + 1;
    }
  }

  /**
    `getSafeType`: the first `type` that `findPath` meets (which may belong
    to a descendant), lower-cased; for a list of types the first non-"null"
    one.  A `type` that is neither text nor a list (or none at all) makes
    `textValue()` null and `toLowerCase()` fail.
  */
  function GetSafeType(j: Json): (r: Result<Option<string>, Error>)
    ensures r.Err? ==> r.error == NullPointer
    ensures var t := FindPath(j, "type");
      && (t.JArray? ==> r == Ok(FirstNonNull(t.items)))
      && (t.JStr? ==> r == Ok(Some(ToLower(t.text))))
      && (r.Err? <==> !t.JArray? && !t.JStr?)
  {
    var t := FindPath(j, "type");
    if t.JArray? then Ok(FirstNonNull(t.items))
    else match TextValue(t)
      case Some(s) => Ok(Some(ToLower(s)))
      case None => Err(NullPointer)
  }

  /** Only an object or an array can hold a `type` that `findPath` reaches. */
  lemma TypedIsContainer(j: Json)
    requires GetSafeType(j).Ok?
    ensures IsContainer(j)
  {
  }

  /**
    A node's own `type` is the one taken when no earlier entry holds a
    `type` at any depth.
  */
  lemma GetSafeTypeOwn(j: Json, k: nat)
    requires j.JObject? && k < |j.entries| && j.entries[k].0 == "type"
    requires forall i :: 0 <= i < k ==>
      j.entries[i].0 != "type" && FindPath(j.entries[i].1, "type") == JMissing
    ensures j.entries[k].1.JStr? ==> GetSafeType(j) == Ok(Some(ToLower(j.entries[k].1.text)))
    ensures j.entries[k].1.JArray? ==> GetSafeType(j) == Ok(FirstNonNull(j.entries[k].1.items))
  {
    FindPathOwnEntry(j.entries, "type", k);
  }

  /** A `type` nested in an earlier entry wins over the node's own. */
  lemma GetSafeTypeNested()
    ensures GetSafeType(JObject([("properties", JObject([("a", JObject([("type", JStr("integer"))]))])),
                                 ("type", JStr("object"))]))
            == Ok(Some("integer"))
  {
    var inner := JObject([("type", JStr("integer"))]);
    var props := JObject([("a", inner)]);
    assert FindPath(inner, "type") == JStr("integer");
    assert FindPath(props, "type") == JStr("integer");
    assert ToLower("integer") == "integer";
  }

  // ----- numbers -----

  /**
    `safeGetNumber`: a literal with a `.` is decimal (`Float.parseFloat`),
    anything else must be a long (`Long.parseLong`).
  */
  function SafeGetNumber(s: string): (r: Result<Num, Error>)
    ensures '.' in s ==> r == Ok(Dec(s))
    ensures '.' !in s ==> (r.Ok? <==> ParseLong(s).Some?)
    ensures '.' !in s && r.Ok? ==> r.value == Int(ParseLong(s).value)
    ensures r.Err? ==> r.error == NumberFormat(s)
  {
    if '.' in s then Ok(Dec(s))
    else match ParseLong(s)
      case Some(v) => Ok(Int(v))
      case None => Err(NumberFormat(s))
  }

  /** A long rendered by Jackson is read back as that integer. */
  lemma SafeGetNumberOfLong(n: int)
    requires LongMin <= n <= LongMax
    ensures SafeGetNumber(DecimalString(n)) == Ok(Int(n))
  {
    DecimalRoundTrip(n);
    var s := DecimalString(n);
    if n < 0 {
      DigitsRoundTrip(-n);
      assert s == "-" + Digits(-n);
      assert forall i :: 1 <= i < |s| ==> s[i] == Digits(-n)[i - 1];
    } else {
      DigitsRoundTrip(n);
    }
    assert '.' !in s;
  }

  /** `path(key).asText("0")`. */
  function NumberText(j: Json, key: string): string { AsTextOr(Get(j, key), "0") }

  /** `buildNumberField`: the five numeric constraints, each defaulting to 0. */
  function BuildNumberField(name: Name, j: Json): (r: Result<Field, Error>)
    ensures r.Ok? ==> r.value.NumberField? && r.value.name == name
    ensures var mx := SafeGetNumber(NumberText(j, "maximum"));
      var mn := SafeGetNumber(NumberText(j, "minimum"));
      var xmx := SafeGetNumber(NumberText(j, "exclusiveMaximum"));
      var xmn := SafeGetNumber(NumberText(j, "exclusiveMinimum"));
      var mul := SafeGetNumber(NumberText(j, "multipleOf"));
      && (r.Ok? <==> mx.Ok? && mn.Ok? && xmx.Ok? && xmn.Ok? && mul.Ok?)
      && (r.Ok? ==> r.value == NumberField(name, mx.value, mn.value, xmx.value, xmn.value, mul.value))
      && (mx.Err? ==> r == Err(mx.error))
      && (mx.Ok? && mn.Err? ==> r == Err(mn.error))
      && (mx.Ok? && mn.Ok? && xmx.Err? ==> r == Err(xmx.error))
      && (mx.Ok? && mn.Ok? && xmx.Ok? && xmn.Err? ==> r == Err(xmn.error))
      && (mx.Ok? && mn.Ok? && xmx.Ok? && xmn.Ok? && mul.Err? ==> r == Err(mul.error))
  {
    var maximum :- SafeGetNumber(NumberText(j, "maximum"));
    var minimum :- SafeGetNumber(NumberText(j, "minimum"));
    var exclusiveMaximum :- SafeGetNumber(NumberText(j, "exclusiveMaximum"));
    var exclusiveMinimum :- SafeGetNumber(NumberText(j, "exclusiveMinimum"));
    var multipleOf :- SafeGetNumber(NumberText(j, "multipleOf"));
    Ok(NumberField(name, maximum, minimum, exclusiveMaximum, exclusiveMinimum, multipleOf))
  }

  /** A number node with no constraint keywords gets every constraint 0. */
  lemma NumberFieldDefaults(name: Name, j: Json)
    requires !Has(j, "maximum") && !Has(j, "minimum") && !Has(j, "exclusiveMaximum")
    requires !Has(j, "exclusiveMinimum") && !Has(j, "multipleOf")
    ensures BuildNumberField(name, j) == Ok(NumberField(name, Int(0), Int(0), Int(0), Int(0), Int(0)))
  {
    assert ParseLong("0") == Some(0) by { DecimalRoundTrip(0); }
  }

  /** Each constraint is decimal exactly when its literal has a `.`. */
  lemma NumberFieldDecimals(name: Name, j: Json)
    requires BuildNumberField(name, j).Ok?
    ensures var f := BuildNumberField(name, j).value;
      (f.maximum.Dec? <==> '.' in NumberText(j, "maximum"))
      && (f.minimum.Dec? <==> '.' in NumberText(j, "minimum"))
      && (f.exclusiveMaximum.Dec? <==> '.' in NumberText(j, "exclusiveMaximum"))
      && (f.exclusiveMinimum.Dec? <==> '.' in NumberText(j, "exclusiveMinimum"))
      && (f.multipleOf.Dec? <==> '.' in NumberText(j, "multipleOf"))
  {
  }

  // ----- strings -----

  /** `getSafeText`: the text of a keyword, Java `null` when absent. */
  function GetSafeText(j: Json, key: string): Option<string>
  {
    if Has(j, key) then Some(AsText(Get(j, key))) else None
  }

  /** `getSafeInt`: `asInt()` of a keyword, 0 when absent. */
  function GetSafeInt(j: Json, key: string): int
  {
    if Has(j, key) then AsInt(Get(j, key)) else 0
  }

  /** The texts of an `enum` array; nothing when `enum` is not an array. */
  function EnumValues(j: Json): (vs: seq<string>)
    ensures var e := Get(j, "enum");
      e.JArray? ==> |vs| == |e.items| && forall i :: 0 <= i < |vs| ==> vs[i] == AsText(e.items[i])
    ensures !Get(j, "enum").JArray? ==> vs == []
  {
    var e := Get(j, "enum");
    if e.JArray? then seq(|e.items|, i requires 0 <= i < |e.items| => AsText(e.items[i])) else []
  }

  /** `buildEnumField`: the first value is the default; no value, no default. */
  function BuildEnumField(name: Name, j: Json): (r: Result<Field, Error>)
    ensures r.Ok? <==> |EnumValues(j)| > 0
    ensures r.Err? ==> r.error == IndexOutOfBounds
    ensures r.Ok? ==> r.value.EnumField? && r.value.name == name
                      && r.value.defaultValue in r.value.enumValues
  {
    var values := EnumValues(j);
    if |values| == 0 then Err(IndexOutOfBounds) else Ok(NewEnumField(name, values[0], values))
  }

  predicate IsDateFormat(f: string) { f == "date-time" || f == "time" || f == "date" }

  /** `buildStringField`: enum, then date formats, then uuid, then plain string. */
  function BuildStringField(name: Name, j: Json): (r: Result<Field, Error>)
    ensures r.Ok? ==>
      (r.value.StringField? || r.value.DateField? || r.value.UUIDField? || r.value.EnumField?)
      && r.value.name == name
  {
    if !Has(j, "enum") then
      var regex := GetSafeText(j, "pattern");
      var minLength := GetSafeInt(j, "minLength");
      var maxLength := GetSafeInt(j, "maxLength");
      match GetSafeText(j, "format")
      case Some(f) =>
        if IsDateFormat(f) then Ok(DateField(name, Some(f)))
        else if f == "uuid" then Ok(NewUUIDField(name, None, None))
        else Ok(StringField(name, None, 0, 0, Some(f)))
      case None => Ok(StringField(name, regex, minLength, maxLength, None))
    else BuildEnumField(name, j)
  }

  /** The order in which `buildStringField` picks the string variant. */
  lemma StringFieldDispatch(name: Name, j: Json)
    ensures var r := BuildStringField(name, j);
      && (Has(j, "enum") ==>
            (r.Ok? <==> |EnumValues(j)| > 0)
            && (r.Ok? ==> r.value == EnumField(name, EnumValues(j)[0], EnumValues(j))))
      && (!Has(j, "enum") && Has(j, "format") && IsDateFormat(AsText(Get(j, "format"))) ==>
            r == Ok(DateField(name, Some(AsText(Get(j, "format"))))))
      && (!Has(j, "enum") && Has(j, "format") && AsText(Get(j, "format")) == "uuid" ==>
            r == Ok(NewUUIDField(name, None, None)))
      && (!Has(j, "enum") && Has(j, "format") && !IsDateFormat(AsText(Get(j, "format")))
          && AsText(Get(j, "format")) != "uuid" ==>
            r == Ok(StringField(name, None, 0, 0, Some(AsText(Get(j, "format"))))))
      && (!Has(j, "enum") && !Has(j, "format") ==>
            r == Ok(StringField(name, GetSafeText(j, "pattern"),
                                GetSafeInt(j, "minLength"), GetSafeInt(j, "maxLength"), None)))
      && (!Has(j, "enum") && !Has(j, "format") && !Has(j, "minLength") && !Has(j, "maxLength") ==>
            r.value.minLength == 0 && r.value.maxLength == 0)
  {
  }

  // ----- arrays -----

  /**
    The four-argument `buildArrayField`: an array of the given element with
    `minItems` (an int, default "0") and `uniqueItems` (default "false").
  */
  function BuildArrayFieldWith(name: Name, j: Json, value: Field, required: bool): (r: Result<Field, Error>)
    ensures r.Ok? ==> r.value.ArrayField? && r.value.name == name && r.value.values == [value]
                      && r.value.isFieldRequired == Some(required)
    ensures var minItems := AsTextOr(Get(j, "minItems"), "0");
      && (r.Ok? <==> ParseInt(minItems).Some?)
      && (r.Ok? ==> r.value.minItems == ParseInt(minItems).value
                    && r.value.uniqueItems == ParseBoolean(AsTextOr(Get(j, "uniqueItems"), "false")))
      && (r.Err? ==> r.error == NumberFormat(minItems))
  {
    var minItems := AsTextOr(Get(j, "minItems"), "0");
    var uniqueItems := AsTextOr(Get(j, "uniqueItems"), "false");
    match ParseInt(minItems)
    case Some(m) => Ok(ArrayField(name, [value], Some(required), m, ParseBoolean(uniqueItems)))
    case None => Err(NumberFormat(minItems))
  }
}
