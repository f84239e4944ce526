/**
  The definitions walk of the resolver: `buildDefinition` and the builders
  it reaches (`extractDefinition`, `chooseAnyOfDefinition`,
  `buildDefinitionArrayField`, `buildDefinitionObjectField`), and the
  pre-pass `processDefinitions` makes over the `definitions` section.

  The walk writes the definitions cache and the cycle guard as it goes, so
  each function takes the `State` before the call and returns the `State`
  after it next to its result.  A failure keeps the state reached when it
  was raised, as the Java exception does.
*/
module DefinitionWalk {
  import opened Wrappers
  import opened JavaText
  import opened Json
  import opened FieldModel
  import opened ParserSupport
  import opened PropertyWalk

  /** The definitions cache and the set of names being resolved (the cycle guard). */
  datatype State = State(defs: Defs, cycling: set<string>)

  /** Every entry of `a` is in `b` unchanged. */
  predicate Extends(a: Defs, b: Defs)
  {
    forall k :: k in a ==> k in b && b[k] == a[k]
  }

  /** The cache never loses or changes an entry, and the guard never loses a name. */
  predicate Grows(st: State, st': State)
  {
    Extends(st.defs, st'.defs) && st.cycling <= st'.cycling
  }

  /** The names the `definitions` section declares. */
  function Names(definitions: Json): set<string> { Keys(FieldsOf(definitions)) }

  lemma GrowsTransitive(a: State, b: State, c: State)
    requires Grows(a, b) && Grows(b, c)
    ensures Grows(a, c)
  {
  }

  /**
    `buildDefinition`: a typed node by its type (a list of types is not
    lower-cased), a reference from the cache or else resolved under the
    cycle guard (a name already being resolved gives `null`), a combination
    by `chooseAnyOfDefinition`, anything else as an object.
  */
  function BuildDefinition(definitions: Json, pick: Selector, name: Name, j: Json,
                           required: Option<bool>, isParentObject: Option<bool>, st: State)
    : (res: (Result<Field, Error>, State))
    ensures Grows(st, res.1)
    decreases Names(definitions) - st.cycling, Size(j), 3
  {
    if IsAnyType(j) then
      match GetSafeType(j)
      case Err(e) => (Err(e), st)
      case Ok(None) => (Err(NotTypeObjectFound), st)
      case Ok(Some(nodeType)) =>
        if nodeType == "integer" then (Ok(IntegerField(name)), st)
        else if nodeType == "number" then (BuildNumberField(name, j), st)
        else if nodeType == "array" then
          BuildDefinitionArrayField(definitions, pick, name, j,
                                    CheckRequiredCollection(isParentObject, required), st)
        else if nodeType == "object" then
          BuildDefinitionObjectField(definitions, pick, name, j, required, isParentObject, st)
        else if nodeType == "boolean" then (Ok(BooleanField(name)), st)
        else (BuildStringField(name, j), st)
    else if IsRefNode(j) then
      var refName := RefName(j);
      if refName in st.defs then (Ok(st.defs[refName]), st)
      else if refName !in st.cycling then
        HasOnObject(j, "$ref");
        ExtractDecreases(definitions, refName, st.cycling);
        var res := ExtractDefinition(definitions, pick, refName, required, isParentObject,
                                     st.(cycling := st.cycling + {refName}));
        if res.0.Err? then res
        else (res.0, res.1.(cycling := res.1.cycling - {refName}))
      else (Ok(NullField), st)
    else if IsCombine(j) then
      HasOnObject(j, Combinator(j));
      ChooseAnyOfDefinition(definitions, pick, name, j, Combinator(j), st)
    else BuildDefinitionObjectField(definitions, pick, name, j, None, None, st)
  }

  /**
    `extractDefinition`: resolve the named entry of `definitions` (a missing
    one reads as an empty node) and cache the result under that name.
  */
  function ExtractDefinition(definitions: Json, pick: Selector, refName: string,
                             required: Option<bool>, isParentObject: Option<bool>, st: State)
    : (res: (Result<Field, Error>, State))
    ensures st.cycling <= res.1.cycling
    ensures refName !in st.defs ==> Grows(st, res.1)
    ensures res.0.Ok? ==> refName in res.1.defs && res.1.defs[refName] == res.0.value
    decreases Names(definitions) - st.cycling, Size(Get(definitions, refName)), 4
  {
    var res := BuildDefinition(definitions, pick, Some(refName), Get(definitions, refName),
                               required, isParentObject, st);
    if res.0.Err? then res
    else (res.0, res.1.(defs := res.1.defs[refName := res.0.value]))
  }

  /**
    `chooseAnyOfDefinition`: `anyOf`/`oneOf` resolve the selected branch
    (indexing anything but a non-empty list gives `null`, hence the
    failure); `allOf` resolves the branch list itself as one node.
  */
  function ChooseAnyOfDefinition(definitions: Json, pick: Selector, name: Name, j: Json, comb: string,
                                 st: State): (res: (Result<Field, Error>, State))
    requires Has(j, comb)
    ensures Grows(st, res.1)
    decreases Names(definitions) - st.cycling, Size(j), 2
  {
    var options := Get(j, comb);
    HasOnObject(j, comb);
    if comb == "anyOf" || comb == "oneOf" then
      var n := |Elements(options)|;
      if options.JArray? && n > 0 then
        ItemSmaller(options.items, pick(j, n));
        BuildDefinition(definitions, pick, name, options.items[pick(j, n)], None, None, st)
      else (Err(NullPointer), st)
    else BuildDefinition(definitions, pick, name, options, None, None, st)
  }

  /**
    `buildDefinitionArrayField`: the element is the resolved `items` node,
    anonymous, required when `minItems` is set and not "0".
  */
  function BuildDefinitionArrayField(definitions: Json, pick: Selector, name: Name, j: Json,
                                     required: bool, st: State): (res: (Result<Field, Error>, State))
    requires IsContainer(j)
    ensures Grows(st, res.1)
    ensures res.0.Ok? ==> res.0.value.ArrayField? && res.0.value.name == name
                          && res.0.value.isFieldRequired == Some(required)
    decreases Names(definitions) - st.cycling, Size(j), 2
  {
    ContainerChildSmaller(j, "items");
    var res := BuildDefinition(definitions, pick, None, Get(j, "items"), Some(MinItemsRequired(j)), None, st);
    if res.0.Err? then res
    else (BuildArrayFieldWith(name, j, res.0.value, required), res.1)
  }

  /**
    `buildDefinitionObjectField`: an object of its `properties`; else a map
    when `additionalProperties` is a non-empty node; else, for a `$ref`, a
    renamed copy of the cached definition or the definition resolved now
    (its name is left in the cycle guard); else an object made of the
    node's own entries, walked as properties.
  */
  function BuildDefinitionObjectField(definitions: Json, pick: Selector, name: Name, j: Json,
                                      required: Option<bool>, isParentObject: Option<bool>, st: State)
    : (res: (Result<Field, Error>, State))
    ensures Grows(st, res.1)
    decreases Names(definitions) - st.cycling, Size(j), 2
  {
    if Has(j, "properties") then
      var strRequired := RequiredNames(j);
      ChildFieldsSmaller(j, "properties");
      var res := DefinitionProperties(definitions, pick, FieldsOf(Get(j, "properties")), strRequired, st);
      if res.0.Err? then (Err(res.0.error), res.1)
      else (Ok(ObjectField(name, res.0.value, strRequired, required)), res.1)
    else if Get(j, "additionalProperties") != JNull && !IsEmptyNode(Get(j, "additionalProperties")) then
      HasOnObject(j, "additionalProperties");
      var res := BuildDefinition(definitions, pick, Some(InternalMapField), Get(j, "additionalProperties"),
                                 required, None, st);
      if res.0.Err? then res
      else (Ok(MapField(name, res.0.value, Some(CheckRequiredCollection(isParentObject, required)))), res.1)
    else if Has(j, "$ref") then
      var refName := RefName(j);
      if refName in st.defs then
        if st.defs[refName].NullField? then (Err(NullPointer), st)
        else (Ok(CloneField(st.defs[refName], name)), st)
      else if refName !in st.cycling then
        HasOnObject(j, "$ref");
        ExtractDecreases(definitions, refName, st.cycling);
        ExtractDefinition(definitions, pick, refName, required, isParentObject,
                          st.(cycling := st.cycling + {refName}))
      else (Ok(NullField), st)
    else
      var fields := PropertyFields(st.defs, pick, FieldsOf(j), None);
      if fields.Err? then (Err(fields.error), st)
      else (Ok(ObjectField(name, fields.value, [], None)), st)
  }

  /** One property of a definition object: required when listed, with an object parent. */
  function DefinitionProperty(definitions: Json, pick: Selector, p: (string, Json), strRequired: seq<string>,
                              st: State): (res: (Result<Field, Error>, State))
    ensures Grows(st, res.1)
    decreases Names(definitions) - st.cycling, Size(p.1), 4
  {
    BuildDefinition(definitions, pick, Some(p.0), p.1, Some(p.0 in strRequired), Some(true), st)
  }

  /**
    The properties of a definition object, in order; the state is threaded
    through.
  */
  function DefinitionProperties(definitions: Json, pick: Selector, ps: seq<(string, Json)>,
                                strRequired: seq<string>, st: State)
    : (res: (Result<seq<Field>, Error>, State))
    ensures Grows(st, res.1)
    ensures res.0.Ok? ==> |res.0.value| == |ps|
    decreases Names(definitions) - st.cycling, PairsSize(ps), 1
  {
    if ps == [] then (Ok([]), st)
    else
      var p := ps[0];
      assert ps decreases to p;
      assert p decreases to p.1;
      var first := DefinitionProperty(definitions, pick, p, strRequired, st);
      if first.0.Err? then (Err(first.0.error), first.1)
      else
        var rest := DefinitionProperties(definitions, pick, ps[1..], strRequired, first.1);
        GrowsTransitive(st, first.1, rest.1);
        if rest.0.Err? then rest
        else (Ok([first.0.value] + rest.0.value), rest.1)
  }

  /**
    Resolving `refName` with it added to the guard: either the unguarded
    names shrink, or `refName` is not declared and its node is missing.
  */
  lemma ExtractDecreases(definitions: Json, refName: string, cycling: set<string>)
    requires refName !in cycling
    ensures Names(definitions) - (cycling + {refName}) < Names(definitions) - cycling
            || (Names(definitions) - (cycling + {refName}) == Names(definitions) - cycling
                && Size(Get(definitions, refName)) == 1)
  {
    if refName !in Names(definitions) {
      GetAbsent(definitions, refName);
    } else {
      assert refName in Names(definitions) - cycling;
    }
  }

  // ----- the pre-pass over `definitions` -----

  /**
    `putIfAbsent`: a key that is absent or mapped to `null` takes the value;
    any other key keeps its entry.
  */
  function PutIfAbsent(defs: Defs, key: string, f: Field): (r: Defs)
    ensures key in r
    ensures key in defs && !defs[key].NullField? ==> r == defs
    ensures !(key in defs && !defs[key].NullField?) ==> r == defs[key := f]
  {
    if key in defs && !defs[key].NullField? then defs else defs[key := f]
  }

  /**
    One entry of the pre-pass.  A plain definition is resolved and cached
    unless already cached.  A supported reference whose target is cached
    re-resolves the entry itself; otherwise its target is resolved under
    the guard and cached under the entry's key, unless the target is a
    reference too or is already being resolved.  An unsupported reference
    is passed over.
  */
  function ProcessEntry(definitions: Json, pick: Selector, key: string, v: Json, st: State)
    : (res: (Option<Error>, State))
    ensures st.cycling <= res.1.cycling
  {
    if !IsRefNode(v) then
      var built := BuildDefinition(definitions, pick, Some(key), v, None, None, st);
      if built.0.Err? then (Some(built.0.error), built.1)
      else (None, built.1.(defs := PutIfAbsent(built.1.defs, key, built.0.value)))
    else if IsRefNodeSupported(v) then
      var refName := RefName(v);
      if refName in st.defs then
        var built := BuildDefinition(definitions, pick, Some(key), v, None, None, st);
        if built.0.Err? then (Some(built.0.error), built.1)
        else (None, built.1.(defs := built.1.defs[key := built.0.value]))
      else if !IsRefNode(Get(definitions, refName)) && refName !in st.cycling then
        var built := BuildDefinition(definitions, pick, Some(key), Get(definitions, refName), None, None,
                                     st.(cycling := st.cycling + {refName}));
        if built.0.Err? then (Some(built.0.error), built.1)
        else (None, State(built.1.defs[key := built.0.value], built.1.cycling - {refName}))
      else (Some(MissingDefinition), st)
    else (None, st)
  }

  /** `processDefinitions`: the entries in document order, up to the first failure. */
  function ProcessAll(definitions: Json, pick: Selector, ps: seq<(string, Json)>, st: State)
    : (res: (Option<Error>, State))
    ensures st.cycling <= res.1.cycling
  {
    if ps == [] then (None, st)
    else
      var first := ProcessEntry(definitions, pick, ps[0].0, ps[0].1, st);
      if first.0.Some? then first else ProcessAll(definitions, pick, ps[1..], first.1)
  }

  // ----- properties of the walk -----

  /**
    What `buildDefinition` resolves a typed node to: the type as found (a
    list of types is not lower-cased) decides, a list of only "null"s is
    "not type object found", and a `type` that is neither text nor a list
    is a null pointer.
  */
  lemma DefinitionTypedDispatch(definitions: Json, pick: Selector, name: Name, j: Json,
                                required: Option<bool>, isParentObject: Option<bool>, st: State)
    requires Has(j, "type")
    ensures var res := BuildDefinition(definitions, pick, name, j, required, isParentObject, st);
      var ty := GetSafeType(j);
      && (ty.Err? ==> res == (Err(NullPointer), st))
      && (ty == Ok(None) ==> res == (Err(NotTypeObjectFound), st))
      && (ty.Ok? && ty.value.Some? ==>
            var nodeType := ty.value.value;
            && (nodeType == "integer" ==> res == (Ok(IntegerField(name)), st))
            && (nodeType == "number" ==> res == (BuildNumberField(name, j), st))
            && (nodeType == "boolean" ==> res == (Ok(BooleanField(name)), st))
            && (nodeType == "array" ==>
                  IsContainer(j)
                  && res == BuildDefinitionArrayField(definitions, pick, name, j,
                                                      CheckRequiredCollection(isParentObject, required), st))
            && (nodeType == "object" ==>
                  res == BuildDefinitionObjectField(definitions, pick, name, j, required, isParentObject, st))
            && ((nodeType != "integer" && nodeType != "number" && nodeType != "boolean"
                 && nodeType != "array" && nodeType != "object") ==> res == (BuildStringField(name, j), st)))
  {
    var res := BuildDefinition(definitions, pick, name, j, required, isParentObject, st);
    match GetSafeType(j)
    case Err(e) =>
      assert res == (Err(e), st);
    case Ok(None) =>
      assert res == (Err(NotTypeObjectFound), st);
    case Ok(Some(nodeType)) =>
      if nodeType == "integer" {
        assert res == (Ok(IntegerField(name)), st);
      } else if nodeType == "number" {
        assert res == (BuildNumberField(name, j), st);
      } else if nodeType == "array" {
        TypedIsContainer(j);
        assert res == BuildDefinitionArrayField(definitions, pick, name, j,
                                                CheckRequiredCollection(isParentObject, required), st);
      } else if nodeType == "object" {
        assert res == BuildDefinitionObjectField(definitions, pick, name, j, required, isParentObject, st);
      } else if nodeType == "boolean" {
        assert res == (Ok(BooleanField(name)), st);
      } else {
        assert res == (BuildStringField(name, j), st);
      }
  }

  /**
    A node with neither `type` nor `$ref`: a combination goes to
    `chooseAnyOfDefinition`, anything else is an object with no
    requiredness.  `NestedRefGuard` covers the reference case.
  */
  lemma DefinitionUntypedDispatch(definitions: Json, pick: Selector, name: Name, j: Json,
                                  required: Option<bool>, isParentObject: Option<bool>, st: State)
    requires !Has(j, "type") && !Has(j, "$ref")
    ensures var res := BuildDefinition(definitions, pick, name, j, required, isParentObject, st);
      && (IsCombine(j) ==>
            Has(j, Combinator(j)) && res == ChooseAnyOfDefinition(definitions, pick, name, j, Combinator(j), st))
      && (!IsCombine(j) ==> res == BuildDefinitionObjectField(definitions, pick, name, j, None, None, st))
  {
  }

  /**
    `chooseAnyOfDefinition`: `anyOf`/`oneOf` resolve the selected item of a
    non-empty list, with no requiredness, and fail with a null pointer for
    anything else; `allOf` resolves the list node itself.
  */
  lemma ChooseAnyOfDefinitionCases(definitions: Json, pick: Selector, name: Name, j: Json, comb: string,
                                   st: State)
    requires Has(j, comb)
    ensures var options := Get(j, comb);
      var res := ChooseAnyOfDefinition(definitions, pick, name, j, comb, st);
      && ((comb == "anyOf" || comb == "oneOf") && options.JArray? && |options.items| > 0 ==>
            res == BuildDefinition(definitions, pick, name, options.items[pick(j, |options.items|)],
                                   None, None, st))
      && ((comb == "anyOf" || comb == "oneOf") && !(options.JArray? && |options.items| > 0) ==>
            res == (Err(NullPointer), st))
      && (comb != "anyOf" && comb != "oneOf" ==>
            res == BuildDefinition(definitions, pick, name, options, None, None, st))
  {
  }

  /**
    A definition array's one element is its `items` node resolved without a
    name, required exactly when `minItems` is set and not "0", in the state
    the array starts from; `minItems` and `uniqueItems` are then read as
    `BuildArrayFieldWith` reads them.
  */
  lemma DefinitionArrayItems(definitions: Json, pick: Selector, name: Name, j: Json, required: bool,
                             st: State)
    requires IsContainer(j)
    ensures var item := BuildDefinition(definitions, pick, None, Get(j, "items"), Some(MinItemsRequired(j)),
                                        None, st);
      var res := BuildDefinitionArrayField(definitions, pick, name, j, required, st);
      && (item.0.Err? ==> res == item)
      && (item.0.Ok? ==> res == (BuildArrayFieldWith(name, j, item.0.value, required), item.1))
      && (res.0.Ok? ==> item.0.Ok? && res.0.value.values == [item.0.value])
  {
  }

  /**
    `buildDefinitionObjectField` on a node with `properties`: the properties
    are resolved in order against the node's `required` list; the first
    failure is the result, and otherwise an object of them, with that list
    and the node's own requiredness.
  */
  lemma DefinitionObjectCases(definitions: Json, pick: Selector, name: Name, j: Json,
                              required: Option<bool>, isParentObject: Option<bool>, st: State)
    ensures var res := BuildDefinitionObjectField(definitions, pick, name, j, required, isParentObject, st);
      var props := DefinitionProperties(definitions, pick, FieldsOf(Get(j, "properties")), RequiredNames(j), st);
      && (Has(j, "properties") && props.0.Err? ==> res == (Err(props.0.error), props.1))
      && (Has(j, "properties") && props.0.Ok? ==>
            res == (Ok(ObjectField(name, props.0.value, RequiredNames(j), required)), props.1))
  {
    var res := BuildDefinitionObjectField(definitions, pick, name, j, required, isParentObject, st);
    if Has(j, "properties") {
      var props := DefinitionProperties(definitions, pick, FieldsOf(Get(j, "properties")), RequiredNames(j), st);
      assert res == if props.0.Err? then (Err(props.0.error), props.1)
                    else (Ok(ObjectField(name, props.0.value, RequiredNames(j), required)), props.1);
    }
  }

  /**
    `buildDefinitionObjectField` on a node without `properties` whose
    `additionalProperties` is non-empty: a map whose value type is that node
    resolved, or the failure resolving it.
  */
  lemma DefinitionMapCases(definitions: Json, pick: Selector, name: Name, j: Json,
                           required: Option<bool>, isParentObject: Option<bool>, st: State)
    ensures var res := BuildDefinitionObjectField(definitions, pick, name, j, required, isParentObject, st);
      var ap := Get(j, "additionalProperties");
      var isMap := ap != JNull && !IsEmptyNode(ap);
      var valueType := BuildDefinition(definitions, pick, Some(InternalMapField), ap, required, None, st);
      && (!Has(j, "properties") && isMap && valueType.0.Err? ==> res == valueType)
      && (!Has(j, "properties") && isMap && valueType.0.Ok? ==>
            res == (Ok(MapField(name, valueType.0.value, Some(CheckRequiredCollection(isParentObject, required)))),
                    valueType.1))
  {
    var res := BuildDefinitionObjectField(definitions, pick, name, j, required, isParentObject, st);
    var ap := Get(j, "additionalProperties");
    if !Has(j, "properties") && ap != JNull && !IsEmptyNode(ap) {
      var valueType := BuildDefinition(definitions, pick, Some(InternalMapField), ap, required, None, st);
      assert res == if valueType.0.Err? then valueType
                    else (Ok(MapField(name, valueType.0.value, Some(CheckRequiredCollection(isParentObject, required)))),
                          valueType.1);
    }
  }

  /**
    The last outcomes of `buildDefinitionObjectField`, for a node with
    neither `properties` nor a non-empty `additionalProperties`: for a
    `$ref`, a renamed copy of a cached definition (a cached `null` fails) or
    `null` for a guarded name; otherwise an object of the node's own
    entries, built as plain properties from the cache, with no `required`
    list and no requiredness, and nothing changed.
  */
  lemma DefinitionObjectFallback(definitions: Json, pick: Selector, name: Name, j: Json,
                                 required: Option<bool>, isParentObject: Option<bool>, st: State)
    requires !Has(j, "properties")
    requires Get(j, "additionalProperties") == JNull || IsEmptyNode(Get(j, "additionalProperties"))
    ensures var res := BuildDefinitionObjectField(definitions, pick, name, j, required, isParentObject, st);
      var fields := PropertyFields(st.defs, pick, FieldsOf(j), None);
      && (Has(j, "$ref") && RefName(j) in st.defs ==>
            (st.defs[RefName(j)].NullField? ==> res == (Err(NullPointer), st))
            && (!st.defs[RefName(j)].NullField? ==> res == (Ok(CloneField(st.defs[RefName(j)], name)), st)))
      && (Has(j, "$ref") && RefName(j) !in st.defs && RefName(j) in st.cycling ==> res == (Ok(NullField), st))
      && (!Has(j, "$ref") && fields.Err? ==> res == (Err(fields.error), st))
      && (!Has(j, "$ref") && fields.Ok? ==> res == (Ok(ObjectField(name, fields.value, [], None)), st))
  {
    var res := BuildDefinitionObjectField(definitions, pick, name, j, required, isParentObject, st);
    if Has(j, "$ref") {
      var refName := RefName(j);
      if refName in st.defs {
        if st.defs[refName].NullField? {
          assert res == (Err(NullPointer), st);
        } else {
          assert res == (Ok(CloneField(st.defs[refName], name)), st);
        }
      } else if refName in st.cycling {
        assert res == (Ok(NullField), st);
      }
    } else {
      var fields := PropertyFields(st.defs, pick, FieldsOf(j), None);
      assert res == if fields.Err? then (Err(fields.error), st) else (Ok(ObjectField(name, fields.value, [], None)), st);
    }
  }

  /** The state after the first `i` properties of a definition object are resolved. */
  function StateAfter(definitions: Json, pick: Selector, ps: seq<(string, Json)>, strRequired: seq<string>,
                      st: State, i: nat): State
    requires i <= |ps|
    decreases i, 0
  {
    if i == 0 then st else PropertyStep(definitions, pick, ps, strRequired, st, i - 1).1
  }

  /** Resolving property `k` in the state the earlier properties left. */
  function PropertyStep(definitions: Json, pick: Selector, ps: seq<(string, Json)>, strRequired: seq<string>,
                        st: State, k: nat): (Result<Field, Error>, State)
    requires k < |ps|
    decreases k, 1
  {
    DefinitionProperty(definitions, pick, ps[k], strRequired, StateAfter(definitions, pick, ps, strRequired, st, k))
  }

  /** Dropping the first property shifts the steps by one. */
  lemma {:induction false} StepShift(definitions: Json, pick: Selector, ps: seq<(string, Json)>,
                                     strRequired: seq<string>, st: State, i: nat)
    requires i < |ps|
    ensures var st1 := PropertyStep(definitions, pick, ps, strRequired, st, 0).1;
      StateAfter(definitions, pick, ps, strRequired, st, i + 1) ==
        StateAfter(definitions, pick, ps[1..], strRequired, st1, i)
      && (i + 1 < |ps| ==>
            PropertyStep(definitions, pick, ps, strRequired, st, i + 1) ==
            PropertyStep(definitions, pick, ps[1..], strRequired, st1, i))
    decreases i
  {
    var st1 := PropertyStep(definitions, pick, ps, strRequired, st, 0).1;
    if i > 0 {
      StepShift(definitions, pick, ps, strRequired, st, i - 1);
    }
    if i + 1 < |ps| {
      assert ps[i + 1] == ps[1..][i];
    }
  }

  /** The first step of the property list, and the list after it. */
  lemma DefinitionPropertiesStep(definitions: Json, pick: Selector, ps: seq<(string, Json)>,
                                 strRequired: seq<string>, st: State)
    requires ps != []
    ensures var first := PropertyStep(definitions, pick, ps, strRequired, st, 0);
      var rest := DefinitionProperties(definitions, pick, ps[1..], strRequired, first.1);
      DefinitionProperties(definitions, pick, ps, strRequired, st) ==
        if first.0.Err? then (Err(first.0.error), first.1)
        else if rest.0.Err? then rest
        else (Ok([first.0.value] + rest.0.value), rest.1)
  {
    assert StateAfter(definitions, pick, ps, strRequired, st, 0) == st;
  }

  /** Every later step of the list is a step of the list that starts after the first. */
  lemma StepsShift(definitions: Json, pick: Selector, ps: seq<(string, Json)>, strRequired: seq<string>,
                   st: State)
    requires ps != []
    ensures var st1 := PropertyStep(definitions, pick, ps, strRequired, st, 0).1;
      && StateAfter(definitions, pick, ps, strRequired, st, 1) == st1
      && forall i :: 0 < i < |ps| ==>
           PropertyStep(definitions, pick, ps, strRequired, st, i) ==
             PropertyStep(definitions, pick, ps[1..], strRequired, st1, i - 1)
           && StateAfter(definitions, pick, ps, strRequired, st, i + 1) ==
             StateAfter(definitions, pick, ps[1..], strRequired, st1, i)
  {
    var st1 := PropertyStep(definitions, pick, ps, strRequired, st, 0).1;
    StepShift(definitions, pick, ps, strRequired, st, 0);
    forall i | 0 < i < |ps|
      ensures PropertyStep(definitions, pick, ps, strRequired, st, i) ==
                PropertyStep(definitions, pick, ps[1..], strRequired, st1, i - 1)
      ensures StateAfter(definitions, pick, ps, strRequired, st, i + 1) ==
                StateAfter(definitions, pick, ps[1..], strRequired, st1, i)
    {
      StepShift(definitions, pick, ps, strRequired, st, i - 1);
      StepShift(definitions, pick, ps, strRequired, st, i);
    }
  }

  /** The properties of a definition object all resolve exactly when every step does. */
  lemma {:induction false} DefinitionPropertiesAllOk(definitions: Json, pick: Selector,
                                                     ps: seq<(string, Json)>, strRequired: seq<string>,
                                                     st: State)
    ensures var res := DefinitionProperties(definitions, pick, ps, strRequired, st);
      res.0.Ok? <==> forall i :: 0 <= i < |ps| ==> PropertyStep(definitions, pick, ps, strRequired, st, i).0.Ok?
    decreases |ps|
  {
    var res := DefinitionProperties(definitions, pick, ps, strRequired, st);
    if ps == [] {
      assert res.0.Ok?;
    } else {
      var first := PropertyStep(definitions, pick, ps, strRequired, st, 0);
      var rest := DefinitionProperties(definitions, pick, ps[1..], strRequired, first.1);
      DefinitionPropertiesStep(definitions, pick, ps, strRequired, st);
      if first.0.Err? {
        assert !res.0.Ok?;
      } else {
        assert res.0.Ok? == rest.0.Ok?;
        DefinitionPropertiesAllOk(definitions, pick, ps[1..], strRequired, first.1);
        StepsShift(definitions, pick, ps, strRequired, st);
        if rest.0.Ok? {
          forall i | 0 <= i < |ps|
            ensures PropertyStep(definitions, pick, ps, strRequired, st, i).0.Ok?
          {
            if i > 0 {
              assert PropertyStep(definitions, pick, ps[1..], strRequired, first.1, i - 1).0.Ok?;
            }
          }
        } else {
          var k :| 0 <= k < |ps[1..]| &&
            !PropertyStep(definitions, pick, ps[1..], strRequired, first.1, k).0.Ok?;
          assert !PropertyStep(definitions, pick, ps, strRequired, st, k + 1).0.Ok?;
        }
      }
    }
  }

  /** When the properties of a definition object resolve, the final state is the one the last step leaves. */
  lemma {:induction false} DefinitionPropertiesFinalState(definitions: Json, pick: Selector,
                                                          ps: seq<(string, Json)>, strRequired: seq<string>,
                                                          st: State)
    ensures var res := DefinitionProperties(definitions, pick, ps, strRequired, st);
      res.0.Ok? ==> res.1 == StateAfter(definitions, pick, ps, strRequired, st, |ps|)
    decreases |ps|
  {
    var res := DefinitionProperties(definitions, pick, ps, strRequired, st);
    if ps != [] {
      var first := PropertyStep(definitions, pick, ps, strRequired, st, 0);
      var rest := DefinitionProperties(definitions, pick, ps[1..], strRequired, first.1);
      DefinitionPropertiesStep(definitions, pick, ps, strRequired, st);
      if first.0.Ok? && res.0.Ok? {
        assert rest.0.Ok? && res.1 == rest.1;
        DefinitionPropertiesFinalState(definitions, pick, ps[1..], strRequired, first.1);
        StepsShift(definitions, pick, ps, strRequired, st);
        if |ps| == 1 {
          assert rest == (Ok([]), first.1);
        } else {
          assert StateAfter(definitions, pick, ps, strRequired, st, |ps|) ==
                 StateAfter(definitions, pick, ps[1..], strRequired, first.1, |ps| - 1);
        }
      }
    }
  }

  /**
    The properties of a definition object are resolved one after the other:
    when the list succeeds, field `i` is property `i` resolved in the state
    the earlier ones left.
  */
  lemma {:induction false} DefinitionPropertiesPointwise(definitions: Json, pick: Selector,
                                                         ps: seq<(string, Json)>, strRequired: seq<string>,
                                                         st: State)
    ensures var res := DefinitionProperties(definitions, pick, ps, strRequired, st);
      res.0.Ok? ==>
        forall i :: 0 <= i < |ps| ==>
          PropertyStep(definitions, pick, ps, strRequired, st, i) ==
          (Ok(res.0.value[i]), StateAfter(definitions, pick, ps, strRequired, st, i + 1))
    decreases |ps|
  {
    var res := DefinitionProperties(definitions, pick, ps, strRequired, st);
    if ps != [] {
      var first := PropertyStep(definitions, pick, ps, strRequired, st, 0);
      var rest := DefinitionProperties(definitions, pick, ps[1..], strRequired, first.1);
      DefinitionPropertiesStep(definitions, pick, ps, strRequired, st);
      if first.0.Ok? && res.0.Ok? {
        assert rest.0.Ok? && res.0.value == [first.0.value] + rest.0.value;
        DefinitionPropertiesPointwise(definitions, pick, ps[1..], strRequired, first.1);
        StepsShift(definitions, pick, ps, strRequired, st);
        forall i | 0 <= i < |ps|
          ensures PropertyStep(definitions, pick, ps, strRequired, st, i) ==
                  (Ok(res.0.value[i]), StateAfter(definitions, pick, ps, strRequired, st, i + 1))
        {
          if i == 0 {
            assert res.0.value[0] == first.0.value;
          } else {
            assert res.0.value[i] == rest.0.value[i - 1];
          }
        }
      }
    }
  }

  /**
    The cycle guard around a nested `$ref`: a cached name is returned as it
    is cached, with nothing changed; a name already being resolved gives
    `null`; a name resolved now is cached and, on success, taken off the
    guard again.
  */
  lemma NestedRefGuard(definitions: Json, pick: Selector, name: Name, j: Json,
                       required: Option<bool>, isParentObject: Option<bool>, st: State)
    requires IsRefNode(j) && !IsAnyType(j)
    ensures var refName := RefName(j);
      var res := BuildDefinition(definitions, pick, name, j, required, isParentObject, st);
      && (refName in st.defs ==> res == (Ok(st.defs[refName]), st))
      && (refName !in st.defs && refName in st.cycling ==> res == (Ok(NullField), st))
      && (refName !in st.defs && refName !in st.cycling && res.0.Ok? ==>
            refName !in res.1.cycling && refName in res.1.defs && res.1.defs[refName] == res.0.value)
  {
    var refName := RefName(j);
    if refName !in st.defs && refName !in st.cycling {
      var inner := ExtractDefinition(definitions, pick, refName, required, isParentObject,
                                     st.(cycling := st.cycling + {refName}));
      assert BuildDefinition(definitions, pick, name, j, required, isParentObject, st) ==
             (if inner.0.Err? then inner else (inner.0, inner.1.(cycling := inner.1.cycling - {refName})));
    }
  }

  /**
    Inside a definition object, a `$ref` resolved now leaves its name in
    the cycle guard, so a later reference to it in the same parse yields
    `null` unless it is cached by then.
  */
  lemma ObjectRefLeavesGuard(definitions: Json, pick: Selector, name: Name, j: Json,
                             required: Option<bool>, isParentObject: Option<bool>, st: State)
    requires !Has(j, "properties") && Has(j, "$ref")
    requires Get(j, "additionalProperties") == JNull || IsEmptyNode(Get(j, "additionalProperties"))
    requires RefName(j) !in st.defs && RefName(j) !in st.cycling
    ensures var res := BuildDefinitionObjectField(definitions, pick, name, j, required, isParentObject, st);
      RefName(j) in res.1.cycling
      && (res.0.Ok? ==> RefName(j) in res.1.defs && res.1.defs[RefName(j)] == res.0.value)
  {
  }

  /**
    `allOf` in a definition resolves its branch list as one node, which
    has no `type`, `$ref` or combination and no entries: an empty object.
  */
  lemma AllOfDefinitionIsEmpty(definitions: Json, pick: Selector, name: Name, j: Json, st: State)
    requires !IsAnyType(j) && !IsRefNode(j) && !Has(j, "anyOf") && Has(j, "allOf")
    requires Get(j, "allOf").JArray?
    ensures BuildDefinition(definitions, pick, name, j, None, None, st) ==
            (Ok(ObjectField(name, [], [], None)), st)
  {
    var options := Get(j, "allOf");
    assert Combinator(j) == "allOf";
    assert BuildDefinition(definitions, pick, name, j, None, None, st) ==
           ChooseAnyOfDefinition(definitions, pick, name, j, "allOf", st);
    assert ChooseAnyOfDefinition(definitions, pick, name, j, "allOf", st) ==
           BuildDefinition(definitions, pick, name, options, None, None, st);
    assert !IsAnyType(options) && !IsRefNode(options) && !IsCombine(options);
    assert BuildDefinition(definitions, pick, name, options, None, None, st) ==
           BuildDefinitionObjectField(definitions, pick, name, options, None, None, st);
    assert !Has(options, "properties") && Get(options, "additionalProperties") == JMissing;
    assert FieldsOf(options) == [];
    assert PropertyFields(st.defs, pick, [], None) == Ok([]);
  }

  /**
    The pre-pass keeps the first value cached under a plain definition's
    key: an entry already there (even one cached while resolving this very
    definition) wins over the value just built.
  */
  lemma FirstWriterWins(definitions: Json, pick: Selector, key: string, v: Json, st: State)
    requires !IsRefNode(v)
    ensures var built := BuildDefinition(definitions, pick, Some(key), v, None, None, st);
      var res := ProcessEntry(definitions, pick, key, v, st);
      && (res.0.None? <==> built.0.Ok?)
      && (key in st.defs && !st.defs[key].NullField? ==> key in res.1.defs && res.1.defs[key] == st.defs[key])
      && (res.0.None? && !(key in built.1.defs && !built.1.defs[key].NullField?) ==>
            res.1.defs[key] == built.0.value)
      && st.cycling <= res.1.cycling
  {
    var built := BuildDefinition(definitions, pick, Some(key), v, None, None, st);
    var res := ProcessEntry(definitions, pick, key, v, st);
    if built.0.Ok? {
      var defs := PutIfAbsent(built.1.defs, key, built.0.value);
      assert res == (None, built.1.(defs := defs));
      if key in st.defs && !st.defs[key].NullField? {
        assert key in built.1.defs && built.1.defs[key] == st.defs[key];
        assert defs == built.1.defs;
      }
    } else {
      assert res == (Some(built.0.error), built.1);
    }
  }

  /**
    A reference entry whose target is uncached and is itself a reference,
    or is already being resolved, fails with a missing definition and
    changes nothing; an unsupported reference entry is passed over.
  */
  lemma RefEntryFailures(definitions: Json, pick: Selector, key: string, v: Json, st: State)
    requires IsRefNode(v)
    ensures var refName := RefName(v);
      var res := ProcessEntry(definitions, pick, key, v, st);
      && (!IsRefNodeSupported(v) ==> res == (None, st))
      && (IsRefNodeSupported(v) && refName !in st.defs
          && (IsRefNode(Get(definitions, refName)) || refName in st.cycling) ==>
            res == (Some(MissingDefinition), st))
  {
  }

  /**
    A reference entry whose target is resolved now stores the target's
    field under the entry's own key and takes the target off the guard.
  */
  lemma RefEntryResolved(definitions: Json, pick: Selector, key: string, v: Json, st: State)
    requires IsRefNode(v) && IsRefNodeSupported(v)
    requires RefName(v) !in st.defs && RefName(v) !in st.cycling && !IsRefNode(Get(definitions, RefName(v)))
    ensures var refName := RefName(v);
      var built := BuildDefinition(definitions, pick, Some(key), Get(definitions, refName), None, None,
                                   st.(cycling := st.cycling + {refName}));
      var res := ProcessEntry(definitions, pick, key, v, st);
      res.0.None? ==>
        built.0.Ok? && key in res.1.defs && res.1.defs[key] == built.0.value
        && refName !in res.1.cycling && st.cycling <= res.1.cycling
  {
  }

  /**
    A supported reference entry whose target is already cached rebuilds the
    entry's own node and puts the result under the entry's key, replacing
    whatever was there; for a reference without a `type` that result is
    the cached target itself.
  */
  lemma RefEntryCached(definitions: Json, pick: Selector, key: string, v: Json, st: State)
    requires IsRefNode(v) && IsRefNodeSupported(v) && RefName(v) in st.defs
    ensures var built := BuildDefinition(definitions, pick, Some(key), v, None, None, st);
      var res := ProcessEntry(definitions, pick, key, v, st);
      && (built.0.Err? ==> res == (Some(built.0.error), built.1))
      && (built.0.Ok? ==> res == (None, built.1.(defs := built.1.defs[key := built.0.value])))
      && (!IsAnyType(v) ==> res == (None, State(st.defs[key := st.defs[RefName(v)]], st.cycling)))
  {
    if !IsAnyType(v) {
      NestedRefGuard(definitions, pick, Some(key), v, None, None, st);
    }
  }

  /**
    A supported reference entry whose target is not declared resolves the
    missing node, which reads as an object with no entries: the entry's key
    gets an empty object and the guard is as before.
  */
  lemma MissingTargetIsEmptyObject(definitions: Json, pick: Selector, key: string, v: Json, st: State)
    requires IsRefNode(v) && IsRefNodeSupported(v)
    requires RefName(v) !in st.defs && RefName(v) !in st.cycling && RefName(v) !in Names(definitions)
    ensures ProcessEntry(definitions, pick, key, v, st) ==
            (None, State(st.defs[key := ObjectField(Some(key), [], [], None)], st.cycling))
  {
    var refName := RefName(v);
    GetAbsent(definitions, refName);
    var guarded := st.(cycling := st.cycling + {refName});
    assert !IsAnyType(JMissing) && !IsRefNode(JMissing) && !IsCombine(JMissing);
    assert BuildDefinition(definitions, pick, Some(key), JMissing, None, None, guarded) ==
           BuildDefinitionObjectField(definitions, pick, Some(key), JMissing, None, None, guarded);
    assert IsEmptyNode(JMissing) && FieldsOf(JMissing) == [];
    assert PropertyFields(guarded.defs, pick, [], None) == Ok([]);
    assert BuildDefinitionObjectField(definitions, pick, Some(key), JMissing, None, None, guarded) ==
           (Ok(ObjectField(Some(key), [], [], None)), guarded);
    assert guarded.cycling - {refName} == st.cycling;
  }

  /** A definition that is only a reference to the definition named `n`. */
  function RefTo(n: string): Json
  {
    JObject([("$ref", JStr("#/definitions/" + n))])
  }

  /** Two definitions that refer to each other and nothing else cannot be resolved. */
  lemma MutualReferencesFail(pick: Selector, x: string, y: string)
    requires x != y && '/' !in x && '/' !in y
    ensures var definitions := JObject([(x, RefTo(y)), (y, RefTo(x))]);
      ProcessAll(definitions, pick, FieldsOf(definitions), State(map[], {})).0 == Some(MissingDefinition)
  {
    var definitions := JObject([(x, RefTo(y)), (y, RefTo(x))]);
    var st := State(map[], {});
    assert RefText(RefTo(y)) == "#/definitions/" + y;
    DefinitionRefName(y);
    assert StartsWith("#/definitions/" + y, "#");
    assert Get(definitions, y) == RefTo(x) by {
      assert definitions.entries[1..] == [(y, RefTo(x))];
      assert Lookup(definitions.entries, y) == Lookup([(y, RefTo(x))], y);
    }
    assert IsRefNode(RefTo(x));
    RefEntryFailures(definitions, pick, x, RefTo(y), st);
  }
}
