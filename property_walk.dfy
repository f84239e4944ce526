/**
  The property walk of the resolver: `buildProperty` and the builders it
  reaches (`buildField`, `buildObjectField`, `buildArrayField`,
  `chooseAnyOf`, `buildCombinedField`).  The walk only reads the cache of
  resolved definitions, so it is a group of functions of that cache, of the
  node and of the branch selector.  Every failure is an `Error`.
*/
module PropertyWalk {
  import opened Wrappers
  import opened JavaText
  import opened Json
  import opened FieldModel
  import opened ParserSupport

  /** The cache of resolved definitions, by definition name. */
  type Defs = map<string, Field>

  /** `HashMap.get`: Java `null` for a name that is not cached. */
  function Cached(defs: Defs, name: string): (f: Field)
    ensures name !in defs ==> f.NullField?
    ensures name in defs ==> f == defs[name]
  {
    if name in defs then defs[name] else NullField
  }

  /** The name a supported `$ref` node refers to. */
  function RefName(j: Json): string { ExtractRefName(RefText(j)) }

  /** `"array".equalsIgnoreCase(findPath("type").textValue())`. */
  predicate TypedAsArray(j: Json)
  {
    match TextValue(FindPath(j, "type"))
    case Some(t) => EqualsIgnoreCase("array", t)
    case None => false
  }

  /** A resolved field that is present and carries the name it was built under. */
  predicate Named(f: Field, name: Name) { !f.NullField? && f.name == name }

  /**
    `buildProperty`: a reference takes a copy of its cached definition, a
    typed node is built by its type, a combination picks or merges its
    branches, a node with `properties` is an object, anything else is
    rejected.
  */
  function BuildProperty(defs: Defs, pick: Selector, name: Name, j: Json,
                         required: Option<bool>, isParentObject: Option<bool>): (r: Result<Field, Error>)
    ensures r.Ok? ==> Named(r.value, name)
    decreases Size(j), 4
  {
    if IsRefNode(j) then BuildRefProperty(defs, name, j, required, isParentObject)
    else if IsAnyType(j) then BuildField(defs, pick, name, j, required, isParentObject)
    else if IsCombine(j) then
      HasOnObject(j, Combinator(j));
      ChooseAnyOf(defs, pick, name, j, Combinator(j))
    else if HasProperties(j) then BuildObjectField(defs, pick, name, j, required, None)
    else Err(NotSupportedFile)
  }

  /**
    The `$ref` case of `buildProperty`: only `#` references are supported;
    the cached definition is copied under the property's name, or becomes
    the element of an array when the node's `type` is "array".
  */
  function BuildRefProperty(defs: Defs, name: Name, j: Json,
                            required: Option<bool>, isParentObject: Option<bool>): (r: Result<Field, Error>)
    ensures r.Ok? ==> Named(r.value, name)
  {
    if IsRefNodeSupported(j) then
      var definition := Cached(defs, RefName(j));
      if definition.NullField? then Err(NullPointer)
      else if TypedAsArray(j) then
        BuildArrayFieldWith(name, j, CloneField(definition, None),
                            CheckRequiredCollection(isParentObject, required))
      else Ok(PropagateRequired(CloneField(definition, name), required, isParentObject))
    else Err(ReferenceNotSupported(RefName(j)))
  }

  /** `buildField`: dispatch on the lower-cased type that `findPath` finds. */
  function BuildField(defs: Defs, pick: Selector, name: Name, j: Json,
                      required: Option<bool>, isParentObject: Option<bool>): (r: Result<Field, Error>)
    ensures r.Ok? ==> Named(r.value, name)
    decreases Size(j), 3
  {
    match GetSafeType(j)
    case Err(e) => Err(e)
    case Ok(None) => Err(NullPointer)
    case Ok(Some(t)) =>
      var nodeType := ToLower(t);
      if nodeType == "integer" then Ok(IntegerField(name))
      else if nodeType == "number" then BuildNumberField(name, j)
      else if nodeType == "array" then
        TypedIsContainer(j);
        BuildArrayField(defs, pick, name, j, CheckRequiredCollection(isParentObject, required))
      else if nodeType == "object" then BuildObjectField(defs, pick, name, j, required, isParentObject)
      else if nodeType == "boolean" then Ok(BooleanField(name))
      else BuildStringField(name, j)
  }

  /**
    The three-argument `buildArrayField`: the element is the `items` node,
    anonymous, required when `minItems` is set and not "0".
  */
  function BuildArrayField(defs: Defs, pick: Selector, name: Name, j: Json, required: bool)
    : (r: Result<Field, Error>)
    requires IsContainer(j)
    ensures r.Ok? ==> Named(r.value, name) && r.value.ArrayField?
                      && r.value.isFieldRequired == Some(required) && |r.value.values| == 1
    decreases Size(j), 2
  {
    ContainerChildSmaller(j, "items");
    var value :- BuildProperty(defs, pick, None, Get(j, "items"), Some(MinItemsRequired(j)), None);
    BuildArrayFieldWith(name, j, value, required)
  }

  /**
    `buildObjectField`: without a combination, an object of its `properties`
    (each required when listed, each with an object parent) unless
    `additionalProperties` is a non-empty node, which makes it a map; with a
    combination, the combination decides.
  */
  function BuildObjectField(defs: Defs, pick: Selector, name: Name, j: Json,
                            required: Option<bool>, isParentObject: Option<bool>): (r: Result<Field, Error>)
    ensures r.Ok? ==> Named(r.value, name)
    decreases Size(j), 2
  {
    var strRequired := RequiredNames(j);
    if !IsCombine(j) then
      var ap := Get(j, "additionalProperties");
      if ap == JNull || IsEmptyNode(ap) then
        ChildFieldsSmaller(j, "properties");
        var properties :- PropertyFields(defs, pick, FieldsOf(Get(j, "properties")), Some(strRequired));
        Ok(ObjectField(name, properties, strRequired, required))
      else
        HasOnObject(j, "additionalProperties");
        var mapType :- BuildProperty(defs, pick, Some(InternalMapField), ap, Some(false), None);
        Ok(MapField(name, mapType, Some(CheckRequiredCollection(isParentObject, required))))
    else
      HasOnObject(j, Combinator(j));
      ChooseAnyOf(defs, pick, name, j, Combinator(j))
  }

  /**
    `chooseAnyOf`: branches that are all objects or references are merged
    (`allOf`: all of them; `anyOf`/`oneOf`: the selected one); branches that
    are all plain types give the selected one's field (`allOf` is an error);
    a mixture is an error.
  */
  function ChooseAnyOf(defs: Defs, pick: Selector, name: Name, j: Json, comb: string)
    : (r: Result<Field, Error>)
    ensures r.Ok? ==> Named(r.value, name)
    decreases Size(j), 1
  {
    var branches := Elements(Get(j, comb));
    var n := |branches|;
    ChildElementsSmaller(j, comb);
    if AllStructural(branches) then
      if comb == "anyOf" || comb == "oneOf" then
        if n == 0 then Err(IndexOutOfBounds)
        else
          var chosen := branches[pick(j, n)];
          ItemSmaller(branches, pick(j, n));
          SingletonSize(chosen);
          BuildCombinedField(defs, pick, name, [chosen])
      else BuildCombinedField(defs, pick, name, branches)
    else if AllScalar(branches) then
      if comb == "anyOf" || comb == "oneOf" then
        ItemSmaller(branches, pick(j, n));
        BuildField(defs, pick, name, branches[pick(j, n)], None, None)
      else Err(IncorrectTypeInCombination)
    else Err(TypesAndPropertiesMixed)
  }

  /**
    `buildCombinedField`: one object holding what every branch contributes,
    with no `required` list and not required itself.
  */
  function BuildCombinedField(defs: Defs, pick: Selector, name: Name, branches: seq<Json>)
    : (r: Result<Field, Error>)
    ensures r.Ok? ==> Named(r.value, name) && r.value.ObjectField?
                      && r.value.required == [] && r.value.isFieldRequired == Some(false)
    decreases ItemsSize(branches), 1
  {
    var fields :- CombinedFields(defs, pick, name, branches);
    Ok(ObjectField(name, fields, [], Some(false)))
  }

  /** The fields of the branches, in order. */
  function CombinedFields(defs: Defs, pick: Selector, name: Name, branches: seq<Json>)
    : (r: Result<seq<Field>, Error>)
    decreases ItemsSize(branches), 0
  {
    if branches == [] then Ok([])
    else
      ItemSmaller(branches, 0);
      var head :- BranchFields(defs, pick, name, branches[0]);
      var rest :- CombinedFields(defs, pick, name, branches[1..]);
      Ok(head + rest)
  }

  /**
    What one branch contributes: a reference its cached definition renamed
    (itself when the branch also has a `type`, else that definition's
    properties); a branch with `properties` those properties, built with no
    requiredness; anything else nothing.
  */
  function BranchFields(defs: Defs, pick: Selector, name: Name, branch: Json)
    : (r: Result<seq<Field>, Error>)
    decreases Size(branch), 2
  {
    if IsRefNode(branch) then RefBranch(defs, name, branch)
    else if Has(branch, "properties") then
      ChildFieldsSmaller(branch, "properties");
      PropertyFields(defs, pick, FieldsOf(Get(branch, "properties")), None)
    else Ok([])
  }

  /**
    A `$ref` branch of a combination: the cached definition renamed, or its
    `getProperties()` list when the branch has no `type`.
  */
  function RefBranch(defs: Defs, name: Name, branch: Json): Result<seq<Field>, Error>
  {
    var definition := Cached(defs, RefName(branch));
    if definition.NullField? then Err(NullPointer)
    else
      var refField := CloneField(definition, name);
      if IsAnyType(branch) then Ok([refField]) else Ok(GetProperties(refField))
  }

  /**
    The fields of a list of properties, in order.  With `Some(names)` the
    properties belong to an object whose `required` list is `names`: each is
    required when listed and has an object parent.  With `None` both are
    left unset.
  */
  function PropertyFields(defs: Defs, pick: Selector, ps: seq<(string, Json)>,
                          requiredList: Option<seq<string>>): (r: Result<seq<Field>, Error>)
    ensures r.Ok? ==> |r.value| == |ps|
                      && forall i :: 0 <= i < |ps| ==> Named(r.value[i], Some(ps[i].0))
    decreases PairsSize(ps), 0
  {
    if ps == [] then Ok([])
    else
      var key := ps[0].0;
      var f :- BuildProperty(defs, pick, Some(key), ps[0].1, RequiredOf(requiredList, key),
                             ParentOf(requiredList));
      var rest :- PropertyFields(defs, pick, ps[1..], requiredList);
      Ok([f] + rest)
  }

  /** Whether a property is required: listed in its object's `required`, or unset. */
  function RequiredOf(requiredList: Option<seq<string>>, key: string): Option<bool>
  {
    if requiredList.Some? then Some(key in requiredList.value) else None
  }

  /** Whether a property's parent is an object: yes inside an object, else unset. */
  function ParentOf(requiredList: Option<seq<string>>): Option<bool>
  {
    if requiredList.Some? then Some(true) else None
  }

  /** Two lists of fields one after the other; the first failure wins. */
  function Concat(a: Result<seq<Field>, Error>, b: Result<seq<Field>, Error>): Result<seq<Field>, Error>
  {
    if a.Err? then a else if b.Err? then b else Ok(a.value + b.value)
  }

  lemma ConcatEmpty(r: Result<seq<Field>, Error>)
    ensures Concat(Ok([]), r) == r
  {
    if r.Ok? {
      assert [] + r.value == r.value;
    }
  }

  lemma ConcatAssoc(a: seq<Field>, b: seq<Field>, r: Result<seq<Field>, Error>)
    ensures Concat(Ok(a), Concat(Ok(b), r)) == Concat(Ok(a + b), r)
  {
    if r.Ok? {
      assert a + (b + r.value) == (a + b) + r.value;
    }
  }

  lemma SingletonSize(x: Json)
    ensures ItemsSize([x]) == 1 + Size(x)
  {
    assert [x][1..] == [];
  }

  // ----- properties of the walk -----

  /**
    The property list is built entry by entry: it succeeds exactly when every
    entry does, and then its i-th field is the i-th entry's field.
  */
  lemma {:induction false} PropertyFieldsPointwise(defs: Defs, pick: Selector, ps: seq<(string, Json)>,
                                                   requiredList: Option<seq<string>>)
    ensures PropertyFields(defs, pick, ps, requiredList).Ok? <==>
      forall i :: 0 <= i < |ps| ==>
        BuildProperty(defs, pick, Some(ps[i].0), ps[i].1, RequiredOf(requiredList, ps[i].0),
                      ParentOf(requiredList)).Ok?
    ensures PropertyFields(defs, pick, ps, requiredList).Ok? ==>
      forall i :: 0 <= i < |ps| ==>
        BuildProperty(defs, pick, Some(ps[i].0), ps[i].1, RequiredOf(requiredList, ps[i].0),
                      ParentOf(requiredList)) == Ok(PropertyFields(defs, pick, ps, requiredList).value[i])
  {
    if ps != [] {
      var f := BuildProperty(defs, pick, Some(ps[0].0), ps[0].1, RequiredOf(requiredList, ps[0].0),
                             ParentOf(requiredList));
      var rest := PropertyFields(defs, pick, ps[1..], requiredList);
      var r := PropertyFields(defs, pick, ps, requiredList);
      PropertyFieldsPointwise(defs, pick, ps[1..], requiredList);
      assert r == (if f.Err? then Err(f.error) else Concat(Ok([f.value]), rest));
      if r.Ok? {
        forall i | 0 <= i < |ps|
          ensures BuildProperty(defs, pick, Some(ps[i].0), ps[i].1, RequiredOf(requiredList, ps[i].0),
                                ParentOf(requiredList)) == Ok(r.value[i])
        {
          if i > 0 {
            assert ps[i] == ps[1..][i - 1];
            assert r.value[i] == rest.value[i - 1];
          }
        }
      } else if f.Ok? {
        var j :| 0 <= j < |ps[1..]| &&
          !BuildProperty(defs, pick, Some(ps[1..][j].0), ps[1..][j].1, RequiredOf(requiredList, ps[1..][j].0),
                         ParentOf(requiredList)).Ok?;
        assert ps[1..][j] == ps[j + 1];
      }
    }
  }

  /** Merging the branches `a + b` gives the fields of `a` followed by those of `b`. */
  lemma {:induction false} CombinedFieldsAppend(defs: Defs, pick: Selector, name: Name,
                                                a: seq<Json>, b: seq<Json>)
    ensures CombinedFields(defs, pick, name, a + b) ==
            Concat(CombinedFields(defs, pick, name, a), CombinedFields(defs, pick, name, b))
  {
    if a == [] {
      assert a + b == b;
      var rest := CombinedFields(defs, pick, name, b);
      if rest.Ok? {
        assert [] + rest.value == rest.value;
      }
    } else {
      assert (a + b)[0] == a[0];
      assert (a + b)[1..] == a[1..] + b;
      CombinedFieldsAppend(defs, pick, name, a[1..], b);
      var head := BranchFields(defs, pick, name, a[0]);
      if head.Ok? {
        var tail := CombinedFields(defs, pick, name, a[1..]);
        var rest := CombinedFields(defs, pick, name, b);
        if tail.Ok? && rest.Ok? {
          assert head.value + (tail.value + rest.value) == (head.value + tail.value) + rest.value;
        }
      }
    }
  }

  /**
    A reference branch of a combination contributes its definition under the
    combination's name when it also has a `type`; otherwise an object
    definition contributes its properties and a scalar one itself.
  */
  lemma RefBranchFields(defs: Defs, name: Name, branch: Json)
    ensures var d := Cached(defs, RefName(branch));
      var r := RefBranch(defs, name, branch);
      && (d.NullField? ==> r == Err(NullPointer))
      && (!d.NullField? && IsAnyType(branch) ==> r == Ok([CloneField(d, name)]))
      && (d.ObjectField? && !IsAnyType(branch) ==> r == Ok(d.properties))
      && (!d.NullField? && !(d.ObjectField? || d.ArrayField? || d.MapField?) && !IsAnyType(branch) ==>
            r == Ok([CloneField(d, name)]))
  {
    var d := Cached(defs, RefName(branch));
    if !d.NullField? {
      var rf := CloneField(d, name);
      assert RefBranch(defs, name, branch) ==
             (if IsAnyType(branch) then Ok([rf]) else Ok(GetProperties(rf)));
      if d.ObjectField? {
        assert rf.properties == d.properties;
      } else if !(d.ArrayField? || d.MapField?) {
        assert GetProperties(rf) == [rf];
      }
    }
  }

  /**
    A `$ref` property: an external reference is rejected with its name, an
    uncached one fails, and a cached one is a renamed copy of its definition
    (the element of an array when the node also says `"type": "array"`).
  */
  lemma RefProperty(defs: Defs, name: Name, j: Json, required: Option<bool>, isParentObject: Option<bool>)
    ensures var d := Cached(defs, RefName(j));
      var r := BuildRefProperty(defs, name, j, required, isParentObject);
      && (!IsRefNodeSupported(j) ==> r == Err(ReferenceNotSupported(RefName(j))))
      && (IsRefNodeSupported(j) && d.NullField? ==> r == Err(NullPointer))
      && (IsRefNodeSupported(j) && !d.NullField? && !TypedAsArray(j) ==>
            r.Ok? && Kind(r.value) == Kind(d)
            && (!(d.ObjectField? || d.ArrayField? || d.MapField?) ==> r.value == CloneField(d, name))
            && (d.ObjectField? ==> r.value == ObjectField(name, d.properties, d.required, required))
            && (d.ArrayField? ==>
                  r.value == ArrayField(name, d.values, Some(CheckRequiredCollection(isParentObject, required)),
                                        d.minItems, d.uniqueItems))
            && (d.MapField? ==>
                  r.value == MapField(name, d.mapType, Some(CheckRequiredCollection(isParentObject, required)))))
      && (IsRefNodeSupported(j) && !d.NullField? && TypedAsArray(j) ==>
            r == BuildArrayFieldWith(name, j, CloneField(d, None), CheckRequiredCollection(isParentObject, required)))
      && (IsRefNodeSupported(j) && !d.NullField? && TypedAsArray(j) && r.Ok? ==>
            r.value.ArrayField? && r.value.values == [CloneField(d, None)])
  {
    var d := Cached(defs, RefName(j));
    if IsRefNodeSupported(j) && !d.NullField? && !TypedAsArray(j) {
      assert BuildRefProperty(defs, name, j, required, isParentObject) ==
             Ok(PropagateRequired(CloneField(d, name), required, isParentObject));
    }
  }

  /**
    A `$ref` property under an object parent: an array or a map is
    required, an object keeps the given requiredness.
  */
  lemma RefUnderObject(defs: Defs, name: Name, j: Json, required: Option<bool>)
    ensures var r := BuildRefProperty(defs, name, j, required, Some(true));
      r.Ok? ==>
        ((r.value.ArrayField? || r.value.MapField?) ==> r.value.isFieldRequired == Some(true))
        && (r.value.ObjectField? ==> r.value.isFieldRequired == required)
  {
    RefProperty(defs, name, j, required, Some(true));
  }

  /**
    An object built with an object parent and no combination: an object
    keeps the given requiredness, a map is required.
  */
  lemma ObjectUnderObject(defs: Defs, pick: Selector, name: Name, v: Json, required: Option<bool>)
    requires !IsCombine(v)
    ensures var r := BuildObjectField(defs, pick, name, v, required, Some(true));
      r.Ok? ==>
        (r.value.ObjectField? || r.value.MapField?)
        && (r.value.MapField? ==> r.value.isFieldRequired == Some(true))
        && (r.value.ObjectField? ==> r.value.isFieldRequired == required)
  {
    var r := BuildObjectField(defs, pick, name, v, required, Some(true));
    var ap := Get(v, "additionalProperties");
    var names := RequiredNames(v);
    if ap == JNull || IsEmptyNode(ap) {
      var properties := PropertyFields(defs, pick, FieldsOf(Get(v, "properties")), Some(names));
      assert r == if properties.Err? then Err(properties.error)
                  else Ok(ObjectField(name, properties.value, names, required));
    } else {
      var mapType := BuildProperty(defs, pick, Some(InternalMapField), ap, Some(false), None);
      assert r == if mapType.Err? then Err(mapType.error)
                  else Ok(MapField(name, mapType.value, Some(CheckRequiredCollection(Some(true), required))));
    }
  }

  /** The typed case of `RequirednessUnderObject`. */
  lemma TypedUnderObject(defs: Defs, pick: Selector, name: Name, v: Json, required: Option<bool>)
    requires !IsCombine(v)
    ensures var r := BuildField(defs, pick, name, v, required, Some(true));
      r.Ok? ==>
        ((r.value.ArrayField? || r.value.MapField?) ==> r.value.isFieldRequired == Some(true))
        && (r.value.ObjectField? ==> r.value.isFieldRequired == required)
  {
    var r := BuildField(defs, pick, name, v, required, Some(true));
    match GetSafeType(v)
    case Err(_) =>
    case Ok(None) =>
    case Ok(Some(t)) =>
      var nodeType := ToLower(t);
      if nodeType == "integer" {
        assert r == Ok(IntegerField(name));
      } else if nodeType == "number" {
        assert r == BuildNumberField(name, v);
      } else if nodeType == "array" {
        TypedIsContainer(v);
        assert r == BuildArrayField(defs, pick, name, v, CheckRequiredCollection(Some(true), required));
      } else if nodeType == "object" {
        assert r == BuildObjectField(defs, pick, name, v, required, Some(true));
        ObjectUnderObject(defs, pick, name, v, required);
      } else if nodeType == "boolean" {
        assert r == Ok(BooleanField(name));
      } else {
        assert r == BuildStringField(name, v);
      }
  }

  /**
    Inside an object, a property given by a reference or by a plain `type`
    that is an array or a map is always required, and one that is an object
    is required exactly as its parent's `required` list says.
  */
  lemma RequirednessUnderObject(defs: Defs, pick: Selector, name: Name, v: Json, required: Option<bool>)
    requires IsRefNode(v) || (IsAnyType(v) && !IsCombine(v))
    ensures var r := BuildProperty(defs, pick, name, v, required, Some(true));
      r.Ok? ==>
        ((r.value.ArrayField? || r.value.MapField?) ==> r.value.isFieldRequired == Some(true))
        && (r.value.ObjectField? ==> r.value.isFieldRequired == required)
  {
    if !IsRefNode(v) {
      assert BuildProperty(defs, pick, name, v, required, Some(true)) ==
             BuildField(defs, pick, name, v, required, Some(true));
      TypedUnderObject(defs, pick, name, v, required);
    } else {
      assert BuildProperty(defs, pick, name, v, required, Some(true)) ==
             BuildRefProperty(defs, name, v, required, Some(true));
      RefUnderObject(defs, name, v, required);
    }
  }

  /**
    The fields of an object are its properties in order, each under its own
    name, and each array or map among those given by a reference or a plain
    `type` is required.
  */
  lemma ObjectProperties(defs: Defs, pick: Selector, name: Name, j: Json,
                         required: Option<bool>, isParentObject: Option<bool>)
    requires !IsCombine(j)
    requires Get(j, "additionalProperties") == JNull || IsEmptyNode(Get(j, "additionalProperties"))
    ensures var r := BuildObjectField(defs, pick, name, j, required, isParentObject);
      var ps := FieldsOf(Get(j, "properties"));
      r.Ok? ==>
        r.value.ObjectField? && r.value.required == RequiredNames(j)
        && r.value.isFieldRequired == required && |r.value.properties| == |ps|
        && forall i :: 0 <= i < |ps| ==>
             var f := r.value.properties[i];
             Named(f, Some(ps[i].0))
             && (((IsRefNode(ps[i].1) || (IsAnyType(ps[i].1) && !IsCombine(ps[i].1)))
                  && (f.ArrayField? || f.MapField?)) ==> f.isFieldRequired == Some(true))
  {
    var r := BuildObjectField(defs, pick, name, j, required, isParentObject);
    var ps := FieldsOf(Get(j, "properties"));
    var names := RequiredNames(j);
    if r.Ok? {
      PropertyFieldsPointwise(defs, pick, ps, Some(names));
      forall i | 0 <= i < |ps| && (IsRefNode(ps[i].1) || (IsAnyType(ps[i].1) && !IsCombine(ps[i].1)))
        ensures var f := r.value.properties[i];
          (f.ArrayField? || f.MapField?) ==> f.isFieldRequired == Some(true)
      {
        RequirednessUnderObject(defs, pick, Some(ps[i].0), ps[i].1, RequiredOf(Some(names), ps[i].0));
      }
    }
  }

  /**
    The outcome of a combination by the shape of its branches: a mixture is
    rejected, `allOf` over plain types is rejected, `anyOf`/`oneOf` with no
    branch fails, and `allOf` over objects and references merges them all.
  */
  lemma ChooseAnyOfOutcome(defs: Defs, pick: Selector, name: Name, j: Json, comb: string)
    requires comb == "anyOf" || comb == "allOf" || comb == "oneOf"
    ensures var bs := Elements(Get(j, comb));
      var r := ChooseAnyOf(defs, pick, name, j, comb);
      && ((exists i, k :: 0 <= i < |bs| && 0 <= k < |bs| && IsStructural(bs[i]) && !IsStructural(bs[k]))
          ==> r == Err(TypesAndPropertiesMixed))
      && (comb == "allOf" && |bs| > 0 && AllScalar(bs) ==> r == Err(IncorrectTypeInCombination))
      && (comb != "allOf" && |bs| == 0 ==> r == Err(IndexOutOfBounds))
      && (comb == "allOf" && AllStructural(bs) ==>
            r == (match CombinedFields(defs, pick, name, bs)
                  case Ok(fs) => Ok(ObjectField(name, fs, [], Some(false)))
                  case Err(e) => Err(e)))
      && (comb != "allOf" && |bs| > 0 && AllStructural(bs) ==>
            r == (match CombinedFields(defs, pick, name, [bs[pick(j, |bs|)]])
                  case Ok(fs) => Ok(ObjectField(name, fs, [], Some(false)))
                  case Err(e) => Err(e)))
      && (comb != "allOf" && |bs| > 0 && AllScalar(bs) ==>
            r == BuildField(defs, pick, name, bs[pick(j, |bs|)], None, None))
  {
    var bs := Elements(Get(j, comb));
    if |bs| > 0 && AllScalar(bs) {
      assert !IsStructural(bs[0]);
    }
    if comb != "allOf" && |bs| > 0 && AllStructural(bs) {
      assert ChooseAnyOf(defs, pick, name, j, comb) ==
             BuildCombinedField(defs, pick, name, [bs[pick(j, |bs|)]]);
    }
  }

  /**
    The order in which `buildProperty` looks at a node: `$ref` first (even
    beside a `type`), then `type`, then a combination, then `properties`;
    a node with none of these is not supported.
  */
  lemma PropertyDispatch(defs: Defs, pick: Selector, name: Name, j: Json,
                         required: Option<bool>, isParentObject: Option<bool>)
    ensures var r := BuildProperty(defs, pick, name, j, required, isParentObject);
      && (Has(j, "$ref") ==> r == BuildRefProperty(defs, name, j, required, isParentObject))
      && (!Has(j, "$ref") && Has(j, "type") ==> r == BuildField(defs, pick, name, j, required, isParentObject))
      && (!Has(j, "$ref") && !Has(j, "type") && IsCombine(j) ==>
            r == ChooseAnyOf(defs, pick, name, j, Combinator(j)))
      && (!Has(j, "$ref") && !Has(j, "type") && !IsCombine(j) && Has(j, "properties") ==>
            r == BuildObjectField(defs, pick, name, j, required, None))
      && (!Has(j, "$ref") && !Has(j, "type") && !IsCombine(j) && !Has(j, "properties") ==>
            r == Err(NotSupportedFile))
  {
  }

  /**
    What `buildField` builds for each type: an integer, a number with its
    constraints, a boolean, an array, an object, and any other type a string
    (or date, uuid or enum); a `type` that is missing, neither text nor a
    list, or a list of only "null"s is a null pointer.
  */
  lemma FieldDispatch(defs: Defs, pick: Selector, name: Name, j: Json,
                      required: Option<bool>, isParentObject: Option<bool>)
    ensures var r := BuildField(defs, pick, name, j, required, isParentObject);
      var ty := GetSafeType(j);
      && (ty.Err? || ty == Ok(None) ==> r == Err(NullPointer))
      && (ty.Ok? && ty.value.Some? ==>
            var t := ToLower(ty.value.value);
            && (t == "integer" ==> r == Ok(IntegerField(name)))
            && (t == "number" ==> r == BuildNumberField(name, j))
            && (t == "boolean" ==> r == Ok(BooleanField(name)))
            && (t == "array" ==>
                  IsContainer(j)
                  && r == BuildArrayField(defs, pick, name, j, CheckRequiredCollection(isParentObject, required)))
            && (t == "object" ==> r == BuildObjectField(defs, pick, name, j, required, isParentObject))
            && (t != "integer" && t != "number" && t != "boolean" && t != "array" && t != "object" ==>
                  r == BuildStringField(name, j)))
  {
    if GetSafeType(j).Ok? {
      TypedIsContainer(j);
    }
  }

  /**
    An array's one element is its `items` node built without a name, and
    required exactly when `minItems` is set and not "0"; `minItems` and
    `uniqueItems` are then read as `BuildArrayFieldWith` reads them.
  */
  lemma ArrayItems(defs: Defs, pick: Selector, name: Name, j: Json, required: bool)
    requires IsContainer(j)
    ensures var item := BuildProperty(defs, pick, None, Get(j, "items"), Some(MinItemsRequired(j)), None);
      var r := BuildArrayField(defs, pick, name, j, required);
      && (item.Err? ==> r == Err(item.error))
      && (item.Ok? ==> r == BuildArrayFieldWith(name, j, item.value, required))
      && (r.Ok? ==> item.Ok? && r.value.values == [item.value])
  {
  }

  /**
    The three outcomes of `buildObjectField`: a combination decides by
    itself; a non-empty `additionalProperties` makes a map whose value type
    is that node built as the internal map field, not required; otherwise an
    object of the `properties`, required by the object's own list.
  */
  lemma ObjectFieldCases(defs: Defs, pick: Selector, name: Name, j: Json,
                         required: Option<bool>, isParentObject: Option<bool>)
    ensures var r := BuildObjectField(defs, pick, name, j, required, isParentObject);
      var ap := Get(j, "additionalProperties");
      var valueType := BuildProperty(defs, pick, Some(InternalMapField), ap, Some(false), None);
      var fields := PropertyFields(defs, pick, FieldsOf(Get(j, "properties")), Some(RequiredNames(j)));
      && (IsCombine(j) ==> r == ChooseAnyOf(defs, pick, name, j, Combinator(j)))
      && (!IsCombine(j) && !(ap == JNull || IsEmptyNode(ap)) && valueType.Err? ==> r == Err(valueType.error))
      && (!IsCombine(j) && !(ap == JNull || IsEmptyNode(ap)) && valueType.Ok? ==>
            r == Ok(MapField(name, valueType.value, Some(CheckRequiredCollection(isParentObject, required)))))
      && (!IsCombine(j) && (ap == JNull || IsEmptyNode(ap)) && fields.Err? ==> r == Err(fields.error))
      && (!IsCombine(j) && (ap == JNull || IsEmptyNode(ap)) && fields.Ok? ==>
            r == Ok(ObjectField(name, fields.value, RequiredNames(j), required)))
  {
    var r := BuildObjectField(defs, pick, name, j, required, isParentObject);
    var ap := Get(j, "additionalProperties");
    if !IsCombine(j) {
      if ap == JNull || IsEmptyNode(ap) {
        var fields := PropertyFields(defs, pick, FieldsOf(Get(j, "properties")), Some(RequiredNames(j)));
        assert r == if fields.Err? then Err(fields.error)
                    else Ok(ObjectField(name, fields.value, RequiredNames(j), required));
      } else {
        var valueType := BuildProperty(defs, pick, Some(InternalMapField), ap, Some(false), None);
        assert r == if valueType.Err? then Err(valueType.error)
                    else Ok(MapField(name, valueType.value, Some(CheckRequiredCollection(isParentObject, required))));
      }
    }
  }
}
