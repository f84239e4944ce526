/**
  The resolver object, `JSONSchemaParser`: its definitions cache and cycle
  guard are fields that `parse` and `processDefinitions` update in place.
  `parse` clears the cache, resolves `definitions`, collects the required
  field paths and resolves every top-level property.

  The cycle guard is a static set in the Java class, shared by every
  instance and never cleared; here it is a field of the instance that
  `parse` likewise never clears.
*/
module Resolver {
  import opened Wrappers
  import opened JavaText
  import opened Json
  import opened FieldModel
  import opened ParserSupport
  import opened PropertyWalk
  import opened DefinitionWalk

  /** The resolved schema: identity, required paths, root type, fields and the cached definitions. */
  datatype Schema = Schema(id: string, name: string, requiredFields: seq<Option<string>>,
                           schemaType: string, properties: seq<Field>, descriptions: Defs)

  /** The top-level `required` texts (Java `null` for a non-text element). */
  function TopRequired(root: Json): (r: seq<Option<string>>)
    ensures |r| == |Elements(Get(root, "required"))|
    ensures forall i :: 0 <= i < |r| ==> r[i] == TextValue(Elements(Get(root, "required"))[i])
  {
    var els := Elements(Get(root, "required"));
    seq(|els|, i requires 0 <= i < |els| => TextValue(els[i]))
  }

  /** A text as string concatenation renders it: Java `null` is "null". */
  function TextOrNull(j: Json): string
  {
    match TextValue(j)
    case Some(t) => t
    case None => "null"
  }

  /** The dotted paths `key.name` for the names a top-level property lists as required. */
  function DottedRequired(key: string, v: Json): (r: seq<Option<string>>)
    ensures |r| == |Elements(Get(v, "required"))|
    ensures forall i :: 0 <= i < |r| ==> r[i] == Some(key + "." + TextOrNull(Elements(Get(v, "required"))[i]))
  {
    var els := Elements(Get(v, "required"));
    seq(|els|, i requires 0 <= i < |els| => Some(key + "." + TextOrNull(els[i])))
  }

  /** The dotted paths of every top-level property, in document order. */
  function AllDotted(ps: seq<(string, Json)>): seq<Option<string>>
  {
    if ps == [] then [] else AllDotted(ps[..|ps| - 1]) + DottedRequired(ps[|ps| - 1].0, ps[|ps| - 1].1)
  }

  /** The schema's required-field list: the top-level names, then the dotted nested ones. */
  function RootRequired(root: Json): seq<Option<string>>
  {
    TopRequired(root) + AllDotted(FieldsOf(Get(root, "properties")))
  }

  /**
    The top-level properties, in order: each looked up by its name, required
    when its name is in `requiredFields`, with an object parent when the
    root type is "object".
  */
  function RootProperties(defs: Defs, pick: Selector, props: Json, ps: seq<(string, Json)>,
                          requiredFields: seq<Option<string>>, isObject: bool)
    : (r: Result<seq<Field>, Error>)
    ensures r.Ok? ==> |r.value| == |ps| && forall i :: 0 <= i < |ps| ==> Named(r.value[i], Some(ps[i].0))
  {
    if ps == [] then Ok([])
    else
      var key := ps[0].0;
      var f :- BuildProperty(defs, pick, Some(key), Get(props, key), Some(Some(key) in requiredFields),
                             Some(isObject));
      var rest :- RootProperties(defs, pick, props, ps[1..], requiredFields, isObject);
      assert forall i :: 0 < i <= |rest| ==> ([f] + rest)[i] == rest[i - 1];
      Ok([f] + rest)
  }

  /**
    `parse` on a parsed document, given the cycle guard it starts with: the
    outcome and the resolver's state afterwards.
  */
  function ParseSpec(root: Json, pick: Selector, cycling: set<string>): (res: (Result<Schema, Error>, State))
    ensures res.0.Ok? ==> GetSafeType(root).Ok? && GetSafeType(root).value.Some?
    ensures res.0.Ok? ==> var props := FieldsOf(Get(root, "properties"));
              && |res.0.value.properties| == |props|
              && (forall i :: 0 <= i < |props| ==> Named(res.0.value.properties[i], Some(props[i].0)))
              && res.0.value.descriptions == res.1.defs
  {
    var definitions := Get(root, "definitions");
    var pre := ProcessAll(definitions, pick, FieldsOf(definitions), State(map[], cycling));
    if pre.0.Some? then (Err(pre.0.value), pre.1)
    else
      var st := pre.1;
      match GetSafeType(root)
      case Err(e) => (Err(e), st)
      case Ok(None) => (Err(NullPointer), st)
      case Ok(Some(t)) =>
        var schemaType := ToLower(t);
        var requiredFields := RootRequired(root);
        var props := Get(root, "properties");
        var fields := RootProperties(st.defs, pick, props, FieldsOf(props), requiredFields,
                                     schemaType == "object");
        if fields.Err? then (Err(fields.error), st)
        else (Ok(Schema(AsText(Get(root, "$id")), AsText(Get(root, "$schema")), requiredFields,
                        AsText(Get(root, "type")), fields.value, st.defs)), st)
  }

  // ----- properties of `parse` -----

  /** `x` is the dotted path of property `p`'s `k`-th listed name. */
  predicate DottedAt(ps: seq<(string, Json)>, p: int, k: int, x: Option<string>)
  {
    0 <= p < |ps| && 0 <= k < |Elements(Get(ps[p].1, "required"))|
    && x == Some(ps[p].0 + "." + TextOrNull(Elements(Get(ps[p].1, "required"))[k]))
  }

  /** The dotted paths are exactly `key.name` for each property's listed names. */
  lemma {:induction false} AllDottedMembers(ps: seq<(string, Json)>, x: Option<string>)
    ensures x in AllDotted(ps) <==> exists p, k :: DottedAt(ps, p, k, x)
  {
    if ps != [] {
      var init := ps[..|ps| - 1];
      var last := ps[|ps| - 1];
      var lastPaths := DottedRequired(last.0, last.1);
      AllDottedMembers(init, x);
      assert AllDotted(ps) == AllDotted(init) + lastPaths;
      if x in AllDotted(init) {
        var p, k :| DottedAt(init, p, k, x);
        assert init[p] == ps[p];
        assert DottedAt(ps, p, k, x);
      } else if x in lastPaths {
        var k :| 0 <= k < |lastPaths| && lastPaths[k] == x;
        assert DottedAt(ps, |ps| - 1, k, x);
      }
      if exists p, k :: DottedAt(ps, p, k, x) {
        var p, k :| DottedAt(ps, p, k, x);
        if p < |ps| - 1 {
          assert init[p] == ps[p];
          assert DottedAt(init, p, k, x);
        } else {
          assert lastPaths[k] == x;
        }
      }
    }
  }

  /**
    The schema's required-field list holds exactly the top-level `required`
    texts and the dotted `property.name` paths of each top-level property's
    own `required` list; the top-level texts come first.
  */
  lemma RootRequiredMembers(root: Json, x: Option<string>)
    ensures |TopRequired(root)| <= |RootRequired(root)|
            && RootRequired(root)[..|TopRequired(root)|] == TopRequired(root)
    ensures var tops := Elements(Get(root, "required"));
      var ps := FieldsOf(Get(root, "properties"));
      x in RootRequired(root) <==>
        (exists i :: 0 <= i < |tops| && x == TextValue(tops[i]))
        || (exists p, k :: DottedAt(ps, p, k, x))
  {
    var tops := Elements(Get(root, "required"));
    AllDottedMembers(FieldsOf(Get(root, "properties")), x);
    if exists i :: 0 <= i < |tops| && x == TextValue(tops[i]) {
      var i :| 0 <= i < |tops| && x == TextValue(tops[i]);
      assert TopRequired(root)[i] == x;
    }
  }

  /**
    The top-level properties are built entry by entry: the i-th field is
    the i-th property, under its own name, required exactly when its name
    is among the required fields, with an object parent when the root is
    an object.
  */
  lemma {:induction false} RootPropertiesPointwise(defs: Defs, pick: Selector, props: Json,
                                                   ps: seq<(string, Json)>,
                                                   requiredFields: seq<Option<string>>, isObject: bool)
    ensures var r := RootProperties(defs, pick, props, ps, requiredFields, isObject);
      r.Ok? ==> forall i :: 0 <= i < |ps| ==>
        Named(r.value[i], Some(ps[i].0))
        && BuildProperty(defs, pick, Some(ps[i].0), Get(props, ps[i].0),
                         Some(Some(ps[i].0) in requiredFields), Some(isObject)) == Ok(r.value[i])
  {
    if ps != [] {
      var key := ps[0].0;
      var f := BuildProperty(defs, pick, Some(key), Get(props, key), Some(Some(key) in requiredFields),
                             Some(isObject));
      var rest := RootProperties(defs, pick, props, ps[1..], requiredFields, isObject);
      var r := RootProperties(defs, pick, props, ps, requiredFields, isObject);
      RootPropertiesPointwise(defs, pick, props, ps[1..], requiredFields, isObject);
      if r.Ok? {
        assert f.Ok? && rest.Ok? && r.value == [f.value] + rest.value;
        forall i | 0 <= i < |ps|
          ensures BuildProperty(defs, pick, Some(ps[i].0), Get(props, ps[i].0),
                                Some(Some(ps[i].0) in requiredFields), Some(isObject)) == Ok(r.value[i])
        {
          if i > 0 {
            assert ps[i] == ps[1..][i - 1];
            assert r.value[i] == rest.value[i - 1];
          }
        }
      }
    }
  }

  /** `parse` never clears the cycle guard: names left there earlier stay. */
  lemma ParseKeepsGuard(root: Json, pick: Selector, cycling: set<string>)
    ensures cycling <= ParseSpec(root, pick, cycling).1.cycling
  {
  }

  /** A failing pre-pass fails the parse with its error, before any property is built. */
  lemma ParseStopsAtDefinitions(root: Json, pick: Selector, cycling: set<string>)
    ensures var definitions := Get(root, "definitions");
      var pre := ProcessAll(definitions, pick, FieldsOf(definitions), State(map[], cycling));
      pre.0.Some? ==> ParseSpec(root, pick, cycling) == (Err(pre.0.value), pre.1)
  {
  }

  /** The dotted paths of the first `i + 1` properties: those of the first `i`, then property `i`'s. */
  lemma AllDottedStep(ps: seq<(string, Json)>, i: nat)
    requires i < |ps|
    ensures AllDotted(ps[..i + 1]) == AllDotted(ps[..i]) + DottedRequired(ps[i].0, ps[i].1)
  {
    assert ps[..i + 1][..i] == ps[..i];
  }

  /** The inner required-field loop of `parse`: appends property `key`'s dotted paths. */
  method AppendDotted(acc: seq<Option<string>>, key: string, v: Json) returns (r: seq<Option<string>>)
    ensures r == acc + DottedRequired(key, v)
  {
    r := acc;
    var nested := Elements(Get(v, "required"));
    for k := 0 to |nested|
      invariant |r| == |acc| + k
      invariant r[..|acc|] == acc
      invariant forall m :: 0 <= m < k ==> r[|acc| + m] == Some(key + "." + TextOrNull(nested[m]))
    {
      r := r + [Some(key + "." + TextOrNull(nested[k]))];
    }
    assert r == acc + DottedRequired(key, v);
  }

  /**
    The required-field loops of `parse`: the top-level names, then for each
    top-level property the dotted paths of the names it lists.
  */
  method CollectRequiredFields(root: Json) returns (requiredFields: seq<Option<string>>)
    ensures requiredFields == RootRequired(root)
  {
    requiredFields := [];
    var topLevel := Elements(Get(root, "required"));
    for i := 0 to |topLevel|
      invariant |requiredFields| == i
      invariant forall m :: 0 <= m < i ==> requiredFields[m] == TextValue(topLevel[m])
    {
      requiredFields := requiredFields + [TextValue(topLevel[i])];
    }
    assert requiredFields == TopRequired(root);
    ghost var top := requiredFields;

    var ps := FieldsOf(Get(root, "properties"));
    assert ps[..0] == [];
    for i := 0 to |ps|
      invariant requiredFields == top + AllDotted(ps[..i])
    {
      ghost var before := requiredFields;
      requiredFields := AppendDotted(requiredFields, ps[i].0, ps[i].1);
      AllDottedStep(ps, i);
      assert (top + AllDotted(ps[..i])) + DottedRequired(ps[i].0, ps[i].1)
          == top + (AllDotted(ps[..i]) + DottedRequired(ps[i].0, ps[i].1));
    }
    assert ps[..|ps|] == ps;
  }

  /** One step of the property loop: the list from entry `i` is entry `i`'s field, then the rest. */
  lemma RootPropertiesStep(defs: Defs, pick: Selector, props: Json, ps: seq<(string, Json)>, i: nat,
                           requiredFields: seq<Option<string>>, isObject: bool)
    requires i < |ps|
    ensures var key := ps[i].0;
      var f := BuildProperty(defs, pick, Some(key), Get(props, key), Some(Some(key) in requiredFields),
                             Some(isObject));
      var tail := RootProperties(defs, pick, props, ps[i + 1..], requiredFields, isObject);
      RootProperties(defs, pick, props, ps[i..], requiredFields, isObject) ==
        (if f.Err? then Err(f.error) else Concat(Ok([f.value]), tail))
  {
    assert ps[i..][1..] == ps[i + 1..];
  }

  /** The property loop of `parse`: the top-level properties in order, up to the first failure. */
  method ResolveProperties(defs: Defs, pick: Selector, props: Json, requiredFields: seq<Option<string>>,
                           isObject: bool) returns (r: Result<seq<Field>, Error>)
    ensures r == RootProperties(defs, pick, props, FieldsOf(props), requiredFields, isObject)
  {
    var ps := FieldsOf(props);
    var fields: seq<Field> := [];
    assert ps[0..] == ps;
    ConcatEmpty(RootProperties(defs, pick, props, ps, requiredFields, isObject));
    for i := 0 to |ps|
      invariant RootProperties(defs, pick, props, ps, requiredFields, isObject) ==
                Concat(Ok(fields), RootProperties(defs, pick, props, ps[i..], requiredFields, isObject))
    {
      var key := ps[i].0;
      var f := BuildProperty(defs, pick, Some(key), Get(props, key), Some(Some(key) in requiredFields),
                             Some(isObject));
      RootPropertiesStep(defs, pick, props, ps, i, requiredFields, isObject);
      if f.Err? {
        return Err(f.error);
      }
      ConcatAssoc(fields, [f.value], RootProperties(defs, pick, props, ps[i + 1..], requiredFields, isObject));
      fields := fields + [f.value];
    }
    assert ps[|ps|..] == [] && fields + [] == fields;
    r := Ok(fields);
  }

  /** One step of a property list: the list from entry `k` is entry `k`'s field, then the rest. */
  lemma PropertyFieldsStep(defs: Defs, pick: Selector, entries: seq<(string, Json)>, k: nat)
    requires k < |entries|
    ensures var f := BuildProperty(defs, pick, Some(entries[k].0), entries[k].1, None, None);
      var tail := PropertyFields(defs, pick, entries[k + 1..], None);
      PropertyFields(defs, pick, entries[k..], None) ==
        (if f.Err? then Err(f.error) else Concat(Ok([f.value]), tail))
  {
    assert entries[k..][1..] == entries[k + 1..];
  }

  /** The inner loop of `buildCombinedField`: a branch's properties, in order, with no requiredness. */
  method BuildPropertyList(defs: Defs, pick: Selector, entries: seq<(string, Json)>)
    returns (r: Result<seq<Field>, Error>)
    ensures r == PropertyFields(defs, pick, entries, None)
  {
    var fields: seq<Field> := [];
    assert entries[0..] == entries;
    ConcatEmpty(PropertyFields(defs, pick, entries, None));
    for k := 0 to |entries|
      invariant PropertyFields(defs, pick, entries, None) ==
                Concat(Ok(fields), PropertyFields(defs, pick, entries[k..], None))
    {
      var f := BuildProperty(defs, pick, Some(entries[k].0), entries[k].1, None, None);
      PropertyFieldsStep(defs, pick, entries, k);
      if f.Err? {
        return Err(f.error);
      }
      ConcatAssoc(fields, [f.value], PropertyFields(defs, pick, entries[k + 1..], None));
      fields := fields + [f.value];
    }
    assert entries[|entries|..] == [] && fields + [] == fields;
    r := Ok(fields);
  }

  /** One step of the branch loop: the fields from branch `i` are branch `i`'s, then the rest. */
  lemma CombinedFieldsStep(defs: Defs, pick: Selector, name: Name, branches: seq<Json>, i: nat)
    requires i < |branches|
    ensures var branch := BranchFields(defs, pick, name, branches[i]);
      var tail := CombinedFields(defs, pick, name, branches[i + 1..]);
      CombinedFields(defs, pick, name, branches[i..]) ==
        (if branch.Err? then Err(branch.error) else Concat(Ok(branch.value), tail))
  {
    assert branches[i..][1..] == branches[i + 1..];
  }

  class JsonSchemaParser {
    var definitionsMap: Defs
    var cyclingSet: set<string>

    constructor ()
      ensures definitionsMap == map[] && cyclingSet == {}
    {
      definitionsMap := map[];
      cyclingSet := {};
    }

    /** One entry of `processDefinitions`, applied to the cache and the guard in place. */
    method ProcessDefinition(definitions: Json, pick: Selector, key: string, v: Json)
      returns (failure: Option<Error>)
      modifies this
      ensures (failure, State(definitionsMap, cyclingSet)) ==
              ProcessEntry(definitions, pick, key, v, old(State(definitionsMap, cyclingSet)))
    {
      failure := None;
      if !IsRefNode(v) {
        var built := BuildDefinition(definitions, pick, Some(key), v, None, None,
                                     State(definitionsMap, cyclingSet));
        definitionsMap, cyclingSet := built.1.defs, built.1.cycling;
        if built.0.Err? {
          failure := Some(built.0.error);
        } else {
          definitionsMap := PutIfAbsent(definitionsMap, key, built.0.value);
        }
      } else if IsRefNodeSupported(v) {
        var refName := RefName(v);
        if refName in definitionsMap {
          var built := BuildDefinition(definitions, pick, Some(key), v, None, None,
                                       State(definitionsMap, cyclingSet));
          definitionsMap, cyclingSet := built.1.defs, built.1.cycling;
          if built.0.Err? {
            failure := Some(built.0.error);
          } else {
            definitionsMap := definitionsMap[key := built.0.value];
          }
        } else if !IsRefNode(Get(definitions, refName)) && refName !in cyclingSet {
          cyclingSet := cyclingSet + {refName};
          var built := BuildDefinition(definitions, pick, Some(key), Get(definitions, refName), None, None,
                                       State(definitionsMap, cyclingSet));
          definitionsMap, cyclingSet := built.1.defs, built.1.cycling;
          if built.0.Err? {
            failure := Some(built.0.error);
          } else {
            definitionsMap := definitionsMap[key := built.0.value];
            cyclingSet := cyclingSet - {refName};
          }
        } else {
          failure := Some(MissingDefinition);
        }
      }
    }

    /**
      `processDefinitions`: the pre-pass over the entries of `definitions`,
      stopping at the first failure with the state reached so far.
    */
    method ProcessDefinitions(definitions: Json, pick: Selector) returns (failure: Option<Error>)
      modifies this
      ensures (failure, State(definitionsMap, cyclingSet)) ==
              ProcessAll(definitions, pick, FieldsOf(definitions), old(State(definitionsMap, cyclingSet)))
    {
      var ps := FieldsOf(definitions);
      for i := 0 to |ps|
        invariant ProcessAll(definitions, pick, ps, old(State(definitionsMap, cyclingSet))) ==
                  ProcessAll(definitions, pick, ps[i..], State(definitionsMap, cyclingSet))
      {
        assert ps[i..][1..] == ps[i + 1..];
        failure := ProcessDefinition(definitions, pick, ps[i].0, ps[i].1);
        if failure.Some? {
          return;
        }
      }
      assert ps[|ps|..] == [];
      failure := None;
    }

    /**
      `parse` on a parsed document: clear the cache, resolve `definitions`,
      collect the required paths, resolve the top-level properties.
    */
    method Parse(root: Json, pick: Selector) returns (r: Result<Schema, Error>)
      modifies this
      ensures (r, State(definitionsMap, cyclingSet)) == ParseSpec(root, pick, old(cyclingSet))
    {
      definitionsMap := map[];
      var definitions := Get(root, "definitions");
      var failure := ProcessDefinitions(definitions, pick);
      if failure.Some? {
        return Err(failure.value);
      }
      var t := GetSafeType(root);
      if t.Err? {
        return Err(t.error);
      }
      if t.value.None? {
        return Err(NullPointer);
      }
      var schemaType := ToLower(t.value.value);

      var requiredFields := CollectRequiredFields(root);
      var props := Get(root, "properties");
      var fields := ResolveProperties(definitionsMap, pick, props, requiredFields, schemaType == "object");
      if fields.Err? {
        return Err(fields.error);
      }
      r := Ok(Schema(AsText(Get(root, "$id")), AsText(Get(root, "$schema")), requiredFields,
                     AsText(Get(root, "type")), fields.value, definitionsMap));
    }

    /**
      `parse` on text: the cache is cleared first; text that is not JSON
      (`doc == None`) is a wrong schema.
    */
    method ParseText(doc: Option<Json>, pick: Selector) returns (r: Result<Schema, Error>)
      modifies this
      ensures doc.None? ==> r == Err(WrongJsonSchema) && definitionsMap == map[]
                            && cyclingSet == old(cyclingSet)
      ensures doc.Some? ==> (r, State(definitionsMap, cyclingSet)) == ParseSpec(doc.value, pick, old(cyclingSet))
    {
      definitionsMap := map[];
      if doc.None? {
        return Err(WrongJsonSchema);
      }
      r := Parse(doc.value, pick);
    }

    /**
      `buildCombinedField`: one object holding, branch after branch, what
      each branch contributes.
    */
    method BuildCombinedField(name: Name, properties: seq<Json>, pick: Selector) returns (r: Result<Field, Error>)
      ensures r == PropertyWalk.BuildCombinedField(definitionsMap, pick, name, properties)
    {
      var fields: seq<Field> := [];
      assert properties[0..] == properties;
      ConcatEmpty(CombinedFields(definitionsMap, pick, name, properties));
      for i := 0 to |properties|
        invariant CombinedFields(definitionsMap, pick, name, properties) ==
                  Concat(Ok(fields), CombinedFields(definitionsMap, pick, name, properties[i..]))
      {
        var property := properties[i];
        ghost var branch := BranchFields(definitionsMap, pick, name, property);
        ghost var tail := CombinedFields(definitionsMap, pick, name, properties[i + 1..]);
        CombinedFieldsStep(definitionsMap, pick, name, properties, i);
        var contributed: seq<Field> := [];
        if IsRefNode(property) {
          var definition := Cached(definitionsMap, RefName(property));
          if definition.NullField? {
            return Err(NullPointer);
          }
          var refField := CloneField(definition, name);
          if IsAnyType(property) {
            contributed := [refField];
          } else {
            contributed := GetProperties(refField);
          }
        } else if Has(property, "properties") {
          var inner := BuildPropertyList(definitionsMap, pick, FieldsOf(Get(property, "properties")));
          if inner.Err? {
            return Err(inner.error);
          }
          contributed := inner.value;
        }
        assert branch == Ok(contributed);
        ConcatAssoc(fields, contributed, tail);
        fields := fields + contributed;
      }
      assert properties[|properties|..] == [] && fields + [] == fields;
      r := Ok(ObjectField(name, fields, [], Some(false)));
    }
  }
}
