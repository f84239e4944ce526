/**
  The resolved field tree.  Each `Field` variant is one of the immutable
  field classes; `NullField` is the Java `null` that the resolver can store
  where a `Field` is expected (a cyclic `$ref` that is not expanded, or a
  `HashMap.get` of a name that is not cached).

  `name` is `None` for an anonymous node (an array element); the tri-state
  `isFieldRequired` is `None` when the resolver leaves it unset.
*/
module FieldModel {
  import opened Wrappers

  type Name = Option<string>

  /** A numeric constraint: integral (`Long`) or decimal (`Float`, kept as its text). */
  datatype Num = Int(i: int) | Dec(literal: string)

  datatype Field =
    | StringField(name: Name, regex: Option<string>, minLength: int, maxLength: int,
                  format: Option<string>)
    | IntegerField(name: Name)
    | NumberField(name: Name, maximum: Num, minimum: Num, exclusiveMaximum: Num,
                  exclusiveMinimum: Num, multipleOf: Num)
    | BooleanField(name: Name)
    | DateField(name: Name, format: Option<string>)
    | UUIDField(name: Name, regex: Option<string>, format: Option<string>)
    | EnumField(name: Name, defaultValue: string, enumValues: seq<string>)
    | ArrayField(name: Name, values: seq<Field>, isFieldRequired: Option<bool>,
                 minItems: int, uniqueItems: bool)
    | ObjectField(name: Name, properties: seq<Field>, required: seq<string>,
                  isFieldRequired: Option<bool>)
    | MapField(name: Name, mapType: Field, isFieldRequired: Option<bool>)
    | NullField

  /** The kind tag each field class passes to its base constructor. */
  function Kind(f: Field): string
    requires !f.NullField?
  {
    match f
    case StringField(_, _, _, _, _) => "string"
    case IntegerField(_) => "integer"
    case NumberField(_, _, _, _, _, _) => "number"
    case BooleanField(_) => "boolean"
    case DateField(_, _) => "date"
    case UUIDField(_, _, _) => "uuid"
    case EnumField(_, _, _) => "enum"
    case ArrayField(_, _, _, _, _) => "array"
    case ObjectField(_, _, _, _) => "object"
    case MapField(_, _, _) => "map"
  }

  /** The `EnumField` constructor. */
  function NewEnumField(name: Name, defaultValue: string, enumValues: seq<string>): (f: Field)
    ensures !f.NullField? && Kind(f) == "enum"
    ensures f.name == name && f.defaultValue == defaultValue && f.enumValues == enumValues
  {
    EnumField(name, defaultValue, enumValues)
  }

  /** The `UUIDField` constructor. */
  function NewUUIDField(name: Name, regex: Option<string>, format: Option<string>): (f: Field)
    ensures !f.NullField? && Kind(f) == "uuid"
    ensures f.name == name && f.regex == regex && f.format == format
  {
    UUIDField(name, regex, format)
  }

  /** The same field with its name replaced. */
  function WithName(f: Field, n: Name): Field
    requires !f.NullField?
  {
    match f
    case StringField(_, r, lo, hi, fmt) => StringField(n, r, lo, hi, fmt)
    case IntegerField(_) => IntegerField(n)
    case NumberField(_, mx, mn, xmx, xmn, mul) => NumberField(n, mx, mn, xmx, xmn, mul)
    case BooleanField(_) => BooleanField(n)
    case DateField(_, fmt) => DateField(n, fmt)
    case UUIDField(_, r, fmt) => UUIDField(n, r, fmt)
    case EnumField(_, d, vs) => EnumField(n, d, vs)
    case ArrayField(_, vs, req, mi, u) => ArrayField(n, vs, req, mi, u)
    case ObjectField(_, ps, rs, req) => ObjectField(n, ps, rs, req)
    case MapField(_, t, req) => MapField(n, t, req)
  }

  /** Two fields that differ at most in their names. */
  predicate SameButName(f: Field, g: Field)
  {
    match f
    case NullField => g.NullField?
    case _ => !g.NullField? && WithName(f, g.name) == g
  }

  /**
    `cloneField(n)`: `toBuilder().name(n).build()`, the same field under a new
    name.  Cloning a Java `null` is a `NullPointerException`, hence the
    precondition.
  */
  function CloneField(f: Field, n: Name): (g: Field)
    requires !f.NullField?
    ensures !g.NullField? && g.name == n && SameButName(f, g) && Kind(g) == Kind(f)
    ensures g.ObjectField? == f.ObjectField? && g.ArrayField? == f.ArrayField? && g.MapField? == f.MapField?
  {
    WithName(f, n)
  }

  /**
    `getProperties()`: an object's own properties, an array's element list, a
    map's value type, and every scalar field as a one-element list of itself.
  */
  function GetProperties(f: Field): (ps: seq<Field>)
    requires !f.NullField?
    ensures f.ObjectField? ==> ps == f.properties
    ensures f.ArrayField? ==> ps == f.values
    ensures f.MapField? ==> ps == [f.mapType]
    ensures !(f.ObjectField? || f.ArrayField? || f.MapField?) ==> ps == [f]
  {
    match f
    case ObjectField(_, props, _, _) => props
    case ArrayField(_, vs, _, _, _) => vs
    case MapField(_, t, _) => [t]
    case _ => [f]
  }

  /** `EnumField.cloneField(n)`: an enum named `n` with its default and values. */
  lemma EnumCloneField(f: Field, n: Name)
    requires f.EnumField?
    ensures CloneField(f, n) == NewEnumField(n, f.defaultValue, f.enumValues)
  {
  }

  /** `UUIDField.cloneField(n)`: a uuid field named `n` with its regex and format. */
  lemma UUIDCloneField(f: Field, n: Name)
    requires f.UUIDField?
    ensures CloneField(f, n) == NewUUIDField(n, f.regex, f.format)
  {
  }

  /** Cloning twice under the same name is cloning once; the last name wins. */
  lemma CloneFieldIdempotent(f: Field, m: Name, n: Name)
    requires !f.NullField?
    ensures CloneField(CloneField(f, m), n) == CloneField(f, n)
    ensures CloneField(CloneField(f, n), n) == CloneField(f, n)
  {
  }

  /** Cloning back under the old name gives the original field. */
  lemma CloneFieldRoundTrip(f: Field, n: Name)
    requires !f.NullField?
    ensures CloneField(CloneField(f, n), f.name) == f
  {
  }
}
