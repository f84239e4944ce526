/**
  A parsed JSON document, and the accessors of Jackson's `JsonNode` that the
  resolver calls: `get`/`path`, `fields`, `elements`, `asText`, `textValue`,
  `asInt`, `isEmpty` and `findPath`.

  `JMissing` is what `path(key)` yields for an absent key (Jackson's
  `MissingNode`); it is never stored inside an object or an array.  `get(key)`
  yields Java `null` where `path(key)` yields `JMissing`, so both are `Get`
  here and "is non-null" is `Has`.  A number keeps its text as Jackson
  renders it (`asText`).
*/
module Json {
  import opened Wrappers
  import opened JavaText

  datatype Json =
    | JObject(entries: seq<(string, Json)>)
    | JArray(items: seq<Json>)
    | JStr(text: string)
    | JNum(literal: string)
    | JBool(b: bool)
    | JNull
    | JMissing

  /** A size that every child is strictly below; used as termination measure. */
  function Size(j: Json): nat
    decreases j
  {
    match j
    case JObject(ps) => 2 + PairsSize(ps)
    case JArray(xs) => 2 + ItemsSize(xs)
    case _ => 1
  }

  function PairsSize(ps: seq<(string, Json)>): nat
    decreases ps
  {
    if ps == [] then 0
    else
      var p := ps[0];
      assert ps decreases to p;
      assert p decreases to p.1;
      1 + Size(p.1) + PairsSize(ps[1..])
  }

  function ItemsSize(xs: seq<Json>): nat
    decreases xs
  {
    if xs == [] then 0 else 1 + Size(xs[0]) + ItemsSize(xs[1..])
  }

  function Keys(ps: seq<(string, Json)>): set<string>
  {
    set i | 0 <= i < |ps| :: ps[i].0
  }

  /** The value of the first entry named `key`, or `JMissing`. */
  function Lookup(ps: seq<(string, Json)>, key: string): Json
  {
    if ps == [] then JMissing
    else if ps[0].0 == key then ps[0].1
    else Lookup(ps[1..], key)
  }

  /** `path(key)`: a child of an object, `JMissing` for anything else. */
  function Get(j: Json, key: string): Json
  {
    if j.JObject? then Lookup(j.entries, key) else JMissing
  }

  /** `get(key) != null`. */
  predicate Has(j: Json, key: string) { Get(j, key) != JMissing }

  /** `hasNonNull(key)`. */
  predicate HasNonNull(j: Json, key: string) { Has(j, key) && Get(j, key) != JNull }

  /** `fields()`: the entries of an object, none for anything else. */
  function FieldsOf(j: Json): seq<(string, Json)>
  {
    if j.JObject? then j.entries else []
  }

  function Values(ps: seq<(string, Json)>): (vs: seq<Json>)
    ensures |vs| == |ps|
    ensures forall i :: 0 <= i < |ps| ==> vs[i] == ps[i].1
  {
    if ps == [] then [] else [ps[0].1] + Values(ps[1..])
  }

  /** `elements()`: the items of an array, the values of an object, none otherwise. */
  function Elements(j: Json): seq<Json>
  {
    match j
    case JArray(xs) => xs
    case JObject(ps) => Values(ps)
    case _ => []
  }

  /** `isEmpty()`, that is `size() == 0`: true of every scalar node. */
  predicate IsEmptyNode(j: Json) { |Elements(j)| == 0 }

  /** `asText()`. */
  function AsText(j: Json): string
  {
    match j
    case JStr(t) => t
    case JNum(l) => l
    case JBool(b) => if b then "true" else "false"
    case JNull => "null"
    case _ => ""
  }

  /** `asText(defaultValue)`: the default for `null` and missing nodes. */
  function AsTextOr(j: Json, default: string): string
  {
    if j == JNull || j == JMissing then default else AsText(j)
  }

  /** `textValue()`: the text of a string node, Java `null` otherwise. */
  function TextValue(j: Json): Option<string>
  {
    if j.JStr? then Some(j.text) else None
  }

  /** `(int)` applied to a long: the low 32 bits, two's complement. */
  function WrapInt(v: int): (r: int)
    ensures IntMin <= r <= IntMax
  {
    var m := v % 0x1_0000_0000;
    if m > IntMax then m - 0x1_0000_0000 else m
  }

  /** `(int)` applied to a double: truncation, saturated to the int range. */
  function SaturateInt(v: int): (r: int)
    ensures IntMin <= r <= IntMax
  {
    if v < IntMin then IntMin else if v > IntMax then IntMax else v
  }

  /**
    Jackson's `NumberInput.parseAsInt(s, 0)`: the text is trimmed first;
    see `TrimmedAsInt`.
  */
  function ParseAsInt(s: string): (r: int)
    ensures IntMin <= r <= IntMax
  {
    TrimmedAsInt(Trim(s))
  }

  /**
    A trimmed text without a leading `+` is read by `Integer.parseInt` when
    it is a sign and digits (0 when out of range), and otherwise as a double
    cast to int (0 when it is not a number).
  */
  function TrimmedAsInt(t: string): (r: int)
    ensures IntMin <= r <= IntMax
  {
    var u := if t != [] && t[0] == '+' then t[1..] else t;
    var body := if u != [] && u[0] == '-' then u[1..] else u;
    if AllDigits(body) then
      (match ParseInt(u) case Some(v) => v case None => 0)
    else DoubleAsInt(u)
  }

  /** `(int) Double.parseDouble(u)`, 0 when the text is not a number. */
  function DoubleAsInt(u: string): (r: int)
    ensures IntMin <= r <= IntMax
  {
    match TruncateDecimal(u) case Some(v) => SaturateInt(v) case None => 0
  }

  /**
    `asInt()`: an integral number (rendered without a dot) is narrowed to its
    low 32 bits, a double (always rendered with a dot, possibly in E
    notation) is truncated and saturated, a boolean is 1 or 0, a text goes
    through `ParseAsInt`, and everything else is 0.
  */
  function AsInt(j: Json): (r: int)
    ensures IntMin <= r <= IntMax
  {
    match j
    case JNum(l) =>
      if '.' !in l then
        (match ParseDecimal(l) case Some(v) => WrapInt(v) case None => 0)
      else DoubleAsInt(l)
    case JBool(b) => if b then 1 else 0
    case JStr(t) => ParseAsInt(t)
    case _ => 0
  }

  /** Java's `(int) 1.0E10` saturates; the model reads the exponent. */
  lemma AsIntExponent()
    ensures AsInt(JNum("1.0E10")) == IntMax
  {
    var l := "1.0E10";
    assert l[1] == '.';
    assert IndexOfAny(l, {'e', 'E'}) == 3;
    assert l[..3] == "1.0" && l[4..] == "10";
    assert IndexOfAny("1.0", {'.'}) == 1;
    assert "1.0"[..1] == "1" && "1.0"[2..] == "0";
    TwoDigits('1', '0');
    assert "1" + "0" == "10";
    assert ParseDecimal("10") == Some(10);
    assert Pow10(9) == 1000000000;
    assert TruncateDecimal(l) == Some(10000000000);
  }

  /** `NumberInput.parseAsInt` falls back to the double and truncates it. */
  lemma AsIntDecimalText()
    ensures AsInt(JStr("3.5")) == 3
  {
    var t := "3.5";
    assert TrimStart(t) == t && TrimEnd(t) == t;
    assert !AllDigits(t) by { assert !IsDigit(t[1]); }
    assert IndexOfAny(t, {'e', 'E'}) == 3;
    assert t[..3] == t;
    assert IndexOfAny(t, {'.'}) == 1;
    assert t[..1] == "3" && t[2..] == "5";
    TwoDigits('3', '5');
    assert "3" + "5" == "35";
    assert TruncateDecimal(t) == Some(3);
  }

  /**
    A trimmed text of an optional `-` and digits, with no leading `+`, is
    read by `Integer.parseInt`, out-of-range values giving 0.
  */
  lemma TrimmedAsIntOfDigits(u: string)
    requires u == [] || u[0] != '+'
    requires AllDigits(if u != [] && u[0] == '-' then u[1..] else u)
    ensures TrimmedAsInt(u) == (match ParseInt(u) case Some(v) => v case None => 0)
  {
  }

  /** Every int written as a text reads back as itself. */
  lemma ParseAsIntOfInt(n: int)
    requires IntMin <= n <= IntMax
    ensures ParseAsInt(DecimalString(n)) == n
  {
    var s := DecimalString(n);
    DecimalTextFacts(n);
    TrimPrintable(s);
    TrimmedAsIntOfDigits(s);
  }

  /** The facts about `Integer.toString(n)` that reading it back needs. */
  lemma DecimalTextFacts(n: int)
    requires IntMin <= n <= IntMax
    ensures var s := DecimalString(n);
      && ParseInt(s) == Some(n)
      && (forall i :: 0 <= i < |s| ==> s[i] > ' ')
      && s != [] && s[0] != '+'
      && AllDigits(if s[0] == '-' then s[1..] else s)
  {
    var s := DecimalString(n);
    DecimalRoundTrip(n);
    DecimalStringShape(n);
  }

  /** Padding with blanks does not change what a printable text reads as. */
  lemma ParseAsIntPadded(s: string)
    requires s != [] && forall i :: 0 <= i < |s| ==> s[i] > ' '
    ensures ParseAsInt(" " + s + " ") == ParseAsInt(s)
  {
    TrimPadded(s);
    TrimPrintable(s);
  }

  /** `NumberInput.parseAsInt` trims the text first: padding does not change the int read. */
  lemma AsIntPaddedText(n: int)
    requires IntMin <= n <= IntMax
    ensures AsInt(JStr(" " + DecimalString(n) + " ")) == n
  {
    var s := DecimalString(n);
    DecimalStringShape(n);
    assert forall i :: 0 <= i < |s| ==> s[i] > ' ';
    assert AsInt(JStr(" " + s + " ")) == ParseAsInt(" " + s + " ");
    ParseAsIntPadded(s);
    ParseAsIntOfInt(n);
  }

  /** Narrowing a value already in the int range keeps it. */
  lemma WrapIntInRange(v: int)
    requires IntMin <= v <= IntMax
    ensures WrapInt(v) == v
  {
    if v < 0 {
      assert v % 0x1_0000_0000 == v + 0x1_0000_0000;
    } else {
      assert v % 0x1_0000_0000 == v;
    }
  }

  /** An int written without a dot is read as an integral number. */
  lemma AsIntNumberOfInt(n: int)
    requires IntMin <= n <= IntMax
    ensures AsInt(JNum(DecimalString(n))) == n
  {
    var s := DecimalString(n);
    DecimalRoundTrip(n);
    DecimalStringShape(n);
    assert '.' !in s by {
      assert forall i :: 0 <= i < |s| ==> s[i] != '.';
    }
    WrapIntInRange(n);
  }

  /** Every int, written as a number or as a text, reads back as itself. */
  lemma AsIntOfInt(n: int)
    requires IntMin <= n <= IntMax
    ensures AsInt(JNum(DecimalString(n))) == n
    ensures AsInt(JStr(DecimalString(n))) == n
  {
    AsIntNumberOfInt(n);
    ParseAsIntOfInt(n);
  }

  /**
    `findPath(key)`: a depth-first search in document order.  For each entry
    of an object, its own name is tested first and then its value is
    searched, before the next entry; so a `key` nested in an earlier entry
    wins over a direct `key` entry that comes later.
  */
  function FindPath(j: Json, key: string): Json
    decreases Size(j)
  {
    match j
    case JObject(ps) => FindPathInEntries(ps, key)
    case JArray(xs) => FindPathInItems(xs, key)
    case _ => JMissing
  }

  function FindPathInEntries(ps: seq<(string, Json)>, key: string): Json
    decreases PairsSize(ps)
  {
    if ps == [] then JMissing
    else if ps[0].0 == key then ps[0].1
    else
      var found := FindPath(ps[0].1, key);
      if found != JMissing then found else FindPathInEntries(ps[1..], key)
  }

  function FindPathInItems(xs: seq<Json>, key: string): Json
    decreases ItemsSize(xs)
  {
    if xs == [] then JMissing
    else
      var found := FindPath(xs[0], key);
      if found != JMissing then found else FindPathInItems(xs[1..], key)
  }

  /**
    An entry named `key` is what `findPath` returns when no earlier entry
    has that name or holds it at any depth.
  */
  lemma {:induction false} FindPathOwnEntry(ps: seq<(string, Json)>, key: string, k: nat)
    requires k < |ps| && ps[k].0 == key
    requires forall i :: 0 <= i < k ==> ps[i].0 != key && FindPath(ps[i].1, key) == JMissing
    ensures FindPathInEntries(ps, key) == ps[k].1
  {
    if k > 0 {
      assert forall i :: 0 <= i < k - 1 ==> ps[1..][i] == ps[i + 1];
      FindPathOwnEntry(ps[1..], key, k - 1);
    }
  }

  // ----- size facts used by the termination proofs of the resolver -----

  lemma {:induction false} LookupSmaller(ps: seq<(string, Json)>, key: string)
    ensures Lookup(ps, key) == JMissing || Size(Lookup(ps, key)) < PairsSize(ps)
  {
    if ps != [] && ps[0].0 != key {
      LookupSmaller(ps[1..], key);
    }
  }

  lemma GetSmaller(j: Json, key: string)
    requires j.JObject?
    ensures Size(Get(j, key)) < Size(j)
  {
    LookupSmaller(j.entries, key);
  }

  lemma {:induction false} LookupAbsent(ps: seq<(string, Json)>, key: string)
    requires key !in Keys(ps)
    ensures Lookup(ps, key) == JMissing
  {
    if ps != [] {
      assert ps[0].0 in Keys(ps);
      assert Keys(ps[1..]) <= Keys(ps) by {
        forall k | k in Keys(ps[1..]) ensures k in Keys(ps) {
          var i :| 0 <= i < |ps[1..]| && ps[1..][i].0 == k;
          assert ps[i + 1].0 == k;
        }
      }
      LookupAbsent(ps[1..], key);
    }
  }

  /** A key an object does not have reads as missing. */
  lemma GetAbsent(j: Json, key: string)
    requires key !in Keys(FieldsOf(j))
    ensures Get(j, key) == JMissing
  {
    if j.JObject? {
      LookupAbsent(j.entries, key);
    }
  }

  lemma {:induction false} ValuesSize(ps: seq<(string, Json)>)
    ensures ItemsSize(Values(ps)) == PairsSize(ps)
  {
    if ps != [] {
      ValuesSize(ps[1..]);
      assert Values(ps)[1..] == Values(ps[1..]);
    }
  }

  lemma ElementsSmaller(j: Json)
    ensures ItemsSize(Elements(j)) < Size(j)
  {
    if j.JObject? {
      ValuesSize(j.entries);
    }
  }

  /** Only an object has children by name. */
  lemma HasOnObject(j: Json, key: string)
    requires Has(j, key)
    ensures j.JObject? && Size(Get(j, key)) < Size(j)
  {
    GetSmaller(j, key);
  }

  /** The elements of a child are, together, smaller than the parent. */
  lemma ChildElementsSmaller(j: Json, key: string)
    ensures ItemsSize(Elements(Get(j, key))) < Size(j)
  {
    ElementsSmaller(Get(j, key));
    if j.JObject? {
      GetSmaller(j, key);
    }
  }

  /** The entries of a child are, together, smaller than the parent. */
  lemma ChildFieldsSmaller(j: Json, key: string)
    ensures PairsSize(FieldsOf(Get(j, key))) < Size(j)
  {
    if j.JObject? {
      GetSmaller(j, key);
    }
  }

  lemma {:induction false} ItemSmaller(xs: seq<Json>, i: nat)
    requires i < |xs|
    ensures Size(xs[i]) < ItemsSize(xs)
  {
    if i > 0 {
      ItemSmaller(xs[1..], i - 1);
    }
  }

  predicate IsContainer(j: Json) { j.JObject? || j.JArray? }

  /** A child of a container, even a missing one, is smaller than the container. */
  lemma ContainerChildSmaller(j: Json, key: string)
    requires IsContainer(j)
    ensures Size(Get(j, key)) < Size(j)
  {
    if j.JObject? {
      GetSmaller(j, key);
    }
  }
}
