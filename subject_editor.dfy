/**
  The list merge of the serialised-subject property editor.  When the schema
  is extracted again, the freshly extracted field mappings replace the rows
  of the editor's table; a fresh mapping whose field name and field type
  both match a row already in the table is replaced by that row, so that
  what the user typed into the other columns survives the re-extraction.
*/
module SubjectEditor {
  import opened Wrappers

  /** A row of the schema table: the field's name and type, and the columns the user edits. */
  datatype FieldValueMapping = FieldValueMapping(
    fieldName: string,
    fieldType: string,
    valueLength: int,
    fieldValuesList: string,
    required: bool)

  /** The value the table editor holds: a list of mappings, or something else. */
  datatype TableValue = MappingList(rows: seq<FieldValueMapping>) | OtherValue

  /** The two mappings describe the same field: equal name and equal type. */
  predicate SameKey(v: FieldValueMapping, w: FieldValueMapping)
  {
    v.fieldName == w.fieldName && v.fieldType == w.fieldType
  }

  /**
    `checkExists`: the first row of `rows` with the same name and type as
    `fieldValue`, or nothing when no row has them.
  */
  function CheckExists(fieldValue: FieldValueMapping, rows: seq<FieldValueMapping>): (r: Option<FieldValueMapping>)
    ensures r.None? <==> forall i :: 0 <= i < |rows| ==> !SameKey(rows[i], fieldValue)
    ensures r.Some? ==> exists i :: 0 <= i < |rows| && rows[i] == r.value && SameKey(r.value, fieldValue)
                                 && forall j :: 0 <= j < i ==> !SameKey(rows[j], fieldValue)
  {
    if rows == [] then None
    else if SameKey(rows[0], fieldValue) then
      Some(rows[0])
    else
      var r := CheckExists(fieldValue, rows[1..]);
      if r.Some? then
        var i :| 0 <= i < |rows[1..]| && rows[1..][i] == r.value && SameKey(r.value, fieldValue)
                 && forall j :: 0 <= j < i ==> !SameKey(rows[1..][j], fieldValue);
        assert rows[i + 1] == r.value;
        assert forall j :: 0 <= j < i + 1 ==> !SameKey(rows[j], fieldValue) by {
          forall j | 0 <= j < i + 1 ensures !SameKey(rows[j], fieldValue) {
            if j > 0 {
              assert rows[j] == rows[1..][j - 1];
            }
          }
        }
        r
      else
        assert forall i :: 0 <= i < |rows| ==> !SameKey(rows[i], fieldValue) by {
          forall i | 0 <= i < |rows| ensures !SameKey(rows[i], fieldValue) {
            if i > 0 {
              assert rows[i] == rows[1..][i - 1];
            }
          }
        }
        r
  }

  /** What position `i` of the merge holds: the matching row if there is one, the fresh mapping otherwise. */
  function Resolve(fieldValue: FieldValueMapping, rows: seq<FieldValueMapping>): FieldValueMapping
  {
    match CheckExists(fieldValue, rows)
    case Some(existing) => existing
    case None => fieldValue
  }

  /**
    The whole merge: a table value that is not a list, and an empty list,
    leave `attributeList` as it is; otherwise every mapping is resolved
    against the rows, in order.
  */
  function MergeSpec(table: TableValue, attributeList: seq<FieldValueMapping>): seq<FieldValueMapping>
  {
    if !table.MappingList? || |table.rows| == 0 then attributeList
    else seq(|attributeList|, i requires 0 <= i < |attributeList| => Resolve(attributeList[i], table.rows))
  }

  /** `mergeValue`: builds the result one mapping at a time. */
  method MergeValue(table: TableValue, attributeList: seq<FieldValueMapping>) returns (result: seq<FieldValueMapping>)
    ensures result == MergeSpec(table, attributeList)
    ensures !table.MappingList? ==> result == attributeList
    ensures table.MappingList? && |table.rows| == 0 ==> result == attributeList
    ensures |result| == |attributeList|
    ensures forall i :: 0 <= i < |result| ==> SameKey(result[i], attributeList[i])
  {
    if !table.MappingList? {
      return attributeList;
    }
    var fieldValueList := table.rows;
    if |fieldValueList| == 0 {
      return attributeList;
    }
    result := [];
    for i := 0 to |attributeList|
      invariant |result| == i
      invariant forall k :: 0 <= k < i ==> result[k] == Resolve(attributeList[k], fieldValueList)
      invariant forall k :: 0 <= k < i ==> SameKey(result[k], attributeList[k])
    {
      var existsValue := CheckExists(attributeList[i], fieldValueList);
      if existsValue.Some? {
        result := result + [existsValue.value];
      } else {
        result := result + [attributeList[i]];
      }
    }
    assert result == MergeSpec(table, attributeList);
  }

  // ----- properties of the merge -----

  /** Two mappings with the same key find the same row. */
  lemma {:induction false} CheckExistsByKey(v: FieldValueMapping, w: FieldValueMapping, rows: seq<FieldValueMapping>)
    requires SameKey(v, w)
    ensures CheckExists(v, rows) == CheckExists(w, rows)
  {
    if rows != [] && !SameKey(rows[0], v) {
      CheckExistsByKey(v, w, rows[1..]);
    }
  }

  /**
    Position `i` of the merge is the first row with the name and type of
    `attributeList[i]` when one exists, and `attributeList[i]` itself when
    none does; the merge keeps the length and the order of `attributeList`.
  */
  lemma MergePointwise(table: TableValue, attributeList: seq<FieldValueMapping>, i: int)
    requires table.MappingList? && 0 <= i < |attributeList|
    ensures |MergeSpec(table, attributeList)| == |attributeList|
    ensures (forall k :: 0 <= k < |table.rows| ==> !SameKey(table.rows[k], attributeList[i]))
            ==> MergeSpec(table, attributeList)[i] == attributeList[i]
    ensures (exists k :: 0 <= k < |table.rows| && SameKey(table.rows[k], attributeList[i]))
            ==> exists k :: 0 <= k < |table.rows| && MergeSpec(table, attributeList)[i] == table.rows[k]
                         && SameKey(table.rows[k], attributeList[i])
                         && forall j :: 0 <= j < k ==> !SameKey(table.rows[j], attributeList[i])
  {
  }

  /** The merge never introduces a (name, type) pair that `attributeList` does not have at that position. */
  lemma MergeKeepsKeys(table: TableValue, attributeList: seq<FieldValueMapping>)
    ensures |MergeSpec(table, attributeList)| == |attributeList|
    ensures forall i :: 0 <= i < |attributeList| ==> SameKey(MergeSpec(table, attributeList)[i], attributeList[i])
  {
    if table.MappingList? && |table.rows| > 0 {
      forall i | 0 <= i < |attributeList|
        ensures SameKey(MergeSpec(table, attributeList)[i], attributeList[i])
      {
        assert MergeSpec(table, attributeList)[i] == Resolve(attributeList[i], table.rows);
      }
    }
  }

  /** Every merged mapping is either a row of the table or the fresh mapping at that position. */
  lemma MergeDrawsFromInputs(table: TableValue, attributeList: seq<FieldValueMapping>)
    ensures forall i :: 0 <= i < |MergeSpec(table, attributeList)| ==>
              MergeSpec(table, attributeList)[i] == attributeList[i]
              || (table.MappingList? && MergeSpec(table, attributeList)[i] in table.rows)
  {
  }

  /** Merging the result against the same table again changes nothing. */
  lemma MergeIdempotent(table: TableValue, attributeList: seq<FieldValueMapping>)
    ensures MergeSpec(table, MergeSpec(table, attributeList)) == MergeSpec(table, attributeList)
  {
    if table.MappingList? && |table.rows| > 0 {
      var once := MergeSpec(table, attributeList);
      var twice := MergeSpec(table, once);
      MergeKeepsKeys(table, attributeList);
      forall i | 0 <= i < |once|
        ensures twice[i] == once[i]
      {
        assert once[i] == Resolve(attributeList[i], table.rows);
        CheckExistsByKey(once[i], attributeList[i], table.rows);
        match CheckExists(attributeList[i], table.rows)
        case Some(existing) =>
        case None =>
      }
    }
  }
}
