/**
 * `get_schema`: the column query's rows become the column descriptors the
 * admin page builds its forms from.
 */
module Schema {
  import opened Wrappers
  import opened Errors

  /** The form control a column gets, chosen by the CASE of the column query. */
  datatype InputType = BitInput | NumberInput | TextInput

  /** The strings the CASE yields. */
  function InputTypeName(t: InputType): string
  {
    match t
    case BitInput => "bit"
    case NumberInput => "number"
    case TextInput => "text"
  }

  const IntegerTypes: seq<string> := ["int", "bigint", "smallint", "tinyint"]

  /** The CASE on `DATA_TYPE`: `bit` first, then the integer family, everything else text. */
  function InputTypeOf(dataType: string): InputType
  {
    if dataType == "bit" then BitInput
    else if dataType in IntegerTypes then NumberInput
    else TextInput
  }

  /**
   * One row of the column query: `COLUMN_NAME`, `DATA_TYPE`,
   * `CHARACTER_MAXIMUM_LENGTH` (NULL for non-character types),
   * `IS_NULLABLE` ('YES' or 'NO') and `COLUMNPROPERTY(..., 'IsIdentity')`
   * (1, 0 or NULL). Its `INPUT_TYPE` is `InputTypeOf(dataType)`.
   */
  datatype ColumnRow = ColumnRow(
    name: string,
    dataType: string,
    maxLength: Option<int>,
    isNullable: string,
    isIdentity: Option<int>)

  /** The descriptor `get_schema` sends for a column. */
  datatype ColumnDescriptor = ColumnDescriptor(
    name: string,
    sqlType: string,
    maxLength: Option<int>,
    isNullable: bool,
    isIdentity: bool,
    inputType: InputType)

  /** Python's `bool(row[4])` on the identity flag. */
  predicate IdentityFlag(x: Option<int>)
  {
    x.Some? && x.value != 0
  }

  /** The dictionary built for one row (`function_app.py` lines 652-659). */
  function Describe(row: ColumnRow): ColumnDescriptor
  {
    ColumnDescriptor(row.name, row.dataType, row.maxLength, row.isNullable == "YES",
                     IdentityFlag(row.isIdentity), InputTypeOf(row.dataType))
  }

  /** The descriptors of all rows, in the order the query returned them (ORDINAL_POSITION). */
  function Descriptors(rows: seq<ColumnRow>): seq<ColumnDescriptor>
  {
    seq(|rows|, i requires 0 <= i < |rows| => Describe(rows[i]))
  }

  /** The CASE partitions the types: `bit`, the four integer types, and the rest. */
  lemma InputTypeClassification(dataType: string)
    ensures InputTypeName(InputTypeOf(dataType)) == "bit" <==> dataType == "bit"
    ensures InputTypeName(InputTypeOf(dataType)) == "number" <==> dataType in {"int", "bigint", "smallint", "tinyint"}
    ensures InputTypeName(InputTypeOf(dataType)) == "text" <==> dataType != "bit" && dataType !in {"int", "bigint", "smallint", "tinyint"}
    ensures InputTypeOf(dataType) == BitInput <==> dataType == "bit"
    ensures InputTypeOf(dataType) == NumberInput <==> dataType in {"int", "bigint", "smallint", "tinyint"}
    ensures InputTypeOf(dataType) == TextInput <==> dataType != "bit" && dataType !in {"int", "bigint", "smallint", "tinyint"}
  {
  }

  /**
   * The loop of `function_app.py` lines 646-660: no rows is an error; otherwise one
   * descriptor per row, in row order, each keeping the row's name, type
   * and length, nullable exactly when `IS_NULLABLE` is 'YES', an identity
   * exactly when the flag is non-zero, and the input type of its type.
   * The second emptiness test in `function_app.py` (lines 665-666) can never
   * fire: the only failure is the first.
   */
  method DescribeColumns(rows: seq<ColumnRow>) returns (r: Result<seq<ColumnDescriptor>, Error>)
    ensures r.Failure? <==> |rows| == 0
    ensures r.Failure? ==> r.error == NoSchema
    ensures r.Success? ==> |r.value| == |rows|
    ensures r.Success? ==> forall i :: 0 <= i < |rows| ==>
      && r.value[i].name == rows[i].name
      && r.value[i].sqlType == rows[i].dataType
      && r.value[i].maxLength == rows[i].maxLength
      && (r.value[i].isNullable <==> rows[i].isNullable == "YES")
      && (r.value[i].isIdentity <==> rows[i].isIdentity.Some? && rows[i].isIdentity.value != 0)
      && r.value[i].inputType == InputTypeOf(rows[i].dataType)
    ensures r.Success? ==> r.value == Descriptors(rows)
  {
    if |rows| == 0 {
      return Failure(NoSchema);
    }
    var columns: seq<ColumnDescriptor> := [];
    for i := 0 to |rows|
      invariant |columns| == i
      invariant forall j :: 0 <= j < i ==> columns[j] == Describe(rows[j])
    {
      var column := Describe(rows[i]);
      columns := columns + [column];
    }
    r := Success(columns);
  }
}
