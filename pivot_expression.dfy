/** `PivotExpression`: the TypeScript interface generated for the pivot table
    of a many-to-many relation. */
module PivotExpression {
  import opened Wrappers
  import opened Strings
  import opened ExpressionStringGenerationOptions
  import opened Expression
  import opened Schema
  import opened TypeConverter
  import opened EloquentRelation
  import opened OrderedMap

  // ---------------------------------------------------------------------------
  // Specification functions

  /** The first table with exactly the given name. */
  function FirstNamed(tables: seq<Table>, tableName: string): (r: Option<Table>)
    ensures r.Some? ==> r.value.name == tableName && r.value in tables
    ensures r.None? <==> forall i :: 0 <= i < |tables| ==> tables[i].name != tableName
  {
    if tables == [] then None
    else if tables[0].name == tableName then Some(tables[0])
    else
      var r := FirstNamed(tables[1..], tableName);
      assert forall i :: 1 <= i < |tables| ==> tables[i] == tables[1..][i - 1];
      r
  }

  /** The parts of a snake_case name, each with an upper-cased first letter,
      glued together. */
  function PascalCase(parts: seq<string>): string {
    Concat(Capitalized(parts))
  }

  function Capitalized(parts: seq<string>): (r: seq<string>)
    ensures |r| == |parts| && forall i :: 0 <= i < |parts| ==> r[i] == UcFirst(parts[i])
  {
    seq(|parts|, i requires 0 <= i < |parts| => UcFirst(parts[i]))
  }

  function InterfaceName(tableName: string): string {
    PascalCase(Split(tableName, '_')) + "Pivot"
  }

  /** The position of the first column whose type does not convert, or the
      number of columns when all do. */
  function FirstUnknown(columns: seq<Column>): (k: nat)
    ensures k <= |columns|
    ensures forall j :: 0 <= j < k ==> ConvertType(columns[j].columnType).Success?
    ensures k < |columns| ==> ConvertType(columns[k].columnType).Failure?
  {
    if columns == [] then 0
    else if ConvertType(columns[0].columnType).Failure? then 0
    else
      var k := 1 + FirstUnknown(columns[1..]);
      assert forall j :: 1 <= j < |columns| ==> columns[j] == columns[1..][j - 1];
      k
  }

  predicate AllConvert(columns: seq<Column>) {
    forall j :: 0 <= j < |columns| ==> ConvertType(columns[j].columnType).Success?
  }

  /** `$fields[$name] = convert($column)` for every column in turn. */
  function FieldsOf(columns: seq<Column>): seq<Entry<string>>
    requires AllConvert(columns)
  {
    if columns == [] then []
    else
      var c := columns[|columns| - 1];
      Put(FieldsOf(columns[..|columns| - 1]), c.name, ConvertType(c.columnType).value)
  }

  /** The names of the not-null columns listed among the pivot columns, in
      column order. */
  function Required(columns: seq<Column>, pivotColumns: seq<string>): seq<string> {
    if columns == [] then []
    else
      var c := columns[|columns| - 1];
      Required(columns[..|columns| - 1], pivotColumns) + RequiredPart(c, pivotColumns)
  }

  /** The column's name when it is not null and listed among the pivot columns. */
  function RequiredPart(c: Column, pivotColumns: seq<string>): seq<string> {
    if c.name in pivotColumns && c.notnull then [c.name] else []
  }

  function FieldLine(field: Entry<string>, options: Options): string {
    IndentExpression(options) + field.key + "?" + ": " + field.value + Semicolon(options)
  }

  function FieldLines(fields: seq<Entry<string>>, options: Options): (r: seq<string>)
    ensures |r| == |fields|
  {
    seq(|fields|, i requires 0 <= i < |fields| => FieldLine(fields[i], options))
  }

  function HeaderLines(tableName: string, interfaceName: string): seq<string> {
    ["// Auto-generated pivot interface for table: " + tableName,
     "export default interface " + interfaceName + " {"]
  }

  /** The lines of the rendered interface. */
  function PivotLines(tableName: string, interfaceName: string, fields: seq<Entry<string>>, options: Options): seq<string> {
    HeaderLines(tableName, interfaceName) + FieldLines(fields, options) + ["}"]
  }

  function PivotText(tableName: string, interfaceName: string, fields: seq<Entry<string>>, options: Options): string {
    Terminated(PivotLines(tableName, interfaceName, fields, options))
  }

  function NotFoundMessage(relation: Relation, tableName: string): string {
    "Error: Pivot table '" + tableName + "' not found in database from relation '" + relation.name + "'\n"
  }

  // ---------------------------------------------------------------------------
  // The search and name loops

  /** `findTableByName`. */
  method FindTableByName(tables: seq<Table>, tableName: string) returns (r: Option<Table>)
    ensures r == FirstNamed(tables, tableName)
  {
    var i := 0;
    while i < |tables|
      invariant 0 <= i <= |tables|
      invariant FirstNamed(tables, tableName) == FirstNamed(tables[i..], tableName)
    {
      if tables[i].name == tableName {
        return Some(tables[i]);
      }
      assert tables[i..][1..] == tables[i + 1..];
      i := i + 1;
    }
    return None;
  }

  /** `tableNameToInterfaceName`. */
  method TableNameToInterfaceName(tableName: string) returns (r: string)
    ensures r == InterfaceName(tableName)
  {
    var parts := Split(tableName, '_');
    var interfaceName := "";
    var i := 0;
    while i < |parts|
      invariant 0 <= i <= |parts|
      invariant interfaceName == PascalCase(parts[..i])
    {
      PascalStep(parts, i);
      interfaceName := interfaceName + UcFirst(parts[i]);
      i := i + 1;
    }
    assert parts[..|parts|] == parts;
    r := interfaceName + "Pivot";
  }

  lemma PascalStep(parts: seq<string>, i: nat)
    requires i < |parts|
    ensures PascalCase(parts[..i + 1]) == PascalCase(parts[..i]) + UcFirst(parts[i])
  {
    assert Capitalized(parts[..i + 1]) == Capitalized(parts[..i]) + [UcFirst(parts[i])];
    ConcatAppend(Capitalized(parts[..i]), UcFirst(parts[i]));
  }

  lemma HeaderText(first: string, second: string)
    ensures first + "\n" + second + "\n" == Terminated([first, second])
  {
    calc {
      Terminated([first, second]);
      { assert [first, second][..1] == [first]; }
      Terminated([first]) + second + "\n";
      { assert [first][..0] == []; }
      "" + first + "\n" + second + "\n";
      { assert "" + first == first; }
      first + "\n" + second + "\n";
    }
  }

  lemma FieldsStart(header: seq<string>, fields: seq<Entry<string>>, options: Options)
    ensures Terminated(header + FieldLines(fields[..0], options)) == Terminated(header)
  {
    assert header + FieldLines(fields[..0], options) == header;
  }

  /** One more field line accumulated by the rendering loop. */
  lemma FieldStep(header: seq<string>, fields: seq<Entry<string>>, i: nat, options: Options)
    requires i < |fields|
    ensures Terminated(header + FieldLines(fields[..i + 1], options))
      == Terminated(header + FieldLines(fields[..i], options)) + FieldLine(fields[i], options) + "\n"
  {
    assert header + FieldLines(fields[..i + 1], options)
      == (header + FieldLines(fields[..i], options)) + [FieldLine(fields[i], options)];
    TerminatedSnoc(header + FieldLines(fields[..i], options), FieldLine(fields[i], options));
  }

  lemma FieldsDone(header: seq<string>, fields: seq<Entry<string>>, options: Options)
    ensures Terminated(header + FieldLines(fields[..|fields|], options)) + "}\n"
      == Terminated(header + FieldLines(fields, options) + ["}"])
  {
    assert fields[..|fields|] == fields;
    TerminatedSnoc(header + FieldLines(fields, options), "}");
  }

  // ---------------------------------------------------------------------------
  // The pivot object

  class PivotExpression {
    var tableName: string
    var interfaceName: string
    /** Column name to TypeScript type, in column order. */
    var fields: seq<Entry<string>>
    var requiredColumns: seq<string>

    constructor ()
      ensures tableName == "" && interfaceName == "" && fields == [] && requiredColumns == []
    {
      tableName := "";
      interfaceName := "";
      fields := [];
      requiredColumns := [];
    }

    /** `toTypeScript`. */
    method ToTypeScript(options: Options) returns (content: string)
      ensures content == PivotText(tableName, interfaceName, fields, options)
    {
      ghost var header := HeaderLines(tableName, interfaceName);
      var first := "// Auto-generated pivot interface for table: " + tableName;
      var second := "export default interface " + interfaceName + " {";
      content := first + "\n";
      content := content + second + "\n";
      HeaderText(first, second);
      FieldsStart(header, fields, options);
      var i := 0;
      while i < |fields|
        invariant 0 <= i <= |fields|
        invariant content == Terminated(header + FieldLines(fields[..i], options))
      {
        var semicolon := Semicolon(options);
        var indentExpression := IndentExpression(options);
        var line := indentExpression + fields[i].key + "?" + ": " + fields[i].value + semicolon;
        FieldStep(header, fields, i, options);
        content := content + line + "\n";
        i := i + 1;
      }
      FieldsDone(header, fields, options);
      content := content + "}\n";
    }

    /** `getFileName`: the interface name with the `.ts` extension. */
    function GetFileName(): (r: string)
      reads this
      ensures |r| == |interfaceName| + 3 && r[..|interfaceName|] == interfaceName
      ensures r[|interfaceName|..] == ".ts"
    {
      interfaceName + ".ts"
    }

    function HasFields(): (r: bool)
      reads this
      ensures r <==> |fields| > 0
    {
      fields != []
    }

    function GetRequiredColumns(): seq<string>
      reads this
    {
      requiredColumns
    }
  }

  datatype PivotOutcome = NoPivot | Built(pivot: PivotExpression) | Failed(message: string)

  /** What the column loop of `fromEloquentRelation` leaves in the pivot when
      every column converts. */
  ghost predicate Filled(pivot: PivotExpression, tableName: string, columns: seq<Column>, pivotColumns: seq<string>)
    reads pivot
  {
    AllConvert(columns)
    && pivot.tableName == tableName
    && pivot.interfaceName == InterfaceName(tableName)
    && pivot.fields == FieldsOf(columns)
    && pivot.requiredColumns == Required(columns, pivotColumns)
  }

  /** The column loop of `fromEloquentRelation`: converts every column into a
      field and collects the required ones, stopping at the first column
      whose type does not convert. */
  method FillFields(pivot: PivotExpression, columns: seq<Column>, pivotColumns: seq<string>, typeConverter: TypeConverter)
    returns (failure: Option<string>)
    requires pivot.fields == [] && pivot.requiredColumns == []
    requires pivot.interfaceName == InterfaceName(pivot.tableName)
    modifies pivot, typeConverter
    ensures pivot.tableName == old(pivot.tableName) && pivot.interfaceName == old(pivot.interfaceName)
    ensures FirstUnknown(columns) < |columns| ==>
      failure == Some(ConvertType(columns[FirstUnknown(columns)].columnType).message)
      && typeConverter.typ == Some(columns[FirstUnknown(columns)].columnType)
    ensures FirstUnknown(columns) == |columns| ==>
      failure.None? && Filled(pivot, pivot.tableName, columns, pivotColumns)
    ensures FirstUnknown(columns) == |columns| ==>
      typeConverter.typ == if columns == [] then old(typeConverter.typ) else Some(columns[|columns| - 1].columnType)
  {
    var fields, required;
    failure, fields, required := ConvertColumns(columns, pivotColumns, typeConverter);
    if failure.None? {
      pivot.fields := fields;
      pivot.requiredColumns := required;
    }
  }

  /** The loop itself, on local values: the fields and required columns of
      every column, or the message of the first column that does not convert. */
  method ConvertColumns(columns: seq<Column>, pivotColumns: seq<string>, typeConverter: TypeConverter)
    returns (failure: Option<string>, fields: seq<Entry<string>>, required: seq<string>)
    modifies typeConverter
    ensures ConvertedAs(columns, pivotColumns, failure, fields, required,
                        typeConverter.typ, old(typeConverter.typ))
  {
    fields, required := [], [];
    ColumnsStart(columns, pivotColumns);
    var i := 0;
    while i < |columns|
      invariant 0 <= i <= |columns|
      invariant Scanned(columns, pivotColumns, i, fields, required)
      invariant typeConverter.typ == if i == 0 then old(typeConverter.typ) else Some(columns[i - 1].columnType)
    {
      var column := columns[i];
      var converted := typeConverter.Convert(column);
      if converted.Failure? {
        ColumnsStop(columns, pivotColumns, i, fields, required, old(typeConverter.typ));
        return Some(converted.message), fields, required;
      }
      ColumnStep(columns, pivotColumns, i, fields, required);
      fields := Put(fields, column.name, converted.value);
      required := required + RequiredPart(column, pivotColumns);
      i := i + 1;
    }
    ColumnsDone(columns, pivotColumns, fields, required, typeConverter.typ, old(typeConverter.typ));
    failure := None;
  }

  /** What the column loop leaves behind: the message of the first column
      that does not convert (the converter remembering its type), or else
      every field and required column (the converter remembering the type of
      the last column, if any). */
  ghost predicate ConvertedAs(columns: seq<Column>, pivotColumns: seq<string>, failure: Option<string>,
                              fields: seq<Entry<string>>, required: seq<string>,
                              typ: Option<ColumnType>, typ0: Option<ColumnType>)
  {
    (FirstUnknown(columns) < |columns| ==>
      failure == Some(ConvertType(columns[FirstUnknown(columns)].columnType).message)
      && typ == Some(columns[FirstUnknown(columns)].columnType))
    && (FirstUnknown(columns) == |columns| ==>
      failure.None? && AllConvert(columns)
      && fields == FieldsOf(columns) && required == Required(columns, pivotColumns)
      && typ == if columns == [] then typ0 else Some(columns[|columns| - 1].columnType))
  }

  /** After the first `i` columns, `fields` and `required` hold what they give. */
  ghost predicate Scanned(columns: seq<Column>, pivotColumns: seq<string>, i: nat,
                          fields: seq<Entry<string>>, required: seq<string>)
  {
    i <= |columns| && AllConvert(columns[..i])
    && fields == FieldsOf(columns[..i]) && required == Required(columns[..i], pivotColumns)
  }

  lemma ColumnsStart(columns: seq<Column>, pivotColumns: seq<string>)
    ensures Scanned(columns, pivotColumns, 0, [], [])
  {
    assert columns[..0] == [];
  }

  /** One more converted column: its field is put into the map and its name
      appended to the required ones when it qualifies. */
  lemma ColumnStep(columns: seq<Column>, pivotColumns: seq<string>, i: nat,
                   fields: seq<Entry<string>>, required: seq<string>)
    requires i < |columns| && Scanned(columns, pivotColumns, i, fields, required)
    requires ConvertType(columns[i].columnType).Success?
    ensures Scanned(columns, pivotColumns, i + 1,
                    Put(fields, columns[i].name, ConvertType(columns[i].columnType).value),
                    required + RequiredPart(columns[i], pivotColumns))
  {
    var prefix := columns[..i + 1];
    assert prefix[..i] == columns[..i] && prefix[i] == columns[i];
    forall j | 0 <= j < i + 1 ensures ConvertType(prefix[j].columnType).Success? {
      if j < i {
        assert prefix[j] == columns[..i][j];
      }
    }
  }

  lemma ColumnsStop(columns: seq<Column>, pivotColumns: seq<string>, i: nat,
                    fields: seq<Entry<string>>, required: seq<string>, typ0: Option<ColumnType>)
    requires i < |columns| && Scanned(columns, pivotColumns, i, fields, required)
    requires ConvertType(columns[i].columnType).Failure?
    ensures ConvertedAs(columns, pivotColumns, Some(ConvertType(columns[i].columnType).message),
                        fields, required, Some(columns[i].columnType), typ0)
  {
    FirstUnknownAt(columns, i);
  }

  lemma ColumnsDone(columns: seq<Column>, pivotColumns: seq<string>,
                    fields: seq<Entry<string>>, required: seq<string>,
                    typ: Option<ColumnType>, typ0: Option<ColumnType>)
    requires Scanned(columns, pivotColumns, |columns|, fields, required)
    requires typ == if |columns| == 0 then typ0 else Some(columns[|columns| - 1].columnType)
    ensures ConvertedAs(columns, pivotColumns, None, fields, required, typ, typ0)
  {
    assert columns[..|columns|] == columns;
    FirstUnknownAt(columns, |columns|);
  }

  /** The first unknown column is the one at `i` when every column before it
      converts and it does not (or `i` is the end). */
  lemma {:induction false} FirstUnknownAt(columns: seq<Column>, i: nat)
    requires i <= |columns| && AllConvert(columns[..i])
    requires i < |columns| ==> ConvertType(columns[i].columnType).Failure?
    ensures FirstUnknown(columns) == i
    decreases i
  {
    if i > 0 {
      assert columns[..i][0] == columns[0];
      var tail := columns[1..][..i - 1];
      assert AllConvert(tail) by {
        forall j | 0 <= j < |tail| ensures ConvertType(tail[j].columnType).Success? {
          assert tail[j] == columns[..i][j + 1];
        }
      }
      if i < |columns| {
        assert columns[1..][i - 1] == columns[i];
      }
      FirstUnknownAt(columns[1..], i - 1);
    }
  }

  /** `fromEloquentRelation`: no pivot without an accessor and a table name;
      a failure when no table has that name or a column's type does not
      convert; otherwise a pivot with one field per column and the required
      columns. The converter remembers the type of the last column it saw. */
  method FromEloquentRelation(relation: Relation, tables: seq<Table>, typeConverter: TypeConverter)
    returns (r: PivotOutcome)
    modifies typeConverter
    ensures relation.pivotAccessor.None? || relation.pivotTable.None? ==>
      r == NoPivot && typeConverter.typ == old(typeConverter.typ)
    ensures (relation.pivotAccessor.Some? && relation.pivotTable.Some?
             && FirstNamed(tables, relation.pivotTable.value).None?) ==>
      r == Failed(NotFoundMessage(relation, relation.pivotTable.value))
      && typeConverter.typ == old(typeConverter.typ)
    ensures (relation.pivotAccessor.Some? && relation.pivotTable.Some?
             && FirstNamed(tables, relation.pivotTable.value).Some?) ==>
      var tableName := relation.pivotTable.value;
      var columns := FirstNamed(tables, tableName).value.columns;
      var k := FirstUnknown(columns);
      (k < |columns| ==>
         r == Failed(ConvertType(columns[k].columnType).message)
         && typeConverter.typ == Some(columns[k].columnType))
      && (k == |columns| ==>
         r.Built? && fresh(r.pivot) && Filled(r.pivot, tableName, columns, relation.pivotColumns)
         && typeConverter.typ == if columns == [] then old(typeConverter.typ)
                                 else Some(columns[|columns| - 1].columnType))
  {
    if relation.pivotAccessor.None? || relation.pivotTable.None? {
      return NoPivot;
    }
    var tableName := relation.pivotTable.value;
    var pivot := new PivotExpression();
    pivot.tableName := tableName;
    pivot.interfaceName := TableNameToInterfaceName(tableName);
    var pivotTable := FindTableByName(tables, tableName);
    if pivotTable.None? {
      return Failed(NotFoundMessage(relation, tableName));
    }
    var failure := FillFields(pivot, pivotTable.value.columns, relation.pivotColumns, typeConverter);
    if failure.Some? {
      return Failed(failure.value);
    }
    return Built(pivot);
  }

  // ---------------------------------------------------------------------------
  // Properties

  /** A column is required exactly when it is not null and listed among the
      pivot columns. */
  lemma {:induction false} RequiredMembers(columns: seq<Column>, pivotColumns: seq<string>, name: string)
    ensures name in Required(columns, pivotColumns)
        <==> exists i :: 0 <= i < |columns| && columns[i].name == name
                         && name in pivotColumns && columns[i].notnull
    decreases |columns|
  {
    if columns != [] {
      var init := columns[..|columns| - 1];
      RequiredMembers(init, pivotColumns, name);
      assert forall i :: 0 <= i < |init| ==> init[i] == columns[i];
    }
  }

  /** With distinct column names every column gives one field, in column
      order, mapping its name to its converted type. */
  lemma {:induction false} FieldsPerColumn(columns: seq<Column>)
    requires AllConvert(columns)
    requires forall i, j :: 0 <= i < j < |columns| ==> columns[i].name != columns[j].name
    ensures FieldsOf(columns) == ColumnEntries(columns)
    decreases |columns|
  {
    if columns != [] {
      var n := |columns| - 1;
      var init := columns[..n];
      assert forall j :: 0 <= j < n ==> init[j] == columns[j];
      FieldsPerColumn(init);
      FieldsSnoc(columns);
      EntriesSnoc(columns);
    }
  }

  /** The entries one field per column would give, in column order. */
  function ColumnEntries(columns: seq<Column>): (es: seq<Entry<string>>)
    requires AllConvert(columns)
    ensures |es| == |columns|
    ensures forall i :: 0 <= i < |columns| ==>
      es[i] == Entry(columns[i].name, ConvertType(columns[i].columnType).value)
  {
    seq(|columns|, i requires 0 <= i < |columns| =>
      Entry(columns[i].name, ConvertType(columns[i].columnType).value))
  }

  lemma EntriesSnoc(columns: seq<Column>)
    requires columns != [] && AllConvert(columns) && AllConvert(columns[..|columns| - 1])
    ensures var c := columns[|columns| - 1];
      ColumnEntries(columns)
      == ColumnEntries(columns[..|columns| - 1]) + [Entry(c.name, ConvertType(c.columnType).value)]
  {
    var n := |columns| - 1;
    var a := ColumnEntries(columns);
    var b := ColumnEntries(columns[..n]);
    forall i | 0 <= i < n ensures a[i] == b[i] {
      assert columns[..n][i] == columns[i];
    }
  }

  /** A column whose name no earlier column has adds its field at the end. */
  lemma FieldsSnoc(columns: seq<Column>)
    requires columns != [] && AllConvert(columns)
    requires AllConvert(columns[..|columns| - 1])
    requires FieldsOf(columns[..|columns| - 1]) == ColumnEntries(columns[..|columns| - 1])
    requires forall j :: 0 <= j < |columns| - 1 ==> columns[j].name != columns[|columns| - 1].name
    ensures var c := columns[|columns| - 1];
      FieldsOf(columns) == FieldsOf(columns[..|columns| - 1]) + [Entry(c.name, ConvertType(c.columnType).value)]
  {
    var n := |columns| - 1;
    var c := columns[n];
    FreshName(columns, n, c.name);
    assert FieldsOf(columns) == Put(FieldsOf(columns[..n]), c.name, ConvertType(c.columnType).value);
  }

  /** A name no column before `n` has is not a key of their entries. */
  lemma FreshName(columns: seq<Column>, n: nat, name: string)
    requires n <= |columns| && AllConvert(columns[..n])
    requires forall j :: 0 <= j < n ==> columns[j].name != name
    ensures !HasKey(ColumnEntries(columns[..n]), name)
  {
    var es := ColumnEntries(columns[..n]);
    forall j | 0 <= j < n ensures Keys(es)[j] != name {
      assert es[j].key == columns[..n][j].name == columns[j].name;
    }
  }

  /** The interface name is the table name without underscores, capitalised
      part by part (compare lower-cased), followed by `Pivot`. */
  lemma InterfaceNameShape(tableName: string)
    ensures var n := InterfaceName(tableName);
      |n| >= 5 && n[|n| - 5..] == "Pivot"
      && '_' !in n[..|n| - 5]
      && ToLower(n[..|n| - 5]) == ToLower(Remove(tableName, '_'))
  {
    var parts := Split(tableName, '_');
    var n := InterfaceName(tableName);
    assert n[..|n| - 5] == PascalCase(parts);
    PascalCaseChars(parts);
    PascalCaseLower(parts);
    ConcatSplit(tableName, '_');
  }

  lemma {:induction false} PascalCaseChars(parts: seq<string>)
    requires forall i :: 0 <= i < |parts| ==> '_' !in parts[i]
    ensures '_' !in PascalCase(parts)
    decreases |parts|
  {
    if parts != [] {
      var ups := seq(|parts|, i requires 0 <= i < |parts| => UcFirst(parts[i]));
      assert ups[1..] == seq(|parts[1..]|, i requires 0 <= i < |parts[1..]| => UcFirst(parts[1..][i]));
      PascalCaseChars(parts[1..]);
      UcFirstChars(parts[0], '_');
    }
  }

  lemma {:induction false} PascalCaseLower(parts: seq<string>)
    ensures ToLower(PascalCase(parts)) == ToLower(Concat(parts))
    decreases |parts|
  {
    if parts != [] {
      var ups := seq(|parts|, i requires 0 <= i < |parts| => UcFirst(parts[i]));
      assert ups[1..] == seq(|parts[1..]|, i requires 0 <= i < |parts[1..]| => UcFirst(parts[1..][i]));
      PascalCaseLower(parts[1..]);
      ToLowerAppend(UcFirst(parts[0]), PascalCase(parts[1..]));
      ToLowerAppend(parts[0], Concat(parts[1..]));
      ToLowerUcFirst(parts[0]);
    }
  }

  /** The pivot table of the test models. */
  lemma TestClassTagExample(tableName: string, interfaceName: string)
    requires tableName == "test_class_tag" && interfaceName == "TestClassTagPivot"
    ensures InterfaceName(tableName) == interfaceName
  {
    var parts := ["test", "class", "tag"];
    ExampleParts(parts, tableName);
    ExampleCapitalized(parts);
    ExampleConcat(["Test", "Class", "Tag"], interfaceName);
  }

  lemma ExampleParts(parts: seq<string>, tableName: string)
    requires parts == ["test", "class", "tag"] && tableName == "test_class_tag"
    ensures Split(tableName, '_') == parts
  {
    assert Join(parts[2..], '_') == "tag";
    assert Join(parts[1..], '_') == "class" + "_" + "tag";
    assert Join(parts, '_') == tableName;
    SplitJoin(parts, '_');
  }

  lemma ExampleCapitalized(parts: seq<string>)
    requires parts == ["test", "class", "tag"]
    ensures Capitalized(parts) == ["Test", "Class", "Tag"]
  {
    assert UcFirst("test") == "Test" && UcFirst("class") == "Class" && UcFirst("tag") == "Tag";
  }

  lemma ExampleConcat(ups: seq<string>, interfaceName: string)
    requires ups == ["Test", "Class", "Tag"] && interfaceName == "TestClassTagPivot"
    ensures Concat(ups) + "Pivot" == interfaceName
  {
    assert ups[1..][1..][1..] == [];
    assert Concat(ups[2..]) == "Tag";
    assert Concat(ups[1..]) == "Class" + "Tag";
  }

  lemma NoBreakIn(a: string, b: string)
    requires forall k :: 0 <= k < |a| ==> a[k] != '\n'
    requires '\n' !in b
    ensures '\n' !in a + b && forall k :: 0 <= k < |a + b| ==> (a + b)[k] != '\n'
  {
    assert forall k :: 0 <= k < |b| ==> b[k] in b;
  }

  /** Cut at its line feeds the interface text gives back its lines: the
      comment, the header, one line per field and the closing brace. */
  lemma PivotTextLines(tableName: string, interfaceName: string, fields: seq<Entry<string>>, options: Options)
    requires '\n' !in tableName && '\n' !in interfaceName
    requires forall i :: 0 <= i < |fields| ==> '\n' !in fields[i].key && '\n' !in fields[i].value
    ensures Split(PivotText(tableName, interfaceName, fields, options), '\n')
      == PivotLines(tableName, interfaceName, fields, options) + [""]
  {
    var lines := PivotLines(tableName, interfaceName, fields, options);
    UnitHasNoBreak(options);
    var unit := IndentExpression(options);
    forall i | 0 <= i < |lines| ensures '\n' !in lines[i] {
      if i == 0 {
        NoBreakIn("// Auto-generated ", "pivot interface for table: ");
        NoBreakIn("// Auto-generated pivot interface for table: ", tableName);
      } else if i == 1 {
        NoBreakIn("export default interface ", interfaceName);
        NoBreakIn("export default interface " + interfaceName, " {");
      } else if i < |lines| - 1 {
        var f := fields[i - 2];
        assert lines[i] == unit + f.key + "?" + ": " + f.value + Semicolon(options);
        NoBreakIn(unit, f.key);
        NoBreakIn(unit + f.key, "?" + ": ");
        NoBreakIn(unit + f.key + "?" + ": ", f.value);
        NoBreakIn(unit + f.key + "?" + ": " + f.value, Semicolon(options));
      }
    }
    SplitTerminated(lines);
  }
}
