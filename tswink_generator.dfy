/** `TswinkGenerator`: the table-driven generator, which writes one TypeScript
    interface per database table, with one property per column. */
module TswinkGenerator {
  import opened Wrappers
  import opened Strings
  import StringUtils
  import opened Schema

  // ---------------------------------------------------------------------------
  // Property names

  /** `escapeName`: a column name holding `-` is not a TypeScript identifier
      and is wrapped in single quotes; any other name is kept as it is. */
  function EscapeName(name: string): (r: string)
    ensures '-' in name ==> |r| == |name| + 2 && r[0] == '\'' && r[|r| - 1] == '\'' && r[1..|r| - 1] == name
    ensures '-' !in name ==> r == name
  {
    if '-' in name then "'" + name + "'" else name
  }

  /** A key wrapped in single quotes. */
  predicate Quoted(key: string) {
    |key| >= 2 && key[0] == '\'' && key[|key| - 1] == '\''
  }

  /** The property name a TypeScript reader takes from a key: the text inside
      the quotes of a quoted key, the key itself otherwise. */
  function PropertyName(key: string): (r: string)
    ensures Quoted(key) ==> |r| == |key| - 2
    ensures !Quoted(key) ==> r == key
  {
    if Quoted(key) then key[1..|key| - 1] else key
  }

  /** Reading the escaped key back gives the column name, unless the name
      is itself wrapped in quotes and holds no `-` (then the quotes are taken
      for the key's own). */
  lemma EscapeRoundTrip(name: string)
    requires '-' in name || !Quoted(name)
    ensures PropertyName(EscapeName(name)) == name
  {
  }

  /** Two different column names never give the same key, and a key holds
      `-` exactly when the name does. */
  lemma EscapeNameInjective(a: string, b: string)
    ensures EscapeName(a) == EscapeName(b) ==> a == b
    ensures '-' in EscapeName(a) <==> '-' in a
  {
    var ea := EscapeName(a);
    var eb := EscapeName(b);
    if '-' in a {
      assert ea == "'" + a + "'";
      assert a == ea[1..|ea| - 1];
      assert '-' in ea by {
        var k :| 0 <= k < |a| && a[k] == '-';
        assert ea[k + 1] == a[k];
      }
    }
    if '-' in b {
      assert b == eb[1..|eb| - 1];
      assert '-' in eb by {
        var k :| 0 <= k < |b| && b[k] == '-';
        assert eb[k + 1] == b[k];
      }
    }
  }

  // ---------------------------------------------------------------------------
  // The interface text

  /** The line a column contributes, without its line feed: a tab, the
      escaped name, and the type the simplifier gives the column. */
  function PropertyLine(column: Column, simplify: Column -> string): string {
    "\t" + EscapeName(column.name) + ": " + simplify(column) + ";"
  }

  function PropertyLines(columns: seq<Column>, simplify: Column -> string): (r: seq<string>)
    ensures |r| == |columns|
  {
    seq(|columns|, i requires 0 <= i < |columns| => PropertyLine(columns[i], simplify))
  }

  function InterfaceHeader(className: string): string {
    "export default interface " + className + " {"
  }

  /** What `$tsClass` holds once the loop of `getClassContent` has seen
      `columns`. */
  function ContentUpTo(className: string, columns: seq<Column>, simplify: Column -> string): string
    decreases |columns|
  {
    if columns == [] then "export default interface " + className + " {" + "\n"
    else
      var column := columns[|columns| - 1];
      ContentUpTo(className, columns[..|columns| - 1], simplify)
        + "\t" + EscapeName(column.name) + ": " + simplify(column) + ";\n"
  }

  /** `getClassContent`: the interface header, one property per column, and
      the closing brace. */
  function ClassContent(className: string, columns: seq<Column>, simplify: Column -> string): string {
    ContentUpTo(className, columns, simplify) + "}\n"
  }

  lemma PropertyRegrouped(t: string, e: string, s: string)
    ensures t + "\t" + e + ": " + s + ";\n" == t + ("\t" + e + ": " + s + ";") + "\n"
  {
  }

  lemma BraceRegrouped(t: string)
    ensures t + "}\n" == t + "}" + "\n"
  {
  }

  /** The loop before its first round: the header line. */
  lemma ContentStart(className: string, columns: seq<Column>, simplify: Column -> string)
    ensures ContentUpTo(className, columns[..0], simplify) == "export default interface " + className + " {" + "\n"
  {
    assert columns[..0] == [];
  }

  /** One round of the loop appends the property of column `i`. */
  lemma ContentStep(className: string, columns: seq<Column>, i: nat, simplify: Column -> string)
    requires i < |columns|
    ensures ContentUpTo(className, columns[..i + 1], simplify)
      == ContentUpTo(className, columns[..i], simplify)
         + "\t" + EscapeName(columns[i].name) + ": " + simplify(columns[i]) + ";\n"
  {
    assert columns[..i + 1][..i] == columns[..i];
  }

  lemma PropertyLinesSnoc(columns: seq<Column>, simplify: Column -> string)
    requires |columns| > 0
    ensures PropertyLines(columns, simplify)
      == PropertyLines(columns[..|columns| - 1], simplify) + [PropertyLine(columns[|columns| - 1], simplify)]
  {
  }

  /** The text the loop accumulates is the header and the property lines,
      each followed by a line feed. */
  lemma {:induction false} ContentUpToLines(className: string, columns: seq<Column>, simplify: Column -> string)
    ensures ContentUpTo(className, columns, simplify)
      == Terminated([InterfaceHeader(className)] + PropertyLines(columns, simplify))
    decreases |columns|
  {
    var header := InterfaceHeader(className);
    if columns == [] {
      assert [header] + PropertyLines(columns, simplify) == [] + [header];
      TerminatedSnoc([], header);
    } else {
      var init := columns[..|columns| - 1];
      var column := columns[|columns| - 1];
      var prefix := [header] + PropertyLines(init, simplify);
      ContentUpToLines(className, init, simplify);
      PropertyLinesSnoc(columns, simplify);
      assert [header] + PropertyLines(columns, simplify) == prefix + [PropertyLine(column, simplify)];
      TerminatedSnoc(prefix, PropertyLine(column, simplify));
      PropertyRegrouped(ContentUpTo(className, init, simplify), EscapeName(column.name), simplify(column));
    }
  }

  /** With single-line names, class name and simplified types, the interface
      is its header, one tab-indented property per column in column order,
      the closing brace, and nothing after the final line feed. */
  lemma ClassContentLines(className: string, columns: seq<Column>, simplify: Column -> string)
    requires NoBreaks(className)
    requires forall i :: 0 <= i < |columns| ==> NoBreaks(columns[i].name) && NoBreaks(simplify(columns[i]))
    ensures StringUtils.Lines(ClassContent(className, columns, simplify))
      == [InterfaceHeader(className)] + PropertyLines(columns, simplify) + ["}", ""]
  {
    var lines := [InterfaceHeader(className)] + PropertyLines(columns, simplify) + ["}"];
    ContentUpToLines(className, columns, simplify);
    BraceRegrouped(ContentUpTo(className, columns, simplify));
    assert lines[..|lines| - 1] == [InterfaceHeader(className)] + PropertyLines(columns, simplify);
    assert Terminated(lines) == ClassContent(className, columns, simplify);
    LinesSingle(className, columns, simplify);
    TerminatedChars(lines, '\r');
    StringUtils.ReplaceAbsent(Terminated(lines), '\r', '\n');
    SplitTerminated(lines);
    assert lines + [""] == [InterfaceHeader(className)] + PropertyLines(columns, simplify) + ["}", ""];
  }

  lemma HeaderSingle(className: string)
    requires NoBreaks(className)
    ensures NoBreaks(InterfaceHeader(className))
  {
    NoBreaksAppend("export default interface ", className);
    NoBreaksAppend("export default interface " + className, " {");
  }

  lemma PropertySingle(column: Column, simplify: Column -> string)
    requires NoBreaks(column.name) && NoBreaks(simplify(column))
    ensures NoBreaks(PropertyLine(column, simplify))
  {
    var e := EscapeName(column.name);
    if '-' in column.name {
      NoBreaksAppend("'", column.name);
      NoBreaksAppend("'" + column.name, "'");
    }
    NoBreaksAppend("\t", e);
    NoBreaksAppend("\t" + e, ": ");
    NoBreaksAppend("\t" + e + ": ", simplify(column));
    NoBreaksAppend("\t" + e + ": " + simplify(column), ";");
  }

  lemma LinesSingle(className: string, columns: seq<Column>, simplify: Column -> string)
    requires NoBreaks(className)
    requires forall i :: 0 <= i < |columns| ==> NoBreaks(columns[i].name) && NoBreaks(simplify(columns[i]))
    ensures var lines := [InterfaceHeader(className)] + PropertyLines(columns, simplify) + ["}"];
      forall i :: 0 <= i < |lines| ==> NoBreaks(lines[i])
  {
    var ps := PropertyLines(columns, simplify);
    var lines := [InterfaceHeader(className)] + ps + ["}"];
    HeaderSingle(className);
    forall i | 0 <= i < |lines| ensures NoBreaks(lines[i]) {
      if i == 0 {
        assert lines[i] == InterfaceHeader(className);
      } else if i <= |ps| {
        assert lines[i] == ps[i - 1] == PropertyLine(columns[i - 1], simplify);
        PropertySingle(columns[i - 1], simplify);
      } else {
        assert lines[i] == "}";
      }
    }
  }

  // ---------------------------------------------------------------------------
  // The generator

  /** A file the generator writes: its path and its content. */
  datatype OutputFile = OutputFile(path: string, content: string)

  class Generator {
    /** The tables of the schema, in the order the schema lists them. */
    const tables: seq<Table>
    /** `str_singular(camel_case(·))` and `str_singular(kebab_case(camel_case(·)))`. */
    const singularCamel: string -> string
    const fileStem: string -> string
    /** `TypeSimplifier::simplify`. */
    const simplify: Column -> string
    var destination: string
    /** The table being processed; `None` before the first one. */
    var table: Option<Table>
    /** Every file written so far, in order. */
    var written: seq<OutputFile>

    constructor(tables: seq<Table>, singularCamel: string -> string, fileStem: string -> string,
                simplify: Column -> string, destination: string)
      ensures this.tables == tables && this.singularCamel == singularCamel
      ensures this.fileStem == fileStem && this.simplify == simplify
      ensures this.destination == destination && table == None && written == []
    {
      this.tables := tables;
      this.singularCamel := singularCamel;
      this.fileStem := fileStem;
      this.simplify := simplify;
      this.destination := destination;
      table := None;
      written := [];
    }

    /** `getTableNameForClassFile`. */
    function ClassName(tableName: string): string {
      UcFirst(singularCamel(tableName))
    }

    /** The file `processTable` writes for table `t`. */
    function FileFor(destination: string, t: Table): OutputFile {
      OutputFile(destination + "/" + fileStem(t.name) + ".ts", ClassContent(ClassName(t.name), t.columns, simplify))
    }

    /** The files written for `ts`, in order. */
    function FilesFor(destination: string, ts: seq<Table>): (fs: seq<OutputFile>)
      ensures |fs| == |ts|
    {
      seq(|ts|, i requires 0 <= i < |ts| => FileFor(destination, ts[i]))
    }

    lemma FilesStep(destination: string, ts: seq<Table>, i: nat)
      requires i < |ts|
      ensures FilesFor(destination, ts[..i + 1]) == FilesFor(destination, ts[..i]) + [FileFor(destination, ts[i])]
    {
    }

    /** `getClassContent` on the current table. */
    method GetClassContent() returns (tsClass: string)
      requires table.Some?
      ensures tsClass == ClassContent(ClassName(table.value.name), table.value.columns, simplify)
    {
      var className := UcFirst(singularCamel(table.value.name));
      var columns := table.value.columns;
      tsClass := "export default interface " + className + " {" + "\n";
      ContentStart(className, columns, simplify);
      var i := 0;
      while i < |columns|
        invariant 0 <= i <= |columns|
        invariant tsClass == ContentUpTo(className, columns[..i], simplify)
      {
        var column := columns[i];
        var name := EscapeName(column.name);
        ContentStep(className, columns, i, simplify);
        tsClass := tsClass + "\t" + name + ": " + simplify(column) + ";\n";
        i := i + 1;
      }
      assert columns[..i] == columns;
      tsClass := tsClass + "}\n";
    }

    /** `generate`: every table in turn becomes the current one and its
        interface is written. */
    method Generate()
      modifies this
      ensures written == old(written) + FilesFor(destination, tables)
      ensures tables != [] ==> table == Some(tables[|tables| - 1])
      ensures tables == [] ==> table == old(table)
      ensures destination == old(destination)
    {
      var i := 0;
      while i < |tables|
        invariant 0 <= i <= |tables|
        invariant destination == old(destination)
        invariant written == old(written) + FilesFor(destination, tables[..i])
        invariant i > 0 ==> table == Some(tables[i - 1])
        invariant i == 0 ==> table == old(table)
      {
        table := Some(tables[i]);
        var tsClass := GetClassContent();
        written := written + [OutputFile(destination + "/" + fileStem(tables[i].name) + ".ts", tsClass)];
        FilesStep(destination, tables, i);
        i := i + 1;
      }
    }
  }
}
