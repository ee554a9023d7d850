/** `ClassExpression`: a PHP model class read from its source text, and the
    TypeScript class (or enum) rendered from it. */
module ClassExpression {
  import opened Wrappers
  import opened Strings
  import StringUtils
  import opened ExpressionStringGenerationOptions
  import opened Expression
  import opened OrderedMap
  import TypeExpression
  import ImportExpression
  import CM = ClassMemberExpression
  import opened EloquentRelation

  // ---------------------------------------------------------------------------
  // usort by strcmp on the member names

  predicate SortedByName(ms: seq<CM.Member>) {
    forall i, j :: 0 <= i < j < |ms| ==> StrLeq(ms[i].name, ms[j].name)
  }

  /** Inserting one member before the first name it does not follow. */
  function InsertByName(m: CM.Member, ms: seq<CM.Member>): (r: seq<CM.Member>)
    ensures multiset(r) == multiset(ms) + multiset{m}
  {
    if ms == [] then [m]
    else if StrLeq(m.name, ms[0].name) then [m] + ms
    else
      assert ms == [ms[0]] + ms[1..];
      [ms[0]] + InsertByName(m, ms[1..])
  }

  /** The order `usort` leaves the members in, computed by insertion. */
  function SortByName(ms: seq<CM.Member>): (r: seq<CM.Member>)
    ensures multiset(r) == multiset(ms)
    ensures |r| == |ms|
  {
    if ms == [] then []
    else
      assert ms == [ms[0]] + ms[1..];
      InsertByName(ms[0], SortByName(ms[1..]))
  }

  lemma StrLessAsymmetric(a: string, b: string)
    requires StrLess(a, b)
    ensures !StrLess(b, a)
  {
    if StrLess(b, a) {
      StrLessTransitive(a, b, a);
      StrLessIrreflexive(a);
    }
  }

  lemma {:induction false} InsertSorted(m: CM.Member, ms: seq<CM.Member>)
    requires SortedByName(ms)
    ensures SortedByName(InsertByName(m, ms))
  {
    if ms != [] && !StrLeq(m.name, ms[0].name) {
      StrLessAsymmetric(ms[0].name, m.name);
      SortedTailBound(ms);
      InsertSorted(m, ms[1..]);
      InsertBound(ms[0].name, m, ms[1..]);
      SortedCons(ms[0], InsertByName(m, ms[1..]));
    } else if ms != [] {
      forall k | 0 <= k < |ms| ensures StrLeq(m.name, ms[k].name) {
        if k > 0 {
          StrLeqTransitive(m.name, ms[0].name, ms[k].name);
        }
      }
      SortedCons(m, ms);
    }
  }

  /** Every member's name is at least `a`. */
  predicate LowerBound(a: string, ms: seq<CM.Member>) {
    forall k :: 0 <= k < |ms| ==> StrLeq(a, ms[k].name)
  }

  lemma {:induction false} InsertBound(a: string, m: CM.Member, ms: seq<CM.Member>)
    requires LowerBound(a, ms) && StrLeq(a, m.name)
    ensures LowerBound(a, InsertByName(m, ms))
    decreases |ms|
  {
    if ms != [] && !StrLeq(m.name, ms[0].name) {
      assert LowerBound(a, ms[1..]) by {
        forall k | 0 <= k < |ms[1..]| ensures StrLeq(a, ms[1..][k].name) {
          assert ms[1..][k] == ms[k + 1];
        }
      }
      InsertBound(a, m, ms[1..]);
      var r := [ms[0]] + InsertByName(m, ms[1..]);
      forall k | 0 <= k < |r| ensures StrLeq(a, r[k].name) {
        if k > 0 {
          assert r[k] == InsertByName(m, ms[1..])[k - 1];
        }
      }
    } else if ms != [] {
      var r := [m] + ms;
      forall k | 0 <= k < |r| ensures StrLeq(a, r[k].name) {
        if k > 0 {
          assert r[k] == ms[k - 1];
        }
      }
    }
  }

  lemma SortedTailBound(ms: seq<CM.Member>)
    requires ms != [] && SortedByName(ms)
    ensures SortedByName(ms[1..]) && LowerBound(ms[0].name, ms[1..])
  {
    forall i, j | 0 <= i < j < |ms[1..]| ensures StrLeq(ms[1..][i].name, ms[1..][j].name) {
      assert ms[1..][i] == ms[i + 1] && ms[1..][j] == ms[j + 1];
    }
    forall k | 0 <= k < |ms[1..]| ensures StrLeq(ms[0].name, ms[1..][k].name) {
      assert ms[1..][k] == ms[k + 1];
    }
  }

  lemma SortedCons(x: CM.Member, ms: seq<CM.Member>)
    requires SortedByName(ms) && LowerBound(x.name, ms)
    ensures SortedByName([x] + ms)
  {
    var r := [x] + ms;
    forall i, j | 0 <= i < j < |r| ensures StrLeq(r[i].name, r[j].name) {
      assert r[j] == ms[j - 1];
      if i > 0 {
        assert r[i] == ms[i - 1];
      }
    }
  }

  /** `usort` leaves the names in `strcmp` order, and keeps every member. */
  lemma {:induction false} SortSorted(ms: seq<CM.Member>)
    ensures SortedByName(SortByName(ms))
    ensures multiset(SortByName(ms)) == multiset(ms)
  {
    if ms != [] {
      SortSorted(ms[1..]);
      InsertSorted(ms[0], SortByName(ms[1..]));
    }
  }

  predicate DistinctNames(ms: seq<CM.Member>) {
    forall i, j :: 0 <= i < j < |ms| ==> ms[i].name != ms[j].name
  }

  /** The first of sorted members has the least name. */
  lemma HeadLeast(a: seq<CM.Member>, x: CM.Member)
    requires SortedByName(a) && x in multiset(a)
    ensures StrLeq(a[0].name, x.name)
  {
    var l :| 0 <= l < |a| && a[l] == x;
    if l == 0 {
      StrLessIrreflexive(x.name);
    }
  }

  lemma SortedTail(a: seq<CM.Member>)
    requires a != [] && SortedByName(a) && DistinctNames(a)
    ensures SortedByName(a[1..]) && DistinctNames(a[1..])
  {
    forall i, j | 0 <= i < j < |a[1..]|
      ensures StrLeq(a[1..][i].name, a[1..][j].name) && a[1..][i].name != a[1..][j].name
    {
      assert a[1..][i] == a[i + 1] && a[1..][j] == a[j + 1];
    }
  }

  lemma MultisetTail(a: seq<CM.Member>, b: seq<CM.Member>)
    requires a != [] && b != [] && a[0] == b[0] && multiset(a) == multiset(b)
    ensures multiset(a[1..]) == multiset(b[1..])
  {
    assert a == [a[0]] + a[1..] && b == [b[0]] + b[1..];
    assert multiset(a[1..]) == multiset(a) - multiset{a[0]};
    assert multiset(b[1..]) == multiset(b) - multiset{b[0]};
  }

  /** With distinct names there is only one sorted arrangement, so the result
      does not depend on how `usort` sorts. */
  lemma {:induction false} SortedUnique(a: seq<CM.Member>, b: seq<CM.Member>)
    requires SortedByName(a) && SortedByName(b) && DistinctNames(a)
    requires multiset(a) == multiset(b)
    ensures a == b
    decreases |a|
  {
    assert |a| == |multiset(a)| == |multiset(b)| == |b|;
    if a != [] {
      assert a[0] in multiset(b) && b[0] in multiset(a);
      HeadLeast(a, b[0]);
      HeadLeast(b, a[0]);
      StrLessTotal(a[0].name, b[0].name);
      var l :| 0 <= l < |a| && a[l] == b[0];
      assert l == 0;
      MultisetTail(a, b);
      SortedTail(a);
      assert SortedByName(b[1..]) by {
        forall i, j | 0 <= i < j < |b[1..]| ensures StrLeq(b[1..][i].name, b[1..][j].name) {
          assert b[1..][i] == b[i + 1] && b[1..][j] == b[j + 1];
        }
      }
      SortedUnique(a[1..], b[1..]);
      assert a == [a[0]] + a[1..] && b == [b[0]] + b[1..];
    }
  }

  /** ASCII upper-case letters sort before lower-case ones. */
  lemma UpperBeforeLower(a: string, b: string)
    requires a != [] && b != [] && IsAsciiUpper(a[0]) && IsAsciiLower(b[0])
    ensures StrLess(a, b)
  {
  }

  /** So in the sorted members every name starting with an upper-case letter
      comes before every name starting with a lower-case one. */
  lemma UpperCaseFirst(ms: seq<CM.Member>, i: int, j: int)
    requires 0 <= i < |ms| && 0 <= j < |ms|
    requires SortByName(ms)[i].name != [] && SortByName(ms)[j].name != []
    requires IsAsciiUpper(SortByName(ms)[i].name[0]) && IsAsciiLower(SortByName(ms)[j].name[0])
    ensures i < j
  {
    var s := SortByName(ms);
    var a := s[i].name;
    var b := s[j].name;
    SortSorted(ms);
    UpperBeforeLower(a, b);
    if i == j {
      StrLessIrreflexive(a);
    }
  }

  // ---------------------------------------------------------------------------
  // Constructor synthesis

  /** The guard every constructor line opens with. */
  function Guard(name: string): string {
    "init." + name + " = init?." + name + " ? "
  }

  function DeserializeLine(name: string, typeName: string): string {
    Guard(name) + "Object.deserialize<" + typeName + ">(init." + name + ", " + typeName + ") : undefined;"
  }

  function NewLine(name: string, typeName: string): string {
    Guard(name) + "new " + typeName + "(init." + name + ") : undefined;"
  }

  /** The constructor line for one member: a collection is deserialized, any
      other non-primitive type (`Date` among them) is constructed with `new`;
      untyped and excluded members, and primitive non-collections, get none. */
  function CtorLine(m: CM.Member): (r: Option<string>)
    ensures r.None? <==> m.typ.None? || m.noConvert
                         || (!m.typ.value.isCollection && TypeExpression.IsPrimitive(m.typ.value))
    ensures r.Some? ==> |Guard(m.name)| <= |r.value| && r.value[..|Guard(m.name)|] == Guard(m.name)
  {
    if m.typ.None? || m.noConvert then None
    else if m.typ.value.isCollection then Some(DeserializeLine(m.name, m.typ.value.name))
    else if !TypeExpression.IsPrimitive(m.typ.value) then Some(NewLine(m.name, m.typ.value.name))
    else None
  }

  /** The same decision as the source writes it: the collection test reads a
      property the type object does not have, which is always `null`, so the
      collection branch is never taken. */
  function CtorLineAsWritten(m: CM.Member): (r: Option<string>)
    ensures r.None? <==> m.typ.None? || m.noConvert || TypeExpression.IsPrimitive(m.typ.value)
  {
    if m.typ.None? || m.noConvert then None
    else if !TypeExpression.IsPrimitive(m.typ.value) then Some(NewLine(m.name, m.typ.value.name))
    else None
  }

  /** The two line shapes are told apart right after the guard. */
  lemma ShapesDiffer(name: string, t: string, t': string)
    ensures NewLine(name, t) != DeserializeLine(name, t')
  {
    var g := Guard(name);
    assert NewLine(name, t)[|g|] == 'n';
    assert DeserializeLine(name, t')[|g|] == 'O';
  }

  /** As written, a collection of a class becomes `new T(...)` instead of a
      deserialized list, and a collection of a primitive gets no line. */
  lemma CollectionLineAsWritten(m: CM.Member)
    requires m.typ.Some? && m.typ.value.isCollection && !m.noConvert
    ensures CtorLine(m) == Some(DeserializeLine(m.name, m.typ.value.name))
    ensures CtorLineAsWritten(m) != CtorLine(m)
    ensures !TypeExpression.IsPrimitive(m.typ.value)
      ==> CtorLineAsWritten(m) == Some(NewLine(m.name, m.typ.value.name))
  {
    ShapesDiffer(m.name, m.typ.value.name, m.typ.value.name);
  }

  /** Both agree on every member that is not a collection. */
  lemma NonCollectionLine(m: CM.Member)
    requires m.typ.None? || !m.typ.value.isCollection
    ensures CtorLineAsWritten(m) == CtorLine(m)
  {
  }

  /** The constructor lines of `ms`, in order. */
  function CtorLines(ms: seq<CM.Member>): seq<string>
    decreases |ms|
  {
    if ms == [] then []
    else
      var prev := CtorLines(ms[..|ms| - 1]);
      match CtorLine(ms[|ms| - 1])
      case Some(l) => prev + [l]
      case None => prev
  }

  /** Every constructor line belongs to a member of `ms`, and every member
      that has one contributes it. */
  lemma CtorLinesMembers(ms: seq<CM.Member>, l: string)
    ensures l in CtorLines(ms) <==> exists i :: 0 <= i < |ms| && CtorLine(ms[i]) == Some(l)
  {
    if l in CtorLines(ms) {
      var i := CtorLineOrigin(ms, l);
    }
    if exists i :: 0 <= i < |ms| && CtorLine(ms[i]) == Some(l) {
      var i :| 0 <= i < |ms| && CtorLine(ms[i]) == Some(l);
      CtorLineKept(ms, i);
    }
  }

  /** Every constructor line comes from a member. */
  lemma {:induction false} CtorLineOrigin(ms: seq<CM.Member>, l: string) returns (i: nat)
    requires l in CtorLines(ms)
    ensures i < |ms| && CtorLine(ms[i]) == Some(l)
    decreases |ms|
  {
    var init := ms[..|ms| - 1];
    var extra := CtorLinesLast(ms);
    if l in CtorLines(init) {
      i := CtorLineOrigin(init, l);
      assert ms[i] == init[i];
    } else {
      assert l in extra;
      i := |ms| - 1;
    }
  }

  /** Every member that has a constructor line contributes it. */
  lemma {:induction false} CtorLineKept(ms: seq<CM.Member>, i: nat)
    requires i < |ms| && CtorLine(ms[i]).Some?
    ensures CtorLine(ms[i]).value in CtorLines(ms)
    decreases |ms|
  {
    var init := ms[..|ms| - 1];
    var extra := CtorLinesLast(ms);
    if i < |init| {
      CtorLineKept(init, i);
      assert init[i] == ms[i];
    } else {
      assert CtorLine(ms[i]).value in extra;
    }
  }

  /** The last member adds its line, if it has one, after the others'. */
  lemma CtorLinesLast(ms: seq<CM.Member>) returns (extra: seq<string>)
    requires ms != []
    ensures CtorLines(ms) == CtorLines(ms[..|ms| - 1]) + extra
    ensures forall l :: l in extra <==> CtorLine(ms[|ms| - 1]) == Some(l)
  {
    match CtorLine(ms[|ms| - 1])
    case Some(l) => extra := [l];
    case None => extra := [];
  }

  const ObjectAssign := "Object.assign(this, init);"

  /** The full constructor body, before trimming. */
  function ConstructorContent(ms: seq<CM.Member>): string {
    ObjectAssign + "\n" + Terminated(CtorLines(ms))
  }

  // ---------------------------------------------------------------------------
  // Member lines

  /** The members that go into the class: all but the excluded ones. */
  function Kept(ms: seq<CM.Member>): (r: seq<CM.Member>)
    ensures |r| <= |ms|
    decreases |ms|
  {
    if ms == [] then []
    else if ms[|ms| - 1].noConvert then Kept(ms[..|ms| - 1])
    else Kept(ms[..|ms| - 1]) + [ms[|ms| - 1]]
  }

  /** A member is kept exactly when it is not excluded. */
  lemma {:induction false} KeptMembers(ms: seq<CM.Member>, m: CM.Member)
    ensures m in Kept(ms) <==> m in ms && !m.noConvert
    decreases |ms|
  {
    if ms != [] {
      var init := ms[..|ms| - 1];
      KeptMembers(init, m);
      assert ms == init + [ms[|ms| - 1]];
    }
  }

  /** Keeping preserves the order. */
  lemma {:induction false} KeptSorted(ms: seq<CM.Member>)
    requires SortedByName(ms)
    ensures SortedByName(Kept(ms))
    decreases |ms|
  {
    if ms != [] {
      var init := ms[..|ms| - 1];
      var last := ms[|ms| - 1];
      assert SortedByName(init);
      KeptSorted(init);
      if !last.noConvert {
        var k := Kept(init);
        var r := k + [last];
        forall i | 0 <= i < |k| ensures StrLeq(k[i].name, last.name) {
          KeptMembers(init, k[i]);
          var j :| 0 <= j < |init| && init[j] == k[i];
        }
        assert forall i, j :: 0 <= i < j < |r| - 1 ==> r[i] == k[i] && r[j] == k[j];
      }
    }
  }

  /** The member lines of the class, each closed by `;`. */
  function MemberLines(ms: seq<CM.Member>, options: Options): (r: seq<string>)
    decreases |ms|
  {
    if ms == [] then []
    else
      var prev := MemberLines(ms[..|ms| - 1], options);
      if ms[|ms| - 1].noConvert then prev
      else prev + [CM.ToTypeScript(ms[|ms| - 1], options) + ";"]
  }

  /** The member lines are the kept members rendered, one each, in order. */
  lemma {:induction false} MemberLinesKept(ms: seq<CM.Member>, options: Options)
    ensures var k := Kept(ms);
      MemberLines(ms, options)
        == seq(|k|, i requires 0 <= i < |k| => CM.ToTypeScript(k[i], options) + ";")
    decreases |ms|
  {
    if ms != [] {
      MemberLinesKept(ms[..|ms| - 1], options);
    }
  }

  // ---------------------------------------------------------------------------
  // Reading a class from its source text

  /** What the patterns of `tryParse` extract from one line of the source
      (one token of `strtok` on line breaks): the namespace, the class and
      base class names, and the three matches `ClassMemberExpression::tryParse`
      reads. */
  datatype LineMatch = LineMatch(
    namespaceMatch: Option<string>,
    classMatch: Option<(string, string)>,
    constMatch: Option<(string, string)>,
    assignMatch: Option<(string, string)>,
    accessorMatch: Option<string>)

  function LineMember(line: LineMatch, camelCase: string -> string): Option<CM.Member> {
    CM.TryParse(line.constMatch, line.assignMatch, line.accessorMatch, camelCase)
  }

  /** The namespace the last line naming one gives; "" (PHP `null`) when no
      line names one. */
  function ParsedNamespace(lines: seq<LineMatch>): string
    decreases |lines|
  {
    if lines == [] then ""
    else if lines[|lines| - 1].namespaceMatch.Some? then lines[|lines| - 1].namespaceMatch.value
    else ParsedNamespace(lines[..|lines| - 1])
  }

  /** The class and base class names of the last line declaring a class. */
  function ParsedDeclaration(lines: seq<LineMatch>): Option<(string, string)>
    decreases |lines|
  {
    if lines == [] then None
    else if lines[|lines| - 1].classMatch.Some? then lines[|lines| - 1].classMatch
    else ParsedDeclaration(lines[..|lines| - 1])
  }

  function ParsedName(lines: seq<LineMatch>): string {
    if ParsedDeclaration(lines).Some? then ParsedDeclaration(lines).value.0 else ""
  }

  function ParsedBaseClassName(lines: seq<LineMatch>): string {
    if ParsedDeclaration(lines).Some? then ParsedDeclaration(lines).value.1 else ""
  }

  /** The members the lines declare, in line order. */
  function ParsedMemberList(lines: seq<LineMatch>, camelCase: string -> string): seq<CM.Member>
    decreases |lines|
  {
    if lines == [] then []
    else
      var prev := ParsedMemberList(lines[..|lines| - 1], camelCase);
      match LineMember(lines[|lines| - 1], camelCase)
      case Some(m) => prev + [m]
      case None => prev
  }

  function MemberName(m: CM.Member): string { m.name }

  /** `$class->members[$classMember->name] = $classMember` over the lines. */
  function ParsedMembers(lines: seq<LineMatch>, camelCase: string -> string): seq<Entry<CM.Member>> {
    PutAll(ParsedMemberList(lines, camelCase), MemberName)
  }

  /** One more line: its namespace, class declaration and member, when it
      has them, replace or join what the earlier lines gave. */
  lemma ParseStep(lines: seq<LineMatch>, i: nat, camelCase: string -> string)
    requires i < |lines|
    ensures var pre := lines[..i];
      var line := lines[i];
      var now := lines[..i + 1];
      && ParsedNamespace(now) == (if line.namespaceMatch.Some? then line.namespaceMatch.value else ParsedNamespace(pre))
      && ParsedName(now) == (if line.classMatch.Some? then line.classMatch.value.0 else ParsedName(pre))
      && ParsedBaseClassName(now) == (if line.classMatch.Some? then line.classMatch.value.1 else ParsedBaseClassName(pre))
      && ParsedMembers(now, camelCase)
         == (match LineMember(line, camelCase)
             case Some(m) => Put(ParsedMembers(pre, camelCase), m.name, m)
             case None => ParsedMembers(pre, camelCase))
  {
    var pre := lines[..i];
    var now := lines[..i + 1];
    assert now[..i] == pre;
    var prev := ParsedMemberList(pre, camelCase);
    match LineMember(lines[i], camelCase)
    case Some(m) =>
      assert ParsedMemberList(now, camelCase) == prev + [m];
      assert (prev + [m])[..|prev|] == prev;
    case None =>
  }

  function RelationName(r: Relation): string { r.name }

  /** `parseEloquentRelations` over what `getModelRelations` returns (`None`
      when the model has no such method): every relation parsed and keyed by
      its name. */
  function ParsedRelations(modelRelations: Option<seq<RawRelation>>): seq<Entry<Relation>> {
    if modelRelations.None? then []
    else PutAll(RelationList(modelRelations.value), RelationName)
  }

  function RelationList(raws: seq<RawRelation>): (r: seq<Relation>)
    ensures |r| == |raws|
  {
    seq(|raws|, i requires 0 <= i < |raws| => Parse(raws[i]))
  }

  // ---------------------------------------------------------------------------
  // The rendered texts

  /** A null initial value concatenates as "". */
  function InitialText(m: CM.Member): string {
    if m.initialValue.Some? then m.initialValue.value else ""
  }

  function EnumLine(m: CM.Member): string {
    m.name + " = " + InitialText(m) + ","
  }

  function EnumLines(ms: seq<CM.Member>): (r: seq<string>)
    ensures |r| == |ms|
  {
    seq(|ms|, i requires 0 <= i < |ms| => EnumLine(ms[i]))
  }

  /** `toTypeScriptEnum`: the members in map order, one per line. */
  function EnumText(name: string, ms: seq<CM.Member>, options: Options): string {
    "export enum " + name + " {" + "\n" + Indent(Trim(Terminated(EnumLines(ms)), '\n'), 1, options) + "\n" + "}"
  }

  function ImportLines(imports: seq<ImportExpression.ImportExpr>, options: Options): (r: seq<string>)
    ensures |r| == |imports|
  {
    seq(|imports|, i requires 0 <= i < |imports| => ImportExpression.ToTypeScript(imports[i], options))
  }

  const ImportsStart := "// <non-auto-generated-import-declarations>"
  const ImportsEnd := "// </non-auto-generated-import-declarations>"
  const DeclarationsStart := "// <non-auto-generated-class-declarations>"
  const DeclarationsEnd := "// </non-auto-generated-class-declarations>"

  /** The class body before it is indented: member lines, a blank line, the
      constructor, and the preserved declarations between their sentinels. */
  function ClassBody(name: string, ms: seq<CM.Member>, declarations: string, options: Options): string {
    Terminated(MemberLines(ms, options)) + "\n" + "constructor(init?: Partial<" + name + ">) {\n"
      + Indent(Trim(ConstructorContent(ms), '\n'), 1, options) + "\n" + "}\n\n"
      + DeclarationsStart + "\n" + Indent(declarations, -1, options) + "\n"
      + DeclarationsEnd
  }

  /** `toTypeScriptClass` over the members in the order `usort` leaves them. */
  function ClassText(imports: seq<ImportExpression.ImportExpr>, importText: string, name: string,
                     ms: seq<CM.Member>, declarations: string, options: Options): string
  {
    Terminated(ImportLines(imports, options)) + ImportsStart + "\n" + importText + "\n"
      + ImportsEnd + "\n\n" + "export default class " + name + " {\n\n"
      + Indent(ClassBody(name, ms, declarations, options), 1, options) + "\n" + "}"
  }

  // ---------------------------------------------------------------------------
  // The class

  class ClassExpression {
    var namespace: string
    var imports: seq<ImportExpression.ImportExpr>
    var nonAutoGeneratedImports: string
    var baseClassName: string
    var name: string
    var members: seq<Entry<CM.Member>>
    var nonAutoGeneratedClassDeclarations: string
    var eloquentRelations: seq<Entry<Relation>>

    /** Every property `null` (here "") or an empty array. */
    constructor()
      ensures namespace == "" && imports == [] && nonAutoGeneratedImports == ""
      ensures baseClassName == "" && name == "" && members == []
      ensures nonAutoGeneratedClassDeclarations == "" && eloquentRelations == []
    {
      namespace := "";
      imports := [];
      nonAutoGeneratedImports := "";
      baseClassName := "";
      name := "";
      members := [];
      nonAutoGeneratedClassDeclarations := "";
      eloquentRelations := [];
    }

    /** `tryParse`: `null` (PHP `false`) when no line declares a class;
        otherwise the last namespace and class declaration win, members are
        keyed by name, and the model's relations are attached. */
    static method TryParse(lines: seq<LineMatch>, camelCase: string -> string,
                           modelRelations: Option<seq<RawRelation>>)
      returns (result: ClassExpression?)
      ensures result == null <==> ParsedName(lines) == ""
      ensures result != null ==> fresh(result)
      ensures result != null ==> result.namespace == ParsedNamespace(lines)
      ensures result != null ==> result.name == ParsedName(lines)
      ensures result != null ==> result.baseClassName == ParsedBaseClassName(lines)
      ensures result != null ==> result.members == ParsedMembers(lines, camelCase)
      ensures result != null ==> result.eloquentRelations == ParsedRelations(modelRelations)
      ensures result != null ==> result.imports == [] && result.nonAutoGeneratedImports == ""
      ensures result != null ==> result.nonAutoGeneratedClassDeclarations == ""
    {
      var namespace, name, baseClassName, members := ScanLines(lines, camelCase);
      var c := new ClassExpression();
      c.namespace, c.name, c.baseClassName, c.members := namespace, name, baseClassName, members;
      if c.name == "" {
        return null;
      }
      c.eloquentRelations := ParseEloquentRelations(modelRelations);
      return c;
    }

    /** The loop of `tryParse` over the file's lines: each namespace or class
        declaration replaces the earlier one, and each member is put under
        its name. */
    static method ScanLines(lines: seq<LineMatch>, camelCase: string -> string)
      returns (namespace: string, name: string, baseClassName: string, members: seq<Entry<CM.Member>>)
      ensures namespace == ParsedNamespace(lines) && name == ParsedName(lines)
      ensures baseClassName == ParsedBaseClassName(lines)
      ensures members == ParsedMembers(lines, camelCase)
    {
      namespace, name, baseClassName, members := "", "", "", [];
      assert lines[..0] == [];
      var i := 0;
      while i < |lines|
        invariant 0 <= i <= |lines|
        invariant namespace == ParsedNamespace(lines[..i])
        invariant name == ParsedName(lines[..i])
        invariant baseClassName == ParsedBaseClassName(lines[..i])
        invariant members == ParsedMembers(lines[..i], camelCase)
      {
        var line := lines[i];
        ParseStep(lines, i, camelCase);
        if line.namespaceMatch.Some? {
          namespace := line.namespaceMatch.value;
        }
        if line.classMatch.Some? {
          name := line.classMatch.value.0;
          baseClassName := line.classMatch.value.1;
        }
        var member := LineMember(line, camelCase);
        if member.Some? {
          members := Put(members, member.value.name, member.value);
        }
        i := i + 1;
      }
      assert lines[..i] == lines;
    }

    /** `parseEloquentRelations`. */
    static method ParseEloquentRelations(modelRelations: Option<seq<RawRelation>>)
      returns (relations: seq<Entry<Relation>>)
      ensures relations == ParsedRelations(modelRelations)
    {
      relations := [];
      if modelRelations.Some? && |modelRelations.value| > 0 {
        var raws := modelRelations.value;
        var i := 0;
        while i < |raws|
          invariant 0 <= i <= |raws|
          invariant relations == PutAll(RelationList(raws[..i]), RelationName)
        {
          assert RelationList(raws[..i + 1])[..i] == RelationList(raws[..i]);
          var relation := Parse(raws[i]);
          relations := Put(relations, relation.name, relation);
          i := i + 1;
        }
        assert raws[..i] == raws;
      }
    }

    /** `hasMember`. */
    function HasMember(n: string): (r: bool)
      reads this
      ensures r <==> exists i :: 0 <= i < |members| && members[i].key == n
    {
      HasKey(members, n)
    }

    /** `toTypeScript`: enum text for a class extending `Enum`, class text
        otherwise. */
    method ToTypeScript(options: Options) returns (r: string)
      modifies this
      ensures baseClassName == "Enum" ==>
        r == EnumText(name, Values(members), options) && members == old(members)
      ensures baseClassName != "Enum" ==>
        r == ClassText(imports, nonAutoGeneratedImports, name, SortByName(Values(old(members))),
                       nonAutoGeneratedClassDeclarations, options)
        && members == Renumber(SortByName(Values(old(members))))
      ensures namespace == old(namespace) && imports == old(imports)
      ensures nonAutoGeneratedImports == old(nonAutoGeneratedImports)
      ensures baseClassName == old(baseClassName) && name == old(name)
      ensures nonAutoGeneratedClassDeclarations == old(nonAutoGeneratedClassDeclarations)
      ensures eloquentRelations == old(eloquentRelations)
    {
      if baseClassName == "Enum" {
        r := ToTypeScriptEnum(options);
      } else {
        r := ToTypeScriptClass(options);
      }
    }

    /** `toTypeScriptEnum`. */
    method ToTypeScriptEnum(options: Options) returns (content: string)
      ensures content == EnumText(name, Values(members), options)
    {
      var ms := Values(members);
      content := "export enum " + name + " {" + "\n";
      var enumContent := "";
      var i := 0;
      while i < |ms|
        invariant 0 <= i <= |ms|
        invariant enumContent == Terminated(EnumLines(ms[..i]))
      {
        var line := ms[i].name + " = " + InitialText(ms[i]) + ",";
        ghost var lines := EnumLines(ms[..i + 1]);
        assert lines[..|lines| - 1] == EnumLines(ms[..i]);
        enumContent := enumContent + line + "\n";
        i := i + 1;
      }
      assert ms[..i] == ms;
      content := content + Indent(Trim(enumContent, '\n'), 1, options) + "\n";
      content := content + "}";
    }

    /** `toTypeScriptClass`: sorts the members in place (renumbering their
        keys, as `usort` does) and renders the class. */
    method ToTypeScriptClass(options: Options) returns (content: string)
      modifies this
      ensures members == Renumber(SortByName(Values(old(members))))
      ensures content == ClassText(imports, nonAutoGeneratedImports, name, SortByName(Values(old(members))),
                                   nonAutoGeneratedClassDeclarations, options)
      ensures namespace == old(namespace) && imports == old(imports)
      ensures nonAutoGeneratedImports == old(nonAutoGeneratedImports)
      ensures baseClassName == old(baseClassName) && name == old(name)
      ensures nonAutoGeneratedClassDeclarations == old(nonAutoGeneratedClassDeclarations)
      ensures eloquentRelations == old(eloquentRelations)
    {
      var importBlock := ImportBlock(options);
      var sorted := SortByName(Values(members));
      content := ClassTextBlock(imports, importBlock, nonAutoGeneratedImports, name, sorted,
                                nonAutoGeneratedClassDeclarations, options);
      SortMembers();
    }

    /** `usort($this->members, ...)`: the members by name, keyed 0, 1, … */
    method SortMembers()
      modifies this
      ensures members == Renumber(SortByName(Values(old(members))))
      ensures namespace == old(namespace) && imports == old(imports)
      ensures nonAutoGeneratedImports == old(nonAutoGeneratedImports)
      ensures baseClassName == old(baseClassName) && name == old(name)
      ensures nonAutoGeneratedClassDeclarations == old(nonAutoGeneratedClassDeclarations)
      ensures eloquentRelations == old(eloquentRelations)
    {
      members := Renumber(SortByName(Values(members)));
    }

    /** The import loop of `toTypeScriptClass`. */
    method ImportBlock(options: Options) returns (content: string)
      ensures content == Terminated(ImportLines(imports, options))
    {
      content := "";
      var i := 0;
      while i < |imports|
        invariant 0 <= i <= |imports|
        invariant content == Terminated(ImportLines(imports[..i], options))
      {
        var line := ImportExpression.ToTypeScript(imports[i], options);
        ghost var lines := ImportLines(imports[..i + 1], options);
        assert lines[..|lines| - 1] == ImportLines(imports[..i], options);
        content := content + line + "\n";
        i := i + 1;
      }
      assert imports[..i] == imports;
    }
  }

  /** The rest of `toTypeScriptClass` once the import lines are rendered. */
  method ClassTextBlock(imports: seq<ImportExpression.ImportExpr>, importBlock: string, importText: string,
                        name: string, ms: seq<CM.Member>, declarations: string, options: Options)
    returns (content: string)
    requires importBlock == Terminated(ImportLines(imports, options))
    ensures content == ClassText(imports, importText, name, ms, declarations, options)
  {
    content := importBlock;
    content := content + ImportsStart + "\n";
    content := content + importText + "\n";
    content := content + ImportsEnd + "\n\n";
    content := content + "export default class " + name + " {\n\n";
    var classBody := ClassBodyBlock(name, ms, declarations, options);
    content := content + Indent(classBody, 1, options) + "\n";
    content := content + "}";
  }

  method ClassBodyBlock(name: string, ms: seq<CM.Member>, declarations: string, options: Options)
    returns (classBody: string)
    ensures classBody == ClassBody(name, ms, declarations, options)
  {
    classBody := MemberBlock(ms, options);
    classBody := classBody + "\n";
    classBody := classBody + "constructor(init?: Partial<" + name + ">) {\n";
    var constructorContent := ConstructorBlock(ms);
    classBody := classBody + Indent(Trim(constructorContent, '\n'), 1, options) + "\n";
    classBody := classBody + "}\n\n";
    classBody := classBody + DeclarationsStart + "\n";
    classBody := classBody + Indent(declarations, -1, options) + "\n";
    classBody := classBody + DeclarationsEnd;
  }

  /** The member loop of `toTypeScriptClass`. */
  method MemberBlock(ms: seq<CM.Member>, options: Options) returns (classBody: string)
    ensures classBody == Terminated(MemberLines(ms, options))
  {
    classBody := "";
    var i := 0;
    while i < |ms|
      invariant 0 <= i <= |ms|
      invariant classBody == Terminated(MemberLines(ms[..i], options))
    {
      assert ms[..i + 1][..i] == ms[..i];
      if !ms[i].noConvert {
        var line := CM.ToTypeScript(ms[i], options) + ";";
        classBody := classBody + line + "\n";
      }
      i := i + 1;
    }
    assert ms[..i] == ms;
  }

  /** The constructor loop of `toTypeScriptClass`. */
  method ConstructorBlock(ms: seq<CM.Member>) returns (constructorContent: string)
    ensures constructorContent == ConstructorContent(ms)
  {
    constructorContent := ObjectAssign + "\n";
    var i := 0;
    while i < |ms|
      invariant 0 <= i <= |ms|
      invariant constructorContent == ObjectAssign + "\n" + Terminated(CtorLines(ms[..i]))
    {
      assert ms[..i + 1][..i] == ms[..i];
      var m := ms[i];
      if m.typ.None? || m.noConvert {
      } else if m.typ.value.isCollection {
        var line := DeserializeLine(m.name, m.typ.value.name);
        AppendAssoc(ObjectAssign + "\n", Terminated(CtorLines(ms[..i])), line, "\n");
        constructorContent := constructorContent + line + "\n";
      } else if !TypeExpression.IsPrimitive(m.typ.value) {
        var line := NewLine(m.name, m.typ.value.name);
        AppendAssoc(ObjectAssign + "\n", Terminated(CtorLines(ms[..i])), line, "\n");
        constructorContent := constructorContent + line + "\n";
      }
      i := i + 1;
    }
    assert ms[..i] == ms;
  }

  // ---------------------------------------------------------------------------
  // Properties of parsing

  /** The last line naming a namespace gives the namespace. */
  lemma {:induction false} NamespaceOfLastLine(lines: seq<LineMatch>, i: int)
    requires 0 <= i < |lines| && lines[i].namespaceMatch.Some?
    requires forall j :: i < j < |lines| ==> lines[j].namespaceMatch.None?
    ensures ParsedNamespace(lines) == lines[i].namespaceMatch.value
    decreases |lines|
  {
    if i < |lines| - 1 {
      NamespaceOfLastLine(lines[..|lines| - 1], i);
    }
  }

  /** Without a namespace line the namespace stays unset. */
  lemma {:induction false} NoNamespace(lines: seq<LineMatch>)
    requires forall j :: 0 <= j < |lines| ==> lines[j].namespaceMatch.None?
    ensures ParsedNamespace(lines) == ""
    decreases |lines|
  {
    if lines != [] {
      NoNamespace(lines[..|lines| - 1]);
    }
  }

  /** The last class declaration gives the class and base class names. */
  lemma {:induction false} DeclarationOfLastLine(lines: seq<LineMatch>, i: int)
    requires 0 <= i < |lines| && lines[i].classMatch.Some?
    requires forall j :: i < j < |lines| ==> lines[j].classMatch.None?
    ensures ParsedName(lines) == lines[i].classMatch.value.0
    ensures ParsedBaseClassName(lines) == lines[i].classMatch.value.1
    decreases |lines|
  {
    if i < |lines| - 1 {
      DeclarationOfLastLine(lines[..|lines| - 1], i);
    }
  }

  /** Without a class declaration there is no name, so `tryParse` fails. */
  lemma {:induction false} NoDeclaration(lines: seq<LineMatch>)
    requires forall j :: 0 <= j < |lines| ==> lines[j].classMatch.None?
    ensures ParsedDeclaration(lines).None? && ParsedName(lines) == ""
    decreases |lines|
  {
    if lines != [] {
      NoDeclaration(lines[..|lines| - 1]);
    }
  }

  /** The parsed members are exactly the members the lines declare. */
  lemma {:induction false} MemberListOf(lines: seq<LineMatch>, camelCase: string -> string, m: CM.Member)
    ensures m in ParsedMemberList(lines, camelCase)
        <==> exists i :: 0 <= i < |lines| && LineMember(lines[i], camelCase) == Some(m)
    decreases |lines|
  {
    if lines != [] {
      var n := |lines| - 1;
      var init := lines[..n];
      MemberListOf(init, camelCase, m);
      MemberListSnoc(lines, camelCase, m);
      if m in ParsedMemberList(lines, camelCase) {
        if m in ParsedMemberList(init, camelCase) {
          var i :| 0 <= i < |init| && LineMember(init[i], camelCase) == Some(m);
          assert lines[i] == init[i];
        } else {
          assert LineMember(lines[n], camelCase) == Some(m);
        }
      }
      if exists i :: 0 <= i < |lines| && LineMember(lines[i], camelCase) == Some(m) {
        var i :| 0 <= i < |lines| && LineMember(lines[i], camelCase) == Some(m);
        if i < n {
          assert init[i] == lines[i];
        }
      }
    }
  }

  lemma MemberListSnoc(lines: seq<LineMatch>, camelCase: string -> string, m: CM.Member)
    requires lines != []
    ensures m in ParsedMemberList(lines, camelCase)
        <==> m in ParsedMemberList(lines[..|lines| - 1], camelCase)
             || LineMember(lines[|lines| - 1], camelCase) == Some(m)
  {
  }

  /** Members are keyed by name: a later member of the same name replaces an
      earlier one. */
  lemma ParsedMemberGet(lines: seq<LineMatch>, camelCase: string -> string, n: string)
    ensures Get(ParsedMembers(lines, camelCase), n) == LastWithKey(ParsedMemberList(lines, camelCase), MemberName, n)
  {
    PutAllGet(ParsedMemberList(lines, camelCase), MemberName, n);
  }

  /** `hasMember(n)` on a parsed class holds exactly when some line declares a
      member named `n`. */
  lemma ParsedHasMember(lines: seq<LineMatch>, camelCase: string -> string, n: string)
    ensures HasKey(ParsedMembers(lines, camelCase), n)
        <==> exists i :: 0 <= i < |lines| && LineMember(lines[i], camelCase).Some?
                         && LineMember(lines[i], camelCase).value.name == n
  {
    var list := ParsedMemberList(lines, camelCase);
    ParsedMemberGet(lines, camelCase, n);
    if HasKey(ParsedMembers(lines, camelCase), n) {
      var k :| 0 <= k < |list| && MemberName(list[k]) == n;
      assert list[k] in list;
      MemberListOf(lines, camelCase, list[k]);
    }
    if exists i :: 0 <= i < |lines| && LineMember(lines[i], camelCase).Some?
                   && LineMember(lines[i], camelCase).value.name == n {
      var i :| 0 <= i < |lines| && LineMember(lines[i], camelCase).Some?
               && LineMember(lines[i], camelCase).value.name == n;
      var m := LineMember(lines[i], camelCase).value;
      MemberListOf(lines, camelCase, m);
      var k :| 0 <= k < |list| && list[k] == m;
      assert MemberName(list[k]) == n;
    }
  }

  /** Relations are keyed by name as well: the last relation of a name wins. */
  lemma ParsedRelationGet(raws: seq<RawRelation>, n: string)
    ensures Get(ParsedRelations(Some(raws)), n) == LastWithKey(RelationList(raws), RelationName, n)
    ensures HasKey(ParsedRelations(Some(raws)), n) <==> exists i :: 0 <= i < |raws| && raws[i].relationName == n
  {
    var list := RelationList(raws);
    PutAllGet(list, RelationName, n);
    if exists i :: 0 <= i < |raws| && raws[i].relationName == n {
      var i :| 0 <= i < |raws| && raws[i].relationName == n;
      assert RelationName(list[i]) == n;
    }
  }

  /** After class rendering the members are keyed `0`, `1`, …, so a member is
      no longer found under a name that is not a decimal numeral. */
  lemma RenumberedHasMember(vs: seq<CM.Member>, n: string, t: int)
    requires 0 <= t < |n| && !('0' <= n[t] <= '9')
    ensures !HasKey(Renumber(vs), n)
  {
  }

  // ---------------------------------------------------------------------------
  // Properties of the rendered enum

  /** Trimmed, the member lines come back joined by line feeds. */
  lemma EnumTrimmed(ms: seq<CM.Member>)
    requires ms != []
    requires forall i :: 0 <= i < |ms| ==> NoBreaks(ms[i].name) && NoBreaks(InitialText(ms[i]))
    ensures Trim(Terminated(EnumLines(ms)), '\n') == Join(EnumLines(ms), '\n')
    ensures forall i :: 0 <= i < |ms| ==> NoBreaks(EnumLines(ms)[i])
  {
    var xs := EnumLines(ms);
    forall i | 0 <= i < |xs| ensures NoBreaks(xs[i]) && xs[i] != [] {
      assert xs[i] == ms[i].name + " = " + InitialText(ms[i]) + ",";
    }
    StringUtils.TrimTerminatedJoin(xs);
  }

  lemma EnumIndentedLines(ms: seq<CM.Member>, unit: string)
    ensures var xs := EnumLines(ms);
      seq(|xs|, i requires 0 <= i < |xs| => unit + xs[i]) == EnumBodyLines(ms, unit)
  {
  }

  /** The indented lines of the enum body. */
  function EnumBodyLines(ms: seq<CM.Member>, unit: string): (r: seq<string>)
    ensures |r| == |ms|
  {
    seq(|ms|, i requires 0 <= i < |ms| => unit + EnumLine(ms[i]))
  }

  /** Trimmed and indented one level, the member lines are each one unit in. */
  lemma EnumBodyIndented(ms: seq<CM.Member>, options: Options)
    requires IndentsLines(options) && ms != []
    requires forall i :: 0 <= i < |ms| ==> NoBreaks(ms[i].name) && NoBreaks(InitialText(ms[i]))
    ensures Indent(Trim(Terminated(EnumLines(ms)), '\n'), 1, options)
         == Join(EnumBodyLines(ms, IndentExpression(options)), '\n')
  {
    var u := IndentExpression(options);
    var xs := EnumLines(ms);
    EnumTrimmed(ms);
    IndentLinesOnce(xs, options);
    EnumIndentedLines(ms, u);
  }

  lemma EnumBodySingle(ms: seq<CM.Member>, options: Options)
    requires forall i :: 0 <= i < |ms| ==> NoBreaks(ms[i].name) && NoBreaks(InitialText(ms[i]))
    ensures var ys := EnumBodyLines(ms, IndentExpression(options));
      forall i :: 0 <= i < |ys| ==> NoBreaks(ys[i])
  {
    var u := IndentExpression(options);
    UnitHasNoBreak(options);
    var ys := EnumBodyLines(ms, u);
    forall i | 0 <= i < |ys| ensures NoBreaks(ys[i]) {
      var m := ms[i];
      assert ys[i] == u + (m.name + " = " + InitialText(m) + ",");
      NoBreaksAppend(m.name, " = ");
      NoBreaksAppend(m.name + " = ", InitialText(m));
      NoBreaksAppend(m.name + " = " + InitialText(m), ",");
      NoBreaksAppend(u, m.name + " = " + InitialText(m) + ",");
    }
  }

  lemma EnumHeaderSingleLine(name: string)
    requires NoBreaks(name)
    ensures NoBreaks("export enum " + name + " {")
  {
  }

  /** With a unit that indents and single-line names and values, the enum
      text is its header, one indented `name = value,` line per member in
      map order, and the closing brace. */
  lemma EnumTextLines(name: string, ms: seq<CM.Member>, options: Options)
    requires IndentsLines(options) && NoBreaks(name) && ms != []
    requires forall i :: 0 <= i < |ms| ==> NoBreaks(ms[i].name) && NoBreaks(InitialText(ms[i]))
    ensures StringUtils.Lines(EnumText(name, ms, options))
      == ["export enum " + name + " {"] + EnumBodyLines(ms, IndentExpression(options)) + ["}"]
  {
    EnumBodyIndented(ms, options);
    EnumBodySingle(ms, options);
    EnumHeaderSingleLine(name);
    StringUtils.BracedLines("export enum " + name + " {", EnumBodyLines(ms, IndentExpression(options)), "}");
  }

  // ---------------------------------------------------------------------------
  // Properties of the rendered class

  /** The constructor body's lines: `Object.assign(this, init);` and then one
      line per member that has one. */
  function ConstructorLines(ms: seq<CM.Member>): seq<string> {
    [ObjectAssign] + CtorLines(ms)
  }

  predicate SingleLineMember(m: CM.Member) {
    NoBreaks(m.name) && (m.typ.Some? ==> NoBreaks(m.typ.value.name))
  }

  lemma {:induction false} CtorLinesShape(ms: seq<CM.Member>)
    requires forall i :: 0 <= i < |ms| ==> SingleLineMember(ms[i])
    ensures forall i :: 0 <= i < |CtorLines(ms)| ==> NoBreaks(CtorLines(ms)[i]) && CtorLines(ms)[i] != []
    decreases |ms|
  {
    if ms != [] {
      var init := ms[..|ms| - 1];
      var m := ms[|ms| - 1];
      CtorLinesShape(init);
      var extra := CtorLinesLast(ms);
      if CtorLine(m).Some? {
        CtorLineSingle(m);
        assert extra == [CtorLine(m).value];
      } else {
        assert extra == [];
      }
    }
  }

  /** A member with a single-line name and type gets a single, non-empty line. */
  lemma CtorLineSingle(m: CM.Member)
    requires SingleLineMember(m) && CtorLine(m).Some?
    ensures NoBreaks(CtorLine(m).value) && CtorLine(m).value != []
  {
    GuardSingle(m.name);
    if m.typ.value.isCollection {
      DeserializeSingle(m.name, m.typ.value.name);
    } else {
      NewSingle(m.name, m.typ.value.name);
    }
  }

  lemma GuardSingle(name: string)
    requires NoBreaks(name)
    ensures NoBreaks(Guard(name))
  {
    NoBreaksAppend("init.", name);
    NoBreaksAppend("init." + name, " = init?.");
    NoBreaksAppend("init." + name + " = init?.", name);
    NoBreaksAppend("init." + name + " = init?." + name, " ? ");
  }

  lemma DeserializeSingle(name: string, t: string)
    requires NoBreaks(Guard(name)) && NoBreaks(name) && NoBreaks(t)
    ensures NoBreaks(DeserializeLine(name, t)) && DeserializeLine(name, t) != []
  {
    var g := Guard(name);
    NoBreaksAppend(g, "Object.deserialize<");
    NoBreaksAppend(g + "Object.deserialize<", t);
    NoBreaksAppend(g + "Object.deserialize<" + t, ">(init.");
    NoBreaksAppend(g + "Object.deserialize<" + t + ">(init.", name);
    NoBreaksAppend(g + "Object.deserialize<" + t + ">(init." + name, ", ");
    NoBreaksAppend(g + "Object.deserialize<" + t + ">(init." + name + ", ", t);
    NoBreaksAppend(g + "Object.deserialize<" + t + ">(init." + name + ", " + t, ") : undefined;");
  }

  lemma NewSingle(name: string, t: string)
    requires NoBreaks(Guard(name)) && NoBreaks(name) && NoBreaks(t)
    ensures NoBreaks(NewLine(name, t)) && NewLine(name, t) != []
  {
    var g := Guard(name);
    NoBreaksAppend(g, "new ");
    NoBreaksAppend(g + "new ", t);
    NoBreaksAppend(g + "new " + t, "(init.");
    NoBreaksAppend(g + "new " + t + "(init.", name);
    NoBreaksAppend(g + "new " + t + "(init." + name, ") : undefined;");
  }


  /** Trimmed, the constructor content is its lines joined by line feeds. */
  lemma ConstructorTrimmed(ms: seq<CM.Member>)
    requires forall i :: 0 <= i < |ms| ==> SingleLineMember(ms[i])
    ensures Trim(ConstructorContent(ms), '\n') == Join(ConstructorLines(ms), '\n')
    ensures forall i :: 0 <= i < |ConstructorLines(ms)| ==> NoBreaks(ConstructorLines(ms)[i])
  {
    TerminatedCons(ObjectAssign, CtorLines(ms));
    ConstructorLinesSingle(ms);
    StringUtils.TrimTerminatedJoin(ConstructorLines(ms));
  }

  lemma ConstructorLinesSingle(ms: seq<CM.Member>)
    requires forall i :: 0 <= i < |ms| ==> SingleLineMember(ms[i])
    ensures forall i :: 0 <= i < |ConstructorLines(ms)| ==>
      NoBreaks(ConstructorLines(ms)[i]) && ConstructorLines(ms)[i] != []
  {
    var xs := ConstructorLines(ms);
    CtorLinesShape(ms);
    forall i | 0 <= i < |xs| ensures NoBreaks(xs[i]) && xs[i] != [] {
      if i > 0 {
        assert xs[i] == CtorLines(ms)[i - 1];
      }
    }
  }

  /** Trimmed and indented one level, the constructor content is its lines,
      each one unit in. */
  lemma ConstructorIndented(ms: seq<CM.Member>, options: Options)
    requires IndentsLines(options)
    requires forall i :: 0 <= i < |ms| ==> SingleLineMember(ms[i])
    ensures var xs := ConstructorLines(ms);
      Indent(Trim(ConstructorContent(ms), '\n'), 1, options)
        == Join(seq(|xs|, i requires 0 <= i < |xs| => IndentExpression(options) + xs[i]), '\n')
  {
    var xs := ConstructorLines(ms);
    ConstructorTrimmed(ms);
    assert Trim(ConstructorContent(ms), '\n') == Join(xs, '\n');
    IndentLinesOnce(xs, options);
  }

  lemma ImportLineChars(imp: ImportExpression.ImportExpr, options: Options, c: char)
    requires c !in imp.name && c !in imp.target && c != '\n'
    requires c !in "import type " && c !in " from " && c != '\'' && c != '"'
    ensures c !in ImportExpression.ToTypeScript(imp, options)
  {
  }

  /** The import sentinels: the opening one has its first `<` at index 3,
      and the closing one holds no line feed. */
  lemma SentinelChars()
    ensures |ImportsStart| > 3 && ImportsStart[3] == '<'
    ensures forall m :: 0 <= m < 3 ==> ImportsStart[m] != '<'
    ensures ImportsEnd != [] && '\n' !in ImportsEnd
  {
    assert forall k :: 0 <= k < |ImportsEnd| ==> ImportsEnd[k] != '\n';
  }

  lemma ClassTextRegrouped(t: string, p: string, name: string, body: string)
    ensures t + ImportsStart + "\n" + p + "\n" + ImportsEnd + "\n\n" + "export default class " + name + " {\n\n"
              + body + "\n" + "}"
         == t + ImportsStart + ("\n" + p + "\n") + ImportsEnd
              + ("\n\n" + "export default class " + name + " {\n\n" + body + "\n" + "}")
  {
  }

  /** The preserved import text comes back verbatim, between line feeds,
      from between the import sentinels, when neither the import lines hold a
      `<` nor the preserved text the closing sentinel. */
  lemma ImportRegionPreserved(imports: seq<ImportExpression.ImportExpr>, importText: string, name: string,
                              ms: seq<CM.Member>, declarations: string, options: Options)
    requires forall i :: 0 <= i < |imports| ==> '<' !in imports[i].name && '<' !in imports[i].target
    requires !Contains(importText, ImportsEnd)
    ensures StringUtils.TextBetween(ClassText(imports, importText, name, ms, declarations, options),
                                    ImportsStart, ImportsEnd)
         == Some("\n" + importText + "\n")
  {
    var lines := ImportLines(imports, options);
    forall i | 0 <= i < |lines| ensures '<' !in lines[i] {
      ImportLineChars(imports[i], options, '<');
    }
    TerminatedChars(lines, '<');
    var t := Terminated(lines);
    var body := Indent(ClassBody(name, ms, declarations, options), 1, options);
    ClassTextRegrouped(t, importText, name, body);
    SentinelChars();
    StringUtils.BetweenSentinels(t, ImportsStart, importText, ImportsEnd,
      "\n\n" + "export default class " + name + " {\n\n" + body + "\n" + "}", 3);
  }

  // ---------------------------------------------------------------------------
  // The layout of the rendered class, and the preserved class declarations

  /** The class body before it is indented, up to the blank line above the
      declaration sentinels. */
  function ClassPreface(name: string, ms: seq<CM.Member>, options: Options): string {
    Terminated(MemberLines(ms, options)) + "\n" + "constructor(init?: Partial<" + name + ">) {\n"
      + Indent(Trim(ConstructorContent(ms), '\n'), 1, options) + "\n" + "}\n"
  }

  /** The class text up to the line of the opening declaration sentinel. */
  function ClassHead(imports: seq<ImportExpression.ImportExpr>, importText: string, name: string,
                     ms: seq<CM.Member>, options: Options): string
  {
    Terminated(ImportLines(imports, options)) + ImportsStart + "\n" + importText + "\n"
      + ImportsEnd + "\n\n" + "export default class " + name + " {\n\n"
      + Indent(ClassPreface(name, ms, options), 1, options)
  }

  lemma ClassBodySplit(name: string, ms: seq<CM.Member>, declarations: string, options: Options)
    ensures ClassBody(name, ms, declarations, options)
         == ClassPreface(name, ms, options) + "\n"
            + (DeclarationsStart + "\n" + (Indent(declarations, -1, options) + "\n" + DeclarationsEnd))
  {
    BodyRegrouped(Terminated(MemberLines(ms, options)), name, Indent(Trim(ConstructorContent(ms), '\n'), 1, options),
      DeclarationsStart, Indent(declarations, -1, options), DeclarationsEnd);
  }

  lemma BodyRegrouped(t: string, name: string, c: string, s: string, d: string, e: string)
    ensures t + "\n" + "constructor(init?: Partial<" + name + ">) {\n" + c + "\n" + "}\n\n" + s + "\n" + d + "\n" + e
         == (t + "\n" + "constructor(init?: Partial<" + name + ">) {\n" + c + "\n" + "}\n") + "\n" + (s + "\n" + (d + "\n" + e))
  {
  }

  /** The opening declaration sentinel is a single line that opens with `/`,
      holds a `<` and closes with `>`. */
  lemma StartSentinelChars()
    ensures NoBreaks(DeclarationsStart) && DeclarationsStart != [] && DeclarationsStart[0] == '/'
    ensures '<' in DeclarationsStart && '/' in DeclarationsStart
    ensures DeclarationsStart[|DeclarationsStart| - 1] == '>'
  {
    StartSentinelSingle();
    var s := DeclarationsStart;
    assert s[3] == '<' && s[0] == '/';
  }

  lemma StartSentinelSingle()
    ensures NoBreaks(DeclarationsStart)
  {
    var s := DeclarationsStart;
    forall k | 0 <= k < |s| ensures s[k] != '\n' && s[k] != '\r' { }
  }

  /** The closing declaration sentinel is a single line that opens with `/`. */
  lemma EndSentinelChars()
    ensures NoBreaks(DeclarationsEnd) && DeclarationsEnd != [] && DeclarationsEnd[0] == '/'
  {
    EndSentinelSingle();
  }

  lemma EndSentinelSingle()
    ensures NoBreaks(DeclarationsEnd)
  {
    var e := DeclarationsEnd;
    forall k | 0 <= k < |e| ensures e[k] != '\n' && e[k] != '\r' { }
  }

  lemma ImportsStartSingle()
    ensures NoBreaks(ImportsStart)
  {
    var s := ImportsStart;
    forall k | 0 <= k < |s| ensures s[k] != '\n' && s[k] != '\r' { }
  }

  lemma ImportsEndSingle()
    ensures NoBreaks(ImportsEnd)
  {
    var e := ImportsEnd;
    forall k | 0 <= k < |e| ensures e[k] != '\n' && e[k] != '\r' { }
  }

  /** Neither import sentinel holds the opening declaration sentinel. */
  lemma ImportSentinelsFree()
    ensures !Contains(ImportsStart, DeclarationsStart) && !Contains(ImportsEnd, DeclarationsStart)
  {
    ImportsStartFree();
    ImportsEndFree();
  }

  lemma ImportsStartFree()
    ensures !Contains(ImportsStart, DeclarationsStart)
  {
    var s := DeclarationsStart;
    assert |s| == 42 && |ImportsStart| == 43;
    assert s[1] == '/' && s[23] == 'c';
    forall k: nat ensures !OccursAt(ImportsStart, s, k) {
      if k == 0 {
        assert ImportsStart[0..42][23] == ImportsStart[23] == 'i';
      } else if k == 1 {
        assert ImportsStart[1..43][1] == ImportsStart[2] == ' ';
      }
    }
  }

  lemma ImportsEndFree()
    ensures !Contains(ImportsEnd, DeclarationsStart)
  {
    var s := DeclarationsStart;
    assert |s| == 42 && |ImportsEnd| == 44;
    assert s[0] == '/' && s[1] == '/' && s[4] == 'n';
    forall k: nat ensures !OccursAt(ImportsEnd, s, k) {
      if k == 0 {
        assert ImportsEnd[0..42][4] == ImportsEnd[4] == '/';
      } else if k == 1 {
        assert ImportsEnd[1..43][1] == ImportsEnd[2] == ' ';
      } else if k == 2 {
        assert ImportsEnd[2..44][0] == ImportsEnd[2] == ' ';
      }
    }
  }

  /** A member whose name and type name hold no `/`. */
  predicate PlainNames(m: CM.Member) {
    '/' !in m.name && (m.typ.Some? ==> '/' !in m.typ.value.name)
  }

  lemma CtorLineNoSlash(m: CM.Member)
    requires PlainNames(m) && CtorLine(m).Some?
    ensures '/' !in CtorLine(m).value
  {
    assert '/' !in Guard(m.name);
  }

  /** Without `/` in the member names and types, the constructor holds none. */
  lemma ConstructorNoSlash(ms: seq<CM.Member>)
    requires forall i :: 0 <= i < |ms| ==> PlainNames(ms[i])
    ensures '/' !in ConstructorContent(ms)
  {
    var lines := CtorLines(ms);
    forall i | 0 <= i < |lines| ensures '/' !in lines[i] {
      CtorLinesMembers(ms, lines[i]);
      var j :| 0 <= j < |ms| && CtorLine(ms[j]) == Some(lines[i]);
      CtorLineNoSlash(ms[j]);
    }
    TerminatedChars(lines, '/');
  }

  /** No member line holds a pattern that no member declaration holds and
      that does not end with the `;` closing the line. */
  lemma {:induction false} MemberLinesFree(ms: seq<CM.Member>, options: Options, pat: string)
    requires pat != [] && pat[|pat| - 1] != ';'
    requires forall i :: 0 <= i < |ms| ==> !Contains(CM.ToTypeScript(ms[i], options), pat)
    ensures forall i :: 0 <= i < |MemberLines(ms, options)| ==> !Contains(MemberLines(ms, options)[i], pat)
    decreases |ms|
  {
    if ms != [] {
      var init := ms[..|ms| - 1];
      assert forall i :: 0 <= i < |init| ==> init[i] == ms[i];
      MemberLinesFree(init, options, pat);
      var prev := MemberLines(init, options);
      if !ms[|ms| - 1].noConvert {
        var line := CM.ToTypeScript(ms[|ms| - 1], options) + ";";
        FreeAppendChar(CM.ToTypeScript(ms[|ms| - 1], options), ';', pat);
        assert MemberLines(ms, options) == prev + [line];
        assert !Contains(line, pat);
      } else {
        assert MemberLines(ms, options) == prev;
      }
    }
  }

  /** The unit never starts a sentinel. */
  lemma UnitNoSlash(options: Options)
    requires IndentsLines(options)
    ensures '/' !in IndentExpression(options)
  {
    UnitIsBlank(options);
    var u := IndentExpression(options);
    forall i | 0 <= i < |u| ensures u[i] != '/' { }
  }

  lemma PrefaceRegrouped(t: string, name: string, body: string)
    ensures t + "\n" + "constructor(init?: Partial<" + name + ">) {\n" + body + "\n" + "}\n"
         == t + "\n" + ("constructor(init?: Partial<" + name + ">) {") + "\n" + body + "\n" + "}" + "\n" + ""
  {
  }

  /** The class body above the sentinels holds no single-line pattern opening
      with `/` when the names hold no `/` and no member declaration holds it. */
  lemma PrefaceFree(name: string, ms: seq<CM.Member>, options: Options, pat: string)
    requires IndentsLines(options) && '/' !in name
    requires pat != [] && NoBreaks(pat) && pat[0] == '/' && pat[|pat| - 1] != ';'
    requires forall i :: 0 <= i < |ms| ==> PlainNames(ms[i])
    requires forall i :: 0 <= i < |ms| ==> !Contains(CM.ToTypeScript(ms[i], options), pat)
    ensures !Contains(ClassPreface(name, ms, options), pat)
  {
    UnitNoSlash(options);
    assert '/' in pat;
    MemberLinesFree(ms, options, pat);
    var t := Terminated(MemberLines(ms, options));
    FreeTerminated(MemberLines(ms, options), pat);
    var hdr := "constructor(init?: Partial<" + name + ">) {";
    assert '/' !in hdr;
    FreeByChar(hdr, pat, '/');
    ConstructorNoSlash(ms);
    var trimmed := Trim(ConstructorContent(ms), '\n');
    TrimChars(ConstructorContent(ms), '\n');
    FreeByChar(trimmed, pat, '/');
    var body := Indent(trimmed, 1, options);
    StringUtils.IndentFree(trimmed, 1, IndentExpression(options), pat);
    FreeByChar("}", pat, '/');
    FreeByChar("", pat, '/');
    FreeSep(t, hdr, pat);
    FreeSep(t + "\n" + hdr, body, pat);
    FreeSep(t + "\n" + hdr + "\n" + body, "}", pat);
    FreeSep(t + "\n" + hdr + "\n" + body + "\n" + "}", "", pat);
    PrefaceRegrouped(t, name, body);
  }

  /** What the declaration region needs of the rest of the class: no import
      name or target holds `<`, the preserved import text does not hold the
      opening declaration sentinel, no name holds `/`, and no member
      declaration holds the opening sentinel. */
  ghost predicate SentinelFree(imports: seq<ImportExpression.ImportExpr>, importText: string, name: string,
                               ms: seq<CM.Member>, options: Options)
  {
    && (forall i :: 0 <= i < |imports| ==> '<' !in imports[i].name && '<' !in imports[i].target)
    && !Contains(importText, DeclarationsStart)
    && '/' !in name
    && (forall i :: 0 <= i < |ms| ==> PlainNames(ms[i]))
    && (forall i :: 0 <= i < |ms| ==> !Contains(CM.ToTypeScript(ms[i], options), DeclarationsStart))
  }

  lemma HeadRegrouped(t: string, st: string, it: string, ie: string, name: string, p: string)
    ensures t + st + "\n" + it + "\n" + ie + "\n\n" + "export default class " + name + " {\n\n" + p
         == t + st + "\n" + it + "\n" + ie + "\n" + "" + "\n" + ("export default class " + name + " {")
            + "\n" + "" + "\n" + p
  {
  }

  /** The class text above the opening declaration sentinel does not hold it. */
  lemma HeadFree(imports: seq<ImportExpression.ImportExpr>, importText: string, name: string,
                 ms: seq<CM.Member>, options: Options)
    requires IndentsLines(options) && SentinelFree(imports, importText, name, ms, options)
    ensures !Contains(ClassHead(imports, importText, name, ms, options), DeclarationsStart)
  {
    StartSentinelChars();
    ImportSentinelsFree();
    HeadFreeOf(imports, ImportsStart, importText, ImportsEnd, name, ms, options, DeclarationsStart);
    HeadRegrouped(Terminated(ImportLines(imports, options)), ImportsStart, importText, ImportsEnd, name,
      Indent(ClassPreface(name, ms, options), 1, options));
  }

  lemma HeadFreeOf(imports: seq<ImportExpression.ImportExpr>, st: string, importText: string, ie: string,
                   name: string, ms: seq<CM.Member>, options: Options, pat: string)
    requires IndentsLines(options)
    requires pat != [] && NoBreaks(pat) && pat[0] == '/' && pat[|pat| - 1] != ';' && '<' in pat
    requires !Contains(st, pat) && !Contains(ie, pat) && !Contains(importText, pat) && '/' !in name
    requires forall i :: 0 <= i < |imports| ==> '<' !in imports[i].name && '<' !in imports[i].target
    requires forall i :: 0 <= i < |ms| ==> PlainNames(ms[i])
    requires forall i :: 0 <= i < |ms| ==> !Contains(CM.ToTypeScript(ms[i], options), pat)
    ensures !Contains(Terminated(ImportLines(imports, options)) + st + "\n" + importText + "\n" + ie
                      + "\n" + "" + "\n" + ("export default class " + name + " {") + "\n" + "" + "\n"
                      + Indent(ClassPreface(name, ms, options), 1, options), pat)
  {
    ImportsPartFree(imports, st, importText, ie, options, pat);
    var b := Terminated(ImportLines(imports, options)) + st + "\n" + importText + "\n" + ie;
    var hdr := "export default class " + name + " {";
    assert '/' !in hdr && '/' in pat;
    FreeByChar(hdr, pat, '/');
    FreeByChar("", pat, '/');
    FreeSep(b, "", pat);
    FreeSep(b + "\n" + "", hdr, pat);
    FreeSep(b + "\n" + "" + "\n" + hdr, "", pat);
    PrefaceFree(name, ms, options, pat);
    UnitNoSlash(options);
    StringUtils.IndentFree(ClassPreface(name, ms, options), 1, IndentExpression(options), pat);
    FreeSep(b + "\n" + "" + "\n" + hdr + "\n" + "", Indent(ClassPreface(name, ms, options), 1, options), pat);
  }

  /** The imports up to the closing import sentinel hold no pattern with a `<`
      that neither sentinel nor the preserved text holds. */
  lemma ImportsPartFree(imports: seq<ImportExpression.ImportExpr>, st: string, importText: string, ie: string,
                        options: Options, pat: string)
    requires pat != [] && '\n' !in pat && '<' in pat
    requires !Contains(st, pat) && !Contains(ie, pat) && !Contains(importText, pat)
    requires forall i :: 0 <= i < |imports| ==> '<' !in imports[i].name && '<' !in imports[i].target
    ensures !Contains(Terminated(ImportLines(imports, options)) + st + "\n" + importText + "\n" + ie, pat)
  {
    var lines := ImportLines(imports, options);
    forall i | 0 <= i < |lines| ensures !Contains(lines[i], pat) {
      ImportLineChars(imports[i], options, '<');
      FreeByChar(lines[i], pat, '<');
    }
    FreeAfterLines(lines, st, pat);
    var a := Terminated(lines) + st;
    FreeSep(a, importText, pat);
    FreeSep(a + "\n" + importText, ie, pat);
  }

  lemma TextRegrouped(t: string, st: string, it: string, ie: string, name: string, p: string,
                      u: string, s: string, m: string, e: string)
    ensures t + st + "\n" + it + "\n" + ie + "\n\n" + "export default class " + name + " {\n\n"
              + (p + "\n" + (u + s + "\n" + m + "\n" + u + e)) + "\n" + "}"
         == (t + st + "\n" + it + "\n" + ie + "\n\n" + "export default class " + name + " {\n\n" + p)
              + "\n" + u + s + "\n" + m + "\n" + u + e + "\n}"
  {
  }

  /** The declaration sentinels stand on their own lines, one unit in, around
      the declarations dedented and indented again. */
  lemma ClassTextSplit(imports: seq<ImportExpression.ImportExpr>, importText: string, name: string,
                       ms: seq<CM.Member>, declarations: string, options: Options)
    requires IndentsLines(options)
    ensures var u := IndentExpression(options);
      ClassText(imports, importText, name, ms, declarations, options)
        == ClassHead(imports, importText, name, ms, options) + "\n" + u + DeclarationsStart + "\n"
           + Indent(Indent(declarations, -1, options), 1, options) + "\n" + u + DeclarationsEnd + "\n}"
  {
    var u := IndentExpression(options);
    StartSentinelSingle();
    EndSentinelSingle();
    var p := ClassPreface(name, ms, options);
    var d := Indent(declarations, -1, options);
    ClassBodySplit(name, ms, declarations, options);
    var r := IndentTail(DeclarationsStart, d, DeclarationsEnd, options);
    UnitIsBlank(options);
    StringUtils.IndentAppend(p, DeclarationsStart + "\n" + (d + "\n" + DeclarationsEnd), 1, u);
    assert Indent(ClassBody(name, ms, declarations, options), 1, options) == Indent(p, 1, options) + "\n" + r;
    TextRegrouped(Terminated(ImportLines(imports, options)), ImportsStart, importText, ImportsEnd, name,
      Indent(p, 1, options), u, DeclarationsStart, Indent(d, 1, options), DeclarationsEnd);
  }

  /** Two single lines around a text, indented one level. */
  lemma IndentTail(s: string, d: string, e: string, options: Options) returns (r: string)
    requires IndentsLines(options) && NoBreaks(s) && NoBreaks(e)
    ensures r == Indent(s + "\n" + (d + "\n" + e), 1, options)
    ensures r == IndentExpression(options) + s + "\n" + Indent(d, 1, options) + "\n" + IndentExpression(options) + e
  {
    var u := IndentExpression(options);
    UnitIsBlank(options);
    var de := d + "\n" + e;
    StringUtils.IndentAppend(s, de, 1, u);
    StringUtils.IndentAppend(d, e, 1, u);
    IndentSingleLine(s, 1, options);
    IndentSingleLine(e, 1, options);
    RepeatOne(u);
    r := Indent(s + "\n" + de, 1, options);
    assert r == (u + s) + "\n" + (Indent(d, 1, options) + "\n" + (u + e));
    TailRegrouped(u, s, Indent(d, 1, options), e);
  }

  lemma TailRegrouped(u: string, s: string, d: string, e: string)
    ensures (u + s) + "\n" + (d + "\n" + (u + e)) == u + s + "\n" + d + "\n" + u + e
  {
  }

  /** The preserved class declarations come back from between their
      sentinels: dedented one level, indented again with the body, between a
      line feed and the line feed and unit that open the closing sentinel's
      line. */
  lemma DeclarationsRegion(imports: seq<ImportExpression.ImportExpr>, importText: string, name: string,
                           ms: seq<CM.Member>, declarations: string, options: Options)
    requires IndentsLines(options) && SentinelFree(imports, importText, name, ms, options)
    requires !Contains(declarations, DeclarationsEnd)
    ensures StringUtils.TextBetween(ClassText(imports, importText, name, ms, declarations, options),
                                    DeclarationsStart, DeclarationsEnd)
         == Some("\n" + Indent(Indent(declarations, -1, options), 1, options) + "\n" + IndentExpression(options))
  {
    var u := IndentExpression(options);
    var d := Indent(declarations, -1, options);
    StartSentinelChars();
    EndSentinelChars();
    UnitNoSlash(options);
    HeadFree(imports, importText, name, ms, options);
    StringUtils.IndentFree(declarations, -1, u, DeclarationsEnd);
    StringUtils.IndentFree(d, 1, u, DeclarationsEnd);
    ClassTextSplit(imports, importText, name, ms, declarations, options);
    StringUtils.BetweenIndentedSentinels(ClassHead(imports, importText, name, ms, options), u,
      DeclarationsStart, Indent(d, 1, options), DeclarationsEnd, "\n}");
  }

  /** Lines that all open with a whitespace unit lose exactly it when dedented. */
  lemma DedentPrefixed(ys: seq<string>, u: string) returns (zs: seq<string>)
    requires u != [] && forall i :: 0 <= i < |u| ==> u[i] == ' ' || u[i] == '\t'
    requires forall i :: 0 <= i < |ys| ==> |u| <= |ys[i]| && ys[i][..|u|] == u && NoBreaks(ys[i])
    ensures |zs| == |ys| && StringUtils.IndentAll(ys, -1, u) == zs
    ensures forall i :: 0 <= i < |ys| ==> ys[i] == u + zs[i] && |zs[i]| == |ys[i]| - |u| && NoBreaks(zs[i])
  {
    zs := seq(|ys|, i requires 0 <= i < |ys| => ys[i][|u|..]);
    RepeatOne(u);
    forall i | 0 <= i < |ys|
      ensures StringUtils.IndentAll(ys, -1, u)[i] == zs[i] && ys[i] == u + zs[i] && |zs[i]| == |ys[i]| - |u| && NoBreaks(zs[i])
    {
      assert ys[i] == u + zs[i];
      StringUtils.DedentIndentedLine(zs[i], u);
      assert forall c :: c in zs[i] ==> c in ys[i];
    }
  }

  lemma EndsKept(ys: seq<string>, zs: seq<string>, u: string)
    requires |ys| >= 1 && |zs| == |ys| && |u| < |ys[0]| && |u| < |ys[|ys| - 1]|
    requires forall i :: 0 <= i < |ys| ==> |zs[i]| == |ys[i]| - |u|
    ensures zs[0] != [] && zs[|zs| - 1] != []
  {
  }

  /** Declarations whose lines all start with the unit, the first and the
      last with more than it, are given back by dedenting them one level and
      indenting them again. */
  lemma DeclarationsReindented(declarations: string, options: Options)
    requires IndentsLines(options) && '\r' !in declarations
    requires var ys := StringUtils.Lines(declarations); var u := IndentExpression(options);
      && (forall i :: 0 <= i < |ys| ==> |u| <= |ys[i]| && ys[i][..|u|] == u)
      && |u| < |ys[0]| && |u| < |ys[|ys| - 1]|
    ensures Indent(Indent(declarations, -1, options), 1, options) == declarations
  {
    var u := IndentExpression(options);
    UnitIsBlank(options);
    var ys := StringUtils.Lines(declarations);
    StringUtils.ReplaceAbsent(declarations, '\r', '\n');
    JoinSplit(declarations, '\n');
    ReindentJoined(ys, u);
  }

  /** Lines that all open with the unit, joined, come back from being
      dedented one level and indented again. */
  lemma ReindentJoined(ys: seq<string>, u: string)
    requires u != [] && forall i :: 0 <= i < |u| ==> u[i] == ' ' || u[i] == '\t'
    requires |ys| >= 1 && forall i :: 0 <= i < |ys| ==> |u| <= |ys[i]| && ys[i][..|u|] == u && NoBreaks(ys[i])
    requires |u| < |ys[0]| && |u| < |ys[|ys| - 1]|
    ensures StringUtils.IndentText(StringUtils.IndentText(Join(ys, '\n'), -1, u), 1, u) == Join(ys, '\n')
  {
    StringUtils.LinesOfJoin(ys);
    var zs := DedentPrefixed(ys, u);
    EndsKept(ys, zs, u);
    StringUtils.TrimTerminatedJoin(zs);
    assert StringUtils.IndentText(Join(ys, '\n'), -1, u) == Join(zs, '\n');
    assert NoBreaks(u) by {
      forall i | 0 <= i < |u| ensures u[i] != '\n' && u[i] != '\r' { }
    }
    StringUtils.IndentPositive(Join(zs, '\n'), 1, u);
    StringUtils.PrefixedAll(zs, 1, u);
    RepeatOne(u);
    assert StringUtils.IndentAll(zs, 1, u) == ys;
  }

  /** Declarations laid out one unit in, as a rendered class holds them, come
      back verbatim from between their sentinels. */
  lemma DeclarationsKept(imports: seq<ImportExpression.ImportExpr>, importText: string, name: string,
                         ms: seq<CM.Member>, declarations: string, options: Options)
    requires IndentsLines(options) && SentinelFree(imports, importText, name, ms, options)
    requires !Contains(declarations, DeclarationsEnd) && '\r' !in declarations
    requires var ys := StringUtils.Lines(declarations); var u := IndentExpression(options);
      && (forall i :: 0 <= i < |ys| ==> |u| <= |ys[i]| && ys[i][..|u|] == u)
      && |u| < |ys[0]| && |u| < |ys[|ys| - 1]|
    ensures StringUtils.TextBetween(ClassText(imports, importText, name, ms, declarations, options),
                                    DeclarationsStart, DeclarationsEnd)
         == Some("\n" + declarations + "\n" + IndentExpression(options))
  {
    DeclarationsRegion(imports, importText, name, ms, declarations, options);
    DeclarationsReindented(declarations, options);
  }

  // ---------------------------------------------------------------------------
  // The class text, line by line

  /** Single-line member declarations make single member lines. */
  lemma {:induction false} MemberLinesSingle(ms: seq<CM.Member>, options: Options)
    requires forall i :: 0 <= i < |ms| ==> NoBreaks(CM.ToTypeScript(ms[i], options))
    ensures forall i :: 0 <= i < |MemberLines(ms, options)| ==> NoBreaks(MemberLines(ms, options)[i])
    decreases |ms|
  {
    if ms != [] {
      var init := ms[..|ms| - 1];
      assert forall i :: 0 <= i < |init| ==> init[i] == ms[i];
      MemberLinesSingle(init, options);
      var prev := MemberLines(init, options);
      if !ms[|ms| - 1].noConvert {
        var line := CM.ToTypeScript(ms[|ms| - 1], options) + ";";
        NoBreaksAppend(CM.ToTypeScript(ms[|ms| - 1], options), ";");
        assert MemberLines(ms, options) == prev + [line];
      } else {
        assert MemberLines(ms, options) == prev;
      }
    }
  }

  lemma CtorHeaderSingleLine(name: string)
    requires NoBreaks(name)
    ensures NoBreaks("constructor(init?: Partial<" + name + ">) {")
  {
  }

  lemma ClassHeaderSingleLine(name: string)
    requires NoBreaks(name)
    ensures NoBreaks("export default class " + name + " {")
  {
  }

  lemma PrefaceNested(t: string, h: string, name: string, body: string)
    requires h == "constructor(init?: Partial<" + name + ">) {"
    ensures t + "\n" + "constructor(init?: Partial<" + name + ">) {\n" + body + "\n" + "}\n"
         == t + ("" + "\n" + (h + "\n" + (body + "\n" + ("}" + "\n" + ""))))
  {
  }

  /** Lines of a line feed between a blank line and a text, or a single line
      and a text. */
  lemma LinesAfterLine(x: string, rest: string)
    requires NoBreaks(x)
    ensures StringUtils.Lines(x + "\n" + rest) == [x] + StringUtils.Lines(rest)
  {
    StringUtils.LinesAppend(x, rest);
    StringUtils.LinesSingle(x);
  }

  /** Above the sentinels the class body is the member lines, a blank line,
      the constructor header, the constructor lines one unit in, the closing
      brace and a blank line. */
  lemma PrefaceLines(name: string, ms: seq<CM.Member>, options: Options)
    requires IndentsLines(options) && NoBreaks(name)
    requires forall i :: 0 <= i < |ms| ==> SingleLineMember(ms[i])
    requires forall i :: 0 <= i < |ms| ==> NoBreaks(CM.ToTypeScript(ms[i], options))
    ensures var xs := ConstructorLines(ms);
      StringUtils.Lines(ClassPreface(name, ms, options))
        == MemberLines(ms, options) + ["", "constructor(init?: Partial<" + name + ">) {"]
           + seq(|xs|, i requires 0 <= i < |xs| => IndentExpression(options) + xs[i]) + ["}", ""]
  {
    var u := IndentExpression(options);
    var xs := ConstructorLines(ms);
    var ys := seq(|xs|, i requires 0 <= i < |xs| => u + xs[i]);
    var h := "constructor(init?: Partial<" + name + ">) {";
    var body := Indent(Trim(ConstructorContent(ms), '\n'), 1, options);
    ConstructorIndented(ms, options);
    assert body == Join(ys, '\n');
    ConstructorTrimmed(ms);
    UnitIsBlank(options);
    forall i | 0 <= i < |ys| ensures '\n' !in ys[i] && '\r' !in ys[i] {
      NoBreaksAppend(u, xs[i]);
    }
    StringUtils.LinesOfJoin(ys);
    MemberLinesSingle(ms, options);
    CtorHeaderSingleLine(name);
    var t := Terminated(MemberLines(ms, options));
    PrefaceNested(t, h, name, body);
    StringUtils.LinesTerminated(MemberLines(ms, options), "" + "\n" + (h + "\n" + (body + "\n" + ("}" + "\n" + ""))));
    LinesAfterLine("", h + "\n" + (body + "\n" + ("}" + "\n" + "")));
    LinesAfterLine(h, body + "\n" + ("}" + "\n" + ""));
    StringUtils.LinesAppend(body, "}" + "\n" + "");
    LinesAfterLine("}", "");
    StringUtils.LinesSingle("");
    LinesRegrouped(MemberLines(ms, options), h, ys);
  }

  lemma LinesRegrouped(ml: seq<string>, h: string, ys: seq<string>)
    ensures ml + ([""] + ([h] + (ys + (["}"] + [""])))) == ml + ["", h] + ys + ["}", ""]
  {
  }

  /** The class body is the lines above the sentinels, the opening sentinel,
      the lines of the dedented declarations and the closing sentinel. */
  lemma ClassBodyLines(name: string, ms: seq<CM.Member>, declarations: string, options: Options)
    ensures StringUtils.Lines(ClassBody(name, ms, declarations, options))
         == StringUtils.Lines(ClassPreface(name, ms, options)) + [DeclarationsStart]
            + StringUtils.Lines(Indent(declarations, -1, options)) + [DeclarationsEnd]
  {
    var d := Indent(declarations, -1, options);
    ClassBodySplit(name, ms, declarations, options);
    StartSentinelSingle();
    EndSentinelSingle();
    StringUtils.LinesAppend(ClassPreface(name, ms, options), DeclarationsStart + "\n" + (d + "\n" + DeclarationsEnd));
    LinesAfterLine(DeclarationsStart, d + "\n" + DeclarationsEnd);
    StringUtils.LinesAppend(d, DeclarationsEnd);
    StringUtils.LinesSingle(DeclarationsEnd);
    BodyLinesRegrouped(StringUtils.Lines(ClassPreface(name, ms, options)), DeclarationsStart,
      StringUtils.Lines(d), DeclarationsEnd);
  }

  lemma BodyLinesRegrouped(p: seq<string>, s: string, d: seq<string>, e: string)
    ensures p + ([s] + (d + [e])) == p + [s] + d + [e]
  {
  }

  /** An import of single-line names renders as a single line. */
  lemma ImportLineSingle(imp: ImportExpression.ImportExpr, options: Options)
    requires NoBreaks(imp.name) && NoBreaks(imp.target)
    ensures NoBreaks(ImportExpression.ToTypeScript(imp, options))
  {
    var k := ImportExpression.Keyword(options);
    var q := ImportExpression.Quote(options);
    assert NoBreaks(k);
    assert NoBreaks(q) by {
      assert q == [q[0]];
    }
    NoBreaksAppend(k, imp.name);
    NoBreaksAppend(k + imp.name, " from ");
    NoBreaksAppend(k + imp.name + " from ", q);
    NoBreaksAppend(k + imp.name + " from " + q, imp.target);
    NoBreaksAppend(k + imp.name + " from " + q + imp.target, q);
  }

  lemma TextNested(t: string, st: string, it: string, ie: string, name: string, h: string, b: string)
    requires h == "export default class " + name + " {"
    ensures t + st + "\n" + it + "\n" + ie + "\n\n" + "export default class " + name + " {\n\n" + b + "\n" + "}"
         == t + (st + "\n" + (it + "\n" + (ie + "\n" + ("" + "\n" + (h + "\n" + ("" + "\n" + (b + "\n" + "}")))))))
  {
  }

  lemma TextLinesRegrouped(il: seq<string>, st: string, it: seq<string>, ie: string, h: string, b: seq<string>)
    ensures il + ([st] + (it + ([ie] + ([""] + ([h] + ([""] + (b + ["}"])))))))
         == il + [st] + it + [ie, "", h, ""] + b + ["}"]
  {
  }

  /** With single-line names, the class text is the import lines, the import
      sentinels around the lines of the preserved imports, a blank line, the
      class header, a blank line, the body lines one unit in and the closing
      brace. */
  lemma ClassTextLines(imports: seq<ImportExpression.ImportExpr>, importText: string, name: string,
                       ms: seq<CM.Member>, declarations: string, options: Options)
    requires IndentsLines(options) && NoBreaks(name)
    requires forall i :: 0 <= i < |imports| ==> NoBreaks(imports[i].name) && NoBreaks(imports[i].target)
    ensures var bl := StringUtils.Lines(ClassBody(name, ms, declarations, options));
      StringUtils.Lines(ClassText(imports, importText, name, ms, declarations, options))
        == ImportLines(imports, options) + [ImportsStart] + StringUtils.Lines(importText)
           + [ImportsEnd, "", "export default class " + name + " {", ""]
           + seq(|bl|, i requires 0 <= i < |bl| => IndentExpression(options) + bl[i]) + ["}"]
  {
    var u := IndentExpression(options);
    var body := ClassBody(name, ms, declarations, options);
    var bl := StringUtils.Lines(body);
    var b := Indent(body, 1, options);
    var h := "export default class " + name + " {";
    var il := ImportLines(imports, options);
    forall i | 0 <= i < |il| ensures NoBreaks(il[i]) {
      ImportLineSingle(imports[i], options);
    }
    ImportsStartSingle();
    ImportsEndSingle();
    ClassHeaderSingleLine(name);
    UnitIsBlank(options);
    StringUtils.IndentPositive(body, 1, u);
    RepeatOne(u);
    var bs := seq(|bl|, i requires 0 <= i < |bl| => u + bl[i]);
    assert StringUtils.Lines(b) == bs;
    var t := Terminated(il);
    TextNested(t, ImportsStart, importText, ImportsEnd, name, h, b);
    var r6 := b + "\n" + "}";
    var r5 := "" + "\n" + r6;
    var r4 := h + "\n" + r5;
    var r3 := "" + "\n" + r4;
    var r2 := ImportsEnd + "\n" + r3;
    var r1 := importText + "\n" + r2;
    StringUtils.LinesTerminated(il, ImportsStart + "\n" + r1);
    LinesAfterLine(ImportsStart, r1);
    StringUtils.LinesAppend(importText, r2);
    LinesAfterLine(ImportsEnd, r3);
    LinesAfterLine("", r4);
    LinesAfterLine(h, r5);
    LinesAfterLine("", r6);
    StringUtils.LinesAppend(b, "}");
    StringUtils.LinesSingle("}");
    TextLinesRegrouped(il, ImportsStart, StringUtils.Lines(importText), ImportsEnd, h, bs);
  }
}
