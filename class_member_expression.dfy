/** `ClassMemberExpression`: one property of a generated class (or one case
    of a generated enum). */
module ClassMemberExpression {
  import opened Wrappers
  import opened Strings
  import opened ExpressionStringGenerationOptions
  import TypeExpression

  /** `accessModifiers` and `initialValue` are `None` where PHP leaves the
      property `null`; `typ` is `None` for an untyped member. */
  datatype Member = Member(
    name: string,
    accessModifiers: Option<string>,
    initialValue: Option<string>,
    typ: Option<TypeExpression.TypeExpr>,
    noConvert: bool)

  /** A freshly constructed member: nothing set, `no_convert` false. */
  function NewMember(): (m: Member)
    ensures !m.noConvert && m.accessModifiers.None? && m.initialValue.None? && m.typ.None?
  {
    Member("", None, None, None, false)
  }

  predicate IsConst(m: Member) {
    m.accessModifiers == Some("const")
  }

  /** PHP's loose `$initial_value != null`: a value that is set and not empty. */
  predicate HasInitialValue(m: Member) {
    m.initialValue.Some? && m.initialValue.value != ""
  }

  function TypeText(m: Member, options: Options): string {
    if m.typ.Some? then TypeExpression.ToTypeScript(m.typ.value, options) else "any"
  }

  /** `toTypeScript`: `public `, `static readonly ` for a constant, the name
      marked optional, the type (`any` without one), and the initial value. */
  function ToTypeScript(m: Member, options: Options): (r: string)
    ensures |r| >= 7 && r[..7] == "public "
  {
    "public " + (if IsConst(m) then "static readonly " else "") + m.name + "?: " + TypeText(m, options)
      + (if HasInitialValue(m) then " = " + m.initialValue.value else "")
  }

  // ---------------------------------------------------------------------------
  // Reading a rendered member line back

  datatype MemberLine = MemberLine(isStatic: bool, name: string, typeText: string, initializer: Option<string>)

  predicate HasPrefix(s: string, p: string) {
    |p| <= |s| && s[..|p|] == p
  }

  /** Splits `NAME?: TYPE[ = VALUE]` at the first "?: " and the first " = " after it. */
  function ParseDeclaration(decl: string): Option<(string, string, Option<string>)> {
    match FindFrom(decl, "?: ", 0)
    case None => None
    case Some(k) =>
      var after := decl[k + 3..];
      match FindFrom(after, " = ", 0)
      case None => Some((decl[..k], after, None))
      case Some(e) => Some((decl[..k], after[..e], Some(after[e + 3..])))
  }

  /** Splits `public [static readonly ]NAME?: TYPE[ = VALUE]` into its parts. */
  function ParseMemberLine(line: string): Option<MemberLine> {
    if !HasPrefix(line, "public ") then None
    else
      var rest := line[7..];
      var isStatic := HasPrefix(rest, "static readonly ");
      match ParseDeclaration(if isStatic then rest[16..] else rest)
      case None => None
      case Some(d) => Some(MemberLine(isStatic, d.0, d.1, d.2))
  }

  /** A name and a type text without spaces are cut apart again. */
  lemma ParseDeclarationOf(name: string, t: string, value: Option<string>)
    requires ' ' !in name && ' ' !in t
    ensures ParseDeclaration(name + "?: " + t + (if value.Some? then " = " + value.value else ""))
      == Some((name, t, value))
  {
    var tail := if value.Some? then " = " + value.value else "";
    var after := t + tail;
    var decl := name + "?: " + t + tail;
    assert decl == name + "?: " + after;
    MarkAfterName(name, after);
    var n := |name|;
    assert decl[..n] == name;
    assert decl[n + 3..] == after;
    ValueAfterType(t, value);
    if value.Some? {
      assert after[..|t|] == t;
      assert after[|t| + 3..] == value.value;
      assert ParseDeclaration(decl) == Some((decl[..n], after[..|t|], Some(after[|t| + 3..])));
    } else {
      assert after == t;
      assert ParseDeclaration(decl) == Some((decl[..n], after, None));
    }
  }

  /** "?: " first occurs right after a name without spaces: an earlier start
      would put its space inside the name. */
  lemma MarkAfterName(name: string, rest: string)
    requires ' ' !in name
    ensures FindFrom(name + "?: " + rest, "?: ", 0) == Some(|name|)
  {
    var decl := name + "?: " + rest;
    var n := |name|;
    forall m: nat | 2 <= m < n + 2 && m < |decl| ensures decl[m] != "?: "[2] {
      if m < n {
        assert decl[m] == name[m] && name[m] in name;
      }
    }
    NoOccurrenceByChar(decl, "?: ", 2, 0, n);
    assert decl[n..n + 3] == "?: ";
    FindFromFirst(decl, "?: ", 0, n);
  }

  /** " = " first occurs right after a type text without spaces, if at all. */
  lemma ValueAfterType(t: string, value: Option<string>)
    requires ' ' !in t
    ensures var after := t + (if value.Some? then " = " + value.value else "");
      FindFrom(after, " = ", 0) == (if value.Some? then Some(|t|) else None)
  {
    var after := t + (if value.Some? then " = " + value.value else "");
    forall j: nat | 0 <= j < |t| && j < |after| ensures after[j] != " = "[0] {
      assert after[j] == t[j] && t[j] in t;
    }
    NoOccurrenceByChar(after, " = ", 0, 0, |t|);
    if value.Some? {
      assert after[|t|..|t| + 3] == " = ";
      FindFromFirst(after, " = ", 0, |t|);
    } else {
      assert after == t;
      assert FindFrom(after, " = ", 0).None?;
    }
  }

  /** A declaration starting with a space-free name never starts with "static readonly ". */
  lemma NotStatic(name: string, rest: string)
    requires ' ' !in name
    ensures !HasPrefix(name + "?: " + rest, "static readonly ")
  {
    var d := name + "?: " + rest;
    if |d| >= 16 {
      if |name| > 6 {
        assert d[6] == name[6] && name[6] in name;
      } else {
        assert d[|name|] == '?';
        assert "static readonly "[|name|] != '?';
      }
    }
  }

  function LineText(isStatic: bool, name: string, t: string, value: Option<string>): string {
    "public " + (if isStatic then "static readonly " else "") + name + "?: " + t
      + (if value.Some? then " = " + value.value else "")
  }

  lemma ParseLineText(isStatic: bool, name: string, t: string, value: Option<string>)
    requires ' ' !in name && ' ' !in t
    ensures ParseMemberLine(LineText(isStatic, name, t, value)) == Some(MemberLine(isStatic, name, t, value))
  {
    if isStatic {
      StaticLine(name, t, value);
    } else {
      PlainLine(name, t, value);
    }
    ParseDeclarationOf(name, t, value);
  }

  /** A constant's line is `public `, `static readonly ` and the declaration. */
  lemma StaticLine(name: string, t: string, value: Option<string>)
    ensures var decl := name + "?: " + t + (if value.Some? then " = " + value.value else "");
      var line := LineText(true, name, t, value);
      HasPrefix(line, "public ") && HasPrefix(line[7..], "static readonly ") && line[7..][16..] == decl
  {
    var decl := name + "?: " + t + (if value.Some? then " = " + value.value else "");
    assert LineText(true, name, t, value) == "public " + ("static readonly " + decl);
  }

  /** Any other line is `public ` and the declaration, which a space-free
      name keeps from looking like `static readonly `. */
  lemma PlainLine(name: string, t: string, value: Option<string>)
    requires ' ' !in name
    ensures var decl := name + "?: " + t + (if value.Some? then " = " + value.value else "");
      var line := LineText(false, name, t, value);
      HasPrefix(line, "public ") && !HasPrefix(line[7..], "static readonly ") && line[7..] == decl
  {
    var tail := t + (if value.Some? then " = " + value.value else "");
    var decl := name + "?: " + t + (if value.Some? then " = " + value.value else "");
    assert LineText(false, name, t, value) == "public " + decl;
    assert decl == name + "?: " + tail;
    NotStatic(name, tail);
  }

  /** Every rendered line reads back as what it was rendered from, when the
      name and the type text hold no space: whether the member is a constant,
      its name, its type and its initial value exactly when it is loosely
      non-null. */
  lemma ParseRendered(m: Member, options: Options)
    requires ' ' !in m.name && ' ' !in TypeText(m, options)
    ensures ParseMemberLine(ToTypeScript(m, options))
      == Some(MemberLine(IsConst(m), m.name, TypeText(m, options),
                         if HasInitialValue(m) then Some(m.initialValue.value) else None))
  {
    var value := if HasInitialValue(m) then Some(m.initialValue.value) else None;
    assert ToTypeScript(m, options) == LineText(IsConst(m), m.name, TypeText(m, options), value);
    ParseLineText(IsConst(m), m.name, TypeText(m, options), value);
  }

  // ---------------------------------------------------------------------------
  // tryParse

  /** `tryParse` over what its three patterns extract from one source line:
      - `constMatch`: the name and the digits of `const NAME = 123`;
      - `assignMatch`: the name and the quoted text of `$name = '...'`;
      - `accessorMatch`: the `Xyz` of `function getXyzAttribute`;
      and Laravel's `camel_case`, which is not part of this model. The
      rules are tried in that order; `None` is PHP's `false`. */
  function TryParse(
    constMatch: Option<(string, string)>,
    assignMatch: Option<(string, string)>,
    accessorMatch: Option<string>,
    camelCase: string -> string): (r: Option<Member>)
    ensures r.None? <==> constMatch.None? && assignMatch.None? && accessorMatch.None?
    ensures r.Some? && r.value.noConvert <==> constMatch.None? && assignMatch.Some?
    ensures r.Some? && IsConst(r.value) <==> constMatch.Some?
  {
    var member := NewMember();
    if constMatch.Some? then
      Some(member.(name := constMatch.value.0, initialValue := Some(constMatch.value.1),
                   accessModifiers := Some("const"), typ := Some(TypeExpression.TypeExpr("number", false))))
    else if assignMatch.Some? then
      Some(member.(name := assignMatch.value.0, initialValue := Some(assignMatch.value.1), noConvert := true))
    else if accessorMatch.Some? then
      Some(member.(name := camelCase(accessorMatch.value)))
    else None
  }

  /** A constant member renders as a static, read-only number with its digits. */
  lemma ConstRendering(name: string, digits: string, assignMatch: Option<(string, string)>,
                       accessorMatch: Option<string>, camelCase: string -> string, options: Options)
    requires digits != ""
    ensures var r := TryParse(Some((name, digits)), assignMatch, accessorMatch, camelCase);
      r.Some? && ToTypeScript(r.value, options)
        == "public static readonly " + name + "?: number = " + digits
  {
    var m := TryParse(Some((name, digits)), assignMatch, accessorMatch, camelCase).value;
    assert m == Member(name, Some("const"), Some(digits), Some(TypeExpression.TypeExpr("number", false)), false);
    assert TypeText(m, options) == "number";
  }

  /** An accessor member has no type and no value, so it renders as `any`. */
  lemma AccessorRendering(suffix: string, camelCase: string -> string, options: Options)
    ensures var r := TryParse(None, None, Some(suffix), camelCase);
      r.Some? && ToTypeScript(r.value, options) == "public " + camelCase(suffix) + "?: any"
  {
  }

  /** A string-assigned member keeps its text as initial value. */
  lemma AssignedValue(name: string, text: string, accessorMatch: Option<string>, camelCase: string -> string)
    ensures var r := TryParse(None, Some((name, text)), accessorMatch, camelCase);
      r.Some? && r.value.name == name && r.value.initialValue == Some(text) && r.value.typ.None?
  {
  }
}
