/** `ServiceMethodExpression`: a static enum method marked with
    `#[ExportToTypescript]`, executed once at generation time and exported as
    a TypeScript function returning the enum cases it returned. */
module ServiceMethodExpression {
  import opened Wrappers
  import opened Strings
  import StringUtils
  import opened ExpressionStringGenerationOptions
  import opened Expression

  // ---------------------------------------------------------------------------
  // The reflected method, as data

  /** One element of what the method returned: an enum case of some enum
      class, or a value of another type (`gettype` gives its name). */
  datatype EnumValue = Other(typeName: string) | Case(enumClass: string, caseName: string)

  /** An array element with the text of its array key. */
  datatype Item = Item(index: string, value: EnumValue)

  /** The outcome of invoking the method: it threw, it returned something
      that is not an array, or it returned an array. */
  datatype MethodResult = Threw(message: string) | NonArray(typeName: string) | Arr(items: seq<Item>)

  /** An `ExportToTypescript` attribute with its optional export name. */
  datatype ExportAttribute = ExportAttribute(name: Option<string>)

  /** What reflection tells about a method: its name, its declaring class,
      its `ExportToTypescript` attributes, and what invoking it gives. */
  datatype ReflectedMethod = ReflectedMethod(
    name: string,
    declaringClass: string,
    exportAttributes: seq<ExportAttribute>,
    result: MethodResult)

  datatype ServiceMethod = ServiceMethod(
    methodName: string,
    exportName: string,
    enumName: string,
    returnBody: seq<string>)

  // ---------------------------------------------------------------------------
  // Error messages

  function Marked(className: string, methodName: string): string {
    className + "::" + methodName + "() marked with #[ExportToTypescript]"
  }

  function ExecutionFailedMessage(className: string, methodName: string, message: string): string {
    "Failed to execute method " + Marked(className, methodName) + ": " + message
  }

  function NotArrayMessage(className: string, methodName: string, typeName: string): string {
    "Method " + Marked(className, methodName) + " must return an array, got " + typeName
  }

  function NotEnumMessage(className: string, methodName: string, typeName: string, index: string): string {
    "Method " + Marked(className, methodName) + " must return an array of enum cases only. "
      + "Found " + typeName + " at index " + index + ". Expected enum cases like self::CASE_NAME."
  }

  function WrongEnumMessage(className: string, methodName: string, actual: string, caseName: string, index: string): string {
    "Method " + Marked(className, methodName) + " returned enum case from wrong enum class. "
      + "Found " + actual + "::" + caseName + " at index " + index + ", expected cases from " + className + "."
  }

  /** The error for an element that is not a case of `className`. */
  function ItemError(item: Item, className: string, methodName: string): string {
    match item.value
    case Other(typeName) => NotEnumMessage(className, methodName, typeName, item.index)
    case Case(actual, caseName) => WrongEnumMessage(className, methodName, actual, caseName, item.index)
  }

  // ---------------------------------------------------------------------------
  // Validation

  predicate IsOwnCase(value: EnumValue, className: string) {
    value.Case? && value.enumClass == className
  }

  predicate AllOwnCases(items: seq<Item>, className: string) {
    forall i :: 0 <= i < |items| ==> IsOwnCase(items[i].value, className)
  }

  /** The position of the first element that is not a case of `className`,
      or the number of elements when all are. */
  function FirstInvalid(items: seq<Item>, className: string): (k: nat)
    ensures k <= |items|
    ensures forall j :: 0 <= j < k ==> IsOwnCase(items[j].value, className)
    ensures k < |items| ==> !IsOwnCase(items[k].value, className)
  {
    if items == [] then 0
    else if !IsOwnCase(items[0].value, className) then 0
    else
      var k := 1 + FirstInvalid(items[1..], className);
      assert forall j :: 1 <= j < |items| ==> items[j] == items[1..][j - 1];
      k
  }

  /** `Enum.CASE` for every element, in array order. */
  function CaseReferences(items: seq<Item>, enumName: string): (r: seq<string>)
    requires forall i :: 0 <= i < |items| ==> items[i].value.Case?
    ensures |r| == |items|
  {
    seq(|items|, i requires 0 <= i < |items| => enumName + "." + items[i].value.caseName)
  }

  /** What `executeMethodAndConvertToTypeScript` gives for a method result. */
  function Converted(className: string, methodName: string, result: MethodResult, enumName: string)
    : (r: Result<seq<string>>)
    ensures result.Threw? ==> r == Failure(ExecutionFailedMessage(className, methodName, result.message))
    ensures result.NonArray? ==> r == Failure(NotArrayMessage(className, methodName, result.typeName))
    ensures result.Arr? ==>
      (r.Success? <==> AllOwnCases(result.items, className))
    ensures result.Arr? && r.Success? ==>
      |r.value| == |result.items|
      && forall i :: 0 <= i < |result.items| ==>
           r.value[i] == enumName + "." + result.items[i].value.caseName
    ensures result.Arr? && r.Failure? ==>
      var k := FirstInvalid(result.items, className);
      k < |result.items| && r.message == ItemError(result.items[k], className, methodName)
  {
    match result
    case Threw(message) => Failure(ExecutionFailedMessage(className, methodName, message))
    case NonArray(typeName) => Failure(NotArrayMessage(className, methodName, typeName))
    case Arr(items) =>
      var k := FirstInvalid(items, className);
      if k < |items| then Failure(ItemError(items[k], className, methodName))
      else Success(CaseReferences(items, enumName))
  }

  /** `executeMethodAndConvertToTypeScript`: the validation loop, which stops
      at the first element that is not a case of the declaring class. */
  method ExecuteMethodAndConvertToTypeScript(m: ReflectedMethod, enumName: string)
    returns (r: Result<seq<string>>)
    ensures r == Converted(m.declaringClass, m.name, m.result, enumName)
  {
    var className := m.declaringClass;
    var methodName := m.name;
    if m.result.Threw? {
      return Failure(ExecutionFailedMessage(className, methodName, m.result.message));
    }
    if m.result.NonArray? {
      return Failure(NotArrayMessage(className, methodName, m.result.typeName));
    }
    var results := m.result.items;
    var tsValues: seq<string> := [];
    var i := 0;
    while i < |results|
      invariant 0 <= i <= |results|
      invariant forall j :: 0 <= j < i ==> IsOwnCase(results[j].value, className)
      invariant |tsValues| == i
      invariant forall j :: 0 <= j < i ==> tsValues[j] == enumName + "." + results[j].value.caseName
    {
      var item := results[i];
      if item.value.Other? {
        assert FirstInvalid(results, className) == i;
        return Failure(NotEnumMessage(className, methodName, item.value.typeName, item.index));
      }
      if item.value.enumClass != className {
        assert FirstInvalid(results, className) == i;
        return Failure(WrongEnumMessage(className, methodName, item.value.enumClass, item.value.caseName, item.index));
      }
      tsValues := tsValues + [enumName + "." + item.value.caseName];
      i := i + 1;
    }
    assert FirstInvalid(results, className) == |results|;
    assert tsValues == CaseReferences(results, enumName);
    return Success(tsValues);
  }

  /** What `fromReflectionMethod` gives: nothing for a method without the
      attribute, a failure when executing or validating the method fails,
      otherwise the service method. */
  function FromMethod(m: ReflectedMethod, enumName: string): (r: Result<Option<ServiceMethod>>)
    ensures m.exportAttributes == [] ==> r == Success(None)
    ensures m.exportAttributes != [] ==>
      var converted := Converted(m.declaringClass, m.name, m.result, enumName);
      (r.Failure? <==> converted.Failure?)
      && (r.Failure? ==> r.message == converted.message)
      && (r.Success? ==>
            r.value.Some?
            && r.value.value.methodName == m.name
            && r.value.value.enumName == enumName
            && r.value.value.exportName
               == (if m.exportAttributes[0].name.Some? then m.exportAttributes[0].name.value else m.name)
            && r.value.value.returnBody == converted.value)
  {
    if m.exportAttributes == [] then Success(None)
    else
      var attribute := m.exportAttributes[0];
      var exportName := if attribute.name.Some? then attribute.name.value else m.name;
      match Converted(m.declaringClass, m.name, m.result, enumName)
      case Failure(message) => Failure(message)
      case Success(body) => Success(Some(ServiceMethod(m.name, exportName, enumName, body)))
  }

  /** `fromReflectionMethod`. */
  method FromReflectionMethod(m: ReflectedMethod, enumName: string) returns (r: Result<Option<ServiceMethod>>)
    ensures r == FromMethod(m, enumName)
  {
    if m.exportAttributes == [] {
      return Success(None);
    }
    var methodName := m.name;
    var attribute := m.exportAttributes[0];
    var exportName := if attribute.name.Some? then attribute.name.value else methodName;
    var returnBody := ExecuteMethodAndConvertToTypeScript(m, enumName);
    if returnBody.Failure? {
      return Failure(returnBody.message);
    }
    return Success(Some(ServiceMethod(methodName, exportName, enumName, returnBody.value)));
  }

  // ---------------------------------------------------------------------------
  // Rendering

  /** What the loop of `formatArrayBody` accumulates: every value indented
      one level, followed by a comma and a line feed. */
  function ArrayItems(values: seq<string>, options: Options): string
    decreases |values|
  {
    if values == [] then ""
    else ArrayItems(values[..|values| - 1], options) + Indent(values[|values| - 1], 1, options) + ",\n"
  }

  /** The array literal: `[`, every value indented with a trailing comma,
      then `]`. */
  function ArrayBody(values: seq<string>, options: Options): string {
    "[\n" + ArrayItems(values, options) + "]"
  }

  /** The exported arrow function. */
  function MethodText(sm: ServiceMethod, options: Options): (r: string)
    ensures |r| >= |sm.exportName| + 12
    ensures r[..|sm.exportName| + 10] == sm.exportName + ": () => {\n"
    ensures r[|r| - 2..] == "\n}"
  {
    var head := sm.exportName + ": () => {\n";
    var body := Indent("return " + ArrayBody(sm.returnBody, options) + Semicolon(options), 1, options);
    Ends(head, body, "\n}");
    head + body + "\n}"
  }

  lemma AllItems(values: seq<string>, options: Options, i: int, content: string)
    requires i == |values| && content == "[\n" + ArrayItems(values[..i], options)
    ensures content + "]" == ArrayBody(values, options)
  {
    assert values[..i] == values;
  }

  /** `formatArrayBody`. */
  method FormatArrayBody(sm: ServiceMethod, options: Options) returns (arrayContent: string)
    ensures arrayContent == ArrayBody(sm.returnBody, options)
  {
    var values := sm.returnBody;
    arrayContent := "[\n";
    var i := 0;
    while i < |values|
      invariant 0 <= i <= |values|
      invariant arrayContent == "[\n" + ArrayItems(values[..i], options)
    {
      assert values[..i + 1][..i] == values[..i];
      var line := Indent(values[i], 1, options);
      AppendAssoc("[\n", ArrayItems(values[..i], options), line, ",\n");
      arrayContent := arrayContent + line + ",\n";
      i := i + 1;
    }
    AllItems(values, options, i, arrayContent);
    arrayContent := arrayContent + "]";
  }

  /** `toTypeScript`. */
  method ToTypeScript(sm: ServiceMethod, options: Options) returns (r: string)
    ensures r == MethodText(sm, options)
  {
    var formattedArray := FormatArrayBody(sm, options);
    var semicolon := if options.useSemicolon then ";" else "";
    r := sm.exportName + ": () => {\n"
      + Indent("return " + formattedArray + semicolon, 1, options) + "\n}";
  }

  // ---------------------------------------------------------------------------
  // Properties

  /** The values one unit in, each with a trailing comma. */
  function IndentedValues(values: seq<string>, unit: string): (r: seq<string>)
    ensures |r| == |values|
  {
    seq(|values|, i requires 0 <= i < |values| => unit + values[i] + ",")
  }

  /** With a unit that indents, single-line values are each indented by one
      unit. */
  lemma {:induction false} ArrayItemsLines(values: seq<string>, options: Options)
    requires IndentsLines(options)
    requires forall i :: 0 <= i < |values| ==> NoBreaks(values[i])
    ensures ArrayItems(values, options) == Terminated(IndentedValues(values, IndentExpression(options)))
    decreases |values|
  {
    if values != [] {
      var u := IndentExpression(options);
      var init := values[..|values| - 1];
      var last := values[|values| - 1];
      ArrayItemsLines(init, options);
      IndentSingleLine(last, 1, options);
      RepeatOne(u);
      var lines := IndentedValues(values, u);
      assert lines[..|lines| - 1] == IndentedValues(init, u);
      assert lines[|lines| - 1] == u + last + ",";
      var t := Terminated(IndentedValues(init, u));
      assert ArrayItems(values, options) == t + (u + last) + ",\n";
      assert Terminated(lines) == t + (u + last + ",") + "\n";
      CommaRegrouped(t, u + last);
    }
  }

  lemma CommaRegrouped(t: string, x: string)
    ensures t + x + ",\n" == t + (x + ",") + "\n"
  {
  }

  lemma ReturnRegrouped(items: string, semi: string)
    ensures "return " + ("[\n" + items + "]") + semi == "return [" + "\n" + items + ("]" + semi)
  {
  }

  /** The return statement, cut at its line feeds. */
  lemma ReturnStatement(values: seq<string>, options: Options)
    requires IndentsLines(options)
    requires forall i :: 0 <= i < |values| ==> NoBreaks(values[i])
    ensures "return " + ArrayBody(values, options) + Semicolon(options)
      == Join(["return ["] + IndentedValues(values, IndentExpression(options)) + ["]" + Semicolon(options)], '\n')
  {
    var valueLines := IndentedValues(values, IndentExpression(options));
    var semi := Semicolon(options);
    ArrayItemsLines(values, options);
    ReturnRegrouped(ArrayItems(values, options), semi);
    TerminatedAround("return [", valueLines, "]" + semi);
  }

  /** The lines of the indented return statement: `return [` one unit in,
      every value two units in with a trailing comma, and `]` with the
      optional semicolon one unit in. */
  function ReturnLines(values: seq<string>, unit: string, semi: string): (r: seq<string>)
    ensures |r| == |values| + 2
  {
    [unit + "return ["]
      + seq(|values|, i requires 0 <= i < |values| => unit + unit + values[i] + ",")
      + [unit + "]" + semi]
  }

  lemma ReturnLinesNoBreaks(values: seq<string>, unit: string, semi: string)
    requires NoBreaks(unit) && NoBreaks(semi)
    requires forall i :: 0 <= i < |values| ==> NoBreaks(values[i])
    ensures forall i :: 0 <= i < |values| + 2 ==> NoBreaks(ReturnLines(values, unit, semi)[i])
  {
    var r := ReturnLines(values, unit, semi);
    forall i | 0 <= i < |values| + 2 ensures NoBreaks(r[i]) {
      if 1 <= i <= |values| {
        assert r[i] == unit + unit + values[i - 1] + ",";
      }
    }
  }

  /** The return statement indented one level. */
  lemma IndentedReturn(values: seq<string>, options: Options)
    requires IndentsLines(options)
    requires forall i :: 0 <= i < |values| ==> NoBreaks(values[i])
    ensures Indent("return " + ArrayBody(values, options) + Semicolon(options), 1, options)
      == Join(ReturnLines(values, IndentExpression(options), Semicolon(options)), '\n')
  {
    var u := IndentExpression(options);
    var semi := Semicolon(options);
    UnitIsBlank(options);
    RepeatOne(u);
    var inner := ["return ["] + IndentedValues(values, u) + ["]" + semi];
    ReturnStatement(values, options);
    InnerLines(values, u, semi);
    IndentJoined(inner, 1, options);
  }

  /** The statement's lines before indenting, and one unit in. */
  lemma InnerLines(values: seq<string>, unit: string, semi: string)
    requires NoBreaks(unit) && NoBreaks(semi)
    requires forall i :: 0 <= i < |values| ==> NoBreaks(values[i])
    ensures var inner := ["return ["] + IndentedValues(values, unit) + ["]" + semi];
      (forall i :: 0 <= i < |inner| ==> '\n' !in inner[i] && '\r' !in inner[i])
      && seq(|inner|, i requires 0 <= i < |inner| => Repeat(unit, 1) + inner[i])
         == ReturnLines(values, unit, semi)
  {
    RepeatOne(unit);
    var inner := ["return ["] + IndentedValues(values, unit) + ["]" + semi];
    forall i | 0 <= i < |inner| ensures NoBreaks(inner[i]) {
      if 1 <= i < |inner| - 1 {
        assert inner[i] == unit + values[i - 1] + ",";
      }
    }
    var outer := seq(|inner|, i requires 0 <= i < |inner| => Repeat(unit, 1) + inner[i]);
    var r := ReturnLines(values, unit, semi);
    forall i | 0 <= i < |inner| ensures outer[i] == r[i] {
      if 1 <= i < |inner| - 1 {
        assert inner[i] == unit + values[i - 1] + ",";
      }
    }
  }

  /** The lines of the exported function: its header, the lines of the
      return statement and the closing brace. */
  function MethodLines(sm: ServiceMethod, options: Options): (r: seq<string>)
    ensures |r| == |sm.returnBody| + 4
  {
    [sm.exportName + ": () => {"]
      + ReturnLines(sm.returnBody, IndentExpression(options), Semicolon(options))
      + ["}"]
  }

  /** With a unit that indents and single-line values, the text of the
      function is its lines joined by line feeds. */
  lemma MethodTextJoined(sm: ServiceMethod, options: Options)
    requires IndentsLines(options)
    requires forall i :: 0 <= i < |sm.returnBody| ==> NoBreaks(sm.returnBody[i])
    ensures MethodText(sm, options) == Join(MethodLines(sm, options), '\n')
  {
    var returnLines := ReturnLines(sm.returnBody, IndentExpression(options), Semicolon(options));
    var a := sm.exportName + ": () => {";
    var body := Indent("return " + ArrayBody(sm.returnBody, options) + Semicolon(options), 1, options);
    IndentedReturn(sm.returnBody, options);
    JoinAround(a, returnLines, "}", '\n');
    HeadRegrouped(sm.exportName);
    CloseRegrouped(a + "\n" + body);
    assert MethodText(sm, options) == a + "\n" + body + "\n" + "}";
  }

  lemma HeadRegrouped(name: string)
    ensures name + ": () => {\n" == name + ": () => {" + "\n"
  {
  }

  lemma CloseRegrouped(t: string)
    ensures t + "\n}" == t + "\n" + "}"
  {
  }

  /** Every line of the function is a single non-empty line. */
  lemma MethodLinesSingle(sm: ServiceMethod, options: Options)
    requires IndentsLines(options)
    requires NoBreaks(sm.exportName)
    requires forall i :: 0 <= i < |sm.returnBody| ==> NoBreaks(sm.returnBody[i])
    ensures forall i :: 0 <= i < |MethodLines(sm, options)| ==>
      NoBreaks(MethodLines(sm, options)[i]) && MethodLines(sm, options)[i] != []
  {
    var u := IndentExpression(options);
    var semi := Semicolon(options);
    var returnLines := ReturnLines(sm.returnBody, u, semi);
    UnitIsBlank(options);
    ReturnLinesNoBreaks(sm.returnBody, u, semi);
    var all := MethodLines(sm, options);
    forall i | 0 <= i < |all| ensures NoBreaks(all[i]) && all[i] != [] {
      if 1 <= i < |all| - 1 {
        assert all[i] == returnLines[i - 1];
        assert returnLines[i - 1][..|u|] == u;
      }
    }
  }

  /** Cut at its line feeds, the function's text gives back its lines. */
  lemma MethodTextLines(sm: ServiceMethod, options: Options)
    requires IndentsLines(options)
    requires NoBreaks(sm.exportName)
    requires forall i :: 0 <= i < |sm.returnBody| ==> NoBreaks(sm.returnBody[i])
    ensures StringUtils.Lines(MethodText(sm, options))
      == [sm.exportName + ": () => {"]
         + ReturnLines(sm.returnBody, IndentExpression(options), Semicolon(options))
         + ["}"]
  {
    MethodTextJoined(sm, options);
    MethodLinesSingle(sm, options);
    StringUtils.LinesOfJoin(MethodLines(sm, options));
  }
}
