/** `EnumExpression`: a PHP enum rendered as a TypeScript enum, together with
    the service object that exports its `#[ExportToTypescript]` methods.
    The PHP class extends `ClassExpression`; here the enum holds the class
    part it inherits as `base`, and adds the service methods. */
module EnumExpression {
  import opened Wrappers
  import opened Strings
  import StringUtils
  import opened ExpressionStringGenerationOptions
  import opened Expression
  import opened OrderedMap
  import CM = ClassMemberExpression
  import CE = ClassExpression
  import SM = ServiceMethodExpression

  /** PHP truthiness of a matched name: no match, `""` and `"0"` are falsy. */
  predicate Truthy(matched: Option<string>) {
    matched.Some? && matched.value != "" && matched.value != "0"
  }

  // ---------------------------------------------------------------------------
  // Collecting what reflection found

  /** The values present, in order: what a loop `if ($x) { $a[] = $x; }` keeps. */
  function Present<T>(xs: seq<Option<T>>): (r: seq<T>)
    ensures |r| <= |xs|
    decreases |xs|
  {
    if xs == [] then []
    else
      var init := Present(xs[..|xs| - 1]);
      match xs[|xs| - 1]
      case None => init
      case Some(x) => init + [x]
  }

  lemma {:induction false} PresentMembers<T>(xs: seq<Option<T>>, x: T)
    ensures x in Present(xs) <==> Some(x) in xs
    decreases |xs|
  {
    if xs != [] {
      var init := xs[..|xs| - 1];
      PresentMembers(init, x);
      assert xs == init + [xs[|xs| - 1]];
    }
  }

  /** One more optional value. */
  lemma PresentSnoc<T>(xs: seq<Option<T>>, o: Option<T>)
    ensures Present(xs + [o]) == Present(xs) + (if o.Some? then [o.value] else [])
  {
    assert (xs + [o])[..|xs|] == xs;
  }

  /** Keeping the present values of a concatenation keeps them in order. */
  lemma {:induction false} PresentAppend<T>(a: seq<Option<T>>, b: seq<Option<T>>)
    ensures Present(a + b) == Present(a) + Present(b)
    decreases |b|
  {
    if b == [] {
      assert a + b == a;
    } else {
      var init := b[..|b| - 1];
      PresentAppend(a, init);
      assert (a + b)[..|a + b| - 1] == a + init;
      assert (a + b)[|a + b| - 1] == b[|b| - 1];
    }
  }

  /** `processClassMembers` over the cases `fromCase` produced (`None` where
      it gave nothing): every present case keyed by its name, starting from an
      empty array. */
  function CaseMembers(cases: seq<Option<CM.Member>>): seq<Entry<CM.Member>> {
    PutAll(Present(cases), CE.MemberName)
  }

  /** `hasMember(n)` after collecting the cases holds exactly when some case
      is named `n`, and the member found is the last case of that name. */
  lemma CaseMemberGet(cases: seq<Option<CM.Member>>, n: string)
    ensures Get(CaseMembers(cases), n).Some?
      <==> exists i :: 0 <= i < |cases| && cases[i].Some? && cases[i].value.name == n
    ensures Get(CaseMembers(cases), n) == LastWithKey(Present(cases), CE.MemberName, n)
  {
    PutAllGet(Present(cases), CE.MemberName, n);
    CaseNamed(cases, n);
  }

  /** Some present case is named `n` exactly when some case is. */
  lemma CaseNamed(cases: seq<Option<CM.Member>>, n: string)
    ensures (exists k :: 0 <= k < |Present(cases)| && CE.MemberName(Present(cases)[k]) == n)
      <==> exists i :: 0 <= i < |cases| && cases[i].Some? && cases[i].value.name == n
  {
    var list := Present(cases);
    if exists k :: 0 <= k < |list| && CE.MemberName(list[k]) == n {
      var k :| 0 <= k < |list| && CE.MemberName(list[k]) == n;
      assert list[k] in list;
      PresentMembers(cases, list[k]);
      var i :| 0 <= i < |cases| && cases[i] == Some(list[k]);
      assert cases[i].value.name == n;
    }
    if exists i :: 0 <= i < |cases| && cases[i].Some? && cases[i].value.name == n {
      var i :| 0 <= i < |cases| && cases[i].Some? && cases[i].value.name == n;
      PresentMembers(cases, cases[i].value);
      var k :| 0 <= k < |list| && list[k] == cases[i].value;
      assert CE.MemberName(list[k]) == n;
    }
  }

  /** What `fromReflectionMethod` contributes to the list: the service method,
      or nothing when it gave `null` or threw. */
  function Found(r: Result<Option<SM.ServiceMethod>>): Option<SM.ServiceMethod> {
    if r.Success? then r.value else None
  }

  function Results(methods: seq<SM.ReflectedMethod>, enumName: string): (r: seq<Option<SM.ServiceMethod>>)
    ensures |r| == |methods|
  {
    seq(|methods|, i requires 0 <= i < |methods| => Found(SM.FromMethod(methods[i], enumName)))
  }

  /** `processServiceMethods`: the methods walked in reflection order; the
      first one whose conversion throws ends the walk with its message,
      otherwise every non-null service method is kept. */
  function ServiceMethodsOf(methods: seq<SM.ReflectedMethod>, enumName: string): (r: Result<seq<SM.ServiceMethod>>)
    decreases |methods|
  {
    if methods == [] then Success([])
    else
      match ServiceMethodsOf(methods[..|methods| - 1], enumName)
      case Failure(message) => Failure(message)
      case Success(sms) =>
        match SM.FromMethod(methods[|methods| - 1], enumName)
        case Failure(message) => Failure(message)
        case Success(found) => Success(if found.Some? then sms + [found.value] else sms)
  }

  /** Reference: the position of the first method whose conversion fails
      (`|methods|` when none does), found by a scan from the front. */
  function FirstFailing(methods: seq<SM.ReflectedMethod>, enumName: string): (k: nat)
    ensures k <= |methods|
    decreases |methods|
  {
    if methods == [] then 0
    else if SM.FromMethod(methods[0], enumName).Failure? then 0
    else FirstFailing(methods[1..], enumName) + 1
  }

  /** Every method before the first failing position converts, and the
      method at it, if any, fails. */
  lemma {:induction false} FirstFailingSpec(methods: seq<SM.ReflectedMethod>, enumName: string)
    ensures var k := FirstFailing(methods, enumName);
      (forall j :: 0 <= j < k ==> SM.FromMethod(methods[j], enumName).Success?)
      && (k < |methods| ==> SM.FromMethod(methods[k], enumName).Failure?)
  {
    FirstFailingBefore(methods, enumName);
    FirstFailingAt(methods, enumName);
  }

  lemma {:induction false} FirstFailingBefore(methods: seq<SM.ReflectedMethod>, enumName: string)
    ensures forall j :: 0 <= j < FirstFailing(methods, enumName) ==> SM.FromMethod(methods[j], enumName).Success?
    decreases |methods|
  {
    if methods != [] && SM.FromMethod(methods[0], enumName).Success? {
      var tail := methods[1..];
      FirstFailingBefore(tail, enumName);
      forall j | 0 <= j < FirstFailing(methods, enumName) ensures SM.FromMethod(methods[j], enumName).Success? {
        if j > 0 {
          assert methods[j] == tail[j - 1];
        }
      }
    }
  }

  lemma {:induction false} FirstFailingAt(methods: seq<SM.ReflectedMethod>, enumName: string)
    ensures var k := FirstFailing(methods, enumName);
      k < |methods| ==> SM.FromMethod(methods[k], enumName).Failure?
    decreases |methods|
  {
    if methods != [] && SM.FromMethod(methods[0], enumName).Success? {
      var tail := methods[1..];
      FirstFailingAt(tail, enumName);
      var k := FirstFailing(tail, enumName);
      if k < |tail| {
        assert methods[k + 1] == tail[k];
      }
    }
  }

  /** The first failing position is the only one with its two properties. */
  lemma FirstFailingIs(methods: seq<SM.ReflectedMethod>, enumName: string, k: nat)
    requires k <= |methods|
    requires forall j :: 0 <= j < k ==> SM.FromMethod(methods[j], enumName).Success?
    requires k < |methods| ==> SM.FromMethod(methods[k], enumName).Failure?
    ensures FirstFailing(methods, enumName) == k
  {
    FirstFailingSpec(methods, enumName);
  }

  /** The walk fails exactly when some method fails, then with the message of
      the first failing one; otherwise it keeps the service methods present,
      in reflection order. */
  lemma {:induction false} ServiceMethodsOutcome(methods: seq<SM.ReflectedMethod>, enumName: string)
    ensures var r := ServiceMethodsOf(methods, enumName);
      var k := FirstFailing(methods, enumName);
      (r.Failure? <==> k < |methods|)
      && (r.Failure? ==> SM.FromMethod(methods[k], enumName) == Failure(r.message))
      && (r.Success? ==> r.value == Present(Results(methods, enumName)))
    decreases |methods|
  {
    if methods != [] {
      var init := methods[..|methods| - 1];
      var last := methods[|methods| - 1];
      ServiceMethodsOutcome(init, enumName);
      FirstFailingExtend(methods, enumName);
      var k := FirstFailing(init, enumName);
      if k < |init| {
        assert init[k] == methods[k];
      } else {
        ResultsSnoc(methods, enumName);
        PresentSnoc(Results(init, enumName), Found(SM.FromMethod(last, enumName)));
      }
    }
  }

  /** The results of one more method. */
  lemma ResultsSnoc(methods: seq<SM.ReflectedMethod>, enumName: string)
    requires methods != []
    ensures Results(methods, enumName)
      == Results(methods[..|methods| - 1], enumName) + [Found(SM.FromMethod(methods[|methods| - 1], enumName))]
  {
  }

  lemma ResultsStep(methods: seq<SM.ReflectedMethod>, i: nat, enumName: string)
    requires i < |methods|
    ensures Results(methods[..i + 1], enumName)
      == Results(methods[..i], enumName) + [Found(SM.FromMethod(methods[i], enumName))]
  {
    ResultsSnoc(methods[..i + 1], enumName);
    assert methods[..i + 1][..i] == methods[..i];
  }

  /** A walk that got to `i` stops there when the method at `i` fails. */
  lemma WalkStop(methods: seq<SM.ReflectedMethod>, enumName: string, i: nat)
    requires i < |methods| && i <= FirstFailing(methods, enumName)
    requires SM.FromMethod(methods[i], enumName).Failure?
    ensures FirstFailing(methods, enumName) == i
  {
    FirstFailingBefore(methods, enumName);
  }

  /** A walk that got to `i` goes on past a method that converts, keeping
      what it gave. */
  lemma WalkStep(methods: seq<SM.ReflectedMethod>, enumName: string, i: nat)
    requires i < |methods| && i <= FirstFailing(methods, enumName)
    requires SM.FromMethod(methods[i], enumName).Success?
    ensures i + 1 <= FirstFailing(methods, enumName)
    ensures var f := SM.FromMethod(methods[i], enumName).value;
      Present(Results(methods[..i + 1], enumName))
        == Present(Results(methods[..i], enumName)) + (if f.Some? then [f.value] else [])
  {
    FirstFailingAt(methods, enumName);
    WalkFound(methods, enumName, i);
  }

  lemma WalkFound(methods: seq<SM.ReflectedMethod>, enumName: string, i: nat)
    requires i < |methods| && SM.FromMethod(methods[i], enumName).Success?
    ensures var f := SM.FromMethod(methods[i], enumName).value;
      Present(Results(methods[..i + 1], enumName))
        == Present(Results(methods[..i], enumName)) + (if f.Some? then [f.value] else [])
  {
    var r := SM.FromMethod(methods[i], enumName);
    ResultsStep(methods, i, enumName);
    assert Found(r) == r.value;
    PresentSnoc(Results(methods[..i], enumName), r.value);
  }

  /** The first failing position of one more method: the earlier one if
      there was one, else the new method's if it fails, else none. */
  lemma {:induction false} FirstFailingExtend(methods: seq<SM.ReflectedMethod>, enumName: string)
    requires methods != []
    ensures var init := methods[..|methods| - 1];
      var k := FirstFailing(init, enumName);
      FirstFailing(methods, enumName)
        == if k < |init| then k
           else if SM.FromMethod(methods[|methods| - 1], enumName).Failure? then |init|
           else |methods|
    decreases |methods|
  {
    var n := |methods| - 1;
    var init := methods[..n];
    if n == 0 {
      assert methods[1..] == [];
    } else {
      assert init[0] == methods[0];
      if SM.FromMethod(methods[0], enumName).Success? {
        var tail := methods[1..];
        FirstFailingExtend(tail, enumName);
        assert tail[..|tail| - 1] == init[1..];
        assert tail[|tail| - 1] == methods[n];
      }
    }
  }

  /** What the loop of `processServiceMethods` leaves, started from no
      service methods, is the outcome of the walk. */
  lemma WalkAgrees(methods: seq<SM.ReflectedMethod>, enumName: string, error: Option<string>,
                   sms: seq<SM.ServiceMethod>)
    requires var k := FirstFailing(methods, enumName);
      && sms == Present(Results(methods[..k], enumName))
      && (error.Some? <==> k < |methods|)
      && (error.Some? ==> SM.FromMethod(methods[k], enumName) == Failure(error.value))
    ensures error.Some? <==> ServiceMethodsOf(methods, enumName).Failure?
    ensures error.Some? ==> ServiceMethodsOf(methods, enumName) == Failure(error.value)
    ensures error.None? ==> sms == ServiceMethodsOf(methods, enumName).value
  {
    ServiceMethodsOutcome(methods, enumName);
    assert methods[..|methods|] == methods;
  }

  /** After a successful walk, a service method is kept exactly when some
      method converted to it. */
  lemma ServiceMethodsMembers(methods: seq<SM.ReflectedMethod>, enumName: string, sm: SM.ServiceMethod)
    requires ServiceMethodsOf(methods, enumName).Success?
    ensures sm in ServiceMethodsOf(methods, enumName).value
      <==> exists i :: 0 <= i < |methods| && SM.FromMethod(methods[i], enumName) == Success(Some(sm))
  {
    ServiceMethodsOutcome(methods, enumName);
    var rs := Results(methods, enumName);
    PresentMembers(rs, sm);
    if exists i :: 0 <= i < |methods| && SM.FromMethod(methods[i], enumName) == Success(Some(sm)) {
      var i :| 0 <= i < |methods| && SM.FromMethod(methods[i], enumName) == Success(Some(sm));
      assert rs[i] == Some(sm);
    }
  }

  // ---------------------------------------------------------------------------
  // The service object

  /** What the loop of `generateServiceObject` accumulates: every method
      rendered and followed by a comma and a line feed. */
  function MethodsContent(sms: seq<SM.ServiceMethod>, options: Options): string
    decreases |sms|
  {
    if sms == [] then ""
    else MethodsContent(sms[..|sms| - 1], options) + SM.MethodText(sms[|sms| - 1], options) + ",\n"
  }

  /** One round of the loop of `generateServiceObject`. */
  lemma MethodsStep(sms: seq<SM.ServiceMethod>, i: nat, options: Options)
    requires i < |sms|
    ensures MethodsContent(sms[..i + 1], options)
      == MethodsContent(sms[..i], options) + SM.MethodText(sms[i], options) + ",\n"
  {
    assert sms[..i + 1][..i] == sms[..i];
  }

  /** `generateServiceObject`: empty without service methods; otherwise a
      constant named after the enum whose body is the methods, trimmed and
      indented one level. */
  function ServiceObject(name: string, sms: seq<SM.ServiceMethod>, options: Options): (r: string)
    ensures r == [] <==> sms == []
  {
    if sms == [] then ""
    else
      "export const " + name + "Service = {" + "\n"
        + Indent(Trim(MethodsContent(sms, options), '\n'), 1, options) + "\n" + "}\n"
  }

  /** A non-empty service object opens with the constant's header and closes
      with a brace on a line of its own. */
  lemma ServiceObjectEnvelope(name: string, sms: seq<SM.ServiceMethod>, options: Options)
    requires sms != []
    ensures var r := ServiceObject(name, sms, options);
      var head := "export const " + name + "Service = {" + "\n";
      |r| >= |head| + 3 && r[..|head|] == head && r[|r| - 3..] == "\n}\n"
  {
    Enveloped("export const " + name + "Service = {" + "\n",
              Indent(Trim(MethodsContent(sms, options), '\n'), 1, options));
  }

  lemma Enveloped(head: string, body: string)
    ensures var r := head + body + "\n" + "}\n";
      |r| >= |head| + 3 && r[..|head|] == head && r[|r| - 3..] == "\n}\n"
  {
    var r := head + body + "\n" + "}\n";
    assert r == head + (body + "\n" + "}\n");
  }

  /** A list of lines with a comma after the last one. */
  function WithComma(ls: seq<string>): (r: seq<string>)
    requires |ls| >= 1
    ensures |r| == |ls|
  {
    ls[..|ls| - 1] + [ls[|ls| - 1] + ","]
  }

  /** The lines of the service object's body before indenting: the lines of
      each method, the last of them followed by a comma. */
  function BlockLines(sms: seq<SM.ServiceMethod>, options: Options): (r: seq<string>)
    ensures sms != [] ==> |r| >= 1
    decreases |sms|
  {
    if sms == [] then []
    else BlockLines(sms[..|sms| - 1], options) + WithComma(SM.MethodLines(sms[|sms| - 1], options))
  }

  /** A service method whose export name and values are single lines. */
  predicate SingleLined(sm: SM.ServiceMethod) {
    NoBreaks(sm.exportName) && forall i :: 0 <= i < |sm.returnBody| ==> NoBreaks(sm.returnBody[i])
  }

  /** The accumulated text is the body's lines, each followed by a line feed. */
  lemma {:induction false} MethodsContentBlock(sms: seq<SM.ServiceMethod>, options: Options)
    requires IndentsLines(options)
    requires forall k :: 0 <= k < |sms| ==> SingleLined(sms[k])
    ensures MethodsContent(sms, options) == Terminated(BlockLines(sms, options))
    decreases |sms|
  {
    if sms != [] {
      var init := sms[..|sms| - 1];
      var last := sms[|sms| - 1];
      MethodsContentBlock(init, options);
      var w := WithComma(SM.MethodLines(last, options));
      var prev := Terminated(BlockLines(init, options));
      MethodChunk(last, options);
      TerminatedAppend(BlockLines(init, options), w);
      SM.CommaRegrouped(prev, SM.MethodText(last, options));
      ChunkRegrouped(prev, SM.MethodText(last, options));
    }
  }

  lemma ChunkRegrouped(t: string, x: string)
    ensures t + (x + ",") + "\n" == t + (x + "," + "\n")
  {
  }

  /** One method's text with its comma and line feed is its lines, the last
      with the comma, each followed by a line feed. */
  lemma MethodChunk(sm: SM.ServiceMethod, options: Options)
    requires IndentsLines(options) && SingleLined(sm)
    ensures SM.MethodText(sm, options) + "," + "\n" == Terminated(WithComma(SM.MethodLines(sm, options)))
  {
    var ls := SM.MethodLines(sm, options);
    var w := WithComma(ls);
    SM.MethodTextJoined(sm, options);
    JoinExtendLast(ls, ",", '\n');
    TerminatedJoin(w);
  }

  /** Every line of the body is a single non-empty line. */
  lemma {:induction false} BlockLinesSingle(sms: seq<SM.ServiceMethod>, options: Options)
    requires IndentsLines(options)
    requires forall k :: 0 <= k < |sms| ==> SingleLined(sms[k])
    ensures forall i :: 0 <= i < |BlockLines(sms, options)| ==>
      NoBreaks(BlockLines(sms, options)[i]) && BlockLines(sms, options)[i] != []
    decreases |sms|
  {
    if sms != [] {
      var init := sms[..|sms| - 1];
      var last := sms[|sms| - 1];
      BlockLinesSingle(init, options);
      var ls := SM.MethodLines(last, options);
      SM.MethodLinesSingle(last, options);
      var w := WithComma(ls);
      forall i | 0 <= i < |w| ensures NoBreaks(w[i]) && w[i] != [] {
        if i < |w| - 1 {
          assert w[i] == ls[i];
        } else {
          assert w[i] == ls[i] + ",";
        }
      }
      var b := BlockLines(sms, options);
      var bi := BlockLines(init, options);
      assert b == bi + w;
      forall i | 0 <= i < |b| ensures NoBreaks(b[i]) && b[i] != [] {
        if i < |bi| {
          assert b[i] == bi[i];
        } else {
          assert b[i] == w[i - |bi|];
        }
      }
    }
  }

  /** The closing line feeds of the service object, regrouped. */
  lemma ClosingRegrouped(head: string, body: string)
    ensures head + "\n" + body + "\n" + "}\n" == head + "\n" + body + "\n" + "}" + "\n" + ""
  {
    assert "}\n" == "}" + "\n" + "";
  }

  /** The header of the service object is a single line. */
  lemma ServiceHeaderSingleLine(name: string)
    requires NoBreaks(name)
    ensures NoBreaks("export const " + name + "Service = {")
  {
  }

  lemma Regrouped<T>(a: T, ys: seq<T>, c: T, d: T)
    ensures [a] + ys + [c] + [d] == [a] + ys + [c, d]
  {
  }

  /** A header, lines joined by line feeds and a closing brace followed by a
      line feed: the joined list of the lines and an empty last one. */
  lemma ClosedJoin(head: string, ys: seq<string>)
    requires |ys| >= 1
    ensures head + "\n" + Join(ys, '\n') + "\n" + "}\n" == Join([head] + ys + ["}", ""], '\n')
  {
    ClosingRegrouped(head, Join(ys, '\n'));
    JoinAround(head, ys, "}", '\n');
    JoinAppend([head] + ys + ["}"], "", '\n');
    Regrouped(head, ys, "}", "");
  }

  /** The same text cut at its line feeds. */
  lemma ClosedLines(head: string, ys: seq<string>)
    requires NoBreaks(head) && |ys| >= 1
    requires forall i :: 0 <= i < |ys| ==> NoBreaks(ys[i])
    ensures StringUtils.Lines(head + "\n" + Join(ys, '\n') + "\n" + "}\n") == [head] + ys + ["}", ""]
  {
    ClosedJoin(head, ys);
    ClosedSingle(head, ys);
    StringUtils.LinesOfJoin([head] + ys + ["}", ""]);
  }

  lemma ClosedSingle(head: string, ys: seq<string>)
    requires NoBreaks(head)
    requires forall i :: 0 <= i < |ys| ==> NoBreaks(ys[i])
    ensures var full := [head] + ys + ["}", ""];
      forall i :: 0 <= i < |full| ==> '\n' !in full[i] && '\r' !in full[i]
  {
    var full := [head] + ys + ["}", ""];
    forall i | 0 <= i < |full| ensures '\n' !in full[i] && '\r' !in full[i] {
      if i == 0 {
        assert full[i] == head;
      } else if i <= |ys| {
        assert full[i] == ys[i - 1];
      } else if i == |ys| + 1 {
        assert full[i] == "}";
      } else {
        assert full[i] == "";
      }
    }
  }

  /** The unit in front of single lines keeps them single lines. */
  lemma PrefixedSingle(u: string, b: seq<string>)
    requires NoBreaks(u)
    requires forall i :: 0 <= i < |b| ==> NoBreaks(b[i])
    ensures var ub := seq(|b|, j requires 0 <= j < |b| => u + b[j]);
      forall i :: 0 <= i < |ub| ==> NoBreaks(ub[i])
  {
  }

  /** With a unit that indents and single-line names and values, the service
      object is its header, every body line one unit in, the closing brace,
      and nothing after the final line feed: the trim leaves no blank line
      before the brace. */
  lemma ServiceObjectLines(name: string, sms: seq<SM.ServiceMethod>, options: Options)
    requires IndentsLines(options) && NoBreaks(name) && sms != []
    requires forall k :: 0 <= k < |sms| ==> SingleLined(sms[k])
    ensures var b := BlockLines(sms, options);
      StringUtils.Lines(ServiceObject(name, sms, options))
      == ["export const " + name + "Service = {"]
         + seq(|b|, i requires 0 <= i < |b| => IndentExpression(options) + b[i])
         + ["}", ""]
  {
    var b := BlockLines(sms, options);
    var u := IndentExpression(options);
    var ub := seq(|b|, i requires 0 <= i < |b| => u + b[i]);
    MethodsContentBlock(sms, options);
    BlockLinesSingle(sms, options);
    StringUtils.TrimTerminatedJoin(b);
    IndentLinesOnce(b, options);
    UnitIsBlank(options);
    PrefixedSingle(u, b);
    ServiceHeaderSingleLine(name);
    ClosedLines("export const " + name + "Service = {", ub);
  }

  // ---------------------------------------------------------------------------
  // The enum

  class EnumExpression {
    /** The properties inherited from `ClassExpression`. */
    const base: CE.ClassExpression
    var serviceMethods: seq<SM.ServiceMethod>

    /** `new EnumExpression()`: the inherited properties empty, no service
        methods. */
    constructor()
      ensures fresh(base)
      ensures base.namespace == "" && base.imports == [] && base.nonAutoGeneratedImports == ""
      ensures base.baseClassName == "" && base.name == "" && base.members == []
      ensures base.nonAutoGeneratedClassDeclarations == "" && base.eloquentRelations == []
      ensures serviceMethods == []
    {
      base := new CE.ClassExpression();
      serviceMethods := [];
    }

    /** The state `tryParse` leaves: the name, the namespace, the base name
        `Enum`, the members and the service methods given, and every other
        inherited property still empty. */
    ghost predicate ParsedAs(name: string, namespace: string, members: seq<Entry<CM.Member>>,
                             sms: seq<SM.ServiceMethod>)
      reads this, base
    {
      && base.name == name && base.namespace == namespace && base.baseClassName == "Enum"
      && base.members == members && serviceMethods == sms
      && base.imports == [] && base.nonAutoGeneratedImports == ""
      && base.nonAutoGeneratedClassDeclarations == "" && base.eloquentRelations == []
    }

    /** `tryParse`: nothing (PHP `false`) when the namespace or the enum name
        is missing or falsy; a failure when converting a service method
        throws; otherwise the enum with its name, namespace, the base name
        `Enum`, its cases and its service methods. */
    static method TryParse(namespaceMatch: Option<string>, enumNameMatch: Option<string>,
                           cases: seq<Option<CM.Member>>, methods: seq<SM.ReflectedMethod>)
      returns (result: Result<EnumExpression?>)
      ensures !Truthy(enumNameMatch) || !Truthy(namespaceMatch) ==> result == Success(null)
      ensures Truthy(enumNameMatch) && Truthy(namespaceMatch) ==>
        (result.Failure? <==> ServiceMethodsOf(methods, enumNameMatch.value).Failure?)
      ensures result.Failure? ==> ServiceMethodsOf(methods, enumNameMatch.value) == Failure(result.message)
      ensures result.Success? && Truthy(enumNameMatch) && Truthy(namespaceMatch) ==> result.value != null
      ensures result.Success? && result.value != null ==>
        fresh(result.value) && fresh(result.value.base)
      ensures result.Success? && result.value != null ==>
        Truthy(enumNameMatch) && Truthy(namespaceMatch)
        && result.value.ParsedAs(enumNameMatch.value, namespaceMatch.value, CaseMembers(cases),
                                 ServiceMethodsOf(methods, enumNameMatch.value).value)
    {
      if !Truthy(enumNameMatch) || !Truthy(namespaceMatch) {
        return Success(null);
      }
      PutEachEmpty(Present(cases), CE.MemberName);
      var enum := new EnumExpression();
      enum.base.name := enumNameMatch.value;
      enum.base.namespace := namespaceMatch.value;
      enum.base.baseClassName := "Enum";
      enum.ProcessClassMembers(cases);
      var error := enum.ProcessServiceMethods(methods);
      ghost var k := FirstFailing(methods, enumNameMatch.value);
      assert enum.serviceMethods == Present(Results(methods[..k], enumNameMatch.value));
      WalkAgrees(methods, enumNameMatch.value, error, enum.serviceMethods);
      if error.Some? {
        return Failure(error.value);
      }
      return Success(enum);
    }

    /** `processClassMembers`: every case `fromCase` turned into a member is
        stored under its name. */
    method ProcessClassMembers(cases: seq<Option<CM.Member>>)
      modifies base
      ensures base.members == PutEach(old(base.members), Present(cases), CE.MemberName)
      ensures base.namespace == old(base.namespace) && base.imports == old(base.imports)
      ensures base.nonAutoGeneratedImports == old(base.nonAutoGeneratedImports)
      ensures base.baseClassName == old(base.baseClassName) && base.name == old(base.name)
      ensures base.nonAutoGeneratedClassDeclarations == old(base.nonAutoGeneratedClassDeclarations)
      ensures base.eloquentRelations == old(base.eloquentRelations)
    {
      var members := base.members;
      var i := 0;
      while i < |cases|
        invariant 0 <= i <= |cases|
        invariant members == PutEach(base.members, Present(cases[..i]), CE.MemberName)
        modifies {}
      {
        assert cases[..i + 1] == cases[..i] + [cases[i]];
        PresentSnoc(cases[..i], cases[i]);
        if cases[i].Some? {
          var classMember := cases[i].value;
          PutEachSnoc(base.members, Present(cases[..i]), classMember, CE.MemberName);
          members := Put(members, classMember.name, classMember);
        }
        i := i + 1;
      }
      assert cases[..i] == cases;
      base.members := members;
    }

    /** `processServiceMethods`: every non-null service method is appended,
        in reflection order; the first conversion that throws stops the walk,
        leaving the methods appended before it. */
    method ProcessServiceMethods(methods: seq<SM.ReflectedMethod>) returns (error: Option<string>)
      modifies this
      ensures var k := FirstFailing(methods, base.name);
        serviceMethods == old(serviceMethods) + Present(Results(methods[..k], base.name))
        && (error.Some? <==> k < |methods|)
        && (error.Some? ==> SM.FromMethod(methods[k], base.name) == Failure(error.value))
    {
      var found;
      found, error := WalkMethods(methods, base.name);
      serviceMethods := serviceMethods + found;
    }

    /** The loop of `processServiceMethods`: the service methods it appends,
        and the message of the conversion that stopped it. */
    static method WalkMethods(methods: seq<SM.ReflectedMethod>, enumName: string)
      returns (found: seq<SM.ServiceMethod>, error: Option<string>)
      ensures var k := FirstFailing(methods, enumName);
        found == Present(Results(methods[..k], enumName))
        && (error.Some? <==> k < |methods|)
        && (error.Some? ==> SM.FromMethod(methods[k], enumName) == Failure(error.value))
    {
      found := [];
      error := None;
      assert methods[..0] == [];
      var i := 0;
      while i < |methods|
        invariant 0 <= i <= |methods|
        invariant i <= FirstFailing(methods, enumName)
        invariant found == Present(Results(methods[..i], enumName))
      {
        var serviceMethod := SM.FromReflectionMethod(methods[i], enumName);
        if serviceMethod.Failure? {
          WalkStop(methods, enumName, i);
          error := Some(serviceMethod.message);
          return;
        }
        WalkStep(methods, enumName, i);
        if serviceMethod.value.Some? {
          found := found + [serviceMethod.value.value];
        }
        i := i + 1;
      }
    }

    /** `generateServiceObject`. */
    method GenerateServiceObject(options: Options) returns (r: string)
      ensures r == ServiceObject(base.name, serviceMethods, options)
    {
      if serviceMethods == [] {
        return "";
      }
      var serviceContent := "export const " + base.name + "Service = {" + "\n";
      var methodsContent := "";
      assert serviceMethods[..0] == [];
      var i := 0;
      while i < |serviceMethods|
        invariant 0 <= i <= |serviceMethods|
        invariant methodsContent == MethodsContent(serviceMethods[..i], options)
      {
        var text := SM.ToTypeScript(serviceMethods[i], options);
        MethodsStep(serviceMethods, i, options);
        methodsContent := methodsContent + text + ",\n";
        i := i + 1;
      }
      assert serviceMethods[..i] == serviceMethods;
      serviceContent := serviceContent + Indent(Trim(methodsContent, '\n'), 1, options) + "\n";
      serviceContent := serviceContent + "}\n";
      return serviceContent;
    }
  }
}
