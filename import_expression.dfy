/** `ImportExpression`: one TypeScript `import` line of a generated class. */
module ImportExpression {
  import opened Wrappers
  import opened Strings
  import opened StringUtils
  import opened ExpressionStringGenerationOptions

  /** `internal` marks imports the generator added itself; it is not rendered. */
  datatype ImportExpr = ImportExpr(name: string, target: string, internal: bool)

  /** A new import: `internal` starts out true. */
  function NewImport(name: string, target: string): (imp: ImportExpr)
    ensures imp.name == name && imp.target == target && imp.internal
  {
    ImportExpr(name, target, true)
  }

  /** `getTypeScriptQuote`: a single quote when asked for, else a double quote. */
  function Quote(options: Options): (q: string)
    ensures |q| == 1 && (q[0] == '\'' || q[0] == '"')
    ensures q[0] == '\'' <==> options.useSingleQuotesForImports
  {
    if options.useSingleQuotesForImports then "'" else "\""
  }

  /** The text before the imported name. */
  function Keyword(options: Options): string {
    if options.useInterfaceInsteadOfClass then "import type " else "import "
  }

  /** `toTypeScript`. */
  function ToTypeScript(imp: ImportExpr, options: Options): (r: string)
    ensures |r| == |Keyword(options)| + |imp.name| + 6 + |imp.target| + 2
    ensures r[..|Keyword(options)|] == Keyword(options)
  {
    Keyword(options) + imp.name + " from " + Quote(options) + imp.target + Quote(options)
  }

  /** The line opens with `import type ` exactly in interface mode (for a name
      without spaces, as every PHP class name is, other than `type` itself). */
  lemma TypeOnlyInInterfaceMode(imp: ImportExpr, options: Options)
    requires ' ' !in imp.name && imp.name != "type"
    ensures var r := ToTypeScript(imp, options);
      (|r| >= 12 && r[..12] == "import type ") <==> options.useInterfaceInsteadOfClass
  {
    var r := ToTypeScript(imp, options);
    if !options.useInterfaceInsteadOfClass && |r| >= 12 {
      // The twelfth character (a space in "import type ") falls inside the
      // name, which has no space, or on the space-free "from"; a name of four
      // characters other than "type" differs from "type".
      if |imp.name| > 4 {
        assert r[11] == imp.name[4] && imp.name[4] in imp.name;
      } else if |imp.name| == 4 {
        assert r[..12][7..11] == imp.name;
      } else {
        assert r[11] == " from "[4 - |imp.name|];
      }
    }
  }

  /** The same quote character closes the target as opens it. */
  lemma QuotesMatch(imp: ImportExpr, options: Options)
    ensures var r := ToTypeScript(imp, options);
      var q := Quote(options)[0];
      r[|r| - 1] == q && r[|r| - |imp.target| - 2] == q
  {
  }

  /** Whether the import is internal does not change its text. */
  lemma InternalIrrelevant(imp: ImportExpr, options: Options)
    ensures ToTypeScript(imp, options) == ToTypeScript(imp.(internal := !imp.internal), options)
  {
  }

  /** The target is recovered from the line as the text between ` from ` plus
      the opening quote and the closing quote, when neither the name nor the
      target holds that quote character. */
  lemma TargetBetweenQuotes(imp: ImportExpr, options: Options)
    requires Quote(options)[0] !in imp.name && Quote(options)[0] !in imp.target
    ensures var q := Quote(options);
      TextBetween(ToTypeScript(imp, options), " from " + q, q) == Some(imp.target)
  {
    var q := Quote(options);
    var c := q[0];
    assert q == [c];
    var p := Keyword(options) + imp.name;
    assert c !in Keyword(options);
    assert c !in p;
    assert ToTypeScript(imp, options) == p + (" from " + [c]) + imp.target + [c];
    QuotedTarget(p, imp.target, c);
  }

  /** The text between ` from ` and a quote, and the next such quote. */
  lemma QuotedTarget(p: string, t: string, c: char)
    requires c != ' ' && c != 'f' && c != 'r' && c != 'o' && c != 'm'
    requires c !in p && c !in t
    ensures TextBetween(p + (" from " + [c]) + t + [c], " from " + [c], [c]) == Some(t)
  {
    var s := " from " + [c];
    var r := p + s + t + [c];
    var i := |p|;
    var j := i + 7 + |t|;
    assert r == p + s + (t + [c]);
    FirstFrom(p, t + [c], c);
    assert r == (p + s) + t + [c];
    QuoteAfter(p + s, t, c);
    TextBetweenExact(r, s, [c], i, j);
    assert r[i + 7..j] == t;
  }

  lemma FirstFrom(p: string, rest: string, c: char)
    requires c != ' ' && c != 'f' && c != 'r' && c != 'o' && c != 'm' && c !in p
    ensures var s := " from " + [c];
      FirstAt(p + s + rest, s, |p|)
  {
    var s := " from " + [c];
    var r := p + s + rest;
    assert r[|p|..|p| + 7] == s;
    forall m: nat | 6 <= m < |p| + 6 && m < |r| ensures r[m] != s[6] {
      if m < |p| {
        assert r[m] == p[m];
      } else {
        assert r[m] == s[m - |p|];
      }
    }
    NoOccurrenceByChar(r, s, 6, 0, |p|);
  }

  lemma QuoteAfter(pre: string, t: string, c: char)
    requires c !in t
    ensures var r := pre + t + [c];
      OccursAt(r, [c], |pre| + |t|)
      && forall k: nat :: |pre| <= k < |pre| + |t| ==> !OccursAt(r, [c], k)
  {
    var r := pre + t + [c];
    assert r[|pre| + |t|..|pre| + |t| + 1] == [c];
    forall k: nat | |pre| <= k < |pre| + |t| ensures !OccursAt(r, [c], k) {
      assert r[k] == t[k - |pre|];
      assert r[k..k + 1][0] == r[k];
    }
  }
}
