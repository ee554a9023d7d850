/** `TypeExpression`: a TypeScript type name, possibly a collection of it. */
module TypeExpression {
  import opened ExpressionStringGenerationOptions

  datatype TypeExpr = TypeExpr(name: string, isCollection: bool)

  /** `isPrimitive`: the four TypeScript primitives the renderers know. */
  predicate IsPrimitive(t: TypeExpr) {
    t.name in ["string", "number", "boolean", "any"]
  }

  /** `toTypeScript`: the name, with "[]" for a collection. */
  function ToTypeScript(t: TypeExpr, options: Options): (r: string)
    ensures |r| == |t.name| + (if t.isCollection then 2 else 0)
    ensures r[..|t.name|] == t.name
    ensures r[|t.name|..] == (if t.isCollection then "[]" else "")
  {
    if t.isCollection then t.name + "[]" else t.name
  }

  predicate EndsWithBrackets(s: string) {
    |s| >= 2 && s[|s| - 2..] == "[]"
  }

  /** Reads a rendered type back. */
  function FromTypeScript(text: string): (t: TypeExpr)
    ensures text == t.name + (if t.isCollection then "[]" else "")
  {
    if EndsWithBrackets(text) then TypeExpr(text[..|text| - 2], true) else TypeExpr(text, false)
  }

  /** Rendering loses nothing when the element name itself does not end in "[]". */
  lemma RoundTrip(t: TypeExpr, options: Options)
    requires !EndsWithBrackets(t.name)
    ensures FromTypeScript(ToTypeScript(t, options)) == t
  {
    var r := ToTypeScript(t, options);
    if t.isCollection {
      assert r[|r| - 2..] == "[]";
      assert r[..|r| - 2] == t.name;
    }
  }

  /** The rendered text does not depend on the options. */
  lemma OptionsIrrelevant(t: TypeExpr, o1: Options, o2: Options)
    ensures ToTypeScript(t, o1) == ToTypeScript(t, o2)
  {
  }

  lemma PrimitiveNames(t: TypeExpr)
    ensures IsPrimitive(t) <==> t.name == "string" || t.name == "number" || t.name == "boolean" || t.name == "any"
    ensures t.name == "Date" ==> !IsPrimitive(t)
  {
  }
}
