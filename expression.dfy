/** `Expression`: the base of every renderer, which turns the options into an
    indentation unit and re-indents text with it. */
module Expression {
  import opened Strings
  import opened StringUtils
  import opened ExpressionStringGenerationOptions

  /** `getIndentExpression`: `indentNumberOfSpaces` spaces, or one tab. */
  function IndentExpression(options: Options): (unit: string)
    ensures options.indentUseSpaces ==>
      |unit| == options.indentNumberOfSpaces && forall i :: 0 <= i < |unit| ==> unit[i] == ' '
    ensures !options.indentUseSpaces ==> unit == "\t"
  {
    if options.indentUseSpaces then
      var r := Repeat(" ", options.indentNumberOfSpaces);
      assert forall i :: 0 <= i < |r| ==> r[i] in r;
      r
    else "\t"
  }

  /** `Expression::indent`: `StringUtils::indent` with the options' unit. */
  function Indent(text: string, level: int, options: Options): string {
    IndentText(text, level, IndentExpression(options))
  }

  /** A unit that prefixes lines: it is non-empty and holds no line break. */
  predicate IndentsLines(options: Options) {
    !options.indentUseSpaces || options.indentNumberOfSpaces >= 1
  }

  /** The unit never holds a line break. */
  lemma UnitHasNoBreak(options: Options)
    ensures '\n' !in IndentExpression(options) && '\r' !in IndentExpression(options)
  {
    var unit := IndentExpression(options);
    if options.indentUseSpaces {
      assert '\n' !in unit by {
        forall i | 0 <= i < |unit| ensures unit[i] != '\n' { }
      }
      assert '\r' !in unit by {
        forall i | 0 <= i < |unit| ensures unit[i] != '\r' { }
      }
    }
  }

  lemma UnitIsBlank(options: Options)
    requires IndentsLines(options)
    ensures var unit := IndentExpression(options);
      unit != [] && '\n' !in unit && '\r' !in unit
      && forall i :: 0 <= i < |unit| ==> unit[i] == ' ' || unit[i] == '\t'
  {
    UnitHasNoBreak(options);
  }

  /** The defaults indent by four spaces. */
  lemma DefaultUnit()
    ensures IndentExpression(Defaults()) == "    "
  {
    var unit := IndentExpression(Defaults());
    assert |unit| == 4;
    assert unit[0] == ' ' && unit[1] == ' ' && unit[2] == ' ' && unit[3] == ' ';
  }

  /** Indenting by `level` levels prefixes every line (after carriage returns
      become line feeds) with `level` units, and joins the lines with "\n". */
  lemma IndentPrefixesLines(text: string, level: int, options: Options)
    requires level >= 1 && IndentsLines(options)
    ensures var lines := Lines(text);
      var unit := IndentExpression(options);
      Lines(Indent(text, level, options))
        == seq(|lines|, i requires 0 <= i < |lines| => Repeat(unit, level) + lines[i])
  {
    UnitIsBlank(options);
    IndentPositive(text, level, IndentExpression(options));
  }

  /** Two configured spaces: one level puts exactly two spaces before every line. */
  lemma TwoSpaces(text: string, options: Options)
    requires options.indentUseSpaces && options.indentNumberOfSpaces == 2
    ensures var lines := Lines(text);
      Lines(Indent(text, 1, options))
        == seq(|lines|, i requires 0 <= i < |lines| => "  " + lines[i])
  {
    IndentPrefixesLines(text, 1, options);
    var unit := IndentExpression(options);
    RepeatOne(unit);
    assert unit == "  " by {
      assert |unit| == 2 && unit[0] == ' ' && unit[1] == ' ';
    }
  }

  /** Whatever the options, dedenting text just indented by one level gives
      back the text indented by zero levels. */
  lemma IndentDedent(text: string, options: Options)
    requires IndentsLines(options)
    ensures Indent(Indent(text, 1, options), -1, options) == Indent(text, 0, options)
  {
    UnitIsBlank(options);
    IndentThenDedent(text, IndentExpression(options));
  }

  /** Indenting an already indented text adds the levels. */
  lemma IndentTwice(text: string, a: int, b: int, options: Options)
    requires a >= 1 && b >= 1 && IndentsLines(options)
    ensures Indent(Indent(text, a, options), b, options) == Indent(text, a + b, options)
  {
    UnitIsBlank(options);
    IndentCompose(text, a, b, IndentExpression(options));
  }

  /** Indenting lines joined by line feeds prefixes each of them. */
  lemma IndentJoined(xs: seq<string>, level: int, options: Options)
    requires level >= 1 && IndentsLines(options) && |xs| >= 1
    requires forall i :: 0 <= i < |xs| ==> '\n' !in xs[i] && '\r' !in xs[i]
    ensures Indent(Join(xs, '\n'), level, options)
      == Join(seq(|xs|, i requires 0 <= i < |xs| => Repeat(IndentExpression(options), level) + xs[i]), '\n')
  {
    var unit := IndentExpression(options);
    UnitIsBlank(options);
    LinesOfJoin(xs);
    IndentPositive(Join(xs, '\n'), level, unit);
    assert IndentAll(xs, level, unit)
      == seq(|xs|, i requires 0 <= i < |xs| => Repeat(unit, level) + xs[i]);
  }

  /** Indenting a single line prefixes it. */
  lemma IndentSingleLine(line: string, level: int, options: Options)
    requires level >= 1 && IndentsLines(options)
    requires '\n' !in line && '\r' !in line
    ensures Indent(line, level, options) == Repeat(IndentExpression(options), level) + line
  {
    IndentJoined([line], level, options);
    assert Join([line], '\n') == line;
  }

  /** Indenting lines joined by line feeds one level puts the unit in front
      of each of them. */
  lemma IndentLinesOnce(xs: seq<string>, options: Options)
    requires IndentsLines(options) && |xs| >= 1
    requires forall i :: 0 <= i < |xs| ==> '\n' !in xs[i] && '\r' !in xs[i]
    ensures Indent(Join(xs, '\n'), 1, options)
      == Join(seq(|xs|, i requires 0 <= i < |xs| => IndentExpression(options) + xs[i]), '\n')
  {
    var unit := IndentExpression(options);
    IndentJoined(xs, 1, options);
    RepeatOne(unit);
    assert seq(|xs|, i requires 0 <= i < |xs| => Repeat(unit, 1) + xs[i])
        == seq(|xs|, i requires 0 <= i < |xs| => unit + xs[i]);
  }
}
