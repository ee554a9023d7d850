/** `StringUtils`: re-indenting multi-line text by a unit string, and taking
    the text between two delimiters (the primitive behind keeping the
    hand-written regions of a generated file). */
module StringUtils {
  import opened Wrappers
  import opened Strings

  function Min(a: int, b: int): int { if a <= b then a else b }

  /** The lines `indent` works on: carriage returns become line feeds, then the
      text is cut at every line feed. */
  function Lines(text: string): (lines: seq<string>)
    ensures |lines| >= 1
    ensures forall i :: 0 <= i < |lines| ==> '\n' !in lines[i] && '\r' !in lines[i]
  {
    var normalized := ReplaceChar(text, '\r', '\n');
    SplitChars(normalized, '\n', '\r');
    Split(normalized, '\n')
  }

  /** One line re-indented: a non-negative level prepends `level` copies of the
      unit; a negative level strips up to `|unit| * -level` characters of the
      line's leading whitespace. */
  function IndentLine(line: string, level: int, unit: string): string {
    if level >= 0 then Repeat(unit, level) + line
    else line[Min(|unit| * -level, LeadingSpaceCount(line))..]
  }

  function IndentAll(lines: seq<string>, level: int, unit: string): (r: seq<string>)
    ensures |r| == |lines|
  {
    seq(|lines|, i requires 0 <= i < |lines| => IndentLine(lines[i], level, unit))
  }

  /** What `StringUtils::indent($text, $level, $unit)` returns: every line
      re-indented and followed by "\n", and the whole trimmed of line feeds at
      both ends. */
  function IndentText(text: string, level: int, unit: string): string {
    Trim(Terminated(IndentAll(Lines(text), level, unit)), '\n')
  }

  /** The loop of `StringUtils::indent`. */
  method Indent(text: string, indentLevel: int, indentExpression: string) returns (r: string)
    ensures r == IndentText(text, indentLevel, indentExpression)
  {
    var lines := Lines(text);
    var indentedText := "";
    var i := 0;
    while i < |lines|
      invariant 0 <= i <= |lines|
      invariant indentedText == Terminated(IndentAll(lines[..i], indentLevel, indentExpression))
    {
      var line := lines[i];
      var indented;
      if indentLevel >= 0 {
        indented := Repeat(indentExpression, indentLevel) + line;
      } else {
        var indentLength := LeadingSpaceCount(line);
        indented := line[Min(|indentExpression| * -indentLevel, indentLength)..];
      }
      IndentStep(lines, i, indentLevel, indentExpression);
      indentedText := indentedText + indented + "\n";
      i := i + 1;
    }
    assert lines[..|lines|] == lines;
    r := Trim(indentedText, '\n');
  }

  lemma IndentStep(lines: seq<string>, i: nat, level: int, unit: string)
    requires i < |lines|
    ensures Terminated(IndentAll(lines[..i + 1], level, unit))
      == Terminated(IndentAll(lines[..i], level, unit)) + IndentLine(lines[i], level, unit) + "\n"
  {
    var xs := IndentAll(lines[..i + 1], level, unit);
    assert xs[..i] == IndentAll(lines[..i], level, unit);
  }

  // ---------------------------------------------------------------------------
  // Helpers about joined lines

  lemma JoinFirst(parts: seq<string>, sep: char)
    requires |parts| >= 1 && parts[0] != []
    ensures Join(parts, sep) != [] && Join(parts, sep)[0] == parts[0][0]
  {
  }

  lemma {:induction false} JoinLast(parts: seq<string>, sep: char)
    requires |parts| >= 1 && parts[|parts| - 1] != []
    ensures var j := Join(parts, sep);
      j != [] && j[|j| - 1] == parts[|parts| - 1][|parts[|parts| - 1]| - 1]
    decreases |parts|
  {
    if |parts| > 1 {
      JoinLast(parts[1..], sep);
    }
  }

  lemma {:induction false} JoinChars(parts: seq<string>, sep: char, c: char)
    requires |parts| >= 1 && c != sep
    requires forall i :: 0 <= i < |parts| ==> c !in parts[i]
    ensures c !in Join(parts, sep)
    decreases |parts|
  {
    if |parts| > 1 { JoinChars(parts[1..], sep, c); }
  }

  lemma ReplaceAbsent(s: string, from: char, to: char)
    requires from !in s
    ensures ReplaceChar(s, from, to) == s
  {
  }

  /** Lines without line breaks, joined by line feeds, are cut apart again. */
  lemma LinesOfJoin(xs: seq<string>)
    requires |xs| >= 1
    requires forall i :: 0 <= i < |xs| ==> '\n' !in xs[i] && '\r' !in xs[i]
    ensures Lines(Join(xs, '\n')) == xs
  {
    JoinChars(xs, '\n', '\r');
    ReplaceAbsent(Join(xs, '\n'), '\r', '\n');
    SplitJoin(xs, '\n');
  }

  /** Text on either side of a line feed contributes its own lines. */
  lemma LinesAppend(a: string, b: string)
    ensures Lines(a + "\n" + b) == Lines(a) + Lines(b)
  {
    ReplaceAppend(a, "\n", '\r', '\n');
    ReplaceAppend(a + "\n", b, '\r', '\n');
    assert ReplaceChar("\n", '\r', '\n') == "\n";
    SplitAppend(ReplaceChar(a, '\r', '\n'), ReplaceChar(b, '\r', '\n'), '\n');
  }

  /** A single line is its own only line. */
  lemma LinesSingle(x: string)
    requires NoBreaks(x)
    ensures Lines(x) == [x]
  {
    LinesOfJoin([x]);
  }

  /** Lines accumulated line by line, then more text: the lines, then the
      text's own lines. */
  lemma LinesTerminated(xs: seq<string>, rest: string)
    requires forall i :: 0 <= i < |xs| ==> NoBreaks(xs[i])
    ensures Lines(Terminated(xs) + rest) == xs + Lines(rest)
  {
    if xs == [] {
      assert Terminated(xs) + rest == rest;
    } else {
      TerminatedJoin(xs);
      LinesAppend(Join(xs, '\n'), rest);
      LinesOfJoin(xs);
    }
  }

  /** No line of a text holds a single-line pattern the text lacks. */
  lemma LinesFree(text: string, pat: string)
    requires NoBreaks(pat) && !Contains(text, pat)
    ensures forall i :: 0 <= i < |Lines(text)| ==> !Contains(Lines(text)[i], pat)
  {
    FreeReplaced(text, pat, '\r', '\n');
    FreePieces(ReplaceChar(text, '\r', '\n'), '\n', pat);
  }

  /** Text already trimmed and free of carriage returns reproduces its own lines. */
  lemma {:induction false} TrimTerminatedJoin(xs: seq<string>)
    requires |xs| >= 1 && xs[0] != [] && xs[|xs| - 1] != []
    requires forall i :: 0 <= i < |xs| ==> '\n' !in xs[i] && '\r' !in xs[i]
    ensures Trim(Terminated(xs), '\n') == Join(xs, '\n')
    ensures Lines(Join(xs, '\n')) == xs
  {
    var j := Join(xs, '\n');
    TerminatedJoin(xs);
    JoinFirst(xs, '\n');
    JoinLast(xs, '\n');
    assert xs[0][0] in xs[0];
    var last := xs[|xs| - 1];
    assert last[|last| - 1] in last;
    TrimAppend(j, '\n');
    TrimUntouched(j, '\n');
    JoinChars(xs, '\n', '\r');
    ReplaceAbsent(j, '\r', '\n');
    SplitJoin(xs, '\n');
  }

  // ---------------------------------------------------------------------------
  // Properties of indent

  /** Level 0 gives back the text with carriage returns normalised and only the
      outer line feeds trimmed. */
  lemma IndentZero(text: string, unit: string)
    ensures IndentText(text, 0, unit) == Trim(ReplaceChar(text, '\r', '\n'), '\n')
  {
    var normalized := ReplaceChar(text, '\r', '\n');
    var lines := Lines(text);
    IndentAllZero(lines, unit);
    TerminatedJoin(lines);
    JoinSplit(normalized, '\n');
    TrimAppend(normalized, '\n');
  }

  /** A positive level with a unit that is not empty and holds no line break
      prefixes every line with exactly `level` copies of the unit; the result is
      those lines joined by "\n", with nothing trimmed away. */
  lemma IndentPositive(text: string, level: int, unit: string)
    requires level >= 1 && unit != [] && '\n' !in unit && '\r' !in unit
    ensures var lines := Lines(text);
      Lines(IndentText(text, level, unit))
        == seq(|lines|, i requires 0 <= i < |lines| => Repeat(unit, level) + lines[i])
    ensures IndentText(text, level, unit) == Join(IndentAll(Lines(text), level, unit), '\n')
  {
    var lines := Lines(text);
    PrefixedAll(lines, level, unit);
    TrimTerminatedJoin(IndentAll(lines, level, unit));
  }

  /** Re-indenting by any level creates no occurrence of a single-line pattern
      that does not start with a character of the unit. */
  lemma IndentFree(text: string, level: int, unit: string, pat: string)
    requires pat != [] && NoBreaks(pat) && pat[0] !in unit && !Contains(text, pat)
    ensures !Contains(IndentText(text, level, unit), pat)
  {
    var lines := Lines(text);
    LinesFree(text, pat);
    var xs := IndentAll(lines, level, unit);
    forall i | 0 <= i < |xs| ensures !Contains(xs[i], pat) {
      if level >= 0 {
        FreePrefixed(Repeat(unit, level), lines[i], pat);
      } else {
        var cut := Min(|unit| * -level, LeadingSpaceCount(lines[i]));
        FreeSlice(lines[i], pat, cut, |lines[i]|);
        assert xs[i] == lines[i][cut..|lines[i]|];
      }
    }
    FreeTerminated(xs, pat);
    FreeTrimmed(Terminated(xs), '\n', pat);
  }

  /** At a positive level, text on either side of a line feed is indented on its own. */
  lemma IndentAppend(a: string, b: string, level: int, unit: string)
    requires level >= 1 && unit != [] && NoBreaks(unit)
    ensures IndentText(a + "\n" + b, level, unit) == IndentText(a, level, unit) + "\n" + IndentText(b, level, unit)
  {
    IndentPositive(a + "\n" + b, level, unit);
    IndentPositive(a, level, unit);
    IndentPositive(b, level, unit);
    LinesAppend(a, b);
    IndentAllConcat(Lines(a), Lines(b), level, unit);
    JoinConcat(IndentAll(Lines(a), level, unit), IndentAll(Lines(b), level, unit), '\n');
  }

  lemma IndentAllConcat(xs: seq<string>, ys: seq<string>, level: int, unit: string)
    ensures IndentAll(xs + ys, level, unit) == IndentAll(xs, level, unit) + IndentAll(ys, level, unit)
  {
    var l := IndentAll(xs + ys, level, unit);
    var r := IndentAll(xs, level, unit) + IndentAll(ys, level, unit);
    forall i | 0 <= i < |l| ensures l[i] == r[i] {
      if i < |xs| {
        assert (xs + ys)[i] == xs[i];
      } else {
        assert (xs + ys)[i] == ys[i - |xs|];
      }
    }
  }

  /** The unit repeated a positive number of times is a non-empty single line. */
  lemma RepeatBlank(unit: string, level: int)
    requires level >= 1 && unit != [] && NoBreaks(unit)
    ensures Repeat(unit, level) != [] && NoBreaks(Repeat(unit, level))
  {
    assert Repeat(unit, level) == unit + Repeat(unit, level - 1);
  }

  /** At a positive level every line is prefixed, and stays a single,
      non-empty line. */
  lemma PrefixedAll(lines: seq<string>, level: int, unit: string)
    requires level >= 1 && unit != [] && NoBreaks(unit)
    requires forall i :: 0 <= i < |lines| ==> '\n' !in lines[i] && '\r' !in lines[i]
    ensures IndentAll(lines, level, unit)
      == seq(|lines|, i requires 0 <= i < |lines| => Repeat(unit, level) + lines[i])
    ensures var xs := IndentAll(lines, level, unit);
      forall i :: 0 <= i < |xs| ==> xs[i] != [] && '\n' !in xs[i] && '\r' !in xs[i]
  {
    var pre := Repeat(unit, level);
    RepeatBlank(unit, level);
    var xs := IndentAll(lines, level, unit);
    forall i | 0 <= i < |xs| ensures xs[i] == pre + lines[i] && xs[i] != [] && '\n' !in xs[i] && '\r' !in xs[i] {
      assert xs[i] == IndentLine(lines[i], level, unit);
    }
  }

  /** A negative level removes from each line only leading whitespace, never
      more than `|unit| * -level` characters, so its content survives. */
  lemma DedentKeepsContent(line: string, level: int, unit: string)
    requires level < 0
    ensures var r := IndentLine(line, level, unit);
      var cut := |line| - |r|;
      0 <= cut <= |unit| * -level && r == line[cut..]
      && (forall i :: 0 <= i < cut ==> IsPhpSpace(line[i]))
      && line[LeadingSpaceCount(line)..] == r[LeadingSpaceCount(line) - cut..]
  {
    var n := |unit| * -level;
    assert n >= 0;
    var lead := LeadingSpaceCount(line);
    var cut := Min(n, lead);
    var r := line[cut..];
    assert IndentLine(line, level, unit) == r;
    assert |line| - |r| == cut;
    assert line[lead..] == r[lead - cut..];
  }

  lemma IndentAllZero(lines: seq<string>, unit: string)
    ensures IndentAll(lines, 0, unit) == lines
  {
    forall i | 0 <= i < |lines| ensures IndentAll(lines, 0, unit)[i] == lines[i] {
      assert Repeat(unit, 0) == "";
    }
  }

  lemma DedentIndentedLine(line: string, unit: string)
    requires forall i :: 0 <= i < |unit| ==> unit[i] == ' ' || unit[i] == '\t'
    ensures IndentLine(Repeat(unit, 1) + line, -1, unit) == line
  {
    RepeatOne(unit);
    LeadingSpaceOfPrefix(unit, line);
    assert (unit + line)[|unit|..] == line;
  }

  /** Dedenting by one level the text just indented by one level with a
      whitespace unit gives the text as level 0 would. */
  lemma IndentThenDedent(text: string, unit: string)
    requires unit != [] && forall i :: 0 <= i < |unit| ==> unit[i] == ' ' || unit[i] == '\t'
    ensures IndentText(IndentText(text, 1, unit), -1, unit) == IndentText(text, 0, unit)
  {
    assert '\n' !in unit && '\r' !in unit;
    var lines := Lines(text);
    var once := IndentText(text, 1, unit);
    IndentPositive(text, 1, unit);
    var indented := Lines(once);
    assert |indented| == |lines|;
    forall i | 0 <= i < |lines| ensures IndentAll(indented, -1, unit)[i] == lines[i] {
      assert indented[i] == Repeat(unit, 1) + lines[i];
      DedentIndentedLine(lines[i], unit);
    }
    assert IndentAll(indented, -1, unit) == lines;
    IndentAllZero(lines, unit);
    assert IndentText(once, -1, unit) == Trim(Terminated(IndentAll(indented, -1, unit)), '\n');
  }

  /** Indenting twice adds the levels. */
  lemma IndentCompose(text: string, a: int, b: int, unit: string)
    requires a >= 1 && b >= 1 && unit != [] && '\n' !in unit && '\r' !in unit
    ensures IndentText(IndentText(text, a, unit), b, unit) == IndentText(text, a + b, unit)
  {
    var lines := Lines(text);
    IndentPositive(text, a, unit);
    var indented := Lines(IndentText(text, a, unit));
    ComposeLines(lines, indented, a, b, unit);
  }

  lemma ComposeLines(lines: seq<string>, indented: seq<string>, a: int, b: int, unit: string)
    requires a >= 1 && b >= 1
    requires indented == seq(|lines|, i requires 0 <= i < |lines| => Repeat(unit, a) + lines[i])
    ensures IndentAll(indented, b, unit) == IndentAll(lines, a + b, unit)
  {
    RepeatAdd(unit, b, a);
    forall i | 0 <= i < |lines|
      ensures IndentAll(indented, b, unit)[i] == IndentAll(lines, a + b, unit)[i]
    {
      assert indented[i] == Repeat(unit, a) + lines[i];
      assert Repeat(unit, b) + (Repeat(unit, a) + lines[i]) == (Repeat(unit, b) + Repeat(unit, a)) + lines[i];
    }
  }

  // ---------------------------------------------------------------------------
  // textBetween

  /** `StringUtils::textBetween`: the text after the first occurrence of
      `startDelimiter` up to the first occurrence of `endDelimiter` after it;
      `None` (PHP `null`) when either search fails. */
  function TextBetween(text: string, startDelimiter: string, endDelimiter: string): Option<string> {
    match FindFrom(text, startDelimiter, 0)
    case None => None
    case Some(i) =>
      match FindFrom(text, endDelimiter, i + |startDelimiter|)
      case None => None
      case Some(j) => Some(text[i + |startDelimiter|..j])
  }

  ghost predicate FirstAt(text: string, pat: string, i: nat) {
    OccursAt(text, pat, i) && forall k: nat :: k < i ==> !OccursAt(text, pat, k)
  }

  /** `null` exactly when the start delimiter is absent, or when the end
      delimiter does not occur after the first start delimiter. */
  lemma TextBetweenAbsent(text: string, s: string, e: string)
    ensures TextBetween(text, s, e).None?
        <==> forall i: nat :: FirstAt(text, s, i) ==>
               forall k: nat :: i + |s| <= k ==> !OccursAt(text, e, k)
  {
    match FindFrom(text, s, 0)
    case None =>
    case Some(i) =>
      assert FirstAt(text, s, i);
      forall i' : nat | FirstAt(text, s, i') ensures i' == i {}
  }

  /** A found text sits between the first start delimiter and the next end
      delimiter: `s + r + e` occurs there, and `e` does not occur inside `r`. */
  lemma TextBetweenFound(text: string, s: string, e: string)
    requires TextBetween(text, s, e).Some?
    ensures var r := TextBetween(text, s, e).value;
      exists i: nat :: FirstAt(text, s, i) && OccursAt(text, s + r + e, i)
    ensures |e| > 0 ==> !Contains(TextBetween(text, s, e).value, e)
  {
    TextBetweenAt(text, s, e);
    if |e| > 0 {
      var i := FindFrom(text, s, 0).value;
      var j := FindFrom(text, e, i + |s|).value;
      assert TextBetween(text, s, e).value == text[i + |s|..j];
      NoEndInside(text, e, i + |s|, j);
    }
  }

  lemma TextBetweenAt(text: string, s: string, e: string)
    requires TextBetween(text, s, e).Some?
    ensures var r := TextBetween(text, s, e).value;
      exists i: nat :: FirstAt(text, s, i) && OccursAt(text, s + r + e, i)
  {
    var i := FindFrom(text, s, 0).value;
    var j := FindFrom(text, e, i + |s|).value;
    var r := text[i + |s|..j];
    assert TextBetween(text, s, e).value == r;
    assert FirstAt(text, s, i);
    Pieces(text, i, i + |s|, j, j + |e|);
    assert text[i..i + |s|] == s && text[j..j + |e|] == e;
    assert OccursAt(text, s + r + e, i);
  }

  lemma Pieces(text: string, a: nat, b: nat, c: nat, d: nat)
    requires a <= b <= c <= d <= |text|
    ensures text[a..d] == text[a..b] + text[b..c] + text[c..d]
  {
  }

  /** No occurrence of `e` starts before `j` at or after `lo`, so none lies
      inside `text[lo..j]`. */
  lemma NoEndInside(text: string, e: string, lo: nat, j: nat)
    requires |e| > 0 && lo <= j <= |text|
    requires forall k: nat :: lo <= k < j ==> !OccursAt(text, e, k)
    ensures !Contains(text[lo..j], e)
  {
    var r := text[lo..j];
    forall k: nat | OccursAt(r, e, k) ensures lo + k < j && OccursAt(text, e, lo + k) {
      OccursShift(text, e, lo, j, k);
    }
  }

  /** An occurrence inside `text[lo..j]` is one in `text`, `lo` further on. */
  lemma OccursShift(text: string, e: string, lo: nat, j: nat, k: nat)
    requires |e| > 0 && lo <= j <= |text| && OccursAt(text[lo..j], e, k)
    ensures lo + k < j && OccursAt(text, e, lo + k)
  {
    var r := text[lo..j];
    forall t | 0 <= t < |e| ensures text[lo + k + t] == e[t] {
      assert r[k..k + |e|][t] == r[k + t] == text[lo + k + t];
    }
    assert text[lo + k..lo + k + |e|] == e;
  }


  /** The converse: the text between a first start delimiter and the first end
      delimiter after it is what `textBetween` returns. */
  lemma TextBetweenExact(text: string, s: string, e: string, i: nat, j: nat)
    requires FirstAt(text, s, i) && i + |s| <= j && OccursAt(text, e, j)
    requires forall k: nat :: i + |s| <= k < j ==> !OccursAt(text, e, k)
    ensures TextBetween(text, s, e) == Some(text[i + |s|..j])
  {
    FindFromFirst(text, s, 0, i);
    FindFromFirst(text, e, i + |s|, j);
  }

  /** A region between two sentinels: for a text laid out as
      `pre + s + "\n" + p + "\n" + e + post`, the text between `s` and `e` is
      `"\n" + p + "\n"`, provided `s` cannot start earlier (its character at
      `c` occurs neither in `pre` nor before `c` in `s`) and `e` cannot start
      inside the region (it holds no line feed and does not occur in `p`). */
  lemma BetweenSentinels(pre: string, s: string, p: string, e: string, post: string, c: nat)
    requires c < |s| && s[c] !in pre && forall m :: 0 <= m < c ==> s[m] != s[c]
    requires e != [] && '\n' !in e && !Contains(p, e)
    ensures TextBetween(pre + s + ("\n" + p + "\n") + e + post, s, e) == Some("\n" + p + "\n")
  {
    var mid := "\n" + p + "\n";
    var text := pre + s + mid + e + post;
    var i := |pre|;
    var n1 := i + |s|;
    var n2 := n1 + 1 + |p|;
    var j := n2 + 1;
    assert text[i..i + |s|] == s;
    assert text[j..j + |e|] == e;
    assert text[n1..j] == mid;
    assert text[n1 + 1..n2] == p;
    assert text[n1] == '\n' && text[n2] == '\n';
    NoOccurrenceByChar(text, s, c, 0, i);
    assert FirstAt(text, s, i);
    forall k: nat | n1 <= k < j ensures !OccursAt(text, e, k) {
      // An occurrence covering a line feed of the region would put a line
      // feed in `e`; one inside `p` would be an occurrence in `p`.
      if OccursAt(text, e, k) {
        if k + |e| > n2 {
          assert false;
        } else if k == n1 {
          assert false;
        } else {
          OccursWithin(text, p, e, n1 + 1, k);
          assert false;
        }
      }
    }
    TextBetweenExact(text, s, e, i, j);
  }

  /** A region between two indented sentinel lines: for a text laid out as
      `h + "\n" + u + s + "\n" + m + "\n" + u + e + post`, the text between
      `s` and `e` is `"\n" + m + "\n" + u`, provided neither sentinel holds a
      line feed or starts with a character of the indentation `u`, `s` does
      not occur in `h` and `e` does not occur in `m`. */
  lemma BetweenIndentedSentinels(h: string, u: string, s: string, m: string, e: string, post: string)
    requires s != [] && e != [] && '\n' !in s && '\n' !in e && s[0] !in u && e[0] !in u
    requires !Contains(h, s) && !Contains(m, e)
    ensures TextBetween(h + "\n" + u + s + "\n" + m + "\n" + u + e + post, s, e)
         == Some("\n" + m + "\n" + u)
  {
    SentinelLayout(h, u, s, m, e, post);
    RegionAt(h + "\n" + u + s + "\n" + m + "\n" + u + e + post, h, u, s, m, e);
  }

  /** The same, for a text known only through where its pieces sit. */
  lemma RegionAt(text: string, h: string, u: string, s: string, m: string, e: string)
    requires s != [] && e != [] && '\n' !in s && '\n' !in e && s[0] !in u && e[0] !in u
    requires !Contains(h, s) && !Contains(m, e)
    requires var n1 := |h| + 1 + |u| + |s|;
      && n1 + |"\n" + m + "\n" + u| + |e| <= |text|
      && text[0..n1] == h + "\n" + u + s
      && text[n1..n1 + |"\n" + m + "\n" + u|] == "\n" + m + "\n" + u
      && text[n1 + |"\n" + m + "\n" + u|..n1 + |"\n" + m + "\n" + u| + |e|] == e
    ensures var n1 := |h| + 1 + |u| + |s|;
      TextBetween(text, s, e) == Some(text[n1..n1 + |"\n" + m + "\n" + u|])
  {
    var n1 := |h| + 1 + |u| + |s|;
    var mid := "\n" + m + "\n" + u;
    StartAt(text, h, u, s);
    EndAfter(text, n1, m, u, e);
    TextBetweenExact(text, s, e, |h| + 1 + |u|, n1 + |mid|);
  }

  /** The first occurrence of a sentinel written on an indented line after `h`. */
  lemma StartAt(text: string, h: string, u: string, s: string)
    requires s != [] && '\n' !in s && s[0] !in u && !Contains(h, s)
    requires |h| + 1 + |u| + |s| <= |text| && text[0..|h| + 1 + |u| + |s|] == h + "\n" + u + s
    ensures FirstAt(text, s, |h| + 1 + |u|)
  {
    var front := h + "\n" + u + s;
    var b := |h| + 1;
    assert front[0..|h|] == h && front[|h|] == '\n' && front[b..b + |u|] == u && front[b + |u|..] == s;
    assert text[0..|h|] == front[0..|h|] && text[|h|] == front[|h|];
    assert text[b..b + |u|] == front[b..b + |u|] && text[b + |u|..b + |u| + |s|] == front[b + |u|..];
    FreeLine(text, h, s, 0);
    FreeRun(text, u, s, b);
  }

  /** No closing sentinel starts in the region `"\n" + m + "\n" + u` at `n1`. */
  lemma EndAfter(text: string, n1: nat, m: string, u: string, e: string)
    requires e != [] && '\n' !in e && e[0] !in u && !Contains(m, e)
    requires n1 + |"\n" + m + "\n" + u| <= |text| && text[n1..n1 + |"\n" + m + "\n" + u|] == "\n" + m + "\n" + u
    ensures forall k: nat :: n1 <= k < n1 + |"\n" + m + "\n" + u| ==> !OccursAt(text, e, k)
  {
    var mid := "\n" + m + "\n" + u;
    var n2 := n1 + 1 + |m|;
    MidLayout(m, u);
    SliceOfSlice(text, n1, n1 + |mid|, 0, 1);
    SliceOfSlice(text, n1, n1 + |mid|, 1, 1 + |m|);
    SliceOfSlice(text, n1, n1 + |mid|, 2 + |m|, |mid|);
    assert text[n1..n1 + |mid|][1 + |m|] == text[n2];
    assert e[0] !in "\n";
    FreeRun(text, "\n", e, n1);
    FreeLine(text, m, e, n1 + 1);
    FreeRun(text, u, e, n2 + 1);
  }

  lemma MidLayout(m: string, u: string)
    ensures var mid := "\n" + m + "\n" + u;
      && mid[0..1] == "\n" && mid[1..1 + |m|] == m && mid[1 + |m|] == '\n' && mid[2 + |m|..|mid|] == u
  {
  }

  /** Where the pieces of a sentinel region sit. */
  lemma SentinelLayout(h: string, u: string, s: string, m: string, e: string, post: string)
    ensures var text := h + "\n" + u + s + "\n" + m + "\n" + u + e + post;
      var n1 := |h| + 1 + |u| + |s|;
      && n1 + |"\n" + m + "\n" + u| + |e| <= |text|
      && text[0..n1] == h + "\n" + u + s
      && text[n1..n1 + |"\n" + m + "\n" + u|] == "\n" + m + "\n" + u
      && text[n1 + |"\n" + m + "\n" + u|..n1 + |"\n" + m + "\n" + u| + |e|] == e
  {
    var front := h + "\n" + u + s;
    var mid := "\n" + m + "\n" + u;
    var text := front + mid + (e + post);
    assert text == h + "\n" + u + s + "\n" + m + "\n" + u + e + post;
    assert text[0..|front|] == front;
    assert text[|front|..|front| + |mid|] == mid;
    assert text[|front| + |mid|..|front| + |mid| + |e|] == e;
  }

  /** A header line, lines joined by line feeds and a footer line cut back
      into their lines. */
  lemma BracedLines(header: string, ys: seq<string>, footer: string)
    requires |ys| >= 1 && NoBreaks(header) && NoBreaks(footer)
    requires forall i :: 0 <= i < |ys| ==> NoBreaks(ys[i])
    ensures Lines(header + "\n" + Join(ys, '\n') + "\n" + footer) == [header] + ys + [footer]
  {
    JoinAround(header, ys, footer, '\n');
    BracedSingle(header, ys, footer);
    LinesOfJoin([header] + ys + [footer]);
  }

  lemma BracedSingle(header: string, ys: seq<string>, footer: string)
    requires NoBreaks(header) && NoBreaks(footer)
    requires forall i :: 0 <= i < |ys| ==> NoBreaks(ys[i])
    ensures var all := [header] + ys + [footer];
      forall i :: 0 <= i < |all| ==> '\n' !in all[i] && '\r' !in all[i]
  {
    var all := [header] + ys + [footer];
    forall i | 0 <= i < |all| ensures '\n' !in all[i] && '\r' !in all[i] {
      if i == 0 {
        assert all[i] == header;
      } else if i < |all| - 1 {
        assert all[i] == ys[i - 1];
      } else {
        assert all[i] == footer;
      }
    }
  }
}
