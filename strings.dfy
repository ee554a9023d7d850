/** The PHP string built-ins the generator relies on, written out over
    `seq<char>`: `str_repeat`, `str_replace` of one character, `explode`,
    `implode`, `trim`/`ltrim`, `strpos`, `strcmp`, `ucfirst` and the decimal
    rendering of an integer. Every character the generator inspects is ASCII,
    so counting characters agrees with PHP's counting of bytes here. */
module Strings {
  import opened Wrappers

  // ---------------------------------------------------------------------------
  // str_repeat

  function Repeat(s: string, n: nat): (r: string)
    ensures |r| == |s| * n
    ensures forall c :: c in r ==> c in s
    decreases n
  {
    if n == 0 then "" else s + Repeat(s, n - 1)
  }

  lemma {:induction false} RepeatAdd(s: string, a: nat, b: nat)
    ensures Repeat(s, a) + Repeat(s, b) == Repeat(s, a + b)
    decreases a
  {
    if a > 0 {
      RepeatAdd(s, a - 1, b);
      calc {
        Repeat(s, a) + Repeat(s, b);
        (s + Repeat(s, a - 1)) + Repeat(s, b);
        s + (Repeat(s, a - 1) + Repeat(s, b));
        s + Repeat(s, a - 1 + b);
        Repeat(s, a + b);
      }
    }
  }

  lemma RepeatOne(s: string)
    ensures Repeat(s, 1) == s
  {
    assert Repeat(s, 0) == "";
  }

  // ---------------------------------------------------------------------------
  // str_replace with one-character search and replacement

  function ReplaceChar(s: string, from: char, to: char): (r: string)
    ensures |r| == |s|
    ensures from != to ==> from !in r
    ensures forall i :: 0 <= i < |s| && s[i] != from ==> r[i] == s[i]
  {
    seq(|s|, i requires 0 <= i < |s| => if s[i] == from then to else s[i])
  }

  // ---------------------------------------------------------------------------
  // explode and implode on one separator character

  /** `explode(sep, s)`: the maximal separator-free pieces of `s`, including
      empty pieces at the ends and between adjacent separators. */
  function Split(s: string, sep: char): (parts: seq<string>)
    ensures |parts| >= 1
    ensures forall i :: 0 <= i < |parts| ==> sep !in parts[i]
    decreases |s|
  {
    if s == [] then [""]
    else
      var rest := Split(s[1..], sep);
      if s[0] == sep then [""] + rest
      else [[s[0]] + rest[0]] + rest[1..]
  }

  /** A character of a piece is a character of the text. */
  lemma {:induction false} SplitChars(s: string, sep: char, c: char)
    requires c !in s
    ensures forall i :: 0 <= i < |Split(s, sep)| ==> c !in Split(s, sep)[i]
    decreases |s|
  {
    if s != [] {
      assert forall x :: x in s[1..] ==> x in s;
      SplitChars(s[1..], sep, c);
    }
  }

  /** `implode(sep, parts)`. */
  function Join(parts: seq<string>, sep: char): string
    requires |parts| >= 1
    decreases |parts|
  {
    if |parts| == 1 then parts[0] else parts[0] + [sep] + Join(parts[1..], sep)
  }

  lemma {:induction false} JoinSplit(s: string, sep: char)
    ensures Join(Split(s, sep), sep) == s
    decreases |s|
  {
    if s != [] {
      var rest := Split(s[1..], sep);
      JoinSplit(s[1..], sep);
      if s[0] == sep {
        assert ([""] + rest)[1..] == rest;
      } else if |rest| == 1 {
        assert Join(Split(s, sep), sep) == [s[0]] + rest[0];
      } else {
        var parts := [[s[0]] + rest[0]] + rest[1..];
        assert parts[1..] == rest[1..];
        assert Join(parts, sep) == [s[0]] + (rest[0] + [sep] + Join(rest[1..], sep));
      }
    }
  }

  /** Splitting `a + b` when `a` holds no separator glues `a` onto the first piece of `b`. */
  lemma {:induction false} SplitPrefix(a: string, b: string, sep: char)
    requires sep !in a
    ensures Split(a + b, sep) == [a + Split(b, sep)[0]] + Split(b, sep)[1..]
    decreases |a|
  {
    if a != [] {
      SplitPrefix(a[1..], b, sep);
      assert (a + b)[1..] == a[1..] + b;
      var p := Split(b, sep);
      var rest := Split(a[1..] + b, sep);
      assert rest[0] == a[1..] + p[0] && rest[1..] == p[1..];
      assert Split(a + b, sep) == [[a[0]] + rest[0]] + rest[1..];
      assert [a[0]] + (a[1..] + p[0]) == a + p[0];
    } else {
      assert a + b == b;
      var p := Split(b, sep);
      assert p == [p[0]] + p[1..];
      assert a + p[0] == p[0];
    }
  }

  lemma {:induction false} SplitJoin(parts: seq<string>, sep: char)
    requires |parts| >= 1
    requires forall i :: 0 <= i < |parts| ==> sep !in parts[i]
    ensures Split(Join(parts, sep), sep) == parts
    decreases |parts|
  {
    if |parts| == 1 {
      SplitPrefix(parts[0], "", sep);
      assert parts[0] + "" == parts[0];
    } else {
      var tail := Join(parts[1..], sep);
      SplitJoin(parts[1..], sep);
      SplitPrefix(parts[0], [sep] + tail, sep);
      assert Join(parts, sep) == parts[0] + ([sep] + tail);
      var q := Split([sep] + tail, sep);
      assert q == [""] + Split(tail, sep) by {
        assert ([sep] + tail)[1..] == tail;
      }
      assert q[0] == "" && q[1..] == parts[1..];
      assert parts[0] + q[0] == parts[0];
      assert parts == [parts[0]] + parts[1..];
    }
  }

  lemma {:induction false} JoinAppend(parts: seq<string>, x: string, sep: char)
    requires |parts| >= 1
    ensures Join(parts + [x], sep) == Join(parts, sep) + [sep] + x
    decreases |parts|
  {
    if |parts| == 1 {
      assert (parts + [x])[1..] == [x];
    } else {
      assert (parts + [x])[1..] == parts[1..] + [x];
      JoinAppend(parts[1..], x, sep);
    }
  }

  lemma JoinCons(x: string, parts: seq<string>, sep: char)
    requires |parts| >= 1
    ensures Join([x] + parts, sep) == x + [sep] + Join(parts, sep)
  {
    assert ([x] + parts)[1..] == parts;
  }

  /** Text between two lines, joined by line feeds, is the joined line list. */
  lemma JoinAround(a: string, middle: seq<string>, b: string, sep: char)
    requires |middle| >= 1
    ensures a + [sep] + Join(middle, sep) + [sep] + b == Join([a] + middle + [b], sep)
  {
    var j := Join(middle, sep);
    JoinAppend(middle, b, sep);
    JoinCons(a, middle + [b], sep);
    assert [a] + middle + [b] == [a] + (middle + [b]);
    AroundRegrouped(a, j, b, sep);
  }

  lemma AroundRegrouped(a: string, j: string, b: string, sep: char)
    ensures a + [sep] + (j + [sep] + b) == a + [sep] + j + [sep] + b
  {
  }

  /** A text without separator is a single piece. */
  lemma SplitSingle(s: string, sep: char)
    requires sep !in s
    ensures Split(s, sep) == [s]
  {
    SplitJoin([s], sep);
  }

  /** Cutting at a separator between two texts cuts each of them apart. */
  lemma {:induction false} SplitAppend(x: string, y: string, sep: char)
    ensures Split(x + [sep] + y, sep) == Split(x, sep) + Split(y, sep)
    decreases |x|
  {
    var b := Split(y, sep);
    if x == [] {
      assert x + [sep] + y == [sep] + y;
      assert ([sep] + y)[1..] == y;
      assert Split([sep] + y, sep) == [""] + b;
    } else {
      var t := x + [sep] + y;
      assert t[0] == x[0];
      assert t[1..] == x[1..] + [sep] + y;
      SplitAppend(x[1..], y, sep);
      var a := Split(x[1..], sep);
      if x[0] != sep {
        SplitConsAppend(x[0], a, b);
      } else {
        PartsAssoc([""], a, b);
      }
    }
  }

  lemma SplitConsAppend(c: char, a: seq<string>, b: seq<string>)
    requires |a| >= 1
    ensures [[c] + (a + b)[0]] + (a + b)[1..] == [[c] + a[0]] + a[1..] + b
  {
    assert (a + b)[0] == a[0] && (a + b)[1..] == a[1..] + b;
  }

  lemma PartsAssoc(p: seq<string>, a: seq<string>, b: seq<string>)
    ensures p + (a + b) == p + a + b
  {
  }

  /** Joining two runs of parts puts one separator between them. */
  lemma {:induction false} JoinConcat(xs: seq<string>, ys: seq<string>, sep: char)
    requires |xs| >= 1 && |ys| >= 1
    ensures Join(xs + ys, sep) == Join(xs, sep) + [sep] + Join(ys, sep)
    decreases |xs|
  {
    if |xs| == 1 {
      JoinCons(xs[0], ys, sep);
      assert xs + ys == [xs[0]] + ys;
    } else {
      assert (xs + ys)[1..] == xs[1..] + ys;
      JoinConcat(xs[1..], ys, sep);
    }
  }

  lemma ReplaceAppend(a: string, b: string, from: char, to: char)
    ensures ReplaceChar(a + b, from, to) == ReplaceChar(a, from, to) + ReplaceChar(b, from, to)
  {
  }

  /** A stretch of a stretch is a stretch of the whole. */
  lemma SliceOfSlice(t: string, a: nat, b: nat, c: nat, d: nat)
    requires a <= b <= |t| && c <= d <= b - a
    ensures t[a..b][c..d] == t[a + c..a + d]
  {
    forall k | c <= k < d ensures t[a..b][k] == t[a + k] { }
    assert forall k :: 0 <= k < d - c ==> t[a..b][c..d][k] == t[a..b][c + k];
  }

  lemma TailSlice(s: string, o: nat, e: nat)
    requires o <= e < |s|
    ensures s[1..][o..e] == s[o + 1..e + 1]
  {
    forall k | 0 <= k < e - o ensures s[1..][o..e][k] == s[o + 1..e + 1][k] { }
  }

  lemma PieceAfterHead(s: string, o: nat, p: string)
    requires o + |p| < |s| && s[1..][o..o + |p|] == p
    ensures s[o + 1..o + 1 + |p|] == p
  {
    TailSlice(s, o, o + |p|);
  }

  lemma PieceWithHead(s: string, p: string)
    requires |p| < |s| && s[1..][0..|p|] == p
    ensures s[0..1 + |p|] == [s[0]] + p
  {
    TailSlice(s, 0, |p|);
    assert s[0..1 + |p|] == [s[0]] + s[1..1 + |p|];
  }

  /** A piece of `explode` is a stretch of the text. */
  lemma {:induction false} SplitPieceWithin(s: string, sep: char, i: nat) returns (off: nat)
    requires i < |Split(s, sep)|
    ensures off + |Split(s, sep)[i]| <= |s| && s[off..off + |Split(s, sep)[i]|] == Split(s, sep)[i]
    ensures i == 0 ==> off == 0
    decreases |s|
  {
    if s == [] {
      off := 0;
    } else {
      var rest := Split(s[1..], sep);
      if s[0] == sep {
        assert Split(s, sep) == [""] + rest;
        if i == 0 {
          off := 0;
        } else {
          var o := SplitPieceWithin(s[1..], sep, i - 1);
          assert Split(s, sep)[i] == rest[i - 1];
          off := o + 1;
          PieceAfterHead(s, o, rest[i - 1]);
        }
      } else {
        assert Split(s, sep) == [[s[0]] + rest[0]] + rest[1..];
        if i == 0 {
          var o := SplitPieceWithin(s[1..], sep, 0);
          off := 0;
          PieceWithHead(s, rest[0]);
        } else {
          var o := SplitPieceWithin(s[1..], sep, i);
          assert Split(s, sep)[i] == rest[i];
          off := o + 1;
          PieceAfterHead(s, o, rest[i]);
        }
      }
    }
  }

  // ---------------------------------------------------------------------------
  // A string accumulated line by line: every piece followed by "\n"

  /** The text a PHP loop `$acc .= $line . "\n"` builds over `lines`. */
  function Terminated(lines: seq<string>): string
    decreases |lines|
  {
    if lines == [] then "" else Terminated(lines[..|lines| - 1]) + lines[|lines| - 1] + "\n"
  }

  lemma {:induction false} TerminatedJoin(lines: seq<string>)
    requires |lines| >= 1
    ensures Terminated(lines) == Join(lines, '\n') + "\n"
    decreases |lines|
  {
    if |lines| == 1 {
      assert lines[..0] == [];
    } else {
      var init := lines[..|lines| - 1];
      TerminatedJoin(init);
      JoinAppend(init, lines[|lines| - 1], '\n');
      assert init + [lines[|lines| - 1]] == lines;
    }
  }

  /** Cutting text accumulated line by line at its line feeds gives the lines
      back, and an empty piece after the final line feed. */
  lemma SplitTerminated(lines: seq<string>)
    requires |lines| >= 1
    requires forall i :: 0 <= i < |lines| ==> '\n' !in lines[i]
    ensures Split(Terminated(lines), '\n') == lines + [""]
  {
    TerminatedJoin(lines);
    JoinAppend(lines, "", '\n');
    assert Join(lines, '\n') + "\n" == Join(lines, '\n') + ['\n'] + "";
    SplitJoin(lines + [""], '\n');
  }

  /** A line feed, the lines accumulated line by line, and the text after
      them are the joined line list. */
  lemma TerminatedAround(a: string, lines: seq<string>, b: string)
    ensures a + "\n" + Terminated(lines) + b == Join([a] + lines + [b], '\n')
  {
    if lines == [] {
      assert [a] + lines + [b] == [a, b];
      assert [a, b][1..] == [b];
    } else {
      TerminatedJoin(lines);
      JoinAround(a, lines, b, '\n');
    }
  }

  /** Text appended to joined parts extends the last part. */
  lemma JoinExtendLast(parts: seq<string>, x: string, sep: char)
    requires |parts| >= 1
    ensures Join(parts, sep) + x == Join(parts[..|parts| - 1] + [parts[|parts| - 1] + x], sep)
  {
    var init := parts[..|parts| - 1];
    var last := parts[|parts| - 1];
    if |parts| > 1 {
      assert parts == init + [last];
      JoinAppend(init, last, sep);
      JoinAppend(init, last + x, sep);
    } else {
      assert init + [last + x] == [last + x];
    }
  }

  /** One more line accumulated. */
  lemma TerminatedSnoc(lines: seq<string>, x: string)
    ensures Terminated(lines + [x]) == Terminated(lines) + x + "\n"
  {
    assert (lines + [x])[..|lines|] == lines;
  }

  /** Accumulating two runs of lines one after the other. */
  lemma {:induction false} TerminatedAppend(a: seq<string>, b: seq<string>)
    ensures Terminated(a + b) == Terminated(a) + Terminated(b)
    decreases |b|
  {
    if b == [] {
      assert a + b == a;
    } else {
      var init := b[..|b| - 1];
      var last := b[|b| - 1];
      TerminatedAppend(a, init);
      assert (a + b)[..|a + b| - 1] == a + init;
      AppendAssoc(Terminated(a), Terminated(init), last, "\n");
    }
  }

  /** A first line in front of lines accumulated line by line. */
  lemma {:induction false} TerminatedCons(x: string, lines: seq<string>)
    ensures x + "\n" + Terminated(lines) == Terminated([x] + lines)
    decreases |lines|
  {
    if lines != [] {
      var init := lines[..|lines| - 1];
      var last := lines[|lines| - 1];
      TerminatedCons(x, init);
      assert ([x] + lines)[..|lines|] == [x] + init;
    }
  }

  /** A character other than the line feed occurs in accumulated lines only
      where it occurs in one of them. */
  lemma {:induction false} TerminatedChars(lines: seq<string>, c: char)
    requires c != '\n'
    requires forall i :: 0 <= i < |lines| ==> c !in lines[i]
    ensures c !in Terminated(lines)
    decreases |lines|
  {
    if lines != [] {
      TerminatedChars(lines[..|lines| - 1], c);
    }
  }

  /** A single line: neither a line feed nor a carriage return. */
  predicate NoBreaks(s: string) {
    '\n' !in s && '\r' !in s
  }

  /** Gluing single lines together gives a single line. */
  lemma NoBreaksAppend(a: string, b: string)
    requires NoBreaks(a) && NoBreaks(b)
    ensures NoBreaks(a + b)
  {
  }

  /** The first and the last of three glued pieces are cut off again. */
  lemma Ends(a: string, b: string, c: string)
    ensures |a + b + c| == |a| + |b| + |c|
    ensures (a + b + c)[..|a|] == a && (a + b + c)[|a| + |b|..] == c
  {
  }

  /** Regrouping a concatenation of four pieces. */
  lemma AppendAssoc(a: string, b: string, c: string, d: string)
    ensures a + b + c + d == a + (b + c + d)
  {
  }

  /** The pieces glued together without separator. */
  function Concat(parts: seq<string>): string
    decreases |parts|
  {
    if parts == [] then "" else parts[0] + Concat(parts[1..])
  }

  lemma {:induction false} ConcatAppend(parts: seq<string>, x: string)
    ensures Concat(parts + [x]) == Concat(parts) + x
    decreases |parts|
  {
    if parts != [] {
      assert (parts + [x])[1..] == parts[1..] + [x];
      ConcatAppend(parts[1..], x);
    }
  }

  /** `s` without any `c`. */
  function Remove(s: string, c: char): (r: string)
    ensures c !in r
    decreases |s|
  {
    if s == [] then "" else (if s[0] == c then "" else [s[0]]) + Remove(s[1..], c)
  }

  /** Gluing the pieces of `explode` back together drops the separators. */
  lemma {:induction false} ConcatSplit(s: string, sep: char)
    ensures Concat(Split(s, sep)) == Remove(s, sep)
    decreases |s|
  {
    if s != [] {
      var rest := Split(s[1..], sep);
      ConcatSplit(s[1..], sep);
      if s[0] == sep {
        assert ([""] + rest)[1..] == rest;
      } else {
        var parts := [[s[0]] + rest[0]] + rest[1..];
        assert parts[1..] == rest[1..];
        assert Concat(rest) == rest[0] + Concat(rest[1..]);
      }
    }
  }

  // ---------------------------------------------------------------------------
  // trim($s, c) and ltrim($s)

  function TrimLeft(s: string, c: char): (r: string)
    ensures |r| <= |s| && r == s[|s| - |r|..]
    ensures r == [] || r[0] != c
    ensures forall i :: 0 <= i < |s| - |r| ==> s[i] == c
    decreases |s|
  {
    if s != [] && s[0] == c then TrimLeft(s[1..], c) else s
  }

  function TrimRight(s: string, c: char): (r: string)
    ensures |r| <= |s| && r == s[..|r|]
    ensures r == [] || r[|r| - 1] != c
    ensures forall i :: |r| <= i < |s| ==> s[i] == c
    decreases |s|
  {
    if s != [] && s[|s| - 1] == c then TrimRight(s[..|s| - 1], c) else s
  }

  /** `trim($s, c)`: `s` without its leading and trailing runs of `c`. */
  function Trim(s: string, c: char): (r: string)
    ensures r == [] || (r[0] != c && r[|r| - 1] != c)
  {
    TrimRight(TrimLeft(s, c), c)
  }

  /** Trimming only removes characters. */
  lemma TrimChars(s: string, c: char)
    ensures forall x :: x in Trim(s, c) ==> x in s
  {
    var l := TrimLeft(s, c);
    assert forall x :: x in TrimRight(l, c) ==> x in l;
    assert forall x :: x in l ==> x in s;
  }

  /** Appending one more trimmed character changes nothing. */
  lemma TrimAppend(s: string, c: char)
    ensures Trim(s + [c], c) == Trim(s, c)
  {
    var t := TrimLeft(s, c);
    if t == [] {
      forall i | 0 <= i < |s| + 1 ensures (s + [c])[i] == c {
        if i < |s| { assert s[i] == c; }
      }
      TrimLeftAll(s + [c], c);
    } else {
      TrimLeftAppend(s, [c], c);
      assert TrimLeft(s + [c], c) == t + [c];
      assert (t + [c])[..|t + [c]| - 1] == t;
    }
  }

  lemma {:induction false} TrimLeftAll(s: string, c: char)
    requires forall i :: 0 <= i < |s| ==> s[i] == c
    ensures TrimLeft(s, c) == []
    decreases |s|
  {
    if s != [] { TrimLeftAll(s[1..], c); }
  }

  /** Text after a character other than `c` is not touched by the left trim. */
  lemma {:induction false} TrimLeftAppend(s: string, u: string, c: char)
    requires TrimLeft(s, c) != []
    ensures TrimLeft(s + u, c) == TrimLeft(s, c) + u
    decreases |s|
  {
    assert s != [] && (s + u)[0] == s[0];
    if s[0] == c {
      assert TrimLeft(s, c) == TrimLeft(s[1..], c);
      assert (s + u)[1..] == s[1..] + u;
      assert TrimLeft(s + u, c) == TrimLeft(s[1..] + u, c);
      TrimLeftAppend(s[1..], u, c);
    } else {
      assert TrimLeft(s, c) == s && TrimLeft(s + u, c) == s + u;
    }
  }

  /** A string that neither starts nor ends with `c` is its own trim. */
  lemma TrimUntouched(s: string, c: char)
    requires s == [] || (s[0] != c && s[|s| - 1] != c)
    ensures Trim(s, c) == s
  {
  }

  predicate IsPhpSpace(ch: char) {
    ch == ' ' || ch == '\t' || ch == '\n' || ch == '\r' || ch == '\0' || ch == '\U{0B}'
  }

  /** `strlen($s) - strlen(ltrim($s))`: the length of the leading whitespace. */
  function LeadingSpaceCount(s: string): (n: nat)
    ensures n <= |s|
    ensures forall i :: 0 <= i < n ==> IsPhpSpace(s[i])
    ensures n < |s| ==> !IsPhpSpace(s[n])
    decreases |s|
  {
    if s == [] || !IsPhpSpace(s[0]) then 0 else 1 + LeadingSpaceCount(s[1..])
  }

  lemma {:induction false} LeadingSpaceOfPrefix(w: string, s: string)
    requires forall i :: 0 <= i < |w| ==> IsPhpSpace(w[i])
    ensures LeadingSpaceCount(w + s) >= |w|
    decreases |w|
  {
    if w != [] {
      assert (w + s)[1..] == w[1..] + s;
      LeadingSpaceOfPrefix(w[1..], s);
    }
  }

  // ---------------------------------------------------------------------------
  // strpos

  ghost predicate OccursAt(text: string, pat: string, k: nat) {
    k + |pat| <= |text| && text[k..k + |pat|] == pat
  }

  ghost predicate Contains(text: string, pat: string) {
    exists k: nat :: OccursAt(text, pat, k)
  }

  /** `strpos($text, $pat, $from)`: the first position at or after `from`
      where `pat` occurs (an empty `pat` is found at `from`). */
  function FindFrom(text: string, pat: string, from: nat): (r: Option<nat>)
    requires from <= |text|
    ensures r.Some? ==> from <= r.value && OccursAt(text, pat, r.value)
    ensures r.Some? ==> forall k: nat :: from <= k < r.value ==> !OccursAt(text, pat, k)
    ensures r.None? ==> forall k: nat :: from <= k ==> !OccursAt(text, pat, k)
    decreases |text| - from
  {
    if from + |pat| > |text| then None
    else if text[from..from + |pat|] == pat then Some(from)
    else FindFrom(text, pat, from + 1)
  }

  /** An occurrence that no earlier position at or after `from` has is what `strpos` finds. */
  lemma FindFromFirst(text: string, pat: string, from: nat, k: nat)
    requires from <= k && OccursAt(text, pat, k)
    requires forall j: nat :: from <= j < k ==> !OccursAt(text, pat, j)
    ensures FindFrom(text, pat, from) == Some(k)
  {
  }

  /** No position of `a` starts an occurrence of `pat` whose first character is not in `a`. */
  lemma NoOccurrenceStartingIn(a: string, b: string, pat: string, from: nat)
    requires |pat| > 0 && from <= |a|
    requires pat[0] !in a[from..]
    ensures forall j: nat :: from <= j < |a| ==> !OccursAt(a + b, pat, j)
  {
    forall j: nat | from <= j < |a| ensures !OccursAt(a + b, pat, j) {
      assert a[j] in a[from..];
      assert (a + b)[j] == a[j] != pat[0];
    }
  }

  /** A position where `text` does not carry `pat`'s character at offset `c`
      starts no occurrence of `pat`. */
  lemma NoOccurrenceByChar(text: string, pat: string, c: nat, lo: nat, hi: nat)
    requires c < |pat|
    requires forall m: nat :: lo + c <= m < hi + c && m < |text| ==> text[m] != pat[c]
    ensures forall k: nat :: lo <= k < hi ==> !OccursAt(text, pat, k)
  {
    forall k: nat | lo <= k < hi ensures !OccursAt(text, pat, k) {
      if k + |pat| <= |text| {
        assert text[k..k + |pat|][c] == text[k + c];
      }
    }
  }

  // ---------------------------------------------------------------------------
  // Texts in which a single-line pattern does not occur

  /** A stretch of a text has no occurrence the text lacks. */
  lemma FreeSlice(text: string, pat: string, i: nat, j: nat)
    requires i <= j <= |text| && !Contains(text, pat)
    ensures !Contains(text[i..j], pat)
  {
    forall k: nat | OccursAt(text[i..j], pat, k) ensures OccursAt(text, pat, i + k) {
      SliceOfSlice(text, i, j, k, k + |pat|);
    }
  }

  /** A text lacking one of the pattern's characters lacks the pattern. */
  lemma FreeByChar(text: string, pat: string, c: char)
    requires c in pat && c !in text
    ensures !Contains(text, pat)
  {
    var m :| 0 <= m < |pat| && pat[m] == c;
    forall k: nat ensures !OccursAt(text, pat, k) {
      if k + |pat| <= |text| {
        assert text[k..k + |pat|][m] == text[k + m] != c;
      }
    }
  }

  /** No occurrence of a pattern without line feeds starts in a stretch `a`
      of the text that lacks it and is followed by a line feed, nor at that
      line feed. */
  lemma FreeLine(text: string, a: string, pat: string, off: nat)
    requires pat != [] && '\n' !in pat && !Contains(a, pat)
    requires off + |a| < |text| && text[off..off + |a|] == a && text[off + |a|] == '\n'
    ensures forall k: nat :: off <= k <= off + |a| ==> !OccursAt(text, pat, k)
  {
    forall k: nat | off <= k <= off + |a| ensures !OccursAt(text, pat, k) {
      if k + |pat| <= off + |a| {
        OccursWithin(text, a, pat, off, k);
      } else if k + |pat| <= |text| {
        assert text[k..k + |pat|][off + |a| - k] == '\n' != pat[off + |a| - k];
      }
    }
  }

  /** An occurrence lying inside a copy of `p` is exactly an occurrence in `p`. */
  lemma OccursWithin(text: string, p: string, e: string, off: nat, k: nat)
    requires off + |p| <= |text| && text[off..off + |p|] == p
    requires off <= k && k + |e| <= off + |p|
    ensures OccursAt(text, e, k) <==> OccursAt(p, e, k - off)
  {
    var q := k - off;
    forall t | k <= t < k + |e| ensures text[t] == p[t - off] {
      assert text[off..off + |p|][t - off] == text[t];
    }
    assert text[k..k + |e|] == p[q..q + |e|];
  }

  /** No occurrence starts in a run of characters other than the pattern's first. */
  lemma FreeRun(text: string, u: string, pat: string, off: nat)
    requires pat != [] && pat[0] !in u
    requires off + |u| <= |text| && text[off..off + |u|] == u
    ensures forall k: nat :: off <= k < off + |u| ==> !OccursAt(text, pat, k)
  {
    forall k: nat | off <= k < off + |u| ensures !OccursAt(text, pat, k) {
      if k + |pat| <= |text| {
        assert text[k..k + |pat|][0] == text[k] == u[k - off] != pat[0];
      }
    }
  }

  /** Two texts lacking a pattern without line feeds, joined by a line feed. */
  lemma FreeSep(a: string, b: string, pat: string)
    requires pat != [] && '\n' !in pat && !Contains(a, pat) && !Contains(b, pat)
    ensures !Contains(a + "\n" + b, pat)
  {
    var text := a + "\n" + b;
    assert text[..|a|] == a && text[|a|] == '\n';
    FreeLine(text, a, pat, 0);
    forall k: nat | |a| < k ensures !OccursAt(text, pat, k) {
      if k + |pat| <= |text| {
        assert text[k..k + |pat|] == b[k - |a| - 1..k - |a| - 1 + |pat|];
        assert !OccursAt(b, pat, k - |a| - 1);
      }
    }
  }

  /** A prefix of characters other than the pattern's first adds no occurrence. */
  lemma FreePrefixed(u: string, x: string, pat: string)
    requires pat != [] && pat[0] !in u && !Contains(x, pat)
    ensures !Contains(u + x, pat)
  {
    var text := u + x;
    assert text[..|u|] == u;
    FreeRun(text, u, pat, 0);
    forall k: nat | |u| <= k ensures !OccursAt(text, pat, k) {
      if k + |pat| <= |text| {
        assert text[k..k + |pat|] == x[k - |u|..k - |u| + |pat|];
        assert !OccursAt(x, pat, k - |u|);
      }
    }
  }

  /** Parts lacking a pattern without line feeds, joined by line feeds. */
  lemma {:induction false} FreeJoin(parts: seq<string>, pat: string)
    requires |parts| >= 1 && pat != [] && '\n' !in pat
    requires forall i :: 0 <= i < |parts| ==> !Contains(parts[i], pat)
    ensures !Contains(Join(parts, '\n'), pat)
    decreases |parts|
  {
    if |parts| > 1 {
      FreeJoin(parts[1..], pat);
      FreeSep(parts[0], Join(parts[1..], '\n'), pat);
      assert Join(parts, '\n') == parts[0] + "\n" + Join(parts[1..], '\n');
    }
  }

  /** Lines accumulated line by line, each lacking a pattern without line feeds. */
  lemma FreeTerminated(lines: seq<string>, pat: string)
    requires pat != [] && '\n' !in pat
    requires forall i :: 0 <= i < |lines| ==> !Contains(lines[i], pat)
    ensures !Contains(Terminated(lines), pat)
  {
    if lines != [] {
      TerminatedJoin(lines);
      FreeJoin(lines, pat);
      FreeSep(Join(lines, '\n'), "", pat);
      assert Join(lines, '\n') + "\n" == Join(lines, '\n') + "\n" + "";
    }
  }

  /** A character other than the pattern's last, appended, adds no occurrence. */
  lemma FreeAppendChar(x: string, c: char, pat: string)
    requires pat != [] && pat[|pat| - 1] != c && !Contains(x, pat)
    ensures !Contains(x + [c], pat)
  {
    var text := x + [c];
    forall k: nat ensures !OccursAt(text, pat, k) {
      if k + |pat| <= |x| {
        assert text[k..k + |pat|] == x[k..k + |pat|] && !OccursAt(x, pat, k);
      } else if k + |pat| <= |text| {
        assert text[k..k + |pat|][|x| - k] == c;
      }
    }
  }

  /** Text after lines accumulated line by line, all lacking a pattern
      without line feeds. */
  lemma FreeAfterLines(lines: seq<string>, x: string, pat: string)
    requires pat != [] && '\n' !in pat && !Contains(x, pat)
    requires forall i :: 0 <= i < |lines| ==> !Contains(lines[i], pat)
    ensures !Contains(Terminated(lines) + x, pat)
  {
    if lines == [] {
      assert Terminated(lines) + x == x;
    } else {
      TerminatedJoin(lines);
      FreeJoin(lines, pat);
      FreeSep(Join(lines, '\n'), x, pat);
    }
  }

  /** Turning one character into another absent from the pattern adds no occurrence. */
  lemma FreeReplaced(text: string, pat: string, from: char, to: char)
    requires to !in pat && !Contains(text, pat)
    ensures !Contains(ReplaceChar(text, from, to), pat)
  {
    var r := ReplaceChar(text, from, to);
    forall k: nat | OccursAt(r, pat, k) ensures OccursAt(text, pat, k) {
      forall t | 0 <= t < |pat| ensures text[k + t] == pat[t] {
        assert r[k..k + |pat|][t] == r[k + t];
        assert pat[t] != to;
      }
      assert text[k..k + |pat|] == pat;
    }
  }

  /** Every piece of `explode` lacks what the text lacks. */
  lemma FreePieces(s: string, sep: char, pat: string)
    requires !Contains(s, pat)
    ensures forall i :: 0 <= i < |Split(s, sep)| ==> !Contains(Split(s, sep)[i], pat)
  {
    forall i | 0 <= i < |Split(s, sep)| ensures !Contains(Split(s, sep)[i], pat) {
      var off := SplitPieceWithin(s, sep, i);
      FreeSlice(s, pat, off, off + |Split(s, sep)[i]|);
    }
  }

  /** Trimming leaves a stretch of the text. */
  lemma FreeTrimmed(s: string, c: char, pat: string)
    requires !Contains(s, pat)
    ensures !Contains(Trim(s, c), pat)
  {
    var l := TrimLeft(s, c);
    FreeSlice(s, pat, |s| - |l|, |s|);
    assert l == s[|s| - |l|..|s|];
    var r := TrimRight(l, c);
    FreeSlice(l, pat, 0, |r|);
    assert r == l[0..|r|];
  }

  // ---------------------------------------------------------------------------
  // strcmp (byte-wise; on Unicode scalar values this is code-point order, which
  // is also the byte order of their UTF-8 encodings)

  predicate StrLess(a: string, b: string)
    decreases |a|
  {
    if a == [] then b != []
    else if b == [] then false
    else if a[0] != b[0] then a[0] < b[0]
    else StrLess(a[1..], b[1..])
  }

  predicate StrLeq(a: string, b: string) {
    !StrLess(b, a)
  }

  lemma {:induction false} StrLessIrreflexive(a: string)
    ensures !StrLess(a, a)
    decreases |a|
  {
    if a != [] { StrLessIrreflexive(a[1..]); }
  }

  lemma {:induction false} StrLessTransitive(a: string, b: string, c: string)
    requires StrLess(a, b) && StrLess(b, c)
    ensures StrLess(a, c)
    decreases |a|
  {
    if a != [] && b != [] && c != [] && a[0] == b[0] == c[0] {
      StrLessTransitive(a[1..], b[1..], c[1..]);
    }
  }

  lemma {:induction false} StrLessTotal(a: string, b: string)
    ensures a == b || StrLess(a, b) || StrLess(b, a)
    decreases |a|
  {
    if a != [] && b != [] && a[0] == b[0] {
      StrLessTotal(a[1..], b[1..]);
      if a[1..] == b[1..] {
        assert a == [a[0]] + a[1..] && b == [b[0]] + b[1..];
      }
    }
  }

  lemma StrLeqTransitive(a: string, b: string, c: string)
    requires StrLeq(a, b) && StrLeq(b, c)
    ensures StrLeq(a, c)
  {
    if StrLess(c, a) {
      StrLessTotal(a, b);
      StrLessTotal(b, c);
      if a == b {
      } else if b == c {
      } else {
        StrLessTransitive(a, b, c);
        StrLessIrreflexive(a);
        StrLessTransitive(c, a, c);
        StrLessIrreflexive(c);
      }
    }
  }

  // ---------------------------------------------------------------------------
  // ucfirst and ASCII lower-casing

  predicate IsAsciiLower(c: char) { 'a' <= c <= 'z' }
  predicate IsAsciiUpper(c: char) { 'A' <= c <= 'Z' }

  function ToUpperChar(c: char): char {
    if IsAsciiLower(c) then (c as int - 32) as char else c
  }

  function ToLowerChar(c: char): char {
    if IsAsciiUpper(c) then (c as int + 32) as char else c
  }

  /** `ucfirst($s)`: upper-cases an ASCII lower-case first letter. */
  function UcFirst(s: string): (r: string)
    ensures |r| == |s|
    ensures s != [] ==> r[1..] == s[1..] && ToLowerChar(r[0]) == ToLowerChar(s[0])
  {
    if s == [] then s else [ToUpperChar(s[0])] + s[1..]
  }

  function ToLower(s: string): (r: string)
    ensures |r| == |s|
  {
    seq(|s|, i requires 0 <= i < |s| => ToLowerChar(s[i]))
  }

  lemma ToLowerAppend(a: string, b: string)
    ensures ToLower(a + b) == ToLower(a) + ToLower(b)
  {
  }

  lemma ToLowerUcFirst(s: string)
    ensures ToLower(UcFirst(s)) == ToLower(s)
  {
    if s != [] {
      var r := UcFirst(s);
      forall i | 0 <= i < |s| ensures ToLower(r)[i] == ToLower(s)[i] {
        if i > 0 {
          assert r[i] == r[1..][i - 1] == s[1..][i - 1] == s[i];
        }
      }
    }
  }

  /** `ucfirst` never produces characters that are neither in the text nor
      ASCII capitals. */
  lemma UcFirstChars(s: string, c: char)
    requires c !in s && !IsAsciiUpper(c)
    ensures c !in UcFirst(s)
  {
    if s != [] {
      var r := UcFirst(s);
      forall i | 0 <= i < |r| ensures r[i] != c {
        if i > 0 {
          assert r[i] == r[1..][i - 1] == s[1..][i - 1] == s[i];
        }
      }
    }
  }

  // ---------------------------------------------------------------------------
  // Decimal rendering of a non-negative integer, as PHP's string conversion of an int

  function DecimalDigit(d: nat): (c: char)
    requires d < 10
    ensures '0' <= c <= '9'
  {
    "0123456789"[d]
  }

  function NatToString(n: nat): (s: string)
    ensures |s| >= 1
    ensures forall i :: 0 <= i < |s| ==> '0' <= s[i] <= '9'
    decreases n
  {
    if n < 10 then [DecimalDigit(n)] else NatToString(n / 10) + [DecimalDigit(n % 10)]
  }
}
