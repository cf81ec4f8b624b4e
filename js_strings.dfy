/**
 * The JavaScript built-ins that content.js leans on, written out over
 * strings: truthiness, the `\s` character class, `trim`, the global
 * `replace(/\s+/g, ' ')`, `indexOf`, `replace` with a string pattern and
 * the `[\u0600-\u06FF]` test.
 */
module JsStrings {
  import opened Wrappers

  /** JavaScript truthiness of a string that may be `undefined` or `null`: only a present, non-empty string is truthy. */
  predicate Truthy(s: Option<string>) {
    s.Some? && s.value != ""
  }

  /**
   * The characters matched by `\s` in a regular expression, which are also the
   * ones `String.prototype.trim` removes: WhiteSpace and LineTerminator of
   * ECMA-262 (tab, line tabulation, form feed, no-break space, byte order mark,
   * the space separators, line feed, carriage return, line and paragraph separators).
   */
  predicate IsSpace(c: char) {
    var n := c as int;
    n == 0x09 || n == 0x0A || n == 0x0B || n == 0x0C || n == 0x0D || n == 0x20 ||
    n == 0xA0 || n == 0x1680 || (0x2000 <= n <= 0x200A) || n == 0x2028 ||
    n == 0x2029 || n == 0x202F || n == 0x205F || n == 0x3000 || n == 0xFEFF
  }

  /** Leading whitespace removed: a suffix of `s` that does not start with whitespace. */
  function TrimStart(s: string): (r: string)
    ensures |r| <= |s| && r == s[|s| - |r|..]
    ensures forall i :: 0 <= i < |s| - |r| ==> IsSpace(s[i])
    ensures r == [] || !IsSpace(r[0])
  {
    if s != [] && IsSpace(s[0]) then TrimStart(s[1..]) else s
  }

  /** Trailing whitespace removed: a prefix of `s` that does not end with whitespace. */
  function TrimEnd(s: string): (r: string)
    ensures |r| <= |s| && r == s[..|r|]
    ensures forall i :: |r| <= i < |s| ==> IsSpace(s[i])
    ensures r == [] || !IsSpace(r[|r| - 1])
  {
    if s != [] && IsSpace(s[|s| - 1]) then TrimEnd(s[..|s| - 1]) else s
  }

  /** `s.trim()`. */
  function Trim(s: string): (r: string)
    ensures r == [] || (!IsSpace(r[0]) && !IsSpace(r[|r| - 1]))
  {
    TrimEnd(TrimStart(s))
  }

  /** No whitespace other than the plain space, and never two whitespace characters in a row. */
  ghost predicate Collapsed(s: string) {
    && (forall i :: 0 <= i < |s| && IsSpace(s[i]) ==> s[i] == ' ')
    && (forall i :: 0 <= i < |s| - 1 && IsSpace(s[i]) ==> !IsSpace(s[i + 1]))
  }

  /** `s.replace(/\s+/g, ' ')`: every maximal run of whitespace becomes one space. */
  function CollapseSpaces(s: string): (r: string)
    ensures s != [] ==> r != [] && (if IsSpace(s[0]) then r[0] == ' ' else r[0] == s[0])
    decreases |s|
  {
    if s == [] then []
    else if IsSpace(s[0]) then [' '] + CollapseSpaces(TrimStart(s))
    else [s[0]] + CollapseSpaces(s[1..])
  }

  /** The characters of `s` that are not whitespace, in order. */
  function NonSpace(s: string): string {
    if s == [] then []
    else (if IsSpace(s[0]) then [] else [s[0]]) + NonSpace(s[1..])
  }

  /** Whether `pat` occurs in `s` starting at index `i`. */
  predicate OccursAt(s: string, pat: string, i: nat) {
    i + |pat| <= |s| && s[i..i + |pat|] == pat
  }

  /** `s.indexOf(pat, from)`, with `None` standing for -1. */
  function IndexOfFrom(s: string, pat: string, from: nat): (r: Option<nat>)
    ensures r.Some? ==> from <= r.value && OccursAt(s, pat, r.value)
    ensures forall j :: from <= j && (r.None? || j < r.value) ==> !OccursAt(s, pat, j)
    decreases |s| - from
  {
    if OccursAt(s, pat, from) then Some(from)
    else if from + |pat| >= |s| then None
    else IndexOfFrom(s, pat, from + 1)
  }

  /** `s.indexOf(pat)`. */
  function IndexOf(s: string, pat: string): Option<nat> {
    IndexOfFrom(s, pat, 0)
  }

  /**
   * The text that `String.prototype.replace` puts in place of a match when the
   * pattern is a string (ECMA-262 GetSubstitution with no capture groups):
   * `$$` stands for `$`, `$&` for the match, `` $` `` for the text before it and
   * `$'` for the text after it; every other character, a lone `$` included, is literal.
   */
  function Substitution(matched: string, str: string, position: nat, replacement: string): string
    requires position + |matched| <= |str|
    decreases |replacement|
  {
    if replacement == [] then []
    else if |replacement| >= 2 && replacement[0] == '$' && replacement[1] == '$' then
      "$" + Substitution(matched, str, position, replacement[2..])
    else if |replacement| >= 2 && replacement[0] == '$' && replacement[1] == '&' then
      matched + Substitution(matched, str, position, replacement[2..])
    else if |replacement| >= 2 && replacement[0] == '$' && replacement[1] == '`' then
      str[..position] + Substitution(matched, str, position, replacement[2..])
    else if |replacement| >= 2 && replacement[0] == '$' && replacement[1] == '\'' then
      str[position + |matched|..] + Substitution(matched, str, position, replacement[2..])
    else
      [replacement[0]] + Substitution(matched, str, position, replacement[1..])
  }

  /** `s.replace(pat, replacement)` for a string `pat`: only the first occurrence is replaced. */
  function ReplaceFirst(s: string, pat: string, replacement: string): string {
    match IndexOf(s, pat)
    case None => s
    case Some(p) => s[..p] + Substitution(pat, s, p, replacement) + s[p + |pat|..]
  }

  /** A character of the block U+0600 to U+06FF (Arabic script, used for Persian). */
  predicate IsArabicBlock(c: char) {
    '\U{0600}' <= c <= '\U{06FF}'
  }

  /** `/[\u0600-\u06FF]/.test(s)`, scanning from the left. */
  function HasArabicBlockChar(s: string): (r: bool)
    ensures r <==> exists i :: 0 <= i < |s| && IsArabicBlock(s[i])
  {
    s != [] && (IsArabicBlock(s[0]) || HasArabicBlockChar(s[1..]))
  }

  // ---------------------------------------------------------------------
  // Properties of the built-ins

  /** A replacement without `$` is inserted literally. */
  lemma {:induction false} SubstitutionLiteral(matched: string, str: string, position: nat, replacement: string)
    requires position + |matched| <= |str|
    requires '$' !in replacement
    ensures Substitution(matched, str, position, replacement) == replacement
    decreases |replacement|
  {
    if replacement != [] {
      assert replacement[0] != '$';
      assert '$' !in replacement[1..] by {
        forall k | 0 <= k < |replacement| - 1 ensures replacement[1..][k] != '$' {
          assert replacement[1..][k] == replacement[k + 1];
        }
      }
      SubstitutionLiteral(matched, str, position, replacement[1..]);
    }
  }

  lemma {:induction false} NonSpaceAppend(a: string, b: string)
    ensures NonSpace(a + b) == NonSpace(a) + NonSpace(b)
    decreases |a|
  {
    if a != [] {
      var head := if IsSpace(a[0]) then [] else [a[0]];
      assert (a + b)[0] == a[0];
      assert (a + b)[1..] == a[1..] + b;
      NonSpaceAppend(a[1..], b);
      calc {
        NonSpace(a + b);
        head + NonSpace(a[1..] + b);
        head + (NonSpace(a[1..]) + NonSpace(b));
        (head + NonSpace(a[1..])) + NonSpace(b);
        NonSpace(a) + NonSpace(b);
      }
    } else {
      assert a + b == b;
    }
  }

  lemma {:induction false} NonSpaceOfSpaces(s: string)
    requires forall i :: 0 <= i < |s| ==> IsSpace(s[i])
    ensures NonSpace(s) == []
    decreases |s|
  {
    if s != [] {
      NonSpaceOfSpaces(s[1..]);
    }
  }

  /** Removing leading whitespace removes whitespace only. */
  lemma TrimStartKeepsText(s: string)
    ensures NonSpace(TrimStart(s)) == NonSpace(s)
  {
    var t := TrimStart(s);
    var k := |s| - |t|;
    var lead := s[..k];
    assert s == lead + t;
    forall i | 0 <= i < |lead| ensures IsSpace(lead[i]) {
      assert lead[i] == s[i];
    }
    NonSpaceOfSpaces(lead);
    NonSpaceAppend(lead, t);
  }

  /** Removing trailing whitespace removes whitespace only. */
  lemma TrimEndKeepsText(s: string)
    ensures NonSpace(TrimEnd(s)) == NonSpace(s)
  {
    var u := TrimEnd(s);
    assert s == u + s[|u|..];
    NonSpaceOfSpaces(s[|u|..]);
    NonSpaceAppend(u, s[|u|..]);
  }

  /** Trimming removes whitespace only. */
  lemma TrimKeepsText(s: string)
    ensures NonSpace(Trim(s)) == NonSpace(s)
  {
    TrimStartKeepsText(s);
    TrimEndKeepsText(TrimStart(s));
  }

  /** Collapsing runs of whitespace removes whitespace only. */
  lemma {:induction false} CollapseKeepsText(s: string)
    ensures NonSpace(CollapseSpaces(s)) == NonSpace(s)
    decreases |s|
  {
    if s == [] {
    } else if IsSpace(s[0]) {
      var t := TrimStart(s);
      var k := |s| - |t|;
      CollapseKeepsText(t);
      NonSpaceAppend([' '], CollapseSpaces(t));
      assert s == s[..k] + t;
      NonSpaceOfSpaces(s[..k]);
      NonSpaceAppend(s[..k], t);
    } else {
      CollapseKeepsText(s[1..]);
      NonSpaceAppend([s[0]], CollapseSpaces(s[1..]));
    }
  }

  /** A string that is already collapsed is left alone by collapsing. */
  lemma {:induction false} CollapseFixed(s: string)
    requires Collapsed(s)
    ensures CollapseSpaces(s) == s
    decreases |s|
  {
    if s != [] {
      var t := s[1..];
      CollapsedSlice(s, 1, |s|);
      CollapseFixed(t);
      if IsSpace(s[0]) {
        assert s[0] == ' ';
        assert t == [] || !IsSpace(t[0]);
        assert TrimStart(s) == t;
      }
      assert s == [s[0]] + t;
    }
  }

  /** Putting one character in front keeps a string collapsed when that character is text, or a plain space before text. */
  lemma ConsCollapsed(c: char, x: string)
    requires Collapsed(x)
    requires IsSpace(c) ==> c == ' ' && (x == [] || !IsSpace(x[0]))
    ensures Collapsed([c] + x)
  {
    var y := [c] + x;
    forall i | 1 <= i < |y| ensures y[i] == x[i - 1] { }
  }

  /** After the replace, the only whitespace is the plain space, and no two whitespace characters are adjacent. */
  lemma {:induction false} CollapseIsCollapsed(s: string)
    ensures Collapsed(CollapseSpaces(s))
    decreases |s|
  {
    if s == [] {
    } else if IsSpace(s[0]) {
      var t := TrimStart(s);
      CollapseIsCollapsed(t);
      ConsCollapsed(' ', CollapseSpaces(t));
    } else {
      CollapseIsCollapsed(s[1..]);
      ConsCollapsed(s[0], CollapseSpaces(s[1..]));
    }
  }

  /** A slice of a collapsed string is collapsed. */
  lemma CollapsedSlice(s: string, a: nat, b: nat)
    requires Collapsed(s) && a <= b <= |s|
    ensures Collapsed(s[a..b])
  {
    var t := s[a..b];
    forall i | 0 <= i < |t| ensures t[i] == s[a + i] { }
  }

  /** Trimming a collapsed string leaves it collapsed. */
  lemma TrimCollapsed(s: string)
    requires Collapsed(s)
    ensures Collapsed(Trim(s))
  {
    var t := TrimStart(s);
    CollapsedSlice(s, |s| - |t|, |s|);
    CollapsedSlice(t, 0, |TrimEnd(t)|);
  }

  // ---------------------------------------------------------------------
  // Whitespace runs next to text

  /** Trimming the front of a string that ends in text only touches its front part. */
  lemma {:induction false} TrimStartAppend(a: string, c: string)
    requires a != [] && !IsSpace(a[|a| - 1])
    ensures TrimStart(a + c) == TrimStart(a) + c
    decreases |a|
  {
    assert (a + c)[0] == a[0];
    if IsSpace(a[0]) {
      assert (a + c)[1..] == a[1..] + c;
      TrimStartAppend(a[1..], c);
    }
  }

  /** Trimming the end of a string whose tail starts with text only touches that tail. */
  lemma {:induction false} TrimEndAppend(c: string, b: string)
    requires b != [] && !IsSpace(b[0])
    ensures TrimEnd(c + b) == c + TrimEnd(b)
    decreases |b|
  {
    assert (c + b)[|c + b| - 1] == b[|b| - 1];
    if IsSpace(b[|b| - 1]) {
      assert (c + b)[..|c + b| - 1] == c + b[..|b| - 1];
      TrimEndAppend(c, b[..|b| - 1]);
    }
  }

  /** A run of whitespace in front of text is removed entirely by trimming the front. */
  lemma {:induction false} TrimStartSpaces(w: string, b: string)
    requires forall i :: 0 <= i < |w| ==> IsSpace(w[i])
    requires b == [] || !IsSpace(b[0])
    ensures TrimStart(w + b) == b
    decreases |w|
  {
    if w == [] {
      assert w + b == b;
    } else {
      assert (w + b)[0] == w[0];
      assert (w + b)[1..] == w[1..] + b;
      TrimStartSpaces(w[1..], b);
    }
  }

  /** Collapsing keeps the last character of a string that ends in text. */
  lemma {:induction false} CollapseKeepsLast(a: string)
    requires a != [] && !IsSpace(a[|a| - 1])
    ensures var r := CollapseSpaces(a); r != [] && r[|r| - 1] == a[|a| - 1]
    decreases |a|
  {
    if IsSpace(a[0]) {
      var t := TrimStart(a);
      assert t != [] && t[|t| - 1] == a[|a| - 1];
      CollapseKeepsLast(t);
    } else if |a| > 1 {
      CollapseKeepsLast(a[1..]);
    }
  }

  /** A run of whitespace in front of text collapses to one space. */
  lemma CollapseLeadingRun(w: string, b: string)
    requires w != [] && forall i :: 0 <= i < |w| ==> IsSpace(w[i])
    requires b == [] || !IsSpace(b[0])
    ensures CollapseSpaces(w + b) == " " + CollapseSpaces(b)
  {
    assert (w + b)[0] == w[0];
    TrimStartSpaces(w, b);
  }

  /** Collapsing a string that starts with text keeps that character and collapses the rest. */
  lemma CollapseTextHead(a: string, c: string)
    requires a != [] && !IsSpace(a[0])
    ensures CollapseSpaces(a + c) == [a[0]] + CollapseSpaces(a[1..] + c)
    ensures CollapseSpaces(a) == [a[0]] + CollapseSpaces(a[1..])
  {
    assert (a + c)[0] == a[0];
    assert (a + c)[1..] == a[1..] + c;
  }

  /** Collapsing a string that starts with whitespace and ends in text: one space, then the rest from its first text. */
  lemma CollapseSpaceHead(a: string, c: string)
    requires a != [] && IsSpace(a[0]) && !IsSpace(a[|a| - 1])
    ensures CollapseSpaces(a + c) == " " + CollapseSpaces(TrimStart(a) + c)
    ensures CollapseSpaces(a) == " " + CollapseSpaces(TrimStart(a))
  {
    assert (a + c)[0] == a[0];
    TrimStartAppend(a, c);
  }

  /** Trimming the front of a string that ends in text leaves text with the same last character. */
  lemma TrimStartKeepsLast(a: string)
    requires a != [] && !IsSpace(a[|a| - 1])
    ensures var t := TrimStart(a); t != [] && t[|t| - 1] == a[|a| - 1] && !IsSpace(t[0])
  {
    var t := TrimStart(a);
    assert t == a[|a| - |t|..];
  }

  /** A string that ends in text has no trailing whitespace to trim. */
  lemma TrimEndOfText(z: string)
    requires z != [] && !IsSpace(z[|z| - 1])
    ensures TrimEnd(z) == z
  {
  }

  /** A string that starts with text has no leading whitespace to trim. */
  lemma TrimStartOfTextStart(z: string)
    requires z != [] && !IsSpace(z[0])
    ensures TrimStart(z) == z
  {
  }

  /** Trimming the front of a string that starts with whitespace and ends in text leaves a shorter string ending the same way. */
  lemma TrimStartOfText(a: string)
    requires a != [] && IsSpace(a[0]) && !IsSpace(a[|a| - 1])
    ensures var t := TrimStart(a); t != [] && |t| < |a| && t[|t| - 1] == a[|a| - 1]
  {
    var t := TrimStart(a);
    assert t == a[|a| - |t|..];
  }

  /** Regrouping a concatenation of three strings. */
  lemma Regroup(x: string, y: string, z: string)
    ensures x + (y + z) == x + y + z
  {
  }

  /** Collapsing distributes over a split between text and whitespace. */
  lemma {:induction false} CollapseSplit(a: string, c: string)
    requires a == [] || !IsSpace(a[|a| - 1])
    requires c != [] && IsSpace(c[0])
    ensures CollapseSpaces(a + c) == CollapseSpaces(a) + CollapseSpaces(c)
    decreases |a|
  {
    if a == [] {
      assert a + c == c;
    } else if IsSpace(a[0]) {
      var t := TrimStart(a);
      TrimStartOfText(a);
      CollapseSpaceHead(a, c);
      CollapseSplit(t, c);
      Regroup(" ", CollapseSpaces(t), CollapseSpaces(c));
    } else {
      CollapseTextHead(a, c);
      CollapseSplit(a[1..], c);
      Regroup([a[0]], CollapseSpaces(a[1..]), CollapseSpaces(c));
    }
  }

  /**
   * Each maximal run of whitespace becomes exactly one space: collapsing text,
   * then a run, then text is collapsing each piece of text with one space between.
   */
  lemma CollapseRun(a: string, w: string, b: string)
    requires w != [] && forall i :: 0 <= i < |w| ==> IsSpace(w[i])
    requires a == [] || !IsSpace(a[|a| - 1])
    requires b == [] || !IsSpace(b[0])
    ensures CollapseSpaces(a + w + b) == CollapseSpaces(a) + " " + CollapseSpaces(b)
  {
    assert (w + b)[0] == w[0];
    CollapseSplit(a, w + b);
    CollapseLeadingRun(w, b);
    Regroup(a, w, b);
    Regroup(CollapseSpaces(a), " ", CollapseSpaces(b));
  }
}
