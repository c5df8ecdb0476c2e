/** String operations of the .NET base library that the collectors rely on:
    `String.Trim`, `String.StartsWith`, `String.Replace` and the line splitting
    performed by a process's redirected output reader. Strings are sequences
    of Unicode scalar values; no culture-specific comparison is modelled. */
module Text {

  /** `Char.IsWhiteSpace`: the Unicode separator categories Zs, Zl and Zp,
      plus the control characters U+0009 to U+000D and U+0085. */
  predicate IsWhiteSpace(c: char) {
    var n := c as int;
    || (0x09 <= n <= 0x0D)
    || n == 0x20
    || n == 0x85
    || n == 0xA0
    || n == 0x1680
    || (0x2000 <= n <= 0x200A)
    || n == 0x2028
    || n == 0x2029
    || n == 0x202F
    || n == 0x205F
    || n == 0x3000
  }

  /** Every character of `s` satisfies `p`. */
  predicate All(s: string, p: char -> bool) {
    forall i :: 0 <= i < |s| ==> p(s[i])
  }

  /** Length of the longest prefix of `s` whose characters all satisfy `p`. */
  function LeadingCount(s: string, p: char -> bool): (k: nat)
    ensures k <= |s|
    ensures All(s[..k], p)
    ensures k < |s| ==> !p(s[k])
  {
    if |s| == 0 || !p(s[0]) then 0
    else
      var k := 1 + LeadingCount(s[1..], p);
      assert forall i :: 1 <= i < k ==> s[..k][i] == s[1..][..k - 1][i - 1];
      k
  }

  /** Start index of the longest suffix of `s` whose characters all satisfy `p`. */
  function TrailingStart(s: string, p: char -> bool): (k: nat)
    ensures k <= |s|
    ensures All(s[k..], p)
    ensures 0 < k ==> !p(s[k - 1])
  {
    if |s| == 0 || !p(s[|s| - 1]) then |s|
    else
      var k := TrailingStart(s[..|s| - 1], p);
      assert forall i :: k <= i < |s| - 1 ==> s[i] == s[..|s| - 1][i];
      k
  }

  /** `r` is `s` with a prefix and a suffix removed, each consisting only of
      characters satisfying `p`. */
  ghost predicate StrippedFrom(r: string, s: string, p: char -> bool) {
    exists i, j :: 0 <= i <= j <= |s| && r == s[i..j] && All(s[..i], p) && All(s[j..], p)
  }

  /** Removes every leading and trailing character that satisfies `p`. */
  function Strip(s: string, p: char -> bool): (r: string)
    ensures StrippedFrom(r, s, p)
    ensures |r| > 0 ==> !p(r[0]) && !p(r[|r| - 1])
    ensures r == [] <==> All(s, p)
  {
    var i := LeadingCount(s, p);
    var u := s[i..];
    var k := TrailingStart(u, p);
    var j := i + k;
    assert u[k..] == s[j..];
    assert s[i..j] == u[..k];
    AllOfParts(s, i, p);
    assert All(s, p) ==> i == |s|;
    s[i..j]
  }

  /** A text whose two parts at `i` both satisfy `p` throughout satisfies it
      throughout. */
  lemma AllOfParts(s: string, i: nat, p: char -> bool)
    requires i <= |s|
    ensures All(s[..i], p) && All(s[i..], p) ==> All(s, p)
  {
    if All(s[..i], p) && All(s[i..], p) {
      forall m | 0 <= m < |s|
        ensures p(s[m])
      {
        if m < i {
          assert s[..i][m] == s[m];
        } else {
          assert s[i..][m - i] == s[m];
        }
      }
    }
  }

  /** The leading run of `p` characters stops at or before any character
      that does not satisfy `p`. */
  lemma {:induction false} LeadingStops(s: string, p: char -> bool, i: nat)
    requires i < |s| && !p(s[i])
    ensures LeadingCount(s, p) <= i
  {
    if p(s[0]) {
      assert s[1..][i - 1] == s[i];
      LeadingStops(s[1..], p, i - 1);
    }
  }

  /** The leading run of `p` characters covers any prefix made of them. */
  lemma {:induction false} LeadingCovers(s: string, p: char -> bool, k: nat)
    requires k <= |s| && All(s[..k], p)
    ensures k <= LeadingCount(s, p)
  {
    if k > 0 {
      assert s[..k][0] == s[0];
      var t := s[1..];
      var u := t[..k - 1];
      forall i | 0 <= i < |u|
        ensures p(u[i])
      {
        assert u[i] == s[..k][i + 1];
      }
      LeadingCovers(t, p, k - 1);
    }
  }

  /** The trailing run of `p` characters starts after any character that
      does not satisfy `p`. */
  lemma {:induction false} TrailingStops(s: string, p: char -> bool, i: nat)
    requires i < |s| && !p(s[i])
    ensures i < TrailingStart(s, p)
  {
    if p(s[|s| - 1]) {
      assert s[..|s| - 1][i] == s[i];
      TrailingStops(s[..|s| - 1], p, i);
    }
  }

  /** The result of `Strip` is the slice between the leading run and the
      trailing run. */
  lemma StripIsSlice(s: string, p: char -> bool)
    ensures Strip(s, p) == s[LeadingCount(s, p)..LeadingCount(s, p) + TrailingStart(s[LeadingCount(s, p)..], p)]
  {
  }

  /** A character that does not satisfy `p` survives stripping, shifted by
      the number of characters removed in front. */
  lemma StripKeeps(s: string, p: char -> bool, i: nat)
    requires i < |s| && !p(s[i])
    ensures LeadingCount(s, p) <= i < LeadingCount(s, p) + |Strip(s, p)|
    ensures Strip(s, p)[i - LeadingCount(s, p)] == s[i]
  {
    var a := LeadingCount(s, p);
    var u := s[a..];
    LeadingStops(s, p, i);
    assert u[i - a] == s[i];
    TrailingStops(u, p, i - a);
    StripIsSlice(s, p);
  }

  /** Stripping a string that is `t` padded on both sides by characters
      satisfying `p` gives back `t`, when `t` neither starts nor ends with such
      a character. */
  lemma StripPadded(front: string, t: string, back: string, p: char -> bool)
    requires All(front, p) && All(back, p)
    requires |t| > 0 ==> !p(t[0]) && !p(t[|t| - 1])
    ensures Strip(front + t + back, p) == t
  {
    var s := front + t + back;
    var i := LeadingCount(s, p);
    assert forall m :: 0 <= m < i ==> p(s[m]);
    assert forall m :: 0 <= m < |front| ==> s[m] == front[m];
    if |t| > 0 {
      assert s[|front|] == t[0];
      assert i == |front|;
      var u := s[i..];
      assert u == t + back;
      var k := TrailingStart(u, p);
      assert forall m :: k <= m < |u| ==> p(u[m]);
      assert forall m :: |t| <= m < |u| ==> u[m] == back[m - |t|];
      assert u[|t| - 1] == t[|t| - 1];
      assert k == |t|;
    } else {
      assert s == front + back;
      assert All(s, p);
    }
  }

  /** `String.Trim()`: removes leading and trailing white space. */
  function Trim(s: string): (r: string)
    ensures StrippedFrom(r, s, IsWhiteSpace)
    ensures |r| > 0 ==> !IsWhiteSpace(r[0]) && !IsWhiteSpace(r[|r| - 1])
    ensures r == [] <==> All(s, IsWhiteSpace)
  {
    Strip(s, IsWhiteSpace)
  }

  /** Ordinal `String.StartsWith`. */
  predicate StartsWith(s: string, prefix: string) {
    |prefix| <= |s| && s[..|prefix|] == prefix
  }

  /** `needle` occurs in `s` starting at index `i`. */
  predicate OccursAt(s: string, needle: string, i: int) {
    0 <= i <= |s| - |needle| && s[i..i + |needle|] == needle
  }

  /** `needle` occurs somewhere inside `s`. */
  ghost predicate Contains(s: string, needle: string) {
    exists i :: OccursAt(s, needle, i)
  }

  /** `String.Replace(pattern, replacement)`: scans left to right and replaces
      every non-overlapping occurrence of `pattern`. */
  function ReplaceAll(s: string, pattern: string, replacement: string): string
    requires |pattern| > 0
    decreases |s|
  {
    if StartsWith(s, pattern) then replacement + ReplaceAll(s[|pattern|..], pattern, replacement)
    else if |s| == 0 then []
    else [s[0]] + ReplaceAll(s[1..], pattern, replacement)
  }

  /** Text in which the pattern does not occur comes back unchanged. */
  lemma {:induction false} ReplaceAllWithoutPattern(s: string, pattern: string, replacement: string)
    requires |pattern| > 0
    requires forall i :: !OccursAt(s, pattern, i)
    ensures ReplaceAll(s, pattern, replacement) == s
    decreases |s|
  {
    if |s| > 0 {
      assert !OccursAt(s, pattern, 0);
      forall i
        ensures !OccursAt(s[1..], pattern, i)
      {
        if OccursAt(s[1..], pattern, i) {
          OccursShift(s, pattern, i);
          assert false;
        }
      }
      ReplaceAllWithoutPattern(s[1..], pattern, replacement);
      assert s == [s[0]] + s[1..];
    }
  }

  /** An occurrence in the tail of a text is an occurrence in the text, one
      index later. */
  lemma OccursShift(s: string, needle: string, i: int)
    requires |s| > 0 && OccursAt(s[1..], needle, i)
    ensures OccursAt(s, needle, i + 1)
  {
    assert s[1..][i..i + |needle|] == s[i + 1..i + 1 + |needle|];
  }

  /** The characters a .NET text reader treats as line terminators. */
  predicate IsLineBreak(c: char) {
    c == '\n' || c == '\r'
  }

  /** A character that can be part of a line. */
  predicate InLine(c: char) {
    !IsLineBreak(c)
  }

  predicate NoLineBreak(s: string) {
    forall i :: 0 <= i < |s| ==> !IsLineBreak(s[i])
  }

  /** The line-break characters of `s`, in order. */
  function Breaks(s: string): seq<char> {
    if |s| == 0 then []
    else (if IsLineBreak(s[0]) then [s[0]] else []) + Breaks(s[1..])
  }

  /** The pieces of a split put back together, each separator between two
      consecutive pieces. */
  function Interleave(pieces: seq<string>, separators: seq<char>): string
    requires |pieces| == |separators| + 1
  {
    if |separators| == 0 then pieces[0]
    else pieces[0] + [separators[0]] + Interleave(pieces[1..], separators[1..])
  }

  /** Text without line breaks has no breaks to report. */
  lemma {:induction false} BreaksOfLine(s: string)
    requires All(s, InLine)
    ensures Breaks(s) == []
  {
    if |s| > 0 {
      assert All(s[1..], InLine) by {
        assert forall i :: 0 <= i < |s| - 1 ==> s[1..][i] == s[i + 1];
      }
      BreaksOfLine(s[1..]);
    }
  }

  /** The first line break of `s`, at `k`, is the first entry of `Breaks(s)`;
      the others are those after it. */
  lemma {:induction false} BreaksAfter(s: string, k: nat)
    requires k < |s| && All(s[..k], InLine) && IsLineBreak(s[k])
    ensures Breaks(s) == [s[k]] + Breaks(s[k + 1..])
  {
    if k > 0 {
      assert s[..k][0] == s[0];
      var t := s[1..];
      var u := t[..k - 1];
      forall i | 0 <= i < |u|
        ensures InLine(u[i])
      {
        assert u[i] == s[..k][i + 1];
      }
      assert t[k - 1] == s[k] && t[k..] == s[k + 1..];
      BreaksAfter(t, k - 1);
    }
  }

  /** Splits `s` at every line-break character, CR and LF alike: the pieces
      hold no line break, and putting the breaks of `s` back between them
      gives `s` again. A CR LF pair therefore yields one extra empty piece
      compared with `TextReader.ReadLine`; the collectors discard empty lines,
      so the lines they keep are the same. */
  function SplitLines(s: string): (lines: seq<string>)
    ensures |lines| > 0
    ensures forall i :: 0 <= i < |lines| ==> NoLineBreak(lines[i])
    ensures |lines| == |Breaks(s)| + 1 && Interleave(lines, Breaks(s)) == s
    decreases |s|
  {
    var k := LeadingCount(s, InLine);
    assert NoLineBreak(s[..k]) by {
      assert All(s[..k], InLine);
    }
    if k == |s| then
      assert s[..k] == s;
      BreaksOfLine(s);
      [s]
    else
      var rest := SplitLines(s[k + 1..]);
      RejoinFirst(s, k, rest);
      [s[..k]] + rest
  }

  /** Putting the first piece and the first break back in front of the
      rejoined rest gives the whole text. */
  lemma RejoinFirst(s: string, k: nat, rest: seq<string>)
    requires k < |s| && All(s[..k], InLine) && IsLineBreak(s[k])
    requires |rest| == |Breaks(s[k + 1..])| + 1 && Interleave(rest, Breaks(s[k + 1..])) == s[k + 1..]
    ensures |[s[..k]] + rest| == |Breaks(s)| + 1 && Interleave([s[..k]] + rest, Breaks(s)) == s
  {
    BreaksAfter(s, k);
    var pieces := [s[..k]] + rest;
    assert pieces[0] == s[..k] && pieces[1..] == rest;
    assert Interleave(pieces, Breaks(s)) == s[..k] + [s[k]] + s[k + 1..];
    assert s == s[..k] + [s[k]] + s[k + 1..];
  }

  /** The entries of `Breaks(s)` are line-break characters. */
  lemma {:induction false} BreaksAreBreaks(s: string)
    ensures forall i :: 0 <= i < |Breaks(s)| ==> IsLineBreak(Breaks(s)[i])
  {
    if |s| > 0 {
      BreaksAreBreaks(s[1..]);
    }
  }

  /** The split is the only one with break-free pieces that rejoin to the
      text, so the contract of `SplitLines` determines it. */
  lemma {:induction false} SplitLinesUnique(s: string, pieces: seq<string>)
    requires forall i :: 0 <= i < |pieces| ==> NoLineBreak(pieces[i])
    requires |pieces| == |Breaks(s)| + 1 && Interleave(pieces, Breaks(s)) == s
    ensures pieces == SplitLines(s)
    decreases |s|
  {
    if |Breaks(s)| == 0 {
      assert pieces == [s] && SplitLines(s) == [s];
    } else {
      var k := FirstPiece(s, pieces);
      LeadingCovers(s, InLine, k);
      LeadingStops(s, InLine, k);
      SplitLinesUnique(s[k + 1..], pieces[1..]);
      assert pieces == [pieces[0]] + pieces[1..];
    }
  }

  /** When the text has a break, the first piece of such a split is the text
      up to the first break, and the other pieces split what follows it. */
  lemma FirstPiece(s: string, pieces: seq<string>) returns (k: nat)
    requires forall i :: 0 <= i < |pieces| ==> NoLineBreak(pieces[i])
    requires |pieces| == |Breaks(s)| + 1 && Interleave(pieces, Breaks(s)) == s
    requires |Breaks(s)| > 0
    ensures k < |s| && All(s[..k], InLine) && IsLineBreak(s[k])
    ensures s[..k] == pieces[0]
    ensures forall i :: 0 <= i < |pieces[1..]| ==> NoLineBreak(pieces[1..][i])
    ensures |pieces[1..]| == |Breaks(s[k + 1..])| + 1
    ensures Interleave(pieces[1..], Breaks(s[k + 1..])) == s[k + 1..]
  {
    var b := Breaks(s);
    k := |pieces[0]|;
    var tail := Interleave(pieces[1..], b[1..]);
    assert s == pieces[0] + [b[0]] + tail;
    assert s[..k] == pieces[0] && s[k] == b[0] && s[k + 1..] == tail;
    BreaksAreBreaks(s);
    assert NoLineBreak(pieces[0]);
    BreaksAfter(s, k);
    forall i | 0 <= i < |pieces[1..]|
      ensures NoLineBreak(pieces[1..][i])
    {
      assert pieces[1..][i] == pieces[i + 1];
    }
  }

  /** A line without line breaks, followed by a line feed, is split off as
      the first line. */
  lemma SplitLinesCons(line: string, rest: string)
    requires NoLineBreak(line)
    ensures SplitLines(line + "\n" + rest) == [line] + SplitLines(rest)
  {
    var s := line + "\n" + rest;
    var k := LeadingCount(s, InLine);
    assert s[|line|] == '\n';
    assert s[..k] == line;
    assert s[k + 1..] == rest;
  }

  /** Joins lines with a line feed between consecutive ones. */
  function JoinLines(lines: seq<string>): string
    requires |lines| > 0
  {
    if |lines| == 1 then lines[0] else lines[0] + "\n" + JoinLines(lines[1..])
  }

  /** Splitting undoes joining, as long as no line contains a line break. */
  lemma {:induction false} SplitJoin(lines: seq<string>)
    requires |lines| > 0
    requires forall i :: 0 <= i < |lines| ==> NoLineBreak(lines[i])
    ensures SplitLines(JoinLines(lines)) == lines
  {
    if |lines| == 1 {
      var s := lines[0];
      var k := LeadingCount(s, InLine);
      assert k == |s|;
    } else {
      SplitJoin(lines[1..]);
      SplitLinesCons(lines[0], JoinLines(lines[1..]));
      assert lines == [lines[0]] + lines[1..];
    }
  }
}
