/**
  The three Python string operations the summarizer relies on: `str.strip()`,
  `str.split()` (no separator) and `str.splitlines()` (no `keepends`).

  Python decides "whitespace" and "line boundary" by Unicode tables. This model
  fixes both sets explicitly (IsSpace and IsLineBreak below); nothing outside
  those lists counts as whitespace or as a line boundary.
*/
module PyText {

  /** The whitespace characters of this model: the code points for which
      Python's `str.isspace()` is true. */
  predicate IsSpace(c: char) {
    || ('\U{9}' <= c <= '\U{D}')     // \t \n \v \f \r
    || ('\U{1C}' <= c <= '\U{20}')   // file, group, record and unit separators; space
    || c == '\U{85}' || c == '\U{A0}' || c == '\U{1680}'
    || ('\U{2000}' <= c <= '\U{200A}')
    || c == '\U{2028}' || c == '\U{2029}' || c == '\U{202F}'
    || c == '\U{205F}' || c == '\U{3000}'
  }

  /** The line boundaries of `str.splitlines()`; "\r\n" counts as one boundary
      (see BreakLen). */
  predicate IsLineBreak(c: char) {
    || ('\U{A}' <= c <= '\U{D}')     // \n \v \f \r
    || ('\U{1C}' <= c <= '\U{1E}')   // file, group and record separators
    || c == '\U{85}' || c == '\U{2028}' || c == '\U{2029}'
  }

  predicate AllSpace(s: string) {
    forall k :: 0 <= k < |s| ==> IsSpace(s[k])
  }

  predicate NoSpace(s: string) {
    forall k :: 0 <= k < |s| ==> !IsSpace(s[k])
  }

  predicate NoLineBreak(s: string) {
    forall k :: 0 <= k < |s| ==> !IsLineBreak(s[k])
  }

  // ---------------------------------------------------------------------------
  // strip()

  /** Neither end of `s` is whitespace. */
  predicate NoEdgeSpace(s: string) {
    s == [] || (!IsSpace(s[0]) && !IsSpace(s[|s| - 1]))
  }

  /** Cutting `s` to `s[i..j]` removes only whitespace and leaves none at
      either edge. */
  predicate IsStripCut(s: string, i: nat, j: nat) {
    i <= j <= |s| && AllSpace(s[..i]) && AllSpace(s[j..]) && NoEdgeSpace(s[i..j])
  }

  /** `r` is what remains of `s` once the whitespace at both ends is cut off. */
  ghost predicate IsStripOf(s: string, r: string) {
    exists i: nat, j: nat :: IsStripCut(s, i, j) && r == s[i..j]
  }

  /** Length of the longest all-whitespace prefix. */
  function LeadingSpace(s: string): (n: nat)
    ensures n <= |s| && AllSpace(s[..n])
    ensures n < |s| ==> !IsSpace(s[n])
  {
    if s != [] && IsSpace(s[0]) then 1 + LeadingSpace(s[1..]) else 0
  }

  /** Length of the longest all-whitespace suffix. */
  function TrailingSpace(s: string): (n: nat)
    ensures n <= |s| && AllSpace(s[|s| - n..])
    ensures n < |s| ==> !IsSpace(s[|s| - n - 1])
  {
    if s != [] && IsSpace(s[|s| - 1]) then 1 + TrailingSpace(s[..|s| - 1]) else 0
  }

  /** Where the stripped text ends: after the last non-whitespace character. */
  function StripEnd(s: string): nat
  {
    if LeadingSpace(s) == |s| then |s| else |s| - TrailingSpace(s)
  }

  lemma StripCutExists(s: string)
    ensures IsStripCut(s, LeadingSpace(s), StripEnd(s))
  {
    var i, n := LeadingSpace(s), TrailingSpace(s);
    if i == |s| {
      assert s[i..] == [];
    } else {
      SpaceOutsideCut(s, 0, |s| - n);
      var j := |s| - n;
      assert s[i..j][0] == s[i] && s[i..j][j - i - 1] == s[j - 1];
    }
  }

  /** Python's `s.strip()`. */
  function Strip(s: string): (r: string)
    ensures IsStripOf(s, r)
    ensures |r| <= |s|
  {
    StripCutExists(s);
    s[LeadingSpace(s)..StripEnd(s)]
  }

  lemma SpaceOutsideCut(s: string, i: nat, j: nat)
    requires i <= j <= |s| && AllSpace(s[..i]) && AllSpace(s[j..])
    ensures forall k :: 0 <= k < |s| && (k < i || j <= k) ==> IsSpace(s[k])
  {
    forall k | 0 <= k < |s| && (k < i || j <= k)
      ensures IsSpace(s[k])
    {
      if k < i { assert s[..i][k] == s[k]; } else { assert s[j..][k - j] == s[k]; }
    }
  }

  /** Two strip cuts of the same string cut out the same text. */
  lemma StripCutUnique(s: string, i1: nat, j1: nat, i2: nat, j2: nat)
    requires IsStripCut(s, i1, j1) && IsStripCut(s, i2, j2)
    ensures s[i1..j1] == s[i2..j2]
  {
    SpaceOutsideCut(s, i1, j1);
    SpaceOutsideCut(s, i2, j2);
    assert i1 < j1 ==> s[i1..j1][0] == s[i1] && s[i1..j1][j1 - i1 - 1] == s[j1 - 1];
    assert i2 < j2 ==> s[i2..j2][0] == s[i2] && s[i2..j2][j2 - i2 - 1] == s[j2 - 1];
  }

  /** IsStripOf pins its second argument down: there is only one stripped
      form of a string, so the contract of Strip determines its result. */
  lemma StripOfUnique(s: string, r1: string, r2: string)
    requires IsStripOf(s, r1) && IsStripOf(s, r2)
    ensures r1 == r2
  {
    var i1: nat, j1: nat :| IsStripCut(s, i1, j1) && r1 == s[i1..j1];
    var i2: nat, j2: nat :| IsStripCut(s, i2, j2) && r2 == s[i2..j2];
    StripCutUnique(s, i1, j1, i2, j2);
  }

  /** A string that has no whitespace at either end is its own strip. */
  lemma StripNoEdgeSpace(s: string)
    requires NoEdgeSpace(s)
    ensures Strip(s) == s
  {
    assert s[0..|s|] == s && s[..0] == [] && s[|s|..] == [];
    assert IsStripCut(s, 0, |s|);
    StripOfUnique(s, s, Strip(s));
  }

  /** Stripping twice changes nothing more than stripping once. */
  lemma StripIdempotent(s: string)
    ensures Strip(Strip(s)) == Strip(s)
  {
    StripNoEdgeSpace(Strip(s));
  }

  // ---------------------------------------------------------------------------
  // split()

  /** Length of the longest whitespace-free prefix. */
  function WordLen(s: string): (n: nat)
    ensures n <= |s| && NoSpace(s[..n])
    ensures n < |s| ==> IsSpace(s[n])
  {
    if s != [] && !IsSpace(s[0]) then 1 + WordLen(s[1..]) else 0
  }

  lemma {:induction false} WordLenAt(s: string, k: nat)
    requires k <= |s| && NoSpace(s[..k]) && (k < |s| ==> IsSpace(s[k]))
    ensures WordLen(s) == k
  {
    if k > 0 {
      assert !IsSpace(s[..k][0]);
      assert s[1..][..k - 1] == s[..k][1..];
      WordLenAt(s[1..], k - 1);
    }
  }

  /** Python's `s.split()`: the maximal runs of non-whitespace characters, in order. */
  function Split(s: string): (words: seq<string>)
    ensures forall w :: w in words ==> w != [] && NoSpace(w)
    decreases |s|
  {
    if s == [] then []
    else if IsSpace(s[0]) then Split(s[1..])
    else
      var n := WordLen(s);
      [s[..n]] + Split(s[n..])
  }

  /** Reference count of words: the positions where a word ends, that is a
      non-whitespace character followed by whitespace or by the end. */
  function WordEnds(s: string): nat
  {
    if s == [] then 0
    else (if !IsSpace(s[0]) && (|s| == 1 || IsSpace(s[1])) then 1 else 0) + WordEnds(s[1..])
  }

  function Concat(ws: seq<string>): string
  {
    if ws == [] then [] else ws[0] + Concat(ws[1..])
  }

  /** `s` with every whitespace character removed. */
  function RemoveSpace(s: string): (r: string)
    ensures NoSpace(r)
  {
    if s == [] then []
    else (if IsSpace(s[0]) then [] else [s[0]]) + RemoveSpace(s[1..])
  }

  lemma {:induction false} WordEndsOfRun(s: string, n: nat)
    requires 0 < n <= |s| && NoSpace(s[..n]) && (n < |s| ==> IsSpace(s[n]))
    ensures WordEnds(s) == 1 + WordEnds(s[n..])
  {
    assert !IsSpace(s[..n][0]);
    if n > 1 {
      assert !IsSpace(s[..n][1]);
      assert s[1..][..n - 1] == s[1..n];
      assert s[1..][..n - 1] == s[..n][1..];
      WordEndsOfRun(s[1..], n - 1);
      assert s[1..][n - 1..] == s[n..];
    }
  }

  /** `split()` finds exactly as many words as there are word ends. */
  lemma {:induction false} SplitCountsWordEnds(s: string)
    ensures |Split(s)| == WordEnds(s)
    decreases |s|
  {
    if s == [] {
    } else if IsSpace(s[0]) {
      SplitCountsWordEnds(s[1..]);
    } else {
      var n := WordLen(s);
      WordEndsOfRun(s, n);
      SplitCountsWordEnds(s[n..]);
    }
  }

  lemma {:induction false} RemoveSpaceOfRun(s: string, n: nat)
    requires n <= |s| && NoSpace(s[..n])
    ensures RemoveSpace(s) == s[..n] + RemoveSpace(s[n..])
  {
    if n > 0 {
      assert !IsSpace(s[..n][0]);
      assert s[1..][..n - 1] == s[..n][1..];
      RemoveSpaceOfRun(s[1..], n - 1);
      assert s[1..][n - 1..] == s[n..];
      assert s[..n] == [s[0]] + s[1..][..n - 1];
    }
  }

  /** The words, glued back together, are exactly the non-whitespace
      characters of `s` in their original order: `split()` loses only whitespace. */
  lemma {:induction false} SplitKeepsContent(s: string)
    ensures Concat(Split(s)) == RemoveSpace(s)
    decreases |s|
  {
    if s == [] {
    } else if IsSpace(s[0]) {
      SplitKeepsContent(s[1..]);
    } else {
      var n := WordLen(s);
      SplitKeepsContent(s[n..]);
      RemoveSpaceOfRun(s, n);
      assert Split(s)[1..] == Split(s[n..]);
    }
  }

  /** A word followed by a whitespace character is split off as the first
      word; the whitespace character goes with it. */
  lemma SplitWord(s: string, w: string, c: char, rest: string)
    requires w != [] && NoSpace(w) && IsSpace(c) && s == w + [c] + rest
    ensures Split(s) == [w] + Split(rest)
  {
    assert s[..|w|] == w && s[|w|] == c;
    WordLenAt(s, |w|);
    assert s[|w|..][1..] == rest;
  }

  /** A single word is split into itself. */
  lemma SplitOneWord(w: string)
    requires w != [] && NoSpace(w)
    ensures Split(w) == [w]
  {
    assert w[..|w|] == w;
    WordLenAt(w, |w|);
  }

  /** Words joined with single spaces, Python's `" ".join(words)`. */
  function JoinWords(words: seq<string>): string
  {
    if words == [] then [] else if |words| == 1 then words[0] else words[0] + " " + JoinWords(words[1..])
  }

  /** Joining non-empty whitespace-free words with spaces and splitting the
      result gives the words back. */
  lemma {:induction false} SplitJoinWords(words: seq<string>)
    requires forall n :: 0 <= n < |words| ==> words[n] != [] && NoSpace(words[n])
    ensures Split(JoinWords(words)) == words
    decreases |words|
  {
    if |words| == 1 {
      SplitOneWord(words[0]);
    } else if |words| > 1 {
      SplitWord(JoinWords(words), words[0], ' ', JoinWords(words[1..]));
      SplitJoinWords(words[1..]);
      assert words == [words[0]] + words[1..];
    }
  }

  /** `split()` finds no word exactly when the string is empty or all whitespace. */
  lemma {:induction false} SplitEmptyIffAllSpace(s: string)
    ensures Split(s) == [] <==> AllSpace(s)
    decreases |s|
  {
    if s != [] && IsSpace(s[0]) {
      SplitEmptyIffAllSpace(s[1..]);
      if AllSpace(s[1..]) {
        assert forall k :: 1 <= k < |s| ==> s[k] == s[1..][k - 1];
      }
    }
  }

  // ---------------------------------------------------------------------------
  // splitlines()

  /** Position of the first line boundary at or after `i`, or `|s|` if none:
      the end of the line that starts at `i`. */
  function LineEnd(s: string, i: nat): (j: nat)
    requires i <= |s|
    ensures i <= j <= |s|
    ensures j < |s| ==> IsLineBreak(s[j])
    decreases |s| - i
  {
    if i == |s| || IsLineBreak(s[i]) then i else LineEnd(s, i + 1)
  }

  /** No boundary lies between `i` and the end of its line. */
  lemma {:induction false} LineEndFirst(s: string, i: nat)
    requires i <= |s|
    ensures forall k :: i <= k < LineEnd(s, i) ==> !IsLineBreak(s[k])
    decreases |s| - i
  {
    if i < |s| && !IsLineBreak(s[i]) {
      LineEndFirst(s, i + 1);
    }
  }

  /** Number of characters the boundary at `j` occupies: none at the end of
      the string, two for "\r\n", one otherwise. */
  function BreakLen(s: string, j: nat): (b: nat)
    requires j <= |s|
    ensures j + b <= |s|
    ensures j < |s| ==> b >= 1
  {
    if j == |s| then 0
    else if s[j] == '\r' && j + 1 < |s| && s[j + 1] == '\n' then 2
    else 1
  }

  /** Where the line after the one that starts at `i` starts. */
  function NextLine(s: string, i: nat): (k: nat)
    requires i < |s|
    ensures i < k <= |s|
  {
    LineEnd(s, i) + BreakLen(s, LineEnd(s, i))
  }

  /** The lines of `s` from position `i` on, `i` being the start of a line. */
  function LinesFrom(s: string, i: nat): seq<string>
    requires i <= |s|
    decreases |s| - i
  {
    if i == |s| then [] else [s[i..LineEnd(s, i)]] + LinesFrom(s, NextLine(s, i))
  }

  /** Python's `s.splitlines()`: the lines, without their boundaries. A
      boundary ends a line, so a final boundary starts no further line. No line
      holds a boundary, and there are no lines exactly for the empty text. */
  function SplitLines(s: string): (lines: seq<string>)
    ensures forall l :: l in lines ==> NoLineBreak(l)
    ensures |lines| <= |s|
    ensures lines == [] <==> s == []
  {
    LinesFromShape(s, 0);
    LinesFrom(s, 0)
  }

  /** No line holds a boundary, and there are never more lines than characters. */
  lemma {:induction false} LinesFromShape(s: string, i: nat)
    requires i <= |s|
    ensures forall l :: l in LinesFrom(s, i) ==> NoLineBreak(l)
    ensures |LinesFrom(s, i)| <= |s| - i
    decreases |s| - i
  {
    if i < |s| {
      var j := LineEnd(s, i);
      LineEndFirst(s, i);
      assert forall k :: 0 <= k < j - i ==> s[i..j][k] == s[i + k];
      LinesFromShape(s, j + BreakLen(s, j));
    }
  }

  /** A single line boundary of `splitlines()`: "\r\n", or one boundary
      character. */
  predicate IsBoundary(sep: string) {
    sep == "\r\n" || (|sep| == 1 && IsLineBreak(sep[0]))
  }

  /** Lines joined with `sep` between them. */
  function JoinWith(lines: seq<string>, sep: string): string
    requires lines != []
  {
    if |lines| == 1 then lines[0] else lines[0] + sep + JoinWith(lines[1..], sep)
  }

  /** LineEnd is the first boundary at or after `i`: any position with that
      property is it. */
  lemma LineEndAt(s: string, i: nat, k: nat)
    requires i <= k <= |s|
    requires forall m :: i <= m < k ==> !IsLineBreak(s[m])
    requires k < |s| ==> IsLineBreak(s[k])
    ensures LineEnd(s, i) == k
  {
    LineEndFirst(s, i);
  }

  /** One step of LinesFrom: the line at `i`, then the lines after it. */
  lemma LinesFromStep(s: string, i: nat)
    requires i < |s|
    ensures LinesFrom(s, i) == [s[i..LineEnd(s, i)]] + LinesFrom(s, NextLine(s, i))
  {
  }

  /** A line `l` without boundaries written at `i`, followed by a boundary or
      by the end of `s`, is the line that starts at `i`. */
  lemma LineAt(s: string, i: nat, l: string)
    requires i + |l| <= |s| && s[i..i + |l|] == l && NoLineBreak(l)
    requires i + |l| < |s| ==> IsLineBreak(s[i + |l|])
    ensures LineEnd(s, i) == i + |l|
  {
    assert forall m :: i <= m < i + |l| ==> s[m] == s[i..i + |l|][m - i];
    LineEndAt(s, i, i + |l|);
  }


  /** Lines without boundaries, joined with a boundary that does not start
      with "\n", never start with "\n": so a "\r" before them is a boundary
      on its own. */
  lemma JoinWithStart(lines: seq<string>, sep: string)
    requires lines != [] && sep != [] && sep[0] != '\n'
    requires forall n :: 0 <= n < |lines| ==> NoLineBreak(lines[n])
    ensures JoinWith(lines, sep) != [] ==> JoinWith(lines, sep)[0] != '\n'
  {
    var l := lines[0];
    assert NoLineBreak(l);
    if l != [] {
      assert JoinWith(lines, sep)[0] == l[0];
    } else if |lines| > 1 {
      assert JoinWith(lines, sep)[0] == sep[0];
    }
  }

  /** A boundary `sep` written at `j` occupies `|sep|` characters, unless it
      is a lone "\r" followed by "\n", which would make one "\r\n". */
  lemma BreakLenOf(s: string, j: nat, sep: string)
    requires IsBoundary(sep) && j + |sep| <= |s| && s[j..j + |sep|] == sep
    requires sep == "\r" && j + 1 < |s| ==> s[j + 1] != '\n'
    ensures BreakLen(s, j) == |sep|
  {
    assert s[j] == s[j..j + |sep|][0];
    if sep == "\r\n" {
      assert s[j + 1] == s[j..j + |sep|][1];
    }
  }

  /** The first line of a text joined with the boundary `sep`, written at
      `i`, and where the text of the remaining lines starts. */
  lemma JoinHead(s: string, i: nat, lines: seq<string>, sep: string)
    requires i <= |s| && |lines| > 1 && IsBoundary(sep)
    requires forall n :: 0 <= n < |lines| ==> NoLineBreak(lines[n])
    requires s[i..] == JoinWith(lines, sep)
    ensures NextLine(s, i) == i + |lines[0]| + |sep|
    ensures s[i..LineEnd(s, i)] == lines[0]
    ensures s[NextLine(s, i)..] == JoinWith(lines[1..], sep)
  {
    var l, u, rest := lines[0], s[i..], JoinWith(lines[1..], sep);
    var j := i + |l|;
    assert NoLineBreak(l);
    assert u == l + sep + rest;
    assert s[i..j] == u[..|l|] == l;
    assert s[j..j + |sep|] == u[|l|..|l| + |sep|] == sep;
    assert s[j + |sep|..] == u[|l| + |sep|..] == rest;
    LineAt(s, i, l);
    if sep == "\r" && j + 1 < |s| {
      JoinWithStart(lines[1..], sep);
      assert s[j + 1] == rest[0];
    }
    BreakLenOf(s, j, sep);
  }

  /** The lines of `s` from `i` on are `lines` when `s[i..]` is those lines
      joined with one boundary `sep`, none holding a boundary and the last one
      not empty. */
  lemma {:induction false} LinesFromJoin(s: string, i: nat, lines: seq<string>, sep: string)
    requires i <= |s| && lines != [] && lines[|lines| - 1] != [] && IsBoundary(sep)
    requires forall n :: 0 <= n < |lines| ==> NoLineBreak(lines[n])
    requires s[i..] == JoinWith(lines, sep)
    ensures LinesFrom(s, i) == lines
    decreases |lines|
  {
    var l := lines[0];
    assert NoLineBreak(l);
    LinesFromStep(s, i);
    if |lines| == 1 {
      assert s[i..|s|] == s[i..] == l;
      LineAt(s, i, l);
    } else {
      JoinHead(s, i, lines, sep);
      LinesFromJoin(s, NextLine(s, i), lines[1..], sep);
      assert lines == [l] + lines[1..];
    }
  }

  /** Joining lines with any one boundary ("\n", "\r\n", "\r", ...) and
      splitting them again gives the lines back, provided no line holds a
      boundary and the last one is not empty (an empty last line would leave
      a trailing boundary, which `splitlines()` drops). */
  lemma SplitLinesJoinWith(lines: seq<string>, sep: string)
    requires lines != [] && lines[|lines| - 1] != [] && IsBoundary(sep)
    requires forall i :: 0 <= i < |lines| ==> NoLineBreak(lines[i])
    ensures SplitLines(JoinWith(lines, sep)) == lines
  {
    var s := JoinWith(lines, sep);
    assert s[0..] == s;
    LinesFromJoin(s, 0, lines, sep);
  }

  /** "\r\n" is one boundary: two lines joined by it are two lines, not three. */
  lemma CrLfIsOneBoundary(a: string, b: string)
    requires NoLineBreak(a) && NoLineBreak(b) && b != []
    ensures SplitLines(a + "\r\n" + b) == [a, b]
  {
    assert JoinWith([a, b], "\r\n") == a + "\r\n" + b;
    SplitLinesJoinWith([a, b], "\r\n");
  }


  /** Appending "\n" moves no line end of a string. */
  lemma LineEndAppend(s: string, i: nat)
    requires i <= |s|
    ensures LineEnd(s + "\n", i) == LineEnd(s, i)
  {
    var j := LineEnd(s, i);
    LineEndFirst(s, i);
    assert forall m :: i <= m < j ==> (s + "\n")[m] == s[m];
    assert (s + "\n")[j] == if j < |s| then s[j] else '\n';
    LineEndAt(s + "\n", i, j);
  }

  /** With "\n" appended, the line at `i` is the same; it is then followed
      either by the new "\n" and the end, or by the same boundary as before
      and a further line. */
  lemma AppendNewlineHead(s: string, i: nat)
    requires i < |s| && !IsLineBreak(s[|s| - 1])
    ensures LineEnd(s + "\n", i) == LineEnd(s, i)
    ensures (s + "\n")[i..LineEnd(s, i)] == s[i..LineEnd(s, i)]
    ensures LineEnd(s, i) == |s| ==> NextLine(s + "\n", i) == |s| + 1
    ensures LineEnd(s, i) < |s| ==> NextLine(s + "\n", i) == NextLine(s, i) < |s|
  {
    var t, j := s + "\n", LineEnd(s, i);
    LineEndAppend(s, i);
    assert t[i..j] == s[i..j];
    if j < |s| {
      var b := BreakLen(s, j);
      assert t[j] == s[j];
      assert j + 1 < |s| ==> t[j + 1] == s[j + 1];
      assert BreakLen(t, j) == b;
      assert IsLineBreak(s[j + b - 1]);
    } else {
      assert t[j] == '\n';
    }
  }

  /** A "\n" after a last line that is not yet terminated adds no line. */
  lemma {:induction false} LinesFromTrailingNewline(s: string, i: nat)
    requires i < |s| && !IsLineBreak(s[|s| - 1])
    ensures LinesFrom(s + "\n", i) == LinesFrom(s, i)
    decreases |s| - i
  {
    var t := s + "\n";
    AppendNewlineHead(s, i);
    LinesFromStep(t, i);
    LinesFromStep(s, i);
    if LineEnd(s, i) < |s| {
      LinesFromTrailingNewline(s, NextLine(s, i));
    } else {
      assert LinesFrom(t, |t|) == [];
    }
  }

  lemma SplitLinesTrailingNewline(s: string)
    requires s != [] && !IsLineBreak(s[|s| - 1])
    ensures SplitLines(s + "\n") == SplitLines(s)
  {
    LinesFromTrailingNewline(s, 0);
  }
}
