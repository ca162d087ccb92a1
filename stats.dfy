/**
  `get_text_stats`: character, word and line counts of a text, as the web
  front end shows them beside the input box.
*/
module TextStatistics {
  import opened PyText

  datatype TextStats = TextStats(characters: nat, words: nat, lines: nat)

  /** `len(text)`, `len(text.split())` and `len(text.splitlines())`. */
  function GetTextStats(text: string): (st: TextStats)
    ensures st.characters == |text|
    ensures st.words == WordEnds(text)
    ensures st.words == 0 <==> AllSpace(text)
    ensures st.lines == 0 <==> text == []
    ensures st.words <= st.characters && st.lines <= st.characters
  {
    SplitCountsWordEnds(text);
    SplitEmptyIffAllSpace(text);
    WordsAtMostChars(text);
    TextStats(|text|, |Split(text)|, |SplitLines(text)|)
  }

  /** There are never more words than characters. */
  lemma {:induction false} WordsAtMostChars(s: string)
    ensures WordEnds(s) <= |s|
  {
    if s != [] {
      WordsAtMostChars(s[1..]);
    }
  }

  /** An empty text has no characters, no words and no lines: `"".splitlines()`
      is the empty list, not one empty line. */
  lemma EmptyTextStats()
    ensures GetTextStats("") == TextStats(0, 0, 0)
  {
  }

  /** Two words on a first line and one on a second give 3 words and 2
      lines, for example "hello world\nfoo". */
  lemma TwoLinesThreeWords(a: string, b: string, c: string)
    requires a != [] && b != [] && c != [] && NoSpace(a) && NoSpace(b) && NoSpace(c)
    ensures GetTextStats(a + " " + b + "\n" + c) == TextStats(|a| + |b| + |c| + 2, 3, 2)
  {
    ThreeWords(a, b, c);
    TwoLines(a, b, c);
  }

  /** For example, "hello world\nfoo" has 15 characters, 3 words and 2 lines. */
  lemma HelloWorldStats()
    ensures GetTextStats("hello world\nfoo") == TextStats(15, 3, 2)
  {
    assert "hello" + " " + "world" + "\n" + "foo" == "hello world\nfoo";
    TwoLinesThreeWords("hello", "world", "foo");
  }

  lemma ThreeWords(a: string, b: string, c: string)
    requires a != [] && b != [] && c != [] && NoSpace(a) && NoSpace(b) && NoSpace(c)
    ensures |Split(a + " " + b + "\n" + c)| == 3
  {
    var rest := b + ['\n'] + c;
    assert a + " " + b + "\n" + c == a + [' '] + rest;
    SplitWord(a + [' '] + rest, a, ' ', rest);
    SplitWord(rest, b, '\n', c);
    SplitOneWord(c);
  }

  lemma TwoLines(a: string, b: string, c: string)
    requires NoSpace(a) && NoSpace(b) && c != [] && NoSpace(c)
    ensures |SplitLines(a + " " + b + "\n" + c)| == 2
  {
    var first := a + " " + b;
    assert NoLineBreak(first) && NoLineBreak(c) by {
      assert forall k :: 0 <= k < |first| ==> IsSpace(first[k]) == (k == |a|);
    }
    assert JoinWith([first, c], "\n") == first + "\n" + c;
    SplitLinesJoinWith([first, c], "\n");
  }

  /** Adding a final newline to a text whose last line is unterminated
      leaves the line count unchanged. */
  lemma TrailingNewlineKeepsLineCount(text: string)
    requires text != [] && !IsLineBreak(text[|text| - 1])
    ensures GetTextStats(text + "\n").lines == GetTextStats(text).lines
    ensures GetTextStats(text + "\n").words == GetTextStats(text).words
  {
    SplitLinesTrailingNewline(text);
    SplitCountsWordEnds(text);
    SplitCountsWordEnds(text + "\n");
    WordEndsNewline(text);
  }

  lemma {:induction false} WordEndsNewline(s: string)
    ensures WordEnds(s + "\n") == WordEnds(s)
  {
    if s != [] {
      assert (s + "\n")[1..] == s[1..] + "\n";
      WordEndsNewline(s[1..]);
    }
  }
}
