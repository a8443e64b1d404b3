/**
 * How the command-line loop of agent.py reads one input line: surrounding
 * whitespace is stripped as Python's str.strip() does, a blank line is
 * skipped, "quit" and "reset" are recognised in any letter case, and any
 * other text is a question.
 */
module Command {

  /**
   * Python's whitespace code points, the ones str.strip() with no argument
   * removes: tab to carriage return, the four ASCII separators, space, next
   * line, no-break space, and the Unicode space and line/paragraph separators.
   */
  predicate IsSpace(c: char)
  {
    var n := c as int;
    || 0x09 <= n <= 0x0D
    || 0x1C <= n <= 0x20
    || n == 0x85 || n == 0xA0 || n == 0x1680
    || 0x2000 <= n <= 0x200A
    || n == 0x2028 || n == 0x2029 || n == 0x202F || n == 0x205F || n == 0x3000
  }

  /** `s` with its leading whitespace removed. */
  function TrimStart(s: string): string
  {
    if s == [] || !IsSpace(s[0]) then s else TrimStart(s[1..])
  }

  /** `s` with its trailing whitespace removed. */
  function TrimEnd(s: string): string
  {
    if s == [] || !IsSpace(s[|s| - 1]) then s else TrimEnd(s[..|s| - 1])
  }

  /** TrimStart cuts a whitespace prefix, and the whole of it. */
  lemma {:induction false} TrimStartSpec(s: string)
    ensures |TrimStart(s)| <= |s| && TrimStart(s) == s[|s| - |TrimStart(s)|..]
    ensures TrimStart(s) == [] || !IsSpace(TrimStart(s)[0])
    ensures forall i :: 0 <= i < |s| - |TrimStart(s)| ==> IsSpace(s[i])
    decreases |s|
  {
    if s != [] && IsSpace(s[0]) {
      TrimStartSpec(s[1..]);
      assert s[1..][|s| - 1 - |TrimStart(s)|..] == s[|s| - |TrimStart(s)|..];
      forall i | 1 <= i < |s| - |TrimStart(s)| ensures IsSpace(s[i]) {
        assert s[i] == s[1..][i - 1];
      }
    }
  }

  /** TrimEnd cuts a whitespace suffix, and the whole of it. */
  lemma {:induction false} TrimEndSpec(s: string)
    ensures |TrimEnd(s)| <= |s| && TrimEnd(s) == s[..|TrimEnd(s)|]
    ensures TrimEnd(s) == [] || !IsSpace(TrimEnd(s)[|TrimEnd(s)| - 1])
    ensures forall i :: |TrimEnd(s)| <= i < |s| ==> IsSpace(s[i])
    decreases |s|
  {
    if s != [] && IsSpace(s[|s| - 1]) {
      var init := s[..|s| - 1];
      TrimEndSpec(init);
      assert init[..|TrimEnd(s)|] == s[..|TrimEnd(s)|];
      forall i | |TrimEnd(s)| <= i < |s| - 1 ensures IsSpace(s[i]) {
        assert s[i] == init[i];
      }
    }
  }

  /**
   * `r` is what remains of `s` when the whitespace before position `lead` and
   * after `r` is cut off, and `r` neither starts nor ends with whitespace.
   */
  ghost predicate StrippedAt(s: string, lead: int, r: string)
  {
    && 0 <= lead <= lead + |r| <= |s|
    && s[lead..lead + |r|] == r
    && (forall i :: 0 <= i < lead ==> IsSpace(s[i]))
    && (forall i :: lead + |r| <= i < |s| ==> IsSpace(s[i]))
    && (r == [] || (!IsSpace(r[0]) && !IsSpace(r[|r| - 1])))
  }

  /** Python's str.strip(). */
  function Strip(s: string): string
  {
    TrimEnd(TrimStart(s))
  }

  /** strip() cuts exactly the leading and trailing whitespace and keeps the text between. */
  lemma StripSpec(s: string)
    ensures exists lead :: StrippedAt(s, lead, Strip(s))
  {
    var t := TrimStart(s);
    var r := TrimEnd(t);
    TrimStartSpec(s);
    TrimEndSpec(t);
    assert StrippedAt(s, |s| - |t|, r) by {
      assert s[|s| - |t|..][..|r|] == s[|s| - |t|..|s| - |t| + |r|];
      forall i | |s| - |t| + |r| <= i < |s| ensures IsSpace(s[i]) {
        assert s[i] == t[i - (|s| - |t|)];
      }
    }
    assert r == Strip(s);
  }

  /** Where a stripped text starts and ends in the line, and what an empty one says of the line. */
  lemma StrippedAtEnds(s: string, lead: int, r: string)
    requires StrippedAt(s, lead, r)
    ensures r == [] ==> forall k :: 0 <= k < |s| ==> IsSpace(s[k])
    ensures r != [] ==> s[lead] == r[0] && s[lead + |r| - 1] == r[|r| - 1]
  {
    if r != [] {
      assert s[lead] == s[lead..lead + |r|][0];
      assert s[lead + |r| - 1] == s[lead..lead + |r|][|r| - 1];
    }
  }

  /** The stripped text is determined by the line: two ways of stripping it agree. */
  lemma StrippedAtUnique(s: string, i: int, r1: string, j: int, r2: string)
    requires StrippedAt(s, i, r1) && StrippedAt(s, j, r2)
    ensures r1 == r2
  {
    StrippedAtEnds(s, i, r1);
    StrippedAtEnds(s, j, r2);
    if r1 != [] {
      assert r2 != [];
      assert i == j;
      assert |r1| == |r2|;
    }
  }

  /** Where the characters of a padded line come from. */
  lemma PaddedAt(before: string, s: string, after: string)
    ensures forall k :: 0 <= k < |before| ==> (before + s + after)[k] == before[k]
    ensures forall k :: 0 <= k < |s| ==> (before + s + after)[|before| + k] == s[k]
    ensures forall k :: 0 <= k < |after| ==> (before + s + after)[|before| + |s| + k] == after[k]
  {
  }

  /** Padding a line with whitespace keeps its stripped text where it was, shifted by the padding. */
  lemma PaddedStrippedAt(before: string, s: string, after: string, lead: int, r: string)
    requires forall i :: 0 <= i < |before| ==> IsSpace(before[i])
    requires forall i :: 0 <= i < |after| ==> IsSpace(after[i])
    requires StrippedAt(s, lead, r)
    ensures StrippedAt(before + s + after, |before| + lead, r)
  {
    var padded := before + s + after;
    var at := |before| + lead;
    PaddedAt(before, s, after);
    forall k | 0 <= k < |r| ensures padded[at..at + |r|][k] == r[k] {
      assert padded[at + k] == s[lead + k] == s[lead..lead + |r|][k];
    }
    forall i | 0 <= i < at ensures IsSpace(padded[i]) {
      if i >= |before| {
        assert padded[|before| + (i - |before|)] == s[i - |before|];
      }
    }
    forall i | at + |r| <= i < |padded| ensures IsSpace(padded[i]) {
      if i < |before| + |s| {
        assert padded[|before| + (i - |before|)] == s[i - |before|];
      } else {
        assert padded[|before| + |s| + (i - |before| - |s|)] == after[i - |before| - |s|];
      }
    }
  }

  /** Whitespace added around a line makes no difference to what strip() leaves. */
  lemma StripIgnoresPadding(before: string, s: string, after: string)
    requires forall i :: 0 <= i < |before| ==> IsSpace(before[i])
    requires forall i :: 0 <= i < |after| ==> IsSpace(after[i])
    ensures Strip(before + s + after) == Strip(s)
  {
    var r := Strip(s);
    StripSpec(s);
    var lead :| StrippedAt(s, lead, r);
    PaddedStrippedAt(before, s, after, lead, r);
    var padded := before + s + after;
    var stripped := Strip(padded);
    StripSpec(padded);
    var lead' :| StrippedAt(padded, lead', stripped);
    StrippedAtUnique(padded, lead', stripped, |before| + lead, r);
  }

  /** Lower-casing of one character, for the letters A to Z. */
  function LowerChar(c: char): char
  {
    if 'A' <= c <= 'Z' then (c as int + 32) as char else c
  }

  /** str.lower() as far as it decides the commands "quit" and "reset". */
  function Lower(s: string): (r: string)
    ensures |r| == |s|
    ensures forall i :: 0 <= i < |s| ==> r[i] == LowerChar(s[i])
  {
    if s == [] then [] else [LowerChar(s[0])] + Lower(s[1..])
  }

  /** What the loop does with one input line. */
  datatype Command = Skip | Quit | ResetHistory | AskQuestion(text: string)

  function Classify(line: string): Command
  {
    var input := Strip(line);
    if input == [] then Skip
    else if Lower(input) == "quit" then Quit
    else if Lower(input) == "reset" then ResetHistory
    else AskQuestion(input)
  }

  /**
   * A line is skipped exactly when it is blank, quits or resets exactly when
   * its stripped text lower-cases to the keyword, and is otherwise asked as
   * its stripped text.
   */
  lemma ClassifySpec(line: string)
    ensures Classify(line).Skip? <==> Strip(line) == []
    ensures Classify(line).Quit? <==> Lower(Strip(line)) == "quit"
    ensures Classify(line).ResetHistory? <==> Lower(Strip(line)) == "reset"
    ensures Classify(line).AskQuestion? <==>
      Strip(line) != [] && Lower(Strip(line)) != "quit" && Lower(Strip(line)) != "reset"
    ensures Classify(line).AskQuestion? ==> Classify(line).text == Strip(line)
  {
    var input := Strip(line);
    if input == [] {
      assert |Lower(input)| == 0;
    }
  }

  /** Whitespace around a line never changes the command it gives. */
  lemma ClassifyIgnoresPadding(before: string, line: string, after: string)
    requires forall i :: 0 <= i < |before| ==> IsSpace(before[i])
    requires forall i :: 0 <= i < |after| ==> IsSpace(after[i])
    ensures Classify(before + line + after) == Classify(line)
  {
    StripIgnoresPadding(before, line, after);
  }

  /** The characters that lower-case to the letters of "quit" and "reset". */
  lemma LowerCharOfKeywordLetters(c: char)
    ensures LowerChar(c) == 'q' <==> c == 'q' || c == 'Q'
    ensures LowerChar(c) == 'u' <==> c == 'u' || c == 'U'
    ensures LowerChar(c) == 'i' <==> c == 'i' || c == 'I'
    ensures LowerChar(c) == 't' <==> c == 't' || c == 'T'
    ensures LowerChar(c) == 'r' <==> c == 'r' || c == 'R'
    ensures LowerChar(c) == 'e' <==> c == 'e' || c == 'E'
    ensures LowerChar(c) == 's' <==> c == 's' || c == 'S'
  {
  }

  /** A four-character text lower-cases to "quit" when its characters lower-case to its letters. */
  lemma LowerIsQuit(t: string)
    requires |t| == 4
    ensures Lower(t) == "quit" <==>
      LowerChar(t[0]) == 'q' && LowerChar(t[1]) == 'u' && LowerChar(t[2]) == 'i' && LowerChar(t[3]) == 't'
  {
    var l := Lower(t);
    assert l[0] == LowerChar(t[0]) && l[1] == LowerChar(t[1]) && l[2] == LowerChar(t[2]) && l[3] == LowerChar(t[3]);
  }

  /** A five-character text lower-cases to "reset" when its characters lower-case to its letters. */
  lemma LowerIsReset(t: string)
    requires |t| == 5
    ensures Lower(t) == "reset" <==>
      LowerChar(t[0]) == 'r' && LowerChar(t[1]) == 'e' && LowerChar(t[2]) == 's'
      && LowerChar(t[3]) == 'e' && LowerChar(t[4]) == 't'
  {
    var l := Lower(t);
    assert l[0] == LowerChar(t[0]) && l[1] == LowerChar(t[1]) && l[2] == LowerChar(t[2])
      && l[3] == LowerChar(t[3]) && l[4] == LowerChar(t[4]);
  }

  /** Exactly the spellings of "quit" in any letter case lower-case to "quit". */
  lemma QuitInAnyCase(t: string)
    ensures Lower(t) == "quit" <==>
      |t| == 4 && (t[0] == 'q' || t[0] == 'Q') && (t[1] == 'u' || t[1] == 'U')
               && (t[2] == 'i' || t[2] == 'I') && (t[3] == 't' || t[3] == 'T')
  {
    if |t| != 4 {
      assert |Lower(t)| != |"quit"|;
    } else {
      LowerIsQuit(t);
      LowerCharOfKeywordLetters(t[0]);
      LowerCharOfKeywordLetters(t[1]);
      LowerCharOfKeywordLetters(t[2]);
      LowerCharOfKeywordLetters(t[3]);
    }
  }

  /** Exactly the spellings of "reset" in any letter case lower-case to "reset". */
  lemma ResetInAnyCase(t: string)
    ensures Lower(t) == "reset" <==>
      |t| == 5 && (t[0] == 'r' || t[0] == 'R') && (t[1] == 'e' || t[1] == 'E')
               && (t[2] == 's' || t[2] == 'S') && (t[3] == 'e' || t[3] == 'E')
               && (t[4] == 't' || t[4] == 'T')
  {
    if |t| != 5 {
      assert |Lower(t)| != |"reset"|;
    } else {
      LowerIsReset(t);
      LowerCharOfKeywordLetters(t[0]);
      LowerCharOfKeywordLetters(t[1]);
      LowerCharOfKeywordLetters(t[2]);
      LowerCharOfKeywordLetters(t[3]);
      LowerCharOfKeywordLetters(t[4]);
    }
  }
}
