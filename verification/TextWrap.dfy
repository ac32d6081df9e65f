/**
 Wrapping of text into lines (`wrapPdfText` of skuld-slash-cmd/index.js), on UTF-16 code units, as
 JavaScript counts them.
 */
module TextWrap {

  import opened Common
  import opened Batching

  newtype Unit = u: int | 0 <= u < 0x1_0000

  type Units = seq<Unit>

  const NEWLINE: Unit := 0x0A
  const RETURN: Unit := 0x0D
  const SPACE: Unit := 0x20
  const MAX_CHARS := 90

  // ---------------------------------------------------------------- lines and words of the text

  /** White space of ECMAScript, for `\\s` and `trimEnd`. */
  predicate Blank(u: Unit) {
    || 0x09 <= u <= 0x0D || u == 0x20 || u == 0xA0 || u == 0x1680 || 0x2000 <= u <= 0x200A
    || u == 0x2028 || u == 0x2029 || u == 0x202F || u == 0x205F || u == 0x3000 || u == 0xFEFF
  }

  /** By its codes. */
  lemma BlankCodes(u: Unit)
    ensures Blank(u) <==>
              var c := u as int;
              || 9 <= c <= 13 || c == 32 || c == 160 || c == 5760 || 8192 <= c <= 8202 || c == 8232 || c == 8233
              || c == 8239 || c == 8287 || c == 12288 || c == 65279
  {
  }

  /** `replace(/\\r\\n/g, '\\n')`. */
  function Normalized(s: Units): Units {
    if s == [] then []
    else if |s| > 1 && s[0] == RETURN && s[1] == NEWLINE then [NEWLINE] + Normalized(s[2..])
    else [s[0]] + Normalized(s[1..])
  }

  function TrimEnd(s: Units): (t: Units)
    ensures t <= s && (t != [] ==> !Blank(t[|t| - 1])) && forall k :: |t| <= k < |s| ==> Blank(s[k])
  {
    if s != [] && Blank(s[|s| - 1]) then TrimEnd(s[..|s| - 1]) else s
  }

  function RawLines(s: Units): (lines: seq<Units>)
    ensures lines != []
  {
    if s == [] then [[]]
    else
      var before := RawLines(s[..|s| - 1]);
      if s[|s| - 1] == NEWLINE then before + [[]]
      else before[|before| - 1 := before[|before| - 1] + [s[|s| - 1]]]
  }

  function FirstBlank(s: Units): (i: nat)
    ensures i <= |s| && (i < |s| ==> Blank(s[i])) && forall k :: 0 <= k < i ==> !Blank(s[k])
  {
    if s == [] || Blank(s[0]) then 0 else 1 + FirstBlank(s[1..])
  }

  function SkipBlanks(s: Units): (rest: Units)
    ensures |rest| <= |s| && (s != [] && Blank(s[0]) ==> |rest| < |s|)
  {
    if s != [] && Blank(s[0]) then SkipBlanks(s[1..]) else s
  }

  /** `line.split(/\\s+/)`: an indented line begins with an empty word. */
  function Words(s: Units): (ws: seq<Units>)
    ensures ws != []
    decreases |s|
  {
    var i := FirstBlank(s);
    if i == |s| then [s] else [s[..i]] + Words(SkipBlanks(s[i..]))
  }

  /** What is left of a line without its white space. */
  function Solid(s: Units): Units {
    if s == [] then [] else if Blank(s[0]) then Solid(s[1..]) else [s[0]] + Solid(s[1..])
  }

  // ---------------------------------------------------------------- filling

  /** Words with single spaces between them. */
  function Spaced(words: seq<Units>): Units {
    if words == [] then []
    else if |words| == 1 then words[0]
    else Spaced(words[..|words| - 1]) + [SPACE] + words[|words| - 1]
  }

  function NonEmpty(words: seq<Units>): seq<Units> {
    if words == [] then [] else NonEmpty(words[..|words| - 1]) + if words[|words| - 1] != [] then [words[|words| - 1]]
    else []
  }

  /** A line is short enough, or a single word. */
  predicate Fits(line: seq<Units>) {
    line != [] && (|Spaced(line)| <= MAX_CHARS || |line| == 1)
  }

  /** The first word of the second line had no room on the first. */
  predicate Full(line: seq<Units>, next: seq<Units>) {
    next != [] && |Spaced(line)| + 1 + |next[0]| > MAX_CHARS
  }

  predicate AllFit(lines: seq<seq<Units>>) {
    forall i :: 0 <= i < |lines| ==> Fits(lines[i]) && [] !in lines[i]
  }

  predicate AllFull(lines: seq<seq<Units>>) {
    forall i :: 0 < i < |lines| ==> Full(lines[i - 1], lines[i])
  }

  /**
   Lines, as lists of words, into which words are filled greedily: all words that are not empty, in order;
   no line too long unless it is a single word; and none that could have taken the next word.
   */
  ghost predicate Filled(words: seq<Units>, lines: seq<seq<Units>>) {
    Concat(lines) == NonEmpty(words) && AllFit(lines) && AllFull(lines)
  }

  lemma OneMoreLine(lines: seq<seq<Units>>, last: seq<Units>)
    requires AllFit(lines) && AllFull(lines) && Fits(last) && [] !in last
    requires lines != [] ==> Full(lines[|lines| - 1], last)
    ensures AllFit(lines + [last]) && AllFull(lines + [last])
  {
    hide Fits, Full;
  }

  lemma WithoutLast(lines: seq<seq<Units>>, last: seq<Units>)
    requires AllFit(lines + [last]) && AllFull(lines + [last])
    ensures AllFit(lines) && AllFull(lines) && Fits(last) && [] !in last
    ensures lines != [] ==> Full(lines[|lines| - 1], last)
  {
    hide Fits, Full;
    var all := lines + [last];
    assert forall i :: 0 <= i < |lines| ==> all[i] == lines[i];
    assert all[|lines|] == last;
  }

  function Texts(lines: seq<seq<Units>>): seq<Units> {
    if lines == [] then [] else Texts(lines[..|lines| - 1]) + [Spaced(lines[|lines| - 1])]
  }

  lemma SpacedNext(words: seq<Units>, word: Units)
    ensures Spaced(words + [word]) == if words == [] then word else Spaced(words) + [SPACE] + word
  {
    assert (words + [word])[..|words|] == words;
  }

  lemma {:induction false} SpacedIsEmpty(words: seq<Units>)
    requires words != [] && [] !in words
    ensures Spaced(words) != []
  {
    if |words| == 1 {
      assert words[0] in words;
    }
  }

  lemma {:induction false} ConcatLast<T>(lines: seq<seq<T>>, last: seq<T>)
    ensures Concat(lines + [last]) == Concat(lines) + last
  {
    if lines == [] {
      assert ([] + [last])[1..] == [];
    } else {
      ConcatLast(lines[1..], last);
      assert (lines + [last])[1..] == lines[1..] + [last];
    }
  }

  /** The lines with the one being filled. */
  function WithCurrent(lines: seq<seq<Units>>, current: seq<Units>): seq<seq<Units>> {
    if current == [] then lines else lines + [current]
  }

  lemma NonEmptyNext(words: seq<Units>, word: Units)
    ensures NonEmpty(words + [word]) == NonEmpty(words) + if word != [] then [word] else []
  {
    assert (words + [word])[..|words|] == words;
  }

  /** The next word joins the current line. */
  lemma WordJoins(words: seq<Units>, lines: seq<seq<Units>>, current: seq<Units>, word: Units)
    requires Filled(words, WithCurrent(lines, current)) && word != []
    requires |Spaced(current + [word])| <= MAX_CHARS
    requires current == [] ==> lines == []
    ensures Filled(words + [word], WithCurrent(lines, current + [word]))
  {
    NonEmptyNext(words, word);
    ConcatLast(lines, current);
    ConcatLast(lines, current + [word]);
    if current != [] {
      WithoutLast(lines, current);
    }
    hide Spaced, Concat, NonEmpty, AllFit, AllFull;
    OneMoreLine(lines, current + [word]);
  }

  /** Or it opens a new one, because the current one has no room for it. */
  lemma WordOpens(words: seq<Units>, lines: seq<seq<Units>>, current: seq<Units>, word: Units)
    requires Filled(words, WithCurrent(lines, current)) && word != []
    requires |Spaced(current + [word])| > MAX_CHARS
    requires current == [] ==> lines == []
    ensures Filled(words + [word], WithCurrent(WithCurrent(lines, current), [word]))
  {
    NonEmptyNext(words, word);
    SpacedNext(current, word);
    SpacedNext([], word);
    var before := WithCurrent(lines, current);
    ConcatLast(before, [word]);
    hide Spaced, Concat, NonEmpty, AllFit, AllFull;
    OneMoreLine(before, [word]);
  }

  lemma TextsNext(lines: seq<seq<Units>>, last: seq<Units>)
    ensures Texts(lines + [last]) == Texts(lines) + [Spaced(last)]
    ensures WithCurrent(lines, last) == if last == [] then lines else lines + [last]
    ensures last == [] ==> Spaced(last) == []
  {
    assert (lines + [last])[..|lines|] == lines;
  }

  lemma NothingYet(words: seq<Units>, word: Units)
    ensures word == [] && Filled(words, []) ==> Filled(words + [word], [])
  {
    NonEmptyNext(words, word);
  }

  /** The state of the inner loop: the lines pushed so far, and the current one. */
  ghost predicate Filling(words: seq<Units>, out: seq<Units>, currentLine: Units, lines: seq<seq<Units>>,
                          current: seq<Units>) {
    && out == Texts(lines) && currentLine == Spaced(current) && (currentLine == [] <==> current == [])
    && Filled(words, WithCurrent(lines, current)) && (current == [] ==> lines == [])
  }

  lemma CurrentIsFilled(words: seq<Units>, lines: seq<seq<Units>>, current: seq<Units>)
    requires Filled(words, WithCurrent(lines, current)) && current != []
    ensures Spaced(current) != []
  {
    WithoutLast(lines, current);
    SpacedIsEmpty(current);
  }

  lemma StepJoins(words: seq<Units>, out: seq<Units>, currentLine: Units, lines: seq<seq<Units>>, current: seq<Units>,
                  word: Units)
    requires Filling(words, out, currentLine, lines, current) && word != [] && |Spaced(current + [word])| <= MAX_CHARS
    ensures Filling(words + [word], out, Spaced(current + [word]), lines, current + [word])
  {
    WordJoins(words, lines, current, word);
    CurrentIsFilled(words + [word], lines, current + [word]);
  }

  lemma StepOpens(words: seq<Units>, out: seq<Units>, currentLine: Units, lines: seq<seq<Units>>, current: seq<Units>,
                  word: Units)
    requires Filling(words, out, currentLine, lines, current) && word != [] && |Spaced(current + [word])| > MAX_CHARS
    ensures Filling(words + [word], if current == [] then out else out + [currentLine], word,
                    WithCurrent(lines, current), [word])
  {
    WordOpens(words, lines, current, word);
    TextsNext(lines, current);
    SpacedNext([], word);
  }

  lemma StepSkips(words: seq<Units>, out: seq<Units>, lines: seq<seq<Units>>)
    requires Filling(words, out, [], lines, [])
    ensures Filling(words + [[]], out, [], lines, [])
  {
    NothingYet(words, []);
  }

  /** One turn of the inner loop: the current line takes the word, or is pushed and the word begins the next. */
  method FillWord(out: seq<Units>, currentLine: Units, word: Units,
                  ghost words: seq<Units>, ghost lines: seq<seq<Units>>, ghost current: seq<Units>)
    returns (pushed: seq<Units>, nextCurrent: Units, ghost nextLines: seq<seq<Units>>, ghost next: seq<Units>)
    requires Filling(words, out, currentLine, lines, current) && (word == [] ==> current == [])
    ensures Filling(words + [word], pushed, nextCurrent, nextLines, next)
  {
    SpacedNext(current, word);
    assert currentLine == Spaced(current) && (currentLine == [] <==> current == []);
    hide *;
    var nextLine := if currentLine != [] then currentLine + [SPACE] + word else word;
    if |nextLine| <= MAX_CHARS {
      if word != [] {
        StepJoins(words, out, currentLine, lines, current, word);
        next := current + [word];
      } else {
        StepSkips(words, out, lines);
        next := [];
      }
      return out, nextLine, lines, next;
    }
    StepOpens(words, out, currentLine, lines, current, word);
    pushed := if currentLine != [] then out + [currentLine] else out;
    nextCurrent, nextLines, next := word, WithCurrent(lines, current), [word];
  }

  /** Only the first word can be empty. */
  ghost predicate Separated(words: seq<Units>) {
    forall i :: 0 < i < |words| ==> words[i] != []
  }

  /** The texts of lines into which the words are filled. */
  ghost predicate FilledTexts(words: seq<Units>, out: seq<Units>) {
    exists lines: seq<seq<Units>> :: Filled(words, lines) && out == Texts(lines)
  }

  /** The inner loop of the program, for the words of one line. */
  method FillWords(words: seq<Units>) returns (out: seq<Units>)
    requires Separated(words)
    ensures FilledTexts(words, out)
  {
    out := [];
    ghost var lines: seq<seq<Units>> := [];
    var currentLine: Units := [];
    ghost var current: seq<Units> := [];
    assert Filling([], out, currentLine, lines, current);
    for i := 0 to |words|
      invariant Filling(words[..i], out, currentLine, lines, current)
      invariant i == 0 ==> current == []
    {
      assert i > 0 ==> words[i] != [];
      hide *;
      assert words[..i + 1] == words[..i] + [words[i]];
      out, currentLine, lines, current := FillWord(out, currentLine, words[i], words[..i], lines, current);
    }
    assert words[..|words|] == words;
    hide Filled, Spaced;
    TextsNext(lines, current);
    lines := WithCurrent(lines, current);
    if currentLine != [] {
      out := out + [currentLine];
    }
  }

  // ---------------------------------------------------------------- words

  lemma {:induction false} SolidAppend(a: Units, b: Units)
    ensures Solid(a + b) == Solid(a) + Solid(b)
  {
    if a == [] {
      assert a + b == b;
    } else {
      assert (a + b)[0] == a[0] && (a + b)[1..] == a[1..] + b;
      SolidAppend(a[1..], b);
    }
  }

  lemma {:induction false} SolidOfWord(w: Units)
    requires forall k :: 0 <= k < |w| ==> !Blank(w[k])
    ensures Solid(w) == w
  {
    if w != [] {
      SolidOfWord(w[1..]);
    }
  }

  lemma {:induction false} SkippedBlanks(s: Units)
    ensures Solid(SkipBlanks(s)) == Solid(s)
    ensures s != [] && !Blank(s[|s| - 1]) ==>
        SkipBlanks(s) != [] && !Blank(SkipBlanks(s)[0]) && !Blank(SkipBlanks(s)[|SkipBlanks(s)| - 1])
  {
    if s != [] && Blank(s[0]) {
      SkippedBlanks(s[1..]);
    }
  }

  /**
   The words of a line are what is left of it without its white space; of a line that does not end in
   white space only the first word can be empty, and the last is not.
   */
  lemma {:induction false} WordsAreSolid(s: Units)
    ensures Concat(Words(s)) == Solid(s)
    ensures s != [] && !Blank(s[|s| - 1]) ==>
              && Separated(Words(s)) && Words(s)[|Words(s)| - 1] != []
              && (!Blank(s[0]) ==> Words(s)[0] != [])
    decreases |s|
  {
    var i := FirstBlank(s);
    assert s == s[..i] + s[i..];
    SolidAppend(s[..i], s[i..]);
    SolidOfWord(s[..i]);
    if i == |s| {
      assert Concat([s]) == s + Concat([s][1..]);
    } else {
      var rest := SkipBlanks(s[i..]);
      SkippedBlanks(s[i..]);
      WordsAreSolid(rest);
      assert ([s[..i]] + Words(rest))[1..] == Words(rest);
      assert s[i..][|s| - i - 1] == s[|s| - 1];
    }
  }

  lemma {:induction false} NonEmptyKeeps(words: seq<Units>)
    ensures Concat(NonEmpty(words)) == Concat(words)
    ensures words != [] && words[|words| - 1] != [] ==> NonEmpty(words) != []
  {
    if words != [] {
      var n := |words| - 1;
      NonEmptyKeeps(words[..n]);
      ConcatLast(words[..n], words[n]);
      ConcatLast(NonEmpty(words[..n]), words[n]);
      assert words[..n] + [words[n]] == words;
      assert NonEmpty(words[..n]) + [] == NonEmpty(words[..n]);
    }
  }

  // ---------------------------------------------------------------- how texts are cut

  predicate BlankFree(w: Units) {
    forall k :: 0 <= k < |w| ==> !Blank(w[k])
  }

  predicate Gap(g: Units) {
    g != [] && forall k :: 0 <= k < |g| ==> Blank(g[k])
  }

  /** Words with gaps between them. */
  function Laid(words: seq<Units>, gaps: seq<Units>): Units
    requires |words| == |gaps| + 1
  {
    if gaps == [] then words[0] else words[0] + gaps[0] + Laid(words[1..], gaps[1..])
  }

  ghost predicate CutAtGaps(s: Units, words: seq<Units>, gaps: seq<Units>) {
    && |words| == |gaps| + 1 && s == Laid(words, gaps)
    && (forall i :: 0 <= i < |words| ==> BlankFree(words[i])) && (forall i :: 0 <= i < |gaps| ==> Gap(gaps[i]))
  }

  /** Words have no white space, and a line is its words with nothing but white space between any two. */
  lemma {:induction false} WordsCut(s: Units) returns (gaps: seq<Units>)
    ensures CutAtGaps(s, Words(s), gaps)
    decreases |s|
  {
    hide Blank, CutAtGaps;
    var i := FirstBlank(s);
    if i == |s| {
      gaps := [];
      OneWordCut(s);
    } else {
      var rest := SkipBlanks(s[i..]);
      var later := WordsCut(rest);
      var gap := SkippedIsGap(s[i..]);
      gaps := [gap] + later;
      assert s == s[..i] + s[i..];
      Assoc(s[..i], gap, rest);
      CutInFront(s[..i], gap, rest, Words(rest), later);
    }
  }

  lemma OneWordCut(s: Units)
    requires BlankFree(s)
    ensures CutAtGaps(s, [s], [])
  {
  }

  lemma CutInFront(word: Units, gap: Units, rest: Units, words: seq<Units>, gaps: seq<Units>)
    requires BlankFree(word) && Gap(gap) && CutAtGaps(rest, words, gaps)
    ensures CutAtGaps(word + gap + rest, [word] + words, [gap] + gaps)
  {
    hide BlankFree, Gap;
    assert ([word] + words)[1..] == words && ([gap] + gaps)[1..] == gaps;
  }

  lemma {:induction false} SkippedIsGap(s: Units) returns (gap: Units)
    ensures s == gap + SkipBlanks(s) && forall k :: 0 <= k < |gap| ==> Blank(gap[k])
    ensures s != [] && Blank(s[0]) ==> gap != []
  {
    hide Blank;
    gap := [];
    if s != [] && Blank(s[0]) {
      var more := SkippedIsGap(s[1..]);
      gap := [s[0]] + more;
      assert s == [s[0]] + s[1..];
    }
  }

  /** Only one way of cutting a line has no empty word behind the first: splitting a laid line gives its words back. */
  lemma {:induction false} LaidIsCut(words: seq<Units>, gaps: seq<Units>)
    requires |words| == |gaps| + 1 && Separated(words)
    requires (forall i :: 0 <= i < |words| ==> BlankFree(words[i])) && (forall i :: 0 <= i < |gaps| ==> Gap(gaps[i]))
    ensures Words(Laid(words, gaps)) == words
    decreases |words|
  {
    hide Blank;
    var s := Laid(words, gaps);
    if gaps == [] {
      FirstBlankAt(words[0], []);
      assert s + [] == s && words == [s];
    } else {
      var rest := Laid(words[1..], gaps[1..]);
      assert s == words[0] + (gaps[0] + rest);
      FirstBlankAt(words[0], gaps[0] + rest);
      assert s[|words[0]|..] == gaps[0] + rest && s[..|words[0]|] == words[0];
      LaidBegins(words[1..], gaps[1..]);
      SkipGap(gaps[0], rest);
      forall i | 0 <= i < |words[1..]| ensures BlankFree(words[1..][i]) {
        assert words[1..][i] == words[i + 1];
      }
      LaidIsCut(words[1..], gaps[1..]);
      assert words == [words[0]] + words[1..];
    }
  }

  lemma LaidBegins(words: seq<Units>, gaps: seq<Units>)
    requires |words| == |gaps| + 1 && words[0] != [] && BlankFree(words[0])
    ensures var s := Laid(words, gaps); s != [] && !Blank(s[0])
  {
    assert Laid(words, gaps)[0] == words[0][0];
  }

  lemma {:induction false} FirstBlankAt(w: Units, rest: Units)
    requires BlankFree(w) && (rest == [] || Blank(rest[0]))
    ensures FirstBlank(w + rest) == |w|
  {
    hide Blank;
    if w == [] {
      assert w + rest == rest;
    } else {
      assert (w + rest)[0] == w[0] && (w + rest)[1..] == w[1..] + rest;
      FirstBlankAt(w[1..], rest);
    }
  }

  lemma {:induction false} SkipGap(gap: Units, rest: Units)
    requires (forall k :: 0 <= k < |gap| ==> Blank(gap[k])) && (rest != [] ==> !Blank(rest[0]))
    ensures SkipBlanks(gap + rest) == rest
  {
    hide Blank;
    if gap == [] {
      assert gap + rest == rest;
    } else {
      assert (gap + rest)[0] == gap[0] && (gap + rest)[1..] == gap[1..] + rest;
      SkipGap(gap[1..], rest);
    }
  }

  /** The lines of a text with newlines between them. */
  function Lined(lines: seq<Units>): Units
    requires lines != []
  {
    if |lines| == 1 then lines[0] else Lined(lines[..|lines| - 1]) + [0x0A] + lines[|lines| - 1]
  }

  /** The raw lines have no newline, and make up the text with newlines between them. */
  lemma {:induction false} RawLinesCut(s: Units)
    ensures Lined(RawLines(s)) == s && forall i :: 0 <= i < |RawLines(s)| ==> 0x0A !in RawLines(s)[i]
  {
    if s != [] {
      var n := |s| - 1;
      var before := RawLines(s[..n]);
      RawLinesCut(s[..n]);
      assert s == s[..n] + [s[n]];
      if s[n] == NEWLINE {
        assert (before + [[]])[..|before|] == before;
        assert Lined(before + [[]]) == Lined(before) + [0x0A] + [];
      } else {
        LinedLonger(before, s[n]);
      }
    }
  }

  lemma LinedLonger(lines: seq<Units>, u: Unit)
    requires lines != []
    ensures var n := |lines| - 1; Lined(lines[n := lines[n] + [u]]) == Lined(lines) + [u]
  {
    var n := |lines| - 1;
    var longer := lines[n := lines[n] + [u]];
    assert longer[..n] == lines[..n];
    if n > 0 {
      assert Lined(lines[..n]) + [0x0A] + (lines[n] + [u]) == (Lined(lines[..n]) + [0x0A] + lines[n]) + [u];
    }
  }

  /** A pair of carriage return and newline becomes a newline. */
  lemma {:induction false} PairBecomesNewline(a: Units, b: Units)
    ensures Normalized(a + [0x0D, 0x0A] + b) == Normalized(a) + [0x0A] + Normalized(b)
    decreases |a|
  {
    var s := a + [0x0D, 0x0A] + b;
    if a == [] {
      assert s[2..] == b;
    } else if |a| > 1 && a[0] == RETURN && a[1] == NEWLINE {
      assert s[2..] == a[2..] + [0x0D, 0x0A] + b;
      PairBecomesNewline(a[2..], b);
    } else {
      assert s[1..] == a[1..] + [0x0D, 0x0A] + b;
      PairBecomesNewline(a[1..], b);
    }
  }

  /** And a text without such a pair stays as it is. */
  lemma {:induction false} NoPairNoChange(s: Units)
    requires forall i :: 0 <= i < |s| - 1 ==> !(s[i] == 0x0D && s[i + 1] == 0x0A)
    ensures Normalized(s) == s
  {
    if s != [] {
      NoPairNoChange(s[1..]);
      assert s == [s[0]] + s[1..];
    }
  }

  /** A written line has its words with single spaces between them. */
  lemma {:induction false} SpacedIsLaid(words: seq<Units>) returns (gaps: seq<Units>)
    requires words != []
    ensures |words| == |gaps| + 1 && Spaced(words) == Laid(words, gaps)
    ensures forall i :: 0 <= i < |gaps| ==> gaps[i] == [0x20]
  {
    if |words| == 1 {
      gaps := [];
    } else {
      var n := |words| - 1;
      var before := SpacedIsLaid(words[..n]);
      gaps := before + [[0x20]];
      LaidLonger(words[..n], before, [0x20], words[n]);
      assert words == words[..n] + [words[n]];
    }
  }

  lemma {:induction false} LaidLonger(words: seq<Units>, gaps: seq<Units>, gap: Units, word: Units)
    requires |words| == |gaps| + 1
    ensures Laid(words + [word], gaps + [gap]) == Laid(words, gaps) + gap + word
    decreases |words|
  {
    var w, g := words + [word], gaps + [gap];
    assert w[1..] == words[1..] + [word];
    if gaps == [] {
      assert g[1..] == [] && w[1..] == [word];
      assert Laid([word], []) == word;
    } else {
      assert g[1..] == gaps[1..] + [gap];
      LaidLonger(words[1..], gaps[1..], gap, word);
      var rest := Laid(words[1..], gaps[1..]);
      assert words[0] + gaps[0] + (rest + gap + word) == (words[0] + gaps[0] + rest) + gap + word;
    }
  }

  lemma {:induction false} OfNonEmpty(words: seq<Units>, w: Units)
    requires w in NonEmpty(words)
    ensures w in words
  {
    var n := |words| - 1;
    if w in NonEmpty(words[..n]) {
      OfNonEmpty(words[..n], w);
    }
  }

  lemma {:induction false} OfConcat(lines: seq<seq<Units>>, line: seq<Units>, w: Units)
    requires line in lines && w in line
    ensures w in Concat(lines)
  {
    if line != lines[0] {
      assert lines == [lines[0]] + lines[1..];
      OfConcat(lines[1..], line, w);
    }
  }

  lemma {:induction false} OfTexts(lines: seq<seq<Units>>, out: Units)
    requires out in Texts(lines)
    ensures exists line :: line in lines && out == Spaced(line)
  {
    var n := |lines| - 1;
    if out == Spaced(lines[n]) {
      assert lines[n] in lines;
    } else {
      OfTexts(lines[..n], out);
    }
  }

  // ---------------------------------------------------------------- the whole text

  /** The output lines of one line of the text. */
  ghost predicate Wraps(line: Units, out: seq<Units>) {
    if line == [] then out == [[]]
    else exists lines: seq<seq<Units>> ::
        lines != [] && Filled(Words(line), lines) && out == Texts(lines) && Concat(Concat(lines)) == Solid(line)
  }

  ghost predicate Wrapped(raw: Units, out: seq<Units>) {
    out != [] && Wraps(TrimEnd(raw), out)
  }

  ghost predicate WrapsAll(raw: seq<Units>, parts: seq<seq<Units>>) {
    |parts| == |raw| && forall i :: 0 <= i < |raw| ==> Wrapped(raw[i], parts[i])
  }

  lemma {:induction false} TextsCount(lines: seq<seq<Units>>)
    ensures |Texts(lines)| == |lines|
  {
    if lines != [] {
      TextsCount(lines[..|lines| - 1]);
    }
  }

  method WrapLine(line: Units) returns (out: seq<Units>)
    requires line != [] && !Blank(line[|line| - 1])
    ensures out != [] && Wraps(line, out)
  {
    var words := Words(line);
    WordsAreSolid(line);
    out := FillWords(words);
    ghost var lines: seq<seq<Units>> :| Filled(words, lines) && out == Texts(lines);
    NonEmptyKeeps(words);
    TextsCount(lines);
    assert lines != [];
  }

  /** The body of the outer loop. */
  method WrapRaw(raw: Units) returns (out: seq<Units>)
    ensures out != [] && Wrapped(raw, out)
  {
    var line := TrimEnd(raw);
    if line == [] {
      out := [[]];
    } else {
      out := WrapLine(line);
    }
  }

  /** The lines of a wrapped text: those of each of its lines, one after the other. */
  ghost predicate WrapsText(text: Units, lines: seq<Units>) {
    exists parts: seq<seq<Units>> :: lines == Concat(parts) && WrapsAll(RawLines(Normalized(text)), parts)
  }

  lemma LineFits(raw: Units, out: seq<Units>, l: Units)
    requires Wrapped(raw, out) && l in out
    ensures |l| <= 90 || BlankFree(l)
  {
    hide Spaced, Concat, NonEmpty, Texts, Words, Blank, Solid;
    var line := TrimEnd(raw);
    if line != [] {
      var lines: seq<seq<Units>> :| lines != [] && Filled(Words(line), lines) && out == Texts(lines)
        && Concat(Concat(lines)) == Solid(line);
      OfTexts(lines, l);
      var ws :| ws in lines && l == Spaced(ws);
      var i :| 0 <= i < |lines| && lines[i] == ws;
      if |ws| == 1 {
        OfConcat(lines, ws, ws[0]);
        OfNonEmpty(Words(line), ws[0]);
        var gaps := WordsCut(line);
        SpacedOne(ws);
      }
    }
  }

  lemma SpacedOne(words: seq<Units>)
    requires |words| == 1
    ensures Spaced(words) == words[0]
  {
  }

  /** No line of the result is longer than 90 units, unless it is a single word. */
  lemma WrappedLinesFit(text: Units, lines: seq<Units>)
    requires WrapsText(text, lines)
    ensures forall l :: l in lines ==> |l| <= 90 || BlankFree(l)
  {
    hide Wrapped, BlankFree, Normalized, RawLines;
    var parts: seq<seq<Units>> :| lines == Concat(parts) && WrapsAll(RawLines(Normalized(text)), parts);
    forall l | l in lines ensures |l| <= 90 || BlankFree(l) {
      var i := PartOf(parts, l);
      LineFits(RawLines(Normalized(text))[i], parts[i], l);
    }
  }

  lemma {:induction false} PartOf(parts: seq<seq<Units>>, l: Units) returns (i: nat)
    requires l in Concat(parts)
    ensures i < |parts| && l in parts[i]
  {
    if l in parts[0] {
      i := 0;
    } else {
      i := PartOf(parts[1..], l);
      i := i + 1;
    }
  }

  /**
   Every line of the text is wrapped by itself, none is dropped, and its words are kept in order. The
   result is never empty, so that the text for empty reports is never used.
   */
  method WrapPdfText(text: Units) returns (lines: seq<Units>)
    ensures lines != [] && WrapsText(text, lines)
  {
    var raw := RawLines(Normalized(text));
    lines := [];
    ghost var parts: seq<seq<Units>> := [];
    for i := 0 to |raw|
      invariant lines == Concat(parts) && (i > 0 ==> lines != [])
      invariant |parts| == i && forall k :: 0 <= k < i ==> Wrapped(raw[k], parts[k])
    {
      var more := WrapRaw(raw[i]);
      ConcatLast(parts, more);
      hide *;
      lines, parts := lines + more, parts + [more];
    }
    assert WrapsAll(raw, parts);
    hide WrapsAll, RawLines, Normalized, Concat;
  }
}
