/**
 The PDF writer of the slash-command bot (skuld-slash-cmd/index.js): a text is wrapped into lines and
 pages, every line becomes an escaped string of a content stream, and a cross-reference table gives the
 byte offset of every object.

 Text comes as UTF-16 code units, as JavaScript sees it; what is written is a string of characters.
 */
module PdfWriter {
  import opened Common
  import opened Batching
  import opened Decimal
  import opened TextWrap

  const BACKSLASH: Unit := 0x5C
  const OPEN: Unit := 0x28
  const CLOSE: Unit := 0x29

  // ---------------------------------------------------------------- escaping

  /** `replace` of every occurrence of one unit. */
  function ReplaceUnit(s: Units, c: Unit, sub: Units): Units {
    if s == [] then [] else ReplaceUnit(s[..|s| - 1], c, sub) + if s[|s| - 1] == c then sub else [s[|s| - 1]]
  }

  predicate Printable(u: Unit) {
    0x20 <= u <= 0x7E
  }

  function Character(u: Unit): char {
    if Printable(u) then u as int as char else '?'
  }

  /** The last pass, after which only printable ASCII is left. */
  function ReplaceUnprintable(s: Units): string {
    if s == [] then [] else ReplaceUnprintable(s[..|s| - 1]) + [Character(s[|s| - 1])]
  }

  /** The four passes of `escapePdfText`. */
  function EscapePdfText(value: Units): string {
    var first := ReplaceUnit(value, BACKSLASH, [BACKSLASH, BACKSLASH]);
    var second := ReplaceUnit(first, OPEN, [BACKSLASH, OPEN]);
    var third := ReplaceUnit(second, CLOSE, [BACKSLASH, CLOSE]);
    ReplaceUnprintable(third)
  }

  /** Printable ASCII stays, everything else is a question mark. */
  lemma Characters(u: Unit)
    ensures Character(u) as int == if 32 <= u as int <= 126 then u as int else 63
  {
  }

  /** What one unit becomes in the end. */
  function Escaped(u: Unit): string {
    if u == BACKSLASH || u == OPEN || u == CLOSE then ['\\', Character(u)] else [Character(u)]
  }

  lemma ReplaceUnitNext(s: Units, u: Unit, c: Unit, sub: Units)
    ensures ReplaceUnit(s + [u], c, sub) == ReplaceUnit(s, c, sub) + if u == c then sub else [u]
  {
    assert (s + [u])[..|s|] == s;
  }

  lemma {:induction false} ReplaceUnitAppend(a: Units, b: Units, c: Unit, sub: Units)
    ensures ReplaceUnit(a + b, c, sub) == ReplaceUnit(a, c, sub) + ReplaceUnit(b, c, sub)
  {
    if b == [] {
      assert a + b == a;
    } else {
      hide *;
      var front, u := b[..|b| - 1], b[|b| - 1];
      assert front + [u] == b && (a + front) + [u] == a + b;
      ReplaceUnitAppend(a, front, c, sub);
      ReplaceUnitNext(a + front, u, c, sub);
      ReplaceUnitNext(front, u, c, sub);
      Assoc(ReplaceUnit(a, c, sub), ReplaceUnit(front, c, sub), if u == c then sub else [u]);
    }
  }

  lemma ReplaceUnprintableNext(s: Units, u: Unit)
    ensures ReplaceUnprintable(s + [u]) == ReplaceUnprintable(s) + [Character(u)]
  {
    assert (s + [u])[..|s|] == s;
  }

  lemma {:induction false} ReplaceUnprintableAppend(a: Units, b: Units)
    ensures ReplaceUnprintable(a + b) == ReplaceUnprintable(a) + ReplaceUnprintable(b)
  {
    if b == [] {
      assert a + b == a;
    } else {
      hide *;
      var front, u := b[..|b| - 1], b[|b| - 1];
      assert front + [u] == b && (a + front) + [u] == a + b;
      ReplaceUnprintableAppend(a, front);
      ReplaceUnprintableNext(a + front, u);
      ReplaceUnprintableNext(front, u);
      Assoc(ReplaceUnprintable(a), ReplaceUnprintable(front), [Character(u)]);
    }
  }

  lemma EscapeAppend(a: Units, b: Units)
    ensures EscapePdfText(a + b) == EscapePdfText(a) + EscapePdfText(b)
  {
    ReplaceUnitAppend(a, b, BACKSLASH, [BACKSLASH, BACKSLASH]);
    var a1, b1 := ReplaceUnit(a, BACKSLASH, [BACKSLASH, BACKSLASH]), ReplaceUnit(b, BACKSLASH, [BACKSLASH, BACKSLASH]);
    ReplaceUnitAppend(a1, b1, OPEN, [BACKSLASH, OPEN]);
    var a2, b2 := ReplaceUnit(a1, OPEN, [BACKSLASH, OPEN]), ReplaceUnit(b1, OPEN, [BACKSLASH, OPEN]);
    ReplaceUnitAppend(a2, b2, CLOSE, [BACKSLASH, CLOSE]);
    ReplaceUnprintableAppend(ReplaceUnit(a2, CLOSE, [BACKSLASH, CLOSE]), ReplaceUnit(b2, CLOSE, [BACKSLASH, CLOSE]));
  }

  lemma ReplaceInOne(u: Unit, c: Unit, sub: Units)
    ensures ReplaceUnit([u], c, sub) == if u == c then sub else [u]
  {
    assert ReplaceUnit([u][..0], c, sub) == [];
  }

  lemma ReplaceInTwo(u: Unit, v: Unit, c: Unit, sub: Units)
    ensures ReplaceUnit([u, v], c, sub) == (if u == c then sub else [u]) + (if v == c then sub else [v])
    ensures u != c && v != c ==> ReplaceUnit([u, v], c, sub) == [u, v]
  {
    ReplaceUnitAppend([u], [v], c, sub);
    ReplaceInOne(u, c, sub);
    ReplaceInOne(v, c, sub);
    assert [u] + [v] == [u, v];
  }

  /** The passes do not disturb each other: together they escape unit by unit. */
  lemma EscapeOne(u: Unit)
    ensures EscapePdfText([u]) == Escaped(u)
  {
    ReplaceInOne(u, BACKSLASH, [BACKSLASH, BACKSLASH]);
    if u == BACKSLASH {
      ReplaceInTwo(u, u, OPEN, [BACKSLASH, OPEN]);
      ReplaceInTwo(u, u, CLOSE, [BACKSLASH, CLOSE]);
      UnprintableInTwo(u);
    } else {
      ReplaceInOne(u, OPEN, [BACKSLASH, OPEN]);
      if u == OPEN {
        ReplaceInTwo(BACKSLASH, u, CLOSE, [BACKSLASH, CLOSE]);
        UnprintableInTwo(u);
      } else {
        ReplaceInOne(u, CLOSE, [BACKSLASH, CLOSE]);
        UnprintableInTwo(u);
        UnprintableInOne(u);
      }
    }
  }

  lemma UnprintableInTwo(u: Unit)
    ensures ReplaceUnprintable([BACKSLASH, u]) == ['\\', Character(u)]
  {
    ReplaceUnprintableAppend([BACKSLASH], [u]);
    UnprintableInOne(BACKSLASH);
    UnprintableInOne(u);
    assert [BACKSLASH] + [u] == [BACKSLASH, u];
  }

  lemma UnprintableInOne(u: Unit)
    ensures ReplaceUnprintable([u]) == [Character(u)]
  {
    assert ReplaceUnprintable([u][..0]) == [];
  }

  lemma EscapeNext(s: Units)
    requires s != []
    ensures EscapePdfText(s) == Escaped(s[0]) + EscapePdfText(s[1..])
  {
    hide *;
    assert [s[0]] + s[1..] == s;
    EscapeAppend([s[0]], s[1..]);
    EscapeOne(s[0]);
  }

  // ---------------------------------------------------------------- reading literal strings

  /**
   A reader of literal strings, from behind the opening parenthesis (section 7.3.4.2 of ISO 32000-1): the
   string and what follows its closing parenthesis. Parentheses may nest; of the escapes it knows those of
   the backslash and the parentheses.
   */
  function ReadLiteral(s: string, depth: nat): (r: Option<(string, string)>)
    ensures r.Some? ==> |r.value.1| < |s|
  {
    if s == "" then None
    else if s[0] == '\\' then
      if |s| == 1 || s[1] !in "\\()" then None else Prefix([s[1]], ReadLiteral(s[2..], depth))
    else if s[0] == '(' then Prefix([s[0]], ReadLiteral(s[1..], depth + 1))
    else if s[0] == ')' then
      if depth == 0 then Some(("", s[1..])) else Prefix([s[0]], ReadLiteral(s[1..], depth - 1))
    else Prefix([s[0]], ReadLiteral(s[1..], depth))
  }

  function Prefix(front: string, r: Option<(string, string)>): Option<(string, string)> {
    if r.None? then None else Some((front + r.value.0, r.value.1))
  }

  /** The line with question marks for what is not printable. */
  function Shown(line: Units): string {
    seq(|line|, i requires 0 <= i < |line| => Character(line[i]))
  }

  /** A reader gets back the line, up to the unprintable units, and ends exactly at the parenthesis of the writer. */
  lemma {:induction false} ReadUndoesEscape(line: Units, rest: string)
    ensures ReadLiteral(EscapePdfText(line) + ")" + rest, 0) == Some((Shown(line), rest))
  {
    if line == [] {
      ReadEmpty(rest);
    } else {
      ReadUndoesEscape(line[1..], rest);
      EscapeNext(line);
      ReadStep(line[0], line[1..], rest);
      hide *;
      assert [line[0]] + line[1..] == line;
    }
  }

  lemma ReadEmpty(rest: string)
    ensures ReadLiteral(EscapePdfText([]) + ")" + rest, 0) == Some((Shown([]), rest))
  {
    var text := EscapePdfText([]) + ")" + rest;
    assert EscapePdfText([]) == "" && Shown([]) == "";
    assert text[0] == ')' && text[1..] == rest;
  }

  lemma ReadStep(u: Unit, tail: Units, rest: string)
    requires ReadLiteral(EscapePdfText(tail) + ")" + rest, 0) == Some((Shown(tail), rest))
    ensures ReadLiteral((Escaped(u) + EscapePdfText(tail)) + ")" + rest, 0) == Some((Shown([u] + tail), rest))
  {
    assert Shown([u] + tail) == [Character(u)] + Shown(tail);
    hide *;
    ReadOne(u, EscapePdfText(tail) + ")" + rest);
    Regroup(Escaped(u), EscapePdfText(tail), ")", rest);
    PrefixSome([Character(u)], Shown(tail), rest);
  }

  lemma PrefixSome(front: string, text: string, rest: string)
    ensures Prefix(front, Some((text, rest))) == Some((front + text, rest))
  {
  }

  lemma Regroup<T>(a: seq<T>, b: seq<T>, c: seq<T>, d: seq<T>)
    ensures (a + b) + c + d == a + (b + c + d)
  {
  }

  lemma ReadOne(u: Unit, later: string)
    ensures ReadLiteral(Escaped(u) + later, 0) == Prefix([Character(u)], ReadLiteral(later, 0))
  {
    var text := Escaped(u) + later;
    if |Escaped(u)| == 2 {
      assert text[0] == '\\' && text[1] == Character(u) && text[2..] == later;
    } else {
      assert text[0] == Escaped(u)[0] && text[1..] == later;
    }
  }

  // ---------------------------------------------------------------- content streams

  function Join(lines: seq<string>, sep: string): string {
    if lines == [] then ""
    else if |lines| == 1 then lines[0]
    else Join(lines[..|lines| - 1], sep) + (sep + lines[|lines| - 1])
  }

  function Preamble(): seq<string> {
    ["BT", "/F1 11 Tf", "14 TL", "50 782 Td"]
  }

  function ShowText(line: Units): string {
    "(" + (EscapePdfText(line) + ")" + " Tj")
  }

  /** The operators that show the lines of a page, `T*` between them. */
  function ShowLines(page: seq<Units>): seq<string> {
    if page == [] then []
    else ShowLines(page[..|page| - 1]) + (if |page| > 1 then ["T*"] else []) + [ShowText(page[|page| - 1])]
  }

  function Stream(page: seq<Units>): string {
    Join(Preamble() + ShowLines(page) + ["ET"], "\n")
  }

  /** A reader of content streams: the strings that are shown, in order. */
  function TextShown(s: string): seq<string>
    decreases |s|
  {
    if s == "" then []
    else if s[0] == '(' then
      match ReadLiteral(s[1..], 0)
      case None => []
      case Some((text, rest)) => [text] + TextShown(rest)
    else TextShown(s[1..])
  }

  lemma {:induction false} SkipOperators(plain: string, rest: string)
    requires '(' !in plain
    ensures TextShown(plain + rest) == TextShown(rest)
  {
    if plain == "" {
      assert plain + rest == rest;
    } else {
      assert (plain + rest)[0] == plain[0] && (plain + rest)[1..] == plain[1..] + rest;
      SkipOperators(plain[1..], rest);
    }
  }

  function AllShown(page: seq<Units>): seq<string> {
    if page == [] then [] else AllShown(page[..|page| - 1]) + [Shown(page[|page| - 1])]
  }

  lemma JoinNext(lines: seq<string>, last: string, sep: string)
    requires lines != []
    ensures Join(lines + [last], sep) == Join(lines, sep) + (sep + last)
  {
    assert (lines + [last])[..|lines|] == lines;
  }

  lemma ReadShowText(line: Units, rest: string)
    ensures TextShown(ShowText(line) + rest) == [Shown(line)] + TextShown(rest)
  {
    var s := ShowText(line) + rest;
    assert s[0] == '(' && s[1..] == EscapePdfText(line) + ")" + (" Tj" + rest);
    ReadUndoesEscape(line, " Tj" + rest);
    SkipOperators(" Tj", rest);
  }

  lemma PreambleIsPlain()
    ensures '(' !in Join(Preamble(), "\n")
  {
    var one, two, three := Preamble()[..1], Preamble()[..2], Preamble()[..3];
    assert Preamble() == three + [Preamble()[3]] && three == two + [Preamble()[2]] && two == one + [Preamble()[1]];
    JoinNext(three, Preamble()[3], "\n");
    JoinNext(two, Preamble()[2], "\n");
    JoinNext(one, Preamble()[1], "\n");
  }

  /** What further lines add to a joined text. */
  function Tail(lines: seq<string>): string {
    if lines == [] then "" else Tail(lines[..|lines| - 1]) + ("\n" + lines[|lines| - 1])
  }

  lemma Regroup4<T>(a: seq<T>, b: seq<T>, c: seq<T>, d: seq<T>)
    ensures (a + (b + c)) + d == a + (b + (c + d))
    ensures a + (b + c) == (a + b) + c
  {
  }

  lemma {:induction false} JoinTail(lines: seq<string>, more: seq<string>)
    requires lines != []
    ensures Join(lines + more, "\n") == Join(lines, "\n") + Tail(more)
  {
    if more == [] {
      assert lines + more == lines;
    } else {
      var n := |more| - 1;
      JoinTail(lines, more[..n]);
      JoinNext(lines + more[..n], more[n], "\n");
      assert (lines + more[..n]) + [more[n]] == lines + more;
      hide Join;
      Regroup4(Join(lines, "\n"), Tail(more[..n]), "\n" + more[n], "");
    }
  }

  lemma TailNext(lines: seq<string>, last: string)
    ensures Tail(lines + [last]) == Tail(lines) + ("\n" + last)
  {
    assert (lines + [last])[..|lines|] == lines;
  }

  /** What separates a line of a page from what is before it. */
  function Mark(n: nat): string {
    if n > 0 then ("\n" + "T*") + "\n" else "\n"
  }

  lemma RegroupPairs<T>(t: seq<T>, a: seq<T>, b: seq<T>, y: seq<T>)
    ensures (t + a) + (b + y) == t + ((a + b) + y)
  {
  }

  lemma TailTwo(lines: seq<string>, x: string, y: string)
    ensures Tail((lines + [x]) + [y]) == Tail(lines) + ((("\n" + x) + "\n") + y)
  {
    hide *;
    TailNext(lines, x);
    TailNext(lines + [x], y);
    RegroupPairs(Tail(lines), "\n" + x, "\n", y);
  }

  lemma TailOfShowLines(page: seq<Units>)
    requires page != []
    ensures Tail(ShowLines(page))
        == Tail(ShowLines(page[..|page| - 1])) + (Mark(|page| - 1) + ShowText(page[|page| - 1]))
  {
    var n := |page| - 1;
    ShowLinesNext(page);
    if n > 0 {
      TailTwo(ShowLines(page[..n]), "T*", ShowText(page[n]));
    } else {
      TailNext(ShowLines(page[..n]), ShowText(page[n]));
    }
    hide ShowLines, ShowText, Tail;
  }

  lemma ShowLinesNext(page: seq<Units>)
    requires page != []
    ensures |page| > 1 ==> ShowLines(page) == (ShowLines(page[..|page| - 1]) + ["T*"]) + [ShowText(page[|page| - 1])]
    ensures |page| == 1 ==> ShowLines(page) == ShowLines(page[..|page| - 1]) + [ShowText(page[|page| - 1])]
  {
    hide ShowText;
    assert |page| == 1 ==> ShowLines(page[..|page| - 1]) + [] == ShowLines(page[..|page| - 1]);
  }

  lemma {:induction false} ReadLines(page: seq<Units>, rest: string)
    ensures TextShown(Tail(ShowLines(page)) + rest) == AllShown(page) + TextShown(rest)
  {
    if page == [] {
      assert "" + rest == rest;
    } else {
      var n := |page| - 1;
      ReadLines(page[..n], Mark(n) + (ShowText(page[n]) + rest));
      ReadShowText(page[n], rest);
      SkipOperators(Mark(n), ShowText(page[n]) + rest);
      TailOfShowLines(page);
      assert AllShown(page) == AllShown(page[..n]) + [Shown(page[n])];
      hide *;
      Regroup4(Tail(ShowLines(page[..n])), Mark(n), ShowText(page[n]), rest);
      Regroup4(AllShown(page[..n]), [Shown(page[n])], TextShown(rest), []);
    }
  }

  /** What the stream of a page shows are its lines, with question marks for what is not printable. */
  lemma StreamShowsPage(page: seq<Units>)
    ensures TextShown(Stream(page)) == AllShown(page)
  {
    var start := Join(Preamble(), "\n");
    assert Preamble() != [];
    Regroup4(Preamble(), ShowLines(page), ["ET"], []);
    JoinTail(Preamble(), ShowLines(page) + ["ET"]);
    TailNext(ShowLines(page), "ET");
    PreambleIsPlain();
    SkipOperators(start, Tail(ShowLines(page)) + ("\n" + "ET"));
    ReadLines(page, "\n" + "ET");
    SkipOperators("\n" + "ET", "");
    assert ("\n" + "ET") + "" == "\n" + "ET";
    assert TextShown("") == [] && AllShown(page) + [] == AllShown(page);
  }

  // ---------------------------------------------------------------- bytes

  /** UTF-8 (section 3 of RFC 3629). */
  function Bytes(c: char): seq<nat> {
    var u := c as nat;
    if u < 0x80 then [u]
    else if u < 0x800 then [0xC0 + u / 0x40, 0x80 + u % 0x40]
    else if u < 0x10000 then [0xE0 + u / 0x1000, 0x80 + u / 0x40 % 0x40, 0x80 + u % 0x40]
    else [0xF0 + u / 0x40000, 0x80 + u / 0x1000 % 0x40, 0x80 + u / 0x40 % 0x40, 0x80 + u % 0x40]
  }

  function Utf8(s: string): seq<nat> {
    if s == "" then [] else Utf8(s[..|s| - 1]) + Bytes(s[|s| - 1])
  }

  lemma {:induction false} Utf8Append(a: string, b: string)
    ensures Utf8(a + b) == Utf8(a) + Utf8(b)
  {
    hide Bytes;
    if b == "" {
      assert a + b == a;
    } else {
      assert (a + b)[..|a + b| - 1] == a + b[..|b| - 1];
      Utf8Append(a, b[..|b| - 1]);
    }
  }

  /** The bytes of a part lie at an offset of a file. */
  ghost predicate At(file: seq<nat>, offset: nat, part: seq<nat>) {
    offset + |part| <= |file| && file[offset..offset + |part|] == part
  }

  lemma AtWithin(file: seq<nat>, offset: nat, part: seq<nat>, inner: nat, detail: seq<nat>)
    requires At(file, offset, part) && At(part, inner, detail)
    ensures At(file, offset + inner, detail)
  {
    assert forall k :: 0 <= k < |part| ==> file[offset + k] == part[k];
  }

  /** A part of a text is the part of its bytes behind the bytes of what precedes it. */
  lemma Utf8Part(a: string, b: string, c: string)
    ensures At(Utf8(a + (b + c)), |Utf8(a)|, Utf8(b))
  {
    Utf8Append(a, b + c);
    Utf8Append(b, c);
    hide *;
    PartOf(Utf8(a), Utf8(b), Utf8(c));
  }

  lemma PartOf(a: seq<nat>, b: seq<nat>, c: seq<nat>)
    ensures At(a + (b + c), |a|, b)
  {
  }

  predicate Ascii(s: string) {
    forall i :: 0 <= i < |s| ==> s[i] as int < 0x80
  }

  lemma {:induction false} AsciiBytes(s: string)
    requires Ascii(s)
    ensures |Utf8(s)| == |s| && forall i :: 0 <= i < |s| ==> Utf8(s)[i] == s[i] as nat
  {
    if s != "" {
      AsciiBytes(s[..|s| - 1]);
    }
  }

  // ---------------------------------------------------------------- the file

  function Header(): string {
    "%PDF-1.4\n"
  }

  /** How many bytes the first pieces of a text take. */
  function Offset(pieces: seq<string>, k: nat): nat
    requires k <= |pieces|
  {
    |Utf8(Concat(pieces[..k]))|
  }

  /** Where object `i + 1` begins, or the table when `i` is the number of objects. */
  function Start(objects: seq<string>, i: nat): nat
    requires i <= |objects|
  {
    Offset([Header()] + objects, i + 1)
  }

  /** `padStart(10, '0')` on a decimal numeral. */
  function Padded(n: nat): string {
    var digits := Show(n);
    if |digits| >= 10 then digits else seq(10 - |digits|, _ => '0') + digits
  }

  const ENTRY_TAIL := " 00000 n \n"

  function Entry(offset: nat): string {
    Padded(offset) + ENTRY_TAIL
  }

  /** The entries of the table in use, one for each object. */
  function Entries(objects: seq<string>): seq<string> {
    seq(|objects|, i requires 0 <= i < |objects| => Entry(Start(objects, i)))
  }

  const FREE_ENTRY := "0000000000 65535 f \n"

  function TableHead(objects: seq<string>): string {
    "xref\n0 " + Show(|objects| + 1) + "\n"
  }

  function Table(objects: seq<string>): seq<string> {
    [TableHead(objects), FREE_ENTRY] + Entries(objects)
  }

  /** The last lines of a file whose table begins at byte `table`. */
  function StartXref(table: nat): string {
    "startxref\n" + Show(table) + "\n%%EOF"
  }

  function TrailerHead(size: nat): seq<string> {
    ["trailer\n<< ", "/Size ", Show(size), " ", "/Root ", "1", " 0 R >>\n"]
  }

  function Trailer(objects: seq<string>): string {
    Concat(TrailerHead(|objects| + 1)) + StartXref(Start(objects, |objects|))
  }

  /** The file, piece by piece: object `i + 1` is piece `i + 1`, and its entry is piece `|objects| + 3 + i`. */
  function Pieces(objects: seq<string>): seq<string> {
    ([Header()] + objects) + (Table(objects) + [Trailer(objects)])
  }

  function File(objects: seq<string>): seq<nat> {
    Utf8(Concat(Pieces(objects)))
  }

  // ---------------------------------------------------------------- pieces and offsets

  lemma {:induction false} ConcatSplit(pieces: seq<string>, k: nat)
    requires k < |pieces|
    ensures Concat(pieces) == Concat(pieces[..k]) + (pieces[k] + Concat(pieces[k + 1..]))
  {
    if k > 0 {
      ConcatSplit(pieces[1..], k - 1);
      assert pieces[1..][..k - 1] == pieces[..k][1..];
      Regroup4(pieces[0], Concat(pieces[1..][..k - 1]), pieces[k] + Concat(pieces[k + 1..]), []);
    }
  }

  /** The bytes of a text at the offset of a piece are the piece. */
  lemma PieceAtOffset(pieces: seq<string>, k: nat)
    requires k < |pieces|
    ensures At(Utf8(Concat(pieces)), Offset(pieces, k), Utf8(pieces[k]))
  {
    hide Utf8, Concat, At;
    ConcatSplit(pieces, k);
    Utf8Part(Concat(pieces[..k]), pieces[k], Concat(pieces[k + 1..]));
  }

  lemma OffsetNext(pieces: seq<string>, k: nat)
    requires k < |pieces|
    ensures Offset(pieces, k + 1) == Offset(pieces, k) + |Utf8(pieces[k])|
  {
    hide Utf8, Concat;
    ConcatNext(pieces, k);
    Utf8Append(Concat(pieces[..k]), pieces[k]);
  }

  lemma OffsetOfPrefix(pieces: seq<string>, more: seq<string>, k: nat)
    requires k <= |pieces|
    ensures Offset(pieces + more, k) == Offset(pieces, k)
  {
    assert (pieces + more)[..k] == pieces[..k];
  }

  /** The bytes at an object's offset are the object. */
  lemma ObjectAtOffset(objects: seq<string>, i: nat)
    requires i < |objects|
    ensures At(File(objects), Start(objects, i), Utf8(objects[i]))
  {
    hide Utf8, Concat, Offset, Table, Trailer, Header, At;
    assert Pieces(objects)[i + 1] == objects[i];
    PieceAtOffset(Pieces(objects), i + 1);
    OffsetOfPrefix([Header()] + objects, Table(objects) + [Trailer(objects)], i + 1);
  }

  lemma {:induction false} ZerosAddNothing(zeros: nat, digits: string)
    requires AllDigits(digits)
    ensures AllDigits(seq(zeros, _ => '0') + digits) && Value(seq(zeros, _ => '0') + digits) == Value(digits)
  {
    var all := seq(zeros, _ => '0') + digits;
    if digits != "" {
      ZerosAddNothing(zeros, digits[..|digits| - 1]);
      assert all[..|all| - 1] == seq(zeros, _ => '0') + digits[..|digits| - 1];
    } else if zeros > 0 {
      ZerosAddNothing(zeros - 1, "");
      assert all[..|all| - 1] == seq(zeros - 1, _ => '0') + "";
    }
  }

  lemma PaddedDenotes(offset: nat)
    ensures AllDigits(Padded(offset)) && Value(Padded(offset)) == offset && |Padded(offset)| >= 10
    ensures |Padded(offset)| == 10 <==> offset < Pow10(10)
  {
    hide Pow10, Show, Value;
    ValueOfShow(offset);
    if |Show(offset)| < 10 {
      ZerosAddNothing(10 - |Show(offset)|, Show(offset));
    }
    if offset < Pow10(10) {
      ShowLength(offset, 10);
    } else {
      ShowTooLong(offset, 10);
    }
  }

  lemma EntryTailLength()
    ensures |Utf8(ENTRY_TAIL)| == 10
  {
    assert |ENTRY_TAIL| == 10 && Ascii(ENTRY_TAIL);
    AsciiBytes(ENTRY_TAIL);
  }

  /** An entry denotes its offset; it has the 20 bytes of section 7.5.4 of ISO 32000-1 exactly below 10^10. */
  lemma EntryDenotesOffset(offset: nat)
    ensures AllDigits(Padded(offset)) && Value(Padded(offset)) == offset
    ensures |Utf8(Entry(offset))| == 20 <==> offset < Pow10(10)
    ensures offset < Pow10(10) ==> |Padded(offset)| == 10
  {
    hide Pow10, Padded, Value, Utf8;
    PaddedDenotes(offset);
    EntryTailLength();
    DigitsAreAscii(Padded(offset));
    AsciiBytes(Padded(offset));
    Utf8Append(Padded(offset), ENTRY_TAIL);
  }

  lemma DigitsAreAscii(s: string)
    requires AllDigits(s)
    ensures Ascii(s)
  {
  }

  lemma FreeEntryLength()
    ensures |Utf8(FREE_ENTRY)| == 20
  {
    assert |FREE_ENTRY| == 20 && Ascii(FREE_ENTRY);
    AsciiBytes(FREE_ENTRY);
  }

  /**
   The table begins at the offset of the trailer; entry `i` of the table begins 20 `i` bytes behind the head of the
   table.
   */
  lemma {:induction false} EntryOffset(objects: seq<string>, i: nat)
    requires i <= |objects| && forall k :: 0 <= k < i ==> Start(objects, k) < Pow10(10)
    ensures Offset(Pieces(objects), |objects| + 1) == Start(objects, |objects|)
    ensures Offset(Pieces(objects), |objects| + 3 + i)
        == Start(objects, |objects|) + |Utf8(TableHead(objects))| + 20 * (i + 1)
  {
    var n, pieces := |objects|, Pieces(objects);
    hide Utf8, Concat, Offset, Trailer, Header, Start, Entry, TableHead;
    if i == 0 {
      TableOffset(objects);
      assert pieces[n + 1] == TableHead(objects) && pieces[n + 2] == FREE_ENTRY;
      OffsetNext(pieces, n + 1);
      OffsetNext(pieces, n + 2);
      FreeEntryLength();
    } else {
      EntryOffset(objects, i - 1);
      assert pieces[n + 3 + (i - 1)] == Entry(Start(objects, i - 1));
      OffsetNext(pieces, n + 3 + (i - 1));
      EntryDenotesOffset(Start(objects, i - 1));
    }
  }

  lemma TableOffset(objects: seq<string>)
    ensures Offset(Pieces(objects), |objects| + 1) == Start(objects, |objects|)
  {
    OffsetOfPrefix([Header()] + objects, Table(objects) + [Trailer(objects)], |objects| + 1);
  }

  lemma EndsWith(text: string, front: string, tail: string)
    requires text == front + tail
    ensures |Utf8(tail)| <= |Utf8(text)| && At(Utf8(text), |Utf8(text)| - |Utf8(tail)|, Utf8(tail))
  {
    hide Utf8;
    Utf8Append(front, tail);
  }

  /** The file ends with `startxref` and the number of the byte where the table begins. */
  lemma StartXrefIsLast(objects: seq<string>)
    ensures var file, tail := File(objects), Utf8(StartXref(Start(objects, |objects|)));
            |tail| <= |file| && At(file, |file| - |tail|, tail)
  {
    var pieces := Pieces(objects);
    var n := |pieces| - 1;
    hide Utf8, Concat, Offset, Header, Start, StartXref, Show, Table, At;
    ConcatNext(pieces, n);
    assert pieces[..n + 1] == pieces && pieces[n] == Trailer(objects);
    var dict := Concat(TrailerHead(|objects| + 1));
    var tail := StartXref(Start(objects, |objects|));
    Regroup4(Concat(pieces[..n]), dict, tail, "");
    EndsWith(Concat(pieces), Concat(pieces[..n]) + dict, tail);
  }

  /**
   The cross-reference table is exact (sections 7.5.4 and 7.5.5 of ISO 32000-1), while offsets have ten
   digits: the file ends with `startxref` and the byte where the table begins, entry `i` is found 20 bytes behind its
   predecessor, and the ten digits it begins with denote the byte where object `i + 1` begins.
   */
  lemma TableIsExact(objects: seq<string>, i: nat)
    requires i < |objects| && forall k :: 0 <= k < |objects| ==> Start(objects, k) < Pow10(10)
    ensures var file, table, head := File(objects), Start(objects, |objects|), Utf8(TableHead(objects));
            var last := Utf8(StartXref(table));
            && |last| <= |file| && At(file, |file| - |last|, last) && Value(Show(table)) == table
            && At(file, table, head) && At(file, table + |head|, Utf8("0000000000 65535 f \n"))
            && At(file, table + |head| + 20 * (i + 1), Utf8(Padded(Start(objects, i)) + " 00000 n \n"))
            && |Padded(Start(objects, i))| == 10 && AllDigits(Padded(Start(objects, i)))
            && Value(Padded(Start(objects, i))) == Start(objects, i)
  {
    var n, pieces := |objects|, Pieces(objects);
    hide Utf8, Concat, Offset, Trailer, Header, Start, Entry, TableHead, Padded, At;
    hide StartXref;
    ValueOfShow(Start(objects, n));
    StartXrefIsLast(objects);
    EntryOffset(objects, i);
    assert pieces[n + 1] == TableHead(objects) && pieces[n + 3 + i] == Entry(Start(objects, i));
    assert pieces[n + 2] == FREE_ENTRY;
    EntryText(Start(objects, i));
    OffsetNext(pieces, n + 1);
    PieceAtOffset(pieces, n + 2);
    PieceAtOffset(pieces, n + 1);
    PieceAtOffset(pieces, n + 3 + i);
    EntryDenotesOffset(Start(objects, i));
  }

  lemma EntryText(offset: nat)
    ensures Entry(offset) == Padded(offset) + " 00000 n \n" && FREE_ENTRY == "0000000000 65535 f \n"
  {
  }

  // ---------------------------------------------------------------- the objects

  function ObjectHead(id: nat): seq<string> {
    [Show(id), " 0 obj\n"]
  }

  function ContentRest(stream: string): seq<string> {
    ["<< ", "/Length ", Show(|Utf8(stream)|), " >>\n", "stream\n", stream, "\nendstream\nendobj\n"]
  }

  function PageRest(content: nat): seq<string> {
    ["<< ", "/Type ", "/Page ", "/Parent ", "2", " 0 R ", "/MediaBox ", "[0 0 595 842] ", "/Resources ", "<< ",
     "/Font ",
     "<< ", "/F1 ", "3", " 0 R >> >> ", "/Contents ", Show(content), " 0 R >>\nendobj\n"]
  }

  function CatalogRest(): seq<string> {
    ["<< ", "/Type ", "/Catalog ", "/Pages ", "2", " 0 R >>\nendobj\n"]
  }

  function PagesRest(pages: nat): seq<string> {
    ["<< ", "/Type ", "/Pages ", "/Count ", Show(pages), " ", "/Kids [", Join(Kids(pages), " "), "] >>\nendobj\n"]
  }

  function FontRest(): seq<string> {
    ["<< ", "/Type ", "/Font ", "/Subtype ", "/Type1 ", "/BaseFont ", "/Helvetica ",
     "/Encoding ", "/WinAnsiEncoding", " >>\nendobj\n"]
  }

  function ContentPieces(id: nat, stream: string): seq<string> {
    ObjectHead(id) + ContentRest(stream)
  }

  function ContentObject(k: nat, page: seq<Units>): string {
    Concat(ContentPieces(ContentId(k), Stream(page)))
  }

  function PageObject(k: nat): string {
    Concat(ObjectHead(PageId(k)) + PageRest(ContentId(k)))
  }

  function Reference(id: nat): string {
    Show(id) + " 0 R"
  }

  function Kids(pages: nat): seq<string> {
    if pages == 0 then [] else Kids(pages - 1) + [Reference(PageId(pages - 1))]
  }

  function ContentId(k: nat): nat {
    4 + 2 * k
  }

  function PageId(k: nat): nat {
    5 + 2 * k
  }

  function Fixed(pages: nat): seq<string> {
    [Concat(ObjectHead(1) + CatalogRest()), Concat(ObjectHead(2) + PagesRest(pages)),
     Concat(ObjectHead(3) + FontRest())]
  }

  function PageObjects(pages: seq<seq<Units>>): seq<string> {
    if pages == [] then []
    else
      var k := |pages| - 1;
      PageObjects(pages[..k]) + [ContentObject(k, pages[k]), PageObject(k)]
  }

  /** Object `i + 1` at index `i`. */
  function Objects(pages: seq<seq<Units>>): seq<string> {
    Fixed(|pages|) + PageObjects(pages)
  }

  lemma {:induction false} PageObjectsAt(pages: seq<seq<Units>>, k: nat)
    requires k < |pages|
    ensures |PageObjects(pages)| == 2 * |pages|
    ensures PageObjects(pages)[2 * k] == ContentObject(k, pages[k]) && PageObjects(pages)[2 * k + 1] == PageObject(k)
  {
    var n := |pages| - 1;
    hide ContentObject, PageObject;
    if n > 0 {
      PageObjectsAt(pages[..n], if k < n then k else 0);
    }
  }

  ghost predicate Numbered(object_: string, id: nat) {
    Show(id) + " 0 obj\n" <= object_
  }

  lemma HeadNumbers(id: nat, rest: seq<string>)
    ensures Numbered(Concat(ObjectHead(id) + rest), id)
  {
    var all := ObjectHead(id) + rest;
    assert all[1..][1..] == rest;
    assert Concat(all) == all[0] + (all[1] + Concat(rest));
  }

  lemma FixedNumbered(pages: nat)
    ensures |Fixed(pages)| == 3
    ensures forall i :: 0 <= i < 3 ==> Numbered(Fixed(pages)[i], i + 1)
  {
    HeadNumbers(1, CatalogRest());
    HeadNumbers(2, PagesRest(pages));
    HeadNumbers(3, FontRest());
    hide Numbered, Concat, ObjectHead, CatalogRest, PagesRest, FontRest;
  }

  lemma PageObjectsNumbered(k: nat, page: seq<Units>)
    ensures Numbered(ContentObject(k, page), ContentId(k)) && Numbered(PageObject(k), PageId(k))
  {
    hide Numbered, Concat, ObjectHead, Stream, ContentRest, PageRest, ContentId, PageId;
    HeadNumbers(ContentId(k), ContentRest(Stream(page)));
    HeadNumbers(PageId(k), PageRest(ContentId(k)));
  }

  lemma InSecond<T>(a: seq<T>, b: seq<T>, size: nat, k: nat)
    requires size == |a| && k < |b|
    ensures size + k < |a + b| && (a + b)[size + k] == b[k]
  {
  }

  lemma PageIndex(i: nat, pages: nat)
    requires 3 <= i < 3 + 2 * pages
    ensures (i - 3) / 2 < pages
    ensures (i == 3 + 2 * ((i - 3) / 2) && i + 1 == ContentId((i - 3) / 2))
        || (i == 4 + 2 * ((i - 3) / 2) && i + 1 == PageId((i - 3) / 2))
  {
  }

  lemma ObjectsAre(pages: seq<seq<Units>>)
    ensures Objects(pages) == Fixed(|pages|) + PageObjects(pages)
  {
  }

  /** Object `i + 1` of the file. */
  function ObjectAt(pages: seq<seq<Units>>, i: nat): string {
    if i < |Objects(pages)| then Objects(pages)[i] else ""
  }

  /** The objects of page `k`. */
  lemma ObjectsOfPage(pages: seq<seq<Units>>, k: nat)
    requires k < |pages|
    ensures |Objects(pages)| == 3 + 2 * |pages|
    ensures ObjectAt(pages, 3 + 2 * k) == ContentObject(k, pages[k]) && ObjectAt(pages, 4 + 2 * k) == PageObject(k)
  {
    hide Objects, Fixed, PageObjects, ContentObject, PageObject;
    ObjectsAre(pages);
    PageObjectsAt(pages, k);
    FixedNumbered(|pages|);
    InSecond(Fixed(|pages|), PageObjects(pages), 3, 2 * k);
    InSecond(Fixed(|pages|), PageObjects(pages), 3, 2 * k + 1);
  }

  lemma FixedInFront(pages: seq<seq<Units>>, i: nat)
    requires i < 3
    ensures Numbered(ObjectAt(pages, i), i + 1)
  {
    hide Objects, Fixed, PageObjects, Numbered, ContentObject, PageObject;
    ObjectsAre(pages);
    FixedNumbered(|pages|);
    assert (Fixed(|pages|) + PageObjects(pages))[i] == Fixed(|pages|)[i];
  }

  /** Every object carries the number under which the table lists it. */
  lemma ObjectsAreNumbered(pages: seq<seq<Units>>, i: nat)
    requires pages != [] && i < 3 + 2 * |pages|
    ensures Numbered(ObjectAt(pages, i), i + 1)
  {
    hide *;
    if i < 3 {
      FixedInFront(pages, i);
    } else {
      var k := (i - 3) / 2;
      PageIndex(i, |pages|);
      ObjectsOfPage(pages, k);
      PageObjectsNumbered(k, pages[k]);
    }
  }

  /** The pieces of a content object: a `/Length` that denotes the number of bytes of the stream, and the stream. */
  ghost predicate Holds(pieces: seq<string>, stream: string) {
    && |pieces| == 9 && pieces[7] == stream
    && AllDigits(pieces[4]) && Value(pieces[4]) == |Utf8(stream)|
  }

  lemma ContentHolds(id: nat, stream: string)
    ensures Holds(ContentPieces(id, stream), stream)
  {
    ValueOfShow(|Utf8(stream)|);
    hide Utf8, Show, Value;
  }

  lemma StreamInside(file: seq<nat>, at: nat, pieces: seq<string>, stream: string)
    requires Holds(pieces, stream) && At(file, at, Utf8(Concat(pieces)))
    ensures At(file, at + Offset(pieces, 7), Utf8(stream))
  {
    hide Utf8, Value, At, Concat, Offset;
    PieceAtOffset(pieces, 7);
    AtWithin(file, at, Utf8(Concat(pieces)), Offset(pieces, 7), Utf8(stream));
  }

  /**
   From the table to the text: at the offset of a page's content object lies, at its place and of the
   length that `/Length` denotes, the stream of the page, which shows the lines of the page.
   */
  lemma PageIsFound(pages: seq<seq<Units>>, k: nat, objects: seq<string>, pieces: seq<string>, stream: string)
    requires k < |pages| && objects == Objects(pages)
    requires stream == Stream(pages[k]) && pieces == ContentPieces(ContentId(k), stream)
    ensures 3 + 2 * k < |objects| && Holds(pieces, stream)
    ensures At(File(objects), Start(objects, 3 + 2 * k) + Offset(pieces, 7), Utf8(stream))
    ensures TextShown(stream) == AllShown(pages[k])
  {
    hide *;
    StreamShowsPage(pages[k]);
    ContentObjectIs(pages, k, objects, pieces);
    ContentHolds(ContentId(k), stream);
    ObjectAtOffset(objects, 3 + 2 * k);
    StreamInside(File(objects), Start(objects, 3 + 2 * k), pieces, stream);
  }

  lemma ContentObjectIs(pages: seq<seq<Units>>, k: nat, objects: seq<string>, pieces: seq<string>)
    requires k < |pages| && objects == Objects(pages) && pieces == ContentPieces(ContentId(k), Stream(pages[k]))
    ensures 3 + 2 * k < |objects| && objects[3 + 2 * k] == Concat(pieces)
  {
    hide Objects, Concat, ContentPieces, Stream, ContentId;
    ObjectsOfPage(pages, k);
  }

  // ---------------------------------------------------------------- reading a file back

  /** Bytes as characters, where they are ASCII. */
  function Latin(bytes: seq<nat>): (s: string)
    ensures |s| == |bytes|
  {
    seq(|bytes|, i requires 0 <= i < |bytes| => if bytes[i] < 0x80 then bytes[i] as char else '?')
  }

  function TextAt(file: seq<nat>, offset: nat): string {
    if offset <= |file| then Latin(file[offset..]) else ""
  }

  /** What follows the first occurrence of a key. */
  function Behind(s: string, key: string): (r: Option<string>)
    ensures r.Some? ==> |r.value| + |key| <= |s|
  {
    if key <= s then Some(s[|key|..]) else if s == "" then None else Behind(s[1..], key)
  }

  /** What follows the last one. */
  function BehindLast(s: string, key: string): Option<string> {
    if s == "" then None
    else
      match BehindLast(s[1..], key)
      case Some(t) => Some(t)
      case None => if key <= s then Some(s[|key|..]) else None
  }

  function LeadingDigits(s: string): (d: string)
    ensures AllDigits(d) && d <= s
  {
    if s == "" || !IsDigit(s[0]) then "" else [s[0]] + LeadingDigits(s[1..])
  }

  /** The number behind the first occurrence of a key. */
  function NumberBehind(s: string, key: string): nat {
    match Behind(s, key)
    case None => 0
    case Some(t) => Value(LeadingDigits(t))
  }

  /** Where the cross-reference table begins, as the last lines of the file say. */
  function TableOf(file: seq<nat>): nat {
    match BehindLast(Latin(file), "startxref\n")
    case None => 0
    case Some(t) => Value(LeadingDigits(t))
  }

  /** The offset in the entry of an object, 20 bytes an entry behind the two lines of the head. */
  function EntryOf(file: seq<nat>, id: nat): nat {
    match Behind(TextAt(file, TableOf(file)), "\n")
    case None => 0
    case Some(t) =>
      match Behind(t, "\n")
      case None => 0
      case Some(entries) => if 20 * id <= |entries| then Value(LeadingDigits(entries[20 * id..])) else 0
  }

  function ObjectText(file: seq<nat>, id: nat): string {
    TextAt(file, EntryOf(file, id))
  }

  function PageTree(file: seq<nat>): nat {
    NumberBehind(ObjectText(file, NumberBehind(TextAt(file, TableOf(file)), "/Root ")), "/Pages ")
  }

  /** The numbers of a list of references. */
  function References(s: string): seq<nat>
    decreases |s|
  {
    var digits := LeadingDigits(s);
    var rest := s[|digits|..];
    if digits == "" || !(" 0 R" <= rest) then []
    else [Value(digits)] + References(if " 0 R " <= rest then rest[5..] else rest[4..])
  }

  function PagesOf(file: seq<nat>): seq<nat> {
    match Behind(ObjectText(file, PageTree(file)), "/Kids [")
    case None => []
    case Some(t) => References(t)
  }

  /** The stream of an object, as long as its dictionary says. */
  function StreamOf(file: seq<nat>, content: nat): string {
    match Behind(ObjectText(file, content), "stream\n")
    case None => ""
    case Some(t) =>
      var length := NumberBehind(ObjectText(file, content), "/Length ");
      if length <= |t| then t[..length] else ""
  }

  /** What a page shows. */
  function PageText(file: seq<nat>, page: nat): seq<string> {
    TextShown(StreamOf(file, NumberBehind(ObjectText(file, page), "/Contents ")))
  }

  /** From the last line of the file to the trailer, the catalog, the page tree, its pages and what they show. */
  function ReadPdf(file: seq<nat>): seq<seq<string>> {
    PageTexts(file, PagesOf(file))
  }

  function PageTexts(file: seq<nat>, ids: seq<nat>): (texts: seq<seq<string>>)
    ensures |texts| == |ids| && forall k :: 0 <= k < |ids| ==> texts[k] == PageText(file, ids[k])
  {
    seq(|ids|, k requires 0 <= k < |ids| => PageText(file, ids[k]))
  }

  // ---------------------------------------------------------------- finding keys

  lemma {:induction false} Skip(a: string, rest: string, key: string)
    requires key != "" && key[0] !in a
    ensures Behind(a + rest, key) == Behind(rest, key)
  {
    if a == "" {
      assert a + rest == rest;
    } else {
      assert (a + rest)[0] == a[0] && (a + rest)[1..] == a[1..] + rest;
      Skip(a[1..], rest, key);
    }
  }

  /**
   The key does not begin inside of `a`: where its first character occurs, which is in front, it goes on differently.
   */
  predicate Passable(a: string, key: string) {
    && key != ""
    && (key[0] !in a
        || (a[0] == key[0] && key[0] !in a[1..] && exists i :: 0 <= i < |a| && i < |key| && a[i] != key[i]))
  }

  lemma SkipPiece(a: string, rest: string, key: string)
    requires Passable(a, key)
    ensures Behind(a + rest, key) == Behind(rest, key)
  {
    if key[0] !in a {
      Skip(a, rest, key);
    } else {
      var s := a + rest;
      var i :| 0 <= i < |a| && i < |key| && a[i] != key[i];
      assert s[i] == a[i];
      assert !(key <= s);
      assert s[1..] == a[1..] + rest;
      Skip(a[1..], rest, key);
    }
  }

  lemma {:induction false} BehindPieces(pieces: seq<string>, j: nat, rest: string)
    requires j < |pieces| && pieces[j] != "" && forall i :: 0 <= i < j ==> Passable(pieces[i], pieces[j])
    ensures Behind(Concat(pieces) + rest, pieces[j]) == Some(Concat(pieces[j + 1..]) + rest)
  {
    hide Passable;
    var key, tail := pieces[j], pieces[1..];
    Regroup4(pieces[0], Concat(tail), rest, "");
    assert Concat(pieces) + rest == pieces[0] + (Concat(tail) + rest);
    if j == 0 {
      assert (pieces[0] + (Concat(tail) + rest))[|key|..] == Concat(tail) + rest;
    } else {
      SkipPiece(pieces[0], Concat(tail) + rest, key);
      assert tail[j - 1] == key && tail[j..] == pieces[j + 1..];
      forall i | 0 <= i < j - 1 ensures Passable(tail[i], key) {
        assert tail[i] == pieces[i + 1];
      }
      BehindPieces(tail, j - 1, rest);
    }
  }

  lemma {:induction false} DigitsLead(digits: string, rest: string)
    requires AllDigits(digits) && (rest == "" || !IsDigit(rest[0]))
    ensures LeadingDigits(digits + rest) == digits
  {
    if digits == "" {
      assert digits + rest == rest;
    } else {
      assert (digits + rest)[0] == digits[0] && (digits + rest)[1..] == digits[1..] + rest;
      DigitsLead(digits[1..], rest);
    }
  }

  /** A number that follows its key in a list of pieces. */
  lemma NumberInPieces(pieces: seq<string>, j: nat, rest: string, n: nat)
    requires j + 2 < |pieces| && pieces[j] != "" && forall i :: 0 <= i < j ==> Passable(pieces[i], pieces[j])
    requires AllDigits(pieces[j + 1]) && Value(pieces[j + 1]) == n && pieces[j + 2] != "" && !IsDigit(pieces[j + 2][0])
    ensures NumberBehind(Concat(pieces) + rest, pieces[j]) == n
  {
    hide Passable, Value;
    BehindPieces(pieces, j, rest);
    var tail := pieces[j + 1..];
    assert tail[0] == pieces[j + 1] && tail[1..] == pieces[j + 2..] && pieces[j + 2..][0] == pieces[j + 2];
    var more := Concat(pieces[j + 2..]) + rest;
    assert Concat(tail) + rest == pieces[j + 1] + more by {
      Regroup4(pieces[j + 1], Concat(pieces[j + 2..]), rest, "");
    }
    assert Concat(pieces[j + 2..]) == pieces[j + 2] + Concat(pieces[j + 2..][1..]);
    assert more[0] == pieces[j + 2][0];
    DigitsLead(pieces[j + 1], more);
  }

  lemma {:induction false} NoLast(s: string, key: string)
    requires key != "" && key[0] !in s
    ensures BehindLast(s, key) == None
  {
    if s != "" {
      NoLast(s[1..], key);
    }
  }

  lemma {:induction false} LastFound(a: string, key: string, tail: string)
    requires key != "" && key[0] !in key[1..] && key[0] !in tail
    ensures BehindLast(a + (key + tail), key) == Some(tail)
    decreases |a|
  {
    var s := a + (key + tail);
    if a == "" {
      assert s == key + tail;
      assert s[1..] == key[1..] + tail;
      NoLast(s[1..], key);
      assert s[|key|..] == tail;
    } else {
      assert s[1..] == a[1..] + (key + tail);
      LastFound(a[1..], key, tail);
    }
  }

  // ---------------------------------------------------------------- the text of a file

  lemma {:induction false} AsciiConcat(pieces: seq<string>)
    requires forall i :: 0 <= i < |pieces| ==> Ascii(pieces[i])
    ensures Ascii(Concat(pieces))
  {
    if pieces != [] {
      AsciiConcat(pieces[1..]);
      AsciiTwo(pieces[0], Concat(pieces[1..]));
    }
  }

  lemma AsciiTwo(a: string, b: string)
    requires Ascii(a) && Ascii(b)
    ensures Ascii(a + b)
  {
  }

  lemma {:induction false} AsciiJoin(lines: seq<string>, sep: string)
    requires Ascii(sep) && forall i :: 0 <= i < |lines| ==> Ascii(lines[i])
    ensures Ascii(Join(lines, sep))
  {
    if |lines| > 1 {
      var n := |lines| - 1;
      AsciiJoin(lines[..n], sep);
      AsciiTwo(sep, lines[n]);
      AsciiTwo(Join(lines[..n], sep), sep + lines[n]);
    }
  }

  lemma {:induction false} AsciiReplaced(s: Units)
    ensures Ascii(ReplaceUnprintable(s))
  {
    if s != [] {
      AsciiReplaced(s[..|s| - 1]);
    }
  }

  lemma AsciiShowText(line: Units)
    ensures Ascii(ShowText(line))
  {
    var escaped := EscapePdfText(line);
    assert Ascii(escaped) by {
      var first := ReplaceUnit(line, BACKSLASH, [BACKSLASH, BACKSLASH]);
      var second := ReplaceUnit(first, OPEN, [BACKSLASH, OPEN]);
      AsciiReplaced(ReplaceUnit(second, CLOSE, [BACKSLASH, CLOSE]));
    }
    hide EscapePdfText;
  }

  lemma {:induction false} AsciiShowLines(page: seq<Units>)
    ensures forall i :: 0 <= i < |ShowLines(page)| ==> Ascii(ShowLines(page)[i])
  {
    if page != [] {
      hide ShowText;
      AsciiShowLines(page[..|page| - 1]);
      AsciiShowText(page[|page| - 1]);
    }
  }

  lemma AsciiStream(page: seq<Units>)
    ensures Ascii(Stream(page))
  {
    AsciiShowLines(page);
    hide ShowLines;
    AsciiJoin(Preamble() + ShowLines(page) + ["ET"], "\n");
  }

  lemma {:induction false} AsciiKids(n: nat)
    ensures forall i :: 0 <= i < |Kids(n)| ==> Ascii(Kids(n)[i])
  {
    if n > 0 {
      hide PageId;
      AsciiKids(n - 1);
      AsciiReference(PageId(n - 1));
    }
  }

  lemma AsciiReference(id: nat)
    ensures Ascii(Reference(id))
  {
    DigitsAreAscii(Show(id));
    hide Show;
  }

  lemma AsciiHead(id: nat)
    ensures forall i :: 0 <= i < |ObjectHead(id)| ==> Ascii(ObjectHead(id)[i])
  {
    DigitsAreAscii(Show(id));
    hide Show;
  }

  lemma AsciiObject(id: nat, rest: seq<string>)
    requires forall i :: 0 <= i < |rest| ==> Ascii(rest[i])
    ensures Ascii(Concat(ObjectHead(id) + rest))
  {
    hide ObjectHead, Ascii, Concat;
    AsciiHead(id);
    AsciiConcat(ObjectHead(id) + rest);
  }

  lemma AsciiCatalog()
    ensures forall i :: 0 <= i < |CatalogRest()| ==> Ascii(CatalogRest()[i])
  {
  }

  lemma AsciiPages(pages: nat)
    ensures forall i :: 0 <= i < |PagesRest(pages)| ==> Ascii(PagesRest(pages)[i])
  {
    AsciiKids(pages);
    AsciiJoin(Kids(pages), " ");
    DigitsAreAscii(Show(pages));
    hide Kids, Join, Show;
  }

  lemma AsciiFont()
    ensures forall i :: 0 <= i < |FontRest()| ==> Ascii(FontRest()[i])
  {
  }

  lemma AsciiPageRest(content: nat)
    ensures forall i :: 0 <= i < |PageRest(content)| ==> Ascii(PageRest(content)[i])
  {
    DigitsAreAscii(Show(content));
    hide Show;
  }

  lemma AsciiContent(stream: string)
    requires Ascii(stream)
    ensures forall i :: 0 <= i < |ContentRest(stream)| ==> Ascii(ContentRest(stream)[i])
  {
    DigitsAreAscii(Show(|Utf8(stream)|));
    hide Show, Utf8;
  }

  lemma AsciiObjects(pages: seq<seq<Units>>, i: nat)
    requires i < 3 + 2 * |pages|
    ensures Ascii(ObjectAt(pages, i))
  {
    hide *;
    if i < 3 {
      AsciiFixed(pages, i);
    } else {
      var k := (i - 3) / 2;
      PageIndex(i, |pages|);
      ObjectsOfPage(pages, k);
      AsciiPage(k, pages[k]);
    }
  }

  lemma FixedAt(pages: seq<seq<Units>>)
    ensures |Objects(pages)| == 3 + 2 * |pages|
    ensures ObjectAt(pages, 0) == Concat(ObjectHead(1) + CatalogRest())
    ensures ObjectAt(pages, 1) == Concat(ObjectHead(2) + PagesRest(|pages|))
    ensures ObjectAt(pages, 2) == Concat(ObjectHead(3) + FontRest())
  {
    hide PageObjects, Concat, ObjectHead, CatalogRest, PagesRest, FontRest;
    if pages == [] {
      NothingBuilt();
    } else {
      PageObjectsAt(pages, 0);
    }
  }

  lemma AsciiFixed(pages: seq<seq<Units>>, i: nat)
    requires i < 3
    ensures Ascii(ObjectAt(pages, i))
  {
    hide *;
    FixedAt(pages);
    AsciiCatalog();
    AsciiPages(|pages|);
    AsciiFont();
    AsciiObject(1, CatalogRest());
    AsciiObject(2, PagesRest(|pages|));
    AsciiObject(3, FontRest());
    assert i == 0 || i == 1 || i == 2;
  }

  lemma AsciiPage(k: nat, page: seq<Units>)
    ensures Ascii(ContentObject(k, page)) && Ascii(PageObject(k))
  {
    hide *;
    ObjectsByNumber(k, page);
    AsciiPageRest(4 + 2 * k);
    AsciiStream(page);
    AsciiContent(Stream(page));
    AsciiObject(5 + 2 * k, PageRest(4 + 2 * k));
    ContentPiecesAre(4 + 2 * k, Stream(page));
    AsciiObject(4 + 2 * k, ContentRest(Stream(page)));
  }

  lemma ContentPiecesAre(id: nat, stream: string)
    ensures ContentPieces(id, stream) == ObjectHead(id) + ContentRest(stream)
  {
  }

  lemma LatinOfAscii(s: string)
    requires Ascii(s)
    ensures Latin(Utf8(s)) == s
  {
    hide Utf8;
    AsciiBytes(s);
  }

  lemma LatinAppend(a: seq<nat>, b: seq<nat>)
    ensures Latin(a + b) == Latin(a) + Latin(b)
  {
  }

  lemma TextAtPart(file: seq<nat>, offset: nat, s: string)
    requires At(file, offset, Utf8(s)) && Ascii(s)
    ensures |Utf8(s)| == |s| && offset + |s| <= |file|
    ensures TextAt(file, offset) == s + TextAt(file, offset + |s|)
  {
    hide Utf8, Latin;
    AsciiBytes(s);
    LatinOfAscii(s);
    assert file[offset..] == Utf8(s) + file[offset + |s|..];
    LatinAppend(Utf8(s), file[offset + |s|..]);
  }

  lemma TextAtLater(file: seq<nat>, offset: nat, more: nat)
    requires offset + more <= |file|
    ensures more <= |TextAt(file, offset)| && TextAt(file, offset)[more..] == TextAt(file, offset + more)
  {
  }

  // ---------------------------------------------------------------- following the table

  /** Offsets have ten digits. */
  ghost predicate FitsTable(objects: seq<string>) {
    forall k :: 0 <= k < |objects| ==> Start(objects, k) < Pow10(10)
  }

  lemma StartXrefText(table: nat)
    ensures StartXref(table) == "startxref\n" + (Show(table) + "\n%%EOF")
    ensures Ascii(StartXref(table)) && 's' !in Show(table) + "\n%%EOF"
    ensures LeadingDigits(Show(table) + "\n%%EOF") == Show(table) && Value(Show(table)) == table
  {
    hide Show, Value, LeadingDigits, Ascii;
    Assoc("startxref\n", Show(table), "\n%%EOF");
    DigitsAreAscii(Show(table));
    AsciiWords();
    AsciiTwo(Show(table), "\n%%EOF");
    AsciiTwo("startxref\n", Show(table) + "\n%%EOF");
    DigitsLead(Show(table), "\n%%EOF");
    ValueOfShow(table);
    assert 's' !in Show(table) by {
      assert !IsDigit('s');
    }
  }

  lemma AsciiWords()
    ensures Ascii("startxref\n") && Ascii("\n%%EOF")
  {
  }

  lemma StartXrefKey()
    ensures 's' !in "startxref\n"[1..] && "startxref\n"[0] == 's'
  {
  }

  lemma LastBytes(file: seq<nat>, tail: seq<nat>)
    requires |tail| <= |file| && At(file, |file| - |tail|, tail)
    ensures file == file[..|file| - |tail|] + tail
  {
  }

  lemma TableIsFound(objects: seq<string>)
    ensures TableOf(File(objects)) == Start(objects, |objects|)
  {
    hide File, Start, StartXref, Utf8, At, Latin, Value, LeadingDigits, BehindLast, Ascii, Show;
    var file, table := File(objects), Start(objects, |objects|);
    var tail := Utf8(StartXref(table));
    StartXrefIsLast(objects);
    LastBytes(file, tail);
    StartXrefText(table);
    StartXrefKey();
    LatinAppend(file[..|file| - |tail|], tail);
    LatinOfAscii(StartXref(table));
    LastFound(Latin(file[..|file| - |tail|]), "startxref\n", Show(table) + "\n%%EOF");
  }

  lemma HeadText(n: nat, rest: string)
    ensures var head := "xref\n0 " + Show(n) + "\n";
            Ascii(head) && Behind(head + rest, "\n") == Some("0 " + Show(n) + "\n" + rest)
    ensures Behind("0 " + Show(n) + "\n" + rest, "\n") == Some(rest)
  {
    DigitsAreAscii(Show(n));
    hide Show;
    var head := "xref\n0 " + Show(n) + "\n";
    var second := "0 " + Show(n);
    Skip("xref", "\n" + (second + "\n" + rest), "\n");
    assert head + rest == "xref" + ("\n" + (second + "\n" + rest));
    assert ("\n" + (second + "\n" + rest))[1..] == second + "\n" + rest;
    Skip(second, "\n" + rest, "\n");
    assert second + "\n" + rest == second + ("\n" + rest);
    assert ("\n" + rest)[1..] == rest;
  }

  lemma EntryDigits(offset: nat, rest: string)
    ensures Ascii(Entry(offset)) && Value(LeadingDigits(Entry(offset) + rest)) == offset
  {
    PaddedDenotes(offset);
    DigitsAreAscii(Padded(offset));
    DigitsLead(Padded(offset), ENTRY_TAIL + rest);
    hide Padded, Value, LeadingDigits;
    assert Entry(offset) + rest == Padded(offset) + (ENTRY_TAIL + rest);
  }

  /** The entry of object `i + 1` leads to its offset. */
  lemma EntryIsFound(objects: seq<string>, i: nat)
    requires i < |objects| && FitsTable(objects)
    ensures EntryOf(File(objects), i + 1) == Start(objects, i)
  {
    hide File, Start, Utf8, At, Latin, Value, LeadingDigits, Ascii, Show, TextAt, Behind, Entry, Padded, StartXref,
        Pow10;
    var file, table := File(objects), Start(objects, |objects|);
    TableIsFound(objects);
    TableIsExact(objects, i);
    EntryText(Start(objects, i));
    HeadText(|objects| + 1, TextAt(file, table + |TableHead(objects)|));
    TextAtPart(file, table, TableHead(objects));
    var entries := table + |TableHead(objects)|;
    EntryDigits(Start(objects, i), TextAt(file, entries + 20 * (i + 1) + |Entry(Start(objects, i))|));
    TextAtPart(file, entries + 20 * (i + 1), Entry(Start(objects, i)));
    TextAtLater(file, entries, 20 * (i + 1));
  }

  /** And there its text is read. */
  lemma ObjectIsRead(pages: seq<seq<Units>>, i: nat) returns (rest: string)
    requires i < 3 + 2 * |pages| && FitsTable(Objects(pages))
    ensures ObjectText(File(Objects(pages)), i + 1) == ObjectAt(pages, i) + rest
  {
    hide File, Start, Utf8, At, Ascii, TextAt, EntryOf, Objects, FitsTable;
    var objects := Objects(pages);
    FixedAt(pages);
    AsciiObjects(pages, i);
    EntryIsFound(objects, i);
    ObjectAtOffset(objects, i);
    TextAtPart(File(objects), Start(objects, i), objects[i]);
    rest := TextAt(File(objects), Start(objects, i) + |objects[i]|);
  }

  // ---------------------------------------------------------------- following the links

  lemma NumeralPasses(n: nat, key: string)
    requires key != "" && !IsDigit(key[0])
    ensures Passable(Show(n), key)
  {
    hide Show;
  }

  /** A name goes on differently than the key that begins like it. */
  lemma NamePasses(name: string, key: string, i: nat)
    requires 0 < i < |name| && i < |key| && name[0] == key[0] == '/' && '/' !in name[1..] && name[i] != key[i]
    ensures Passable(name, key)
  {
  }

  lemma PlainPasses(plain: string, key: string)
    requires key != "" && key[0] == '/' && '/' !in plain
    ensures Passable(plain, key)
  {
  }

  lemma TrailerPieces(size: nat)
    ensures var p := TrailerHead(size);
            && |p| == 7 && p[4] == "/Root " && p[5] == "1" && p[6] == " 0 R >>\n"
            && forall i :: 0 <= i < 4 ==> Passable(p[i], "/Root ")
  {
    hide Show, Passable;
    NumeralPasses(size, "/Root ");
    PlainPasses("trailer\n<< ", "/Root ");
    NamePasses("/Size ", "/Root ", 1);
    PlainPasses(" ", "/Root ");
  }

  lemma {:induction false} NotInConcat(pieces: seq<string>, c: char)
    requires forall i :: 0 <= i < |pieces| ==> c !in pieces[i]
    ensures c !in Concat(pieces)
  {
    if pieces != [] {
      NotInConcat(pieces[1..], c);
    }
  }

  lemma TableHasNoName(objects: seq<string>)
    ensures '/' !in Concat(Table(objects)) && Ascii(Concat(Table(objects)))
  {
    hide Table, Ascii;
    var table := Table(objects);
    forall i | 0 <= i < |table| ensures '/' !in table[i] && Ascii(table[i]) {
      RowHasNoName(objects, i);
    }
    NotInConcat(table, '/');
    AsciiConcat(table);
  }

  lemma RowHasNoName(objects: seq<string>, i: nat)
    requires i < |Table(objects)|
    ensures '/' !in Table(objects)[i] && Ascii(Table(objects)[i])
  {
    hide Entry, Ascii, Start;
    if i == 0 {
      HeadHasNoName(|objects| + 1);
    } else if i == 1 {
      FreeHasNoName();
    } else {
      EntryHasNoName(Start(objects, i - 2));
    }
  }

  lemma HeadHasNoName(n: nat)
    ensures '/' !in "xref\n0 " + Show(n) + "\n" && Ascii("xref\n0 " + Show(n) + "\n")
  {
    DigitsAreAscii(Show(n));
    hide Show;
  }

  lemma FreeHasNoName()
    ensures '/' !in FREE_ENTRY && Ascii(FREE_ENTRY)
  {
  }

  lemma EntryHasNoName(offset: nat)
    ensures '/' !in Entry(offset) && Ascii(Entry(offset))
  {
    PaddedDenotes(offset);
    EntryDigits(offset, "");
    hide Padded, Value, Ascii;
    assert !IsDigit('/');
    assert '/' !in ENTRY_TAIL;
  }

  lemma TrailerIsAscii(objects: seq<string>)
    ensures Ascii(Trailer(objects))
  {
    hide StartXref, Start, Ascii, TrailerHead;
    TrailerHeadIsAscii(|objects| + 1);
    StartXrefText(Start(objects, |objects|));
    AsciiConcat(TrailerHead(|objects| + 1));
    AsciiTwo(Concat(TrailerHead(|objects| + 1)), StartXref(Start(objects, |objects|)));
  }

  lemma TrailerHeadIsAscii(size: nat)
    ensures forall i :: 0 <= i < |TrailerHead(size)| ==> Ascii(TrailerHead(size)[i])
  {
    DigitsAreAscii(Show(size));
    hide Show;
  }

  /** From the table on the file is the table and the trailer. */
  lemma EndOfFile(objects: seq<string>)
    ensures TextAt(File(objects), Start(objects, |objects|)) == Concat(Table(objects)) + Trailer(objects)
  {
    hide Utf8, Concat, Trailer, Table, Header, Ascii, Latin;
    var front, back := [Header()] + objects, Table(objects) + [Trailer(objects)];
    ConcatAppend(front, back);
    ConcatAppend(Table(objects), [Trailer(objects)]);
    ConcatOne(Trailer(objects));
    Utf8Append(Concat(front), Concat(back));
    assert front[..|front|] == front;
    TableHasNoName(objects);
    TrailerIsAscii(objects);
    AsciiTwo(Concat(Table(objects)), Trailer(objects));
    LatinOfAscii(Concat(back));
    var file, at := File(objects), Start(objects, |objects|);
    assert at == |Utf8(Concat(front))| && file[at..] == Utf8(Concat(back));
  }

  /** The trailer names object 1. */
  lemma RootIsFound(objects: seq<string>)
    ensures NumberBehind(TextAt(File(objects), TableOf(File(objects))), "/Root ") == 1
  {
    hide File, TextAt, Start, Table, StartXref, Concat, TableOf, Behind, Passable, LeadingDigits, TrailerHead, Value;
    TableIsFound(objects);
    EndOfFile(objects);
    TableHasNoName(objects);
    TrailerPieces(|objects| + 1);
    Skip(Concat(Table(objects)), Trailer(objects), "/Root ");
    OneIsOne();
    NumberInPieces(TrailerHead(|objects| + 1), 4, StartXref(Start(objects, |objects|)), 1);
  }

  /** The trailer gives the number of entries, and the file begins with its version. */
  lemma SizeIsFound(objects: seq<string>)
    ensures NumberBehind(TextAt(File(objects), TableOf(File(objects))), "/Size ") == |objects| + 1
    ensures "%PDF-1.4\n" <= TextAt(File(objects), 0)
  {
    hide File, TextAt, Start, Table, StartXref, Concat, TableOf, Behind, Passable, LeadingDigits, Value, Show;
    TableIsFound(objects);
    EndOfFile(objects);
    TableHasNoName(objects);
    var p := TrailerHead(|objects| + 1);
    Skip(Concat(Table(objects)), Trailer(objects), "/Size ");
    PlainPasses("trailer\n<< ", "/Size ");
    ValueOfShow(|objects| + 1);
    NumberInPieces(p, 1, StartXref(Start(objects, |objects|)), |objects| + 1);
    HeaderIsFirst(objects);
  }

  lemma HeaderIsFirst(objects: seq<string>)
    ensures "%PDF-1.4\n" <= TextAt(File(objects), 0)
  {
    assert Pieces(objects)[0] == Header() && Ascii(Header());
    assert Pieces(objects)[..0] == [];
    hide Table, Trailer, TextAt, At;
    PieceAtOffset(Pieces(objects), 0);
    TextAtPart(File(objects), 0, Header());
  }

  lemma OneIsOne()
    ensures AllDigits("1") && Value("1") == 1 && AllDigits("2") && Value("2") == 2 && AllDigits("3") && Value("3") == 3
  {
    assert Value("") == 0;
    assert "1"[..0] == "" && "2"[..0] == "" && "3"[..0] == "";
  }

  lemma CatalogPieces()
    ensures var p := ObjectHead(1) + CatalogRest();
            && |p| == 8 && p[5] == "/Pages " && p[6] == "2" && p[7] == " 0 R >>\nendobj\n"
            && forall i :: 0 <= i < 5 ==> Passable(p[i], "/Pages ")
  {
    hide Show, Passable;
    NumeralPasses(1, "/Pages ");
    PlainPasses(" 0 obj\n", "/Pages ");
    PlainPasses("<< ", "/Pages ");
    NamePasses("/Type ", "/Pages ", 1);
    NamePasses("/Catalog ", "/Pages ", 1);
  }

  /** The catalog names object 2 as the page tree. */
  lemma PageTreeIsFound(pages: seq<seq<Units>>)
    requires FitsTable(Objects(pages))
    ensures PageTree(File(Objects(pages))) == 2
  {
    hide File, Objects, FitsTable, TextAt, TableOf, Concat, ObjectHead, CatalogRest, Passable, ObjectText, NumberBehind,
        Value, ObjectAt;
    RootIsFound(Objects(pages));
    FixedAt(pages);
    var rest := ObjectIsRead(pages, 0);
    CatalogPieces();
    OneIsOne();
    NumberInPieces(ObjectHead(1) + CatalogRest(), 5, rest, 2);
  }

  lemma PagesPieces(n: nat)
    ensures var p := ObjectHead(2) + PagesRest(n);
            && |p| == 11 && p[0] == Show(2) && p[1] == " 0 obj\n" && p[2] == "<< " && p[3] == "/Type "
            && p[4] == "/Pages " && p[5] == "/Count " && p[6] == Show(n) && p[7] == " " && p[8] == "/Kids ["
            && p[9] == Join(Kids(n), " ") && p[10] == "] >>\nendobj\n"
  {
    hide Show, Kids, Join;
  }

  lemma PagesPass(p: seq<string>, n: nat)
    requires |p| == 11 && p[0] == Show(2) && p[1] == " 0 obj\n" && p[2] == "<< " && p[3] == "/Type "
    requires p[4] == "/Pages " && p[5] == "/Count " && p[6] == Show(n) && p[7] == " "
    ensures forall i :: 0 <= i < 5 ==> Passable(p[i], "/Count ")
    ensures forall i :: 0 <= i < 8 ==> Passable(p[i], "/Kids [")
  {
    hide Show, Passable;
    NumeralPasses(2, "/Count ");
    PlainPasses(" 0 obj\n", "/Count ");
    PlainPasses("<< ", "/Count ");
    NamePasses("/Type ", "/Count ", 1);
    NamePasses("/Pages ", "/Count ", 1);
    NumeralPasses(2, "/Kids [");
    PlainPasses(" 0 obj\n", "/Kids [");
    PlainPasses("<< ", "/Kids [");
    NamePasses("/Type ", "/Kids [", 1);
    NamePasses("/Pages ", "/Kids [", 1);
    NamePasses("/Count ", "/Kids [", 1);
    NumeralPasses(n, "/Kids [");
    PlainPasses(" ", "/Kids [");
  }

  lemma {:induction false} JoinFront(lines: seq<string>, sep: string)
    requires |lines| > 1
    ensures Join(lines, sep) == lines[0] + (sep + Join(lines[1..], sep))
  {
    var n := |lines| - 1;
    assert lines[1..][..n - 1] == lines[..n][1..] && lines[1..][n - 1] == lines[n];
    if n > 1 {
      JoinFront(lines[..n], sep);
      Regroup4(lines[0], sep, Join(lines[..n][1..], sep), sep + lines[n]);
    } else {
      assert lines[1..] == [lines[1]];
    }
  }

  /** A list of references is read back as the numbers in it. */
  lemma {:induction false} ReferencesRead(ids: seq<nat>, texts: seq<string>, rest: string)
    requires |texts| == |ids| && (forall k :: 0 <= k < |ids| ==> texts[k] == Reference(ids[k])) && "]" <= rest
    ensures References(Join(texts, " ") + rest) == ids
    decreases |ids|
  {
    hide Show, Join, References;
    if ids == [] {
      JoinOfNone(texts);
      assert "" + rest == rest;
      NoReference(rest);
    } else if |ids| == 1 {
      JoinOfOne(texts);
      assert texts[0] == Reference(ids[0]);
      NoReference(rest);
      OneReference(ids[0], rest);
      assert ids == [ids[0]] + [];
    } else {
      JoinFront(texts, " ");
      var more := Join(texts[1..], " ") + rest;
      assert Join(texts, " ") + rest == Reference(ids[0]) + (" " + more) by {
        Regroup4(texts[0], " ", Join(texts[1..], " "), rest);
      }
      OneReference(ids[0], " " + more);
      assert (" " + more)[1..] == more;
      ReferencesRead(ids[1..], texts[1..], rest);
    }
  }

  lemma JoinOfOne(lines: seq<string>)
    requires |lines| == 1
    ensures Join(lines, " ") == lines[0]
  {
  }

  lemma JoinOfNone(lines: seq<string>)
    requires lines == []
    ensures Join(lines, " ") == ""
  {
  }

  lemma NoReference(rest: string)
    requires "]" <= rest
    ensures References(rest) == []
  {
    assert rest[0] == ']';
  }

  lemma ReferenceStep(s: string, digits: string, tail: string)
    requires s == digits + tail && LeadingDigits(s) == digits != "" && " 0 R" <= tail
    ensures References(s) == [Value(digits)] + References(if " 0 R " <= tail then tail[5..] else tail[4..])
  {
    hide LeadingDigits, Value;
    assert s[|digits|..] == tail;
  }

  lemma ReferenceTail(rest: string)
    requires rest != ""
    ensures var tail := " 0 R" + rest;
            && " 0 R" <= tail && (" 0 R " <= tail <==> rest[0] == ' ') && tail[4..] == rest && tail[5..] == rest[1..]
  {
    var tail := " 0 R" + rest;
    assert tail[4] == rest[0] && " 0 R "[4] == ' ';
    if rest[0] == ' ' {
      assert tail[..5] == " 0 R" + [rest[0]];
    }
  }

  lemma OneReference(id: nat, rest: string)
    requires rest != "" && (rest[0] == ' ' || rest[0] == ']')
    ensures References(Reference(id) + rest) == [id] + References(if rest[0] == ' ' then rest[1..] else rest)
  {
    hide Show, Value, LeadingDigits, References;
    var tail := " 0 R" + rest;
    Assoc(Show(id), " 0 R", rest);
    assert tail[0] == ' ';
    DigitsLead(Show(id), tail);
    ValueOfShow(id);
    ReferenceTail(rest);
    ReferenceStep(Show(id) + tail, Show(id), tail);
  }

  lemma {:induction false} KidsAt(n: nat)
    ensures |Kids(n)| == n && forall k :: 0 <= k < n ==> Kids(n)[k] == Reference(PageId(k))
  {
    if n > 0 {
      hide Reference;
      KidsAt(n - 1);
    }
  }

  function PageIds(n: nat): (ids: seq<nat>)
    ensures |ids| == n && forall k :: 0 <= k < n ==> ids[k] == PageId(k)
  {
    seq(n, k requires 0 <= k < n => PageId(k))
  }

  /** The page tree lists the pages, and counts them. */
  lemma PagesAreFound(pages: seq<seq<Units>>)
    requires FitsTable(Objects(pages))
    ensures PagesOf(File(Objects(pages))) == PageIds(|pages|)
    ensures NumberBehind(ObjectText(File(Objects(pages)), 2), "/Count ") == |pages|
  {
    hide File, Objects, FitsTable, Concat, ObjectHead, PagesRest, Passable, ObjectText, NumberBehind,
        Value, ObjectAt, References, PageIds, PageTree, Join, Kids, Reference, Show, Behind, PageId;
    var n := |pages|;
    PageTreeIsFound(pages);
    FixedAt(pages);
    var rest := ObjectIsRead(pages, 1);
    PagesPieces(n);
    PagesPass(ObjectHead(2) + PagesRest(n), n);
    ValueOfShow(n);
    var p := ObjectHead(2) + PagesRest(n);
    NumberInPieces(p, 5, rest, n);
    BehindPieces(p, 8, rest);
    KidsAt(n);
    LastTwo(p, rest);
    ReferencesRead(PageIds(n), Kids(n), "] >>\nendobj\n" + rest);
  }

  lemma LastTwo(p: seq<string>, rest: string)
    requires |p| == 11
    ensures Concat(p[9..]) + rest == p[9] + (p[10] + rest)
  {
    assert p[9..] == [p[9]] + [p[10]];
    ConcatAppend([p[9]], [p[10]]);
    ConcatOne(p[9]);
    ConcatOne(p[10]);
  }

  lemma PagePieces(id: nat, content: nat)
    ensures IsPage(ObjectHead(id) + PageRest(content), id, content)
  {
    hide Show;
  }

  ghost predicate IsPage(p: seq<string>, id: nat, content: nat) {
    && |p| == 20 && p[0] == Show(id) && p[1] == " 0 obj\n" && p[2] == "<< " && p[3] == "/Type " && p[4] == "/Page "
    && p[5] == "/Parent " && p[6] == "2" && p[7] == " 0 R " && p[8] == "/MediaBox " && p[9] == "[0 0 595 842] "
    && p[10] == "/Resources " && p[11] == "<< " && p[12] == "/Font " && p[13] == "<< " && p[14] == "/F1 "
    && p[15] == "3" && p[16] == " 0 R >> >> " && p[17] == "/Contents " && p[18] == Show(content)
    && p[19] == " 0 R >>\nendobj\n"
  }

  /** The key does not begin in the first `j` pieces. */
  ghost predicate AllPass(p: seq<string>, j: nat, key: string) {
    j <= |p| && forall i :: 0 <= i < j ==> Passable(p[i], key)
  }

  lemma FirstPasses(p: seq<string>, id: nat, key: string)
    requires p != [] && p[0] == Show(id) && key != "" && !IsDigit(key[0])
    ensures AllPass(p, 1, key)
  {
    NumeralPasses(id, key);
    hide Show, Passable;
  }

  lemma PassMore(p: seq<string>, j: nat, key: string)
    requires AllPass(p, j, key) && j < |p| && Passable(p[j], key)
    ensures AllPass(p, j + 1, key)
  {
  }

  lemma ParentPasses(p: seq<string>, id: nat, content: nat)
    requires IsPage(p, id, content)
    ensures AllPass(p, 5, "/Parent ")
  {
    hide Show, Passable, AllPass;
    FirstPasses(p, id, "/Parent ");
    PlainPasses(" 0 obj\n", "/Parent ");
    PassMore(p, 1, "/Parent ");
    PlainPasses("<< ", "/Parent ");
    PassMore(p, 2, "/Parent ");
    NamePasses("/Type ", "/Parent ", 1);
    PassMore(p, 3, "/Parent ");
    NamePasses("/Page ", "/Parent ", 3);
    PassMore(p, 4, "/Parent ");
  }

  lemma FontPasses(p: seq<string>, id: nat, content: nat)
    requires IsPage(p, id, content)
    ensures AllPass(p, 8, "/F1 ")
  {
    hide Show, Passable, AllPass;
    FirstPasses(p, id, "/F1 ");
    PlainPasses(" 0 obj\n", "/F1 ");
    PassMore(p, 1, "/F1 ");
    PlainPasses("<< ", "/F1 ");
    PassMore(p, 2, "/F1 ");
    NamePasses("/Type ", "/F1 ", 1);
    PassMore(p, 3, "/F1 ");
    NamePasses("/Page ", "/F1 ", 1);
    PassMore(p, 4, "/F1 ");
    NamePasses("/Parent ", "/F1 ", 1);
    PassMore(p, 5, "/F1 ");
    PlainPasses("2", "/F1 ");
    PassMore(p, 6, "/F1 ");
    PlainPasses(" 0 R ", "/F1 ");
    PassMore(p, 7, "/F1 ");
  }

  lemma FontPassesMore(p: seq<string>, id: nat, content: nat)
    requires IsPage(p, id, content)
    requires AllPass(p, 8, "/F1 ")
    ensures AllPass(p, 14, "/F1 ")
  {
    hide Show, Passable, AllPass;
    NamePasses("/MediaBox ", "/F1 ", 1);
    PassMore(p, 8, "/F1 ");
    PlainPasses("[0 0 595 842] ", "/F1 ");
    PassMore(p, 9, "/F1 ");
    NamePasses("/Resources ", "/F1 ", 1);
    PassMore(p, 10, "/F1 ");
    PlainPasses("<< ", "/F1 ");
    PassMore(p, 11, "/F1 ");
    NamePasses("/Font ", "/F1 ", 2);
    PassMore(p, 12, "/F1 ");
    PlainPasses("<< ", "/F1 ");
    PassMore(p, 13, "/F1 ");
  }

  lemma ContentsPasses(p: seq<string>, id: nat, content: nat)
    requires IsPage(p, id, content)
    ensures AllPass(p, 8, "/Contents ")
  {
    hide Show, Passable, AllPass;
    FirstPasses(p, id, "/Contents ");
    PlainPasses(" 0 obj\n", "/Contents ");
    PassMore(p, 1, "/Contents ");
    PlainPasses("<< ", "/Contents ");
    PassMore(p, 2, "/Contents ");
    NamePasses("/Type ", "/Contents ", 1);
    PassMore(p, 3, "/Contents ");
    NamePasses("/Page ", "/Contents ", 1);
    PassMore(p, 4, "/Contents ");
    NamePasses("/Parent ", "/Contents ", 1);
    PassMore(p, 5, "/Contents ");
    PlainPasses("2", "/Contents ");
    PassMore(p, 6, "/Contents ");
    PlainPasses(" 0 R ", "/Contents ");
    PassMore(p, 7, "/Contents ");
  }

  lemma ContentsPassesMore(p: seq<string>, id: nat, content: nat)
    requires IsPage(p, id, content)
    requires AllPass(p, 8, "/Contents ")
    ensures AllPass(p, 12, "/Contents ")
  {
    hide Show, Passable, AllPass;
    NamePasses("/MediaBox ", "/Contents ", 1);
    PassMore(p, 8, "/Contents ");
    PlainPasses("[0 0 595 842] ", "/Contents ");
    PassMore(p, 9, "/Contents ");
    NamePasses("/Resources ", "/Contents ", 1);
    PassMore(p, 10, "/Contents ");
    PlainPasses("<< ", "/Contents ");
    PassMore(p, 11, "/Contents ");
  }

  lemma ContentsPassesLast(p: seq<string>, id: nat, content: nat)
    requires IsPage(p, id, content)
    requires AllPass(p, 12, "/Contents ")
    ensures AllPass(p, 17, "/Contents ")
  {
    hide Show, Passable, AllPass;
    NamePasses("/Font ", "/Contents ", 1);
    PassMore(p, 12, "/Contents ");
    PlainPasses("<< ", "/Contents ");
    PassMore(p, 13, "/Contents ");
    NamePasses("/F1 ", "/Contents ", 1);
    PassMore(p, 14, "/Contents ");
    PlainPasses("3", "/Contents ");
    PassMore(p, 15, "/Contents ");
    PlainPasses(" 0 R >> >> ", "/Contents ");
    PassMore(p, 16, "/Contents ");
  }

  /** A page names its content object, the page tree and the font. */
  lemma PageIsRead(pages: seq<seq<Units>>, k: nat)
    requires k < |pages| && FitsTable(Objects(pages))
    ensures var page := ObjectText(File(Objects(pages)), PageId(k));
            && NumberBehind(page, "/Contents ") == ContentId(k) && NumberBehind(page, "/Parent ") == 2
            && NumberBehind(page, "/F1 ") == 3
  {
    hide File, Objects, FitsTable, Concat, ObjectHead, PageRest, Passable, ObjectText, NumberBehind, Value, ObjectAt,
        Show, Stream, ContentObject;
    var id, content := PageId(k), ContentId(k);
    var p := ObjectHead(id) + PageRest(content);
    ObjectsOfPage(pages, k);
    var rest := ObjectIsRead(pages, 4 + 2 * k);
    PagePieces(id, content);
    ParentPasses(p, id, content);
    FontPasses(p, id, content);
    FontPassesMore(p, id, content);
    ContentsPasses(p, id, content);
    ContentsPassesMore(p, id, content);
    ContentsPassesLast(p, id, content);
    OneIsOne();
    ValueOfShow(content);
    NumberInPieces(p, 5, rest, 2);
    NumberInPieces(p, 14, rest, 3);
    NumberInPieces(p, 17, rest, content);
  }

  lemma FontPieces()
    ensures var p := ObjectHead(3) + FontRest();
            && |p| == 12 && p[7] == "/BaseFont " && p[8] == "/Helvetica " && p[9] == "/Encoding "
            && p[10] == "/WinAnsiEncoding" && p[11] == " >>\nendobj\n"
            && (forall i :: 0 <= i < 7 ==> Passable(p[i], "/BaseFont "))
  {
    hide Show, Passable;
    NumeralPasses(3, "/BaseFont ");
    PlainPasses(" 0 obj\n", "/BaseFont ");
    PlainPasses("<< ", "/BaseFont ");
    NamePasses("/Type ", "/BaseFont ", 1);
    NamePasses("/Font ", "/BaseFont ", 1);
    NamePasses("/Subtype ", "/BaseFont ", 1);
    NamePasses("/Type1 ", "/BaseFont ", 1);
  }

  lemma EncodingPasses()
    ensures var p := ObjectHead(3) + FontRest(); |p| == 12 && forall i :: 0 <= i < 9 ==> Passable(p[i], "/Encoding ")
  {
    hide Show, Passable;
    NumeralPasses(3, "/Encoding ");
    PlainPasses(" 0 obj\n", "/Encoding ");
    PlainPasses("<< ", "/Encoding ");
    NamePasses("/Type ", "/Encoding ", 1);
    NamePasses("/Font ", "/Encoding ", 1);
    NamePasses("/Subtype ", "/Encoding ", 1);
    NamePasses("/Type1 ", "/Encoding ", 1);
    NamePasses("/BaseFont ", "/Encoding ", 1);
    NamePasses("/Helvetica ", "/Encoding ", 1);
  }

  /** What follows the key begins with the next piece. */
  lemma NextPiece(pieces: seq<string>, j: nat, rest: string)
    requires j + 1 < |pieces|
    ensures pieces[j + 1] <= Concat(pieces[j + 1..]) + rest
  {
    var tail := pieces[j + 1..];
    assert tail[0] == pieces[j + 1];
    assert Concat(tail) + rest == tail[0] + (Concat(tail[1..]) + rest);
  }

  /** The font of the pages is Helvetica, in the encoding of Windows. */
  lemma FontIsRead(pages: seq<seq<Units>>)
    requires FitsTable(Objects(pages))
    ensures var text := ObjectText(File(Objects(pages)), 3);
            var font, encoding := Behind(text, "/BaseFont "), Behind(text, "/Encoding ");
            font.Some? && "/Helvetica " <= font.value && encoding.Some? && "/WinAnsiEncoding" <= encoding.value
  {
    hide File, Objects, FitsTable, ObjectHead, FontRest, Passable, ObjectText, ObjectAt, Concat, Behind;
    FixedAt(pages);
    var rest := ObjectIsRead(pages, 2);
    FontPieces();
    EncodingPasses();
    var p := ObjectHead(3) + FontRest();
    BehindPieces(p, 7, rest);
    NextPiece(p, 7, rest);
    BehindPieces(p, 9, rest);
    NextPiece(p, 9, rest);
  }

  lemma ContentPiecesText(id: nat, stream: string)
    ensures var p := ContentPieces(id, stream);
            && |p| == 9 && p[3] == "/Length " && p[4] == Show(|Utf8(stream)|) && p[5] == " >>\n" && p[6] == "stream\n"
            && p[7] == stream && p[8] == "\nendstream\nendobj\n"
            && (forall i :: 0 <= i < 3 ==> Passable(p[i], "/Length "))
                && (forall i :: 0 <= i < 6 ==> Passable(p[i], "stream\n"))
  {
    hide Show, Passable, Utf8;
    var n := |Utf8(stream)|;
    NumeralPasses(id, "/Length ");
    PlainPasses(" 0 obj\n", "/Length ");
    PlainPasses("<< ", "/Length ");
    NumeralPasses(id, "stream\n");
    NumeralPasses(n, "stream\n");
    WordsPass();
  }

  lemma WordsPass()
    ensures Passable(" 0 obj\n", "stream\n") && Passable("<< ", "stream\n") && Passable("/Length ", "stream\n")
    ensures Passable(" >>\n", "stream\n")
  {
  }

  lemma StreamCut(stream: string, rest: string)
    ensures |stream| <= |stream + rest| && (stream + rest)[..|stream|] == stream
  {
  }

  /** And the stream of its content object is the one that was written for it. */
  lemma ContentIsRead(pages: seq<seq<Units>>, k: nat)
    requires k < |pages| && FitsTable(Objects(pages))
    ensures StreamOf(File(Objects(pages)), ContentId(k)) == Stream(pages[k])
  {
    hide File, Objects, FitsTable, Concat, ContentPieces, Passable, ObjectText, NumberBehind, Value, ObjectAt,
        Show, Stream, PageObject, Utf8, Behind;
    var id, stream := ContentId(k), Stream(pages[k]);
    var p := ContentPieces(id, stream);
    ObjectsOfPage(pages, k);
    var rest := ObjectIsRead(pages, 3 + 2 * k);
    ContentPiecesText(id, stream);
    ValueOfShow(|Utf8(stream)|);
    NumberInPieces(p, 3, rest, |Utf8(stream)|);
    BehindPieces(p, 6, rest);
    AsciiStream(pages[k]);
    AsciiBytes(stream);
    StreamBehind(p, rest);
    StreamCut(stream, p[8] + rest);
  }

  lemma StreamBehind(p: seq<string>, rest: string)
    requires |p| == 9
    ensures Concat(p[7..]) + rest == p[7] + (p[8] + rest)
  {
    assert p[7..] == [p[7]] + [p[8]];
    ConcatAppend([p[7]], [p[8]]);
    ConcatOne(p[7]);
    ConcatOne(p[8]);
  }

  /**
   The file, read from its last line down: the table leads to the trailer, the trailer to the catalog, that to the page
   tree, which counts the pages and lists them in order, and each page leads to the stream that shows its lines.
   */
  lemma ReadsBack(pages: seq<seq<Units>>)
    requires FitsTable(Objects(pages))
    ensures var file := File(Objects(pages));
            && |ReadPdf(file)| == |pages| && NumberBehind(ObjectText(file, PageTree(file)), "/Count ") == |pages|
            && forall k :: 0 <= k < |pages| ==> ReadPdf(file)[k] == AllShown(pages[k])
  {
    hide File, Objects, FitsTable, NumberBehind, ObjectText, PageTree, PagesOf, StreamOf, TextShown, AllShown, Stream,
        ContentId, PageId;
    PageTreeIsFound(pages);
    PagesAreFound(pages);
    forall k | 0 <= k < |pages| ensures ReadPdf(File(Objects(pages)))[k] == AllShown(pages[k]) {
      PageIsRead(pages, k);
      ContentIsRead(pages, k);
      StreamShowsPage(pages[k]);
    }
  }

  lemma {:induction false} AllShownAppend(a: seq<Units>, b: seq<Units>)
    ensures AllShown(a + b) == AllShown(a) + AllShown(b)
  {
    if b == [] {
      assert a + b == a;
    } else {
      assert (a + b)[..|a + b| - 1] == a + b[..|b| - 1];
      AllShownAppend(a, b[..|b| - 1]);
    }
  }

  lemma {:induction false} ShownTogether(pages: seq<seq<Units>>, texts: seq<seq<string>>)
    requires |texts| == |pages| && forall k :: 0 <= k < |pages| ==> texts[k] == AllShown(pages[k])
    ensures Concat(texts) == AllShown(Concat(pages))
  {
    hide AllShown;
    if pages == [] {
      NothingShown();
    } else {
      ShownTogether(pages[1..], texts[1..]);
      AllShownAppend(pages[0], Concat(pages[1..]));
    }
  }

  lemma NothingShown()
    ensures AllShown([]) == []
  {
  }

  lemma {:induction false} OffsetGrows(pieces: seq<string>, k: nat)
    requires k <= |pieces|
    ensures Offset(pieces, k) <= |Utf8(Concat(pieces))|
    decreases |pieces| - k
  {
    hide Utf8, Concat;
    if k < |pieces| {
      OffsetNext(pieces, k);
      OffsetGrows(pieces, k + 1);
    } else {
      assert pieces[..k] == pieces;
    }
  }

  /** Offsets fit if the file is short enough. */
  lemma ShortFilesFit(objects: seq<string>)
    requires |File(objects)| < Pow10(10)
    ensures FitsTable(objects)
  {
    hide Utf8, Concat, Offset, Pow10, Table, Trailer, Header;
    forall k | 0 <= k < |objects| ensures Start(objects, k) < Pow10(10) {
      OffsetOfPrefix([Header()] + objects, Table(objects) + [Trailer(objects)], k + 1);
      OffsetGrows(Pieces(objects), k + 1);
    }
  }

  // ---------------------------------------------------------------- where the lines are drawn

  function SplitLines(s: string): (lines: seq<string>)
    ensures lines != []
  {
    if s == "" then [""]
    else if s[0] == '\n' then [""] + SplitLines(s[1..])
    else
      var later := SplitLines(s[1..]);
      [[s[0]] + later[0]] + later[1..]
  }

  /** The state of text drawing (section 9.4 of ISO 32000-1), as far as the writer uses it. */
  datatype Pen = Pen(font: string, size: nat, leading: nat, x: nat, y: int)

  const NO_PEN := Pen("", 0, 0, 0, 0)

  datatype Drawn = Drawn(text: string, pen: Pen)

  predicate EndsIn(op: string, tail: string) {
    |tail| <= |op| && op[|op| - |tail|..] == tail
  }

  function UpToBlank(s: string): string {
    if s == "" || s[0] == ' ' then "" else [s[0]] + UpToBlank(s[1..])
  }

  /** What an operator does to the pen. */
  function Moved(op: string, pen: Pen): Pen {
    if op == "BT" then pen.(x := 0, y := 0)
    else if op == "T*" then pen.(y := pen.y - pen.leading)
    else if EndsIn(op, " Tf") then pen.(font := UpToBlank(op), size := NumberBehind(op, " "))
    else if EndsIn(op, " TL") then pen.(leading := Value(LeadingDigits(op)))
    else if EndsIn(op, " Td") then pen.(x := pen.x + Value(LeadingDigits(op)), y := pen.y + NumberBehind(op, " "))
    else pen
  }

  /** What it draws. */
  function Shows(op: string, pen: Pen): seq<Drawn> {
    if op != "" && op[0] == '(' then
      match ReadLiteral(op[1..], 0)
      case None => []
      case Some((text, rest)) => if rest == " Tj" then [Drawn(text, pen)] else []
    else []
  }

  function PenAfter(ops: seq<string>, pen: Pen): Pen {
    if ops == [] then pen else Moved(ops[|ops| - 1], PenAfter(ops[..|ops| - 1], pen))
  }

  function Draw(ops: seq<string>, pen: Pen): seq<Drawn> {
    if ops == [] then []
    else Draw(ops[..|ops| - 1], pen) + Shows(ops[|ops| - 1], PenAfter(ops[..|ops| - 1], pen))
  }

  lemma OneMoreOperator(ops: seq<string>, op: string, pen: Pen)
    ensures PenAfter(ops + [op], pen) == Moved(op, PenAfter(ops, pen))
    ensures Draw(ops + [op], pen) == Draw(ops, pen) + Shows(op, PenAfter(ops, pen))
  {
    assert (ops + [op])[..|ops|] == ops;
    hide Moved, Shows;
  }

  lemma {:induction false} SplitPlain(line: string)
    requires '\n' !in line
    ensures SplitLines(line) == [line]
  {
    if line != "" {
      SplitPlain(line[1..]);
      assert line == [line[0]] + line[1..];
    }
  }

  lemma {:induction false} SplitFirst(line: string, rest: string)
    requires '\n' !in line
    ensures SplitLines(line + ("\n" + rest)) == [line] + SplitLines(rest)
  {
    var s := line + ("\n" + rest);
    if line == "" {
      assert s == "\n" + rest && s[1..] == rest;
    } else {
      assert s[0] == line[0] && s[1..] == line[1..] + ("\n" + rest);
      SplitFirst(line[1..], rest);
      var later := SplitLines(s[1..]);
      assert later[0] == line[1..] && later[1..] == SplitLines(rest);
      assert line == [line[0]] + line[1..];
    }
  }

  lemma {:induction false} SplitJoined(lines: seq<string>)
    requires lines != [] && forall i :: 0 <= i < |lines| ==> '\n' !in lines[i]
    ensures SplitLines(Join(lines, "\n")) == lines
  {
    if |lines| == 1 {
      SplitPlain(lines[0]);
    } else {
      JoinFront(lines, "\n");
      SplitJoined(lines[1..]);
      hide Join, SplitLines;
      SplitFirst(lines[0], Join(lines[1..], "\n"));
      assert lines == [lines[0]] + lines[1..];
    }
  }

  lemma {:induction false} NoNewline(s: Units)
    ensures '\n' !in ReplaceUnprintable(s)
  {
    if s != [] {
      NoNewline(s[..|s| - 1]);
    }
  }

  lemma ShowTextIsOneLine(line: Units)
    ensures '\n' !in ShowText(line)
  {
    var first := ReplaceUnit(line, BACKSLASH, [BACKSLASH, BACKSLASH]);
    var second := ReplaceUnit(first, OPEN, [BACKSLASH, OPEN]);
    NoNewline(ReplaceUnit(second, CLOSE, [BACKSLASH, CLOSE]));
    assert '\n' !in EscapePdfText(line);
    hide EscapePdfText;
  }

  lemma {:induction false} ShowLinesAreLines(page: seq<Units>)
    ensures forall i :: 0 <= i < |ShowLines(page)| ==> '\n' !in ShowLines(page)[i]
  {
    if page != [] {
      hide ShowText;
      ShowLinesAreLines(page[..|page| - 1]);
      ShowTextIsOneLine(page[|page| - 1]);
    }
  }

  lemma StreamSplits(page: seq<Units>)
    ensures SplitLines(Stream(page)) == Preamble() + ShowLines(page) + ["ET"]
  {
    ShowLinesAreLines(page);
    hide ShowLines, SplitLines, Join;
    SplitJoined(Preamble() + ShowLines(page) + ["ET"]);
  }

  lemma LeadingNumber(n: nat, rest: string)
    requires rest != "" && !IsDigit(rest[0])
    ensures Value(LeadingDigits(Show(n) + rest)) == n
  {
    DigitsLead(Show(n), rest);
    ValueOfShow(n);
    hide Show, Value;
  }

  lemma SmallNumbers()
    ensures Show(11) == "11" && Show(14) == "14" && Show(50) == "50" && Show(782) == "782"
  {
  }

  lemma BeginMoves(pen: Pen)
    ensures Moved("BT", pen) == pen.(x := 0, y := 0) && Moved("T*", pen) == pen.(y := pen.y - pen.leading)
    ensures Moved("ET", pen) == pen && Shows("ET", pen) == [] && Shows("T*", pen) == [] && Shows("BT", pen) == []
  {
    assert "T*" != "BT" && "ET" != "BT" && "ET" != "T*";
  }

  lemma EndOf(front: string, tail: string)
    ensures EndsIn(front + tail, tail)
    ensures forall other: string :: |other| == |tail| && other != tail ==> !EndsIn(front + tail, other)
  {
    assert (front + tail)[|front|..] == tail;
  }

  lemma NumberNext(front: string, n: nat, rest: string)
    requires ' ' !in front && rest != "" && !IsDigit(rest[0])
    ensures NumberBehind(front + (" " + (Show(n) + rest)), " ") == n
  {
    LeadingNumber(n, rest);
    hide Show, LeadingDigits, Value;
    Skip(front, " " + (Show(n) + rest), " ");
    assert (" " + (Show(n) + rest))[1..] == Show(n) + rest;
  }

  lemma {:induction false} UpToThere(front: string, rest: string)
    requires ' ' !in front && rest != "" && rest[0] == ' '
    ensures UpToBlank(front + rest) == front
  {
    if front == "" {
      assert front + rest == rest;
    } else {
      assert (front + rest)[0] == front[0] && (front + rest)[1..] == front[1..] + rest;
      UpToThere(front[1..], rest);
      assert front == [front[0]] + front[1..];
    }
  }

  lemma SelectFont(op: string, name: string, n: nat, pen: Pen)
    requires op == name + (" " + (Show(n) + " Tf")) && ' ' !in name && |op| > 2 && op[0] != '('
    ensures Moved(op, pen) == pen.(font := name, size := n) && Shows(op, pen) == []
  {
    NumberNext(name, n, " Tf");
    UpToThere(name, " " + (Show(n) + " Tf"));
    EndOf(name + (" " + Show(n)), " Tf");
    assert op == (name + (" " + Show(n))) + " Tf";
    hide Show, NumberBehind, UpToBlank, LeadingDigits, Value, EndsIn;
  }

  lemma EndsInTd(front: string)
    ensures var op := front + " Td"; EndsIn(op, " Td") && !EndsIn(op, " Tf") && !EndsIn(op, " TL")
  {
    EndOf(front, " Td");
    assert " Tf"[2] == 'f' && " TL"[2] == 'L' && " Td"[2] == 'd';
  }

  lemma MovePen(op: string, x: nat, y: nat, pen: Pen)
    requires op == Show(x) + (" " + (Show(y) + " Td")) && |op| > 2 && op[0] != '('
    ensures Moved(op, pen) == pen.(x := pen.x + x, y := pen.y + y) && Shows(op, pen) == []
  {
    hide Show, NumberBehind, UpToBlank, LeadingDigits, Value, EndsIn;
    assert ' ' !in Show(x) by {
      assert !IsDigit(' ');
    }
    NumberNext(Show(x), y, " Td");
    LeadingNumber(x, " " + (Show(y) + " Td"));
    EndsInTd(Show(x) + (" " + Show(y)));
    assert op == (Show(x) + (" " + Show(y))) + " Td";
  }

  lemma FontMoves(pen: Pen)
    ensures Moved("/F1 11 Tf", pen) == pen.(font := "/F1", size := 11) && Shows("/F1 11 Tf", pen) == []
  {
    SmallNumbers();
    hide *;
    assert "/F1 11 Tf" == "/F1" + (" " + ("11" + " Tf"));
    SelectFont("/F1 11 Tf", "/F1", 11, pen);
  }

  lemma LeadingMoves(pen: Pen)
    ensures Moved("14 TL", pen) == pen.(leading := 14) && Shows("14 TL", pen) == []
  {
    var op := "14 TL";
    assert |op| == 5 && op[2..] == " TL" && !EndsIn(op, " Tf") && EndsIn(op, " TL");
    SmallNumbers();
    LeadingNumber(14, " TL");
    assert op == "14" + " TL";
    hide LeadingDigits, Value, Show;
  }

  lemma StartMoves(pen: Pen)
    ensures Moved("50 782 Td", pen) == pen.(x := pen.x + 50, y := pen.y + 782) && Shows("50 782 Td", pen) == []
  {
    SmallNumbers();
    hide *;
    assert "50 782 Td" == "50" + (" " + ("782" + " Td"));
    MovePen("50 782 Td", 50, 782, pen);
  }

  /** The pen at line `k` of a page. */
  function PenAt(k: nat): Pen {
    Pen("/F1", 11, 14, 50, 782 - 14 * k)
  }

  lemma PreambleMoves()
    ensures PenAfter(Preamble(), NO_PEN) == PenAt(0) && Draw(Preamble(), NO_PEN) == []
  {
    var none: seq<string> := [];
    var p := Preamble();
    assert p == (((none + [p[0]]) + [p[1]]) + [p[2]]) + [p[3]];
    assert p[0] == "BT" && p[1] == "/F1 11 Tf" && p[2] == "14 TL" && p[3] == "50 782 Td";
    BeginMoves(NO_PEN);
    FontMoves(NO_PEN);
    LeadingMoves(Pen("/F1", 11, 0, 0, 0));
    StartMoves(Pen("/F1", 11, 14, 0, 0));
    NothingDrawn();
    hide Moved, Shows, PenAfter, Draw, Preamble;
    OneMoreOperator(none, p[0], NO_PEN);
    OneMoreOperator(none + [p[0]], p[1], NO_PEN);
    OneMoreOperator((none + [p[0]]) + [p[1]], p[2], NO_PEN);
    OneMoreOperator(((none + [p[0]]) + [p[1]]) + [p[2]], p[3], NO_PEN);
  }

  lemma NothingDrawn()
    ensures PenAfter([], NO_PEN) == NO_PEN && Draw([], NO_PEN) == []
  {
  }

  lemma ShowTextShows(line: Units, pen: Pen)
    ensures Moved(ShowText(line), pen) == pen && Shows(ShowText(line), pen) == [Drawn(Shown(line), pen)]
  {
    var op := ShowText(line);
    assert op[0] == '(' && op[1..] == EscapePdfText(line) + ")" + " Tj";
    ReadUndoesEscape(line, " Tj");
    assert op[|op| - 3..] == " Tj";
    assert " Tj"[2] == 'j' && " Tf"[2] == 'f' && " TL"[2] == 'L' && " Td"[2] == 'd';
    hide ReadLiteral, EscapePdfText;
  }

  /** The lines of a page, each 14 units below the one before. */
  function DrawnLines(page: seq<Units>): (drawn: seq<Drawn>)
    ensures |drawn| == |page| && forall k :: 0 <= k < |page| ==> drawn[k] == Drawn(Shown(page[k]), PenAt(k))
  {
    seq(|page|, k requires 0 <= k < |page| => Drawn(Shown(page[k]), PenAt(k)))
  }

  lemma {:induction false} LinesAreDrawn(page: seq<Units>)
    ensures var ops := Preamble() + ShowLines(page);
            && Draw(ops, NO_PEN) == DrawnLines(page)
            && PenAfter(ops, NO_PEN) == PenAt(if page == [] then 0 else |page| - 1)
  {
    hide ShowText, Preamble, Moved, Shows, Shown, PenAfter, Draw;
    if page == [] {
      assert Preamble() + ShowLines(page) == Preamble();
      PreambleMoves();
    } else {
      var n := |page| - 1;
      var before := Preamble() + ShowLines(page[..n]);
      LinesAreDrawn(page[..n]);
      ShowLinesNext(page);
      ShowTextShows(page[n], PenAt(n));
      if n > 0 {
        OneMoreOperator(before, "T*", NO_PEN);
        BeginMoves(PenAt(n - 1));
        OneMoreOperator(before + ["T*"], ShowText(page[n]), NO_PEN);
        assert Preamble() + ShowLines(page) == (before + ["T*"]) + [ShowText(page[n])];
      } else {
        OneMoreOperator(before, ShowText(page[n]), NO_PEN);
        assert Preamble() + ShowLines(page) == before + [ShowText(page[n])];
      }
      assert DrawnLines(page) == DrawnLines(page[..n]) + [Drawn(Shown(page[n]), PenAt(n))];
    }
  }

  /**
   A page draws its lines in their order in Helvetica of size 11, from 50 units right of the corner and 782 above it on
   down, and with at most 51 lines it stays 60 units above the lower edge.
   */
  lemma PageLayout(page: seq<Units>)
    ensures Draw(SplitLines(Stream(page)), NO_PEN) == DrawnLines(page)
    ensures |page| <= 51 ==> forall k :: 0 <= k < |page| ==>
              DrawnLines(page)[k].pen.y >= 60 && DrawnLines(page)[k].pen == Pen("/F1", 11, 14, 50, 782 - 14 * k)
  {
    hide Draw, PenAfter, Preamble, ShowLines, Stream, SplitLines;
    StreamSplits(page);
    LinesAreDrawn(page);
    OneMoreOperator(Preamble() + ShowLines(page), "ET", NO_PEN);
    BeginMoves(PenAt(if page == [] then 0 else |page| - 1));
  }

  // ---------------------------------------------------------------- the program

  const LINES_PER_PAGE := (842 - 2 * 60) / 14

  /** `lines.join` of the operators of one page. */
  method PageStream(page: seq<Units>) returns (stream: string)
    ensures stream == Stream(page)
  {
    var streamLines := Preamble();
    assert Preamble() + ShowLines([]) == Preamble();
    hide Preamble, ShowText;
    for index := 0 to |page|
      invariant streamLines == Preamble() + ShowLines(page[..index])
    {
      assert page[..index + 1][..index] == page[..index];
      ShowLinesNext(page[..index + 1]);
      if index > 0 {
        streamLines := streamLines + ["T*"];
      }
      streamLines := streamLines + [ShowText(page[index])];
    }
    assert page[..|page|] == page;
    stream := Join(streamLines + ["ET"], "\n");
  }

  lemma PageObjectsNext(pages: seq<seq<Units>>, k: nat)
    requires k < |pages|
    ensures PageObjects(pages[..k + 1]) == PageObjects(pages[..k]) + [ContentObject(k, pages[k]), PageObject(k)]
    ensures |PageObjects(pages[..k])| == 2 * k
  {
    hide ContentObject, PageObject;
    assert pages[..k + 1][..k] == pages[..k];
    if k > 0 {
      PageObjectsAt(pages[..k], 0);
    }
  }

  lemma ObjectsByNumber(k: nat, page: seq<Units>)
    ensures ContentObject(k, page) == Concat(ContentPieces(4 + 2 * k, Stream(page)))
    ensures PageObject(k) == Concat(ObjectHead(5 + 2 * k) + PageRest(4 + 2 * k))
  {
    hide Concat, ObjectHead, PageRest, ContentPieces, Stream;
  }

  lemma KidsNext(k: nat)
    ensures Kids(k + 1) == Kids(k) + [Reference(5 + 2 * k)]
  {
    hide Reference;
  }

  /** The two objects of a page. */
  method BuildPage(page: seq<Units>, contentObjectId: nat, pageObjectId: nat, ghost k: nat) returns (pair: seq<string>)
    requires contentObjectId == 4 + 2 * k && pageObjectId == 5 + 2 * k
    ensures pair == [ContentObject(k, page), PageObject(k)]
  {
    hide *;
    var stream := PageStream(page);
    ObjectsByNumber(k, page);
    var content := Concat(ContentPieces(contentObjectId, stream));
    var pageObject := Concat(ObjectHead(pageObjectId) + PageRest(contentObjectId));
    pair := [content, pageObject];
  }

  lemma NothingBuilt()
    ensures PageObjects([]) == [] && Kids(0) == []
  {
  }

  /** The loop over the pages: two objects each. */
  method BuildObjects(pages: seq<seq<Units>>) returns (objects: seq<string>)
    ensures objects == Objects(pages)
  {
    hide *;
    var built: seq<string> := [];
    var nextObjectId := 4;
    var kids: seq<string> := [];
    NothingBuilt();
    KidsCount(|pages|);
    for k := 0 to |pages|
      invariant nextObjectId == 4 + 2 * k
      invariant built == PageObjects(pages[..k]) && kids == Kids(k)
    {
      var contentObjectId, pageObjectId := nextObjectId, nextObjectId + 1;
      nextObjectId := nextObjectId + 2;
      var pair := BuildPage(pages[k], contentObjectId, pageObjectId, k);
      PageObjectsNext(pages, k);
      KidsNext(k);
      built, kids := built + pair, kids + [Reference(pageObjectId)];
    }
    assert pages[..|pages|] == pages;
    objects := Fixed(|kids|) + built;
    ObjectsAre(pages);
  }

  lemma {:induction false} KidsCount(n: nat)
    ensures |Kids(n)| == n
  {
    if n > 0 {
      KidsCount(n - 1);
    }
  }

  lemma StartNext(objects: seq<string>, i: nat)
    requires i < |objects|
    ensures Start(objects, i + 1) == Start(objects, i) + |Utf8(objects[i])|
    ensures Start(objects, 0) == |Utf8(Header())|
  {
    hide Utf8, Header, Concat;
    OffsetNext([Header()] + objects, i + 1);
    FirstStart(objects);
  }

  lemma FirstStart(objects: seq<string>)
    ensures Start(objects, 0) == |Utf8(Header())|
  {
    assert ([Header()] + objects)[..1] == [Header()];
    hide Utf8, Header;
    ConcatOne(Header());
  }

  lemma ConcatOne(s: string)
    ensures Concat([s]) == s
  {
    assert Concat([s]) == s + Concat([s][1..]) == s + "";
  }

  lemma {:induction false} ConcatAppend(a: seq<string>, b: seq<string>)
    ensures Concat(a + b) == Concat(a) + Concat(b)
  {
    if a == [] {
      assert a + b == b;
    } else {
      ConcatAppend(a[1..], b);
      assert (a + b)[1..] == a[1..] + b;
      Regroup4(a[0], Concat(a[1..]), Concat(b), "");
    }
  }

  /** The offsets of the objects, added up as they are appended to the parts. */
  method PlaceObjects(objects: seq<string>) returns (offsets: seq<nat>, currentOffset: nat)
    ensures |offsets| == |objects| && forall i :: 0 <= i < |objects| ==> offsets[i] == Start(objects, i)
    ensures currentOffset == Start(objects, |objects|)
  {
    hide *;
    offsets, currentOffset := [], |Utf8(Header())|;
    FirstStart(objects);
    for i := 0 to |objects|
      invariant |offsets| == i && forall k :: 0 <= k < i ==> offsets[k] == Start(objects, k)
      invariant currentOffset == Start(objects, i)
    {
      StartNext(objects, i);
      offsets := offsets + [currentOffset];
      currentOffset := currentOffset + |Utf8(objects[i])|;
    }
  }

  method PrintTable(objects: seq<string>, offsets: seq<nat>) returns (xref: string)
    requires |offsets| == |objects| && forall i :: 0 <= i < |objects| ==> offsets[i] == Start(objects, i)
    ensures xref == Concat(Table(objects))
  {
    xref := TableHead(objects) + FREE_ENTRY;
    TableFront(objects);
    hide Start, Entry, Concat, TableHead;
    for i := 0 to |objects|
      invariant xref == Concat(Table(objects)[..2 + i])
    {
      ConcatNext(Table(objects), 2 + i);
      assert Table(objects)[2 + i] == Entry(Start(objects, i));
      xref := xref + Entry(offsets[i]);
    }
    assert Table(objects)[..2 + |objects|] == Table(objects);
  }

  lemma TableFront(objects: seq<string>)
    ensures Concat(Table(objects)[..2]) == TableHead(objects) + FREE_ENTRY
  {
    assert Table(objects)[..2] == [TableHead(objects)] + [FREE_ENTRY];
    hide TableHead;
    ConcatAppend([TableHead(objects)], [FREE_ENTRY]);
    ConcatOne(TableHead(objects));
    ConcatOne(FREE_ENTRY);
  }

  /** The parts as the program joins them: the table is one part. */
  lemma PartsJoin(front: seq<string>, table: seq<string>, trailer: string)
    ensures Concat(front + [Concat(table), trailer]) == Concat(front + (table + [trailer]))
  {
    ConcatAppend(front, [Concat(table), trailer]);
    ConcatAppend(front, table + [trailer]);
    ConcatAppend(table, [trailer]);
    ConcatAppend([Concat(table)], [trailer]);
    assert [Concat(table)] + [trailer] == [Concat(table), trailer];
    ConcatOne(Concat(table));
  }

  lemma PageHasRoom()
    ensures LINES_PER_PAGE == 51
  {
  }

  /** The lines cut into pages. */
  ghost predicate Paged(lines: seq<Units>, pages: seq<seq<Units>>) {
    && pages != [] && Concat(pages) == lines && (forall k :: 0 <= k < |pages| ==> 0 < |pages[k]| <= LINES_PER_PAGE)
    && forall k :: 0 <= k < |pages| - 1 ==> |pages[k]| == LINES_PER_PAGE
  }

  ghost predicate IsPdfOf(text: Units, file: seq<nat>) {
    exists lines: seq<Units>, pages: seq<seq<Units>> ::
        WrapsText(text, lines) && Paged(lines, pages) && file == File(Objects(pages))
  }

  /** Read back, the file has the pages, and what they show in their order are the lines of the text. */
  ghost predicate ShowsText(text: Units, file: seq<nat>) {
    exists lines: seq<Units>, pages: seq<seq<Units>> ::
        WrapsText(text, lines) && Paged(lines, pages) && |ReadPdf(file)| == |pages|
        && (forall k :: 0 <= k < |pages| ==> ReadPdf(file)[k] == AllShown(pages[k]))
        && Concat(ReadPdf(file)) == AllShown(lines)
  }

  lemma PdfShowsText(text: Units, file: seq<nat>)
    requires IsPdfOf(text, file) && |file| < Pow10(10)
    ensures ShowsText(text, file)
  {
    hide WrapsText, File, Objects, ReadPdf, AllShown, Pow10, FitsTable;
    var lines: seq<Units>, pages: seq<seq<Units>> :|
        WrapsText(text, lines) && Paged(lines, pages) && file == File(Objects(pages));
    ShortFilesFit(Objects(pages));
    ReadsBack(pages);
    ShownTogether(pages, ReadPdf(file));
  }

  lemma ChunksArePages(lines: seq<Units>)
    requires lines != []
    ensures LINES_PER_PAGE == 51 && Paged(lines, Chunks(lines, LINES_PER_PAGE))
  {
    PageHasRoom();
    ConcatChunks(lines, LINES_PER_PAGE);
    hide Chunks;
    NothingInNothing();
  }

  /** `createPdfBuffer`: at least one page, each with at most 51 lines, which read back are the wrapped text. */
  method CreatePdfBuffer(text: Units) returns (file: seq<nat>)
    ensures IsPdfOf(text, file)
    ensures |file| < Pow10(10) ==> ShowsText(text, file)
  {
    hide Chunks, WrapsText, Paged, File, Objects, ShowsText, Pow10;
    var lines := WrapPdfText(text);
    ChunksArePages(lines);
    var pages := Chunked(lines, LINES_PER_PAGE);
    file := WritePages(pages);
    assert WrapsText(text, lines) && Paged(lines, pages) && file == File(Objects(pages));
    if |file| < Pow10(10) {
      PdfShowsText(text, file);
    }
  }

  lemma NothingInNothing()
    ensures Concat<Units>([]) == []
  {
  }

  method WritePages(pages: seq<seq<Units>>) returns (file: seq<nat>)
    ensures file == File(Objects(pages))
  {
    hide *;
    var objects := BuildObjects(pages);
    var offsets, xrefOffset := PlaceObjects(objects);
    var xref := PrintTable(objects, offsets);
    var trailer := PrintTrailer(objects, xrefOffset);
    PartsJoin([Header()] + objects, Table(objects), trailer);
    file := Utf8(Concat(([Header()] + objects) + [xref, trailer]));
    FileIs(objects);
  }

  method PrintTrailer(objects: seq<string>, xrefOffset: nat) returns (trailer: string)
    requires xrefOffset == Start(objects, |objects|)
    ensures trailer == Trailer(objects)
  {
    trailer := Concat(TrailerHead(|objects| + 1)) + ("startxref\n" + Show(xrefOffset) + "\n%%EOF");
  }

  lemma FileIs(objects: seq<string>)
    ensures File(objects) == Utf8(Concat(([Header()] + objects) + (Table(objects) + [Trailer(objects)])))
  {
  }
}
