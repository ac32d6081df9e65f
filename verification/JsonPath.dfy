/**
 Paths of dashboard patches (dashboard.go): segments such as `panels[2]`, `title` or `panels/-`,
 how a path string is cut into segments and how a segment prints.
 */
module JsonPath {
  import opened Common
  import opened Decimal

  datatype Segment = Segment(key: string, index: nat, isArray: bool, isAppend: bool)

  /** The largest index a 64-bit `int` holds; a longer numeral leaves the index at 0. */
  const MAX_INDEX: nat := 0x7FFF_FFFF_FFFF_FFFF

  function ToString(seg: Segment): string {
    if seg.isAppend then seg.key + "/-"
    else if seg.isArray then seg.key + "[" + Show(seg.index) + "]"
    else seg.key
  }

  predicate IsSeparator(c: char) {
    c == '.' || c == '[' || c == ']' || c == '/'
  }

  /** The separators are the dot, the brackets and the slash. */
  lemma Separators(c: char)
    ensures IsSeparator(c) <==> c as int == 46 || c as int == 91 || c as int == 93 || c as int == 47
  {
  }

  predicate IsKey(s: string) {
    s != "" && forall i :: 0 <= i < |s| ==> !IsSeparator(s[i])
  }

  /** Length of the longest front of `s` without separators. */
  function KeyRun(s: string): (n: nat)
    ensures n <= |s|
    ensures s != "" && !IsSeparator(s[0]) ==> n > 0 && IsKey(s[..n])
  {
    if s == "" || IsSeparator(s[0]) then 0
    else
      var m := KeyRun(s[1..]);
      assert forall i :: 0 < i < m + 1 ==> s[i] == s[1..][..m][i - 1];
      m + 1
  }

  function DigitRun(s: string): (n: nat)
    ensures n <= |s| && AllDigits(s[..n])
  {
    if s == "" || !IsDigit(s[0]) then 0
    else
      var m := DigitRun(s[1..]);
      assert forall i :: 0 < i < m + 1 ==> s[i] == s[1..][..m][i - 1];
      m + 1
  }

  /** The digits of a `[digits]` at the front of `s`, or the empty string. */
  function IndexDigits(s: string): (digits: string)
    ensures AllDigits(digits) && (digits != "" ==> |digits| + 2 <= |s|)
  {
    if s == "" || s[0] != '[' then ""
    else
      var n := DigitRun(s[1..]);
      if n > 0 && 1 + n < |s| && s[1 + n] == ']' then s[1..][..n] else ""
  }

  /** `strconv.Atoi` with its error read as "keep 0". */
  function Atoi(digits: string): nat
    requires AllDigits(digits)
  {
    var v := Value(digits);
    if v <= MAX_INDEX then v else 0
  }

  /** An index that a 64-bit integer cannot hold is read as 0. */
  lemma HugeIndexIsZero(key: string, digits: string, rest: string)
    requires IsKey(key) && AllDigits(digits) && digits != "" && Ends(rest)
    ensures Match(key + ("[" + digits + "]" + rest)).0
         == Segment(key, if Value(digits) < 9_223_372_036_854_775_808 then Value(digits) else 0, true, false)
  {
    IndexDigitsOf(digits, rest);
    MatchKey(key, "[" + digits + "]" + rest);
    NoAppend(rest);
  }

  /** The first match of the path pattern at the front of `s`, and what follows it. */
  function Match(s: string): (r: (Segment, string))
    requires s != "" && !IsSeparator(s[0])
    ensures |r.1| < |s|
    ensures IsKey(r.0.key) && r.0.index <= MAX_INDEX && (r.0.index > 0 ==> r.0.isArray && !r.0.isAppend)
  {
    var n := KeyRun(s);
    var afterKey := s[n..];
    var digits := IndexDigits(afterKey);
    var afterIndex := if digits == "" then afterKey else afterKey[|digits| + 2..];
    var isAppend := "/-" <= afterIndex;
    var index := if digits != "" && !isAppend then Atoi(digits) else 0;
    (Segment(s[..n], index, digits != "", isAppend), if isAppend then afterIndex[2..] else afterIndex)
  }

  /** All matches from left to right. */
  function Parse(s: string): (segments: seq<Segment>)
    decreases |s|
  {
    if s == "" then []
    else if IsSeparator(s[0]) then Parse(s[1..])
    else
      var (segment, rest) := Match(s);
      [segment] + Parse(rest)
  }

  method ParseJSONPath(path: string) returns (segments: seq<Segment>)
    ensures segments == Parse(path)
  {
    segments := [];
    var rest := path;
    while rest != ""
      invariant segments + Parse(rest) == Parse(path)
      decreases |rest|
    {
      if IsSeparator(rest[0]) {
        rest := rest[1..];
      } else {
        var (segment, after) := Match(rest);
        Assoc(segments, [segment], Parse(after));
        segments := segments + [segment];
        rest := after;
      }
    }
  }

  // ---------------------------------------------------------------- printing and parsing back

  function Join(segments: seq<Segment>): string {
    if segments == [] then ""
    else ToString(segments[0]) + (if |segments| == 1 then "" else "." + Join(segments[1..]))
  }

  /** Segments that print without loss. */
  predicate Printable(seg: Segment) {
    && IsKey(seg.key) && seg.index <= MAX_INDEX
    && (seg.index > 0 ==> seg.isArray)
    && !(seg.isArray && seg.isAppend)
  }

  /** `rest` cannot be taken for a continuation of a printed segment. */
  predicate Ends(rest: string) {
    rest == "" || rest[0] == '.'
  }

  lemma KeyRunStops(key: string, rest: string)
    requires rest == "" || IsSeparator(rest[0])
    requires forall i :: 0 <= i < |key| ==> !IsSeparator(key[i])
    ensures KeyRun(key + rest) == |key|
  {
    if key == "" {
      assert key + rest == rest;
    } else {
      assert (key + rest)[1..] == key[1..] + rest;
      KeyRunStops(key[1..], rest);
    }
  }

  lemma DigitRunStops(digits: string, rest: string)
    requires AllDigits(digits) && (rest == "" || !IsDigit(rest[0]))
    ensures DigitRun(digits + rest) == |digits|
  {
    if digits == "" {
      assert digits + rest == rest;
    } else {
      assert (digits + rest)[1..] == digits[1..] + rest;
      DigitRunStops(digits[1..], rest);
    }
  }

  lemma IndexDigitsOf(digits: string, rest: string)
    requires AllDigits(digits) && digits != ""
    ensures IndexDigits("[" + digits + "]" + rest) == digits
    ensures ("[" + digits + "]" + rest)[|digits| + 2..] == rest
  {
    var s := "[" + digits + "]" + rest;
    assert s[1..] == digits + ("]" + rest);
    DigitRunStops(digits, "]" + rest);
    assert s[1..][..|digits|] == digits;
  }

  /** `Match` cuts after the key, then looks at the tail. */
  lemma MatchKey(key: string, tail: string)
    requires IsKey(key) && (tail == "" || IsSeparator(tail[0]))
    ensures var digits := IndexDigits(tail);
            var after := if digits == "" then tail else tail[|digits| + 2..];
            Match(key + tail)
              == (Segment(key, if digits != ""
                          && !("/-" <= after) then Atoi(digits) else 0, digits != "", "/-" <= after),
                  if "/-" <= after then after[2..] else after)
  {
    KeyRunStops(key, tail);
    assert (key + tail)[..|key|] == key && (key + tail)[|key|..] == tail;
  }

  lemma MatchAppend(seg: Segment, rest: string)
    requires Printable(seg) && seg.isAppend
    ensures Match(seg.key + ("/-" + rest)) == (seg, rest)
  {
    var tail := "/-" + rest;
    MatchKey(seg.key, tail);
    assert IndexDigits(tail) == "";
    assert tail[2..] == rest;
  }

  lemma MatchIndexed(seg: Segment, rest: string)
    requires Printable(seg) && seg.isArray && Ends(rest)
    ensures Match(seg.key + ("[" + Show(seg.index) + "]" + rest)) == (seg, rest)
  {
    var digits := Show(seg.index);
    IndexDigitsOf(digits, rest);
    MatchKey(seg.key, "[" + digits + "]" + rest);
    ValueOfShow(seg.index);
    NoAppend(rest);
  }

  lemma MatchPlain(seg: Segment, rest: string)
    requires Printable(seg) && !seg.isArray && !seg.isAppend && Ends(rest)
    ensures Match(seg.key + rest) == (seg, rest)
  {
    MatchKey(seg.key, rest);
    NoAppend(rest);
  }

  lemma MatchPrinted(seg: Segment, rest: string)
    requires Printable(seg) && Ends(rest)
    ensures var s := ToString(seg) + rest;
            s != "" && s[0] == seg.key[0] && !IsSeparator(s[0]) && Match(s) == (seg, rest)
  {
    if seg.isAppend {
      Assoc(seg.key, "/-", rest);
      MatchAppend(seg, rest);
    } else if seg.isArray {
      var digits := Show(seg.index);
      assert ToString(seg) + rest == seg.key + ("[" + digits + "]" + rest);
      MatchIndexed(seg, rest);
    } else {
      MatchPlain(seg, rest);
    }
  }

  lemma ParsePrinted(seg: Segment, rest: string)
    requires Printable(seg) && Ends(rest)
    ensures Parse(ToString(seg) + rest) == [seg] + Parse(rest)
  {
    MatchPrinted(seg, rest);
  }

  lemma NoAppend(rest: string)
    requires Ends(rest)
    ensures !("/-" <= rest) && IndexDigits(rest) == ""
  {
  }

  lemma {:induction false} ParseJoin(segments: seq<Segment>)
    requires forall seg :: seg in segments ==> Printable(seg)
    ensures Parse(Join(segments)) == segments
  {
    if segments == [] {
    } else if |segments| == 1 {
      ParsePrinted(segments[0], "");
      assert Parse("") == [];
      assert segments == [segments[0]];
      assert ToString(segments[0]) + "" == Join(segments);
    } else {
      var rest := "." + Join(segments[1..]);
      ParsePrinted(segments[0], rest);
      assert rest[1..] == Join(segments[1..]);
      ParseJoin(segments[1..]);
      assert segments == [segments[0]] + segments[1..];
    }
  }

  lemma {:induction false} ParsedSegments(s: string)
    ensures forall seg ::
        seg in Parse(s) ==> IsKey(seg.key) && seg.index <= MAX_INDEX && (seg.index > 0 ==> seg.isArray && !seg.isAppend)
    decreases |s|
  {
    if s != "" {
      if IsSeparator(s[0]) {
        ParsedSegments(s[1..]);
      } else {
        ParsedSegments(Match(s).1);
      }
    }
  }

  /** The array mark of an append segment does not print. */
  function Unmarked(seg: Segment): Segment {
    if seg.isAppend then seg.(isArray := false) else seg
  }

  function UnmarkAll(segments: seq<Segment>): (r: seq<Segment>)
    ensures |r| == |segments| && forall i :: 0 <= i < |r| ==> r[i] == Unmarked(segments[i])
  {
    if segments == [] then [] else [Unmarked(segments[0])] + UnmarkAll(segments[1..])
  }

  lemma JoinUnmarked(segments: seq<Segment>)
    ensures Join(UnmarkAll(segments)) == Join(segments)
  {
  }

  /** Printing, joining and parsing gives the segments back exactly when every one is printable. */
  lemma RoundTrip(segments: seq<Segment>)
    ensures Parse(Join(segments)) == segments <==> forall seg :: seg in segments ==> Printable(seg)
  {
    if forall seg :: seg in segments ==> Printable(seg) {
      ParseJoin(segments);
    } else if Parse(Join(segments)) == segments {
      ParsedSegments(Join(segments));
      var plain := UnmarkAll(segments);
      JoinUnmarked(segments);
      forall seg | seg in plain
        ensures Printable(seg)
      {
        var i :| 0 <= i < |plain| && plain[i] == seg;
        assert segments[i] in segments;
      }
      ParseJoin(plain);
    }
  }
}
