/**
 Grouping and deduplication of log lines (tools/loki.go): entries are gathered under a printed form of
 their labels, and the lines of a group are merged under a printed form of their content.
 */
module LogGrouping {
  import opened Common
  import opened Batching

  // ---------------------------------------------------------------- the order of strings

  predicate Less(a: string, b: string) {
    if b == "" then false
    else if a == "" then true
    else if a[0] != b[0] then a[0] < b[0]
    else Less(a[1..], b[1..])
  }

  /** The texts are alike up to `i`, where the first one ends or has the smaller character. */
  predicate DiffersAt(a: string, b: string, i: nat) {
    i <= |a| && i < |b| && a[..i] == b[..i] && (i == |a| || a[i] < b[i])
  }

  lemma FirstAlike(a: string, b: string, i: nat)
    requires i <= |a| && i <= |b| && a[..i] == b[..i]
    ensures i > 0 ==> a[0] == b[0]
  {
    if i > 0 {
      assert a[0] == a[..i][0] && b[0] == b[..i][0];
    }
  }

  /** The order of strings is decided where they first differ. */
  lemma {:induction false} LessIs(a: string, b: string)
    ensures Less(a, b) <==> exists i: nat :: DiffersAt(a, b, i)
  {
    if a != "" && b != "" && a[0] == b[0] {
      LessIs(a[1..], b[1..]);
      if i: nat :| DiffersAt(a[1..], b[1..], i) {
        assert a[..i + 1] == [a[0]] + a[1..][..i] && b[..i + 1] == [b[0]] + b[1..][..i];
        assert DiffersAt(a, b, i + 1);
      }
      if i: nat :| DiffersAt(a, b, i) {
        assert a[1..][..i - 1] == a[..i][1..] && b[1..][..i - 1] == b[..i][1..];
        assert DiffersAt(a[1..], b[1..], i - 1);
      }
    } else if b != "" {
      assert a[..0] == b[..0];
      assert Less(a, b) ==> DiffersAt(a, b, 0);
      forall i: nat | DiffersAt(a, b, i) ensures i == 0 {
        FirstAlike(a, b, i);
      }
    }
  }

  lemma {:induction false} LessTotal(a: string, b: string)
    ensures a == b || Less(a, b) || Less(b, a)
    ensures !(Less(a, b) && Less(b, a)) && !Less(a, a)
  {
    if a != "" && b != "" && a[0] == b[0] {
      LessTotal(a[1..], b[1..]);
      LessTotal(a[1..], a[1..]);
      assert a == [a[0]] + a[1..] && b == [b[0]] + b[1..];
    } else if a != "" {
      LessTotal(a[1..], a[1..]);
    }
  }

  lemma {:induction false} LessTransitive(a: string, b: string, c: string)
    requires Less(a, b) && Less(b, c)
    ensures Less(a, c)
  {
    if a != "" && a[0] == b[0] == c[0] {
      LessTransitive(a[1..], b[1..], c[1..]);
    }
  }

  // ---------------------------------------------------------------- label keys

  type Labels = map<string, string>

  /** Labels in the order in which they are printed. */
  datatype Pairs = End | Pair(name: string, val: string, rest: Pairs)

  predicate Above(name: string, ps: Pairs) {
    ps.Pair? ==> Less(name, ps.name) && Above(name, ps.rest)
  }

  predicate Ascending(ps: Pairs) {
    ps.Pair? ==> Above(ps.name, ps.rest) && Ascending(ps.rest)
  }

  function ToMap(ps: Pairs): Labels {
    match ps
    case End => map[]
    case Pair(n, v, rest) => ToMap(rest)[n := v]
  }

  function Print(ps: Pairs): string {
    match ps
    case End => ""
    case Pair(n, v, rest) => n + "=" + (v + "\n" + Print(rest))
  }

  lemma {:induction false} AboveAll(name: string, ps: Pairs, k: string)
    requires Above(name, ps) && k in ToMap(ps)
    ensures Less(name, k)
  {
    if k != ps.name {
      AboveAll(name, ps.rest, k);
    }
  }

  lemma {:induction false} AboveLower(a: string, b: string, ps: Pairs)
    requires Less(a, b) && Above(b, ps)
    ensures Above(a, ps)
  {
    if ps.Pair? {
      LessTransitive(a, b, ps.name);
      AboveLower(a, b, ps.rest);
    }
  }

  function Insert(n: string, v: string, ps: Pairs): Pairs {
    match ps
    case End => Pair(n, v, End)
    case Pair(m, w, rest) => if Less(n, m) then Pair(n, v, ps) else Pair(m, w, Insert(n, v, rest))
  }

  lemma {:induction false} InsertAbove(a: string, n: string, v: string, ps: Pairs)
    requires Above(a, ps) && Less(a, n)
    ensures Above(a, Insert(n, v, ps))
  {
    if ps.Pair? && !Less(n, ps.name) {
      InsertAbove(a, n, v, ps.rest);
    }
  }

  lemma {:induction false} InsertAscends(n: string, v: string, ps: Pairs)
    requires Ascending(ps) && n !in ToMap(ps)
    ensures Ascending(Insert(n, v, ps)) && ToMap(Insert(n, v, ps)) == ToMap(ps)[n := v]
  {
    if ps.Pair? {
      if Less(n, ps.name) {
        AboveLower(n, ps.name, ps.rest);
      } else {
        InsertAscends(n, v, ps.rest);
        LessTotal(n, ps.name);
        InsertAbove(ps.name, n, v, ps.rest);
      }
    }
  }

  lemma {:induction false} PairsExist(m: Labels) returns (ps: Pairs)
    ensures Ascending(ps) && ToMap(ps) == m
    decreases |m|
  {
    if m == map[] {
      ps := End;
    } else {
      var k :| k in m;
      var fewer := m - {k};
      assert m == fewer[k := m[k]];
      ps := PairsExist(fewer);
      InsertAscends(k, m[k], ps);
      ps := Insert(k, m[k], ps);
    }
  }

  lemma {:induction false} NotBelow(name: string, ps: Pairs)
    requires Above(name, ps)
    ensures name !in ToMap(ps)
  {
    if name in ToMap(ps) {
      AboveAll(name, ps, name);
      LessTotal(name, name);
      assert false;
    }
  }

  lemma PairedIsNotEmpty(ps: Pairs)
    ensures ps.Pair? ==> ToMap(ps) != map[]
  {
    if ps.Pair? {
      assert ps.name in ToMap(ps);
    }
  }

  lemma SameHead(a: Pairs, b: Pairs)
    requires Ascending(a) && Ascending(b) && ToMap(a) == ToMap(b) && a.Pair? && b.Pair?
    ensures a.name == b.name && a.val == b.val && ToMap(a.rest) == ToMap(b.rest)
  {
    assert a.name in ToMap(b) && b.name in ToMap(a);
    if a.name != b.name {
      AboveAll(b.name, b.rest, a.name);
      AboveAll(a.name, a.rest, b.name);
      LessTotal(a.name, b.name);
      assert false;
    }
    assert ToMap(a)[a.name] == a.val && ToMap(b)[b.name] == b.val;
    NotBelow(a.name, a.rest);
    NotBelow(b.name, b.rest);
    assert ToMap(a.rest) == ToMap(a) - {a.name} && ToMap(b.rest) == ToMap(b) - {b.name};
  }

  /** The printing order of a map is unique: it does not depend on the order in which the map is traversed. */
  lemma {:induction false} PairsUnique(a: Pairs, b: Pairs)
    requires Ascending(a) && Ascending(b) && ToMap(a) == ToMap(b)
    ensures a == b
  {
    PairedIsNotEmpty(a);
    PairedIsNotEmpty(b);
    if a.Pair? && b.Pair? {
      SameHead(a, b);
      PairsUnique(a.rest, b.rest);
    }
  }

  ghost function PairsOf(m: Labels): (ps: Pairs)
    ensures Ascending(ps) && ToMap(ps) == m
  {
    assert exists ps :: Ascending(ps) && ToMap(ps) == m by {
      var ps := PairsExist(m);
    }
    var ps :| Ascending(ps) && ToMap(ps) == m;
    ps
  }

  /** The group key of a label map, whatever the order in which the map is traversed. */
  ghost function GroupKey(m: Labels): string {
    Print(PairsOf(m))
  }

  /** The keys come in any order, and are sorted. */
  method SortLabels(labels: Labels) returns (sorted: Pairs)
    ensures sorted == PairsOf(labels)
  {
    var left := labels.Keys;
    sorted := End;
    while left != {}
      invariant left <= labels.Keys
      invariant Ascending(sorted) && ToMap(sorted) == labels - left
      decreases left
    {
      var k :| k in left;
      InsertAscends(k, labels[k], sorted);
      assert (labels - left)[k := labels[k]] == labels - (left - {k});
      sorted, left := Insert(k, labels[k], sorted), left - {k};
    }
    assert labels - {} == labels;
    PairsUnique(PairsOf(labels), sorted);
  }

  lemma OneMoreLine(key: string, n: string, v: string, more: string)
    ensures key + (n + "=" + (v + "\n" + more)) == (key + n + "=" + v + "\n") + more
  {
  }

  /** `labelsGroupKey`. */
  method LabelsGroupKey(labels: Labels) returns (key: string)
    ensures key == GroupKey(labels)
  {
    var sorted := SortLabels(labels);
    if |labels| == 0 {
      PairedIsNotEmpty(sorted);
      return "";
    }
    key := "";
    hide PairsOf;
    while sorted.Pair?
      invariant key + Print(sorted) == GroupKey(labels)
      decreases sorted
    {
      OneMoreLine(key, sorted.name, sorted.val, Print(sorted.rest));
      key := key + sorted.name + "=" + sorted.val + "\n";
      sorted := sorted.rest;
    }
  }

  // ---------------------------------------------------------------- when keys coincide

  predicate CleanName(n: string) {
    '=' !in n && '\n' !in n
  }

  predicate CleanNames(ps: Pairs) {
    ps.Pair? ==> CleanName(ps.name) && CleanNames(ps.rest)
  }

  /** The value of a label contains a line of its own that a later label could have printed. */
  ghost predicate ForgesAt(name: string, val: string, u: string, n: string, y: string) {
    val == u + "\n" + (n + "=" + y) && CleanName(n) && Less(name, n)
  }

  ghost predicate Forges(name: string, val: string) {
    exists u, n, y :: ForgesAt(name, val, u, n, y)
  }

  ghost predicate SomeForges(ps: Pairs) {
    ps.Pair? && (Forges(ps.name, ps.val) || SomeForges(ps.rest))
  }

  lemma MarkBehind(s: string, b: string, y: string, i: nat, mark: char)
    requires s == b + y && i < |s| && s[i] == mark && mark !in b
    ensures |b| <= i
  {
    assert forall j :: 0 <= j < |b| ==> s[j] == b[j];
  }

  /** Text up to a first mark that the front parts do not contain. */
  lemma SplitAtMark(a: string, x: string, b: string, y: string, mark: char)
    requires a + [mark] + x == b + [mark] + y && mark !in a && mark !in b
    ensures a == b && x == y
  {
    var s, t := a + [mark] + x, b + [mark] + y;
    assert s[..|a|] == a && t[..|b|] == b && s[|a|] == mark && t[|b|] == mark;
    assert s == a + ([mark] + x) && t == b + ([mark] + y);
    MarkBehind(t, b, [mark] + y, |a|, mark);
    MarkBehind(s, a, [mark] + x, |b|, mark);
    assert s[|a| + 1..] == x && t[|b| + 1..] == y;
  }

  /** A longer value swallows the newline behind the shorter one. */
  lemma LongerValue(v: string, t: string, w: string, u: string)
    requires v + "\n" + t == w + "\n" + u && |v| < |w|
    ensures w == v + "\n" + w[|v| + 1..] && t == w[|v| + 1..] + "\n" + u
  {
    var s, r := v + "\n" + t, w + "\n" + u;
    assert s[..|v|] == v && r[..|v|] == w[..|v|] && s[|v|] == '\n' && r[|v|] == w[|v|];
    assert w == w[..|v|] + [w[|v|]] + w[|v| + 1..];
    assert s[|v| + 1..] == t && r[|v| + 1..] == w[|v| + 1..] + "\n" + u;
  }

  /** Then it holds a line of the other text. */
  lemma SwallowedLine(x: string, u: string, n: string, more: string)
    requires x + "\n" + u == n + "=" + more && CleanName(n)
    ensures |n| < |x| && x == n + "=" + x[|n| + 1..]
  {
    var s, r := x + "\n" + u, n + "=" + more;
    assert s[|x|] == '\n' && r[..|n|] == n && r[|n|] == '=';
    MarkBehind(r, n, "=" + more, |x|, '\n');
    assert s[..|n|] == x[..|n|] && s[|n|] == x[|n|];
    assert x == x[..|n|] + [x[|n|]] + x[|n| + 1..];
  }

  lemma LongerForges(name: string, v: string, rest: Pairs, w: string, u: string)
    requires v + "\n" + Print(rest) == w + "\n" + u && |v| < |w|
    requires Above(name, rest) && CleanNames(rest)
    ensures Forges(name, w)
  {
    LongerValue(v, Print(rest), w, u);
    var x := w[|v| + 1..];
    assert |Print(rest)| > 0;
    SwallowedLine(x, u, rest.name, rest.val + "\n" + Print(rest.rest));
    assert w == v + "\n" + (rest.name + "=" + x[|rest.name| + 1..]);
    assert ForgesAt(name, w, v, rest.name, x[|rest.name| + 1..]);
  }

  lemma {:induction false} PrintInjective(a: Pairs, b: Pairs)
    requires Ascending(a) && Ascending(b) && CleanNames(a) && CleanNames(b) && !SomeForges(a) && !SomeForges(b)
    requires Print(a) == Print(b)
    ensures a == b
  {
    if a.Pair? && b.Pair? {
      SplitAtMark(a.name, a.val + "\n" + Print(a.rest), b.name, b.val + "\n" + Print(b.rest), '=');
      if |a.val| < |b.val| {
        LongerForges(a.name, a.val, a.rest, b.val, Print(b.rest));
      } else if |b.val| < |a.val| {
        LongerForges(b.name, b.val, b.rest, a.val, Print(a.rest));
      } else {
        var s, t := a.val + "\n" + Print(a.rest), b.val + "\n" + Print(b.rest);
        assert a.val == s[..|a.val|] == t[..|b.val|] == b.val;
        assert Print(a.rest) == s[|a.val| + 1..] == t[|b.val| + 1..] == Print(b.rest);
        PrintInjective(a.rest, b.rest);
      }
    }
  }

  lemma {:induction false} EndsWithNewline(ps: Pairs)
    requires ps.Pair?
    ensures Print(ps) != "" && Print(ps)[|Print(ps)| - 1] == '\n'
  {
    if ps.rest.Pair? {
      EndsWithNewline(ps.rest);
    }
  }

  /** What a forged line would have to carry as its value: the rest of the text, without the last newline. */
  function Remainder(y: string, rest: Pairs): (r: string)
    ensures r + "\n" == y + "\n" + Print(rest)
  {
    if rest.End? then y
    else
      EndsWithNewline(rest);
      var text := Print(rest);
      assert text == text[..|text| - 1] + "\n";
      y + "\n" + text[..|text| - 1]
  }

  /** What the text behind a forged newline says when it is read as one label. */
  function Reread(n: string, y: string, rest: Pairs): Pairs {
    Pair(n, Remainder(y, rest), End)
  }

  lemma RereadPrints(ps: Pairs, u: string, n: string, y: string)
    requires ps.Pair? && ForgesAt(ps.name, ps.val, u, n, y)
    ensures Print(Pair(ps.name, u, Reread(n, y, ps.rest))) == Print(ps)
  {
    var tail := n + "=" + (Remainder(y, ps.rest) + "\n" + Print(End));
    assert tail == n + "=" + (y + "\n" + Print(ps.rest));
    assert u + "\n" + tail == ps.val + "\n" + Print(ps.rest);
  }

  /** A value that forges has a first forged line: the text in front of it forges nothing. */
  lemma {:induction false} FirstForgery(name: string, val: string, u: string, n: string, y: string)
    returns (u': string, n': string, y': string)
    requires ForgesAt(name, val, u, n, y)
    ensures ForgesAt(name, val, u', n', y') && !Forges(name, u')
    decreases |u|
  {
    u', n', y' := u, n, y;
    if Forges(name, u) {
      var u2, n2, y2 :| ForgesAt(name, u, u2, n2, y2);
      assert val == u2 + "\n" + (n2 + "=" + (y2 + "\n" + (n + "=" + y)));
      u', n', y' := FirstForgery(name, val, u2, n2, y2 + "\n" + (n + "=" + y));
    }
  }

  /** Reading every label up to its first forged line gives labels that forge nothing and print the same. */
  lemma {:induction false} Untangle(ps: Pairs) returns (qs: Pairs)
    requires Ascending(ps) && CleanNames(ps)
    ensures Ascending(qs) && CleanNames(qs) && !SomeForges(qs) && Print(qs) == Print(ps)
    ensures forall a :: Above(a, ps) ==> Above(a, qs)
    decreases |Print(ps)|
  {
    if ps.End? {
      return End;
    }
    var u, tail := ps.val, ps.rest;
    if Forges(ps.name, ps.val) {
      var n, y;
      u, n, y :| ForgesAt(ps.name, ps.val, u, n, y);
      u, n, y := FirstForgery(ps.name, ps.val, u, n, y);
      tail := Reread(n, y, ps.rest);
      RereadPrints(ps, u, n, y);
    }
    assert Above(ps.name, tail);
    var rest := Untangle(tail);
    qs := Pair(ps.name, u, rest);
    forall a | Above(a, ps) ensures Above(a, qs) {
      AboveLower(a, ps.name, rest);
    }
  }

  ghost predicate Named(m: Labels) {
    CleanNames(PairsOf(m))
  }

  /** No value of the map contains a printed line of a later label. */
  ghost predicate Plain(m: Labels) {
    Named(m) && !SomeForges(PairsOf(m))
  }

  /** Among plain label maps the group key tells maps apart. */
  lemma GroupKeyTellsPlainMapsApart(a: Labels, b: Labels)
    requires Plain(a) && Plain(b)
    ensures GroupKey(a) == GroupKey(b) <==> a == b
  {
    if GroupKey(a) == GroupKey(b) {
      PrintInjective(PairsOf(a), PairsOf(b));
    }
  }

  lemma PlainFormExists(m: Labels) returns (plain: Labels)
    requires Named(m)
    ensures Plain(plain) && GroupKey(plain) == GroupKey(m)
  {
    var qs := Untangle(PairsOf(m));
    plain := ToMap(qs);
    PairsUnique(PairsOf(plain), qs);
  }

  /** The plain map that has the key of a properly named one. */
  ghost function PlainForm(m: Labels): (plain: Labels)
    requires Named(m)
    ensures Plain(plain) && GroupKey(plain) == GroupKey(m)
  {
    assert exists plain :: Plain(plain) && GroupKey(plain) == GroupKey(m) by {
      var plain := PlainFormExists(m);
    }
    var plain :| Plain(plain) && GroupKey(plain) == GroupKey(m);
    plain
  }

  /** Every properly named map shares its key with exactly one plain map. */
  lemma PlainFormIsUnique(m: Labels, plain: Labels)
    requires Named(m) && Plain(plain)
    ensures GroupKey(plain) == GroupKey(m) <==> plain == PlainForm(m)
  {
    GroupKeyTellsPlainMapsApart(plain, PlainForm(m));
  }

  /** So two properly named maps are put into one group if and only if they have one plain form. */
  lemma KeysCoincideIffPlainFormsDo(a: Labels, b: Labels)
    requires Named(a) && Named(b)
    ensures GroupKey(a) == GroupKey(b) <==> PlainForm(a) == PlainForm(b)
  {
    PlainFormIsUnique(a, PlainForm(b));
  }

  /** A properly named map is plain if and only if no other plain map has its key. */
  lemma PlainIffAlone(m: Labels)
    requires Named(m)
    ensures Plain(m) <==> forall other: Labels :: Plain(other) && GroupKey(other) == GroupKey(m) ==> other == m
  {
    if Plain(m) {
      forall other: Labels | Plain(other) && GroupKey(other) == GroupKey(m) ensures other == m {
        GroupKeyTellsPlainMapsApart(other, m);
      }
    } else {
      assert PlainForm(m) != m;
    }
  }

  /** Two labels print like one whose value holds the line of the second. */
  lemma TwoLabelsMerge(ps: Pairs) returns (qs: Pairs)
    requires Ascending(ps) && CleanNames(ps) && ps.Pair? && ps.rest.Pair?
    ensures Ascending(qs) && CleanNames(qs) && Print(qs) == Print(ps) && qs != ps
  {
    var next := ps.rest;
    var both := ps.val + "\n" + (next.name + "=" + next.val);
    qs := Pair(ps.name, both, next.rest);
    if next.rest.Pair? {
      AboveLower(ps.name, next.name, next.rest);
    }
    assert both + "\n" + Print(next.rest) == ps.val + "\n" + Print(next);
    assert |both| > |ps.val|;
  }

  /** A single label is read back from its line. */
  lemma OneLabelIsAlone(ps: Pairs, qs: Pairs)
    requires Ascending(ps) && CleanNames(ps) && !SomeForges(ps) && (ps.Pair? ==> ps.rest.End?)
    requires Ascending(qs) && CleanNames(qs) && Print(qs) == Print(ps)
    ensures qs == ps
  {
    if ps.Pair? {
      assert qs.Pair?;
      SplitAtMark(ps.name, ps.val + "\n" + "", qs.name, qs.val + "\n" + Print(qs.rest), '=');
      if qs.rest.Pair? {
        assert |qs.val| < |ps.val|;
        LongerForges(qs.name, qs.val, qs.rest, ps.val, "");
        assert false;
      }
      assert qs.val + "\n" + Print(qs.rest) == qs.val + "\n" && ps.val + "\n" + "" == ps.val + "\n";
      assert qs.val == (qs.val + "\n")[..|qs.val|] == ps.val;
    } else if qs.Pair? {
      EndsWithNewline(qs);
      assert false;
    }
  }

  lemma {:induction false} PairsCount(ps: Pairs)
    requires Ascending(ps)
    ensures |ToMap(ps)| > 1 <==> ps.Pair? && ps.rest.Pair?
  {
    if ps.Pair? {
      NotBelow(ps.name, ps.rest);
      PairedIsNotEmpty(ps.rest);
      assert |ToMap(ps)| == |ToMap(ps.rest)| + 1;
      assert ps.rest.Pair? ==> |ToMap(ps.rest)| > 0;
    }
  }

  /** Most maps share their key: among properly named maps only a plain map of at most one label has its key alone. */
  lemma AloneIffSinglePlainLabel(m: Labels)
    requires Named(m)
    ensures (forall other: Labels :: Named(other) && GroupKey(other) == GroupKey(m) ==> other == m)
        <==> Plain(m) && |m| <= 1
  {
    var ps := PairsOf(m);
    PairsCount(ps);
    if Plain(m) && |m| <= 1 {
      forall other: Labels | Named(other) && GroupKey(other) == GroupKey(m) ensures other == m {
        OneLabelIsAlone(ps, PairsOf(other));
      }
    } else if !Plain(m) {
      assert PlainForm(m) != m && Named(PlainForm(m));
    } else {
      var qs := TwoLabelsMerge(ps);
      var other := ToMap(qs);
      PairsUnique(PairsOf(other), qs);
      assert Named(other) && GroupKey(other) == GroupKey(m) && other != m;
    }
  }

  lemma ForgersHaveNewlines(name: string, val: string)
    ensures Forges(name, val) ==> '\n' in val
  {
    forall u, n, y | ForgesAt(name, val, u, n, y) ensures '\n' in val {
      assert val[|u|] == '\n';
    }
  }

  lemma {:induction false} NewlineFreePairs(ps: Pairs)
    requires forall k :: k in ToMap(ps) ==> CleanName(k) && '\n' !in ToMap(ps)[k]
    requires Ascending(ps)
    ensures CleanNames(ps) && !SomeForges(ps)
  {
    if ps.Pair? {
      assert ps.name in ToMap(ps) && ToMap(ps)[ps.name] == ps.val;
      NotBelow(ps.name, ps.rest);
      assert forall k :: k in ToMap(ps.rest) ==> k in ToMap(ps) && ToMap(ps)[k] == ToMap(ps.rest)[k];
      NewlineFreePairs(ps.rest);
      ForgersHaveNewlines(ps.name, ps.val);
    }
  }

  /** Values without newlines, under names without `=` and newlines, are plain. */
  lemma NewlineFreeIsPlain(m: Labels)
    requires forall k :: k in m ==> CleanName(k) && '\n' !in m[k]
    ensures Plain(m)
  {
    NewlineFreePairs(PairsOf(m));
  }

  // ---------------------------------------------------------------- grouping

  datatype Line = Line(timestamp: string, level: string, message: string, path: string, errorType: string,
                       errorMessage: string, extra: map<string, string>, occurrences: int, timestamps: seq<string>)

  datatype Entry = Entry(labels: Labels, line: Option<Line>)

  datatype Group = Group(labels: Labels, lines: seq<Option<Line>>)

  ghost function KeyOf(e: Entry): string {
    GroupKey(e.labels)
  }

  function LabelsOf(e: Entry): Labels {
    e.labels
  }

  function Lines(es: seq<Entry>): seq<Option<Line>> {
    if es == [] then [] else Lines(es[..|es| - 1]) + [es[|es| - 1].line]
  }

  /** A group has the labels of an entry of its key, and all lines under the key. */
  ghost predicate IsGroup(es: seq<Entry>, k: string, g: Group) {
    && GroupKey(g.labels) == k
    && g.lines == Lines(Members(es, KeyOf, k))
    && exists e :: e in es && e.labels == g.labels
  }

  /** One group for every key, in the order of their first entries. */
  ghost predicate GroupedByKey(es: seq<Entry>, groups: seq<Group>) {
    && |groups| == |FirstSeen(es, KeyOf)|
    && forall i :: 0 <= i < |groups| ==> IsGroup(es, FirstSeen(es, KeyOf)[i], groups[i])
  }

  function AddLine(g: Group, line: Option<Line>): Group {
    g.(lines := g.lines + [line])
  }

  lemma LinesNext(es: seq<Entry>, e: Entry)
    ensures Lines(es + [e]) == Lines(es) + [e.line]
  {
    assert (es + [e])[..|es|] == es;
  }

  lemma MembersNext(es: seq<Entry>, e: Entry, k: string)
    ensures Members(es + [e], KeyOf, k) == if KeyOf(e) == k then Members(es, KeyOf, k) + [e] else Members(es, KeyOf, k)
  {
    assert (es + [e])[..|es|] == es;
    assert Members(es, KeyOf, k) + [] == Members(es, KeyOf, k);
  }

  lemma GroupGrows(es: seq<Entry>, e: Entry, k: string, g: Group)
    requires IsGroup(es, k, g)
    ensures IsGroup(es + [e], k, if KeyOf(e) == k then AddLine(g, e.line) else g)
  {
    MembersNext(es, e, k);
    LinesNext(Members(es, KeyOf, k), e);
    var x :| x in es && x.labels == g.labels;
    assert x in es + [e];
  }

  lemma GroupOpens(es: seq<Entry>, e: Entry)
    requires KeyOf(e) !in FirstSeen(es, KeyOf)
    ensures IsGroup(es + [e], KeyOf(e), Group(e.labels, [e.line]))
  {
    MembersHaveKey(es, KeyOf, KeyOf(e));
    MembersNext(es, e, KeyOf(e));
    LinesNext([], e);
    assert e in es + [e];
  }

  lemma EntryJoins(es: seq<Entry>, e: Entry, groups: seq<Group>, idx: nat)
    requires GroupedByKey(es, groups) && idx < |groups| && FirstSeen(es, KeyOf)[idx] == KeyOf(e)
    ensures GroupedByKey(es + [e], groups[idx := AddLine(groups[idx], e.line)])
    ensures FirstSeen(es + [e], KeyOf) == FirstSeen(es, KeyOf)
  {
    assert (es + [e])[..|es|] == es;
    FirstSeenIsDistinct(es, KeyOf);
    assert FirstSeen(es + [e], KeyOf) == FirstSeen(es, KeyOf);
    hide FirstSeen, IsGroup, AddLine, KeyOf, Used;
    forall i | 0 <= i < |groups|
      ensures IsGroup(es + [e], FirstSeen(es, KeyOf)[i], groups[idx := AddLine(groups[idx], e.line)][i])
    {
      GroupGrows(es, e, FirstSeen(es, KeyOf)[i], groups[i]);
    }
  }

  lemma EntryOpens(es: seq<Entry>, e: Entry, groups: seq<Group>)
    requires GroupedByKey(es, groups) && KeyOf(e) !in FirstSeen(es, KeyOf)
    ensures GroupedByKey(es + [e], groups + [AddLine(Group(e.labels, []), e.line)])
    ensures FirstSeen(es + [e], KeyOf) == FirstSeen(es, KeyOf) + [KeyOf(e)]
  {
    assert (es + [e])[..|es|] == es;
    GroupOpens(es, e);
    assert AddLine(Group(e.labels, []), e.line) == Group(e.labels, [e.line]);
    forall i | 0 <= i < |groups|
      ensures IsGroup(es + [e], FirstSeen(es, KeyOf)[i], groups[i])
    {
      GroupGrows(es, e, FirstSeen(es, KeyOf)[i], groups[i]);
    }
  }

  /** What the index table of the loop knows. */
  ghost predicate Indexes(keys: seq<string>, index: map<string, nat>) {
    && (forall k :: k in keys ==> k in index)
    && (forall k :: k in index ==> index[k] < |keys| && keys[index[k]] == k)
  }

  lemma IndexesNext(keys: seq<string>, index: map<string, nat>, k: string)
    requires Indexes(keys, index) && k !in index
    ensures Indexes(keys + [k], index[k := |keys|])
  {
  }

  method GroupLogEntriesByLabels(entries: seq<Entry>) returns (groups: seq<Group>)
    ensures GroupedByKey(entries, groups)
  {
    groups := [];
    var groupIndex: map<string, nat> := map[];
    for j := 0 to |entries|
      invariant GroupedByKey(entries[..j], groups)
      invariant Indexes(FirstSeen(entries[..j], KeyOf), groupIndex)
    {
      hide FirstSeen, IsGroup;
      ghost var keys := FirstSeen(entries[..j], KeyOf);
      var e := entries[j];
      var key := LabelsGroupKey(e.labels);
      assert entries[..j + 1] == entries[..j] + [e];
      var idx;
      if key in groupIndex {
        idx := groupIndex[key];
        EntryJoins(entries[..j], e, groups, idx);
      } else {
        idx := |groups|;
        EntryOpens(entries[..j], e, groups);
        IndexesNext(keys, groupIndex, key);
        groupIndex := groupIndex[key := idx];
        groups := groups + [Group(e.labels, [])];
      }
      groups := groups[idx := AddLine(groups[idx], e.line)];
    }
    assert entries[..|entries|] == entries;
  }

  // ---------------------------------------------------------------- the stable partition

  lemma {:induction false} KeysFollowLabels(es: seq<Entry>)
    requires forall e :: e in es ==> Plain(e.labels)
    ensures |FirstSeen(es, KeyOf)| == |FirstSeen(es, LabelsOf)|
    ensures forall i :: 0 <= i < |FirstSeen(es, KeyOf)| ==>
              Plain(FirstSeen(es, LabelsOf)[i]) && FirstSeen(es, KeyOf)[i] == GroupKey(FirstSeen(es, LabelsOf)[i])
  {
    if es != [] {
      var n := |es| - 1;
      KeysFollowLabels(es[..n]);
      var keys, maps, m := FirstSeen(es[..n], KeyOf), FirstSeen(es[..n], LabelsOf), es[n].labels;
      assert Plain(m);
      forall i | 0 <= i < |keys| ensures keys[i] == KeyOf(es[n]) <==> maps[i] == m {
        GroupKeyTellsPlainMapsApart(maps[i], m);
      }
      assert KeyOf(es[n]) in keys <==> m in maps by {
        if m in maps {
          var i :| 0 <= i < |maps| && maps[i] == m;
          assert keys[i] == KeyOf(es[n]);
        }
      }
    }
  }

  lemma {:induction false} SameMembers(es: seq<Entry>, m: Labels)
    requires Plain(m) && forall e :: e in es ==> Plain(e.labels)
    ensures Members(es, KeyOf, GroupKey(m)) == Members(es, LabelsOf, m)
  {
    if es != [] {
      SameMembers(es[..|es| - 1], m);
      GroupKeyTellsPlainMapsApart(es[|es| - 1].labels, m);
    }
  }

  /** For plain labels the groups are the stable partition of the entries by their label maps. */
  lemma GroupsPartitionByLabels(es: seq<Entry>, groups: seq<Group>)
    requires GroupedByKey(es, groups) && forall e :: e in es ==> Plain(e.labels)
    ensures |groups| == |FirstSeen(es, LabelsOf)|
    ensures forall i :: 0 <= i < |groups| ==>
              groups[i] == Group(FirstSeen(es, LabelsOf)[i], Lines(Members(es, LabelsOf, FirstSeen(es, LabelsOf)[i])))
  {
    KeysFollowLabels(es);
    forall i | 0 <= i < |groups|
      ensures groups[i] == Group(FirstSeen(es, LabelsOf)[i], Lines(Members(es, LabelsOf, FirstSeen(es, LabelsOf)[i])))
    {
      var m := FirstSeen(es, LabelsOf)[i];
      assert IsGroup(es, GroupKey(m), groups[i]);
      SameMembers(es, m);
      var e :| e in es && e.labels == groups[i].labels;
      GroupKeyTellsPlainMapsApart(groups[i].labels, m);
    }
  }

  function AllLines(groups: seq<Group>): seq<Option<Line>> {
    if groups == [] then [] else AllLines(groups[..|groups| - 1]) + groups[|groups| - 1].lines
  }

  lemma {:induction false} LinesAppend(a: seq<Entry>, b: seq<Entry>)
    ensures Lines(a + b) == Lines(a) + Lines(b)
  {
    if b == [] {
      assert a + b == a;
    } else {
      assert (a + b)[..|a + b| - 1] == a + b[..|b| - 1];
      LinesAppend(a, b[..|b| - 1]);
    }
  }

  lemma {:induction false} AllLinesGathered(es: seq<Entry>, keys: seq<string>, groups: seq<Group>)
    requires |groups| == |keys|
    requires forall i :: 0 <= i < |groups| ==> groups[i].lines == Lines(Members(es, KeyOf, keys[i]))
    ensures AllLines(groups) == Lines(Gathered(es, KeyOf, keys))
  {
    if keys != [] {
      var n := |keys| - 1;
      AllLinesGathered(es, keys[..n], groups[..n]);
      LinesAppend(Gathered(es, KeyOf, keys[..n]), Members(es, KeyOf, keys[n]));
    }
  }

  lemma TakenOut<T>(b: seq<T>, i: nat)
    requires i < |b|
    ensures multiset(b[..i] + b[i + 1..]) == multiset(b) - multiset{b[i]}
  {
    assert b == b[..i] + [b[i]] + b[i + 1..];
  }

  lemma InTheMiddle<T>(p: seq<T>, x: T, q: seq<T>)
    ensures multiset((p + [x]) + q) == multiset(p + q) + multiset{x}
  {
  }

  ghost function Bag(es: seq<Entry>): multiset<Option<Line>> {
    multiset(Lines(es))
  }

  lemma BagAround(p: seq<Entry>, x: Entry, q: seq<Entry>)
    ensures Bag((p + [x]) + q) == Bag(p + q) + multiset{x.line}
  {
    LinesAppend(p, q);
    LinesAppend(p + [x], q);
    LinesNext(p, x);
    InTheMiddle(Lines(p), x.line, Lines(q));
  }

  lemma BagTakenOut(b: seq<Entry>, i: nat)
    requires i < |b|
    ensures Bag(b) == Bag(b[..i] + b[i + 1..]) + multiset{b[i].line}
  {
    hide *;
    BagAround(b[..i], b[i], b[i + 1..]);
    assert b == (b[..i] + [b[i]]) + b[i + 1..];
  }

  lemma {:induction false} BagOfPermutation(a: seq<Entry>, b: seq<Entry>)
    requires multiset(a) == multiset(b)
    ensures Bag(a) == Bag(b)
  {
    if a == [] {
      assert |multiset(b)| == 0;
    } else {
      hide *;
      var n := |a| - 1;
      assert a[n] in multiset(b);
      var i :| 0 <= i < |b| && b[i] == a[n];
      TakenOut(a, n);
      TakenOut(b, i);
      BagOfPermutation(a[..n] + a[n + 1..], b[..i] + b[i + 1..]);
      BagTakenOut(a, n);
      BagTakenOut(b, i);
    }
  }

  /** Grouping conserves the lines: each entry's line is in one group, once. */
  lemma GroupingConservesLines(es: seq<Entry>, groups: seq<Group>)
    requires GroupedByKey(es, groups)
    ensures multiset(AllLines(groups)) == multiset(Lines(es))
  {
    GroupsConserve(es, KeyOf);
    forall i | 0 <= i < |groups| ensures groups[i].lines == Lines(Members(es, KeyOf, FirstSeen(es, KeyOf)[i])) {
      assert IsGroup(es, FirstSeen(es, KeyOf)[i], groups[i]);
    }
    AllLinesGathered(es, FirstSeen(es, KeyOf), groups);
    BagOfPermutation(Gathered(es, KeyOf, FirstSeen(es, KeyOf)), es);
  }

  // ---------------------------------------------------------------- deduplication

  function MessageMark(): string { "\nmessage=" }
  function PathMark(): string { "\npath=" }
  function TypeMark(): string { "\nerror_type=" }
  function DetailMark(): string { "\nerror_message=" }

  /** `logDedupKey` of a line that is there. */
  function DedupKey(l: Line): string {
    var key := "level=" + l.level + MessageMark() + l.message;
    if l.level == "error" then key + (PathMark() + l.path + TypeMark() + l.errorType + DetailMark() + l.errorMessage)
    else key
  }

  function FirstCopy(l: Line): Line {
    if l.timestamp != "" then l.(occurrences := 1, timestamps := [l.timestamp], timestamp := "")
    else l.(occurrences := 1)
  }

  function Repeat(x: Line, l: Line): Line {
    x.(occurrences := x.occurrences + 1,
       timestamps := x.timestamps + if l.timestamp != "" then [l.timestamp] else [],
       timestamp := "")
  }

  /** The line that stands for all lines of one key. */
  function Merged(ms: seq<Line>): Line
    requires ms != []
  {
    if |ms| == 1 then FirstCopy(ms[0]) else Repeat(Merged(ms[..|ms| - 1]), ms[|ms| - 1])
  }

  /** The timestamps that are not empty, in order. */
  function Stamps(ms: seq<Line>): seq<string> {
    if ms == [] then [] else Stamps(ms[..|ms| - 1]) + if ms[|ms| - 1].timestamp != "" then [ms[|ms| - 1].timestamp]
    else []
  }

  /**
   The first line with the count of all and the timestamps of all; a first line that has no timestamp keeps its list.
   */
  lemma {:induction false} MergedCollects(ms: seq<Line>)
    requires ms != []
    ensures Merged(ms) == ms[0].(occurrences := |ms|, timestamp := "",
                                 timestamps := (if ms[0].timestamp == "" then ms[0].timestamps else []) + Stamps(ms))
  {
    if |ms| == 1 {
      assert ms[..0] == [];
      assert Stamps(ms) == Stamps([]) + (if ms[0].timestamp != "" then [ms[0].timestamp] else []);
      assert ms[0].timestamps + [] == ms[0].timestamps;
    } else {
      var n := |ms| - 1;
      MergedCollects(ms[..n]);
      var kept := if ms[0].timestamp == "" then ms[0].timestamps else [];
      var last := if ms[n].timestamp != "" then [ms[n].timestamp] else [];
      assert (kept + Stamps(ms[..n])) + last == kept + (Stamps(ms[..n]) + last);
    }
  }

  // ---------------------------------------------------------------- summary of timestamps

  function Lowest(ts: seq<string>): string
    requires ts != []
  {
    if |ts| == 1 then ts[0]
    else
      var before := Lowest(ts[..|ts| - 1]);
      if Less(ts[|ts| - 1], before) then ts[|ts| - 1] else before
  }

  function Highest(ts: seq<string>): string
    requires ts != []
  {
    if |ts| == 1 then ts[0]
    else
      var before := Highest(ts[..|ts| - 1]);
      if Less(before, ts[|ts| - 1]) then ts[|ts| - 1] else before
  }

  lemma {:induction false} LowestAndHighest(ts: seq<string>)
    requires ts != []
    ensures Lowest(ts) in ts && Highest(ts) in ts
    ensures forall t :: t in ts ==> !Less(t, Lowest(ts)) && !Less(Highest(ts), t)
  {
    if |ts| == 1 {
      LessTotal(ts[0], ts[0]);
    } else {
      var n := |ts| - 1;
      LowestAndHighest(ts[..n]);
      var low, high := Lowest(ts[..n]), Highest(ts[..n]);
      LessTotal(ts[n], low);
      LessTotal(high, ts[n]);
      LessTotal(ts[n], ts[n]);
      forall t | t in ts ensures !Less(t, Lowest(ts)) && !Less(Highest(ts), t) {
        if t in ts[..n] {
          if Less(t, ts[n]) && Less(ts[n], low) {
            LessTransitive(t, ts[n], low);
          }
          if Less(ts[n], t) && Less(high, ts[n]) {
            LessTransitive(high, ts[n], t);
          }
        }
      }
    }
  }

  function Summary(level: string, ts: seq<string>): seq<string> {
    if |ts| <= 1 || (level != "info" && level != "debug") then ts
    else if Lowest(ts) == Highest(ts) then [Lowest(ts)]
    else [Lowest(ts), Highest(ts)]
  }

  method SummarizeLineTimestamps(level: string, timestamps: seq<string>) returns (r: seq<string>)
    ensures r == Summary(level, timestamps)
  {
    if |timestamps| <= 1 {
      return timestamps;
    }
    if level != "info" && level != "debug" {
      return timestamps;
    }
    var start, end := timestamps[0], timestamps[0];
    for i := 1 to |timestamps|
      invariant start == Lowest(timestamps[..i]) && end == Highest(timestamps[..i])
    {
      assert timestamps[..i + 1][..i] == timestamps[..i];
      var ts := timestamps[i];
      if Less(ts, start) {
        start := ts;
      }
      if Less(end, ts) {
        end := ts;
      }
    }
    assert timestamps[..|timestamps|] == timestamps;
    r := if start == end then [start] else [start, end];
  }

  // ---------------------------------------------------------------- deduplication of a group

  function Present(ls: seq<Option<Line>>): seq<Line> {
    if ls == [] then []
    else Present(ls[..|ls| - 1]) + if ls[|ls| - 1].Some? then [ls[|ls| - 1].value] else []
  }

  function Summarized(l: Line): Line {
    l.(timestamps := Summary(l.level, l.timestamps))
  }

  /** For every key, in the order of first use, the line that stands for its lines. */
  ghost predicate MergedByKey(ls: seq<Line>, ds: seq<Line>) {
    && |ds| == |FirstSeen(ls, DedupKey)|
    && forall i :: 0 <= i < |ds| ==> IsMerge(ls, FirstSeen(ls, DedupKey)[i], ds[i])
  }

  ghost predicate IsMerge(ls: seq<Line>, k: string, d: Line) {
    Members(ls, DedupKey, k) != [] && d == Merged(Members(ls, DedupKey, k))
  }

  lemma LinesOfKeyNext(ls: seq<Line>, l: Line, k: string)
    ensures Members(ls + [l], DedupKey, k)
        == if DedupKey(l) == k then Members(ls, DedupKey, k) + [l] else Members(ls, DedupKey, k)
  {
    assert (ls + [l])[..|ls|] == ls;
    assert Members(ls, DedupKey, k) + [] == Members(ls, DedupKey, k);
  }

  lemma MergeGrows(ls: seq<Line>, l: Line, k: string, d: Line)
    requires IsMerge(ls, k, d)
    ensures IsMerge(ls + [l], k, if DedupKey(l) == k then Repeat(d, l) else d)
  {
    LinesOfKeyNext(ls, l, k);
    var ms := Members(ls, DedupKey, k);
    assert (ms + [l])[..|ms|] == ms;
  }

  lemma LineRepeats(ls: seq<Line>, l: Line, ds: seq<Line>, idx: nat)
    requires MergedByKey(ls, ds) && idx < |ds| && FirstSeen(ls, DedupKey)[idx] == DedupKey(l)
    ensures MergedByKey(ls + [l], ds[idx := Repeat(ds[idx], l)])
    ensures FirstSeen(ls + [l], DedupKey) == FirstSeen(ls, DedupKey)
  {
    assert (ls + [l])[..|ls|] == ls;
    FirstSeenIsDistinct(ls, DedupKey);
    forall i | 0 <= i < |ds|
      ensures IsMerge(ls + [l], FirstSeen(ls, DedupKey)[i], ds[idx := Repeat(ds[idx], l)][i])
    {
      MergeGrows(ls, l, FirstSeen(ls, DedupKey)[i], ds[i]);
    }
  }

  lemma LineOpens(ls: seq<Line>, l: Line, ds: seq<Line>)
    requires MergedByKey(ls, ds) && DedupKey(l) !in FirstSeen(ls, DedupKey)
    ensures MergedByKey(ls + [l], ds + [FirstCopy(l)])
    ensures FirstSeen(ls + [l], DedupKey) == FirstSeen(ls, DedupKey) + [DedupKey(l)]
  {
    assert (ls + [l])[..|ls|] == ls;
    MembersHaveKey(ls, DedupKey, DedupKey(l));
    LinesOfKeyNext(ls, l, DedupKey(l));
    assert [] + [l] == [l];
    forall i | 0 <= i < |ds|
      ensures IsMerge(ls + [l], FirstSeen(ls, DedupKey)[i], ds[i])
    {
      MergeGrows(ls, l, FirstSeen(ls, DedupKey)[i], ds[i]);
    }
  }

  ghost predicate IsSummary(ls: seq<Line>, k: string, d: Line) {
    Members(ls, DedupKey, k) != [] && d == Summarized(Merged(Members(ls, DedupKey, k)))
  }

  /** The deduplicated lines of one group. */
  ghost predicate Deduplicated(ls: seq<Line>, ds: seq<Line>) {
    && |ds| == |FirstSeen(ls, DedupKey)|
    && forall i :: 0 <= i < |ds| ==> IsSummary(ls, FirstSeen(ls, DedupKey)[i], ds[i])
  }

  method MergeLines(lines: seq<Option<Line>>) returns (ds: seq<Line>)
    ensures MergedByKey(Present(lines), ds)
  {
    ds := [];
    var indexByKey: map<string, nat> := map[];
    for j := 0 to |lines|
      invariant MergedByKey(Present(lines[..j]), ds)
      invariant Indexes(FirstSeen(Present(lines[..j]), DedupKey), indexByKey)
    {
      assert lines[..j + 1][..j] == lines[..j];
      ghost var before := Present(lines[..j]);
      assert lines[j].Some? ==> Present(lines[..j + 1]) == before + [lines[j].value];
      assert lines[j].None? ==> Present(lines[..j + 1]) == before;
      hide Present, FirstSeen, IsMerge;
      if lines[j].None? {
        continue;
      }
      var l := lines[j].value;
      var key := DedupKey(l);
      if key in indexByKey {
        var idx := indexByKey[key];
        LineRepeats(before, l, ds, idx);
        ds := ds[idx := Repeat(ds[idx], l)];
        continue;
      }
      LineOpens(before, l, ds);
      IndexesNext(FirstSeen(before, DedupKey), indexByKey, key);
      indexByKey := indexByKey[key := |ds|];
      ds := ds + [FirstCopy(l)];
    }
    assert lines[..|lines|] == lines;
  }

  method DeduplicateLines(lines: seq<Option<Line>>) returns (ds: seq<Line>)
    ensures Deduplicated(Present(lines), ds)
  {
    ds := MergeLines(lines);
    ghost var merged := ds;
    for i := 0 to |ds|
      invariant |ds| == |merged|
      invariant forall j :: 0 <= j < i ==> ds[j] == Summarized(merged[j])
      invariant forall j :: i <= j < |ds| ==> ds[j] == merged[j]
    {
      var ts := SummarizeLineTimestamps(ds[i].level, ds[i].timestamps);
      ds := ds[i := ds[i].(timestamps := ts)];
    }
    forall i | 0 <= i < |ds|
      ensures IsSummary(Present(lines), FirstSeen(Present(lines), DedupKey)[i], ds[i])
    {
      assert IsMerge(Present(lines), FirstSeen(Present(lines), DedupKey)[i], merged[i]);
    }
  }

  // ---------------------------------------------------------------- what deduplication keeps

  function Total(ds: seq<Line>): int {
    if ds == [] then 0 else Total(ds[..|ds| - 1]) + ds[|ds| - 1].occurrences
  }

  lemma SummaryOfKey(ls: seq<Line>, k: string, d: Line)
    requires IsSummary(ls, k, d)
    ensures var ms := Members(ls, DedupKey, k);
            && ms != [] && DedupKey(ms[0]) == k && DedupKey(d) == k
            && d == ms[0].(occurrences := |ms|, timestamp := "",
                           timestamps := Summary(d.level,
                                                 (if ms[0].timestamp == "" then ms[0].timestamps else []) + Stamps(ms)))
  {
    MembersHaveKey(ls, DedupKey, k);
    MergedCollects(Members(ls, DedupKey, k));
  }

  lemma {:induction false} TotalGathered(ls: seq<Line>, keys: seq<string>, ds: seq<Line>)
    requires |ds| == |keys| && forall i :: 0 <= i < |ds| ==> IsSummary(ls, keys[i], ds[i])
    ensures Total(ds) == |Gathered(ls, DedupKey, keys)|
  {
    if ds != [] {
      var n := |ds| - 1;
      TotalGathered(ls, keys[..n], ds[..n]);
      SummaryOfKey(ls, keys[n], ds[n]);
    }
  }

  lemma SameSize<T>(a: seq<T>, b: seq<T>)
    requires multiset(a) == multiset(b)
    ensures |a| == |b|
  {
    assert |multiset(a)| == |a| && |multiset(b)| == |b|;
  }

  /**
   Deduplication conserves the lines of a group: occurrences add up to the lines; and the surviving lines
   are one for each key, in the order of first use.
   */
  lemma DeduplicationConserves(ls: seq<Line>, ds: seq<Line>)
    requires Deduplicated(ls, ds)
    ensures Total(ds) == |ls|
    ensures forall i :: 0 <= i < |ds| ==> DedupKey(ds[i]) == FirstSeen(ls, DedupKey)[i]
    ensures forall i, j :: 0 <= i < j < |ds| ==> DedupKey(ds[i]) != DedupKey(ds[j])
  {
    var keys := FirstSeen(ls, DedupKey);
    TotalGathered(ls, keys, ds);
    GroupsConserve(ls, DedupKey);
    SameSize(Gathered(ls, DedupKey, keys), ls);
    FirstSeenIsDistinct(ls, DedupKey);
    forall i | 0 <= i < |ds| ensures DedupKey(ds[i]) == keys[i] {
      SummaryOfKey(ls, keys[i], ds[i]);
    }
  }

  /** The summary is the list itself, or its earliest and latest entry. */
  ghost predicate Spans(level: string, stamps: seq<string>, r: seq<string>) {
    if |stamps| <= 1 || (level != "info" && level != "debug") then r == stamps
    else
      && 1 <= |r| <= 2 && r[0] in stamps && r[|r| - 1] in stamps
      && (|r| == 2 ==> r[0] != r[1])
      && forall t :: t in stamps ==> !Less(t, r[0]) && !Less(r[|r| - 1], t)
  }

  lemma SummarySpans(level: string, stamps: seq<string>)
    ensures Spans(level, stamps, Summary(level, stamps))
  {
    if |stamps| > 1 {
      LowestAndHighest(stamps);
    }
  }

  /** For lines fresh from Loki, which have no list of timestamps: what becomes of the timestamps of a key. */
  lemma TimestampsKept(ls: seq<Line>, k: string, d: Line)
    requires IsSummary(ls, k, d) && forall l :: l in ls ==> l.timestamps == []
    ensures d.timestamp == "" && Spans(d.level, Stamps(Members(ls, DedupKey, k)), d.timestamps)
  {
    var ms := Members(ls, DedupKey, k);
    SummaryOfKey(ls, k, d);
    MembersFrom(ls, k);
    assert ms[0] in ls;
    assert [] + Stamps(ms) == Stamps(ms);
    SummarySpans(d.level, Stamps(ms));
    hide *;
  }

  lemma {:induction false} MembersFrom(ls: seq<Line>, k: string)
    ensures forall l :: l in Members(ls, DedupKey, k) ==> l in ls
  {
    if ls != [] {
      MembersFrom(ls[..|ls| - 1], k);
    }
  }

  // ---------------------------------------------------------------- when deduplication keys coincide

  /** Marks stand on a new line, and have one newline. */
  predicate IsMark(mark: string) {
    mark != "" && mark[0] == '\n' && forall i :: 0 < i < |mark| ==> mark[i] != '\n'
  }

  lemma MarksAreMarks()
    ensures IsMark(MessageMark()) && IsMark(PathMark()) && IsMark(TypeMark()) && IsMark(DetailMark())
  {
  }

  predicate Contains(s: string, mark: string) {
    |mark| <= |s| && (s[..|mark|] == mark || (s != "" && Contains(s[1..], mark)))
  }

  datatype Cut = Uncut | Cut(front: string, back: string)

  /** The text before and behind the first place of a mark. */
  function FirstCut(s: string, mark: string): Cut {
    if |s| < |mark| || s == "" then Uncut
    else if s[..|mark|] == mark then Cut("", s[|mark|..])
    else
      match FirstCut(s[1..], mark)
      case Uncut => Uncut
      case Cut(front, back) => Cut([s[0]] + front, back)
  }

  lemma {:induction false} FirstCutCuts(s: string, mark: string)
    requires IsMark(mark)
    ensures var c := FirstCut(s, mark);
            && (c.Cut? <==> Contains(s, mark))
            && (c.Cut? ==> s == c.front + mark + c.back && !Contains(c.front, mark))
  {
    if |mark| <= |s| && s[..|mark|] != mark {
      FirstCutCuts(s[1..], mark);
      if FirstCut(s[1..], mark).Cut? {
        CutLater(s, mark, FirstCut(s[1..], mark).front, FirstCut(s[1..], mark).back);
      }
    }
  }

  lemma CutLater(s: string, mark: string, front: string, back: string)
    requires s != "" && |mark| <= |s| && s[..|mark|] != mark && mark != ""
    requires s[1..] == front + mark + back && !Contains(front, mark)
    ensures s == ([s[0]] + front) + mark + back && !Contains([s[0]] + front, mark)
  {
    var longer := [s[0]] + front;
    assert s == [s[0]] + s[1..] == longer + mark + back;
    assert longer[1..] == front;
    assert |mark| <= |longer| ==> longer[..|mark|] == s[..|mark|];
  }

  /** A mark behind a text that does not contain it is the first one: a mark does not overlap itself. */
  lemma {:induction false} CutAtFirst(a: string, mark: string, x: string)
    requires IsMark(mark) && !Contains(a, mark)
    ensures FirstCut(a + mark + x, mark) == Cut(a, x)
  {
    var s := a + mark + x;
    if a == "" {
      assert s[..|mark|] == mark && s[|mark|..] == x;
    } else {
      CutAtFirst(a[1..], mark, x);
      assert s[1..] == a[1..] + mark + x;
      assert a == [s[0]] + a[1..];
      if |mark| <= |a| {
        assert s[..|mark|] == a[..|mark|];
      } else {
        assert s[..|mark|][|a|] == '\n' != mark[|a|];
      }
    }
  }

  /** The first cut is not behind any other. */
  lemma {:induction false} CutNotBehind(a: string, mark: string, x: string) returns (more: string)
    requires IsMark(mark)
    ensures FirstCut(a + mark + x, mark).Cut? && FirstCut(a + mark + x, mark).back == more + x
  {
    var s := a + mark + x;
    assert a == "" ==> s == mark + x;
    if s[..|mark|] == mark {
      more := s[|mark|..|a + mark|];
    } else {
      assert s[1..] == a[1..] + mark + x;
      more := CutNotBehind(a[1..], mark, x);
    }
  }

  /** What two lines must share to be merged. */
  predicate SameContent(a: Line, b: Line) {
    && a.level == b.level && a.message == b.message
    && (a.level == "error" ==> a.path == b.path && a.errorType == b.errorType && a.errorMessage == b.errorMessage)
  }

  /** The fields of an error that its key closes with a mark. */
  function ErrorText(message: string, path: string, errorType: string, errorMessage: string): string {
    message + PathMark() + (path + TypeMark() + (errorType + DetailMark() + errorMessage))
  }

  /** What the key says behind the first mark. */
  function Rest(l: Line): string {
    if l.level == "error" then ErrorText(l.message, l.path, l.errorType, l.errorMessage) else l.message
  }

  lemma Regroup(k: string, l: string, mark: string, m: string, pm: string, p: string, em: string, e: string, dm: string,
                d: string)
    ensures k + l + mark + m + (pm + p + em + e + dm + d) == k + (l + mark + (m + pm + (p + em + (e + dm + d))))
    ensures k + l + mark + m == k + (l + mark + m)
  {
    assert pm + p + em + e + dm + d == pm + (p + em + (e + dm + d));
    assert k + l + mark + m == k + (l + mark + m);
  }

  lemma DedupKeyParts(l: Line)
    ensures DedupKey(l) == "level=" + (l.level + MessageMark() + Rest(l))
  {
    hide MessageMark, PathMark, TypeMark, DetailMark;
    Regroup("level=", l.level, MessageMark(), l.message, PathMark(), l.path, TypeMark(), l.errorType, DetailMark(),
            l.errorMessage);
  }

  lemma SameKeySameParts(a: Line, b: Line)
    ensures DedupKey(a) == DedupKey(b) <==> a.level + MessageMark() + Rest(a) == b.level + MessageMark() + Rest(b)
  {
    DedupKeyParts(a);
    DedupKeyParts(b);
    var x, y := a.level + MessageMark() + Rest(a), b.level + MessageMark() + Rest(b);
    assert x == ("level=" + x)[6..] && y == ("level=" + y)[6..];
  }

  /** Whether a text can be read as the fields of an error: the three marks follow each other in it. */
  predicate ErrorShaped(t: string) {
    var path := FirstCut(t, PathMark());
    path.Cut? &&
    var kind := FirstCut(path.back, TypeMark());
    kind.Cut? && FirstCut(kind.back, DetailMark()).Cut?
  }

  /**
   No field contains the mark that closes it. One level is an exception: "error", the first mark and a text without
   that mark. The key then reads like that of an error, and the line forges nothing if what follows is not the
   fields of an error. The last field of a key may contain anything.
   */
  predicate Unforged(l: Line) {
    if l.level == "error" then
      !Contains(l.message, PathMark()) && !Contains(l.path, TypeMark()) && !Contains(l.errorType, DetailMark())
    else
      var c := FirstCut(l.level, MessageMark());
      c.Cut? ==>
        && c.front == "error" && !Contains(c.back, MessageMark())
        && !ErrorShaped(c.back + MessageMark() + l.message)
  }

  function ReadError(l: Line, t: string): Line
    requires ErrorShaped(t)
  {
    var path := FirstCut(t, PathMark());
    var kind := FirstCut(path.back, TypeMark());
    var detail := FirstCut(kind.back, DetailMark());
    l.(level := "error", message := path.front, path := kind.front, errorType := detail.front,
       errorMessage := detail.back)
  }

  /** The line that a reader of the key takes it for who looks for the first place of every mark. */
  function Reading(l: Line): Line {
    var c := FirstCut(l.level + MessageMark() + Rest(l), MessageMark());
    if c.Uncut? then l
    else if c.front != "error" then l.(level := c.front, message := c.back)
    else if ErrorShaped(c.back) then ReadError(l, c.back)
    else
      var d := FirstCut(c.back, MessageMark());
      if d.Uncut? then l else l.(level := "error" + MessageMark() + d.front, message := d.back)
  }

  lemma {:induction false} ErrorTextIsShaped(m: string, p: string, e: string, d: string)
    ensures ErrorShaped(ErrorText(m, p, e, d))
  {
    MarksAreMarks();
    var more := CutNotBehind(m, PathMark(), p + TypeMark() + (e + DetailMark() + d));
    assert more + (p + TypeMark() + (e + DetailMark() + d)) == (more + p) + TypeMark() + (e + DetailMark() + d);
    var more' := CutNotBehind(more + p, TypeMark(), e + DetailMark() + d);
    assert more' + (e + DetailMark() + d) == (more' + e) + DetailMark() + d;
    var _ := CutNotBehind(more' + e, DetailMark(), d);
  }

  lemma ErrorReadBack(l: Line)
    requires l.level == "error" && Unforged(l)
    ensures ErrorShaped(Rest(l)) && ReadError(l, Rest(l)) == l
  {
    MarksAreMarks();
    hide MessageMark, PathMark, TypeMark, DetailMark;
    CutAtFirst(l.message, PathMark(), l.path + TypeMark() + (l.errorType + DetailMark() + l.errorMessage));
    CutAtFirst(l.path, TypeMark(), l.errorType + DetailMark() + l.errorMessage);
    CutAtFirst(l.errorType, DetailMark(), l.errorMessage);
  }

  lemma ReadErrorPrints(l: Line, t: string)
    requires ErrorShaped(t)
    ensures Rest(ReadError(l, t)) == t && Unforged(ReadError(l, t))
  {
    MarksAreMarks();
    hide MessageMark, PathMark, TypeMark, DetailMark;
    var path := FirstCut(t, PathMark());
    var kind := FirstCut(path.back, TypeMark());
    FirstCutCuts(t, PathMark());
    FirstCutCuts(path.back, TypeMark());
    FirstCutCuts(kind.back, DetailMark());
  }

  lemma ErrorIsNoMark()
    ensures !Contains("error", MessageMark())
  {
  }

  lemma Around(u: string, mark: string, y: string, x: string)
    ensures (u + mark + y) + mark + x == u + mark + (y + mark + x)
  {
  }

  /** A line that forges nothing is read as itself. */
  lemma UnforgedIsReadBack(l: Line)
    requires Unforged(l)
    ensures SameContent(Reading(l), l)
  {
    var mark := MessageMark();
    MarksAreMarks();
    ErrorIsNoMark();
    var c := FirstCut(l.level, mark);
    FirstCutCuts(l.level, mark);
    if l.level == "error" {
      CutAtFirst(l.level, mark, Rest(l));
      ErrorReadBack(l);
    } else if c.Uncut? {
      CutAtFirst(l.level, mark, l.message);
    } else {
      Around(c.front, mark, c.back, l.message);
      CutAtFirst(c.front, mark, c.back + mark + l.message);
      CutAtFirst(c.back, mark, l.message);
    }
  }

  /** Every line has the key of a line that forges nothing, its reading. */
  lemma ReadingIsUnforged(l: Line)
    ensures Unforged(Reading(l)) && DedupKey(Reading(l)) == DedupKey(l)
  {
    var mark := MessageMark();
    var text := l.level + mark + Rest(l);
    MarksAreMarks();
    ErrorIsNoMark();
    var _ := CutNotBehind(l.level, mark, Rest(l));
    FirstCutCuts(text, mark);
    var c := FirstCut(text, mark);
    FirstCutCuts(c.front, mark);
    SameKeySameParts(Reading(l), l);
    if c.front == "error" {
      if ErrorShaped(c.back) {
        ReadErrorPrints(l, c.back);
      } else {
        SecondMark(l);
        var d := FirstCut(c.back, mark);
        FirstCutCuts(c.back, mark);
        CutAtFirst("error", mark, d.front);
        Around("error", mark, d.front, d.back);
      }
    }
  }

  /** Where the text before the first mark is "error" and no error follows, the level goes on to a later mark. */
  lemma SecondMark(l: Line)
    requires var c := FirstCut(l.level + MessageMark() + Rest(l), MessageMark());
        c.Cut? && c.front == "error" && !ErrorShaped(c.back)
    ensures l.level != "error"
        && FirstCut(FirstCut(l.level + MessageMark() + Rest(l), MessageMark()).back, MessageMark()).Cut?
  {
    var mark := MessageMark();
    MarksAreMarks();
    ErrorIsNoMark();
    if l.level == "error" {
      CutAtFirst(l.level, mark, Rest(l));
      ErrorTextIsShaped(l.message, l.path, l.errorType, l.errorMessage);
      assert false;
    } else {
      FirstCutCuts(l.level, mark);
      var d := FirstCut(l.level, mark);
      if d.Uncut? {
        CutAtFirst(l.level, mark, l.message);
        assert false;
      } else {
        Around(d.front, mark, d.back, l.message);
        CutAtFirst(d.front, mark, d.back + mark + l.message);
        var _ := CutNotBehind(d.back, mark, l.message);
      }
    }
  }

  lemma SameContentSameKey(a: Line, b: Line)
    requires SameContent(a, b)
    ensures DedupKey(a) == DedupKey(b)
  {
  }

  lemma SameKeySameReading(a: Line, b: Line)
    requires DedupKey(a) == DedupKey(b)
    ensures SameContent(Reading(a), Reading(b))
  {
    SameKeySameParts(a, b);
    var mark := MessageMark();
    MarksAreMarks();
    var _ := CutNotBehind(a.level, mark, Rest(a));
    var c := FirstCut(a.level + mark + Rest(a), mark);
    if c.front == "error" && !ErrorShaped(c.back) {
      SecondMark(a);
      SecondMark(b);
    }
    hide MessageMark, PathMark, TypeMark, DetailMark;
  }

  /** Two lines are merged if and only if they have one reading. */
  lemma DedupKeysCoincideIffReadingsDo(a: Line, b: Line)
    ensures DedupKey(a) == DedupKey(b) <==> SameContent(Reading(a), Reading(b))
  {
    ReadingIsUnforged(a);
    ReadingIsUnforged(b);
    if DedupKey(a) == DedupKey(b) {
      SameKeySameReading(a, b);
    } else if SameContent(Reading(a), Reading(b)) {
      SameContentSameKey(Reading(a), Reading(b));
    }
  }

  /** Lines that forge nothing are merged if and only if they have the same content. */
  lemma DedupKeyTellsContentApart(a: Line, b: Line)
    requires Unforged(a) && Unforged(b)
    ensures DedupKey(a) == DedupKey(b) <==> SameContent(a, b)
  {
    UnforgedIsReadBack(a);
    UnforgedIsReadBack(b);
    DedupKeysCoincideIffReadingsDo(a, b);
  }

  /**
   Every key is the key of one unforged content; a line that forges something is merged with a line of that content.
   */
  lemma OneUnforgedContentPerKey(l: Line)
    ensures Unforged(l) <==> forall other :: Unforged(other) && DedupKey(other) == DedupKey(l) ==> SameContent(other, l)
    ensures !Unforged(l) ==> DedupKey(Reading(l)) == DedupKey(l) && Unforged(Reading(l)) && !SameContent(Reading(l), l)
  {
    ReadingIsUnforged(l);
    if Unforged(l) {
      forall other | Unforged(other) && DedupKey(other) == DedupKey(l) ensures SameContent(other, l) {
        DedupKeyTellsContentApart(other, l);
      }
    }
  }

  // ---------------------------------------------------------------- lines that are merged with their like only

  /**
   A line that forges nothing and that no other line forges: behind the first mark the key has no second one, and in
   the key of an error each mark stands once where a reader could look for it.
   */
  predicate Unambiguous(l: Line) {
    && Unforged(l) && !Contains(Rest(l), MessageMark())
    && (l.level == "error" ==>
          !Contains(l.path, PathMark()) && !Contains(l.errorType, TypeMark())
              && !Contains(l.errorMessage, DetailMark()))
  }

  /** A text that contains a mark once is cut there, or nowhere. */
  lemma OnlyCut(a: string, mark: string, x: string, b: string, y: string)
    requires IsMark(mark) && a + mark + x == b + mark + y
    ensures !Contains(a, mark) && !Contains(b, mark) ==> a == b && x == y
    ensures !Contains(a, mark) && Contains(b, mark) ==>
              var c := FirstCut(b, mark); c.Cut? && c.front == a && x == c.back + mark + y
    ensures !Contains(a, mark) && !Contains(x, mark) ==> a == b && x == y
  {
    if !Contains(a, mark) {
      CutAtFirst(a, mark, x);
      if !Contains(b, mark) {
        CutAtFirst(b, mark, y);
      } else {
        var c := FirstCut(b, mark);
        FirstCutCuts(b, mark);
        Around(c.front, mark, c.back, y);
        CutAtFirst(c.front, mark, c.back + mark + y);
        MarkWithin(c.back, mark, y);
      }
    }
  }

  lemma MarkWithin(a: string, mark: string, x: string)
    requires IsMark(mark)
    ensures Contains(a + mark + x, mark)
  {
    var _ := CutNotBehind(a, mark, x);
    FirstCutCuts(a + mark + x, mark);
  }

  /** With one detail mark behind the type, the last two fields can be read in one way. */
  lemma LastFieldsOnce(e: string, d: string, e': string, d': string, x: string)
    requires !Contains(e, DetailMark()) && !Contains(d, DetailMark()) && !Contains(e, TypeMark())
    ensures e + DetailMark() + d == e' + DetailMark() + d' ==> e == e' && d == d'
    ensures e + DetailMark() + d != x + TypeMark() + (e' + DetailMark() + d')
  {
    MarksAreMarks();
    hide PathMark, TypeMark, DetailMark;
    if e + DetailMark() + d == e' + DetailMark() + d' {
      OnlyCut(e, DetailMark(), d, e', d');
    }
    if e + DetailMark() + d == x + TypeMark() + (e' + DetailMark() + d') {
      TwoMarks(x, TypeMark(), e', DetailMark(), d');
      OnlyCut(e, DetailMark(), d, x + TypeMark() + e', d');
      MarkWithin(x, TypeMark(), e');
      assert false;
    }
  }

  lemma PathOnce(p: string, e: string, d: string, p': string, e': string, d': string)
    requires !Contains(p, TypeMark()) && !Contains(e, DetailMark()) && !Contains(d, DetailMark())
        && !Contains(e, TypeMark())
    requires p + TypeMark() + (e + DetailMark() + d) == p' + TypeMark() + (e' + DetailMark() + d')
    ensures p == p' && e == e' && d == d'
  {
    MarksAreMarks();
    hide PathMark, TypeMark, DetailMark;
    OnlyCut(p, TypeMark(), e + DetailMark() + d, p', e' + DetailMark() + d');
    var c := FirstCut(p', TypeMark());
    LastFieldsOnce(e, d, e', d', if c.Cut? then c.back else "");
  }

  lemma TwoMarks(q: string, first: string, p: string, second: string, x: string)
    ensures q + first + (p + second + x) == (q + first + p) + second + x
  {
  }

  /** The fields of an error whose marks stand once can be read in one way. */
  lemma ErrorTextOnce(m: string, p: string, e: string, d: string, m': string, p': string, e': string, d': string)
    requires !Contains(m, PathMark()) && !Contains(p, PathMark()) && !Contains(p, TypeMark())
        && !Contains(e, TypeMark())
    requires !Contains(e, DetailMark()) && !Contains(d, DetailMark())
    requires ErrorText(m, p, e, d) == ErrorText(m', p', e', d')
    ensures m == m' && p == p' && e == e' && d == d'
  {
    MarksAreMarks();
    hide PathMark, TypeMark, DetailMark, Contains, FirstCut, IsMark;
    var rest, rest' := p + TypeMark() + (e + DetailMark() + d), p' + TypeMark() + (e' + DetailMark() + d');
    OnlyCut(m, PathMark(), rest, m', rest');
    if Contains(m', PathMark()) {
      var q := FirstCut(m', PathMark()).back;
      TwoMarks(q, PathMark(), p', TypeMark(), e' + DetailMark() + d');
      PathOnce(p, e, d, q + PathMark() + p', e', d');
      MarkWithin(q, PathMark(), p');
      assert false;
    } else {
      PathOnce(p, e, d, p', e', d');
    }
  }

  lemma UnambiguousIsAlone(l: Line, other: Line)
    requires Unambiguous(l) && DedupKey(other) == DedupKey(l)
    ensures SameContent(other, l)
  {
    var mark := MessageMark();
    MarksAreMarks();
    ErrorIsNoMark();
    SameKeySameParts(l, other);
    FirstCutCuts(l.level, mark);
    FirstCutCuts(other.level, mark);
    hide MessageMark, PathMark, TypeMark, DetailMark;
    var c := FirstCut(l.level, mark);
    if c.Uncut? {
      OnlyCut(l.level, mark, Rest(l), other.level, Rest(other));
      if l.level == "error" {
        ErrorTextOnce(l.message, l.path, l.errorType, l.errorMessage, other.message, other.path, other.errorType,
                      other.errorMessage);
      }
    } else {
      var t := c.back + mark + l.message;
      Around("error", mark, c.back, l.message);
      OnlyCut("error", mark, t, other.level, Rest(other));
      if !Contains(other.level, mark) {
        ErrorTextIsShaped(other.message, other.path, other.errorType, other.errorMessage);
        assert false;
      } else {
        OnlyCut(c.back, mark, l.message, FirstCut(other.level, mark).back, Rest(other));
      }
    }
  }

  /** A line with the same key and another level: the level goes on to a later mark. */
  lemma LevelGoesOn(l: Line) returns (other: Line)
    requires Contains(Rest(l), MessageMark())
    ensures DedupKey(other) == DedupKey(l) && !SameContent(other, l)
  {
    var mark := MessageMark();
    MarksAreMarks();
    FirstCutCuts(Rest(l), mark);
    var c := FirstCut(Rest(l), mark);
    other := l.(level := l.level + mark + c.front, message := c.back);
    assert |other.level| > |l.level| && |other.level| > |"error"|;
    SameKeySameParts(l, other);
    hide MessageMark, PathMark, TypeMark, DetailMark;
    Around(l.level, mark, c.front, c.back);
  }

  /** An error with the same key and other fields: a field goes on to a later mark. */
  lemma FieldGoesOn(l: Line) returns (other: Line)
    requires l.level == "error"
    requires Contains(l.path, PathMark()) || Contains(l.errorType, TypeMark()) || Contains(l.errorMessage, DetailMark())
    ensures DedupKey(other) == DedupKey(l) && !SameContent(other, l)
  {
    MarksAreMarks();
    if Contains(l.path, PathMark()) {
      var a, b := Halves(l.path, PathMark());
      other := l.(message := l.message + PathMark() + a, path := b);
      PathMoves(l, a, b);
    } else if Contains(l.errorType, TypeMark()) {
      var a, b := Halves(l.errorType, TypeMark());
      other := l.(path := l.path + TypeMark() + a, errorType := b);
      TypeMoves(l, a, b);
    } else {
      var a, b := Halves(l.errorMessage, DetailMark());
      other := l.(errorType := l.errorType + DetailMark() + a, errorMessage := b);
      DetailMoves(l, a, b);
    }
    SameKeySameParts(other, l);
    hide *;
  }

  lemma PathMoves(l: Line, a: string, b: string)
    requires l.level == "error" && l.path == a + PathMark() + b
    ensures var other := l.(message := l.message + PathMark() + a, path := b);
            Rest(other) == Rest(l) && !SameContent(other, l)
  {
    MarksAreMarks();
    hide PathMark, TypeMark, DetailMark;
    MovedMark(l.message, PathMark(), a, b, TypeMark() + (l.errorType + DetailMark() + l.errorMessage));
    RestMoves(a + PathMark() + b, TypeMark(), l.errorType + DetailMark() + l.errorMessage);
    RestMoves(b, TypeMark(), l.errorType + DetailMark() + l.errorMessage);
  }

  lemma TypeMoves(l: Line, a: string, b: string)
    requires l.level == "error" && l.errorType == a + TypeMark() + b
    ensures var other := l.(path := l.path + TypeMark() + a, errorType := b);
            Rest(other) == Rest(l) && !SameContent(other, l)
  {
    MarksAreMarks();
    hide PathMark, TypeMark, DetailMark;
    MovedMark(l.path, TypeMark(), a, b, DetailMark() + l.errorMessage);
    RestMoves(a + TypeMark() + b, DetailMark(), l.errorMessage);
    RestMoves(b, DetailMark(), l.errorMessage);
  }

  lemma DetailMoves(l: Line, a: string, b: string)
    requires l.level == "error" && l.errorMessage == a + DetailMark() + b
    ensures var other := l.(errorType := l.errorType + DetailMark() + a, errorMessage := b);
            Rest(other) == Rest(l) && !SameContent(other, l)
  {
    MarksAreMarks();
    hide PathMark, TypeMark, DetailMark;
    MovedMark(l.errorType, DetailMark(), a, b, "");
    assert (a + DetailMark() + b) + "" == a + DetailMark() + b && b + "" == b;
  }

  lemma RestMoves(field: string, mark: string, more: string)
    ensures field + mark + more == field + (mark + more)
  {
  }

  lemma Halves(s: string, mark: string) returns (a: string, b: string)
    requires IsMark(mark) && Contains(s, mark)
    ensures s == a + mark + b && '\n' in s
  {
    FirstCutCuts(s, mark);
    a, b := FirstCut(s, mark).front, FirstCut(s, mark).back;
    assert s[|a|] == mark[0];
  }

  lemma MovedMark(a: string, mark: string, b: string, c: string, more: string)
    ensures a + mark + ((b + mark + c) + more) == (a + mark + b) + mark + (c + more)
    ensures mark != "" ==> a + mark + b != a
  {
    assert mark != "" ==> |a + mark + b| > |a|;
  }

  /** A line is never merged with a line of different content if and only if it is unambiguous. */
  lemma AloneIffUnambiguous(l: Line)
    ensures Unambiguous(l) <==> forall other :: DedupKey(other) == DedupKey(l) ==> SameContent(other, l)
  {
    if Unambiguous(l) {
      forall other | DedupKey(other) == DedupKey(l) ensures SameContent(other, l) {
        UnambiguousIsAlone(l, other);
      }
    } else if !Unforged(l) {
      OneUnforgedContentPerKey(l);
    } else if Contains(Rest(l), MessageMark()) {
      var other := LevelGoesOn(l);
    } else {
      var other := FieldGoesOn(l);
    }
  }

  lemma NoNewlineNoMark(s: string, mark: string)
    requires '\n' !in s && IsMark(mark)
    ensures !Contains(s, mark)
  {
    if Contains(s, mark) {
      var _, _ := Halves(s, mark);
    }
  }

  lemma NoMessageMark(l: Line)
    requires '\n' !in l.message && '\n' !in l.path && '\n' !in l.errorType && '\n' !in l.errorMessage
    ensures !Contains(Rest(l), MessageMark())
  {
    MarksAreMarks();
    NoNewlineNoMark(l.message, MessageMark());
    if l.level == "error" && Contains(Rest(l), MessageMark()) {
      var a, b := Halves(Rest(l), MessageMark());
      assert Rest(l)[|a|] == '\n' && Rest(l)[|a| + 1] == 'm';
      MarkedLines(l.message, l.path, l.errorType, l.errorMessage, |a|);
    }
  }

  lemma MarkedLines(m: string, p: string, e: string, d: string, i: nat)
    requires '\n' !in m && '\n' !in p && '\n' !in e && '\n' !in d
    requires i + 1 < |ErrorText(m, p, e, d)| && ErrorText(m, p, e, d)[i] == '\n'
    ensures ErrorText(m, p, e, d)[i + 1] in {'p', 'e'}
  {
    var last := e + DetailMark() + d;
    var rest := p + TypeMark() + last;
    assert forall k :: 0 <= k < |last| && last[k] == '\n' ==> k == |e| && last[k + 1] == 'e';
    assert forall k :: |p + TypeMark()| <= k < |rest| ==> rest[k] == last[k - |p + TypeMark()|];
    assert forall k :: 0 <= k < |p| ==> rest[k] == p[k];
    assert forall k :: 0 <= k < |rest| && rest[k] == '\n' ==> k + 1 < |rest| && rest[k + 1] == 'e';
  }

  /** Lines whose fields have no newlines are unambiguous. */
  lemma SingleLinesAreUnambiguous(l: Line)
    requires '\n' !in l.level && '\n' !in l.message && '\n' !in l.path && '\n' !in l.errorType
        && '\n' !in l.errorMessage
    ensures Unambiguous(l)
  {
    MarksAreMarks();
    NoMessageMark(l);
    hide MessageMark, PathMark, TypeMark, DetailMark, IsMark;
    NoNewlineNoMark(l.level, MessageMark());
    FirstCutCuts(l.level, MessageMark());
    NoNewlineNoMark(l.message, PathMark());
    NoNewlineNoMark(l.path, PathMark());
    NoNewlineNoMark(l.path, TypeMark());
    NoNewlineNoMark(l.errorType, TypeMark());
    NoNewlineNoMark(l.errorType, DetailMark());
    NoNewlineNoMark(l.errorMessage, DetailMark());
  }

  // ---------------------------------------------------------------- all groups

  function Wrapped(ds: seq<Line>): seq<Option<Line>> {
    seq(|ds|, i requires 0 <= i < |ds| => Some(ds[i]))
  }

  ghost predicate DedupedGroup(before: Group, after: Group) {
    exists ds :: Deduplicated(Present(before.lines), ds) && after == Group(before.labels, Wrapped(ds))
  }

  method DeduplicateGroupedLines(groups: seq<Group>) returns (out: seq<Group>)
    ensures |out| == |groups|
    ensures forall g :: 0 <= g < |groups| ==> DedupedGroup(groups[g], out[g])
  {
    out := groups;
    for gi := 0 to |groups|
      invariant |out| == |groups|
      invariant forall g :: 0 <= g < gi ==> DedupedGroup(groups[g], out[g])
      invariant forall g :: gi <= g < |groups| ==> out[g] == groups[g]
    {
      if |out[gi].lines| == 0 {
        assert Deduplicated(Present(groups[gi].lines), []) && out[gi] == Group(groups[gi].labels, Wrapped([]));
        continue;
      }
      var ds := DeduplicateLines(out[gi].lines);
      out := out[gi := out[gi].(lines := Wrapped(ds))];
    }
  }

  lemma {:induction false} PresentAppend(a: seq<Option<Line>>, b: seq<Option<Line>>)
    ensures Present(a + b) == Present(a) + Present(b)
  {
    if b == [] {
      assert a + b == a;
    } else {
      assert (a + b)[..|a + b| - 1] == a + b[..|b| - 1];
      PresentAppend(a, b[..|b| - 1]);
    }
  }

  lemma {:induction false} PresentCount(ls: seq<Option<Line>>)
    ensures |Present(ls)| == |ls| - multiset(ls)[None]
  {
    if ls != [] {
      var n := |ls| - 1;
      PresentCount(ls[..n]);
      assert ls == ls[..n] + [ls[n]];
    }
  }

  lemma {:induction false} PresentWrapped(ds: seq<Line>)
    ensures Present(Wrapped(ds)) == ds
  {
    if ds != [] {
      var n := |ds| - 1;
      PresentWrapped(ds[..n]);
      assert Wrapped(ds)[..n] == Wrapped(ds[..n]);
      assert ds == ds[..n] + [ds[n]];
    }
  }

  lemma {:induction false} TotalAppend(a: seq<Line>, b: seq<Line>)
    ensures Total(a + b) == Total(a) + Total(b)
  {
    if b == [] {
      assert a + b == a;
    } else {
      assert (a + b)[..|a + b| - 1] == a + b[..|b| - 1];
      TotalAppend(a, b[..|b| - 1]);
    }
  }

  lemma {:induction false} AllGroupsConserve(groups: seq<Group>, out: seq<Group>)
    requires |out| == |groups| && forall g :: 0 <= g < |groups| ==> DedupedGroup(groups[g], out[g])
    ensures Total(Present(AllLines(out))) == |Present(AllLines(groups))|
  {
    if groups != [] {
      var n := |groups| - 1;
      AllGroupsConserve(groups[..n], out[..n]);
      assert DedupedGroup(groups[n], out[n]);
      var ds :| Deduplicated(Present(groups[n].lines), ds) && out[n] == Group(groups[n].labels, Wrapped(ds));
      DeduplicationConserves(Present(groups[n].lines), ds);
      PresentWrapped(ds);
      PresentAppend(AllLines(out[..n]), out[n].lines);
      PresentAppend(AllLines(groups[..n]), groups[n].lines);
      TotalAppend(Present(AllLines(out[..n])), ds);
    }
  }

  /** Grouping and then deduplicating: the occurrences that are left count every entry that has a line, once. */
  lemma PipelineConservesEntries(es: seq<Entry>, groups: seq<Group>, out: seq<Group>)
    requires GroupedByKey(es, groups)
    requires |out| == |groups| && forall g :: 0 <= g < |groups| ==> DedupedGroup(groups[g], out[g])
    ensures Total(Present(AllLines(out))) == |Present(Lines(es))|
  {
    AllGroupsConserve(groups, out);
    GroupingConservesLines(es, groups);
    PresentCount(AllLines(groups));
    PresentCount(Lines(es));
    SameSize(AllLines(groups), Lines(es));
  }
}
