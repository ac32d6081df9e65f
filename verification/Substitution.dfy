/**
 Template variable substitution in panel queries (dashboard_helpers.go).

 The program replaces `$name` occurrences one variable at a time, in whatever order its map
 yields the variables.  This module proves for which queries that order cannot matter.
 */
module Substitution {
  import opened Common

  // ---------------------------------------------------------------- the program

  predicate IsWordChar(b: char) {
    'a' <= b <= 'z' || 'A' <= b <= 'Z' || '0' <= b <= '9' || b == '_'
  }

  /** The word characters by their codes: digits, upper-case letters, the underscore and lower-case letters. */
  lemma WordChars(c: char)
    ensures IsWordChar(c) <==>
              48 <= c as int <= 57 || 65 <= c as int <= 90 || c as int == 95 || 97 <= c as int <= 122
  {
  }

  /** `$name` stands at the front of `s` and is not the start of a longer word. */
  predicate MatchesHere(s: string, name: string) {
    "$" + name <= s && (1 + |name| == |s| || !IsWordChar(s[1 + |name|]))
  }

  /** One left-to-right pass for one variable. */
  function Replace(s: string, name: string, value: string): string {
    if s == "" then ""
    else if MatchesHere(s, name) then value + Replace(s[1 + |name|..], name, value)
    else [s[0]] + Replace(s[1..], name, value)
  }

  lemma ReplaceAt(s: string, i: nat, name: string, value: string)
    requires i < |s|
    ensures MatchesHere(s[i..], name) <==>
              && s[i] == '$' && i + 1 + |name| <= |s| && s[i..i + 1 + |name|] == "$" + name
              && (i + 1 + |name| == |s| || !IsWordChar(s[i + 1 + |name|]))
    ensures Replace(s[i..], name, value) ==
              if MatchesHere(s[i..], name) then value + Replace(s[i + 1 + |name|..], name, value)
              else [s[i]] + Replace(s[i + 1..], name, value)
  {
    var u := s[i..];
    var prefix := "$" + name;
    assert prefix[0] == '$';
    if i + |prefix| <= |s| {
      assert u[..|prefix|] == s[i..i + |prefix|];
      assert u[|prefix|..] == s[i + |prefix|..];
    }
    assert u[1..] == s[i + 1..];
  }

  lemma ReplaceEnds(s: string, name: string, value: string)
    ensures s[0..] == s && Replace(s[|s|..], name, value) == ""
  {
  }

  /** The loop over the bytes of `s` that writes to a builder. */
  method ReplaceSimpleDollarVar(s: string, varName: string, value: string) returns (result: string)
    ensures result == Replace(s, varName, value)
  {
    hide Replace;
    ReplaceEnds(s, varName, value);
    var prefix := "$" + varName;
    var prefixLen := |prefix|;
    result := "";
    var i := 0;
    while i < |s|
      invariant i <= |s|
      invariant Replace(s, varName, value) == result + Replace(s[i..], varName, value)
    {
      ReplaceAt(s, i, varName, value);
      if s[i] == '$' && i + prefixLen <= |s| && s[i..i + prefixLen] == prefix {
        var afterIdx := i + prefixLen;
        if afterIdx == |s| || !IsWordChar(s[afterIdx]) {
          Assoc(result, value, Replace(s[afterIdx..], varName, value));
          result := result + value;
          i := afterIdx;
          continue;
        }
      }
      Assoc(result, [s[i]], Replace(s[i + 1..], varName, value));
      result := result + [s[i]];
      i := i + 1;
    }
  }

  /** The passes for `order`, one after the other. */
  function ReplaceEach(s: string, order: seq<string>, vars: map<string, string>): string
    requires forall n :: n in order ==> n in vars
    decreases |order|
  {
    if order == [] then s
    else ReplaceEach(Replace(s, order[0], vars[order[0]]), order[1..], vars)
  }

  /** `order` is one of the orders in which a loop over a map may visit the names. */
  predicate Enumerates(order: seq<string>, names: set<string>) {
    Distinct(order) && Elems(order) == names
  }

  function Elems<T(==)>(s: seq<T>): set<T> {
    set x | x in s
  }

  /** The map loop of `substituteVariables`, for the order the runtime happens to choose. */
  method SubstituteSimpleVars(query: string, variables: map<string, string>, order: seq<string>)
      returns (result: string)
    requires Enumerates(order, variables.Keys)
    ensures result == ReplaceEach(query, order, variables)
  {
    result := query;
    for k := 0 to |order|
      invariant forall n :: n in order ==> n in variables
      invariant ReplaceEach(result, order[k..], variables) == ReplaceEach(query, order, variables)
    {
      assert order[k..][1..] == order[k + 1..];
      result := ReplaceSimpleDollarVar(result, order[k], variables[order[k]]);
    }
  }

  // ---------------------------------------------------------------- the reference meaning

  /** Length of the longest run of word characters at the front of `s`. */
  function WordRun(s: string): (n: nat)
    ensures n <= |s| && AllWord(s[..n]) && (n == |s| || !IsWordChar(s[n]))
  {
    if s == "" || !IsWordChar(s[0]) then 0
    else
      var m := WordRun(s[1..]);
      assert s[..m + 1] == [s[0]] + s[1..][..m];
      m + 1
  }

  predicate AllWord(s: string) {
    forall i :: 0 <= i < |s| ==> IsWordChar(s[i])
  }

  /** All variables at once: a single pass that reads each `$word` of the query exactly once. */
  function Simultaneous(s: string, vars: map<string, string>): string
    decreases |s|
  {
    if s == "" then ""
    else if s[0] == '$' then
      var n := WordRun(s[1..]);
      var name := s[1..][..n];
      (if name in vars then vars[name] else "$" + name) + Simultaneous(s[1..][n..], vars)
    else [s[0]] + Simultaneous(s[1..], vars)
  }

  // ---------------------------------------------------------------- queries as texts of tokens

  /** A query read as plain characters and `$word` tokens. */
  datatype Text = End | Ch(c: char, rest: Text) | Tok(name: string, rest: Text)

  function Render(t: Text): string {
    match t
    case End => ""
    case Ch(c, r) => [c] + Render(r)
    case Tok(w, r) => "$" + w + Render(r)
  }

  function Parse(s: string): (t: Text)
    ensures Canonical(t) && Render(t) == s
    ensures Opens(t) <==> s != "" && IsWordChar(s[0])
    decreases |s|
  {
    if s == "" then End
    else if s[0] == '$' then
      var n := WordRun(s[1..]);
      assert s == "$" + s[1..][..n] + s[1..][n..];
      Tok(s[1..][..n], Parse(s[1..][n..]))
    else Ch(s[0], Parse(s[1..]))
  }

  /** The text begins with a word character. */
  predicate Opens(t: Text) {
    t.Ch? && IsWordChar(t.c)
  }

  /** Texts as `Parse` yields them: names are maximal words and `$` occurs in tokens only. */
  predicate Canonical(t: Text) {
    match t
    case End => true
    case Ch(c, r) => c != '$' && Canonical(r)
    case Tok(w, r) => AllWord(w) && !Opens(r) && Canonical(r)
  }

  /** The characters of `v` in front of `t`. */
  function Prepend(v: string, t: Text): Text {
    if v == "" then t else Ch(v[0], Prepend(v[1..], t))
  }

  lemma RenderPrepend(v: string, t: Text)
    ensures Render(Prepend(v, t)) == v + Render(t)
  {
  }

  /** What the passes for `names` do to a text when they see its tokens as tokens. */
  function Subst(t: Text, names: set<string>, vars: map<string, string>): Text
    requires names <= vars.Keys
  {
    match t
    case End => End
    case Ch(c, r) => Ch(c, Subst(r, names, vars))
    case Tok(w, r) =>
      if w in names then Prepend(vars[w], Subst(r, names, vars)) else Tok(w, Subst(r, names, vars))
  }

  // ---------------------------------------------------------------- when order cannot matter

  predicate DollarFree(v: string) {
    '$' !in v
  }

  predicate PlainValues(vars: map<string, string>) {
    forall n :: n in vars ==> DollarFree(vars[n])
  }

  predicate WordNames(names: set<string>) {
    forall n :: n in names ==> AllWord(n)
  }

  /** The value of `a`, written right behind `$w`, could complete or spoil the variable `b`. */
  predicate Clash(w: string, a: string, names: set<string>) {
    a in names && w != a && exists b :: b in names && b != a && w <= b
  }

  /** No `$w$a` where `a` is a variable and `w`, not `a` itself, begins the name of another one. */
  predicate ClashFree(t: Text, names: set<string>) {
    match t
    case End => true
    case Ch(_, r) => ClashFree(r, names)
    case Tok(w, r) => !(r.Tok? && Clash(w, r.name, names)) && ClashFree(r, names)
  }

  predicate Safe(query: string, names: set<string>) {
    ClashFree(Parse(query), names)
  }

  predicate NeverMatches(w: string, names: set<string>) {
    forall b :: b in names ==> !(w <= b)
  }

  /** Every token is what each later pass for a name in `names` takes it to be. */
  predicate Settled(t: Text, names: set<string>) {
    match t
    case End => true
    case Ch(c, r) => c != '$' && Settled(r, names)
    case Tok(w, r) =>
      && AllWord(w) && Settled(r, names)
      && (NeverMatches(w, names) || (!Opens(r) && !(r.Tok? && Clash(w, r.name, names))))
  }

  lemma SafeIsSettled(t: Text, names: set<string>)
    requires Canonical(t) && ClashFree(t, names)
    ensures Settled(t, names)
  {
  }

  lemma CanonicalIsSettled(t: Text, x: string)
    requires Canonical(t)
    ensures Settled(t, {x})
  {
  }

  /** Text without `$` passes through unchanged. */
  lemma {:induction false} ReplaceSkips(u: string, s: string, x: string, v: string)
    requires DollarFree(u)
    ensures Replace(u + s, x, v) == u + Replace(s, x, v)
  {
    if u == "" {
      assert u + s == s;
    } else {
      ReplaceSkips(u[1..], s, x, v);
      ReplaceSkipsOne(u[0], u[1..] + s, x, v);
      Assoc([u[0]], u[1..], s);
      Assoc([u[0]], u[1..], Replace(s, x, v));
      assert u == [u[0]] + u[1..];
    }
  }

  lemma ReplaceSkipsOne(c: char, s: string, x: string, v: string)
    requires c != '$'
    ensures Replace([c] + s, x, v) == [c] + Replace(s, x, v)
  {
    assert ([c] + s)[1..] == s;
    assert ("$" + x)[0] == '$';
  }

  /** `t` begins with `x` as a whole word. */
  predicate WordHere(t: string, x: string) {
    x <= t && (|x| == |t| || !IsWordChar(t[|x|]))
  }

  lemma DollarMatch(t: string, x: string)
    ensures MatchesHere("$" + t, x) <==> WordHere(t, x)
  {
    var s := "$" + t;
    assert s[1..] == t && ("$" + x)[1..] == x;
    if x <= t {
      assert s[..1 + |x|] == "$" + x;
    }
  }

  lemma LongerWord(w: string, rest: string, x: string)
    requires AllWord(x) && |w| < |x| && x <= w + rest
    ensures w <= x && rest != "" && IsWordChar(rest[0])
  {
    assert x[|w|] == (w + rest)[|w|];
    assert w == x[..|w|];
  }

  lemma WordMatch(w: string, rest: string, x: string)
    requires AllWord(w) && AllWord(x)
    requires w <= x ==> rest == "" || !IsWordChar(rest[0])
    ensures WordHere(w + rest, x) <==> w == x
  {
    var t := w + rest;
    assert |x| < |w| ==> t[|x|] == w[|x|];
    assert x <= t && |w| == |x| ==> w == x;
    if x <= t && |w| < |x| {
      LongerWord(w, rest, x);
    }
  }

  lemma ReplaceMatch(w: string, s: string, v: string)
    requires MatchesHere("$" + w + s, w)
    ensures Replace("$" + w + s, w, v) == v + Replace(s, w, v)
  {
    assert ("$" + w + s)[1 + |w|..] == s;
  }

  lemma ReplaceMismatch(w: string, s: string, x: string, v: string)
    requires !MatchesHere("$" + w + s, x) && DollarFree(w)
    ensures Replace("$" + w + s, x, v) == "$" + w + Replace(s, x, v)
  {
    assert "$" + w + s == "$" + (w + s);
    assert ("$" + (w + s))[1..] == w + s;
    ReplaceSkips(w, s, x, v);
  }

  lemma WordsArePlain(w: string)
    requires AllWord(w)
    ensures DollarFree(w)
  {
  }

  lemma RenderOpens(t: Text)
    ensures Render(t) != "" && IsWordChar(Render(t)[0]) ==> Opens(t)
  {
  }

  lemma TokenMatch(w: string, r: Text, names: set<string>, x: string)
    requires Settled(Tok(w, r), names) && x in names && AllWord(x)
    ensures MatchesHere("$" + w + Render(r), x) <==> w == x
  {
    var s := Render(r);
    RenderOpens(r);
    assert "$" + w + s == "$" + (w + s);
    DollarMatch(w + s, x);
    WordMatch(w, s, x);
  }

  /** A pass acts on the tokens of a settled text. */
  lemma {:induction false} ReplaceTokens(t: Text, names: set<string>, x: string, vars: map<string, string>)
    requires Settled(t, names) && x in names && AllWord(x) && x in vars
    ensures Replace(Render(t), x, vars[x]) == Render(Subst(t, {x}, vars))
  {
    match t
    case End =>
    case Ch(c, r) =>
      ReplaceTokens(r, names, x, vars);
      ReplaceSkipsOne(c, Render(r), x, vars[x]);
    case Tok(w, r) =>
      ReplaceTokens(r, names, x, vars);
      TokenMatch(w, r, names, x);
      if w == x {
        ReplaceMatch(w, Render(r), vars[x]);
        RenderPrepend(vars[x], Subst(r, {x}, vars));
      } else {
        WordsArePlain(w);
        ReplaceMismatch(w, Render(r), x, vars[x]);
      }
  }

  lemma PrependSettled(v: string, t: Text, names: set<string>)
    requires DollarFree(v) && Settled(t, names)
    ensures Settled(Prepend(v, t), names)
  {
  }

  /** After the pass for `x`, every token is settled for the names that are left. */
  lemma {:induction false} SettledStep(t: Text, names: set<string>, x: string, vars: map<string, string>)
    requires Settled(t, names) && x in names && x in vars && DollarFree(vars[x])
    ensures Settled(Subst(t, {x}, vars), names - {x})
  {
    match t
    case End =>
    case Ch(c, r) => SettledStep(r, names, x, vars);
    case Tok(w, r) =>
      SettledStep(r, names, x, vars);
      if w == x {
        PrependSettled(vars[x], Subst(r, {x}, vars), names - {x});
      } else if r.Tok? && r.name == x && !NeverMatches(w, names) {
        assert NeverMatches(w, names - {x});
      }
  }

  lemma SubstPrepend(v: string, t: Text, names: set<string>, vars: map<string, string>)
    requires names <= vars.Keys
    ensures Subst(Prepend(v, t), names, vars) == Prepend(v, Subst(t, names, vars))
  {
  }

  lemma {:induction false} SubstCompose(t: Text, x: string, names: set<string>, vars: map<string, string>)
    requires x in vars && names <= vars.Keys
    ensures Subst(Subst(t, {x}, vars), names, vars) == Subst(t, names + {x}, vars)
  {
    match t
    case End =>
    case Ch(c, r) => SubstCompose(r, x, names, vars);
    case Tok(w, r) =>
      SubstCompose(r, x, names, vars);
      if w == x {
        SubstPrepend(vars[x], Subst(r, {x}, vars), names, vars);
      }
  }

  lemma ElemsCons(order: seq<string>)
    requires Distinct(order) && order != []
    ensures Elems(order) == Elems(order[1..]) + {order[0]} && Elems(order) - {order[0]} == Elems(order[1..])
  {
  }

  lemma {:induction false} EachPassActsOnTokens(t: Text, order: seq<string>, vars: map<string, string>)
    requires Distinct(order) && PlainValues(vars)
    requires forall n :: n in order ==> n in vars && AllWord(n)
    requires Settled(t, Elems(order))
    ensures ReplaceEach(Render(t), order, vars) == Render(Subst(t, Elems(order), vars))
    decreases |order|
  {
    if order == [] {
      assert Elems(order) == {};
      HasNone(t);
      NothingToSubst(t, Elems(order), vars);
    } else {
      var x := order[0];
      ElemsCons(order);
      ReplaceTokens(t, Elems(order), x, vars);
      SettledStep(t, Elems(order), x, vars);
      EachPassActsOnTokens(Subst(t, {x}, vars), order[1..], vars);
      SubstCompose(t, x, Elems(order[1..]), vars);
    }
  }

  lemma NothingToSubst(t: Text, names: set<string>, vars: map<string, string>)
    requires names <= vars.Keys && !Has(t, names)
    ensures Subst(t, names, vars) == t
  {
  }

  /** Some token of the text has a name in `names`. */
  predicate Has(t: Text, names: set<string>) {
    match t
    case End => false
    case Ch(_, r) => Has(r, names)
    case Tok(w, r) => w in names || Has(r, names)
  }

  lemma HasNone(t: Text)
    ensures !Has(t, {})
  {
  }

  lemma {:induction false} SimultaneousOnTokens(s: string, vars: map<string, string>)
    ensures Simultaneous(s, vars) == Render(Subst(Parse(s), vars.Keys, vars))
    decreases |s|
  {
    if s == "" {
    } else if s[0] == '$' {
      var n := WordRun(s[1..]);
      SimultaneousOnTokens(s[1..][n..], vars);
      if s[1..][..n] in vars {
        RenderPrepend(vars[s[1..][..n]], Subst(Parse(s[1..][n..]), vars.Keys, vars));
      }
    } else {
      SimultaneousOnTokens(s[1..], vars);
    }
  }

  lemma InElems<T>(s: seq<T>)
    ensures forall x :: x in s <==> x in Elems(s)
  {
  }

  /** Any order of the passes computes the simultaneous substitution of a safe query. */
  lemma AnyOrderIsSimultaneous(query: string, vars: map<string, string>, order: seq<string>)
    requires WordNames(vars.Keys) && PlainValues(vars) && Enumerates(order, vars.Keys)
    requires Safe(query, vars.Keys)
    ensures forall n :: n in order ==> n in vars
    ensures ReplaceEach(query, order, vars) == Simultaneous(query, vars)
  {
    InElems(order);
    SafeIsSettled(Parse(query), vars.Keys);
    EachPassActsOnTokens(Parse(query), order, vars);
    SimultaneousOnTokens(query, vars);
  }

  /** A `$` right behind a `$` or a word character. */
  predicate Crowded(s: string) {
    exists i :: 0 < i < |s| && s[i] == '$' && (s[i - 1] == '$' || IsWordChar(s[i - 1]))
  }

  lemma CrowdedSuffix(u: string, s: string)
    requires Crowded(s)
    ensures Crowded(u + s)
  {
    var i :| 0 < i < |s| && s[i] == '$' && (s[i - 1] == '$' || IsWordChar(s[i - 1]));
    assert (u + s)[|u| + i] == s[i] && (u + s)[|u| + i - 1] == s[i - 1];
  }

  lemma CrowdedHead(w: string, s: string)
    requires AllWord(w) && s != "" && s[0] == '$'
    ensures Crowded("$" + w + s)
  {
    var u := "$" + w;
    assert (u + s)[|u|] == '$' && (u + s)[|u| - 1] == u[|w|];
  }

  lemma {:induction false} ClashIsCrowded(t: Text, names: set<string>)
    requires Canonical(t) && !ClashFree(t, names)
    ensures Crowded(Render(t))
  {
    match t
    case Ch(c, r) =>
      ClashIsCrowded(r, names);
      CrowdedSuffix([c], Render(r));
    case Tok(w, r) =>
      if r.Tok? && Clash(w, r.name, names) {
        CrowdedHead(w, Render(r));
      } else {
        ClashIsCrowded(r, names);
        CrowdedSuffix("$" + w, Render(r));
      }
  }

  /** The habit that makes every query safe: no `$` right behind a `$` or a word character. */
  lemma UncrowdedQueriesAreSafe(query: string, names: set<string>)
    requires !Crowded(query)
    ensures Safe(query, names)
  {
    if !Safe(query, names) {
      ClashIsCrowded(Parse(query), names);
    }
  }

  // ---------------------------------------------------------------- when order does matter

  function DollarCount(s: string): nat {
    if s == "" then 0 else (if s[0] == '$' then 1 else 0) + DollarCount(s[1..])
  }

  lemma {:induction false} DollarCountAppend(s: string, t: string)
    ensures DollarCount(s + t) == DollarCount(s) + DollarCount(t)
  {
    if s == "" {
      assert s + t == t;
    } else {
      assert (s + t)[1..] == s[1..] + t;
      DollarCountAppend(s[1..], t);
    }
  }

  lemma DollarCountPlain(s: string)
    requires DollarFree(s)
    ensures DollarCount(s) == 0
  {
  }

  /** Number of tokens whose name is not in `names`. */
  function Survivors(t: Text, names: set<string>): nat {
    match t
    case End => 0
    case Ch(_, r) => Survivors(r, names)
    case Tok(w, r) => (if w in names then 0 else 1) + Survivors(r, names)
  }

  lemma PrependSurvivors(v: string, t: Text, names: set<string>)
    ensures Survivors(Prepend(v, t), names) == Survivors(t, names)
  {
  }

  /** Passes with empty values drop their tokens. */
  function Drop(t: Text, names: set<string>): Text {
    match t
    case End => End
    case Ch(c, r) => Ch(c, Drop(r, names))
    case Tok(w, r) => if w in names then Drop(r, names) else Tok(w, Drop(r, names))
  }

  lemma DropNothing(t: Text)
    ensures Drop(t, {}) == t
  {
  }

  lemma DropCompose(t: Text, names: set<string>, more: set<string>)
    ensures Drop(Drop(t, names), more) == Drop(t, names + more)
  {
  }

  lemma DropCanonical(t: Text, names: set<string>)
    requires Canonical(t)
    ensures Canonical(Drop(t, names)) && (Opens(Drop(t, names)) ==> Opens(t))
  {
    match t
    case End =>
    case Ch(_, r) => DropCanonical(r, names);
    case Tok(_, r) => DropCanonical(r, names);
  }

  lemma DropSurvivors(t: Text, names: set<string>, more: set<string>)
    ensures Survivors(Drop(t, names), more) == Survivors(t, names + more)
  {
  }

  lemma SubstEmpty(t: Text, x: string, vars: map<string, string>)
    requires x in vars && vars[x] == ""
    ensures Subst(t, {x}, vars) == Drop(t, {x})
  {
  }

  lemma {:induction false} EmptyPasses(t: Text, order: seq<string>, vars: map<string, string>)
    requires Canonical(t)
    requires forall n :: n in order ==> n in vars && AllWord(n) && vars[n] == ""
    ensures Canonical(Drop(t, Elems(order)))
    ensures ReplaceEach(Render(t), order, vars) == Render(Drop(t, Elems(order)))
    decreases |order|
  {
    if order == [] {
      assert Elems(order) == {};
      DropNothing(t);
    } else {
      var x := order[0];
      CanonicalIsSettled(t, x);
      ReplaceTokens(t, {x}, x, vars);
      SubstEmpty(t, x, vars);
      DropCanonical(t, {x});
      EmptyPasses(Drop(t, {x}), order[1..], vars);
      DropCompose(t, {x}, Elems(order[1..]));
      assert Elems(order) == {x} + Elems(order[1..]);
    }
  }

  /**
   The pass for `a` with the value `g + "-"`, read back as a text: the value glues its `g` to a
   `$w` that stands right before it, and the hyphen ends the word.
   */
  function Glue(t: Text, a: string, g: string): Text {
    match t
    case End => End
    case Ch(c, r) => Ch(c, Glue(r, a, g))
    case Tok(w, r) =>
      if w == a then Prepend(g + "-", Glue(r, a, g))
      else if r.Tok? && r.name == a then Tok(w + g, Ch('-', Glue(r.rest, a, g)))
      else Tok(w, Glue(r, a, g))
  }

  /** Adjacent pairs `$w$a` for which `w + g` is in `names`. */
  function Completed(t: Text, a: string, g: string, names: set<string>): nat {
    match t
    case End => 0
    case Ch(_, r) => Completed(r, a, g, names)
    case Tok(w, r) =>
      (if w != a && r.Tok? && r.name == a && w + g in names then 1 else 0) + Completed(r, a, g, names)
  }

  lemma {:induction false} GlueRenders(t: Text, a: string, g: string, vars: map<string, string>)
    requires a in vars && vars[a] == g + "-"
    ensures Render(Glue(t, a, g)) == Render(Subst(t, {a}, vars))
  {
    match t
    case End =>
    case Ch(c, r) => GlueRenders(r, a, g, vars);
    case Tok(w, r) =>
      if w == a {
        GlueRenders(r, a, g, vars);
        RenderPrepend(g + "-", Glue(r, a, g));
        RenderPrepend(g + "-", Subst(r, {a}, vars));
      } else if r.Tok? && r.name == a {
        GlueRenders(r.rest, a, g, vars);
        GluedString(w, g, Render(Glue(r.rest, a, g)));
        RenderPrepend(g + "-", Subst(r.rest, {a}, vars));
      } else {
        GlueRenders(r, a, g, vars);
      }
  }

  lemma GluedString(w: string, g: string, s: string)
    ensures "$" + (w + g) + ("-" + s) == "$" + w + ((g + "-") + s)
  {
  }

  lemma PrependCanonical(v: string, t: Text)
    requires DollarFree(v) && Canonical(t)
    ensures Canonical(Prepend(v, t))
  {
  }

  lemma {:induction false} GlueCanonical(t: Text, a: string, g: string)
    requires Canonical(t) && AllWord(g)
    ensures Canonical(Glue(t, a, g))
    ensures !(t.Tok? && t.name == a) ==> (Opens(Glue(t, a, g)) <==> Opens(t))
  {
    match t
    case End =>
    case Ch(c, r) => GlueCanonical(r, a, g);
    case Tok(w, r) =>
      if w == a {
        GlueCanonical(r, a, g);
        WordsArePlain(g);
        PrependCanonical(g + "-", Glue(r, a, g));
      } else if r.Tok? && r.name == a {
        GlueCanonical(r.rest, a, g);
      } else {
        GlueCanonical(r, a, g);
      }
  }

  /** How many tokens stay behind when `a` goes first, against how many when `a` goes last. */
  lemma {:induction false} GlueSurvivors(t: Text, a: string, g: string, others: set<string>)
    requires a !in others
    ensures Survivors(Glue(t, a, g), others) + Completed(t, a, g, others)
         == Survivors(t, others + {a}) + Completed(t, a, "", others)
  {
    match t
    case End =>
    case Ch(c, r) => GlueSurvivors(r, a, g, others);
    case Tok(w, r) =>
      assert w + "" == w;
      if w == a {
        GlueSurvivors(r, a, g, others);
        PrependSurvivors(g + "-", Glue(r, a, g), others);
      } else if r.Tok? && r.name == a {
        GlueSurvivors(r.rest, a, g, others);
      } else {
        GlueSurvivors(r, a, g, others);
      }
  }

  lemma {:induction false} RenderDollars(t: Text)
    requires Canonical(t)
    ensures DollarCount(Render(t)) == Survivors(t, {})
  {
    match t
    case End =>
    case Ch(c, r) =>
      RenderDollars(r);
      DollarCountAppend([c], Render(r));
    case Tok(w, r) =>
      RenderDollars(r);
      TokenDollars(w);
      DollarCountAppend("$" + w, Render(r));
  }

  lemma TokenDollars(w: string)
    requires AllWord(w)
    ensures DollarCount("$" + w) == 1
  {
    assert ("$" + w)[1..] == w;
    WordsArePlain(w);
    DollarCountPlain(w);
  }

  lemma {:induction false} SubstPlainDollars(t: Text, a: string, vars: map<string, string>)
    requires Canonical(t) && a in vars && DollarFree(vars[a])
    ensures DollarCount(Render(Subst(t, {a}, vars))) == Survivors(t, {a})
  {
    match t
    case End =>
    case Ch(c, r) =>
      SubstPlainDollars(r, a, vars);
      DollarCountAppend([c], Render(Subst(r, {a}, vars)));
    case Tok(w, r) =>
      var s := Render(Subst(r, {a}, vars));
      SubstPlainDollars(r, a, vars);
      if w == a {
        RenderPrepend(vars[a], Subst(r, {a}, vars));
        DollarCountPlain(vars[a]);
        DollarCountAppend(vars[a], s);
      } else {
        TokenDollars(w);
        DollarCountAppend("$" + w, s);
      }
  }

  lemma ReplaceEachAppend(s: string, order: seq<string>, a: string, vars: map<string, string>)
    requires a in vars && forall n :: n in order ==> n in vars
    ensures ReplaceEach(s, order + [a], vars) == Replace(ReplaceEach(s, order, vars), a, vars[a])
    decreases |order|
  {
    if order == [] {
      assert order + [a] == [a];
      assert [a][1..] == [];
    } else {
      assert (order + [a])[1..] == order[1..] + [a];
      ReplaceEachAppend(Replace(s, order[0], vars[order[0]]), order[1..], a, vars);
    }
  }

  /** `$` signs left over when `a` goes last and the other values are empty. */
  lemma DollarsWhenLast(query: string, a: string, rest: seq<string>, vars: map<string, string>)
    requires a in vars && DollarFree(vars[a]) && AllWord(a)
    requires forall n :: n in rest ==> n in vars && vars[n] == "" && AllWord(n)
    ensures DollarCount(ReplaceEach(query, rest + [a], vars)) == Survivors(Parse(query), Elems(rest) + {a})
  {
    var t := Parse(query);
    var u := Drop(t, Elems(rest));
    EmptyPasses(t, rest, vars);
    ReplaceEachAppend(query, rest, a, vars);
    CanonicalIsSettled(u, a);
    ReplaceTokens(u, {a}, a, vars);
    SubstPlainDollars(u, a, vars);
    DropSurvivors(t, Elems(rest), {a});
  }

  /** `$` signs left over when the pass for `a` goes first and yields the text `u`. */
  lemma DollarsWhenFirst(query: string, u: Text, a: string, rest: seq<string>, vars: map<string, string>)
    requires a in vars && AllWord(a)
    requires forall n :: n in rest ==> n in vars && vars[n] == "" && AllWord(n)
    requires Canonical(u) && Render(u) == Render(Subst(Parse(query), {a}, vars))
    ensures DollarCount(ReplaceEach(query, [a] + rest, vars)) == Survivors(u, Elems(rest))
  {
    CanonicalIsSettled(Parse(query), a);
    ReplaceTokens(Parse(query), {a}, a, vars);
    EmptyPasses(u, rest, vars);
    assert ([a] + rest)[1..] == rest;
    RenderDollars(Drop(u, Elems(rest)));
    DropSurvivors(u, Elems(rest), {});
    assert Elems(rest) + {} == Elems(rest);
  }

  // ---------------------------------------------------------------- the exact condition, for names that are words

  ghost predicate AgreeOnAllOrders(query: string, vars: map<string, string>) {
    forall o1, o2 :: Enumerates(o1, vars.Keys) && Enumerates(o2, vars.Keys) ==> SameResult(query, o1, o2, vars)
  }

  predicate SameResult(query: string, o1: seq<string>, o2: seq<string>, vars: map<string, string>)
    requires Enumerates(o1, vars.Keys) && Enumerates(o2, vars.Keys)
  {
    InElems(o1);
    InElems(o2);
    ReplaceEach(query, o1, vars) == ReplaceEach(query, o2, vars)
  }

  /** Whatever `$`-free values the variables have, the map order is invisible. */
  ghost predicate OrderIndependent(query: string, names: set<string>) {
    forall vars: map<string, string> :: vars.Keys == names && PlainValues(vars) ==> AgreeOnAllOrders(query, vars)
  }

  lemma SomeOrder(names: set<string>) returns (order: seq<string>)
    ensures Enumerates(order, names)
  {
    if names == {} {
      order := [];
    } else {
      var n :| n in names;
      var rest := SomeOrder(names - {n});
      InElems(rest);
      order := [n] + rest;
      assert Elems(order) == {n} + Elems(rest);
    }
  }

  lemma FirstAndLast(a: string, rest: seq<string>, names: set<string>)
    requires a in names && Enumerates(rest, names - {a})
    ensures Enumerates([a] + rest, names) && Enumerates(rest + [a], names)
  {
    InElems(rest);
    assert Elems([a] + rest) == {a} + Elems(rest);
    assert Elems(rest + [a]) == Elems(rest) + {a};
  }

  function Zeros(k: nat): (s: string)
    ensures |s| == k && AllWord(s)
  {
    seq(k, i => '0')
  }

  lemma LongWord(names: set<string>) returns (g: string)
    ensures AllWord(g) && forall n :: n in names ==> |n| < |g|
  {
    if names == {} {
      g := "";
    } else {
      var n :| n in names;
      var shorter := LongWord(names - {n});
      g := shorter + Zeros(|n| + 1);
    }
  }

  lemma NoCompletion(t: Text, a: string, g: string, names: set<string>)
    requires forall n :: n in names ==> |n| < |g|
    ensures Completed(t, a, g, names) == 0
  {
  }

  /** Some `$w$a` of the text has `w` as a proper beginning of `b`, or as `b` itself. */
  predicate Begins(t: Text, a: string, b: string) {
    match t
    case End => false
    case Ch(_, r) => Begins(r, a, b)
    case Tok(w, r) => (w != a && r.Tok? && r.name == a && w <= b) || Begins(r, a, b)
  }

  lemma {:induction false} FindClash(t: Text, names: set<string>) returns (a: string, b: string)
    requires !ClashFree(t, names)
    ensures a in names && b in names && a != b && Begins(t, a, b)
  {
    match t
    case Ch(_, r) => a, b := FindClash(r, names);
    case Tok(w, r) =>
      if r.Tok? && Clash(w, r.name, names) {
        a := r.name;
        b :| b in names && b != a && w <= b;
      } else {
        a, b := FindClash(r, names);
      }
  }

  lemma {:induction false} SomeCompletion(t: Text, a: string, b: string, names: set<string>) returns (g: string)
    requires b in names && AllWord(b) && Begins(t, a, b)
    ensures AllWord(g) && Completed(t, a, g, names) > 0
  {
    match t
    case Ch(_, r) => g := SomeCompletion(r, a, b, names);
    case Tok(w, r) =>
      if w != a && r.Tok? && r.name == a && w <= b {
        g := b[|w|..];
        assert w + g == b;
      } else {
        g := SomeCompletion(r, a, b, names);
      }
  }

  /** A suffix for the `$w` before `$a` that completes more, or fewer, variables than none. */
  lemma UnevenSuffix(t: Text, a: string, b: string, names: set<string>) returns (g: string)
    requires WordNames(names) && b in names && b != a && Begins(t, a, b)
    ensures AllWord(g) && Completed(t, a, g, names - {a}) != Completed(t, a, "", names - {a})
  {
    if Completed(t, a, "", names - {a}) > 0 {
      g := LongWord(names - {a});
      NoCompletion(t, a, g, names - {a});
    } else {
      g := SomeCompletion(t, a, b, names - {a});
    }
  }

  /** Valuation that is empty except at `a`. */
  function OnlyAt(names: set<string>, a: string, v: string): (vars: map<string, string>)
    ensures vars.Keys == names
    ensures forall n :: n in names ==> vars[n] == if n == a then v else ""
  {
    map n | n in names :: if n == a then v else ""
  }

  /** Two orders whose results differ even in the number of dollars. */
  ghost predicate DollarsDiffer(query: string, vars: map<string, string>) {
    exists o1, o2 ::
      && Enumerates(o1, vars.Keys) && Enumerates(o2, vars.Keys)
      && DollarsOf(query, o1, vars) != DollarsOf(query, o2, vars)
  }

  function DollarsOf(query: string, order: seq<string>, vars: map<string, string>): nat
    requires Enumerates(order, vars.Keys)
  {
    InElems(order);
    DollarCount(ReplaceEach(query, order, vars))
  }

  lemma DollarsDisagree(query: string, a: string, rest: seq<string>, vars: map<string, string>)
    requires a in vars && Enumerates(rest, vars.Keys - {a})
    requires forall n :: n in rest ==> n in vars
    requires DollarCount(ReplaceEach(query, [a] + rest, vars)) != DollarCount(ReplaceEach(query, rest + [a], vars))
    ensures DollarsDiffer(query, vars) && !AgreeOnAllOrders(query, vars)
  {
    FirstAndLast(a, rest, vars.Keys);
    assert DollarsOf(query, [a] + rest, vars) != DollarsOf(query, rest + [a], vars);
    assert !SameResult(query, [a] + rest, rest + [a], vars);
  }

  lemma GlueBreaksOrder(query: string, a: string, g: string, names: set<string>)
    requires WordNames(names) && a in names && AllWord(g)
    requires Completed(Parse(query), a, g, names - {a}) != Completed(Parse(query), a, "", names - {a})
    ensures var vars := OnlyAt(names, a, g + "-"); DollarsDiffer(query, vars) && !AgreeOnAllOrders(query, vars)
  {
    var t := Parse(query);
    var vars := OnlyAt(names, a, g + "-");
    var rest := SomeOrder(names - {a});
    InElems(rest);
    WordsArePlain(g);
    DollarsWhenLast(query, a, rest, vars);
    GlueRenders(t, a, g, vars);
    GlueCanonical(t, a, g);
    DollarsWhenFirst(query, Glue(t, a, g), a, rest, vars);
    GlueSurvivors(t, a, g, names - {a});
    DollarsDisagree(query, a, rest, vars);
  }

  /** A query is safe exactly when no choice of `$`-free values lets the map order show. */
  lemma OrderIndependentIffSafe(query: string, names: set<string>)
    requires WordNames(names)
    ensures OrderIndependent(query, names) <==> Safe(query, names)
  {
    if Safe(query, names) {
      forall vars: map<string, string>, o1, o2 |
        vars.Keys == names && PlainValues(vars) && Enumerates(o1, vars.Keys) && Enumerates(o2, vars.Keys)
        ensures SameResult(query, o1, o2, vars)
      {
        AnyOrderIsSimultaneous(query, vars, o1);
        AnyOrderIsSimultaneous(query, vars, o2);
      }
    } else {
      var vars := UnsafeDiffers(query, names);
    }
  }

  lemma UnsafeDiffers(query: string, names: set<string>) returns (vars: map<string, string>)
    requires WordNames(names) && !Safe(query, names)
    ensures vars.Keys == names && PlainValues(vars) && DollarsDiffer(query, vars) && !AgreeOnAllOrders(query, vars)
  {
    var a, b := FindClash(Parse(query), names);
    var g := UnevenSuffix(Parse(query), a, b, names);
    WordsArePlain(g);
    GlueBreaksOrder(query, a, g, names);
    vars := OnlyAt(names, a, g + "-");
  }

  // ---------------------------------------------------------------- values that contain `$`

  lemma LiteralPasses()
    ensures Replace("$a-b", "a", "1") == "1-b" && Replace("1-b", "a-b", "2") == "1-b"
  {
  }

  lemma OtherLiteralPasses()
    ensures Replace("$a-b", "a-b", "2") == "2" && Replace("2", "a", "1") == "2"
  {
  }

  lemma TwoPasses(s: string, a: string, b: string, vars: map<string, string>)
    requires a in vars && b in vars && a != b && vars.Keys == {a, b}
    ensures Enumerates([a, b], vars.Keys)
    ensures ReplaceEach(s, [a, b], vars) == Replace(Replace(s, a, vars[a]), b, vars[b])
  {
    hide Replace;
    assert [a, b][1..] == [b] && [b][1..] == [];
    assert ReplaceEach(Replace(s, a, vars[a]), [b], vars) == Replace(Replace(s, a, vars[a]), b, vars[b]);
  }

  lemma SafeLiteral()
    ensures Safe("$a-b", {"a", "a-b"})
  {
    NotCrowded();
    hide *;
    UncrowdedQueriesAreSafe("$a-b", {"a", "a-b"});
  }

  lemma NotCrowded()
    ensures !Crowded("$a-b")
  {
  }

  lemma DifferingPasses(vars: map<string, string>)
    requires vars == map["a" := "1", "a-b" := "2"]
    ensures !SameResult("$a-b", ["a", "a-b"], ["a-b", "a"], vars)
    ensures Enumerates(["a", "a-b"], vars.Keys) && Enumerates(["a-b", "a"], vars.Keys)
  {
    LiteralPasses();
    OtherLiteralPasses();
    hide Replace, ReplaceEach;
    TwoPasses("$a-b", "a", "a-b", vars);
    TwoPasses("$a-b", "a-b", "a", vars);
  }

  /** The condition is one for names that are words: a name that goes on behind a word is matched where the word is. */
  lemma OtherNamesAreNotCovered()
    ensures Safe("$a-b", {"a", "a-b"}) && !OrderIndependent("$a-b", {"a", "a-b"})
  {
    hide Replace, ReplaceEach, Safe, SameResult;
    var vars := map["a" := "1", "a-b" := "2"];
    assert vars.Keys == {"a", "a-b"} && PlainValues(vars);
    SafeLiteral();
    DifferingPasses(vars);
  }

  /** The pass for `a` with the value `$b-`, read back as a text. */
  function Rename(t: Text, a: string, b: string): Text {
    match t
    case End => End
    case Ch(c, r) => Ch(c, Rename(r, a, b))
    case Tok(w, r) => if w == a then Tok(b, Ch('-', Rename(r, a, b))) else Tok(w, Rename(r, a, b))
  }

  lemma {:induction false} RenameRenders(t: Text, a: string, b: string, vars: map<string, string>)
    requires Canonical(t) && AllWord(b) && a in vars && vars[a] == "$" + b + "-"
    ensures Render(Rename(t, a, b)) == Render(Subst(t, {a}, vars))
    ensures Canonical(Rename(t, a, b)) && (Opens(Rename(t, a, b)) <==> Opens(t))
  {
    match t
    case End =>
    case Ch(c, r) => RenameRenders(r, a, b, vars);
    case Tok(w, r) =>
      RenameRenders(r, a, b, vars);
      if w == a {
        RenderPrepend("$" + b + "-", Subst(r, {a}, vars));
        assert "$" + b + ("-" + Render(Rename(r, a, b))) == ("$" + b + "-") + Render(Rename(r, a, b));
      }
  }

  /** The tokens of `a` vanish when those of `b` do, and survive as tokens of `b` otherwise. */
  lemma RenameSurvivors(t: Text, a: string, b: string, others: set<string>)
    requires a !in others && b != a
    ensures b in others ==> Survivors(Rename(t, a, b), others) == Survivors(t, others + {a})
    ensures others == {} ==> Survivors(Rename(t, a, b), others) == Survivors(t, {})
  {
  }

  lemma MentionedSurvives(t: Text, a: string, names: set<string>)
    requires Has(t, {a}) && a !in names
    ensures Survivors(t, names) > Survivors(t, names + {a})
  {
    match t
    case Ch(_, r) => MentionedSurvives(r, a, names);
    case Tok(w, r) =>
      if w == a {
        FewerSurvivors(r, names, {a});
      } else {
        MentionedSurvives(r, a, names);
      }
  }

  lemma FewerSurvivors(t: Text, names: set<string>, more: set<string>)
    ensures Survivors(t, names + more) <= Survivors(t, names)
  {
  }

  lemma RenamedWhenLast(query: string, a: string, b: string, rest: seq<string>, vars: map<string, string>)
    requires a in vars && vars[a] == "$" + b + "-" && AllWord(a) && AllWord(b) && a != b
    requires forall n :: n in rest ==> n in vars && vars[n] == "" && AllWord(n)
    ensures DollarCount(ReplaceEach(query, rest + [a], vars)) == Survivors(Parse(query), Elems(rest))
  {
    var t := Parse(query);
    var u := Drop(t, Elems(rest));
    EmptyPasses(t, rest, vars);
    ReplaceEachAppend(query, rest, a, vars);
    CanonicalIsSettled(u, a);
    ReplaceTokens(u, {a}, a, vars);
    RenameRenders(u, a, b, vars);
    RenderDollars(Rename(u, a, b));
    RenameSurvivors(u, a, b, {});
    DropSurvivors(t, Elems(rest), {});
    assert Elems(rest) + {} == Elems(rest);
  }

  lemma DollarBreaksOrder(query: string, a: string, b: string, names: set<string>)
    requires WordNames(names) && a in names && b in names && a != b && Has(Parse(query), {a})
    ensures !AgreeOnAllOrders(query, OnlyAt(names, a, "$" + b + "-"))
  {
    var t := Parse(query);
    var vars := OnlyAt(names, a, "$" + b + "-");
    var rest := SomeOrder(names - {a});
    InElems(rest);
    RenamedWhenLast(query, a, b, rest, vars);
    RenameRenders(t, a, b, vars);
    DollarsWhenFirst(query, Rename(t, a, b), a, rest, vars);
    RenameSurvivors(t, a, b, names - {a});
    MentionedSurvives(t, a, names - {a});
    DollarsDisagree(query, a, rest, vars);
  }

  lemma UnmentionedIsInert(query: string, order: seq<string>, vars: map<string, string>)
    requires !Has(Parse(query), vars.Keys) && WordNames(vars.Keys)
    requires forall n :: n in order ==> n in vars
    ensures ReplaceEach(query, order, vars) == query
    decreases |order|
  {
    if order != [] {
      var x := order[0];
      CanonicalIsSettled(Parse(query), x);
      ReplaceTokens(Parse(query), {x}, x, vars);
      if Has(Parse(query), {x}) {
        HasFewer(Parse(query), {x}, vars.Keys);
      }
      NothingToSubst(Parse(query), {x}, vars);
      UnmentionedIsInert(query, order[1..], vars);
    }
  }

  lemma HasFewer(t: Text, names: set<string>, more: set<string>)
    requires names <= more && Has(t, names)
    ensures Has(t, more)
  {
  }

  lemma {:induction false} HasSome(t: Text, names: set<string>) returns (a: string)
    requires Has(t, names)
    ensures a in names && Has(t, {a})
  {
    match t
    case Ch(_, r) => a := HasSome(r, names);
    case Tok(w, r) => if w in names { a := w; } else { a := HasSome(r, names); }
  }

  lemma ElemsSize(s: seq<string>)
    requires Distinct(s)
    ensures |Elems(s)| == |s|
  {
    if s != [] {
      ElemsSize(s[1..]);
      ElemsCons(s);
    }
  }

  lemma OneOrder(names: set<string>, o1: seq<string>, o2: seq<string>)
    requires |names| <= 1 && Enumerates(o1, names) && Enumerates(o2, names)
    ensures o1 == o2
  {
    ElemsSize(o1);
    ElemsSize(o2);
    InElems(o1);
    InElems(o2);
    if o1 != [] {
      AtMostOne(names, o1[0], o2[0]);
    }
  }

  lemma AtMostOne(names: set<string>, a: string, b: string)
    requires |names| <= 1 && a in names && b in names
    ensures a == b
  {
    assert |names - {a}| == |names| - 1;
    assert names - {a} == {};
  }

  lemma Another(names: set<string>, a: string) returns (b: string)
    requires a in names && |names| > 1
    ensures b in names && b != a
  {
    assert |names - {a}| == |names| - 1;
    b :| b in names - {a};
  }

  /** Without a promise about the values, only queries that mention no variable are immune. */
  lemma AnyValuesIffUnmentioned(query: string, names: set<string>)
    requires WordNames(names)
    ensures (forall vars: map<string, string> :: vars.Keys == names ==> AgreeOnAllOrders(query, vars))
       <==> (|names| <= 1 || !Has(Parse(query), names))
  {
    if |names| <= 1 {
      forall o1, o2 | Enumerates(o1, names) && Enumerates(o2, names)
        ensures o1 == o2
      {
        OneOrder(names, o1, o2);
      }
    } else if !Has(Parse(query), names) {
      forall vars: map<string, string>, o1, o2 |
        vars.Keys == names && Enumerates(o1, vars.Keys) && Enumerates(o2, vars.Keys)
        ensures SameResult(query, o1, o2, vars)
      {
        InElems(o1);
        InElems(o2);
        UnmentionedIsInert(query, o1, vars);
        UnmentionedIsInert(query, o2, vars);
      }
    } else {
      var a := HasSome(Parse(query), names);
      var b := Another(names, a);
      DollarBreaksOrder(query, a, b, names);
    }
  }

  // ---------------------------------------------------------------- the whole of substituteVariables

  predicate IsIdentifierRun(s: string, n: nat) {
    0 < n <= |s| && !('0' <= s[0] <= '9')
  }

  /** Length of the `${name}` or `${name:option}` at the front of `s` and of its name, or 0. */
  function BraceMatch(s: string): (r: (nat, nat))
    ensures r.0 > 0 ==> 2 + r.1 < r.0 <= |s|
  {
    if !("${" <= s) then (0, 0)
    else
      var n := WordRun(s[2..]);
      if !IsIdentifierRun(s[2..], n) || 2 + n == |s| then (0, 0)
      else if s[2 + n] == '}' then (n + 3, n)
      else if s[2 + n] == ':' then
        var k := Find(s[3 + n..], '}');
        if 3 + n + k == |s| then (0, 0) else (n + k + 4, n)
      else (0, 0)
  }

  function Find(s: string, c: char): (k: nat)
    ensures k <= |s| && c !in s[..k] && (k < |s| ==> s[k] == c)
  {
    if s == "" || s[0] == c then 0
    else
      var k := Find(s[1..], c);
      assert s[..k + 1] == [s[0]] + s[1..][..k];
      k + 1
  }

  /** `${name}` and `${name:option}` of known variables, in one scan. */
  function BracePass(s: string, vars: map<string, string>): string
    decreases |s|
  {
    if s == "" then ""
    else
      var (len, n) := BraceMatch(s);
      if len > 0 then
        (if s[2..2 + n] in vars then vars[s[2..2 + n]] else s[..len]) + BracePass(s[len..], vars)
      else [s[0]] + BracePass(s[1..], vars)
  }

  /** Length of the name of the `[[name]]` at the front of `s`, or 0. */
  function BracketMatch(s: string): (n: nat)
    ensures n > 0 ==> n + 4 <= |s|
  {
    if !("[[" <= s) then 0
    else
      var n := WordRun(s[2..]);
      if IsIdentifierRun(s[2..], n) && "]]" <= s[2 + n..] then n else 0
  }

  function BracketPass(s: string, vars: map<string, string>): string
    decreases |s|
  {
    if s == "" then ""
    else
      var n := BracketMatch(s);
      if n > 0 then
        (if s[2..2 + n] in vars then vars[s[2..2 + n]] else s[..n + 4]) + BracketPass(s[n + 4..], vars)
      else [s[0]] + BracketPass(s[1..], vars)
  }

  /** Braces, simple variables in some order, brackets. */
  function Whole(query: string, order: seq<string>, vars: map<string, string>): string
    requires Enumerates(order, vars.Keys)
  {
    InElems(order);
    BracketPass(ReplaceEach(BracePass(query, vars), order, vars), vars)
  }

  /** The three steps, with the map loop in an order the caller does not control. */
  method SubstituteVariables(query: string, variables: map<string, string>, order: seq<string>) returns (result: string)
    requires Enumerates(order, variables.Keys)
    ensures result == Whole(query, order, variables)
    ensures WordNames(variables.Keys) && "" !in variables ==>
              forall ps :: WellWritten(ps, variables) && Written(ps) == query ==> result == Meant(ps, variables)
  {
    if WordNames(variables.Keys) && "" !in variables {
      forall ps | WellWritten(ps, variables) && Written(ps) == query
        ensures Whole(query, order, variables) == Meant(ps, variables)
      {
        WholeMeans(ps, order, variables);
      }
    }
    InElems(order);
    result := BracePass(query, variables);
    result := SubstituteSimpleVars(result, variables, order);
    result := BracketPass(result, variables);
  }

  /** When the brace-expanded query is safe, `SubstituteVariables` is a function of query and variables alone. */
  lemma WholeSubstitution(query: string, vars: map<string, string>, order: seq<string>)
    requires WordNames(vars.Keys) && PlainValues(vars) && Enumerates(order, vars.Keys)
    requires Safe(BracePass(query, vars), vars.Keys)
    ensures Whole(query, order, vars) == BracketPass(Simultaneous(BracePass(query, vars), vars), vars)
  {
    InElems(order);
    AnyOrderIsSimultaneous(BracePass(query, vars), vars, order);
  }

  lemma BracketHasNoDollar(s: string)
    requires BracketMatch(s) > 0
    ensures var n := BracketMatch(s); DollarFree(s[..n + 4])
  {
    var n := BracketMatch(s);
    var word := s[2..][..n];
    WordsArePlain(word);
    assert s[..n + 4] == ['[', '['] + word + [']', ']'];
  }

  lemma BracketStep(s: string, vars: map<string, string>) returns (taken: string, put: string)
    requires s != "" && PlainValues(vars)
    ensures taken != "" && taken <= s && BracketPass(s, vars) == put + BracketPass(s[|taken|..], vars)
    ensures DollarCount(taken) == DollarCount(put)
  {
    var n := BracketMatch(s);
    taken := s[..if n > 0 then n + 4 else 1];
    put := if n > 0 && s[2..2 + n] in vars then vars[s[2..2 + n]] else taken;
    if n > 0 {
      BracketHasNoDollar(s);
      DollarCountPlain(taken);
      if s[2..2 + n] in vars {
        DollarCountPlain(put);
      }
    }
    hide BracketMatch, DollarCount;
  }

  /** Brackets bring no dollars and take none. */
  lemma {:induction false} BracketKeepsDollars(s: string, vars: map<string, string>)
    requires PlainValues(vars)
    ensures DollarCount(BracketPass(s, vars)) == DollarCount(s)
    decreases |s|
  {
    if s != "" {
      hide BracketPass, DollarCount;
      var taken, put := BracketStep(s, vars);
      var rest := s[|taken|..];
      BracketKeepsDollars(rest, vars);
      assert s == taken + rest;
      DollarCountAppend(taken, rest);
      DollarCountAppend(put, BracketPass(rest, vars));
    }
  }

  // ---------------------------------------------------------------- braced variables

  /** The text begins with a braced variable of the map. */
  predicate Known(s: string, names: set<string>) {
    var (len, n) := BraceMatch(s);
    len > 0 && s[2..2 + n] in names
  }

  /** No braced variable of the map stands directly behind a `$word`, or behind a `$`, which its value would extend. */
  predicate Unglued(s: string, names: set<string>)
    decreases |s|
  {
    s == "" ||
    var (len, n) := BraceMatch(s);
    if len > 0 then Unglued(s[len..], names)
    else if s[0] == '$' then
      var rest := s[1..][WordRun(s[1..])..];
      !Known(rest, names) && Unglued(rest, names)
    else Unglued(s[1..], names)
  }

  /** The query with its braced variables taken out. */
  function Erased(query: string, names: set<string>): string {
    BracePass(query, map n | n in names :: "")
  }

  /** The pairs `$w$a` of a text. */
  function Pairs(t: Text): seq<(string, string)> {
    match t
    case End => []
    case Ch(_, r) => Pairs(r)
    case Tok(w, r) => (if r.Tok? then [(w, r.name)] else []) + Pairs(r)
  }

  /** The name of the token that the text begins with. */
  function First(t: Text): seq<string> {
    if t.Tok? then [t.name] else []
  }

  function CompletedPairs(ps: seq<(string, string)>, a: string, g: string, names: set<string>): nat {
    if ps == [] then 0
    else (if ps[0].0 != a && ps[0].1 == a && ps[0].0 + g in names then 1 else 0) + CompletedPairs(ps[1..], a, g, names)
  }

  /** Safety, and what a value completes, are a matter of the pairs. */
  lemma {:induction false} PairsDecide(t: Text, names: set<string>, a: string, g: string, others: set<string>)
    ensures ClashFree(t, names) <==> forall p :: p in Pairs(t) ==> !Clash(p.0, p.1, names)
    ensures Completed(t, a, g, others) == CompletedPairs(Pairs(t), a, g, others)
  {
    hide Clash;
    match t
    case End =>
    case Ch(_, r) => PairsDecide(r, names, a, g, others);
    case Tok(w, r) =>
      PairsDecide(r, names, a, g, others);
      if r.Tok? {
        var ps := Pairs(t);
        assert ps == [(w, r.name)] + Pairs(r);
        assert ps[0] == (w, r.name) && ps[1..] == Pairs(r);
        assert CompletedPairs(ps, a, g, others)
            == (if w != a && r.name == a && w + g in others then 1 else 0) + CompletedPairs(Pairs(r), a, g, others);
      } else {
        assert Pairs(t) == [] + Pairs(r) == Pairs(r);
      }
  }

  lemma {:induction false} ParsePrepended(v: string, s: string)
    requires DollarFree(v)
    ensures Parse(v + s) == Prepend(v, Parse(s))
  {
    if v == "" {
      assert v + s == s;
    } else {
      assert (v + s)[1..] == v[1..] + s && (v + s)[0] == v[0];
      ParsePrepended(v[1..], s);
    }
  }

  lemma {:induction false} PrependedPairs(v: string, t: Text)
    ensures Pairs(Prepend(v, t)) == Pairs(t)
  {
    if v != "" {
      PrependedPairs(v[1..], t);
    }
  }

  lemma {:induction false} WordRunStops(u: string, s: string)
    requires u != "" && !IsWordChar(u[|u| - 1])
    ensures WordRun(u + s) == WordRun(u) < |u|
  {
    assert (u + s)[0] == u[0];
    if IsWordChar(u[0]) {
      assert (u + s)[1..] == u[1..] + s;
      WordRunStops(u[1..], s);
    }
  }

  lemma ParseToken(w: string, s: string)
    requires AllWord(w) && (s == "" || !IsWordChar(s[0]))
    ensures Parse("$" + w + s) == Tok(w, Parse(s))
  {
    var q := "$" + w + s;
    assert q[1..] == w + s;
    WordRunOf(w, s);
    assert (w + s)[..|w|] == w && (w + s)[|w|..] == s;
  }

  lemma {:induction false} WordRunOf(w: string, s: string)
    requires AllWord(w) && (s == "" || !IsWordChar(s[0]))
    ensures WordRun(w + s) == |w|
  {
    if w == "" {
      assert w + s == s;
    } else {
      assert (w + s)[0] == w[0] && (w + s)[1..] == w[1..] + s;
      WordRunOf(w[1..], s);
    }
  }

  lemma CopiedToken(c: string, x: string)
    requires c != "" && c[0] == '$' && c[|c| - 1] == '}'
    ensures var n := WordRun(c[1..]);
            n < |c| - 1 && Parse(c + x) == Tok(c[1..][..n], Parse(c[1..][n..] + x))
  {
    var u := c[1..];
    WordRunStops(u, x);
    var n := WordRun(u);
    hide WordRun, Parse;
    var rest := u[n..] + x;
    assert c + x == "$" + u[..n] + rest && rest[0] == u[n];
    ParseToken(u[..n], rest);
  }

  /** The same text in front, closed by a brace, hides what follows from its own tokens. */
  lemma {:induction false} CopiedAlike(c: string, x: string, y: string)
    requires c != "" && c[|c| - 1] == '}' && Pairs(Parse(x)) == Pairs(Parse(y))
    ensures Pairs(Parse(c + x)) == Pairs(Parse(c + y)) && First(Parse(c + x)) == First(Parse(c + y))
    decreases |c|
  {
    hide Parse, WordRun, Pairs, First;
    if c[0] == '$' {
      CopiedToken(c, x);
      CopiedToken(c, y);
      var n := WordRun(c[1..]);
      var rest := c[1..][n..];
      assert rest[|rest| - 1] == c[|c| - 1];
      CopiedAlike(rest, x, y);
      TokenAlike(c[1..][..n], Parse(rest + x), Parse(rest + y));
    } else {
      var d := c[1..];
      if d == "" {
        assert d + x == x && d + y == y;
      } else {
        CopiedAlike(d, x, y);
      }
      CharAlike(c[0], d + x, d + y);
      FrontChar(c, x);
      FrontChar(c, y);
    }
  }

  lemma FrontChar(c: string, x: string)
    requires c != ""
    ensures [c[0]] + (c[1..] + x) == c + x
  {
  }

  lemma TokenAlike(w: string, r: Text, q: Text)
    requires Pairs(r) == Pairs(q) && First(r) == First(q)
    ensures Pairs(Tok(w, r)) == Pairs(Tok(w, q)) && First(Tok(w, r)) == First(Tok(w, q))
  {
    assert r.Tok? == q.Tok?;
    assert r.Tok? ==> First(r)[0] == r.name && First(q)[0] == q.name;
  }

  lemma BraceEnds(s: string)
    requires BraceMatch(s).0 > 0
    ensures s[0] == '$' && s[BraceMatch(s).0 - 1] == '}'
  {
  }

  lemma NoBraceInside(s: string)
    requires s != "" && s[0] != '$'
    ensures BraceMatch(s).0 == 0
  {
  }

  /** Words pass through, and what is no braced variable of the map begins as it did. */
  lemma {:induction false} BraceSkipsWord(w: string, rest: string, vars: map<string, string>)
    requires AllWord(w)
    ensures BracePass(w + rest, vars) == w + BracePass(rest, vars)
  {
    hide BraceMatch;
    if w == "" {
      assert w + rest == rest;
    } else {
      var s, more := w + rest, BracePass(w[1..] + rest, vars);
      assert s[0] == w[0] && s[1..] == w[1..] + rest;
      NoBraceInside(s);
      assert BracePass(s, vars) == [w[0]] + more;
      BraceSkipsWord(w[1..], rest, vars);
      Assoc([w[0]], w[1..], BracePass(rest, vars));
      assert w == [w[0]] + w[1..];
    }
  }

  lemma BeginsAsItDid(s: string, vars: map<string, string>)
    requires !Known(s, vars.Keys)
    ensures BracePass(s, vars) == "" <==> s == ""
    ensures s != "" ==> BracePass(s, vars)[0] == s[0]
  {
    hide BraceMatch;
  }

  lemma TokenPassed(s: string, vars: map<string, string>)
    requires s != "" && s[0] == '$' && BraceMatch(s).0 == 0
    requires !Known(s[1..][WordRun(s[1..])..], vars.Keys)
    ensures var n := WordRun(s[1..]);
            Parse(BracePass(s, vars)) == Tok(s[1..][..n], Parse(BracePass(s[1..][n..], vars)))
  {
    hide BraceMatch, BracePass, WordRun, Parse, Known;
    var n := WordRun(s[1..]);
    var w, rest := s[1..][..n], s[1..][n..];
    assert s[1..] == w + rest;
    BraceStep(s, vars);
    BraceSkipsWord(w, rest, vars);
    BeginsAsItDid(rest, vars);
    assert rest != "" ==> rest[0] == s[1..][n];
    ParseToken(w, BracePass(rest, vars));
    Assoc("$", w, BracePass(rest, vars));
  }

  lemma BraceStep(s: string, vars: map<string, string>)
    requires s != ""
    ensures var (len, n) := BraceMatch(s);
            BracePass(s, vars) == if len > 0
                then (if s[2..2 + n] in vars then vars[s[2..2 + n]] else s[..len]) + BracePass(s[len..], vars)
                                  else [s[0]] + BracePass(s[1..], vars)
  {
    hide BraceMatch;
  }

  /** Whatever the values of the braced variables, the expanded query has the same pairs. */
  lemma {:induction false} ExpandedAlike(s: string, u: map<string, string>, v: map<string, string>)
    requires Unglued(s, u.Keys) && u.Keys == v.Keys && PlainValues(u) && PlainValues(v)
    ensures Pairs(Parse(BracePass(s, u))) == Pairs(Parse(BracePass(s, v)))
    ensures !Known(s, u.Keys) ==> First(Parse(BracePass(s, u))) == First(Parse(BracePass(s, v)))
    decreases |s|
  {
    hide BraceMatch, BracePass, Parse, WordRun, Pairs, First;
    if s != "" {
      var (len, n) := BraceMatch(s);
      BraceStep(s, u);
      BraceStep(s, v);
      if len > 0 {
        ExpandedAlike(s[len..], u, v);
        if s[2..2 + n] in u {
          HoleAlike(u[s[2..2 + n]], BracePass(s[len..], u), v[s[2..2 + n]], BracePass(s[len..], v));
        } else {
          BraceEnds(s);
          CopiedAlike(s[..len], BracePass(s[len..], u), BracePass(s[len..], v));
        }
      } else if s[0] == '$' {
        var k := WordRun(s[1..]);
        var rest := s[1..][k..];
        ExpandedAlike(rest, u, v);
        TokenPassed(s, u);
        TokenPassed(s, v);
        TokenAlike(s[1..][..k], Parse(BracePass(rest, u)), Parse(BracePass(rest, v)));
      } else {
        ExpandedAlike(s[1..], u, v);
        CharAlike(s[0], BracePass(s[1..], u), BracePass(s[1..], v));
      }
    } else {
      NothingToExpand(u, v);
    }
  }

  lemma NothingToExpand(u: map<string, string>, v: map<string, string>)
    ensures BracePass("", u) == "" == BracePass("", v)
  {
  }

  lemma HoleAlike(p: string, x: string, q: string, y: string)
    requires DollarFree(p) && DollarFree(q) && Pairs(Parse(x)) == Pairs(Parse(y))
    ensures Pairs(Parse(p + x)) == Pairs(Parse(q + y))
  {
    ParsePrepended(p, x);
    ParsePrepended(q, y);
    PrependedPairs(p, Parse(x));
    PrependedPairs(q, Parse(y));
  }

  lemma CharAlike(c: char, x: string, y: string)
    requires c != '$' && Pairs(Parse(x)) == Pairs(Parse(y))
    ensures Pairs(Parse([c] + x)) == Pairs(Parse([c] + y)) && First(Parse([c] + x)) == First(Parse([c] + y))
  {
    assert ([c] + x)[1..] == x && ([c] + y)[1..] == y;
  }

  ghost predicate WholeIndependent(query: string, names: set<string>) {
    forall vars: map<string, string>, o1, o2 ::
      vars.Keys == names && PlainValues(vars) && Enumerates(o1, names) && Enumerates(o2, names) ==>
      Whole(query, o1, vars) == Whole(query, o2, vars)
  }

  lemma ErasedAlike(query: string, vars: map<string, string>, a: string, g: string, others: set<string>)
    requires Unglued(query, vars.Keys) && PlainValues(vars)
    ensures Safe(BracePass(query, vars), vars.Keys) <==> Safe(Erased(query, vars.Keys), vars.Keys)
    ensures Completed(Parse(BracePass(query, vars)), a, g, others)
        == Completed(Parse(Erased(query, vars.Keys)), a, g, others)
  {
    var blank := map n | n in vars.Keys :: "";
    hide BracePass, Parse, Unglued, Pairs, ClashFree, Completed;
    ExpandedAlike(query, vars, blank);
    PairsDecide(Parse(BracePass(query, vars)), vars.Keys, a, g, others);
    PairsDecide(Parse(BracePass(query, blank)), vars.Keys, a, g, others);
  }

  /**
   And where no braced variable stands directly behind a `$word` that is the exact condition for the whole result too:
   the query without its braced variables is safe.
   */
  lemma WholeIndependentIffSafe(query: string, names: set<string>)
    requires WordNames(names) && Unglued(query, names)
    ensures WholeIndependent(query, names) <==> Safe(Erased(query, names), names)
  {
    var erased := Erased(query, names);
    hide BracePass, Erased, Unglued, BracketPass;
    if Safe(erased, names) {
      forall vars: map<string, string>, o1, o2 |
        vars.Keys == names && PlainValues(vars) && Enumerates(o1, names) && Enumerates(o2, names)
        ensures Whole(query, o1, vars) == Whole(query, o2, vars)
      {
        ErasedAlike(query, vars, "", "", {});
        WholeSubstitution(query, vars, o1);
        WholeSubstitution(query, vars, o2);
      }
    } else {
      var vars := UnsafeWhole(query, names);
      var o1, o2 :| Enumerates(o1, vars.Keys) && Enumerates(o2, vars.Keys)
        && DollarsOf(BracePass(query, vars), o1, vars) != DollarsOf(BracePass(query, vars), o2, vars);
      WholeDollars(query, o1, vars);
      WholeDollars(query, o2, vars);
      assert Whole(query, o1, vars) != Whole(query, o2, vars);
    }
  }

  /** The values that break the order of the erased query break that of the expanded one, although they stand in it. */
  lemma UnsafeWhole(query: string, names: set<string>) returns (vars: map<string, string>)
    requires WordNames(names) && Unglued(query, names) && !Safe(Erased(query, names), names)
    ensures vars.Keys == names && PlainValues(vars) && DollarsDiffer(BracePass(query, vars), vars)
  {
    var t := Parse(Erased(query, names));
    var a, b := FindClash(t, names);
    var g := UnevenSuffix(t, a, b, names);
    WordsArePlain(g);
    vars := OnlyAt(names, a, g + "-");
    ErasedAlike(query, vars, a, g, names - {a});
    ErasedAlike(query, vars, a, "", names - {a});
    hide BracePass, Erased, Unglued, Completed, DollarsDiffer;
    GlueBreaksOrder(BracePass(query, vars), a, g, names);
  }

  lemma WholeDollars(query: string, order: seq<string>, vars: map<string, string>)
    requires PlainValues(vars) && Enumerates(order, vars.Keys)
    ensures DollarCount(Whole(query, order, vars)) == DollarsOf(BracePass(query, vars), order, vars)
  {
    InElems(order);
    BracketKeepsDollars(ReplaceEach(BracePass(query, vars), order, vars), vars);
  }

  // ---------------------------------------------------------------- what a query means

  /** A query in pieces: plain text, `$name`, `${name}` or `${name:option}`, and `[[name]]`. */
  datatype Piece =
    | Plain(text: string)
    | Simple(name: string)
    | Braced(name: string, option: string)
    | Bracketed(name: string)

  function TextOf(p: Piece): string {
    match p
    case Plain(text) => text
    case Simple(name) => "$" + name
    case Braced(name, option) => "${" + name + option + "}"
    case Bracketed(name) => "[[" + name + "]]"
  }

  function Written(ps: seq<Piece>): string {
    if ps == [] then "" else TextOf(ps[0]) + Written(ps[1..])
  }

  /** A variable of the map stands for its value, and everything else for itself. */
  function MeaningOf(p: Piece, vars: map<string, string>): string {
    if IsVariable(p, vars) then vars[p.name] else TextOf(p)
  }

  /** What may stand between the name and the closing brace. */
  predicate IsOption(option: string) {
    option == "" || option[0] == ':'
  }

  /** In braces and brackets only identifiers are variables, in braces alone or with an option. */
  predicate IsVariable(p: Piece, vars: map<string, string>) {
    && !p.Plain? && p.name in vars && (p.Simple? || Identifier(p.name))
    && (p.Braced? ==> IsOption(p.option))
  }

  function Meant(ps: seq<Piece>, vars: map<string, string>): string {
    if ps == [] then "" else MeaningOf(ps[0], vars) + Meant(ps[1..], vars)
  }

  predicate Identifier(name: string) {
    name != "" && AllWord(name) && !('0' <= name[0] <= '9')
  }

  /** Text that no step of the substitution takes for anything else. */
  predicate Quiet(u: string) {
    '$' !in u && '[' !in u
  }

  /** What comes behind a `$name` does not go on with the word, and is not another variable directly. */
  predicate Closes(w: string) {
    w == "" || (!IsWordChar(w[0]) && w[0] != '$')
  }

  predicate FineHere(p: Piece, rest: string, vars: map<string, string>) {
    match p
    case Plain(text) => Quiet(text)
    case Simple(name) => name != "" && AllWord(name) && Closes(rest) && Quiet(if name in vars then vars[name] else "")
    case Braced(name, option) =>
      && AllWord(name) && (option == "" || !IsWordChar(option[0])) && '}' !in option
      && Quiet(if IsVariable(p, vars) then vars[name] else option)
    case Bracketed(name) => AllWord(name)
  }

  /** Pieces whose texts, and the values of whose variables, are not taken for something else. */
  predicate WellWritten(ps: seq<Piece>, vars: map<string, string>) {
    ps == [] || (FineHere(ps[0], Written(ps[1..]), vars) && WellWritten(ps[1..], vars))
  }

  lemma {:induction false} BraceSkips(u: string, w: string, vars: map<string, string>)
    requires DollarFree(u)
    ensures BracePass(u + w, vars) == u + BracePass(w, vars)
  {
    hide BraceMatch;
    if u == "" {
      assert u + w == w;
    } else {
      var s := u + w;
      assert s[0] == u[0] && s[1..] == u[1..] + w;
      NoBraceInside(s);
      assert BracePass(s, vars) == [u[0]] + BracePass(u[1..] + w, vars);
      BraceSkips(u[1..], w, vars);
      Assoc([u[0]], u[1..], BracePass(w, vars));
      assert u == [u[0]] + u[1..];
    }
  }

  lemma {:induction false} FindIs(u: string, c: char, w: string)
    requires c !in u
    ensures Find(u + [c] + w, c) == |u|
  {
    var s := u + [c] + w;
    if u != "" {
      assert s[0] == u[0] && s[1..] == u[1..] + [c] + w;
      FindIs(u[1..], c, w);
    }
  }

  lemma BraceMatched(name: string, option: string, w: string)
    requires Identifier(name) && (option == "" || option[0] == ':') && '}' !in option
    ensures var s := "${" + name + option + "}" + w;
            BraceMatch(s) == (|name| + |option| + 3, |name|) && s[2..2 + |name|] == name
                && s[..|name| + |option| + 3] + w == s
            && s[|name| + |option| + 3..] == w
  {
    var s := "${" + name + option + "}" + w;
    var more := option + "}" + w;
    assert s[2..] == name + more;
    WordRunOf(name, more);
    if option != "" {
      FindIs(option[1..], '}', w);
      assert s[3 + |name|..] == option[1..] + ['}'] + w;
    }
  }

  lemma NoIdentifierNoMatch(name: string, more: string)
    requires AllWord(name) && more != "" && !IsWordChar(more[0])
    ensures !Identifier(name) || (more[0] != ':' && more[0] != '}') ==> BraceMatch("${" + name + more).0 == 0
    ensures !Identifier(name) ==> BracketMatch("[[" + name + more) == 0
  {
    WordRunOf(name, more);
    assert ("${" + name + more)[2..] == name + more == ("[[" + name + more)[2..];
    assert name != "" ==> (name + more)[0] == name[0];
  }

  /** Braces around something else than an identifier, alone or with an option, are text. */
  lemma BraceIsText(name: string, option: string, w: string, vars: map<string, string>)
    requires AllWord(name) && !(Identifier(name) && IsOption(option)) && Quiet(option)
    requires (option == "" || !IsWordChar(option[0])) && '}' !in option
    ensures var text := "${" + name + option + "}"; BracePass(text + w, vars) == text + BracePass(w, vars)
  {
    hide *;
    var text, inner := "${" + name + option + "}", "{" + name + option + "}";
    TextsOfBrace(name, option, w);
    BehindName(option, w);
    NoIdentifierNoMatch(name, option + "}" + w);
    BraceStep(text + w, vars);
    BraceSkips(inner, w, vars);
    Assoc("$", inner, BracePass(w, vars));
  }

  lemma TextsOfBrace(name: string, option: string, w: string)
    ensures var text, inner := "${" + name + option + "}", "{" + name + option + "}";
            && text + w == "${" + name + (option + "}" + w) && (text + w)[0] == '$' && (text + w)[1..] == inner + w
            && text == "$" + inner && (AllWord(name) && Quiet(option) ==> DollarFree(inner))
  {
    if AllWord(name) {
      WordsArePlain(name);
    }
    hide AllWord;
  }

  lemma BehindName(option: string, w: string)
    requires (option == "" || !IsWordChar(option[0])) && '}' !in option
    ensures var more := option + "}" + w;
            more != "" && !IsWordChar(more[0]) && (!IsOption(option) ==> more[0] != ':' && more[0] != '}')
  {
    assert option != "" ==> option[0] in option && (option + "}" + w)[0] == option[0];
  }

  lemma BraceReplaced(name: string, option: string, w: string, vars: map<string, string>)
    requires Identifier(name) && (option == "" || option[0] == ':') && '}' !in option
    ensures var text := "${" + name + option + "}";
            BracePass(text + w, vars) == (if name in vars then vars[name] else text) + BracePass(w, vars)
  {
    hide BraceMatch, BracePass, WordRun, Find;
    var text := "${" + name + option + "}";
    BraceMatched(name, option, w);
    BraceStep(text + w, vars);
    assert (text + w)[..|text|] == text;
  }

  lemma NoBraceBeforeWord(s: string)
    requires |s| >= 2 && s[0] == '$' && s[1] != '{'
    ensures BraceMatch(s).0 == 0
  {
  }

  lemma TokenKept(w: string, s: string, vars: map<string, string>)
    requires w != "" && AllWord(w)
    ensures BracePass("$" + w + s, vars) == "$" + w + BracePass(s, vars)
  {
    var q := "$" + w + s;
    hide BraceMatch, BracePass;
    assert q[1..] == w + s && q[1] == w[0];
    NoBraceBeforeWord(q);
    BraceStep(q, vars);
    BraceSkipsWord(w, s, vars);
    Assoc("$", w, BracePass(s, vars));
  }

  lemma {:induction false} EachSkips(u: string, s: string, order: seq<string>, vars: map<string, string>)
    requires DollarFree(u) && forall n :: n in order ==> n in vars
    ensures ReplaceEach(u + s, order, vars) == u + ReplaceEach(s, order, vars)
    decreases |order|
  {
    if order != [] {
      ReplaceSkips(u, s, order[0], vars[order[0]]);
      EachSkips(u, Replace(s, order[0], vars[order[0]]), order[1..], vars);
    }
  }

  lemma StillCloses(s: string, x: string, v: string)
    requires Closes(s)
    ensures Closes(Replace(s, x, v))
  {
    assert ("$" + x)[0] == '$';
  }

  lemma {:induction false} EachOnToken(w: string, s: string, order: seq<string>, vars: map<string, string>)
    requires w != "" && AllWord(w) && Closes(s) && Distinct(order)
    requires (forall n :: n in order ==> n in vars && AllWord(n)) && (w in order ==> DollarFree(vars[w]))
    ensures ReplaceEach("$" + w + s, order, vars)
        == (if w in order then vars[w] else "$" + w) + ReplaceEach(s, order, vars)
    decreases |order|
  {
    if order != [] {
      var x, rest := order[0], order[1..];
      var t := Replace(s, x, vars[x]);
      DollarMatch(w + s, x);
      WordMatch(w, s, x);
      WordsArePlain(w);
      assert "$" + w + s == "$" + (w + s);
      assert w in order <==> w == x || w in rest;
      assert w == x ==> w !in rest;
      StillCloses(s, x, vars[x]);
      hide Replace, Closes, MatchesHere, WordHere;
      if x == w {
        ReplaceMatch(w, s, vars[x]);
        EachSkips(vars[x], t, rest, vars);
      } else {
        ReplaceMismatch(w, s, x, vars[x]);
        EachOnToken(w, t, rest, vars);
      }
    }
  }

  /** A lone `$` in front of something else than a word stays. */
  lemma {:induction false} EachOnDollar(c: char, s: string, order: seq<string>, vars: map<string, string>)
    requires !IsWordChar(c) && c != '$'
    requires forall n :: n in order ==> n in vars && AllWord(n) && n != ""
    ensures ReplaceEach(['$', c] + s, order, vars) == ['$', c] + ReplaceEach(s, order, vars)
    decreases |order|
  {
    if order != [] {
      var x := order[0];
      var q := ['$', c] + s;
      assert x in order && AllWord(x) && x != "";
      assert q[1] == c && ("$" + x)[1] == x[0];
      assert !MatchesHere(q, x);
      assert q[1..] == [c] + s;
      ReplaceSkipsOne(c, s, x, vars[x]);
      assert Replace(q, x, vars[x]) == ['$', c] + Replace(s, x, vars[x]);
      hide Replace;
      EachOnDollar(c, Replace(s, x, vars[x]), order[1..], vars);
    }
  }

  lemma {:induction false} BracketSkips(u: string, w: string, vars: map<string, string>)
    requires '[' !in u
    ensures BracketPass(u + w, vars) == u + BracketPass(w, vars)
  {
    if u == "" {
      assert u + w == w;
    } else {
      var s := u + w;
      assert s[0] == u[0] && s[1..] == u[1..] + w;
      NoBracketInside(s, vars);
      BracketSkips(u[1..], w, vars);
      hide BracketPass;
      Assoc([u[0]], u[1..], BracketPass(w, vars));
      assert u == [u[0]] + u[1..];
    }
  }

  lemma NoBracketInside(s: string, vars: map<string, string>)
    requires s != "" && s[0] != '['
    ensures BracketPass(s, vars) == [s[0]] + BracketPass(s[1..], vars)
  {
    assert BracketMatch(s) == 0;
  }

  lemma BracketMatched(name: string, w: string)
    requires Identifier(name)
    ensures var s := "[[" + name + "]]" + w;
            BracketMatch(s) == |name| && s[2..2 + |name|] == name && s[..|name| + 4] == "[[" + name + "]]"
            && s[|name| + 4..] == w
  {
    var s := "[[" + name + "]]" + w;
    assert s[2..] == name + ("]]" + w);
    WordRunOf(name, "]]" + w);
    assert s[2 + |name|..] == "]]" + w;
  }

  lemma BracketReplaced(name: string, w: string, vars: map<string, string>)
    requires AllWord(name)
    ensures var text := "[[" + name + "]]";
            BracketPass(text + w, vars)
            == (if name in vars && Identifier(name) then vars[name] else text) + BracketPass(w, vars)
  {
    if Identifier(name) {
      BracketMatched(name, w);
      hide BracketMatch, WordRun;
    } else {
      BracketIsText(name, w, vars);
    }
  }

  lemma OneBracket(s: string, vars: map<string, string>)
    requires s != "" && BracketMatch(s) == 0
    ensures BracketPass(s, vars) == [s[0]] + BracketPass(s[1..], vars)
  {
  }

  lemma SingleBracket(s: string)
    requires |s| < 2 || s[0] != '[' || s[1] != '['
    ensures BracketMatch(s) == 0
  {
  }

  lemma BracketIsText(name: string, w: string, vars: map<string, string>)
    requires AllWord(name) && !Identifier(name)
    ensures var text := "[[" + name + "]]"; BracketPass(text + w, vars) == text + BracketPass(w, vars)
  {
    hide BraceMatch, BracketPass, BracketMatch;
    var inner := name + "]]";
    var q, r := "[[" + name + ("]]" + w), "[" + (inner + w);
    NoIdentifierNoMatch(name, "]]" + w);
    OneBracket(q, vars);
    assert q == "[[" + name + "]]" + w && q[1..] == r && r[1..] == inner + w;
    assert r[1] == if name == "" then ']' else name[0];
    SingleBracket(r);
    OneBracket(r, vars);
    WordHasNoBracket(name);
    assert '[' !in inner by {
      assert forall c :: c in name ==> c in "$" + name;
    }
    BracketSkips(inner, w, vars);
    assert "[" + ("[" + (inner + BracketPass(w, vars))) == ("[[" + name + "]]") + BracketPass(w, vars);
  }

  lemma WholePlain(u: string, w: string, order: seq<string>, vars: map<string, string>)
    requires Quiet(u) && Enumerates(order, vars.Keys)
    ensures Whole(u + w, order, vars) == u + Whole(w, order, vars)
  {
    hide BracePass, ReplaceEach, BracketPass;
    InElems(order);
    BraceSkips(u, w, vars);
    EachSkips(u, BracePass(w, vars), order, vars);
    BracketSkips(u, ReplaceEach(BracePass(w, vars), order, vars), vars);
  }

  lemma WholeSimple(name: string, w: string, order: seq<string>, vars: map<string, string>)
    requires name != "" && AllWord(name) && Closes(w) && Quiet(if name in vars then vars[name] else "")
    requires WordNames(vars.Keys) && Enumerates(order, vars.Keys)
    ensures Whole("$" + name + w, order, vars)
        == (if name in vars then vars[name] else "$" + name) + Whole(w, order, vars)
  {
    InElems(order);
    var s := BracePass(w, vars);
    NoBraceCloses(w, vars);
    TokenKept(name, w, vars);
    hide BracePass, ReplaceEach, BracketPass;
    EachOnToken(name, s, order, vars);
    assert IsWordChar(name[0]);
    WordHasNoBracket(name);
    BracketSkips(if name in vars then vars[name] else "$" + name, ReplaceEach(s, order, vars), vars);
  }

  lemma WordHasNoBracket(name: string)
    requires AllWord(name)
    ensures '[' !in "$" + name
  {
  }

  lemma NoBraceCloses(w: string, vars: map<string, string>)
    requires Closes(w)
    ensures Closes(BracePass(w, vars))
  {
    if w != "" {
      NoBraceInside(w);
      hide BraceMatch;
    }
  }

  lemma WholeBraced(name: string, option: string, w: string, order: seq<string>, vars: map<string, string>)
    requires AllWord(name) && (option == "" || !IsWordChar(option[0])) && '}' !in option
    requires Quiet(if name in vars && Identifier(name) && IsOption(option) then vars[name] else option)
    requires WordNames(vars.Keys) && "" !in vars && Enumerates(order, vars.Keys)
    ensures var text := "${" + name + option + "}";
            Whole(text + w, order, vars)
            == (if name in vars && Identifier(name) && IsOption(option) then vars[name] else text)
               + Whole(w, order, vars)
  {
    hide *;
    InElems(order);
    var s := BracePass(w, vars);
    OptionIs(option);
    if Identifier(name) && IsOption(option) {
      BraceReplaced(name, option, w, vars);
    } else {
      BraceIsText(name, option, w, vars);
    }
    WholeIs(order, vars);
    if name in vars && Identifier(name) && IsOption(option) {
      QuietIs(vars[name]);
      EachSkips(vars[name], s, order, vars);
      BracketSkips(vars[name], ReplaceEach(s, order, vars), vars);
    } else {
      UnknownBrace(name, option, s, order, vars);
    }
  }

  lemma OptionIs(option: string)
    ensures IsOption(option) <==> option == "" || option[0] == ':'
    ensures !IsWordChar(':')
  {
  }

  lemma QuietIs(u: string)
    ensures Quiet(u) <==> DollarFree(u) && '[' !in u
  {
  }

  lemma WholeIs(order: seq<string>, vars: map<string, string>)
    requires Enumerates(order, vars.Keys)
    ensures forall n :: n in order ==> n in vars
    ensures forall q :: Whole(q, order, vars) == BracketPass(ReplaceEach(BracePass(q, vars), order, vars), vars)
    ensures WordNames(vars.Keys) && "" !in vars ==> forall n :: n in order ==> AllWord(n) && n != ""
  {
    InElems(order);
  }

  /** The text of a brace, in its parts. */
  lemma BraceText(name: string, option: string)
    requires AllWord(name) && Quiet(option)
    ensures var inner := name + option + "}";
            "${" + name + option + "}" == ['$', '{'] + inner && DollarFree(inner) && '[' !in "${" + name + option + "}"
    ensures !IsWordChar('{')
  {
    WordsArePlain(name);
    WordHasNoBracket(name);
    assert '[' !in name by {
      assert forall c :: c in name ==> c in "$" + name;
    }
  }

  lemma UnknownBrace(name: string, option: string, s: string, order: seq<string>, vars: map<string, string>)
    requires AllWord(name) && Quiet(option) && forall n :: n in order ==> n in vars && AllWord(n) && n != ""
    ensures var text := "${" + name + option + "}";
            BracketPass(ReplaceEach(text + s, order, vars), vars)
                == text + BracketPass(ReplaceEach(s, order, vars), vars)
  {
    hide *;
    var inner, text := name + option + "}", "${" + name + option + "}";
    BraceText(name, option);
    Assoc(['$', '{'], inner, s);
    EachOnDollar('{', inner + s, order, vars);
    EachSkips(inner, s, order, vars);
    Assoc(['$', '{'], inner, ReplaceEach(s, order, vars));
    BracketSkips(text, ReplaceEach(s, order, vars), vars);
  }

  lemma WholeBracketed(name: string, w: string, order: seq<string>, vars: map<string, string>)
    requires AllWord(name) && Enumerates(order, vars.Keys)
    ensures var text := "[[" + name + "]]";
            Whole(text + w, order, vars)
            == (if name in vars && Identifier(name) then vars[name] else text) + Whole(w, order, vars)
  {
    InElems(order);
    var text := "[[" + name + "]]";
    WordsArePlain(name);
    assert DollarFree(text);
    hide BracePass, ReplaceEach, BracketPass;
    BraceSkips(text, w, vars);
    EachSkips(text, BracePass(w, vars), order, vars);
    BracketReplaced(name, ReplaceEach(BracePass(w, vars), order, vars), vars);
  }

  lemma WholeNothing(order: seq<string>, vars: map<string, string>)
    requires Enumerates(order, vars.Keys)
    ensures Whole("", order, vars) == ""
  {
    InElems(order);
    NothingReplaced(order, vars);
  }

  lemma NothingReplaced(order: seq<string>, vars: map<string, string>)
    requires forall n :: n in order ==> n in vars
    ensures ReplaceEach("", order, vars) == ""
    decreases |order|
  {
  }

  /** In every order of the map, a query written in pieces becomes what its pieces mean. */
  lemma {:induction false} WholeMeans(ps: seq<Piece>, order: seq<string>, vars: map<string, string>)
    requires WellWritten(ps, vars) && WordNames(vars.Keys) && "" !in vars && Enumerates(order, vars.Keys)
    ensures Whole(Written(ps), order, vars) == Meant(ps, vars)
  {
    hide Whole, Closes;
    if ps == [] {
      WholeNothing(order, vars);
    } else {
      var rest := Written(ps[1..]);
      WholeMeans(ps[1..], order, vars);
      match ps[0]
      case Plain(text) => WholePlain(text, rest, order, vars);
      case Simple(name) => WholeSimple(name, rest, order, vars);
      case Braced(name, option) => WholeBraced(name, option, rest, order, vars);
      case Bracketed(name) => WholeBracketed(name, rest, order, vars);
    }
  }

  /** The query `up{job="[[job]]"}`. */
  lemma JobInBrackets(job: string)
    ensures Whole("up{job=\"[[job]]\"}", ["job"], map["job" := job]) == "up{job=\"" + job + "\"}"
  {
    var ps := [Plain("up{job=\""), Bracketed("job"), Plain("\"}")];
    var vars := map["job" := job];
    JobPieces(job);
    OneName("job", vars);
    hide *;
    WholeMeans(ps, ["job"], vars);
  }

  lemma OneName(name: string, vars: map<string, string>)
    requires vars.Keys == {name}
    ensures Enumerates([name], vars.Keys)
  {
    assert [name][0] == name;
  }

  lemma PieceInFront(p: Piece, ps: seq<Piece>, vars: map<string, string>)
    ensures Written([p] + ps) == TextOf(p) + Written(ps)
        && Meant([p] + ps, vars) == MeaningOf(p, vars) + Meant(ps, vars)
    ensures WellWritten([p] + ps, vars) <==> FineHere(p, Written(ps), vars) && WellWritten(ps, vars)
    ensures Written([]) == "" && Meant([], vars) == "" && WellWritten([], vars)
  {
    assert ([p] + ps)[1..] == ps;
  }

  lemma JobIsVariable(vars: map<string, string>, job: string)
    requires vars == map["job" := job]
    ensures WordNames(vars.Keys) && "" !in vars && MeaningOf(Bracketed("job"), vars) == job
    ensures AllWord("job") && Quiet("up{job=\"") && Quiet("\"}") && TextOf(Bracketed("job")) == "[[job]]"
  {
  }

  lemma JobPieces(job: string)
    ensures var ps, vars := [Plain("up{job=\""), Bracketed("job"), Plain("\"}")], map["job" := job];
            && WellWritten(ps, vars) && WordNames(vars.Keys) && "" !in vars
            && Written(ps) == "up{job=\"[[job]]\"}" && Meant(ps, vars) == "up{job=\"" + job + "\"}"
  {
    var vars := map["job" := job];
    var first, second, third := Plain("up{job=\""), Bracketed("job"), Plain("\"}");
    JobIsVariable(vars, job);
    hide Written, Meant, WellWritten, MeaningOf, Identifier, AllWord, WordNames, Quiet;
    PieceInFront(third, [], vars);
    PieceInFront(second, [third] + [], vars);
    PieceInFront(first, [second] + ([third] + []), vars);
    PlainMeans(first, vars);
    PlainMeans(third, vars);
    assert [first, second, third] == [first] + ([second] + ([third] + []));
  }

  lemma PlainMeans(p: Piece, vars: map<string, string>)
    requires p.Plain?
    ensures MeaningOf(p, vars) == p.text && TextOf(p) == p.text
  {
  }
}
