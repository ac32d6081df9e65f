/**
 What the graph of a repository says (build_rag_artifacts.py), read off the analysis itself: which nodes and edges there
 are, in terms of the names in files, types, methods, configuration chunks and service dependencies, without the tables
 and the order in which the builder goes.
 */
module GraphMeaning {
  import opened Common
  import opened GraphBuilder

  // ---------------------------------------------------------------- what names refer to

  /** All types of an analysis, in order. */
  function AllTypes(files: seq<FileInfo>): seq<TypeInfo> {
    if files == [] then [] else AllTypes(files[..|files| - 1]) + files[|files| - 1].types
  }

  ghost predicate IsTypeName(types: seq<TypeInfo>, q: string) {
    exists t :: t in types && NameOf(t) == q
  }

  /** The type at `i` is the first one with this simple name. */
  predicate FirstNamed(types: seq<TypeInfo>, simple: string, i: nat) {
    simple != "" && i < |types| && types[i].name == simple && forall j :: 0 <= j < i ==> types[j].name != simple
  }

  /** A reference by name: to the type of that name, or else to the first type of its simple name. */
  ghost predicate RefersTo(types: seq<TypeInfo>, name: string, q: string) {
    && name != ""
    && var clean := CleanTypeName(name);
       if IsTypeName(types, clean) then q == clean
       else exists i: nat :: FirstNamed(types, Simple(clean), i) && q == NameOf(types[i])
  }

  /** `id` is a method called `name` of a type with this name, or with this simple name. */
  predicate MethodOfType(t: TypeInfo, m: Method, name: string, id: string) {
    m in t.methods && m.name == name && id == MethodId(NameOf(t), m)
  }

  ghost predicate OfQualified(types: seq<TypeInfo>, owner: string, name: string, id: string) {
    exists t, m :: t in types && NameOf(t) == owner && MethodOfType(t, m, name, id)
  }

  ghost predicate OfSimple(types: seq<TypeInfo>, owner: string, name: string, id: string) {
    exists t, m :: t in types && t.name == owner && MethodOfType(t, m, name, id)
  }

  /**
   A reference `owner.name`: to the methods of the type `owner`, or else to those of the types of that simple name.
   */
  ghost predicate Reaches(types: seq<TypeInfo>, target: string, id: string) {
    exists owner, name ::
      && target == owner + "." + name && '.' !in name
      && if exists x :: OfQualified(types, owner, name, x) then OfQualified(types, owner, name, id)
         else OfSimple(types, owner, name, id)
  }

  /** A name without white space, brackets and type arguments. */
  predicate PlainName(n: string) {
    n != "" && forall c :: c in n ==> !Blank(c) && c != '[' && c != '<'
  }

  lemma PlainShorter(n: string)
    requires PlainName(n) && |n| > 1
    ensures PlainName(n[..|n| - 1])
  {
    var shorter := n[..|n| - 1];
    assert |shorter| > 0;
    forall c | c in shorter ensures !Blank(c) && c != '[' && c != '<' {
      assert c in n;
    }
    assert PlainName(shorter);
  }

  lemma {:induction false} PlainCollapsed(n: string)
    requires PlainName(n)
    ensures Collapsed(n) == n
  {
    var front, c := n[..|n| - 1], n[|n| - 1];
    assert c in n && n == front + [c];
    if |n| > 1 {
      PlainShorter(n);
      PlainCollapsed(front);
      assert n[|n| - 2] in n;
    } else {
      assert front == "" && Collapsed(front) == "";
    }
    hide Blank, PlainName;
  }

  lemma {:induction false} CollapsedFront(n: string, x: string)
    requires PlainName(n)
    ensures n <= Collapsed(n + x)
    ensures x == "" ==> Collapsed(n + x) == n
    decreases |x|
  {
    hide Blank, PlainName;
    if x == "" {
      assert n + x == n;
      PlainCollapsed(n);
    } else {
      var s := n + x;
      assert s[..|s| - 1] == n + x[..|x| - 1];
      CollapsedFront(n, x[..|x| - 1]);
      CollapsedGrows(s);
    }
  }

  /** A further character takes nothing away. */
  lemma CollapsedGrows(s: string)
    requires s != ""
    ensures Collapsed(s[..|s| - 1]) <= Collapsed(s)
  {
    hide Blank;
  }

  /** The next character behind a plain name, if it is no white space, is kept. */
  lemma {:induction false} CollapsedNext(n: string, c: char, x: string)
    requires PlainName(n) && !Blank(c)
    ensures n + [c] <= Collapsed(n + [c] + x)
    ensures x == "" ==> Collapsed(n + [c] + x) == n + [c]
    decreases |x|
  {
    hide Blank;
    var s := n + [c] + x;
    if x != "" {
      assert s[..|s| - 1] == n + [c] + x[..|x| - 1];
      CollapsedNext(n, c, x[..|x| - 1]);
    } else {
      assert s[..|s| - 1] == n + "" && s[|s| - 2] == n[|n| - 1] && n[|n| - 1] in n;
      CollapsedFront(n, "");
    }
  }

  /** White space of the language, by its codes. */
  lemma BlankCodes(c: char)
    ensures Blank(c) <==>
              var u := c as int;
              || 9 <= u <= 13 || 28 <= u <= 32 || u == 133 || u == 160 || u == 5760 || 8192 <= u <= 8202 || u == 8232
              || u == 8233 || u == 8239 || u == 8287 || u == 12288
  {
  }

  predicate AllBlank(g: string) {
    forall i :: 0 <= i < |g| ==> Blank(g[i])
  }

  predicate Solid(w: string) {
    w != "" && forall i :: 0 <= i < |w| ==> !Blank(w[i])
  }

  lemma {:induction false} CollapsedGap(s: string, g: string)
    requires AllBlank(g)
    ensures Collapsed(s + g) == Collapsed(s)
    decreases |g|
  {
    hide Blank;
    if g == "" {
      assert s + g == s;
    } else {
      var t := s + g;
      assert t[..|t| - 1] == s + g[..|g| - 1] && t[|t| - 1] == g[|g| - 1];
      CollapsedGap(s, g[..|g| - 1]);
    }
  }

  lemma CollapsedLast(front: string, c: char)
    requires !Blank(c)
    ensures Collapsed("") == ""
    ensures Collapsed(front + [c]) ==
              if front != "" && Blank(front[|front| - 1]) && Collapsed(front) != "" then Collapsed(front) + " " + [c]
              else Collapsed(front) + [c]
  {
    hide Blank;
    var t := front + [c];
    assert t[..|t| - 1] == front;
  }

  /** Collapsing keeps the words of a text, with one blank between any two. */
  lemma {:induction false} NextWord(s: string, g: string, w: string)
    requires AllBlank(g) && Solid(w) && (g != "" || s == "")
    ensures Collapsed(s + g + w) == if Collapsed(s) == "" then w else Collapsed(s) + " " + w
    decreases |w|
  {
    hide Blank, Collapsed;
    var c, front := w[|w| - 1], w[..|w| - 1];
    CollapsedLast(s + g + front, c);
    assert w == front + [c] && s + g + w == (s + g + front) + [c];
    CollapsedGap(s, g);
    if front != "" {
      NextWord(s, g, front);
      assert (s + g + front)[|s + g + front| - 1] == front[|front| - 1];
    } else {
      assert s + g + front == s + g;
      assert g != "" ==> (s + g)[|s + g| - 1] == g[|g| - 1];
    }
  }

  lemma {:induction false} WithoutBracketsFront(n: string, x: string)
    requires '[' !in n
    ensures WithoutBrackets(n + x) == n + WithoutBrackets(x)
  {
    if n == "" {
      assert n + x == x;
    } else {
      assert (n + x)[0] == n[0] && (n + x)[1..] == n[1..] + x;
      WithoutBracketsFront(n[1..], x);
    }
  }

  lemma {:induction false} UpToFront(n: string, x: string, mark: char)
    requires mark !in n
    ensures UpTo(n + x, mark) == n + UpTo(x, mark)
  {
    if n == "" {
      assert n + x == x;
    } else {
      assert (n + x)[0] == n[0] && (n + x)[1..] == n[1..] + x;
      UpToFront(n[1..], x, mark);
    }
  }

  /** A plain name stands for itself, and so does the array type over it and the generic type with any arguments. */
  lemma CleanNames(n: string, arguments: string)
    requires PlainName(n)
    ensures CleanTypeName(n) == n && CleanTypeName(n + "[]") == n && CleanTypeName(n + "<" + arguments) == n
  {
    assert n + "" == n && n + "[]" == n + "[" + "]";
    PlainClean(n);
    ArrayClean(n);
    GenericClean(n, arguments);
  }

  lemma PlainClean(n: string)
    requires PlainName(n)
    ensures CleanTypeName(n) == n
  {
    assert n + "" == n;
    CollapsedFront(n, "");
    WithoutBracketsFront(n, "");
    UpToFront(n, "", '<');
    assert WithoutBrackets("") == "" && UpTo("", '<') == "";
    hide Collapsed, WithoutBrackets, UpTo, Blank;
  }

  lemma ArrayClean(n: string)
    requires PlainName(n)
    ensures CleanTypeName(n + "[]") == n
  {
    assert !Blank('[') && !Blank(']');
    CollapsedArray(n);
    WithoutBracketsFront(n, "[]");
    assert "[]"[2..] == "" && WithoutBrackets("") == "" && WithoutBrackets("[]") == "";
    assert n + "" == n;
    UpToFront(n, "", '<');
    assert UpTo("", '<') == "";
    hide Collapsed, WithoutBrackets, UpTo, Blank;
  }

  lemma CollapsedArray(n: string)
    requires PlainName(n)
    ensures Collapsed(n + "[]") == n + "[]"
  {
    var s := n + "[]";
    assert s[..|s| - 1] == n + ['['] + "";
    CollapsedNext(n, '[', "");
    assert s[|s| - 1] == ']' && s[|s| - 2] == '[';
  }

  lemma GenericClean(n: string, arguments: string)
    requires PlainName(n)
    ensures CleanTypeName(n + "<" + arguments) == n
  {
    assert !Blank('<');
    CollapsedNext(n, '<', arguments);
    var collapsed := Collapsed(n + "<" + arguments);
    hide Collapsed, Blank, WithoutBrackets, UpTo;
    var tail := collapsed[|n|..];
    assert collapsed == n + tail && tail[0] == '<';
    WithoutBracketsFront(n, tail);
    BracketsBehind(tail);
    UpToFront(n, WithoutBrackets(tail), '<');
    UpToNothing(WithoutBrackets(tail));
  }

  lemma BracketsBehind(tail: string)
    requires tail != "" && tail[0] == '<'
    ensures WithoutBrackets(tail) != "" && WithoutBrackets(tail)[0] == '<'
  {
  }

  lemma UpToNothing(s: string)
    requires s != "" && s[0] == '<'
    ensures UpTo(s, '<') == ""
  {
  }

  /** The simple name is what stands behind the last dot. */
  lemma SimpleIs(prefix: string, simple: string)
    requires '.' !in simple
    ensures Simple(simple) == simple && Simple(prefix + "." + simple) == simple
  {
    NoLastDot(simple);
    LastDotIs(prefix + "." + simple, |prefix|);
    hide LastDot;
    assert (prefix + "." + simple)[|prefix| + 1..] == simple;
  }

  // ---------------------------------------------------------------- ids of methods

  /** A part of a list that can be told from its neighbours. */
  predicate Part(s: string) {
    s != "" && ',' !in s
  }

  lemma {:induction false} JoinedFront(parts: seq<string>)
    requires |parts| > 1
    ensures CommaJoined(parts) == parts[0] + "," + CommaJoined(parts[1..])
  {
    var n := |parts| - 1;
    assert parts[1..][..n - 1] == parts[..n][1..] && parts[1..][n - 1] == parts[n];
    if n > 1 {
      JoinedFront(parts[..n]);
    } else {
      assert parts[1..] == [parts[1]] && parts[..1] == [parts[0]];
    }
  }

  /** A text up to the first occurrence of a character, and what follows, can be told from the whole. */
  lemma SplitOnce(a: string, x: string, b: string, y: string, mark: char)
    requires mark !in a && mark !in b && a + [mark] + x == b + [mark] + y
    ensures a == b && x == y
  {
    var whole := a + [mark] + x;
    assert whole[|a|] == mark && whole[|b|] == mark;
    if |a| < |b| {
      assert false;
    } else if |b| < |a| {
      assert false;
    }
    assert a == whole[..|a|] && b == whole[..|b|] && x == whole[|a| + 1..] && y == whole[|b| + 1..];
  }

  lemma JoinedShort(parts: seq<string>)
    requires |parts| <= 1 && forall i :: 0 <= i < |parts| ==> Part(parts[i])
    ensures ',' !in CommaJoined(parts) && (CommaJoined(parts) == "" <==> parts == [])
  {
  }

  lemma {:induction false} JoinedTellsApart(a: seq<string>, b: seq<string>)
    requires (forall i :: 0 <= i < |a| ==> Part(a[i])) && (forall i :: 0 <= i < |b| ==> Part(b[i]))
    requires CommaJoined(a) == CommaJoined(b)
    ensures a == b
    decreases |a|
  {
    hide CommaJoined;
    if |a| > 1 && |b| > 1 {
      JoinedFront(a);
      JoinedFront(b);
      SplitOnce(a[0], CommaJoined(a[1..]), b[0], CommaJoined(b[1..]), ',');
      JoinedTellsApart(a[1..], b[1..]);
      assert a == [a[0]] + a[1..] && b == [b[0]] + b[1..];
    } else if |a| > 1 {
      JoinedFront(a);
      JoinedShort(b);
      assert false;
    } else if |b| > 1 {
      JoinedFront(b);
      JoinedShort(a);
      assert false;
    } else {
      JoinedShort(a);
      JoinedShort(b);
      JoinedOne(a, b);
    }
  }

  lemma JoinedOne(a: seq<string>, b: seq<string>)
    requires |a| <= 1 && |b| <= 1 && CommaJoined(a) == CommaJoined(b) && (a == [] <==> b == [])
    ensures a == b
  {
  }

  function TypesOf(m: Method): (types: seq<string>)
    ensures |types| == |m.params| && forall i :: 0 <= i < |types| ==> types[i] == NormalizeTypeName(m.params[i].kind)
  {
    seq(|m.params|, i requires 0 <= i < |m.params| => NormalizeTypeName(m.params[i].kind))
  }

  /** A method whose name and types cannot be taken for a part of its id. */
  predicate ProperMethod(m: Method) {
    '(' !in m.name && forall i :: 0 <= i < |m.params| ==> Part(NormalizeTypeName(m.params[i].kind))
  }

  lemma MethodIdText(owner: string, m: Method)
    ensures MethodId(owner, m) == "method:" + (owner + "#" + (m.name + "(" + (CommaJoined(TypesOf(m)) + ")")))
  {
    assert TypesOf(m) == seq(|m.params|, i requires 0 <= i < |m.params| => NormalizeTypeName(m.params[i].kind));
    hide CommaJoined, NormalizeTypeName;
  }

  /** Overloads have ids of their own: two methods share one exactly if owner, name and parameter types are the same. */
  lemma MethodsTellApart(o: string, m: Method, p: string, n: Method)
    requires '#' !in o && '#' !in p && ProperMethod(m) && ProperMethod(n)
    ensures MethodId(o, m) == MethodId(p, n) <==> o == p && m.name == n.name && TypesOf(m) == TypesOf(n)
  {
    MethodIdText(o, m);
    MethodIdText(p, n);
    hide MethodId, CommaJoined, NormalizeTypeName;
    if MethodId(o, m) == MethodId(p, n) {
      var x, y := CommaJoined(TypesOf(m)) + ")", CommaJoined(TypesOf(n)) + ")";
      var u, v := m.name + "(" + x, n.name + "(" + y;
      assert MethodId(o, m)[7..] == o + "#" + u && MethodId(p, n)[7..] == p + "#" + v;
      SplitOnce(o, u, p, v, '#');
      SplitOnce(m.name, x, n.name, y, '(');
      assert x[..|x| - 1] == CommaJoined(TypesOf(m)) && y[..|y| - 1] == CommaJoined(TypesOf(n));
      JoinedTellsApart(TypesOf(m), TypesOf(n));
    }
  }

  // ---------------------------------------------------------------- an example of the texts

  /** `run(Order order, int count)`, exposed under `/run`. */
  const RUN := Method("run", [Param("order", "Order"), Param("count", "int")], "void", "/run", "", ["GET", "POST"], [],
                      [], [], [])

  lemma PlainWords()
    ensures PlainName("Order") && PlainName("int")
  {
  }

  lemma RunTypes()
    ensures TypesOf(RUN) == ["Order", "int"]
  {
    PlainWords();
    hide Collapsed, PlainName;
    CollapsedFront("Order", "");
    CollapsedFront("int", "");
    assert "Order" + "" == "Order" && "int" + "" == "int";
  }

  lemma TwoJoined(a: string, b: string)
    ensures CommaJoined([a, b]) == a + "," + b
  {
    assert [a, b][..1] == [a];
  }

  lemma RunId()
    ensures MethodId("shop.A", RUN) == "method:shop.A#run(Order,int)"
  {
    hide MethodId, CommaJoined, TypesOf;
    RunTypes();
    TwoJoined("Order", "int");
    MethodIdText("shop.A", RUN);
    assert "shop.A" + "#" + ("run" + "(" + ("Order,int" + ")")) == "shop.A#run(Order,int)";
  }

  lemma RunTitles()
    ensures ShortRef(RUN) == "run(Order, int)" && EndpointTitle(RUN) == "GET,POST /run"
  {
    TwoJoined("GET", "POST");
    assert RUN.params[..1] == [RUN.params[0]];
    hide CommaJoined;
  }

  lemma EndpointIds()
    ensures EndpointOf(RUN) == "endpoint:GET,POST:/run" && EndpointId([], "/x") == "endpoint:ANY:/x"
    ensures ExternalEndpointId("pay", ["PUT"], "/x") == "endpoint:external:pay:PUT:/x"
    ensures ExternalTitle(["PUT"], "/x") == "PUT /x"
  {
    TwoJoined("GET", "POST");
  }

  /** How the method, its endpoint and the other ids are written. */
  lemma RunIsWritten()
    ensures MethodId("shop.A", RUN) == "method:shop.A#run(Order,int)" && ShortRef(RUN) == "run(Order, int)"
    ensures EndpointOf(RUN) == "endpoint:GET,POST:/run" && EndpointTitle(RUN) == "GET,POST /run"
    ensures EndpointId([], "/x") == "endpoint:ANY:/x"
    ensures ExternalEndpointId("pay", ["PUT"], "/x") == "endpoint:external:pay:PUT:/x"
    ensures ExternalTitle(["PUT"], "/x") == "PUT /x" && NormalizeTypeName("") == "void"
    ensures ClassId("shop.A") == "class:shop.A" && FileId("A.java") == "file:A.java" && ConfigId("k") == "config:k"
    ensures ServiceId("s") == "service:s" && RepositoryId("s") == "repository:s"
        && ExternalServiceId("s") == "external_service:s"
  {
    RunId();
    RunTitles();
    EndpointIds();
    hide MethodId, ShortRef, EndpointOf, EndpointTitle, EndpointId, ExternalEndpointId, ExternalTitle;
  }

  // ---------------------------------------------------------------- the tables hold these names

  lemma {:induction false} TypesAppend(files: seq<FileInfo>, ts: Tables)
    requires ts == NO_TABLES
    ensures WithFiles(ts, files) == WithTypes(ts, AllTypes(files))
  {
    if files != [] {
      TypesAppend(files[..|files| - 1], ts);
      WithTypesAppend(ts, AllTypes(files[..|files| - 1]), files[|files| - 1].types);
    }
  }

  lemma {:induction false} WithTypesAppend(ts: Tables, a: seq<TypeInfo>, b: seq<TypeInfo>)
    ensures WithTypes(WithTypes(ts, a), b) == WithTypes(ts, a + b)
  {
    hide WithType, WithMethods;
    if b == [] {
      assert a + b == a;
    } else {
      assert (a + b)[..|a + b| - 1] == a + b[..|b| - 1];
      WithTypesAppend(ts, a, b[..|b| - 1]);
    }
  }

  lemma {:induction false} MethodsKeepNames(ts: Tables, owner: string, shortOwner: string, ms: seq<Method>)
    ensures var after := WithMethods(ts, owner, shortOwner, ms);
            after.qualified == ts.qualified && after.bySimple == ts.bySimple
  {
    if ms != [] {
      MethodsKeepNames(ts, owner, shortOwner, ms[..|ms| - 1]);
    }
  }

  lemma {:induction false} QualifiedAre(types: seq<TypeInfo>, q: string)
    ensures q in WithTypes(NO_TABLES, types).qualified <==> IsTypeName(types, q)
  {
    if types != [] {
      var n := |types| - 1;
      var t := types[n];
      QualifiedAre(types[..n], q);
      MethodsKeepNames(WithType(WithTypes(NO_TABLES, types[..n]), t), NameOf(t), t.name, t.methods);
      hide NameOf, WithTypes, WithMethods;
      assert types == types[..n] + [t];
    }
  }

  ghost predicate BySimpleIs(types: seq<TypeInfo>, bySimple: map<string, string>, simple: string) {
    && (simple in bySimple <==> exists i: nat :: FirstNamed(types, simple, i))
    && (forall i: nat :: FirstNamed(types, simple, i) ==> simple in bySimple && bySimple[simple] == NameOf(types[i]))
  }

  lemma {:induction false} SimpleAre(types: seq<TypeInfo>, simple: string)
    ensures BySimpleIs(types, WithTypes(NO_TABLES, types).bySimple, simple)
  {
    if types != [] {
      var n := |types| - 1;
      var t := types[n];
      SimpleAre(types[..n], simple);
      var before := WithTypes(NO_TABLES, types[..n]);
      MethodsKeepNames(WithType(before, t), NameOf(t), t.name, t.methods);
      hide WithTypes, WithMethods;
      SimpleNext(types, before.bySimple, WithType(before, t).bySimple, simple);
    }
  }

  lemma SimpleNext(types: seq<TypeInfo>, before: map<string, string>, after: map<string, string>, simple: string)
    requires types != [] && BySimpleIs(types[..|types| - 1], before, simple)
    requires var t := types[|types| - 1];
             after == if t.name != "" && t.name !in before then before[t.name := NameOf(t)] else before
    ensures BySimpleIs(types, after, simple)
  {
    hide NameOf;
    var n := |types| - 1;
    forall i: nat | i < n ensures FirstNamed(types, simple, i) <==> FirstNamed(types[..n], simple, i) {
    }
    if simple != "" && types[n].name == simple && !(exists i: nat :: FirstNamed(types[..n], simple, i)) {
      NoneNamed(types[..n], simple);
      assert FirstNamed(types, simple, n);
    }
    if simple in after {
      if simple in before {
        var i: nat :| FirstNamed(types[..n], simple, i);
        assert FirstNamed(types, simple, i);
      }
    }
  }

  /** Where no type is the first of a name, none has it. */
  lemma {:induction false} NoneNamed(types: seq<TypeInfo>, simple: string)
    requires simple != "" && forall i: nat :: !FirstNamed(types, simple, i)
    ensures forall j :: 0 <= j < |types| ==> types[j].name != simple
  {
    if types != [] {
      var n := |types| - 1;
      forall i: nat ensures !FirstNamed(types[..n], simple, i) {
        if FirstNamed(types[..n], simple, i) {
          assert FirstNamed(types, simple, i);
        }
      }
      NoneNamed(types[..n], simple);
      assert !FirstNamed(types, simple, n);
    }
  }

  /** The tables resolve a type reference to what it refers to. */
  lemma TypeReferenceIs(a: Analysis, name: string, q: string)
    ensures ResolveTypeReference(name, TablesOf(a)) == Some(q) <==> RefersTo(AllTypes(a.files), name, q)
  {
    var types := AllTypes(a.files);
    var clean := CleanTypeName(name);
    TypesAppend(a.files, NO_TABLES);
    QualifiedAre(types, clean);
    SimpleAre(types, Simple(clean));
    hide CleanTypeName, Simple, WithTypes, WithFiles, AllTypes, NameOf;
    if RefersTo(types, name, q) && !IsTypeName(types, clean) {
      var i: nat :| FirstNamed(types, Simple(clean), i) && q == NameOf(types[i]);
    }
  }

  // ---------------------------------------------------------------- methods by name

  ghost predicate OwnsMethod(methods: seq<Method>, owner: string, name: string, id: string) {
    exists m :: m in methods && m.name == name && id == MethodId(owner, m)
  }

  lemma {:induction false} MethodsListed(ts: Tables, owner: string, shortOwner: string, ms: seq<Method>, o: string,
                                         name: string, id: string)
    ensures var after := WithMethods(ts, owner, shortOwner, ms);
            && (id in Listed(after.byQualified, o, name)
                <==> id in Listed(ts.byQualified, o, name) || (o == owner && OwnsMethod(ms, owner, name, id)))
            && (id in Listed(after.byShort, o, name)
                <==> id in Listed(ts.byShort, o, name) || (o == shortOwner && OwnsMethod(ms, owner, name, id)))
  {
    if ms != [] {
      var n := |ms| - 1;
      MethodsListed(ts, owner, shortOwner, ms[..n], o, name, id);
      hide MethodId, WithMethods;
      assert ms == ms[..n] + [ms[n]];
      assert OwnsMethod(ms, owner, name, id)
        <==> OwnsMethod(ms[..n], owner, name, id) || (ms[n].name == name && id == MethodId(owner, ms[n]));
      hide OwnsMethod;
      MethodListed(WithMethods(ts, owner, shortOwner, ms[..n]), owner, shortOwner, ms[n], o, name, id);
    }
  }

  lemma MethodListed(ts: Tables, owner: string, shortOwner: string, m: Method, o: string, name: string, id: string)
    ensures var after := WithMethod(ts, owner, shortOwner, m);
            var here := m.name == name && id == MethodId(owner, m);
            && (id in Listed(after.byQualified, o, name)
                <==> id in Listed(ts.byQualified, o, name) || (o == owner && here))
            && (id in Listed(after.byShort, o, name)
                <==> id in Listed(ts.byShort, o, name) || (o == shortOwner && here))
  {
    hide MethodId;
  }

  lemma OwnedIff(t: TypeInfo, name: string, id: string)
    ensures OwnsMethod(t.methods, NameOf(t), name, id) <==> exists m :: MethodOfType(t, m, name, id)
  {
    hide MethodId, NameOf;
    if OwnsMethod(t.methods, NameOf(t), name, id) {
      var m :| m in t.methods && m.name == name && id == MethodId(NameOf(t), m);
      assert MethodOfType(t, m, name, id);
    }
  }

  lemma {:induction false} MethodsAre(types: seq<TypeInfo>, owner: string, name: string, id: string)
    ensures var ts := WithTypes(NO_TABLES, types);
            && (id in Listed(ts.byQualified, owner, name) <==> OfQualified(types, owner, name, id))
            && (id in Listed(ts.byShort, owner, name) <==> OfSimple(types, owner, name, id))
  {
    if types != [] {
      var n := |types| - 1;
      var t := types[n];
      var before := WithTypes(NO_TABLES, types[..n]);
      MethodsAre(types[..n], owner, name, id);
      MethodsListed(WithType(before, t), NameOf(t), t.name, t.methods, owner, name, id);
      hide MethodId, NameOf, WithTypes, WithMethods;
      assert types == types[..n] + [t];
      OwnedIff(t, name, id);
      hide OwnsMethod, MethodOfType;
    }
  }

  lemma {:induction false} LastDotIs(s: string, i: nat)
    ensures LastDot(s) == Some(i) <==> i < |s| && s[i] == '.' && '.' !in s[i + 1..]
  {
    if s != "" && s[|s| - 1] != '.' {
      var n := |s| - 1;
      LastDotIs(s[..n], i);
      if i < n {
        assert s[i + 1..] == s[..n][i + 1..] + [s[n]];
      }
    } else if s != "" && i < |s| - 1 {
      assert s[i + 1..][|s| - 2 - i] == '.';
    }
  }

  lemma {:induction false} NoLastDot(s: string)
    ensures LastDot(s) == None <==> '.' !in s
  {
    if s != "" {
      NoLastDot(s[..|s| - 1]);
      assert s == s[..|s| - 1] + [s[|s| - 1]];
    }
  }

  /** The tables resolve a method reference to the methods it reaches. */
  lemma MethodReferenceIs(a: Analysis, target: string, id: string)
    ensures id in ResolveMethodReference(target, TablesOf(a)) <==> Reaches(AllTypes(a.files), target, id)
  {
    var types := AllTypes(a.files);
    var ts := TablesOf(a);
    hide Listed, WithTypes, WithFiles, AllTypes, OfQualified, OfSimple, LastDot;
    TypesAppend(a.files, NO_TABLES);
    NoLastDot(target);
    match LastDot(target)
    case None =>
    case Some(i) =>
      LastDotIs(target, i);
      var owner, name := target[..i], target[i + 1..];
      assert target == owner + "." + name;
      forall x ensures x in Listed(ts.byQualified, owner, name) <==> OfQualified(types, owner, name, x) {
        MethodsAre(types, owner, name, x);
      }
      MethodsAre(types, owner, name, id);
      NotEmptyIff(Listed(ts.byQualified, owner, name));
      forall o, n | target == o + "." + n && '.' !in n ensures o == owner && n == name {
        assert target[|o|] == '.' && target[|o| + 1..] == n;
        LastDotIs(target, |o|);
        assert o == target[..|o|];
      }
  }

  lemma NotEmptyIff<T>(s: seq<T>)
    ensures s != [] <==> exists x :: x in s
  {
    if s != [] {
      assert s[0] in s;
    }
  }

  // ---------------------------------------------------------------- what an analysis asks for

  predicate MethodAsks(owner: string, m: Method, i: Insertion) {
    || i == PutNode(MethodId(owner, m), Node("Method", ShortRef(m)))
    || i == Link(ClassId(owner), MethodId(owner, m), "DECLARES_METHOD")
    || (m.endpoint != "" && i == PutNode(EndpointOf(m), Node("Endpoint", EndpointTitle(m))))
    || (m.endpoint != "" && i == Link(MethodId(owner, m), EndpointOf(m), "EXPOSES"))
  }

  ghost predicate TypeAsks(service: string, file: string, t: TypeInfo, i: Insertion) {
    || i == PutNode(ClassId(NameOf(t)), Node(t.nodeKind, t.name))
    || i == Link(service, ClassId(NameOf(t)), "CONTAINS_COMPONENT")
    || i == Link(file, ClassId(NameOf(t)), "DECLARES_CLASS")
    || exists m :: m in t.methods && MethodAsks(NameOf(t), m, i)
  }

  ghost predicate FileAsks(repository: string, service: string, f: FileInfo, i: Insertion) {
    || i == PutNode(FileId(f.path), Node("File", f.name))
    || i == Link(repository, FileId(f.path), "HAS_FILE")
    || exists t :: t in f.types && TypeAsks(service, FileId(f.path), t, i)
  }

  /** An edge to the type a reference refers to. */
  ghost predicate TypeEdge(types: seq<TypeInfo>, from: string, name: string, kind: string, metadata: Metadata,
                           i: Insertion) {
    exists q :: q != "" && RefersTo(types, name, q) && i == PutEdge(EdgeId(from, ClassId(q), kind), metadata)
  }

  ghost predicate CallEdge(types: seq<TypeInfo>, from: string, target: string, i: Insertion) {
    exists id :: Reaches(types, target, id) && i == Link(from, id, "CALLS")
  }

  ghost predicate MethodLinkAsks(types: seq<TypeInfo>, owner: string, m: Method, i: Insertion) {
    || (exists target :: target in m.internalCalls && CallEdge(types, MethodId(owner, m), target, i))
    || TypeEdge(types, MethodId(owner, m), m.returnType, "RETURNS", NoMetadata, i)
    || (exists p :: p in m.params && TypeEdge(types, MethodId(owner, m), p.kind, "ACCEPTS", Parameter(p.name), i))
  }

  ghost predicate TypeLinkAsks(types: seq<TypeInfo>, t: TypeInfo, i: Insertion) {
    var id := ClassId(NameOf(t));
    || (exists n :: n in t.internalDependencies && TypeEdge(types, id, n, "DEPENDS_ON", NoMetadata, i))
    || (exists n :: n in t.implementsTypes && TypeEdge(types, id, n, "IMPLEMENTS", NoMetadata, i))
    || (exists n :: n in t.extendsTypes && TypeEdge(types, id, n, "EXTENDS", NoMetadata, i))
    || (exists m :: m in t.methods && MethodLinkAsks(types, NameOf(t), m, i))
  }

  /** A method that a chunk lists as a user of its key. */
  ghost predicate UsesChunk(types: seq<TypeInfo>, c: ConfigChunk, user: string) {
    exists target :: target in c.usedBy && Reaches(types, target, user)
  }

  ghost predicate ConfigAsks(types: seq<TypeInfo>, repository: string, service: string, c: ConfigChunk, i: Insertion) {
    || i == PutNode(ConfigId(c.key), Node("ConfigKey", c.key))
    || i == Link(repository, ConfigId(c.key), "HAS_CONFIG")
    || i == Link(service, ConfigId(c.key), "CONTAINS_COMPONENT")
    || exists user :: UsesChunk(types, c, user) && i == Link(user, ConfigId(c.key), "USES_CONFIG")
  }

  ghost predicate UsesKey(a: Analysis, key: string, user: string) {
    exists c :: c in a.configChunks && c.key == key && UsesChunk(AllTypes(a.files), c, user)
  }

  /** How a method uses a service: it is listed itself, or it uses a configuration key of the service. */
  ghost predicate UsesService(a: Analysis, d: ServiceDependency, user: string, via: Metadata) {
    || (via == NoMetadata && exists target :: target in d.usedBy && Reaches(AllTypes(a.files), target, user))
    || (exists key :: via == ViaConfig(key) && key in d.configs && UsesKey(a, key, user))
  }

  /** The last method that has this id. */
  predicate IsInfo(oms: seq<OwnedMethod>, id: string, m: Method) {
    exists k {:trigger oms[k]} :: 0 <= k < |oms| && MethodId(oms[k].owner, oms[k].info) == id && oms[k].info == m
        && forall j {:trigger oms[j]} :: k < j < |oms| ==> MethodId(oms[j].owner, oms[j].info) != id
  }

  predicate PathAsks(user: string, service: string, m: Method, path: string, i: Insertion) {
    var id := ExternalEndpointId(service, m.externalHttpMethods, path);
    || i == PutNode(id, Node("Endpoint", ExternalTitle(m.externalHttpMethods, path)))
    || i == Link(user, id, "CALLS_ENDPOINT")
    || i == Link(id, ExternalServiceId(service), "RESOLVES_TO")
  }

  ghost predicate UserAsks(a: Analysis, user: string, service: string, via: Metadata, i: Insertion) {
    || i == PutEdge(EdgeId(user, ExternalServiceId(service), "CALLS_EXTERNAL"), via)
    || exists m, path :: IsInfo(AllMethods(a.files), user, m) && path in m.externalPaths
        && PathAsks(user, service, m, path, i)
  }

  ghost predicate ServiceAsks(a: Analysis, d: ServiceDependency, i: Insertion) {
    || i == PutNode(ExternalServiceId(d.name), Node("ExternalService", d.name))
    || i == Link(RepositoryId(a.repository), ExternalServiceId(d.name), "HAS_EXTERNAL_SERVICE")
    || i == Link(ServiceId(a.repository), ExternalServiceId(d.name), "CONTAINS_COMPONENT")
    || i == PutNode(RepositoryId(d.name), Node("RepositoryReference", d.name))
    || i == Link(ExternalServiceId(d.name), RepositoryId(d.name), "REPRESENTS")
    || (exists key :: key in d.configs && i == Link(ConfigId(key), ExternalServiceId(d.name), "RESOLVES_TO"))
    || (exists user, via :: UsesService(a, d, user, via) && UserAsks(a, user, d.name, via, i))
  }

  ghost predicate LinksAsk(types: seq<TypeInfo>, i: Insertion) {
    exists t :: t in types && TypeLinkAsks(types, t, i)
  }

  ghost predicate ConfigsAsk(a: Analysis, i: Insertion) {
    exists c :: c in a.configChunks
      && ConfigAsks(AllTypes(a.files), RepositoryId(a.repository), ServiceId(a.repository), c, i)
  }

  /** Everything an analysis puts into its graph. */
  ghost predicate Asks(a: Analysis, i: Insertion) {
    || i == PutNode(RepositoryId(a.repository), Node("Repository", a.repository))
    || i == PutNode(ServiceId(a.repository), Node("Service", a.repository))
    || i == Link(RepositoryId(a.repository), ServiceId(a.repository), "OWNS")
    || (exists f :: f in a.files && FileAsks(RepositoryId(a.repository), ServiceId(a.repository), f, i))
    || LinksAsk(AllTypes(a.files), i)
    || ConfigsAsk(a, i)
    || (exists d :: d in a.serviceDependencies && ServiceAsks(a, d, i))
  }

  // ---------------------------------------------------------------- and that is what is put in

  lemma MethodPut(owner: string, m: Method, i: Insertion)
    ensures i in MethodLog(owner, m) <==> MethodAsks(owner, m, i)
  {
    hide MethodId, EndpointOf, EndpointTitle, ClassId, ShortRef;
  }

  lemma {:induction false} MethodsPut(owner: string, ms: seq<Method>, i: Insertion)
    ensures i in MethodsLog(owner, ms) <==> exists m :: m in ms && MethodAsks(owner, m, i)
  {
    hide MethodLog, MethodAsks;
    if ms != [] {
      var n := |ms| - 1;
      MethodsPut(owner, ms[..n], i);
      MethodPut(owner, ms[n], i);
      assert ms == ms[..n] + [ms[n]];
    }
  }

  lemma TypePut(service: string, file: string, t: TypeInfo, i: Insertion)
    ensures i in TypeLog(service, file, t) <==> TypeAsks(service, file, t, i)
  {
    hide MethodsLog, MethodAsks, ClassId, NameOf;
    MethodsPut(NameOf(t), t.methods, i);
  }

  lemma {:induction false} TypesPut(service: string, file: string, types: seq<TypeInfo>, i: Insertion)
    ensures i in TypesLog(service, file, types) <==> exists t :: t in types && TypeAsks(service, file, t, i)
  {
    hide TypeLog, TypeAsks;
    if types != [] {
      var n := |types| - 1;
      TypesPut(service, file, types[..n], i);
      TypePut(service, file, types[n], i);
      assert types == types[..n] + [types[n]];
    }
  }

  lemma FilePut(repository: string, service: string, f: FileInfo, i: Insertion)
    ensures i in FileLog(repository, service, f) <==> FileAsks(repository, service, f, i)
  {
    hide TypesLog, TypeAsks, FileId;
    TypesPut(service, FileId(f.path), f.types, i);
  }

  lemma {:induction false} FilesPut(repository: string, service: string, files: seq<FileInfo>, i: Insertion)
    ensures i in FilesLog(repository, service, files) <==> exists f :: f in files && FileAsks(repository, service, f, i)
  {
    hide FileLog, FileAsks;
    if files != [] {
      var n := |files| - 1;
      FilesPut(repository, service, files[..n], i);
      FilePut(repository, service, files[n], i);
      assert files == files[..n] + [files[n]];
    }
  }

  lemma TypeLinkPut(a: Analysis, from: string, name: string, kind: string, metadata: Metadata, i: Insertion)
    ensures i in TypeLink(from, name, kind, metadata, TablesOf(a))
       <==> TypeEdge(AllTypes(a.files), from, name, kind, metadata, i)
  {
    hide ResolveTypeReference, TablesOf, AllTypes, RefersTo, ClassId;
    forall q ensures ResolveTypeReference(name, TablesOf(a)) == Some(q) <==> RefersTo(AllTypes(a.files), name, q) {
      TypeReferenceIs(a, name, q);
    }
  }

  lemma {:induction false} TypeLinksPut(a: Analysis, from: string, names: seq<string>, kind: string, i: Insertion)
    ensures i in TypeLinks(from, names, kind, TablesOf(a))
       <==> exists n :: n in names && TypeEdge(AllTypes(a.files), from, n, kind, NoMetadata, i)
  {
    hide TypeLink, TypeEdge, TablesOf, AllTypes;
    if names != [] {
      var n := |names| - 1;
      TypeLinksPut(a, from, names[..n], kind, i);
      TypeLinkPut(a, from, names[n], kind, NoMetadata, i);
      assert names == names[..n] + [names[n]];
    }
  }

  lemma {:induction false} ParamLinksPut(a: Analysis, from: string, params: seq<Param>, i: Insertion)
    ensures i in ParamLinks(from, params, TablesOf(a))
       <==> exists p :: p in params && TypeEdge(AllTypes(a.files), from, p.kind, "ACCEPTS", Parameter(p.name), i)
  {
    hide TypeLink, TypeEdge, TablesOf, AllTypes;
    if params != [] {
      var n := |params| - 1;
      ParamLinksPut(a, from, params[..n], i);
      TypeLinkPut(a, from, params[n].kind, "ACCEPTS", Parameter(params[n].name), i);
      assert params == params[..n] + [params[n]];
    }
  }

  lemma {:induction false} ReachedAre(a: Analysis, targets: seq<string>, id: string)
    ensures id in ResolveAll(targets, TablesOf(a))
       <==> exists target :: target in targets && Reaches(AllTypes(a.files), target, id)
  {
    hide ResolveMethodReference, Reaches, TablesOf, AllTypes;
    if targets != [] {
      var n := |targets| - 1;
      ReachedAre(a, targets[..n], id);
      MethodReferenceIs(a, targets[n], id);
      assert targets == targets[..n] + [targets[n]];
    }
  }

  lemma {:induction false} LinksToAre(from: string, targets: seq<string>, kind: string, i: Insertion)
    ensures i in LinksTo(from, targets, kind) <==> exists id :: id in targets && i == Link(from, id, kind)
  {
    if targets != [] {
      hide Link;
      var n := |targets| - 1;
      LinksToAre(from, targets[..n], kind, i);
      assert targets == targets[..n] + [targets[n]];
    }
  }

  lemma {:induction false} LinksFromAre(sources: seq<string>, to: string, kind: string, i: Insertion)
    ensures i in LinksFrom(sources, to, kind) <==> exists id :: id in sources && i == Link(id, to, kind)
  {
    if sources != [] {
      hide Link;
      var n := |sources| - 1;
      LinksFromAre(sources[..n], to, kind, i);
      assert sources == sources[..n] + [sources[n]];
    }
  }

  lemma CallsPut(a: Analysis, from: string, targets: seq<string>, i: Insertion)
    ensures i in LinksTo(from, ResolveAll(targets, TablesOf(a)), "CALLS")
       <==> exists target :: target in targets && CallEdge(AllTypes(a.files), from, target, i)
  {
    hide ResolveAll, TablesOf, AllTypes, Reaches, Link, LinksTo;
    LinksToAre(from, ResolveAll(targets, TablesOf(a)), "CALLS", i);
    forall id ensures id in ResolveAll(targets, TablesOf(a))
       <==> exists target :: target in targets && Reaches(AllTypes(a.files), target, id) {
      ReachedAre(a, targets, id);
    }
  }

  lemma MethodLinksPut(a: Analysis, owner: string, m: Method, i: Insertion)
    ensures i in MethodLinks(owner, m, TablesOf(a)) <==> MethodLinkAsks(AllTypes(a.files), owner, m, i)
  {
    hide MethodId, LinksTo, TypeLink, ParamLinks, TypeEdge, CallEdge, TablesOf, AllTypes, ResolveAll;
    var id := MethodId(owner, m);
    CallsPut(a, id, m.internalCalls, i);
    TypeLinkPut(a, id, m.returnType, "RETURNS", NoMetadata, i);
    ParamLinksPut(a, id, m.params, i);
  }

  lemma {:induction false} MethodsLinksPut(a: Analysis, owner: string, ms: seq<Method>, i: Insertion)
    ensures i in MethodsLinks(owner, ms, TablesOf(a))
       <==> exists m :: m in ms && MethodLinkAsks(AllTypes(a.files), owner, m, i)
  {
    hide MethodLinks, MethodLinkAsks, TablesOf, AllTypes;
    if ms != [] {
      var n := |ms| - 1;
      MethodsLinksPut(a, owner, ms[..n], i);
      MethodLinksPut(a, owner, ms[n], i);
      assert ms == ms[..n] + [ms[n]];
    }
  }

  lemma ClassLinksPut(a: Analysis, t: TypeInfo, i: Insertion)
    ensures i in ClassLinks(t, TablesOf(a)) <==> TypeLinkAsks(AllTypes(a.files), t, i)
  {
    hide ClassId, NameOf, TypeLinks, MethodsLinks, TypeEdge, MethodLinkAsks, TablesOf, AllTypes;
    var id := ClassId(NameOf(t));
    TypeLinksPut(a, id, t.internalDependencies, "DEPENDS_ON", i);
    TypeLinksPut(a, id, t.implementsTypes, "IMPLEMENTS", i);
    TypeLinksPut(a, id, t.extendsTypes, "EXTENDS", i);
    MethodsLinksPut(a, NameOf(t), t.methods, i);
  }

  lemma {:induction false} ClassesLinksPut(a: Analysis, types: seq<TypeInfo>, i: Insertion)
    ensures i in ClassesLinks(types, TablesOf(a)) <==> exists t :: t in types && TypeLinkAsks(AllTypes(a.files), t, i)
  {
    hide ClassLinks, TypeLinkAsks, TablesOf, AllTypes;
    if types != [] {
      var n := |types| - 1;
      ClassesLinksPut(a, types[..n], i);
      ClassLinksPut(a, types[n], i);
      assert types == types[..n] + [types[n]];
    }
  }

  lemma {:induction false} FilesLinksPut(a: Analysis, files: seq<FileInfo>, i: Insertion)
    ensures i in FilesLinks(files, TablesOf(a))
       <==> exists t :: t in AllTypes(files) && TypeLinkAsks(AllTypes(a.files), t, i)
  {
    hide ClassesLinks, TypeLinkAsks, TablesOf;
    if files != [] {
      var n := |files| - 1;
      FilesLinksPut(a, files[..n], i);
      ClassesLinksPut(a, files[n].types, i);
    }
  }

  lemma UsersPut(a: Analysis, c: ConfigChunk, i: Insertion)
    ensures i in LinksFrom(ResolveAll(c.usedBy, TablesOf(a)), ConfigId(c.key), "USES_CONFIG")
       <==> exists user :: UsesChunk(AllTypes(a.files), c, user) && i == Link(user, ConfigId(c.key), "USES_CONFIG")
  {
    hide ResolveAll, TablesOf, AllTypes, Reaches, Link, LinksFrom, ConfigId;
    LinksFromAre(ResolveAll(c.usedBy, TablesOf(a)), ConfigId(c.key), "USES_CONFIG", i);
    forall id ensures id in ResolveAll(c.usedBy, TablesOf(a)) <==> UsesChunk(AllTypes(a.files), c, id) {
      ReachedAre(a, c.usedBy, id);
    }
  }

  lemma ConfigPut(a: Analysis, repository: string, service: string, c: ConfigChunk, i: Insertion)
    ensures i in ConfigLog(repository, service, c, TablesOf(a))
       <==> ConfigAsks(AllTypes(a.files), repository, service, c, i)
  {
    hide ResolveAll, TablesOf, AllTypes, LinksFrom, ConfigId, UsesChunk;
    UsersPut(a, c, i);
  }

  lemma {:induction false} ConfigsPut(a: Analysis, repository: string, service: string, cs: seq<ConfigChunk>,
                                      i: Insertion)
    ensures i in ConfigsLog(repository, service, cs, TablesOf(a))
       <==> exists c :: c in cs && ConfigAsks(AllTypes(a.files), repository, service, c, i)
  {
    hide ConfigLog, ConfigAsks, TablesOf, AllTypes;
    if cs != [] {
      var n := |cs| - 1;
      ConfigsPut(a, repository, service, cs[..n], i);
      ConfigPut(a, repository, service, cs[n], i);
      assert cs == cs[..n] + [cs[n]];
    }
  }

  // ---------------------------------------------------------------- services

  lemma {:induction false} KeyUsersAre(a: Analysis, key: string, cs: seq<ConfigChunk>, user: string)
    ensures user in UsersOf(key, cs, TablesOf(a))
       <==> exists c :: c in cs && c.key == key && UsesChunk(AllTypes(a.files), c, user)
  {
    hide ResolveAll, TablesOf, AllTypes, Reaches;
    if cs != [] {
      var n := |cs| - 1;
      KeyUsersAre(a, key, cs[..n], user);
      ReachedAre(a, cs[n].usedBy, user);
      assert cs == cs[..n] + [cs[n]];
    }
  }

  function LastInfo(oms: seq<OwnedMethod>, id: string): Option<Method> {
    if oms == [] then None
    else
      var om := oms[|oms| - 1];
      if MethodId(om.owner, om.info) == id then Some(om.info) else LastInfo(oms[..|oms| - 1], id)
  }

  lemma {:induction false} LastInfoAppend(x: seq<OwnedMethod>, y: seq<OwnedMethod>, id: string)
    ensures LastInfo(x + y, id) == OrElse(LastInfo(y, id), LastInfo(x, id))
  {
    hide MethodId;
    if y == [] {
      assert x + y == x;
    } else {
      assert (x + y)[..|x + y| - 1] == x + y[..|y| - 1];
      LastInfoAppend(x, y[..|y| - 1], id);
    }
  }

  lemma {:induction false} LastInfoIs(oms: seq<OwnedMethod>, id: string, m: Method)
    ensures LastInfo(oms, id) == Some(m) <==> IsInfo(oms, id, m)
  {
    hide MethodId;
    if oms != [] {
      var n := |oms| - 1;
      LastInfoIs(oms[..n], id, m);
      if MethodId(oms[n].owner, oms[n].info) == id {
        assert IsInfo(oms, id, oms[n].info);
      } else if IsInfo(oms[..n], id, m) {
        var k :| 0 <= k < n && MethodId(oms[k].owner, oms[k].info) == id && oms[k].info == m
          && forall j {:trigger oms[..n][j]} :: k < j < n ==> MethodId(oms[..n][j].owner, oms[..n][j].info) != id;
        forall j | k < j < |oms| ensures MethodId(oms[j].owner, oms[j].info) != id {
          if j < n {
            assert oms[..n][j] == oms[j];
          }
        }
        assert IsInfo(oms, id, m);
      }
    }
  }

  function Info(ts: Tables, id: string): Option<Method> {
    if id in ts.methodInfo then Some(ts.methodInfo[id]) else None
  }

  lemma {:induction false} MethodsInform(ts: Tables, owner: string, shortOwner: string, ms: seq<Method>, id: string)
    ensures Info(WithMethods(ts, owner, shortOwner, ms), id) == OrElse(LastInfo(Owned(owner, ms), id), Info(ts, id))
  {
    hide MethodId;
    if ms != [] {
      var n := |ms| - 1;
      MethodsInform(ts, owner, shortOwner, ms[..n], id);
      var before := Owned(owner, ms[..n]);
      assert (before + [OwnedMethod(owner, ms[n])])[..|before|] == before;
    }
  }

  lemma {:induction false} TypesInform(ts: Tables, types: seq<TypeInfo>, id: string)
    ensures Info(WithTypes(ts, types), id) == OrElse(LastInfo(MethodsOf(types), id), Info(ts, id))
  {
    if types != [] {
      var n := |types| - 1;
      var t := types[n];
      TypesInform(ts, types[..n], id);
      MethodsInform(WithType(WithTypes(ts, types[..n]), t), NameOf(t), t.name, t.methods, id);
      hide NameOf, WithMethods, WithTypes, LastInfo, Owned;
      LastInfoAppend(MethodsOf(types[..n]), Owned(NameOf(t), t.methods), id);
    }
  }

  lemma {:induction false} FilesInform(files: seq<FileInfo>, id: string)
    ensures Info(WithFiles(NO_TABLES, files), id) == LastInfo(AllMethods(files), id)
  {
    if files != [] {
      var n := |files| - 1;
      FilesInform(files[..n], id);
      TypesInform(WithFiles(NO_TABLES, files[..n]), files[n].types, id);
      hide WithTypes, WithFiles, LastInfo, MethodsOf;
      LastInfoAppend(AllMethods(files[..n]), MethodsOf(files[n].types), id);
    }
  }

  lemma {:induction false} PathsPut(user: string, service: string, m: Method, paths: seq<string>, i: Insertion)
    ensures i in PathsLog(user, service, m.externalHttpMethods, paths)
       <==> exists path :: path in paths && PathAsks(user, service, m, path, i)
  {
    hide ExternalEndpointId, ExternalServiceId, ExternalTitle;
    if paths != [] {
      var n := |paths| - 1;
      PathsPut(user, service, m, paths[..n], i);
      assert paths == paths[..n] + [paths[n]];
      assert i in PathLog(user, service, m.externalHttpMethods, paths[n]) <==> PathAsks(user, service, m, paths[n], i);
      hide PathLog, PathAsks;
    }
  }

  lemma UserPut(a: Analysis, user: string, service: string, via: Metadata, i: Insertion)
    ensures i in UserLog(user, service, via, TablesOf(a)) <==> UserAsks(a, user, service, via, i)
  {
    hide PathsLog, PathAsks, AllMethods, LastInfo, ExternalServiceId, IsInfo, WithFiles;
    FilesInform(a.files, user);
    forall m ensures LastInfo(AllMethods(a.files), user) == Some(m) <==> IsInfo(AllMethods(a.files), user, m) {
      LastInfoIs(AllMethods(a.files), user, m);
    }
    if user in TablesOf(a).methodInfo {
      var m := TablesOf(a).methodInfo[user];
      PathsPut(user, service, m, m.externalPaths, i);
    }
  }

  lemma {:induction false} UsersLogPut(a: Analysis, users: seq<string>, service: string, via: Metadata, i: Insertion)
    ensures i in UsersLog(users, service, via, TablesOf(a))
       <==> exists user :: user in users && UserAsks(a, user, service, via, i)
  {
    hide UserLog, UserAsks, TablesOf;
    if users != [] {
      var n := |users| - 1;
      UsersLogPut(a, users[..n], service, via, i);
      UserPut(a, users[n], service, via, i);
      assert users == users[..n] + [users[n]];
    }
  }

  ghost predicate KeyAsks(a: Analysis, key: string, service: string, i: Insertion) {
    exists user :: UsesKey(a, key, user) && UserAsks(a, user, service, ViaConfig(key), i)
  }

  lemma {:induction false} KeyUsersPut(a: Analysis, keys: seq<string>, service: string, i: Insertion)
    ensures i in KeyUsersLog(keys, service, a.configChunks, TablesOf(a))
       <==> exists key :: key in keys && KeyAsks(a, key, service, i)
  {
    hide UsersLog, UsersOf, UserAsks, TablesOf, UsesKey;
    if keys != [] {
      var n := |keys| - 1;
      KeyUsersPut(a, keys[..n], service, i);
      var users := UsersOf(keys[n], a.configChunks, TablesOf(a));
      UsersLogPut(a, users, service, ViaConfig(keys[n]), i);
      forall user ensures user in users <==> UsesKey(a, keys[n], user) {
        OneKeyUsers(a, keys[n], user);
      }
      assert keys == keys[..n] + [keys[n]];
      assert i in UsersLog(users, service, ViaConfig(keys[n]), TablesOf(a)) <==> KeyAsks(a, keys[n], service, i);
      hide KeyAsks;
    }
  }

  lemma OneKeyUsers(a: Analysis, key: string, user: string)
    ensures user in UsersOf(key, a.configChunks, TablesOf(a)) <==> UsesKey(a, key, user)
  {
    hide UsersOf, TablesOf, AllTypes, UsesChunk;
    KeyUsersAre(a, key, a.configChunks, user);
  }

  lemma {:induction false} PromisedAre(keys: seq<string>, service: string, i: Insertion)
    ensures i in PromisedLog(keys, service)
       <==> exists key :: key in keys && i == Link(ConfigId(key), ExternalServiceId(service), "RESOLVES_TO")
  {
    hide ConfigId, ExternalServiceId;
    if keys != [] {
      var n := |keys| - 1;
      PromisedAre(keys[..n], service, i);
      assert keys == keys[..n] + [keys[n]];
    }
  }

  ghost predicate UsedBy(a: Analysis, d: ServiceDependency, i: Insertion) {
    exists user, via :: UsesService(a, d, user, via) && UserAsks(a, user, d.name, via, i)
  }

  lemma AllUsersPut(a: Analysis, d: ServiceDependency, i: Insertion)
    ensures i in UsersLog(ResolveAll(d.usedBy, TablesOf(a)), d.name, NoMetadata, TablesOf(a))
         || i in KeyUsersLog(d.configs, d.name, a.configChunks, TablesOf(a))
       <==> UsedBy(a, d, i)
  {
    hide UsersLog, KeyUsersLog, ResolveAll, UserAsks, TablesOf, UsesKey, AllTypes, Reaches;
    UsersLogPut(a, ResolveAll(d.usedBy, TablesOf(a)), d.name, NoMetadata, i);
    forall user ensures user in ResolveAll(d.usedBy, TablesOf(a)) <==> UsesService(a, d, user, NoMetadata) {
      ReachedAre(a, d.usedBy, user);
    }
    KeyUsersPut(a, d.configs, d.name, i);
    if key :| key in d.configs && KeyAsks(a, key, d.name, i) {
      var user :| UsesKey(a, key, user) && UserAsks(a, user, d.name, ViaConfig(key), i);
      assert UsesService(a, d, user, ViaConfig(key));
    }
    if user, via :| UsesService(a, d, user, via) && UserAsks(a, user, d.name, via, i) {
      if via != NoMetadata {
        assert KeyAsks(a, via.key, d.name, i);
      }
    }
  }

  lemma ServicePut(a: Analysis, d: ServiceDependency, i: Insertion)
    ensures i in ServiceLog(RepositoryId(a.repository), ServiceId(a.repository), d, a.configChunks, TablesOf(a))
       <==> ServiceAsks(a, d, i)
  {
    hide UsersLog, KeyUsersLog, ResolveAll, UserAsks, TablesOf, UsesService, RepositoryId, ServiceId, ConfigId,
        ExternalServiceId, PromisedLog;
    AllUsersPut(a, d, i);
    PromisedAre(d.configs, d.name, i);
  }

  lemma {:induction false} ServicesPut(a: Analysis, ds: seq<ServiceDependency>, i: Insertion)
    ensures i in ServicesLog(RepositoryId(a.repository), ServiceId(a.repository), ds, a.configChunks, TablesOf(a))
       <==> exists d :: d in ds && ServiceAsks(a, d, i)
  {
    hide ServiceLog, ServiceAsks, TablesOf, RepositoryId, ServiceId;
    if ds != [] {
      var n := |ds| - 1;
      ServicesPut(a, ds[..n], i);
      ServicePut(a, ds[n], i);
      assert ds == ds[..n] + [ds[n]];
    }
  }

  /** The builder puts in exactly what the analysis asks for. */
  lemma AskedIsPut(a: Analysis, i: Insertion)
    ensures i in WholeLog(a) <==> Asks(a, i)
  {
    hide FilesLog, SecondPass, ConfigPass, ServicesLog, Roots, TablesOf, FileAsks, LinksAsk, ConfigsAsk, ServiceAsks,
        RepositoryId, ServiceId;
    var r, s := RepositoryId(a.repository), ServiceId(a.repository);
    RootsPut(a.repository, i);
    FilesPut(r, s, a.files, i);
    SecondPut(a, i);
    ThirdPut(a, i);
    ServicesPut(a, a.serviceDependencies, i);
    InFive(Roots(a.repository), FirstPass(a), SecondPass(a), ConfigPass(a), ServicePass(a), i);
  }

  lemma SecondPut(a: Analysis, i: Insertion)
    ensures i in SecondPass(a) <==> LinksAsk(AllTypes(a.files), i)
  {
    hide FilesLinks, TypeLinkAsks, TablesOf;
    FilesLinksPut(a, a.files, i);
  }

  lemma ThirdPut(a: Analysis, i: Insertion)
    ensures i in ConfigPass(a) <==> ConfigsAsk(a, i)
  {
    hide ConfigsLog, ConfigAsks, TablesOf, RepositoryId, ServiceId;
    ConfigsPut(a, RepositoryId(a.repository), ServiceId(a.repository), a.configChunks, i);
  }

  lemma RootsPut(name: string, i: Insertion)
    ensures i in Roots(name) <==>
      || i == PutNode(RepositoryId(name), Node("Repository", name))
      || i == PutNode(ServiceId(name), Node("Service", name))
      || i == Link(RepositoryId(name), ServiceId(name), "OWNS")
  {
    hide RepositoryId, ServiceId;
  }

  lemma InFive(p: Log, q: Log, r: Log, s: Log, t: Log, i: Insertion)
    ensures i in p + q + r + s + t <==> i in p || i in q || i in r || i in s || i in t
  {
  }

  /**
   The finished graph, read off the analysis: an edge is there exactly if the analysis asks for it, with metadata it
   asks for; a node is there exactly if the analysis describes it, in one of the ways it does.
   */
  lemma GraphIs(a: Analysis, e: EdgeId, id: string)
    ensures e in Built(a).edges <==> exists metadata :: Asks(a, PutEdge(e, metadata))
    ensures e in Built(a).edges ==> Asks(a, PutEdge(e, Built(a).edges[e]))
    ensures id in Built(a).nodes <==> exists node :: Asks(a, PutNode(id, node))
    ensures id in Built(a).nodes ==> Asks(a, PutNode(id, Built(a).nodes[id]))
  {
    hide WholeLog, Asks, Replay;
    BuiltMeans(a, id, e);
    forall i: Insertion ensures i in WholeLog(a) <==> Asks(a, i) {
      AskedIsPut(a, i);
    }
    if FirstOf(WholeLog(a), e).Some? {
      CarriedIsPut(WholeLog(a), e);
    }
    if Described(WholeLog(a), id).Some? {
      DescribedIsPut(WholeLog(a), id);
    }
    forall metadata | PutEdge(e, metadata) in WholeLog(a) ensures FirstOf(WholeLog(a), e).Some? {
      PutIsDescribed(WholeLog(a), PutEdge(e, metadata));
    }
    forall node | PutNode(id, node) in WholeLog(a) ensures Described(WholeLog(a), id).Some? {
      PutIsDescribed(WholeLog(a), PutNode(id, node));
    }
  }

  lemma {:induction false} DescribedIsPut(log: Log, id: string)
    requires Described(log, id).Some?
    ensures PutNode(id, Described(log, id).value) in log
  {
    if !(log[|log| - 1].PutNode? && log[|log| - 1].id == id) {
      DescribedIsPut(log[..|log| - 1], id);
    }
  }
}
