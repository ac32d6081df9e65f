/**
 The two list shapes of the scan pushes: values gathered under a key, keys in the order of their first
 use, and a list cut into batches.
 */
module Batching {
  import opened Common

  // ---------------------------------------------------------------- gathering

  /** The keys of the values, each once, in the order of their first use. */
  function FirstSeen<T, K(==)>(xs: seq<T>, key: T -> K): seq<K> {
    if xs == [] then []
    else
      var before := FirstSeen(xs[..|xs| - 1], key);
      if key(xs[|xs| - 1]) in before then before else before + [key(xs[|xs| - 1])]
  }

  /** The values under one key, in their order. */
  function Members<T, K(==)>(xs: seq<T>, key: T -> K, k: K): seq<T> {
    if xs == [] then []
    else Members(xs[..|xs| - 1], key, k) + if key(xs[|xs| - 1]) == k then [xs[|xs| - 1]] else []
  }

  ghost predicate Used<T, K(!new)>(xs: seq<T>, key: T -> K, k: K) {
    exists i :: 0 <= i < |xs| && key(xs[i]) == k
  }

  lemma UsedNext<T, K(!new)>(xs: seq<T>, key: T -> K, k: K)
    requires xs != []
    ensures Used(xs, key, k) <==> Used(xs[..|xs| - 1], key, k) || key(xs[|xs| - 1]) == k
  {
    var n := |xs| - 1;
    if i :| 0 <= i < |xs| && key(xs[i]) == k {
      assert i < n ==> key(xs[..n][i]) == k;
    }
    if i :| 0 <= i < n && key(xs[..n][i]) == k {
      assert key(xs[i]) == k;
    }
  }

  lemma {:induction false} FirstSeenIsDistinct<T, K(!new)>(xs: seq<T>, key: T -> K)
    ensures Distinct(FirstSeen(xs, key))
    ensures forall k :: k in FirstSeen(xs, key) <==> Used(xs, key, k)
  {
    if xs != [] {
      FirstSeenIsDistinct(xs[..|xs| - 1], key);
      forall k ensures k in FirstSeen(xs, key) <==> Used(xs, key, k) {
        UsedNext(xs, key, k);
      }
    }
  }

  lemma {:induction false} MembersHaveKey<T, K(!new)>(xs: seq<T>, key: T -> K, k: K)
    ensures forall i :: 0 <= i < |Members(xs, key, k)| ==> key(Members(xs, key, k)[i]) == k
    ensures Members(xs, key, k) == [] <==> k !in FirstSeen(xs, key)
  {
    if xs != [] {
      MembersHaveKey(xs[..|xs| - 1], key, k);
    }
  }

  /** The value at `p` is the first one under the key. */
  ghost predicate FirstUse<T, K(!new)>(xs: seq<T>, key: T -> K, k: K, p: nat) {
    p < |xs| && key(xs[p]) == k && forall q :: 0 <= q < p ==> key(xs[q]) != k
  }

  /** The keys are listed in the order in which they are first used. */
  lemma {:induction false} FirstSeenInOrder<T, K(!new)>(xs: seq<T>, key: T -> K, i: nat, j: nat, p: nat, q: nat)
    requires i < j < |FirstSeen(xs, key)|
    requires FirstUse(xs, key, FirstSeen(xs, key)[i], p) && FirstUse(xs, key, FirstSeen(xs, key)[j], q)
    ensures p < q
  {
    var n := |xs| - 1;
    var before := FirstSeen(xs[..n], key);
    FirstSeenIsDistinct(xs, key);
    FirstSeenIsDistinct(xs[..n], key);
    if j < |before| {
      UsedFirst(xs, key, before[i], p);
      UsedFirst(xs, key, before[j], q);
      FirstSeenInOrder(xs[..n], key, i, j, p, q);
    } else {
      UsedFirst(xs, key, before[i], p);
      assert before[i] in before;
    }
  }

  /** What is used in front is first used there. */
  lemma UsedFirst<T, K(!new)>(xs: seq<T>, key: T -> K, k: K, p: nat)
    requires xs != [] && k in FirstSeen(xs[..|xs| - 1], key) && FirstUse(xs, key, k, p)
    ensures p < |xs| - 1 && FirstUse(xs[..|xs| - 1], key, k, p)
  {
    var front := xs[..|xs| - 1];
    FirstSeenIsDistinct(front, key);
    var r :| 0 <= r < |front| && key(front[r]) == k;
    assert xs[r] == front[r];
    forall q | 0 <= q < p ensures key(front[q]) != k {
      assert front[q] == xs[q];
    }
  }

  /** The values stand at these positions, in this order. */
  predicate Stands<T(==)>(xs: seq<T>, members: seq<T>, places: seq<nat>) {
    && |places| == |members|
    && (forall i :: 0 <= i < |places| ==> places[i] < |xs| && members[i] == xs[places[i]])
    && (forall i, j :: 0 <= i < j < |places| ==> places[i] < places[j])
  }

  ghost predicate AllUses<T, K(!new)>(xs: seq<T>, key: T -> K, k: K, places: seq<nat>) {
    forall p: nat :: p in places <==> p < |xs| && key(xs[p]) == k
  }

  lemma StandsInFront<T>(xs: seq<T>, members: seq<T>, places: seq<nat>)
    requires xs != [] && Stands(xs[..|xs| - 1], members, places)
    ensures Stands(xs, members, places) && Stands(xs, members + [xs[|xs| - 1]], places + [|xs| - 1])
  {
  }

  lemma OneMoreUse<T, K(!new)>(xs: seq<T>, key: T -> K, k: K, places: seq<nat>)
    requires xs != [] && AllUses(xs[..|xs| - 1], key, k, places)
    ensures AllUses(xs, key, k, if key(xs[|xs| - 1]) == k then places + [|xs| - 1] else places)
  {
    var n := |xs| - 1;
    var all := if key(xs[n]) == k then places + [n] else places;
    forall p: nat ensures p in all <==> p < |xs| && key(xs[p]) == k {
      assert p < n ==> xs[..n][p] == xs[p];
    }
  }

  /** The values under a key are all of them that have it, in their order. */
  lemma {:induction false} MembersStand<T, K(!new)>(xs: seq<T>, key: T -> K, k: K) returns (places: seq<nat>)
    ensures Stands(xs, Members(xs, key, k), places) && AllUses(xs, key, k, places)
  {
    places := [];
    if xs != [] {
      var n := |xs| - 1;
      var before := MembersStand(xs[..n], key, k);
      hide Stands, AllUses;
      StandsInFront(xs, Members(xs[..n], key, k), before);
      OneMoreUse(xs, key, k, before);
      places := if key(xs[n]) == k then before + [n] else before;
      assert Members(xs[..n], key, k) + [] == Members(xs[..n], key, k);
    }
  }

  /** All groups of the listed keys together. */
  function Gathered<T, K(==)>(xs: seq<T>, key: T -> K, ks: seq<K>): seq<T> {
    if ks == [] then [] else Gathered(xs, key, ks[..|ks| - 1]) + Members(xs, key, ks[|ks| - 1])
  }

  lemma {:induction false} GatheredNext<T, K(!new)>(xs: seq<T>, x: T, key: T -> K, ks: seq<K>)
    requires Distinct(ks)
    ensures multiset(Gathered(xs + [x], key, ks)) == multiset(Gathered(xs, key, ks)) + if key(x) in ks
        then multiset{x} else multiset{}
  {
    if ks != [] {
      GatheredNext(xs, x, key, ks[..|ks| - 1]);
      assert (xs + [x])[..|xs|] == xs;
      assert key(x) in ks <==> key(x) in ks[..|ks| - 1] || key(x) == ks[|ks| - 1];
    }
  }

  lemma {:induction false} GatheredNone<T, K(!new)>(key: T -> K, ks: seq<K>)
    ensures Gathered([], key, ks) == []
  {
    if ks != [] {
      GatheredNone(key, ks[..|ks| - 1]);
    }
  }

  ghost predicate Conserved<T, K(!new)>(xs: seq<T>, key: T -> K, ks: seq<K>) {
    multiset(Gathered(xs, key, ks)) == multiset(xs)
  }

  lemma OneMoreConserved<T, K(!new)>(xs: seq<T>, x: T, key: T -> K, ks: seq<K>)
    requires Distinct(ks) && key(x) in ks && Conserved(xs, key, ks)
    ensures Conserved(xs + [x], key, ks)
  {
    GatheredNext(xs, x, key, ks);
  }

  lemma {:induction false} GatheredConserves<T, K(!new)>(xs: seq<T>, key: T -> K, ks: seq<K>)
    requires Distinct(ks) && forall i :: 0 <= i < |xs| ==> key(xs[i]) in ks
    ensures Conserved(xs, key, ks)
  {
    if xs == [] {
      GatheredNone(key, ks);
    } else {
      hide *;
      var n := |xs| - 1;
      GatheredConserves(xs[..n], key, ks);
      OneMoreConserved(xs[..n], xs[n], key, ks);
      assert xs[..n] + [xs[n]] == xs;
    }
  }

  /** Gathering loses and invents nothing. */
  lemma GroupsConserve<T, K(!new)>(xs: seq<T>, key: T -> K)
    ensures multiset(Gathered(xs, key, FirstSeen(xs, key))) == multiset(xs)
  {
    FirstSeenIsDistinct(xs, key);
    assert forall i :: 0 <= i < |xs| ==> Used(xs, key, key(xs[i]));
    GatheredConserves(xs, key, FirstSeen(xs, key));
  }

  /** The loop over a dictionary of lists: a key enters the order when it is first used. */
  method Gather<T, K(!new,==)>(xs: seq<T>, key: T -> K) returns (order: seq<K>, groups: map<K, seq<T>>)
    ensures order == FirstSeen(xs, key)
    ensures forall k :: k in groups <==> k in order
    ensures forall k :: k in groups ==> groups[k] == Members(xs, key, k)
  {
    order, groups := [], map[];
    for i := 0 to |xs|
      invariant order == FirstSeen(xs[..i], key)
      invariant forall k :: k in groups <==> k in order
      invariant forall k :: k in groups ==> groups[k] == Members(xs[..i], key, k)
    {
      assert xs[..i + 1][..i] == xs[..i];
      var k := key(xs[i]);
      if k !in groups {
        MembersHaveKey(xs[..i], key, k);
        order, groups := order + [k], groups[k := []];
      }
      groups := groups[k := groups[k] + [xs[i]]];
    }
    assert xs[..|xs|] == xs;
  }

  // ---------------------------------------------------------------- batches

  /** Consecutive batches of at most `size` values. */
  function Chunks<T>(xs: seq<T>, size: nat): (cs: seq<seq<T>>)
    requires size > 0
    ensures forall i :: 0 <= i < |cs| ==> 0 < |cs[i]| <= size
    ensures forall i :: 0 <= i < |cs| - 1 ==> |cs[i]| == size
    decreases |xs|
  {
    if xs == [] then []
    else if |xs| <= size then [xs]
    else [xs[..size]] + Chunks(xs[size..], size)
  }

  function Concat<T>(cs: seq<seq<T>>): seq<T> {
    if cs == [] then [] else cs[0] + Concat(cs[1..])
  }

  lemma {:induction false} ConcatNext<T>(cs: seq<seq<T>>, j: nat)
    requires j < |cs|
    ensures Concat(cs[..j + 1]) == Concat(cs[..j]) + cs[j]
  {
    if j == 0 {
      assert cs[..1][1..] == [];
    } else {
      ConcatNext(cs[1..], j - 1);
      assert cs[..j + 1][1..] == cs[1..][..j] && cs[..j][1..] == cs[1..][..j - 1];
    }
  }

  lemma {:induction false} ConcatChunks<T>(xs: seq<T>, size: nat)
    requires size > 0
    ensures Concat(Chunks(xs, size)) == xs
    decreases |xs|
  {
    if xs == [] {
    } else if |xs| <= size {
      assert Concat([xs]) == xs + Concat([xs][1..]) == xs;
    } else {
      ConcatChunks(xs[size..], size);
      assert ([xs[..size]] + Chunks(xs[size..], size))[1..] == Chunks(xs[size..], size);
    }
  }

  /** The loop `for start in range(0, len(values), size)`. A step of zero is refused by the caller. */
  method Chunked<T>(xs: seq<T>, size: int) returns (cs: seq<seq<T>>)
    requires size != 0
    ensures cs == if size < 0 then [] else Chunks(xs, size)
    ensures size > 0 ==> Concat(cs) == xs
    ensures forall i :: 0 <= i < |cs| ==> 0 < |cs[i]| <= size && (i < |cs| - 1 ==> |cs[i]| == size)
  {
    cs := [];
    if size < 0 {
      return;
    }
    var start := 0;
    while start < |xs|
      invariant 0 <= start
      invariant cs + (if start < |xs| then Chunks(xs[start..], size) else []) == Chunks(xs, size)
    {
      var end := if start + size < |xs| then start + size else |xs|;
      ghost var rest := xs[start..];
      assert rest[..end - start] == xs[start..end] && (end == |xs| ==> rest == xs[start..end]);
      assert start + size < |xs| ==> rest[size..] == xs[start + size..];
      ghost var later := if start + size < |xs| then Chunks(xs[start + size..], size) else [];
      assert Chunks(rest, size) == [xs[start..end]] + later;
      assert cs + ([xs[start..end]] + later) == (cs + [xs[start..end]]) + later;
      cs := cs + [xs[start..end]];
      start := start + size;
    }
    ConcatChunks(xs, size);
  }
}
