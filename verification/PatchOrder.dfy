/**
 The reordering of a patch batch (dashboard.go): removals of elements of one array are redistributed
 over the positions they occupy, highest index first.
 */
module PatchOrder {
  import opened Common
  import opened Decimal
  import opened JsonPath

  datatype Operation<+V> = Operation(op: string, path: string, value: V)

  /** The batch in its new order, or the index and array of a removal that occurs twice. */
  datatype Outcome<+V> = Reordered(operations: seq<Operation<V>>) | DuplicateRemove(index: nat, arrayPath: string)

  /** What the reordering sees in an operation. */
  datatype Removal = NotRemoval | Removal(arrayPath: string, index: nat)

  function StripRoot(path: string): string {
    if |path| > 2 && path[..2] == "$." then path[2..] else path
  }

  function PathPiece(segments: seq<Segment>, j: nat): string
    requires j < |segments|
  {
    (if j > 0 then "." else "") + segments[j].key
    + (if segments[j].isArray && j < |segments| - 1 then "[" + Show(segments[j].index) + "]" else "")
  }

  /** Printed path of the array whose element the last segment names, up to segment `n`. */
  function ArrayPathTo(segments: seq<Segment>, n: nat): string
    requires n <= |segments|
  {
    if n == 0 then "" else ArrayPathTo(segments, n - 1) + PathPiece(segments, n - 1)
  }

  function RemovalOf<V>(op: Operation<V>): Removal {
    if op.op == "remove" then RemovalAt(Parse(StripRoot(op.path))) else NotRemoval
  }

  function RemovalAt(segments: seq<Segment>): Removal {
    if segments == [] then NotRemoval
    else
      var last := segments[|segments| - 1];
      if !last.isArray || last.isAppend then NotRemoval
      else Removal(ArrayPathTo(segments, |segments|), last.index)
  }

  method FindRemoval<V>(op: Operation<V>) returns (removal: Removal)
    ensures removal == RemovalOf(op)
  {
    if op.op != "remove" {
      return NotRemoval;
    }
    var path := StripRoot(op.path);
    var segments := ParseJSONPath(path);
    if |segments| == 0 {
      return NotRemoval;
    }
    var last := segments[|segments| - 1];
    if !last.isArray || last.isAppend {
      return NotRemoval;
    }
    var arrayPath := BuildArrayPath(segments);
    return Removal(arrayPath, last.index);
  }

  method BuildArrayPath(segments: seq<Segment>) returns (arrayPath: string)
    ensures arrayPath == ArrayPathTo(segments, |segments|)
  {
    arrayPath := "";
    for j := 0 to |segments|
      invariant arrayPath == ArrayPathTo(segments, j)
    {
      ghost var before := arrayPath;
      var dot := if j > 0 then "." else "";
      arrayPath := arrayPath + dot;
      arrayPath := arrayPath + segments[j].key;
      var index := if segments[j].isArray && j < |segments| - 1 then "[" + Show(segments[j].index) + "]" else "";
      arrayPath := arrayPath + index;
      Regroup(before, dot, segments[j].key, index);
    }
  }

  lemma Regroup(a: string, b: string, c: string, d: string)
    ensures a + b + c + d == a + (b + c + d)
  {
  }

  // ---------------------------------------------------------------- what a reordering is

  function Removals<V>(ops: seq<Operation<V>>): (tags: seq<Removal>)
    ensures |tags| == |ops|
  {
    seq(|ops|, i requires 0 <= i < |ops| => RemovalOf(ops[i]))
  }

  predicate SameArray(a: Removal, b: Removal) {
    a.Removal? && b.Removal? && a.arrayPath == b.arrayPath
  }

  predicate HasDuplicate(tags: seq<Removal>) {
    exists i, j :: 0 <= i < j < |tags| && tags[i].Removal? && tags[i] == tags[j]
  }

  /** `pi` lists every position below `n` once. */
  predicate Arrangement(pi: seq<nat>, n: nat) {
    && |pi| == n
    && (forall i :: 0 <= i < n ==> pi[i] < n)
    && (forall k :: 0 <= k < n ==> k in pi)
  }

  /** Everything but array removals stays put, and the removals of each array come highest index first. */
  predicate Ordered(tags: seq<Removal>, pi: seq<nat>) {
    && Arrangement(pi, |tags|)
    && (forall i {:trigger pi[i]} :: 0 <= i < |tags| && tags[i].NotRemoval? ==> pi[i] == i)
    && (forall i {:trigger pi[i]} :: 0 <= i < |tags| && tags[i].Removal? ==> SameArray(tags[pi[i]], tags[i]))
    && Descending(tags, pi)
  }

  predicate Descending(tags: seq<Removal>, pi: seq<nat>)
    requires |pi| == |tags| && forall i :: 0 <= i < |pi| ==> pi[i] < |tags|
  {
    forall i, j {:trigger pi[i], pi[j]} ::
        0 <= i < j < |pi| && SameArray(tags[pi[i]], tags[pi[j]]) ==> tags[pi[i]].index > tags[pi[j]].index
  }

  function Arrange<T>(items: seq<T>, pi: seq<nat>): (r: seq<T>)
    requires forall i :: 0 <= i < |pi| ==> pi[i] < |items|
    ensures |r| == |pi| && forall i :: 0 <= i < |pi| ==> r[i] == items[pi[i]]
  {
    seq(|pi|, i requires 0 <= i < |pi| => items[pi[i]])
  }

  /** There is at most one such arrangement: the order in which a loop visits the groups leaves no trace. */
  lemma {:induction false} OrderedIsUnique(tags: seq<Removal>, p1: seq<nat>, p2: seq<nat>, n: nat)
    requires Ordered(tags, p1) && Ordered(tags, p2) && n <= |tags|
    ensures forall i :: 0 <= i < n ==> p1[i] == p2[i]
    ensures n == |tags| ==> p1 == p2
  {
    if n > 0 {
      OrderedIsUnique(tags, p1, p2, n - 1);
      if p1[n - 1] != p2[n - 1] {
        KeptForLater(tags, p1, p2, n - 1);
        KeptForLater(tags, p2, p1, n - 1);
      }
    }
  }

  /** Where two arrangements first differ, each must keep the other's removal for later. */
  lemma KeptForLater(tags: seq<Removal>, p1: seq<nat>, p2: seq<nat>, i: nat)
    requires Ordered(tags, p1) && Ordered(tags, p2) && i < |tags|
    requires (forall j :: 0 <= j < i ==> p1[j] == p2[j]) && p1[i] != p2[i]
    ensures tags[p1[i]].Removal? && tags[p2[i]].Removal? && tags[p1[i]].index > tags[p2[i]].index
  {
    var k := p2[i];
    assert k in p1;
    var j :| 0 <= j < |p1| && p1[j] == k;
    assert tags[i].Removal?;
    assert SameArray(tags[p1[i]], tags[k]);
    NoRepeat(tags, p2, i);
  }

  lemma NoRepeat(tags: seq<Removal>, pi: seq<nat>, i: nat)
    requires Ordered(tags, pi) && i < |tags| && tags[pi[i]].Removal?
    ensures forall j :: 0 <= j < i ==> pi[j] != pi[i]
  {
  }

  /** A batch in which a removal occurs twice cannot be ordered. */
  lemma DuplicatesCannotDescend(tags: seq<Removal>, pi: seq<nat>)
    requires Ordered(tags, pi)
    ensures !HasDuplicate(tags)
  {
    if i, j :| 0 <= i < j < |tags| && tags[i].Removal? && tags[i] == tags[j] {
      assert i in pi && j in pi;
      var a :| 0 <= a < |pi| && pi[a] == i;
      var b :| 0 <= b < |pi| && pi[b] == j;
      assert SameArray(tags[pi[a]], tags[pi[b]]);
    }
  }

  function Below(n: nat): (s: set<nat>)
    ensures |s| == n && forall k :: k in s <==> 0 <= k < n
  {
    if n == 0 then {} else Below(n - 1) + {n - 1}
  }

  function Entries(pi: seq<nat>): set<nat> {
    set k | k in pi
  }

  lemma EntriesBound(pi: seq<nat>)
    ensures |Entries(pi)| <= |pi|
  {
    if pi == [] {
      assert Entries(pi) == {};
    } else {
      EntriesBound(pi[1..]);
      assert Entries(pi) == Entries(pi[1..]) + {pi[0]};
    }
  }

  /** A list of `n` numbers that contains all below `n` contains nothing else. */
  lemma NoRoomForMore(pi: seq<nat>, n: nat)
    requires |pi| == n && forall k :: 0 <= k < n ==> k in pi
    ensures forall i :: 0 <= i < n ==> pi[i] < n
  {
    EntriesBound(pi);
    if i :| 0 <= i < n && pi[i] >= n {
      SubsetSize(Below(n) + {pi[i]}, Entries(pi));
    }
  }

  lemma DropLargest(pi: seq<nat>, n: nat, q: nat)
    requires Arrangement(pi, n) && q < n && pi[q] == n - 1
    ensures Arrangement(pi[..q] + pi[q + 1..], n - 1)
  {
    var shorter := pi[..q] + pi[q + 1..];
    forall k | 0 <= k < n - 1
      ensures k in shorter
    {
      assert k in pi;
      var i :| 0 <= i < n && pi[i] == k;
      assert shorter[if i < q then i else i - 1] == k;
    }
    NoRoomForMore(shorter, n - 1);
  }

  lemma LargestAt(pi: seq<nat>, n: nat) returns (q: nat)
    requires Arrangement(pi, n) && n > 0
    ensures q < |pi| == n && pi[q] == n - 1 && forall i :: 0 <= i < |pi| ==> pi[i] < n
  {
    assert n - 1 in pi;
    q :| 0 <= q < n && pi[q] == n - 1;
  }

  lemma MultisetWithout<T>(s: seq<T>, q: nat)
    requires q < |s|
    ensures multiset(s) == multiset(s[..q] + s[q + 1..]) + multiset{s[q]}
  {
    assert s == s[..q] + [s[q]] + s[q + 1..];
  }

  lemma ArrangeWithout<T>(items: seq<T>, pi: seq<nat>, q: nat)
    requires Arrangement(pi, |items|) && q < |items| && Arrangement(pi[..q] + pi[q + 1..], |items| - 1)
    ensures Arrange(items[..|items| - 1], pi[..q] + pi[q + 1..])
        == Arrange(items, pi)[..q] + Arrange(items, pi)[q + 1..]
  {
  }

  /** An arrangement keeps the batch as a multiset of operations. */
  lemma {:induction false} ArrangementPermutes<T>(items: seq<T>, pi: seq<nat>)
    requires Arrangement(pi, |items|)
    ensures multiset(Arrange(items, pi)) == multiset(items)
  {
    var n := |items|;
    if n > 0 {
      hide *;
      var q := LargestAt(pi, n);
      var shorter := pi[..q] + pi[q + 1..];
      DropLargest(pi, n, q);
      ArrangementPermutes(items[..n - 1], shorter);
      ArrangeWithout(items, pi, q);
      MultisetWithout(Arrange(items, pi), q);
      MultisetWithout(items, n - 1);
      assert items[..n - 1] + items[n..] == items[..n - 1];
    } else {
      assert Arrange(items, pi) == items;
    }
  }

  // ---------------------------------------------------------------- the groups

  datatype RemoveInfo = RemoveInfo(arrayPath: string, index: nat, opIndex: nat)

  predicate Concerns(tag: Removal, key: string) {
    tag.Removal? && tag.arrayPath == key
  }

  /** The removals among the first `n` operations that concern the array `key`, in batch order. */
  function Group(tags: seq<Removal>, n: nat, key: string): seq<RemoveInfo>
    requires n <= |tags|
  {
    if n == 0 then []
    else if Concerns(tags[n - 1], key) then
      Group(tags, n - 1, key) + [RemoveInfo(key, tags[n - 1].index, n - 1)]
    else Group(tags, n - 1, key)
  }

  /** `groups` is the table of all groups among the first `n` operations. */
  ghost predicate GroupTable(tags: seq<Removal>, n: nat, groups: map<string, seq<RemoveInfo>>)
    requires n <= |tags|
  {
    forall key :: Group(tags, n, key) == GroupIn(groups, key)
  }

  function GroupIn(groups: map<string, seq<RemoveInfo>>, key: string): seq<RemoveInfo> {
    if key in groups then groups[key] else []
  }

  function AddRemoval(groups: map<string, seq<RemoveInfo>>, removal: Removal, i: nat): map<string, seq<RemoveInfo>> {
    if removal.NotRemoval? then groups
    else
      var path := removal.arrayPath;
      groups[path := GroupIn(groups, path) + [RemoveInfo(path, removal.index, i)]]
  }

  lemma AddRemovalStep(tags: seq<Removal>, i: nat, groups: map<string, seq<RemoveInfo>>)
    requires i < |tags| && GroupTable(tags, i, groups)
    ensures GroupTable(tags, i + 1, AddRemoval(groups, tags[i], i))
  {
    forall key
      ensures Group(tags, i + 1, key) == GroupIn(AddRemoval(groups, tags[i], i), key)
    {
      assert Group(tags, i, key) == GroupIn(groups, key);
    }
  }

  /** First loop: collects the removals of each array. */
  method CollectRemoves<V>(ops: seq<Operation<V>>, ghost tags: seq<Removal>)
      returns (groups: map<string, seq<RemoveInfo>>)
    requires tags == Removals(ops)
    ensures GroupTable(tags, |tags|, groups)
  {
    groups := map[];
    for i := 0 to |ops|
      invariant GroupTable(tags, i, groups)
    {
      var removal := FindRemoval(ops[i]);
      assert removal == tags[i];
      AddRemovalStep(tags, i, groups);
      groups := AddRemoval(groups, removal, i);
    }
  }

  /** `infos` describes each removal of the array `key` once, in some order. */
  predicate Describes(infos: seq<RemoveInfo>, tags: seq<Removal>, n: nat, key: string)
    requires n <= |tags|
  {
    && (forall r :: r in infos ==> r.opIndex < n && tags[r.opIndex] == Removal(key, r.index) && r.arrayPath == key)
    && (forall i :: 0 <= i < n && Concerns(tags[i], key) ==> RemoveInfo(key, tags[i].index, i) in infos)
    && (forall a, b :: 0 <= a < b < |infos| ==> infos[a].opIndex != infos[b].opIndex)
  }

  lemma {:induction false} GroupDescribes(tags: seq<Removal>, n: nat, key: string)
    requires n <= |tags|
    ensures Describes(Group(tags, n, key), tags, n, key)
  {
    if n > 0 {
      GroupDescribes(tags, n - 1, key);
      if Concerns(tags[n - 1], key) {
        DescribesMore(Group(tags, n - 1, key), tags, n - 1, key);
      }
    }
  }

  lemma DescribesMore(infos: seq<RemoveInfo>, tags: seq<Removal>, n: nat, key: string)
    requires n < |tags| && Concerns(tags[n], key) && Describes(infos, tags, n, key)
    ensures Describes(infos + [RemoveInfo(key, tags[n].index, n)], tags, n + 1, key)
  {
    var last := RemoveInfo(key, tags[n].index, n);
    forall i | 0 <= i < n + 1 && Concerns(tags[i], key)
      ensures RemoveInfo(key, tags[i].index, i) in infos + [last]
    {
      if i < n {
        assert RemoveInfo(key, tags[i].index, i) in infos;
      }
    }
    forall a | 0 <= a < |infos|
      ensures infos[a].opIndex < n
    {
      assert infos[a] in infos;
    }
  }

  // ---------------------------------------------------------------- one group

  predicate DistinctIndices(removes: seq<RemoveInfo>) {
    forall a, b :: 0 <= a < b < |removes| ==> removes[a].index != removes[b].index
  }

  /** The scan with the `seen` table. */
  method FindDuplicate(removes: seq<RemoveInfo>) returns (duplicate: Option<nat>)
    ensures duplicate.None? <==> DistinctIndices(removes)
    ensures duplicate.Some? ==>
        exists a, b :: 0 <= a < b < |removes| && removes[a].index == removes[b].index == duplicate.value
  {
    var seen: set<nat> := {};
    for k := 0 to |removes|
      invariant forall a, b :: 0 <= a < b < k ==> removes[a].index != removes[b].index
      invariant forall a :: 0 <= a < k ==> removes[a].index in seen
      invariant forall x :: x in seen ==> exists a :: 0 <= a < k && removes[a].index == x
    {
      if removes[k].index in seen {
        return Some(removes[k].index);
      }
      seen := seen + {removes[k].index};
    }
    return None;
  }

  predicate StrictlyDown(s: seq<RemoveInfo>) {
    forall a, b :: 0 <= a < b < |s| ==> s[a].index > s[b].index
  }

  function InsertDown(r: RemoveInfo, s: seq<RemoveInfo>): (t: seq<RemoveInfo>)
    requires StrictlyDown(s) && forall x :: x in s ==> x.index != r.index
    ensures |t| == |s| + 1 && StrictlyDown(t)
    ensures forall x :: x in t <==> x == r || x in s
  {
    if s == [] || r.index > s[0].index then [r] + s
    else
      var u := InsertDown(r, s[1..]);
      assert s == [s[0]] + s[1..];
      assert forall b :: 0 <= b < |u| ==> u[b] in u;
      [s[0]] + u
  }

  /** Stands for the library sort that puts the greater index first. */
  function SortDown(s: seq<RemoveInfo>): (t: seq<RemoveInfo>)
    requires DistinctIndices(s)
    ensures |t| == |s| && StrictlyDown(t)
    ensures forall x :: x in t <==> x in s
  {
    if s == [] then []
    else
      assert s == [s[0]] + s[1..];
      assert forall x :: x in s[1..] ==> exists b :: 0 < b < |s| && s[b] == x;
      InsertDown(s[0], SortDown(s[1..]))
  }

  predicate StrictlyUp(s: seq<nat>) {
    forall a, b :: 0 <= a < b < |s| ==> s[a] < s[b]
  }

  function InsertUp(n: nat, s: seq<nat>): (t: seq<nat>)
    requires StrictlyUp(s) && n !in s
    ensures |t| == |s| + 1 && StrictlyUp(t)
    ensures forall x :: x in t <==> x == n || x in s
  {
    if s == [] || n < s[0] then [n] + s
    else
      var u := InsertUp(n, s[1..]);
      assert s == [s[0]] + s[1..];
      assert forall b :: 0 <= b < |u| ==> u[b] in u;
      [s[0]] + u
  }

  /** Stands for `sort.Ints`. */
  function SortUp(s: seq<nat>): (t: seq<nat>)
    requires forall a, b :: 0 <= a < b < |s| ==> s[a] != s[b]
    ensures |t| == |s| && StrictlyUp(t)
    ensures forall x :: x in t <==> x in s
  {
    if s == [] then []
    else
      assert s == [s[0]] + s[1..];
      assert forall x :: x in s[1..] ==> exists b :: 0 < b < |s| && s[b] == x;
      InsertUp(s[0], SortUp(s[1..]))
  }

  // ---------------------------------------------------------------- rebuilding the batch

  /** What `pi` must satisfy whichever groups have been placed so far. */
  predicate Partial(tags: seq<Removal>, pi: seq<nat>) {
    && Arrangement(pi, |tags|)
    && (forall i {:trigger pi[i]} :: 0 <= i < |tags| && tags[i].NotRemoval? ==> pi[i] == i)
    && (forall i {:trigger pi[i]} :: 0 <= i < |tags| && tags[i].Removal? ==> SameArray(tags[pi[i]], tags[i]))
  }

  predicate DescendingFor(tags: seq<Removal>, pi: seq<nat>, key: string)
    requires Partial(tags, pi)
  {
    forall i, j {:trigger pi[i], pi[j]} :: 0 <= i < j < |tags| && Concerns(tags[i], key) && Concerns(tags[j], key) ==>
      tags[pi[i]].Removal? && tags[pi[j]].Removal? && tags[pi[i]].index > tags[pi[j]].index
  }

  /** `p2` is `p1` with the operations of `removes`, in that order, at the positions of the group. */
  predicate Placed(p1: seq<nat>, p2: seq<nat>, positions: seq<nat>, removes: seq<RemoveInfo>, n: nat)
    requires n <= |positions| == |removes|
  {
    && |p2| == |p1|
    && (forall a :: 0 <= a < n ==> positions[a] < |p2| && p2[positions[a]] == removes[a].opIndex)
    && (forall i {:trigger p2[i]} :: 0 <= i < |p1| && (forall a :: 0 <= a < n ==> positions[a] != i) ==> p2[i] == p1[i])
  }

  ghost predicate GroupPositions(tags: seq<Removal>, key: string, removes: seq<RemoveInfo>, positions: seq<nat>) {
    && Describes(removes, tags, |tags|, key) && StrictlyDown(removes)
    && |positions| == |removes| && StrictlyUp(positions)
    && (forall p: nat :: p in positions <==> p < |tags| && Concerns(tags[p], key))
  }

  lemma PlacedPartial(tags: seq<Removal>, key: string, p1: seq<nat>, p2: seq<nat>, positions: seq<nat>,
                      removes: seq<RemoveInfo>)
    requires Partial(tags, p1) && GroupPositions(tags, key, removes, positions)
    requires Placed(p1, p2, positions, removes, |removes|)
    ensures Partial(tags, p2)
    ensures forall i :: 0 <= i < |tags| && !Concerns(tags[i], key) ==> p2[i] == p1[i]
  {
    forall i | 0 <= i < |tags|
      ensures p2[i] < |tags|
      ensures !Concerns(tags[i], key) ==> p2[i] == p1[i]
      ensures tags[i].NotRemoval? ==> p2[i] == i
      ensures tags[i].Removal? ==> SameArray(tags[p2[i]], tags[i])
    {
      if Concerns(tags[i], key) {
        assert i in positions;
        var a :| 0 <= a < |positions| && positions[a] == i;
        assert removes[a] in removes;
      } else {
        assert forall a :: 0 <= a < |positions| ==> positions[a] in positions;
        assert p2[i] == p1[i];
      }
    }
    forall k | 0 <= k < |tags|
      ensures k in p2
    {
      if Concerns(tags[k], key) {
        var a :| 0 <= a < |removes| && removes[a] == RemoveInfo(key, tags[k].index, k);
        assert p2[positions[a]] == k;
      } else {
        assert k in p1;
        var q :| 0 <= q < |p1| && p1[q] == k;
        assert !Concerns(tags[q], key);
        assert p2[q] == k;
      }
    }
  }

  lemma PlacedDescends(tags: seq<Removal>, key: string, p1: seq<nat>, p2: seq<nat>, positions: seq<nat>,
                       removes: seq<RemoveInfo>)
    requires Partial(tags, p2) && GroupPositions(tags, key, removes, positions)
    requires Placed(p1, p2, positions, removes, |removes|)
    ensures DescendingFor(tags, p2, key)
  {
    forall i, j | 0 <= i < j < |tags| && Concerns(tags[i], key) && Concerns(tags[j], key)
      ensures tags[p2[i]].Removal? && tags[p2[j]].Removal? && tags[p2[i]].index > tags[p2[j]].index
    {
      PlacedPair(tags, key, p1, p2, positions, removes, i, j);
    }
  }

  lemma PlacedPair(tags: seq<Removal>, key: string, p1: seq<nat>, p2: seq<nat>, positions: seq<nat>,
                   removes: seq<RemoveInfo>, i: nat, j: nat)
    requires GroupPositions(tags, key, removes, positions)
    requires Placed(p1, p2, positions, removes, |removes|)
    requires i < j < |tags| && Concerns(tags[i], key) && Concerns(tags[j], key)
    ensures j < |p2| && p2[i] < |tags| && p2[j] < |tags|
    ensures tags[p2[i]].Removal? && tags[p2[j]].Removal? && tags[p2[i]].index > tags[p2[j]].index
  {
    var a := PlacedAt(tags, key, p1, p2, positions, removes, i);
    var b := PlacedAt(tags, key, p1, p2, positions, removes, j);
    UpThenDown(positions, removes, a, b);
  }

  lemma UpThenDown(positions: seq<nat>, removes: seq<RemoveInfo>, a: nat, b: nat)
    requires |positions| == |removes| && StrictlyUp(positions) && StrictlyDown(removes)
    requires a < |positions| && b < |positions| && positions[a] < positions[b]
    ensures removes[a].index > removes[b].index
  {
  }

  lemma PlacedAt(tags: seq<Removal>, key: string, p1: seq<nat>, p2: seq<nat>, positions: seq<nat>,
                 removes: seq<RemoveInfo>, i: nat)
    returns (a: nat)
    requires GroupPositions(tags, key, removes, positions)
    requires Placed(p1, p2, positions, removes, |removes|)
    requires i < |tags| && Concerns(tags[i], key)
    ensures a < |positions| && positions[a] == i < |p2| && p2[i] < |tags|
        && tags[p2[i]] == Removal(key, removes[a].index)
  {
    assert i in positions;
    a :| 0 <= a < |positions| && positions[a] == i;
    assert removes[a] in removes;
  }

  lemma SmallGroup(tags: seq<Removal>, key: string, pi: seq<nat>, removes: seq<RemoveInfo>)
    requires Partial(tags, pi) && Describes(removes, tags, |tags|, key) && |removes| <= 1
    ensures DescendingFor(tags, pi, key)
  {
    forall i, j | 0 <= i < j < |tags| && Concerns(tags[i], key) && Concerns(tags[j], key)
      ensures false
    {
      TwoInGroup(tags, key, removes, i, j);
    }
  }

  lemma TwoInGroup(tags: seq<Removal>, key: string, removes: seq<RemoveInfo>, i: nat, j: nat)
    requires Describes(removes, tags, |tags|, key)
    requires i < j < |tags| && Concerns(tags[i], key) && Concerns(tags[j], key)
    ensures |removes| > 1
  {
    assert RemoveInfo(key, tags[i].index, i) in removes && RemoveInfo(key, tags[j].index, j) in removes;
  }

  /** `result` holds the operations in the order `pi`. */
  predicate Holds<V(==)>(ops: seq<Operation<V>>, result: seq<Operation<V>>, pi: seq<nat>) {
    |result| == |ops| == |pi| && forall k :: 0 <= k < |ops| ==> pi[k] < |ops| && result[k] == ops[pi[k]]
  }

  /** Last loop, for one group: its operations go to its positions, greatest index first. */
  method PlaceGroup<V(==)>(ops: seq<Operation<V>>, current: seq<Operation<V>>, removes: seq<RemoveInfo>,
                           ghost tags: seq<Removal>, ghost key: string, ghost pi: seq<nat>)
    returns (result: seq<Operation<V>>, ghost p2: seq<nat>)
    requires |tags| == |ops| && Partial(tags, pi) && Holds(ops, current, pi)
    requires Describes(removes, tags, |tags|, key) && StrictlyDown(removes)
    ensures Partial(tags, p2) && Holds(ops, result, p2)
    ensures forall i :: 0 <= i < |ops| && !Concerns(tags[i], key) ==> p2[i] == pi[i]
    ensures DescendingFor(tags, p2, key)
  {
    result, p2 := current, pi;
    if |removes| <= 1 {
      SmallGroup(tags, key, pi, removes);
      return;
    }
    var positions := SortUp(OpIndices(removes));
    PositionsOfGroup(tags, key, removes, positions);
    GroupBounds(tags, key, removes, positions);
    result := FillPositions(ops, current, positions, removes);
    p2 := Assign(pi, positions, OpIndices(removes), |positions|);
    AssignPlaces(pi, positions, removes, |positions|);
    AssignHolds(ops, current, pi, positions, OpIndices(removes), |positions|);
    PlacedPartial(tags, key, pi, p2, positions, removes);
    PlacedDescends(tags, key, pi, p2, positions, removes);
  }

  function OpIndices(removes: seq<RemoveInfo>): (s: seq<nat>)
    ensures |s| == |removes| && forall i :: 0 <= i < |s| ==> s[i] == removes[i].opIndex
  {
    seq(|removes|, i requires 0 <= i < |removes| => removes[i].opIndex)
  }

  /** `s` after the first `n` of the assignments `s[positions[a]] := values[a]`. */
  function Assign<T>(s: seq<T>, positions: seq<nat>, values: seq<T>, n: nat): (r: seq<T>)
    requires n <= |positions| == |values| && forall a :: 0 <= a < |positions| ==> positions[a] < |s|
    ensures |r| == |s|
  {
    if n == 0 then s else Assign(s, positions, values, n - 1)[positions[n - 1] := values[n - 1]]
  }

  method FillPositions<V(==)>(ops: seq<Operation<V>>, current: seq<Operation<V>>, positions: seq<nat>,
                              removes: seq<RemoveInfo>)
    returns (result: seq<Operation<V>>)
    requires |positions| == |removes| && forall a ::
        0 <= a < |positions| ==> positions[a] < |current| && OpIndices(removes)[a] < |ops|
    ensures result == Assign(current, positions, Arrange(ops, OpIndices(removes)), |positions|)
  {
    result := current;
    for i := 0 to |positions|
      invariant result == Assign(current, positions, Arrange(ops, OpIndices(removes)), i)
    {
      result := result[positions[i] := ops[removes[i].opIndex]];
    }
  }

  lemma AssignPlaces(pi: seq<nat>, positions: seq<nat>, removes: seq<RemoveInfo>, n: nat)
    requires n <= |positions| == |removes| && StrictlyUp(positions) && forall a ::
        0 <= a < |positions| ==> positions[a] < |pi|
    ensures Placed(pi, Assign(pi, positions, OpIndices(removes), n), positions, removes, n)
  {
    if n > 0 {
      AssignPlaces(pi, positions, removes, n - 1);
    }
  }

  lemma AssignHolds<V>(ops: seq<Operation<V>>, current: seq<Operation<V>>, pi: seq<nat>, positions: seq<nat>,
                       indices: seq<nat>, n: nat)
    requires Holds(ops, current, pi) && n <= |positions| == |indices|
    requires forall a :: 0 <= a < |positions| ==> positions[a] < |ops| && indices[a] < |ops|
    ensures Holds(ops, Assign(current, positions, Arrange(ops, indices), n), Assign(pi, positions, indices, n))
  {
    if n > 0 {
      AssignHolds(ops, current, pi, positions, indices, n - 1);
    }
  }

  lemma GroupBounds(tags: seq<Removal>, key: string, removes: seq<RemoveInfo>, positions: seq<nat>)
    requires GroupPositions(tags, key, removes, positions)
    ensures forall a :: 0 <= a < |positions| ==> positions[a] < |tags| && OpIndices(removes)[a] < |tags|
  {
    forall a | 0 <= a < |positions|
      ensures positions[a] < |tags| && OpIndices(removes)[a] < |tags|
    {
      assert positions[a] in positions && removes[a] in removes;
    }
  }

  lemma PositionsOfGroup(tags: seq<Removal>, key: string, removes: seq<RemoveInfo>, positions: seq<nat>)
    requires Describes(removes, tags, |tags|, key) && StrictlyDown(removes)
    requires |positions| == |removes| && StrictlyUp(positions) && forall x ::
        x in positions <==> x in OpIndices(removes)
    ensures GroupPositions(tags, key, removes, positions)
  {
    var opIndices := OpIndices(removes);
    forall p: nat
      ensures p in positions <==> p < |tags| && Concerns(tags[p], key)
    {
      if p in opIndices {
        var a :| 0 <= a < |opIndices| && opIndices[a] == p;
        assert removes[a] in removes;
      }
      if p < |tags| && Concerns(tags[p], key) {
        var a :| 0 <= a < |removes| && removes[a] == RemoveInfo(key, tags[p].index, p);
        assert opIndices[a] == p;
      }
    }
  }

  /** The groups with their removals checked and sorted, in whatever order the map yields them. */
  method SortGroups(groups: map<string, seq<RemoveInfo>>, ghost tags: seq<Removal>)
    returns (sorted: map<string, seq<RemoveInfo>>, duplicate: Option<RemoveInfo>)
    requires forall key :: key in groups ==> Describes(groups[key], tags, |tags|, key)
    ensures duplicate.Some? ==>
        exists i, j ::
        0 <= i < j < |tags| && tags[i] == tags[j] == Removal(duplicate.value.arrayPath, duplicate.value.index)
    ensures duplicate.None? ==>
              && sorted.Keys == groups.Keys
              && forall key :: key in sorted ==> Describes(sorted[key], tags, |tags|, key) && StrictlyDown(sorted[key])
  {
    sorted := groups;
    var todo := groups.Keys;
    while todo != {}
      invariant todo <= sorted.Keys == groups.Keys
      invariant forall key ::
          key in sorted ==> Describes(sorted[key], tags, |tags|, key) && (key in todo || StrictlyDown(sorted[key]))
      decreases todo
    {
      var key :| key in todo;
      var removes := sorted[key];
      var twice := FindDuplicate(removes);
      if twice.Some? {
        RepeatedTag(removes, tags, key, twice.value);
        return sorted, Some(RemoveInfo(key, twice.value, 0));
      }
      SortedDescribes(removes, tags, key);
      sorted := sorted[key := SortDown(removes)];
      todo := todo - {key};
    }
    return sorted, None;
  }

  lemma SortedDescribes(removes: seq<RemoveInfo>, tags: seq<Removal>, key: string)
    requires Describes(removes, tags, |tags|, key) && DistinctIndices(removes)
    ensures Describes(SortDown(removes), tags, |tags|, key)
  {
    var s := SortDown(removes);
    forall a, b | 0 <= a < b < |s|
      ensures s[a].opIndex != s[b].opIndex
    {
      assert s[a] in s && s[b] in s;
    }
  }

  lemma RepeatedTag(removes: seq<RemoveInfo>, tags: seq<Removal>, key: string, index: nat)
    requires Describes(removes, tags, |tags|, key)
    requires exists a, b :: 0 <= a < b < |removes| && removes[a].index == removes[b].index == index
    ensures exists i, j :: 0 <= i < j < |tags| && tags[i] == tags[j] == Removal(key, index)
  {
    var a, b :| 0 <= a < b < |removes| && removes[a].index == removes[b].index == index;
    var i, j := removes[a].opIndex, removes[b].opIndex;
    assert removes[a] in removes && removes[b] in removes;
    assert tags[i] == tags[j] == Removal(key, index);
    assert i < j || j < i;
  }

  ghost predicate IsReordering<V>(ops: seq<Operation<V>>, result: seq<Operation<V>>) {
    exists pi :: Ordered(Removals(ops), pi) && result == Arrange(ops, pi)
  }

  /**
   Reorders a batch.  It fails exactly when two removals name one index of one array; otherwise the
   result is the only reordering there is, whatever order the maps are walked in.
   */
  method SortArrayRemovesDescending<V(==)>(operations: seq<Operation<V>>) returns (outcome: Outcome<V>)
    ensures outcome.Reordered? <==> !HasDuplicate(Removals(operations))
    ensures outcome.Reordered? ==> IsReordering(operations, outcome.operations)
    ensures outcome.DuplicateRemove? ==>
              exists i, j :: 0 <= i < j < |operations|
                && Removals(operations)[i] == Removals(operations)[j] == Removal(outcome.arrayPath, outcome.index)
  {
    ghost var tags := Removals(operations);
    var removesByArray := CollectRemoves(operations, tags);
    GroupsDescribe(tags, removesByArray);
    var sorted, duplicate := SortGroups(removesByArray, tags);
    if duplicate.Some? {
      return DuplicateRemove(duplicate.value.index, duplicate.value.arrayPath);
    }
    var result, pi := Rebuild(operations, sorted, tags);
    DuplicatesCannotDescend(tags, pi);
    HoldsArranged(operations, result, pi);
    return Reordered(result);
  }

  lemma HoldsArranged<V>(ops: seq<Operation<V>>, result: seq<Operation<V>>, pi: seq<nat>)
    requires Holds(ops, result, pi)
    ensures result == Arrange(ops, pi)
  {
  }

  lemma GroupsDescribe(tags: seq<Removal>, groups: map<string, seq<RemoveInfo>>)
    requires GroupTable(tags, |tags|, groups)
    ensures forall key :: key in groups ==> Describes(groups[key], tags, |tags|, key)
    ensures forall i :: 0 <= i < |tags| && tags[i].Removal? ==> tags[i].arrayPath in groups
  {
    forall key: string
      ensures Describes(GroupIn(groups, key), tags, |tags|, key)
    {
      GroupDescribes(tags, |tags|, key);
    }
    forall key | key in groups
      ensures Describes(groups[key], tags, |tags|, key)
    {
      assert GroupIn(groups, key) == groups[key];
    }
    forall i | 0 <= i < |tags| && tags[i].Removal?
      ensures tags[i].arrayPath in groups
    {
      assert Describes(GroupIn(groups, tags[i].arrayPath), tags, |tags|, tags[i].arrayPath);
      assert Concerns(tags[i], tags[i].arrayPath);
    }
  }

  /** The last loop, over the groups in whatever order the map yields them. */
  method Rebuild<V(==)>(operations: seq<Operation<V>>, groups: map<string, seq<RemoveInfo>>, ghost tags: seq<Removal>)
    returns (result: seq<Operation<V>>, ghost pi: seq<nat>)
    requires |tags| == |operations|
    requires forall key :: key in groups ==> Describes(groups[key], tags, |tags|, key) && StrictlyDown(groups[key])
    requires forall i :: 0 <= i < |tags| && tags[i].Removal? ==> tags[i].arrayPath in groups
    ensures Ordered(tags, pi) && Holds(operations, result, pi)
  {
    result := operations;
    pi := seq(|operations|, (i: nat) => i);
    IdentityArrangement(pi);
    var todo := groups.Keys;
    while todo != {}
      invariant todo <= groups.Keys
      invariant Partial(tags, pi) && Holds(operations, result, pi)
      invariant forall key :: key in groups && key !in todo ==> DescendingFor(tags, pi, key)
      decreases todo
    {
      var key :| key in todo;
      ghost var before := pi;
      result, pi := PlaceGroup(operations, result, groups[key], tags, key, pi);
      forall other | other in groups && other !in todo
        ensures DescendingFor(tags, pi, other)
      {
        OtherGroupKept(tags, before, pi, key, other);
      }
      todo := todo - {key};
    }
    AllGroupsDescend(tags, pi, groups.Keys);
  }

  lemma IdentityArrangement(pi: seq<nat>)
    requires forall i :: 0 <= i < |pi| ==> pi[i] == i
    ensures Arrangement(pi, |pi|)
  {
    forall k | 0 <= k < |pi|
      ensures k in pi
    {
      assert pi[k] == k;
    }
  }

  lemma OtherGroupKept(tags: seq<Removal>, p1: seq<nat>, p2: seq<nat>, key: string, other: string)
    requires Partial(tags, p1) && Partial(tags, p2) && DescendingFor(tags, p1, other) && key != other
    requires forall i :: 0 <= i < |tags| && !Concerns(tags[i], key) ==> p2[i] == p1[i]
    ensures DescendingFor(tags, p2, other)
  {
    forall i, j | 0 <= i < j < |tags| && Concerns(tags[i], other) && Concerns(tags[j], other)
      ensures tags[p2[i]].Removal? && tags[p2[j]].Removal? && tags[p2[i]].index > tags[p2[j]].index
    {
      assert !Concerns(tags[i], key) && !Concerns(tags[j], key);
      assert p2[i] == p1[i] && p2[j] == p1[j];
    }
  }

  lemma AllGroupsDescend(tags: seq<Removal>, pi: seq<nat>, keys: set<string>)
    requires Partial(tags, pi)
    requires forall i :: 0 <= i < |tags| && tags[i].Removal? ==> tags[i].arrayPath in keys
    requires forall key :: key in keys ==> DescendingFor(tags, pi, key)
    ensures Ordered(tags, pi)
  {
    forall i, j | 0 <= i < j < |pi| && SameArray(tags[pi[i]], tags[pi[j]])
      ensures tags[pi[i]].index > tags[pi[j]].index
    {
      var key := tags[pi[i]].arrayPath;
      assert tags[i].Removal? && tags[j].Removal?;
      assert Concerns(tags[i], key) && Concerns(tags[j], key);
      assert DescendingFor(tags, pi, key);
    }
  }
}
