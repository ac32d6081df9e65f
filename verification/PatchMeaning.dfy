/**
 What the operations of a patch are for (dashboard.go).

 Setting leaves the value in the addressed place, removing leaves the place empty, and either keeps all that lies apart
 from it.  This is said in terms of locations in the tree before and the tree after, and it determines the tree after;
 a batch is a chain of such changes.
 */
module PatchMeaning {
  import opened Common
  import opened Decimal
  import opened JsonPath
  import opened PatchOrder
  import opened PatchApply

  function Front(segments: seq<Segment>): seq<Segment>
    requires segments != []
  {
    segments[..|segments| - 1]
  }

  function Last(segments: seq<Segment>): Segment
    requires segments != []
  {
    segments[|segments| - 1]
  }

  predicate NoAppend(segments: seq<Segment>) {
    forall i :: 0 <= i < |segments| ==> !segments[i].isAppend
  }

  /** `holder` is the object that has the target in one of its fields. */
  predicate Holds(doc: Fields, segments: seq<Segment>, holder: Fields)
    requires segments != []
  {
    NoAppend(Front(segments)) && Lookup(Obj(doc), LocationOf(Front(segments))) == Some(Obj(holder))
  }

  /** Where in its holder a value goes: to a field, to an element, or behind the last element. */
  predicate Aims(holder: Fields, seg: Segment, place: seq<Step>) {
    var field := Lookup(Obj(holder), [Field(seg.key)]);
    if seg.isAppend then
      field.Some? && field.value.Arr? && place == [Field(seg.key), Elem(|field.value.items|)]
    else if seg.isArray then
      field.Some? && field.value.Arr? && seg.index < |field.value.items| && place == [Field(seg.key), Elem(seg.index)]
    else
      place == [Field(seg.key)]
  }

  ghost predicate SameApart(doc: Fields, doc': Fields, there: seq<Step>) {
    forall other :: Apart(there, other) ==> Lookup(Obj(doc'), other) == Lookup(Obj(doc), other)
  }

  /** `doc'` has `v` where `segments` point, and all else as `doc` has it. */
  ghost predicate Puts(doc: Fields, segments: seq<Segment>, v: Json, doc': Fields)
    requires segments != []
  {
    exists holder, place :: PutsAt(doc, segments, v, doc', holder, place)
  }

  ghost predicate PutsAt(doc: Fields, segments: seq<Segment>, v: Json, doc': Fields, holder: Fields, place: seq<Step>)
    requires segments != []
  {
    && Holds(doc, segments, holder) && Aims(holder, Last(segments), place)
    && var there := LocationOf(Front(segments)) + place;
       Lookup(Obj(doc'), there) == Some(v) && SameApart(doc, doc', there)
  }

  /** `doc'` lacks what `segments` point to: a field of an object, or an element that the later ones move up for. */
  ghost predicate Takes(doc: Fields, segments: seq<Segment>, doc': Fields)
    requires segments != []
  {
    exists holder, rest :: TakesFrom(doc, segments, doc', holder, rest)
  }

  ghost predicate TakesFrom(doc: Fields, segments: seq<Segment>, doc': Fields, holder: Fields, rest: Fields)
    requires segments != []
  {
    var loc, last := LocationOf(Front(segments)), Last(segments);
    var field := Lookup(Obj(holder), [Field(last.key)]);
    && Holds(doc, segments, holder) && !last.isAppend
    && SameApart(doc, doc', loc + [Field(last.key)])
    && Lookup(Obj(doc'), loc) == Some(Obj(rest))
    && Lookup(Obj(rest), [Field(last.key)]) == Without(field, last)
    && (last.isArray ==> field.Some? && field.value.Arr? && last.index < |field.value.items|)
  }

  function Without(field: Option<Json>, last: Segment): Option<Json> {
    if last.isArray && field.Some? && field.value.Arr? && last.index < |field.value.items| then
      var items := field.value.items;
      Some(Arr(items[..last.index] + items[last.index + 1..]))
    else None
  }

  // ---------------------------------------------------------------- the change determines the tree

  lemma {:induction false} SameTree(a: Json, b: Json, there: seq<Step>)
    requires Lookup(a, there).Some? && Lookup(a, there) == Lookup(b, there)
    requires forall other :: Apart(there, other) ==> Lookup(a, other) == Lookup(b, other)
    ensures a == b
  {
    if there != [] {
      var step, tail := there[0], there[1..];
      forall other | Apart(tail, other)
        ensures Lookup(Child(a, step), other) == Lookup(Child(b, step), other)
      {
        ApartBelow(there, other);
        var longer := [step] + other;
        assert longer[0] == step && longer[1..] == other;
        assert Lookup(a, longer) == Lookup(b, longer);
      }
      SameTree(Child(a, step), Child(b, step), tail);
      match step
      case Field(k) => SameFields(a, b, there);
      case Elem(i) => SameItems(a, b, there);
    }
  }

  function Child(j: Json, step: Step): Json
    requires match step case Field(k) => j.Obj? && k in j.fields case Elem(i) => j.Arr? && i < |j.items|
  {
    match step
    case Field(k) => j.fields[k]
    case Elem(i) => j.items[i]
  }

  lemma ApartBelow(there: seq<Step>, other: seq<Step>)
    requires there != [] && Apart(there[1..], other)
    ensures Apart(there, [there[0]] + other)
  {
    assert there == [there[0]] + there[1..];
    PrefixCancel([there[0]], there[1..], other);
    PrefixCancel([there[0]], other, there[1..]);
  }

  lemma ApartHeads(there: seq<Step>, step: Step)
    requires there != [] && there[0] != step
    ensures Apart(there, [step])
  {
  }

  lemma LookupOne(j: Json, step: Step)
    ensures Lookup(j, [step]) == match step
                                 case Field(k) => if j.Obj? && k in j.fields then Some(j.fields[k]) else None
                                 case Elem(i) => if j.Arr? && i < |j.items| then Some(j.items[i]) else None
  {
    assert [step][1..] == [];
  }

  lemma SameFields(a: Json, b: Json, there: seq<Step>)
    requires there != [] && there[0].Field? && a.Obj? && b.Obj?
    requires there[0].key in a.fields && there[0].key in b.fields && a.fields[there[0].key] == b.fields[there[0].key]
    requires forall other :: Apart(there, other) ==> Lookup(a, other) == Lookup(b, other)
    ensures a == b
  {
    forall k ensures (k in a.fields <==> k in b.fields) && (k in a.fields ==> a.fields[k] == b.fields[k]) {
      if k != there[0].key {
        ApartHeads(there, Field(k));
        LookupOne(a, Field(k));
        LookupOne(b, Field(k));
      }
    }
    assert a.fields == b.fields;
  }

  lemma SameItem(a: Json, b: Json, there: seq<Step>, i: nat)
    requires there != [] && there[0].Elem? && a.Arr? && b.Arr?
    requires there[0].index < |a.items| && there[0].index < |b.items|
    requires a.items[there[0].index] == b.items[there[0].index]
    requires forall other :: Apart(there, other) ==> Lookup(a, other) == Lookup(b, other)
    ensures i < |a.items| <==> i < |b.items|
    ensures i < |a.items| && i < |b.items| ==> a.items[i] == b.items[i]
  {
    if i != there[0].index {
      ApartHeads(there, Elem(i));
      LookupOne(a, Elem(i));
      LookupOne(b, Elem(i));
    }
  }

  lemma SameItems(a: Json, b: Json, there: seq<Step>)
    requires there != [] && there[0].Elem? && a.Arr? && b.Arr?
    requires there[0].index < |a.items| && there[0].index < |b.items|
    requires a.items[there[0].index] == b.items[there[0].index]
    requires forall other :: Apart(there, other) ==> Lookup(a, other) == Lookup(b, other)
    ensures a == b
  {
    SameItem(a, b, there, |a.items|);
    SameItem(a, b, there, |b.items|);
    forall i: nat | i < |a.items| ensures i < |b.items| && a.items[i] == b.items[i] {
      SameItem(a, b, there, i);
    }
    assert a.items == b.items;
  }

  lemma PutsOneWay(doc: Fields, segments: seq<Segment>, v: Json, d1: Fields, d2: Fields)
    requires segments != [] && Puts(doc, segments, v, d1) && Puts(doc, segments, v, d2)
    ensures d1 == d2
  {
    hide Lookup, LocationOf, Apart;
    var h1, p1 :| PutsAt(doc, segments, v, d1, h1, p1);
    var h2, p2 :| PutsAt(doc, segments, v, d2, h2, p2);
    assert h1 == h2 && p1 == p2;
    SameTree(Obj(d1), Obj(d2), LocationOf(Front(segments)) + p1);
  }

  lemma TakesOneWay(doc: Fields, segments: seq<Segment>, d1: Fields, d2: Fields)
    requires segments != [] && Takes(doc, segments, d1) && Takes(doc, segments, d2)
    ensures d1 == d2
  {
    var h1, r1 :| TakesFrom(doc, segments, d1, h1, r1);
    var h2, r2 :| TakesFrom(doc, segments, d2, h2, r2);
    hide Lookup, LocationOf, Apart, Without;
    var loc, key := LocationOf(Front(segments)), Last(segments).key;
    var there := loc + [Field(key)];
    SameRest(d1, d2, loc, key, r1, r2);
    forall other | Apart(loc, other)
      ensures Lookup(Obj(d1), other) == Lookup(Obj(d2), other)
    {
      ApartFurther(loc, [Field(key)], other);
      assert Apart(there, other);
    }
    SameTree(Obj(d1), Obj(d2), loc);
  }

  lemma ApartFurther(a: seq<Step>, b: seq<Step>, other: seq<Step>)
    requires Apart(a, other)
    ensures Apart(a + b, other)
  {
  }

  /** Two objects below one location that agree on a field agree, if the trees agree on all other fields. */
  lemma SameRest(d1: Fields, d2: Fields, loc: seq<Step>, key: string, r1: Fields, r2: Fields)
    requires Lookup(Obj(d1), loc) == Some(Obj(r1)) && Lookup(Obj(d2), loc) == Some(Obj(r2))
    requires Lookup(Obj(r1), [Field(key)]) == Lookup(Obj(r2), [Field(key)])
    requires forall other :: Apart(loc + [Field(key)], other) ==> Lookup(Obj(d1), other) == Lookup(Obj(d2), other)
    ensures r1 == r2
  {
    hide Lookup, Apart;
    forall k ensures (k in r1 <==> k in r2) && (k in r1 ==> r1[k] == r2[k]) {
      if k != key {
        Siblings(loc, key, k);
        LookupAppend(Obj(d1), loc, [Field(k)]);
        LookupAppend(Obj(d2), loc, [Field(k)]);
      }
      LookupOne(Obj(r1), Field(k));
      LookupOne(Obj(r2), Field(k));
    }
  }

  lemma Siblings(loc: seq<Step>, key: string, other: string)
    requires key != other
    ensures Apart(loc + [Field(key)], loc + [Field(other)])
  {
    var n := |loc|;
    assert (loc + [Field(key)])[n] != (loc + [Field(other)])[n];
  }

  // ---------------------------------------------------------------- one edit

  /** A walk arrives exactly at the object its location has, if no segment on the way is an append. */
  lemma {:induction false} WalkIff(doc: Fields, front: seq<Segment>, holder: Fields)
    ensures Walk(doc, front) == Done(holder)
       <==> NoAppend(front) && Lookup(Obj(doc), LocationOf(front)) == Some(Obj(holder))
    decreases |front|
  {
    if front == [] {
    } else {
      var seg, rest := front[0], front[1..];
      LookupAppend(Obj(doc), StepsOf(seg), LocationOf(rest));
      StepIff(doc, seg);
      AppendFirst(front);
      match Navigate(doc, seg)
      case Failed(_) => if !seg.isAppend { BelowNoObject(doc, seg, rest); }
      case Done(child) => WalkIff(child, rest, holder);
    }
  }

  lemma AppendFirst(front: seq<Segment>)
    requires front != []
    ensures NoAppend(front) <==> !front[0].isAppend && NoAppend(front[1..])
  {
  }

  lemma StepIff(doc: Fields, seg: Segment)
    ensures var found := Lookup(Obj(doc), StepsOf(seg));
            Navigate(doc, seg).Done? <==> !seg.isAppend && found.Some? && found.value.Obj?
    ensures Navigate(doc, seg).Done? ==> Lookup(Obj(doc), StepsOf(seg)) == Some(Obj(Navigate(doc, seg).value))
  {
    LookupField(doc, seg.key, []);
    LookupField(doc, seg.key, [Elem(seg.index)]);
    assert [Field(seg.key)] + [] == [Field(seg.key)];
    assert [Field(seg.key)] + [Elem(seg.index)] == [Field(seg.key), Elem(seg.index)];
    if seg.key in doc {
      LookupOne(doc[seg.key], Elem(seg.index));
    }
  }

  /** Below a field or an element that is no object no further segment finds one. */
  lemma BelowNoObject(doc: Fields, seg: Segment, rest: seq<Segment>)
    requires Navigate(doc, seg).Failed? && !seg.isAppend
    ensures var found := Lookup(Obj(doc), StepsOf(seg));
            found.Some? ==>
                !Lookup(found.value, LocationOf(rest)).Some? || !Lookup(found.value, LocationOf(rest)).value.Obj?
  {
    StepIff(doc, seg);
    if rest != [] {
      assert LocationOf(rest) == StepsOf(rest[0]) + LocationOf(rest[1..]);
      assert LocationOf(rest)[0] == Field(rest[0].key);
    }
  }

  /** Setting works exactly where it can be done, and does exactly that. */
  lemma SetIff(doc: Fields, segments: seq<Segment>, v: Json, doc': Fields)
    requires segments != []
    ensures Apply(doc, segments, Set(v)) == Done(doc') <==> Puts(doc, segments, v, doc')
  {
    hide Puts, Walk, SetAt, SetLocation, LocationOf, Lookup, Apart, WriteObject;
    if Apply(doc, segments, Set(v)).Done? {
      SetPuts(doc, segments, v);
    }
    if Puts(doc, segments, v, doc') {
      AimedIsSet(doc, segments, v, doc');
      SetPuts(doc, segments, v);
      PutsOneWay(doc, segments, v, doc', Apply(doc, segments, Set(v)).value);
    }
  }

  lemma SetPuts(doc: Fields, segments: seq<Segment>, v: Json)
    requires segments != [] && Apply(doc, segments, Set(v)).Done?
    ensures Puts(doc, segments, v, Apply(doc, segments, Set(v)).value)
  {
    hide Walk, LocationOf, Lookup, Apart, WriteObject;
    var doc' := Apply(doc, segments, Set(v)).value;
    SetChangesOnePlace(doc, segments, v);
    var front, last := Front(segments), Last(segments);
    var holder := Walk(doc, front).value;
    WalkIff(doc, front, holder);
    PlaceIsAimed(holder, last, v);
    assert PutsAt(doc, segments, v, doc', holder, [Field(last.key)] + PlaceOfSet(holder, last));
  }

  lemma PlaceIsAimed(holder: Fields, seg: Segment, v: Json)
    requires SetAt(holder, seg, v).Done?
    ensures Aims(holder, seg, [Field(seg.key)] + PlaceOfSet(holder, seg))
  {
    LookupOne(Obj(holder), Field(seg.key));
  }

  lemma AimedIsSet(doc: Fields, segments: seq<Segment>, v: Json, doc': Fields)
    requires segments != [] && Puts(doc, segments, v, doc')
    ensures Apply(doc, segments, Set(v)).Done?
  {
    hide Walk, LocationOf, Lookup, Apart, WriteObject;
    var holder, place :| PutsAt(doc, segments, v, doc', holder, place);
    WalkIff(doc, Front(segments), holder);
    LookupOne(Obj(holder), Field(Last(segments).key));
  }

  /** Removing works exactly where there is something to remove, and does exactly that. */
  lemma RemoveIff(doc: Fields, segments: seq<Segment>, doc': Fields)
    requires segments != []
    ensures Apply(doc, segments, Remove) == Done(doc') <==> Takes(doc, segments, doc')
  {
    hide Takes, Walk, RemoveAt, LocationOf, Lookup, Apart, WriteObject;
    if Apply(doc, segments, Remove).Done? {
      RemoveTakes(doc, segments);
    }
    if Takes(doc, segments, doc') {
      TakenIsRemoved(doc, segments, doc');
      RemoveTakes(doc, segments);
      TakesOneWay(doc, segments, doc', Apply(doc, segments, Remove).value);
    }
  }

  lemma RemoveTakes(doc: Fields, segments: seq<Segment>)
    requires segments != [] && Apply(doc, segments, Remove).Done?
    ensures Takes(doc, segments, Apply(doc, segments, Remove).value)
  {
    hide Walk, LocationOf, Lookup, Apart, WriteObject;
    var doc' := Apply(doc, segments, Remove).value;
    var front, last := Front(segments), Last(segments);
    var holder := Walk(doc, front).value;
    var rest := RemoveAt(holder, last).value;
    var loc := LocationOf(front);
    WalkIff(doc, front, holder);
    FieldEdit(doc, loc, holder, rest, last.key);
    LookupOne(Obj(holder), Field(last.key));
    LookupOne(Obj(rest), Field(last.key));
    LookupEdited(doc, loc, rest, loc);
    LookupNothing(Obj(rest), loc);
    assert TakesFrom(doc, segments, doc', holder, rest);
  }

  lemma LookupNothing(j: Json, loc: seq<Step>)
    ensures Lookup(j, loc[|loc|..]) == Some(j)
  {
  }

  lemma TakenIsRemoved(doc: Fields, segments: seq<Segment>, doc': Fields)
    requires segments != [] && Takes(doc, segments, doc')
    ensures Apply(doc, segments, Remove).Done?
  {
    hide Walk, LocationOf, Lookup, Apart, WriteObject;
    var holder, rest :| TakesFrom(doc, segments, doc', holder, rest);
    WalkIff(doc, Front(segments), holder);
    LookupOne(Obj(holder), Field(Last(segments).key));
  }

  // ---------------------------------------------------------------- why an edit fails

  /** No object lies below `holder` along `seg`, and the reason is `e`. */
  predicate Blocks(holder: Fields, seg: Segment, e: Error) {
    var field := Lookup(Obj(holder), [Field(seg.key)]);
    var isArr := field.Some? && field.value.Arr?;
    if seg.isAppend then e == AppendNotFinal
    else if seg.isArray then
      || (!isArr && e == NotAnArray)
      || (isArr && seg.index >= |field.value.items| && e == OutOfBounds)
      || (isArr && seg.index < |field.value.items| && !field.value.items[seg.index].Obj? && e == NotAnObject)
    else !(field.Some? && field.value.Obj?) && e == NotAnObject
  }

  /** The edit cannot be done in `holder`, and the reason is `e`. */
  predicate Forbids(holder: Fields, seg: Segment, edit: Edit, e: Error) {
    var field := Lookup(Obj(holder), [Field(seg.key)]);
    var isArr := field.Some? && field.value.Arr?;
    if seg.isAppend && edit.Remove? then e == CannotRemoveAppend
    else
      || ((seg.isAppend || seg.isArray) && !isArr && e == NotAnArray)
      || (!seg.isAppend && seg.isArray && isArr && seg.index >= |field.value.items| && e == OutOfBounds)
  }

  /** An edit fails at the first segment that cannot be followed or edited, for the reason found there. */
  ghost predicate Stops(doc: Fields, segments: seq<Segment>, edit: Edit, e: Error, n: nat, holder: Fields)
    requires n < |segments|
  {
    && Holds(doc, segments[..n + 1], holder)
    && if n + 1 < |segments| then Blocks(holder, segments[n], e) else Forbids(holder, segments[n], edit, e)
  }

  lemma WhyEditFails(doc: Fields, segments: seq<Segment>, edit: Edit, e: Error)
    requires segments != []
    ensures Apply(doc, segments, edit) == Failed(e)
       <==> exists n: nat, holder :: n < |segments| && Stops(doc, segments, edit, e, n, holder)
  {
    hide Walk, Final, LocationOf, Lookup, Blocks, Forbids, Navigate, Holds;
    if Apply(doc, segments, edit) == Failed(e) {
      var front, last := Front(segments), Last(segments);
      assert segments[..|segments|] == segments;
      if Walk(doc, front).Failed? {
        var n, holder := WalkStops(doc, front, e);
        assert front[..n] == segments[..n] && front[n] == segments[n];
        HolderAt(doc, segments, n, holder);
        NavigateFails(holder, segments[n], e);
        assert Stops(doc, segments, edit, e, n, holder);
      } else {
        var holder := Walk(doc, front).value;
        HolderAt(doc, segments, |front|, holder);
        FinalFails(holder, last, edit, e);
        assert Stops(doc, segments, edit, e, |front|, holder);
      }
    }
    if n: nat, holder :| n < |segments| && Stops(doc, segments, edit, e, n, holder) {
      HolderAt(doc, segments, n, holder);
      if n + 1 < |segments| {
        NavigateFails(holder, segments[n], e);
        assert Front(segments)[..n] == segments[..n] && Front(segments)[n] == segments[n];
        WalkFails(doc, Front(segments), n, e);
      } else {
        FinalFails(holder, segments[n], edit, e);
      }
    }
  }

  lemma HolderAt(doc: Fields, segments: seq<Segment>, n: nat, holder: Fields)
    requires n < |segments|
    ensures Holds(doc, segments[..n + 1], holder) <==> Walk(doc, segments[..n]) == Done(holder)
  {
    assert Front(segments[..n + 1]) == segments[..n];
    WalkIff(doc, segments[..n], holder);
  }

  lemma NavigateFails(holder: Fields, seg: Segment, e: Error)
    ensures Navigate(holder, seg) == Failed(e) <==> Blocks(holder, seg, e)
  {
    LookupOne(Obj(holder), Field(seg.key));
  }

  lemma FinalFails(holder: Fields, seg: Segment, edit: Edit, e: Error)
    ensures Final(holder, seg, edit) == Failed(e) <==> Forbids(holder, seg, edit, e)
  {
    LookupOne(Obj(holder), Field(seg.key));
  }

  lemma {:induction false} WalkOn(doc: Fields, a: seq<Segment>, b: seq<Segment>)
    ensures Walk(doc, a + b) == match Walk(doc, a) case Failed(e) => Failed(e) case Done(d) => Walk(d, b)
    decreases |a|
  {
    hide Navigate;
    if a == [] {
      assert a + b == b;
    } else {
      assert (a + b)[0] == a[0] && (a + b)[1..] == a[1..] + b;
      match Navigate(doc, a[0])
      case Failed(_) =>
      case Done(child) => WalkOn(child, a[1..], b);
    }
  }

  lemma {:induction false} WalkStops(doc: Fields, front: seq<Segment>, e: Error) returns (n: nat, holder: Fields)
    requires Walk(doc, front) == Failed(e)
    ensures n < |front| && Walk(doc, front[..n]) == Done(holder) && Navigate(holder, front[n]) == Failed(e)
    decreases |front|
  {
    hide Navigate;
    match Navigate(doc, front[0])
    case Failed(_) =>
      n, holder := 0, doc;
    case Done(child) =>
      n, holder := WalkStops(child, front[1..], e);
      assert front[..n + 1][0] == front[0] && front[..n + 1][1..] == front[1..][..n];
      n := n + 1;
  }

  lemma WalkFails(doc: Fields, front: seq<Segment>, n: nat, e: Error)
    requires n < |front| && Walk(doc, front[..n]).Done?
    requires Navigate(Walk(doc, front[..n]).value, front[n]) == Failed(e)
    ensures Walk(doc, front) == Failed(e)
  {
    hide Navigate;
    assert front == front[..n] + front[n..];
    WalkOn(doc, front[..n], front[n..]);
  }

  // ---------------------------------------------------------------- operations and batches

  /** `doc'` is what `op` asks for. */
  ghost predicate Performs(op: Operation<Json>, doc: Fields, doc': Fields) {
    && Resolve(op.path).Done?
    && var segments := Resolve(op.path).value;
       || (op.op in {"add", "replace"} && Puts(doc, segments, op.value, doc'))
       || (op.op == "remove" && Takes(doc, segments, doc'))
  }

  /** The dashboards before, between and after operations that each do what they ask for. */
  ghost predicate Performed(ops: seq<Operation<Json>>, docs: seq<Fields>) {
    |docs| == |ops| + 1 && forall i :: 0 <= i < |ops| ==> Performs(ops[i], docs[i], docs[i + 1])
  }

  /** One operation has the outcome it asks for, and fails exactly when there is none. */
  lemma OperationMeans(doc: Fields, op: Operation<Json>, doc': Fields)
    ensures ApplyBatch(doc, [op]) == Patched(doc') <==> Performs(op, doc, doc')
  {
    hide Resolve, Apply, Puts, Takes;
    assert [op][1..] == [];
    match Resolve(op.path)
    case Failed(_) =>
    case Done(segments) =>
      SetIff(doc, segments, op.value, doc');
      RemoveIff(doc, segments, doc');
  }

  /** A batch in two parts is the first part and then the second. */
  lemma {:induction false} BatchInParts(doc: Fields, a: seq<Operation<Json>>, b: seq<Operation<Json>>)
    ensures ApplyBatch(doc, a + b)
        == match ApplyBatch(doc, a) case Patched(d) => ApplyBatch(d, b) case failure => failure
    decreases |a|
  {
    hide ApplyPath;
    if a == [] {
      assert a + b == b;
    } else {
      assert (a + b)[0] == a[0] && (a + b)[1..] == a[1..] + b;
      match ApplyPath(doc, a[0].path, if a[0].op == "remove" then Remove else Set(a[0].value))
      case Failed(_) =>
      case Done(d) => BatchInParts(d, a[1..], b);
    }
  }

  /** A batch ends in a dashboard exactly if a chain of performed operations leads there. */
  lemma {:induction false} BatchMeans(doc: Fields, ops: seq<Operation<Json>>, doc': Fields)
    ensures ApplyBatch(doc, ops) == Patched(doc')
       <==> exists docs :: Performed(ops, docs) && docs[0] == doc && docs[|ops|] == doc'
    decreases |ops|
  {
    hide Performs;
    if ops == [] {
      assert Performed(ops, [doc]);
    } else {
      var n := |ops| - 1;
      var front, op := ops[..n], ops[n];
      assert ops == front + [op];
      BatchInParts(doc, front, [op]);
      if ApplyBatch(doc, ops) == Patched(doc') {
        var mid := ApplyBatch(doc, front).doc;
        BatchMeans(doc, front, mid);
        OperationMeans(mid, op, doc');
        var docs :| Performed(front, docs) && docs[0] == doc && docs[n] == mid;
        PerformedMore(front, docs, op, doc');
        assert (docs + [doc'])[0] == doc;
      }
      if docs :| Performed(ops, docs) && docs[0] == doc && docs[|ops|] == doc' {
        PerformedLess(ops, docs);
        BatchMeans(doc, front, docs[n]);
        OperationMeans(docs[n], op, doc');
      }
    }
  }

  lemma PerformedMore(ops: seq<Operation<Json>>, docs: seq<Fields>, op: Operation<Json>, doc': Fields)
    requires Performed(ops, docs) && Performs(op, docs[|ops|], doc')
    ensures Performed(ops + [op], docs + [doc']) && (docs + [doc'])[|ops| + 1] == doc'
  {
    hide Performs;
  }

  lemma PerformedLess(ops: seq<Operation<Json>>, docs: seq<Fields>)
    requires Performed(ops, docs) && ops != []
    ensures Performed(ops[..|ops| - 1], docs[..|ops|])
    ensures docs[..|ops|][0] == docs[0] && docs[..|ops|][|ops| - 1] == docs[|ops| - 1]
    ensures Performs(ops[|ops| - 1], docs[|ops| - 1], docs[|ops|])
  {
    hide Performs;
    var front := ops[..|ops| - 1];
    forall i | 0 <= i < |front| ensures Performs(front[i], docs[i], docs[i + 1]) {
      assert front[i] == ops[i];
    }
  }

  /** What an operation does to its target. */
  function EditOf(op: Operation<Json>): Edit {
    if op.op == "remove" then Remove else Set(op.value)
  }

  /** `op` cannot be performed, and this is the report of it. */
  ghost predicate Fails(op: Operation<Json>, doc: Fields, failure: BatchResult) {
    if op.op !in {"add", "replace", "remove"} then failure == UnsupportedOperation
    else match Resolve(op.path)
      case Failed(e) => failure == OperationFailed(e)
      case Done(segments) =>
        && failure.OperationFailed?
        && exists n: nat, holder :: n < |segments| && Stops(doc, segments, EditOf(op), failure.error, n, holder)
  }

  lemma OperationFails(doc: Fields, op: Operation<Json>, failure: BatchResult)
    requires !failure.Patched?
    ensures ApplyBatch(doc, [op]) == failure <==> Fails(op, doc, failure)
  {
    hide Resolve, Apply, Stops;
    assert [op][1..] == [];
    match Resolve(op.path)
    case Failed(_) =>
    case Done(segments) =>
      if failure.OperationFailed? {
        WhyEditFails(doc, segments, EditOf(op), failure.error);
      }
  }

  // ---------------------------------------------------------------- path texts

  predicate OccursAt(s: string, mark: string, i: nat) {
    i + |mark| <= |s| && s[i..i + |mark|] == mark
  }

  predicate Occurs(s: string, mark: string) {
    exists i: nat :: i <= |s| && OccursAt(s, mark, i)
  }

  lemma {:induction false} ContainsIff(s: string, mark: string)
    requires mark != ""
    ensures Contains(s, mark) <==> Occurs(s, mark)
  {
    if mark <= s {
      assert OccursAt(s, mark, 0);
    } else if s != "" {
      ContainsIff(s[1..], mark);
      OccursLater(s, mark);
    }
  }

  lemma OccursLater(s: string, mark: string)
    requires mark != "" && !(mark <= s) && s != ""
    ensures Occurs(s, mark) <==> Occurs(s[1..], mark)
  {
    if i: nat :| i <= |s[1..]| && OccursAt(s[1..], mark, i) {
      assert s[1..][i..i + |mark|] == s[i + 1..i + 1 + |mark|];
      assert OccursAt(s, mark, i + 1);
    } else if i: nat :| i <= |s| && OccursAt(s, mark, i) {
      assert i > 0;
      assert s[1..][i - 1..i - 1 + |mark|] == s[i..i + |mark|];
      assert OccursAt(s[1..], mark, i - 1);
    }
  }

  predicate Shares(a: string, b: string) {
    exists c :: c in a && c in b
  }

  lemma NotInside(s: string, mark: string, c: char)
    requires !Shares(s, mark) && c in mark
    ensures c !in s
  {
  }

  lemma OccursFurther(before: string, s: string, after: string, mark: string)
    requires Occurs(s, mark)
    ensures Occurs(before + s + after, mark)
  {
    var i: nat :| i <= |s| && OccursAt(s, mark, i);
    var whole := before + s + after;
    assert whole[|before| + i..|before| + i + |mark|] == s[i..i + |mark|];
    assert OccursAt(whole, mark, |before| + i);
  }

  /** Text around that has no character of the mark hides no occurrence and makes none. */
  lemma OccursInside(before: string, s: string, after: string, mark: string)
    requires mark != "" && !Shares(before, mark) && !Shares(after, mark)
    ensures Occurs(before + s + after, mark) <==> Occurs(s, mark)
  {
    var whole := before + s + after;
    if Occurs(s, mark) {
      OccursFurther(before, s, after, mark);
    } else if i: nat :| i <= |whole| && OccursAt(whole, mark, i) {
      var e := i + |mark|;
      assert whole[i] == mark[0] && whole[e - 1] == mark[|mark| - 1];
      NotInside(before, mark, whole[i]);
      NotInside(after, mark, whole[e - 1]);
      assert i >= |before| && e <= |before| + |s|;
      assert s[i - |before|..e - |before|] == whole[i..e];
      assert OccursAt(s, mark, i - |before|);
    }
  }

  /** No white space at either end. */
  predicate Bare(s: string) {
    s != "" ==> !IsSpace(s[0]) && !IsSpace(s[|s| - 1])
  }

  /** Trimming gives the one part without white space at its ends that has only white space around it. */
  lemma {:induction false} TrimOf(before: string, s: string, after: string)
    requires AllSpace(before) && AllSpace(after) && Bare(s)
    ensures Trim(before + s + after) == s
    decreases |before| + |after|
  {
    hide IsSpace;
    var whole := before + s + after;
    if before != "" {
      assert whole[0] == before[0] && whole[1..] == before[1..] + s + after;
      TrimOf(before[1..], s, after);
    } else if s != "" && after != "" {
      assert whole[0] == s[0] && whole[|whole| - 1] == after[|after| - 1];
      assert whole[..|whole| - 1] == before + s + after[..|after| - 1];
      TrimOf(before, s, after[..|after| - 1]);
    } else if after != "" {
      assert whole[0] == after[0] && whole[1..] == before + s + after[1..];
      TrimOf(before, s, after[1..]);
    } else {
      assert whole == s;
    }
  }

  lemma {:induction false} TrimIsBare(s: string)
    ensures Bare(Trim(s))
    decreases |s|
  {
    hide IsSpace;
    if s != "" && IsSpace(s[0]) {
      TrimIsBare(s[1..]);
    } else if s != "" && IsSpace(s[|s| - 1]) {
      TrimIsBare(s[..|s| - 1]);
    }
  }

  /** The text between white space and after a leading "$." that has something behind it. */
  lemma PathParts(path: string) returns (before: string, root: string, after: string)
    ensures path == (before + root) + StripRoot(Trim(path)) + after
    ensures AllSpace(before) && AllSpace(after) && (root == "" || root == "$.")
  {
    hide Trim, IsSpace;
    before, after := TrimParts(path);
    root := StripIsSuffix(Trim(path));
    assert root == "" || root == "$." by {
      RootIs(Trim(path), root);
    }
    assert before + (root + StripRoot(Trim(path))) == (before + root) + StripRoot(Trim(path));
  }

  lemma RootIs(s: string, root: string)
    requires s == root + StripRoot(s)
    ensures root == "" || root == "$."
  {
    assert |root| == |s| - |StripRoot(s)|;
    assert root == s[..|root|];
  }

  /** Characters that neither white space nor a leading "$." has. */
  predicate Unlike(mark: string) {
    mark != "" && forall c :: c in mark ==> !IsSpace(c) && c != '$' && c != '.'
  }

  lemma PathOccurs(path: string, mark: string)
    requires Unlike(mark)
    ensures Contains(StripRoot(Trim(path)), mark) <==> Occurs(path, mark)
  {
    hide Trim, StripRoot, IsSpace, Contains, Occurs;
    var before, root, after := PathParts(path);
    var p := StripRoot(Trim(path));
    assert forall c :: c in before || c in after ==> IsSpace(c);
    ContainsIff(p, mark);
    OccursInside(before + root, p, after, mark);
  }

  predicate AllSeparators(s: string) {
    forall i :: 0 <= i < |s| ==> IsSeparator(s[i])
  }

  lemma {:induction false} NothingIff(s: string)
    ensures Parse(s) == [] <==> AllSeparators(s)
    decreases |s|
  {
    if s != "" && IsSeparator(s[0]) {
      NothingIff(s[1..]);
      assert s == [s[0]] + s[1..];
    }
  }

  /**
   Which paths are refused, and how: those with a filter, those with a wildcard, and those with nothing but
   separators after the root.
   */
  lemma PathsRefused(path: string)
    ensures Resolve(path) == Failed(UnsupportedFilter) <==> Occurs(path, "?(")
    ensures Resolve(path) == Failed(UnsupportedWildcard) <==> !Occurs(path, "?(") && Occurs(path, "[*]")
    ensures Resolve(path) == Failed(EmptyPath)
       <==> !Occurs(path, "?(") && !Occurs(path, "[*]") && AllSeparators(StripRoot(Trim(path)))
  {
    hide Trim, StripRoot, Contains, Parse;
    var p := StripRoot(Trim(path));
    PathOccurs(path, "?(");
    PathOccurs(path, "[*]");
    NothingIff(p);
    FilterIsFilter(p);
  }

  lemma {:induction false} FilterIsFilter(p: string)
    ensures Contains(p, "?(@") ==> Contains(p, "?(")
  {
    if "?(@" <= p {
      assert p[..2] == "?(";
    } else if p != "" {
      FilterIsFilter(p[1..]);
    }
  }

  /** A segment that prints without loss and can be told from a filter, a wildcard and white space. */
  predicate Plain(seg: Segment) {
    Printable(seg) && forall c :: c in seg.key ==> c != '?' && c != '*' && !IsSpace(c)
  }

  lemma {:induction false} JoinChars(segments: seq<Segment>, c: char)
    requires (forall seg :: seg in segments ==> Plain(seg)) && c in Join(segments)
    ensures c != '?' && c != '*' && !IsSpace(c)
  {
    hide IsSpace;
    var first := segments[0];
    NumeralChars(first.index);
    if |segments| > 1 && c in Join(segments[1..]) {
      JoinChars(segments[1..], c);
    } else {
      assert Plain(first);
      assert c in ToString(first) || c == '.';
      PunctuationChars();
    }
  }

  lemma NumeralChars(n: nat)
    ensures forall c :: c in Show(n) ==> c != '?' && c != '*' && !IsSpace(c)
  {
  }

  lemma PunctuationChars()
    ensures forall c :: c in "./-[]" ==> !IsSpace(c)
  {
  }

  /** Plain segments, printed behind the root with white space around, are the segments of the path. */
  lemma PathReads(segments: seq<Segment>, before: string, after: string)
    requires segments != [] && (forall seg :: seg in segments ==> Plain(seg)) && AllSpace(before) && AllSpace(after)
    ensures Resolve(before + ("$." + Join(segments)) + after) == Done(segments)
  {
    hide Trim, StripRoot, Contains, Parse, IsSpace, Join;
    var q := Join(segments);
    ParseJoin(segments);
    ParseOfNothing();
    assert q != "";
    forall c | c in q ensures c != '?' && c != '*' && !IsSpace(c) {
      JoinChars(segments, c);
    }
    assert q[|q| - 1] in q;
    TextResolves(q);
    RootIsNoSpace();
    TrimOf(before, "$." + q, after);
    TrimOf("", "$." + q, "");
    assert "" + ("$." + q) + "" == "$." + q;
  }

  lemma ParseOfNothing()
    ensures Parse("") == []
  {
  }

  lemma RootIsNoSpace()
    ensures !IsSpace('$')
  {
  }

  /** "$." with nothing behind it is the field "$". */
  lemma BareRoot()
    ensures Resolve("$.") == Done([Segment("$", 0, false, false)])
  {
    hide *;
    var seg := Segment("$", 0, false, false);
    BareText(seg);
    TrimOf("", "$.", "");
    NoFilter("$.");
    ParsePrinted(seg, ".");
    NothingIff(".");
    assert Parse("$.") == [seg];
    ResolvesAsItIs("$.");
  }

  lemma BareText(seg: Segment)
    requires seg == Segment("$", 0, false, false)
    ensures Printable(seg) && Ends(".") && ToString(seg) + "." == "$." && Bare("$.") && AllSpace("")
    ensures "" + "$." + "" == "$." && AllSeparators(".")
    ensures '?' !in "$." && '*' !in "$." && StripRoot("$.") == "$."
  {
  }

  lemma ResolvesAsItIs(text: string)
    requires Trim(text) == text && StripRoot(text) == text && Parse(text) != []
    requires !Contains(text, "?(@") && !Contains(text, "?(") && !Contains(text, "[*]")
    ensures Resolve(text) == Done(Parse(text))
  {
  }

  // ---------------------------------------------------------------- reordered batches

  /** A batch of one operation stays as it is. */
  lemma OneStays(ops: seq<Operation<Json>>)
    requires |ops| == 1
    ensures !HasDuplicate(Removals(ops))
    ensures forall reordered :: IsReordering(ops, reordered) ==> reordered == ops
  {
    hide RemovalOf;
    assert Ordered(Removals(ops), [0]);
    DuplicatesCannotDescend(Removals(ops), [0]);
    forall reordered | IsReordering(ops, reordered) ensures reordered == ops {
      var pi :| Ordered(Removals(ops), pi) && reordered == Arrange(ops, pi);
      assert pi[0] == 0;
      assert reordered[0] == ops[0];
    }
  }

  /** The array a removal is taken for, printed: the segments on the way and the key at their end. */
  lemma ArrayPathPrints(segments: seq<Segment>)
    requires RemovalAt(segments).Removal? && NoAppend(Front(segments))
    ensures RemovalAt(segments).arrayPath == Join(Front(segments) + [Segment(Last(segments).key, 0, false, false)])
    ensures RemovalAt(segments).index == Last(segments).index
  {
    var front, n := Front(segments), |segments| - 1;
    PathPrints(segments, n);
    assert segments[..n] == front;
    JoinMore(front, Segment(Last(segments).key, 0, false, false));
  }

  lemma {:induction false} PathPrints(segments: seq<Segment>, n: nat)
    requires n < |segments| && NoAppend(Front(segments))
    ensures ArrayPathTo(segments, n) == Join(segments[..n])
  {
    hide PathPiece, Join, ToString;
    if n == 0 {
      JoinNothing();
    } else {
      PathPrints(segments, n - 1);
      assert segments[..n] == segments[..n - 1] + [segments[n - 1]];
      JoinMore(segments[..n - 1], segments[n - 1]);
      PiecePrints(segments, n - 1);
    }
  }

  lemma JoinNothing()
    ensures Join([]) == ""
  {
  }

  lemma PiecePrints(segments: seq<Segment>, j: nat)
    requires j + 1 < |segments| && NoAppend(Front(segments))
    ensures PathPiece(segments, j) == (if j == 0 then "" else ".") + ToString(segments[j])
  {
    assert !Front(segments)[j].isAppend;
  }

  lemma {:induction false} JoinMore(segments: seq<Segment>, seg: Segment)
    ensures Join(segments + [seg]) == Join(segments) + ((if segments == [] then "" else ".") + ToString(seg))
  {
    if segments == [] {
      assert segments + [seg] == [seg];
    } else {
      var rest := segments[1..];
      assert (segments + [seg])[1..] == rest + [seg];
      JoinMore(rest, seg);
      if rest == [] {
        assert segments == [segments[0]];
      }
    }
  }

  /** Two removals are taken for removals from one array exactly when their paths differ in the last index at most. */
  lemma SameArrayIff(a: seq<Segment>, b: seq<Segment>)
    requires RemovalAt(a).Removal? && RemovalAt(b).Removal?
    requires (forall seg :: seg in a ==> Printable(seg)) && (forall seg :: seg in b ==> Printable(seg))
    requires NoAppend(Front(a)) && NoAppend(Front(b))
    ensures SameArray(RemovalAt(a), RemovalAt(b)) <==> Front(a) == Front(b) && Last(a).key == Last(b).key
  {
    hide ArrayPathTo, Join, Parse;
    var p := Front(a) + [Segment(Last(a).key, 0, false, false)];
    var q := Front(b) + [Segment(Last(b).key, 0, false, false)];
    ArrayPathPrints(a);
    ArrayPathPrints(b);
    assert Last(a) in a && Last(b) in b;
    ParseJoin(p);
    ParseJoin(q);
    assert Front(p) == Front(a) && Front(q) == Front(b);
  }

  // ---------------------------------------------------------------- fields of the dashboard itself

  lemma FieldReads(seg: Segment)
    requires Plain(seg)
    ensures Resolve("$." + ToString(seg)) == Done([seg])
  {
    hide Resolve, ToString, Plain, Join, IsSpace;
    PathReads([seg], "", "");
    JoinOne(seg);
    assert "" + ("$." + ToString(seg)) + "" == "$." + ToString(seg);
  }

  lemma JoinOne(seg: Segment)
    ensures Join([seg]) == ToString(seg)
  {
  }

  /** "add" and "replace" at "$.key" set the field to the value of the operation, whether it was there or not. */
  lemma FieldSet(op: Operation<Json>, key: string, doc: Fields, doc': Fields)
    requires Plain(Segment(key, 0, false, false)) && op.path == "$." + key && op.op in {"add", "replace"}
    ensures Performs(op, doc, doc') <==> doc' == doc[key := op.value]
  {
    hide Resolve, Puts, Takes, Plain;
    FieldReads(Segment(key, 0, false, false));
    SetIff(doc, [Segment(key, 0, false, false)], op.value, doc');
  }

  /** "add" and "replace" at "$.key/-" append to the array that must be there. */
  lemma FieldAppended(op: Operation<Json>, key: string, doc: Fields, doc': Fields)
    requires Plain(Segment(key, 0, false, true)) && op.path == "$." + (key + "/-") && op.op in {"add", "replace"}
    ensures Performs(op, doc, doc')
       <==> key in doc && doc[key].Arr? && doc' == doc[key := Arr(doc[key].items + [op.value])]
  {
    hide Resolve, Puts, Takes, Plain;
    FieldReads(Segment(key, 0, false, true));
    SetIff(doc, [Segment(key, 0, false, true)], op.value, doc');
  }

  /** "remove" at "$.key" takes the field away; taking away what is not there is no error. */
  lemma FieldRemoved(op: Operation<Json>, key: string, doc: Fields, doc': Fields)
    requires Plain(Segment(key, 0, false, false)) && op.path == "$." + key && op.op == "remove"
    ensures Performs(op, doc, doc') <==> doc' == doc - {key}
  {
    hide Resolve, Puts, Takes, Plain;
    FieldReads(Segment(key, 0, false, false));
    RemoveIff(doc, [Segment(key, 0, false, false)], doc');
  }
}
