/**
 What one patch operation does to a dashboard, and what a whole batch does (dashboard.go).

 A dashboard is a JSON tree.  An edit walks from the root to the object that holds the target and
 changes one field of it; `Write` says what that means for the whole tree.
 */
module PatchApply {
  import opened Common
  import opened Decimal
  import opened JsonPath
  import opened PatchOrder

  datatype Json = Scalar(text: string) | Arr(items: seq<Json>) | Obj(fields: Fields)
  type Fields = map<string, Json>

  datatype Error =
    | UnsupportedFilter | UnsupportedWildcard | EmptyPath
    | NotAnArray | OutOfBounds | NotAnObject
    | AppendNotFinal | CannotRemoveAppend

  datatype Result<+T> = Done(value: T) | Failed(error: Error)

  datatype Edit = Set(value: Json) | Remove

  // ---------------------------------------------------------------- one step of the walk

  /** The array a segment refers to (`validateArrayAccess`). */
  function ArrayAt(current: Fields, seg: Segment): Result<seq<Json>> {
    if seg.key !in current || !current[seg.key].Arr? then Failed(NotAnArray)
    else if !seg.isAppend && seg.index >= |current[seg.key].items| then Failed(OutOfBounds)
    else Done(current[seg.key].items)
  }

  /** The object one level down (`navigateSegment`). */
  function Navigate(current: Fields, seg: Segment): Result<Fields> {
    if seg.isAppend then Failed(AppendNotFinal)
    else if seg.isArray then
      match ArrayAt(current, seg)
      case Failed(e) => Failed(e)
      case Done(items) => if items[seg.index].Obj? then Done(items[seg.index].fields) else Failed(NotAnObject)
    else if seg.key in current && current[seg.key].Obj? then Done(current[seg.key].fields)
    else Failed(NotAnObject)
  }

  function SetAt(current: Fields, seg: Segment, value: Json): Result<Fields> {
    if seg.isAppend then
      match ArrayAt(current, seg)
      case Failed(e) => Failed(e)
      case Done(items) => Done(current[seg.key := Arr(items + [value])])
    else if seg.isArray then
      match ArrayAt(current, seg)
      case Failed(e) => Failed(e)
      case Done(items) => Done(current[seg.key := Arr(items[seg.index := value])])
    else Done(current[seg.key := value])
  }

  function Delete<T>(items: seq<T>, i: nat): seq<T>
    requires i < |items|
  {
    items[..i] + items[i + 1..]
  }

  function RemoveAt(current: Fields, seg: Segment): Result<Fields> {
    if seg.isAppend then Failed(CannotRemoveAppend)
    else if seg.isArray then
      match ArrayAt(current, seg)
      case Failed(e) => Failed(e)
      case Done(items) => Done(current[seg.key := Arr(Delete(items, seg.index))])
    else Done(current - {seg.key})
  }

  function Final(current: Fields, seg: Segment, edit: Edit): Result<Fields> {
    match edit
    case Set(v) => SetAt(current, seg, v)
    case Remove => RemoveAt(current, seg)
  }

  // ---------------------------------------------------------------- locations

  datatype Step = Field(key: string) | Elem(index: nat)

  /** The part of a tree at a location, if there is one. */
  function Lookup(j: Json, loc: seq<Step>): Option<Json> {
    if loc == [] then Some(j)
    else match loc[0]
      case Field(k) => if j.Obj? && k in j.fields then Lookup(j.fields[k], loc[1..]) else None
      case Elem(i) => if j.Arr? && i < |j.items| then Lookup(j.items[i], loc[1..]) else None
  }

  /** The tree with the part at an existing location replaced. */
  function Write(j: Json, loc: seq<Step>, v: Json): (r: Json)
    requires Lookup(j, loc).Some?
    ensures loc != [] ==> r.Obj? == j.Obj?
  {
    if loc == [] then v
    else match loc[0]
      case Field(k) => Obj(j.fields[k := Write(j.fields[k], loc[1..], v)])
      case Elem(i) => Arr(j.items[i := Write(j.items[i], loc[1..], v)])
  }

  function StepsOf(seg: Segment): seq<Step> {
    if seg.isArray then [Field(seg.key), Elem(seg.index)] else [Field(seg.key)]
  }

  function LocationOf(segments: seq<Segment>): seq<Step> {
    if segments == [] then [] else StepsOf(segments[0]) + LocationOf(segments[1..])
  }

  /** The object reached by navigating along all of `segments`. */
  function Walk(doc: Fields, segments: seq<Segment>): Result<Fields>
    decreases |segments|
  {
    if segments == [] then Done(doc)
    else match Navigate(doc, segments[0])
      case Failed(e) => Failed(e)
      case Done(child) => Walk(child, segments[1..])
  }

  lemma {:induction false} WalkLooksUp(doc: Fields, segments: seq<Segment>)
    requires Walk(doc, segments).Done?
    ensures Lookup(Obj(doc), LocationOf(segments)) == Some(Obj(Walk(doc, segments).value))
    decreases |segments|
  {
    if segments != [] {
      var seg := segments[0];
      var child := Navigate(doc, seg).value;
      WalkLooksUp(child, segments[1..]);
      LookupAppend(Obj(doc), StepsOf(seg), LocationOf(segments[1..]));
      StepLooksUp(doc, seg);
    }
  }

  lemma StepLooksUp(doc: Fields, seg: Segment)
    requires Navigate(doc, seg).Done?
    ensures Lookup(Obj(doc), StepsOf(seg)) == Some(Obj(Navigate(doc, seg).value))
  {
    var j := doc[seg.key];
    if seg.isArray {
      assert StepsOf(seg)[1..] == [Elem(seg.index)];
      assert [Elem(seg.index)][1..] == [];
      assert Lookup(j, [Elem(seg.index)]) == Some(j.items[seg.index]);
    } else {
      assert StepsOf(seg)[1..] == [];
    }
  }

  lemma {:induction false} LookupAppend(j: Json, a: seq<Step>, b: seq<Step>)
    ensures Lookup(j, a + b) == match Lookup(j, a) { case None => None case Some(u) => Lookup(u, b) }
  {
    if a == [] {
      assert a + b == b;
    } else {
      assert (a + b)[0] == a[0] && (a + b)[1..] == a[1..] + b;
      match a[0]
      case Field(k) => if j.Obj? && k in j.fields { LookupAppend(j.fields[k], a[1..], b); }
      case Elem(i) => if j.Arr? && i < |j.items| { LookupAppend(j.items[i], a[1..], b); }
    }
  }

  // ---------------------------------------------------------------- laws of locations

  lemma {:induction false} LookupWritten(j: Json, loc: seq<Step>, v: Json, below: seq<Step>)
    requires Lookup(j, loc).Some?
    ensures Lookup(Write(j, loc, v), loc + below) == Lookup(v, below)
  {
    if loc == [] {
      assert loc + below == below;
    } else {
      assert (loc + below)[0] == loc[0] && (loc + below)[1..] == loc[1..] + below;
      match loc[0]
      case Field(k) => LookupWritten(j.fields[k], loc[1..], v, below);
      case Elem(i) => LookupWritten(j.items[i], loc[1..], v, below);
    }
  }

  /** Neither location contains the other. */
  predicate Apart(a: seq<Step>, b: seq<Step>) {
    !(a <= b) && !(b <= a)
  }

  lemma ApartTails(a: seq<Step>, b: seq<Step>)
    requires Apart(a, b) && a[0] == b[0]
    ensures Apart(a[1..], b[1..])
  {
    assert a == [a[0]] + a[1..] && b == [b[0]] + b[1..];
  }

  lemma {:induction false} LookupElsewhere(j: Json, loc: seq<Step>, v: Json, other: seq<Step>)
    requires Lookup(j, loc).Some? && Apart(loc, other)
    ensures Lookup(Write(j, loc, v), other) == Lookup(j, other)
  {
    if loc[0] == other[0] {
      ApartTails(loc, other);
      match loc[0]
      case Field(k) => LookupElsewhere(j.fields[k], loc[1..], v, other[1..]);
      case Elem(i) => LookupElsewhere(j.items[i], loc[1..], v, other[1..]);
    }
  }

  lemma {:induction false} WriteTwice(j: Json, loc: seq<Step>, v: Json, w: Json)
    requires Lookup(j, loc).Some?
    ensures Lookup(Write(j, loc, v), loc).Some?
    ensures Write(Write(j, loc, v), loc, w) == Write(j, loc, w)
  {
    LookupWritten(j, loc, v, []);
    assert loc + [] == loc;
    if loc != [] {
      match loc[0]
      case Field(k) => WriteTwice(j.fields[k], loc[1..], v, w);
      case Elem(i) => WriteTwice(j.items[i], loc[1..], v, w);
    }
  }

  lemma {:induction false} WriteSame(j: Json, loc: seq<Step>)
    requires Lookup(j, loc).Some?
    ensures Write(j, loc, Lookup(j, loc).value) == j
  {
    if loc != [] {
      match loc[0]
      case Field(k) => WriteSame(j.fields[k], loc[1..]);
      case Elem(i) => WriteSame(j.items[i], loc[1..]);
    }
  }

  // ---------------------------------------------------------------- one operation

  /** The object that holds the target of an edit, with the edit done there. */
  function Edited(doc: Fields, segments: seq<Segment>, edit: Edit): Result<Fields>
    requires segments != []
  {
    match Walk(doc, segments[..|segments| - 1])
    case Failed(e) => Failed(e)
    case Done(parent) => Final(parent, segments[|segments| - 1], edit)
  }

  /** The dashboard after an edit. */
  function Apply(doc: Fields, segments: seq<Segment>, edit: Edit): Result<Fields>
    requires segments != []
  {
    match Edited(doc, segments, edit)
    case Failed(e) => Failed(e)
    case Done(parent) =>
      var front := segments[..|segments| - 1];
      WalkLooksUp(doc, front);
      Done(WriteObject(doc, LocationOf(front), parent))
  }

  function WriteObject(doc: Fields, loc: seq<Step>, parent: Fields): Fields
    requires Lookup(Obj(doc), loc).Some?
  {
    Write(Obj(doc), loc, Obj(parent)).fields
  }

  lemma WriteObjectIs(doc: Fields, loc: seq<Step>, parent: Fields)
    requires Lookup(Obj(doc), loc).Some?
    ensures Obj(WriteObject(doc, loc, parent)) == Write(Obj(doc), loc, Obj(parent))
  {
  }

  /** The location of the field the last segment names. */
  function FieldLocation(segments: seq<Segment>): seq<Step>
    requires segments != []
  {
    LocationOf(segments[..|segments| - 1]) + [Field(segments[|segments| - 1].key)]
  }

  /** Reading after an edit: the new holder below its location, the old tree beside it. */
  lemma LookupEdited(doc: Fields, loc: seq<Step>, parent: Fields, other: seq<Step>)
    requires Lookup(Obj(doc), loc).Some? && !(other < loc)
    ensures Lookup(Obj(WriteObject(doc, loc, parent)), other) ==
              if loc <= other then Lookup(Obj(parent), other[|loc|..]) else Lookup(Obj(doc), other)
  {
    WriteObjectIs(doc, loc, parent);
    if loc <= other {
      assert other == loc + other[|loc|..];
      LookupWritten(Obj(doc), loc, Obj(parent), other[|loc|..]);
    } else {
      LookupElsewhere(Obj(doc), loc, Obj(parent), other);
    }
  }

  lemma LookupField(current: Fields, key: string, rest: seq<Step>)
    ensures Lookup(Obj(current), [Field(key)] + rest) == if key in current then Lookup(current[key], rest) else None
  {
    assert ([Field(key)] + rest)[1..] == rest;
  }

  /** Two holders differ at most at `place` in the field `key`; the empty place is the whole field. */
  ghost predicate DifferAt(p1: Fields, p2: Fields, key: string, place: seq<Step>) {
    && (forall k :: k != key ==> (k in p1 <==> k in p2) && (k in p1 ==> p1[k] == p2[k]))
    && (place != [] ==> key in p1 && key in p2 && forall m ::
        Apart(place, m) ==> Lookup(p1[key], m) == Lookup(p2[key], m))
  }

  lemma SameOutside(p1: Fields, p2: Fields, key: string, place: seq<Step>, other: seq<Step>)
    requires DifferAt(p1, p2, key, place)
    requires Apart([Field(key)] + place, other)
    ensures Lookup(Obj(p1), other) == Lookup(Obj(p2), other)
  {
    if other[0] == Field(key) {
      ApartTails([Field(key)] + place, other);
      assert ([Field(key)] + place)[1..] == place;
    }
  }

  lemma SuffixApart(a: seq<Step>, b: seq<Step>, other: seq<Step>)
    requires Apart(a + b, other) && a <= other
    ensures Apart(b, other[|a|..])
  {
    assert other == a + other[|a|..];
    PrefixCancel(a, b, other[|a|..]);
    PrefixCancel(a, other[|a|..], b);
  }

  lemma PrefixCancel(a: seq<Step>, b: seq<Step>, c: seq<Step>)
    ensures a + b <= a + c <==> b <= c
  {
    if |b| <= |c| {
      assert (a + c)[..|a| + |b|] == a + c[..|b|];
      assert (a + b)[|a|..] == b && (a + c[..|b|])[|a|..] == c[..|b|];
    }
  }

  lemma PrefixApart(a: seq<Step>, b: seq<Step>, other: seq<Step>)
    requires Apart(a + b, other)
    ensures !(other <= a)
  {
    if |other| <= |a| {
      assert (a + b)[..|other|] == a[..|other|];
    }
  }

  /**
   An edit whose effect on its holder is confined to `place` below one field is confined, in the whole
   dashboard, to that place below the holder.
   */
  lemma EditIsLocal(doc: Fields, loc: seq<Step>, p1: Fields, p2: Fields, key: string, place: seq<Step>)
    requires Lookup(Obj(doc), loc) == Some(Obj(p1))
    requires DifferAt(p1, p2, key, place)
    ensures forall other :: Apart(loc + ([Field(key)] + place), other) ==>
              Lookup(Obj(WriteObject(doc, loc, p2)), other) == Lookup(Obj(doc), other)
  {
    forall other | Apart(loc + ([Field(key)] + place), other)
      ensures Lookup(Obj(WriteObject(doc, loc, p2)), other) == Lookup(Obj(doc), other)
    {
      PrefixApart(loc, [Field(key)] + place, other);
      LookupEdited(doc, loc, p2, other);
      if loc <= other {
        SuffixApart(loc, [Field(key)] + place, other);
        SameOutside(p1, p2, key, place, other[|loc|..]);
        LookupAppend(Obj(doc), loc, other[|loc|..]);
        assert other == loc + other[|loc|..];
      }
    }
  }

  lemma HeadApart(step: Step, m: seq<Step>)
    requires Apart([step], m)
    ensures m != [] && m[0] != step
  {
    assert m != [] && m[0] == step ==> [step] <= m;
  }

  lemma ElemApart(items: seq<Json>, i: nat, v: Json, m: seq<Step>)
    requires i < |items| && Apart([Elem(i)], m)
    ensures Lookup(Arr(items[i := v]), m) == Lookup(Arr(items), m)
  {
    HeadApart(Elem(i), m);
  }

  lemma AppendApart(items: seq<Json>, v: Json, m: seq<Step>)
    requires Apart([Elem(|items|)], m)
    ensures Lookup(Arr(items + [v]), m) == Lookup(Arr(items), m)
  {
    HeadApart(Elem(|items|), m);
  }

  /** Where, in the holder, the edit `Set` puts its value. */
  function PlaceOfSet(current: Fields, seg: Segment): seq<Step>
    requires ArrayAt(current, seg).Done? || !(seg.isAppend || seg.isArray)
  {
    if seg.isAppend then [Elem(|current[seg.key].items|)] else if seg.isArray then [Elem(seg.index)] else []
  }

  lemma SetDiffersAt(current: Fields, seg: Segment, v: Json)
    requires SetAt(current, seg, v).Done?
    ensures DifferAt(current, SetAt(current, seg, v).value, seg.key, PlaceOfSet(current, seg))
    ensures Lookup(Obj(SetAt(current, seg, v).value), [Field(seg.key)] + PlaceOfSet(current, seg)) == Some(v)
  {
    var place := PlaceOfSet(current, seg);
    LookupField(SetAt(current, seg, v).value, seg.key, place);
    if place != [] {
      assert place[1..] == [];
      var items := current[seg.key].items;
      forall m | Apart(place, m)
        ensures Lookup(current[seg.key], m) == Lookup(SetAt(current, seg, v).value[seg.key], m)
      {
        if seg.isAppend { AppendApart(items, v, m); } else { ElemApart(items, seg.index, v, m); }
      }
    }
  }

  /** The location a `Set` along `segments` writes: a field, an element, or the place after the last element. */
  function SetLocation(doc: Fields, segments: seq<Segment>): seq<Step>
    requires segments != [] && Apply(doc, segments, Set(Scalar(""))).Done?
  {
    var front, last := segments[..|segments| - 1], segments[|segments| - 1];
    LocationOf(front) + ([Field(last.key)] + PlaceOfSet(Walk(doc, front).value, last))
  }

  lemma SuccessIgnoresValue(doc: Fields, segments: seq<Segment>, v: Json, w: Json)
    requires segments != []
    ensures Apply(doc, segments, Set(v)).Done? <==> Apply(doc, segments, Set(w)).Done?
  {
  }

  /** Setting: the value is read back where it was put, and everything apart from there is as before. */
  lemma SetChangesOnePlace(doc: Fields, segments: seq<Segment>, v: Json)
    requires segments != [] && Apply(doc, segments, Set(v)).Done?
    ensures Apply(doc, segments, Set(Scalar(""))).Done?
    ensures var doc' := Apply(doc, segments, Set(v)).value;
            var there := SetLocation(doc, segments);
            && Lookup(Obj(doc'), there) == Some(v)
            && forall other :: Apart(there, other) ==> Lookup(Obj(doc'), other) == Lookup(Obj(doc), other)
  {
    SuccessIgnoresValue(doc, segments, v, Scalar(""));
    var front, last := segments[..|segments| - 1], segments[|segments| - 1];
    var loc, parent := LocationOf(front), Walk(doc, front).value;
    var parent' := SetAt(parent, last, v).value;
    WalkLooksUp(doc, front);
    SetDiffersAt(parent, last, v);
    var inside := [Field(last.key)] + PlaceOfSet(parent, last);
    EditIsLocal(doc, loc, parent, parent', last.key, PlaceOfSet(parent, last));
    LookupEdited(doc, loc, parent', loc + inside);
    assert (loc + inside)[|loc|..] == inside;
  }

  /** Removing a field: it is gone, and everything apart from it is as before. */
  lemma RemoveFieldChangesOnePlace(doc: Fields, segments: seq<Segment>)
    requires segments != [] && Apply(doc, segments, Remove).Done? && !segments[|segments| - 1].isArray
    ensures var doc' := Apply(doc, segments, Remove).value;
            && Lookup(Obj(doc'), FieldLocation(segments)) == None
            && forall other ::
                Apart(FieldLocation(segments), other) ==> Lookup(Obj(doc'), other) == Lookup(Obj(doc), other)
  {
    var front, last := segments[..|segments| - 1], segments[|segments| - 1];
    var parent := Walk(doc, front).value;
    WalkLooksUp(doc, front);
    FieldEdit(doc, LocationOf(front), parent, parent - {last.key}, last.key);
    LookupField(parent - {last.key}, last.key, []);
  }

  /** An edit of one field of the holder. */
  lemma FieldEdit(doc: Fields, loc: seq<Step>, p1: Fields, p2: Fields, key: string)
    requires Lookup(Obj(doc), loc) == Some(Obj(p1)) && DifferAt(p1, p2, key, [])
    ensures Lookup(Obj(doc), loc + [Field(key)]) == Lookup(Obj(p1), [Field(key)] + [])
    ensures Lookup(Obj(WriteObject(doc, loc, p2)), loc + [Field(key)]) == Lookup(Obj(p2), [Field(key)] + [])
    ensures forall other :: Apart(loc + [Field(key)], other) ==>
              Lookup(Obj(WriteObject(doc, loc, p2)), other) == Lookup(Obj(doc), other)
  {
    assert [Field(key)] + [] == [Field(key)];
    EditIsLocal(doc, loc, p1, p2, key, []);
    LookupEdited(doc, loc, p2, loc + [Field(key)]);
    assert (loc + [Field(key)])[|loc|..] == [Field(key)];
    LookupAppend(Obj(doc), loc, [Field(key)]);
  }

  /** Removing an element: the later ones move down, and everything apart from the array is as before. */
  lemma RemoveElementShifts(doc: Fields, segments: seq<Segment>)
    requires segments != [] && Apply(doc, segments, Remove).Done? && segments[|segments| - 1].isArray
    ensures var doc' := Apply(doc, segments, Remove).value;
            var i := segments[|segments| - 1].index;
            var found := Lookup(Obj(doc), FieldLocation(segments));
            && found.Some? && found.value.Arr? && i < |found.value.items|
            && Lookup(Obj(doc'), FieldLocation(segments)) == Some(Arr(Delete(found.value.items, i)))
            && forall other ::
                Apart(FieldLocation(segments), other) ==> Lookup(Obj(doc'), other) == Lookup(Obj(doc), other)
  {
    var front, last := segments[..|segments| - 1], segments[|segments| - 1];
    var parent := Walk(doc, front).value;
    var parent' := RemoveAt(parent, last).value;
    WalkLooksUp(doc, front);
    FieldEdit(doc, LocationOf(front), parent, parent', last.key);
    LookupField(parent', last.key, []);
    LookupField(parent, last.key, []);
  }

  // ---------------------------------------------------------------- path texts

  predicate IsSpace(c: char) {
    || '\t' <= c <= '\r' || c == ' ' || c == '\U{0085}' || c == '\U{00A0}' || c == '\U{1680}'
    || '\U{2000}' <= c <= '\U{200A}' || c == '\U{2028}' || c == '\U{2029}' || c == '\U{202F}'
    || c == '\U{205F}' || c == '\U{3000}'
  }

  /** White space by its codes (`unicode.IsSpace`). */
  lemma SpaceCodes(c: char)
    ensures IsSpace(c) <==>
              var u := c as int;
              || 9 <= u <= 13 || u == 32 || u == 133 || u == 160 || u == 5760 || 8192 <= u <= 8202 || u == 8232
              || u == 8233 || u == 8239 || u == 8287 || u == 12288
  {
  }

  function Trim(s: string): string {
    if s == "" then ""
    else if IsSpace(s[0]) then Trim(s[1..])
    else if IsSpace(s[|s| - 1]) then Trim(s[..|s| - 1])
    else s
  }

  predicate Contains(s: string, t: string) {
    t <= s || (s != "" && Contains(s[1..], t))
  }

  /** The segments an operation acts on. */
  function Resolve(path: string): (r: Result<seq<Segment>>)
    ensures r.Done? ==> r.value != []
  {
    var p := StripRoot(Trim(path));
    if Contains(p, "?(@") || Contains(p, "?(") then Failed(UnsupportedFilter)
    else if Contains(p, "[*]") then Failed(UnsupportedWildcard)
    else if Parse(p) == [] then Failed(EmptyPath)
    else Done(Parse(p))
  }

  function ApplyPath(doc: Fields, path: string, edit: Edit): Result<Fields> {
    match Resolve(path)
    case Failed(e) => Failed(e)
    case Done(segments) => Apply(doc, segments, edit)
  }

  datatype BatchResult = Patched(doc: Fields) | OperationFailed(error: Error) | UnsupportedOperation

  /** The operations one after the other, up to the first failure. */
  function ApplyBatch(doc: Fields, ops: seq<Operation<Json>>): BatchResult
    decreases |ops|
  {
    if ops == [] then Patched(doc)
    else if ops[0].op !in {"replace", "add", "remove"} then UnsupportedOperation
    else
      match ApplyPath(doc, ops[0].path, if ops[0].op == "remove" then Remove else Set(ops[0].value))
      case Failed(e) => OperationFailed(e)
      case Done(doc') => ApplyBatch(doc', ops[1..])
  }

  // ---------------------------------------------------------------- deleting several elements

  /** Deletion by position, one index after the other; `None` when an index is out of range. */
  function DeleteEach<T>(items: seq<T>, order: seq<nat>): Option<seq<T>>
    decreases |order|
  {
    if order == [] then Some(items)
    else if order[0] >= |items| then None
    else DeleteEach(Delete(items, order[0]), order[1..])
  }

  /** Simultaneous deletion: the elements whose original index is not in `gone`, in order. */
  function Keep<T>(items: seq<T>, gone: set<nat>): (kept: seq<T>)
    ensures forall x :: x in kept ==> x in items
  {
    if items == [] then []
    else
      var n := |items| - 1;
      Keep(items[..n], gone) + if n in gone then [] else [items[n]]
  }

  function SetOf(order: seq<nat>): set<nat> {
    set i | i in order
  }

  predicate DownTo(order: seq<nat>) {
    forall a, b :: 0 <= a < b < |order| ==> order[a] > order[b]
  }

  lemma {:induction false} KeepAppend<T>(a: seq<T>, b: seq<T>, gone: set<nat>)
    requires forall i :: i in gone ==> i < |a|
    ensures Keep(a + b, gone) == Keep(a, gone) + b
  {
    if b == [] {
      assert a + b == a;
    } else {
      var n := |b| - 1;
      assert (a + b)[..|a + b| - 1] == a + b[..n];
      KeepAppend(a, b[..n], gone);
      assert Keep(a + b, gone) == (Keep(a, gone) + b[..n]) + [b[n]];
      assert b == b[..n] + [b[n]];
    }
  }

  /** Deleting the largest index first is the last step of deleting all at once. */
  lemma KeepLargest<T>(items: seq<T>, m: nat, rest: set<nat>)
    requires m < |items| && forall i :: i in rest ==> i < m
    ensures Keep(items, {m} + rest) == Keep(Delete(items, m), rest)
  {
    var front := items[..m + 1];
    assert items == front + items[m + 1..];
    KeepAppend(front, items[m + 1..], {m} + rest);
    assert front[..m] == items[..m];
    KeepAppend(items[..m], items[m + 1..], rest);
    KeepIgnores(items[..m], {m} + rest, rest);
  }

  lemma KeepIgnores<T>(items: seq<T>, g1: set<nat>, g2: set<nat>)
    requires forall i :: 0 <= i < |items| ==> (i in g1 <==> i in g2)
    ensures Keep(items, g1) == Keep(items, g2)
  {
  }

  lemma {:induction false} DescendingDeletes<T>(items: seq<T>, order: seq<nat>)
    requires DownTo(order) && forall i :: i in order ==> i < |items|
    ensures DeleteEach(items, order) == Some(Keep(items, SetOf(order)))
    decreases |order|
  {
    if order == [] {
      KeepAppend(items, [], {});
      KeepAll(items);
    } else {
      var m, rest := order[0], order[1..];
      assert m in order;
      DescendingDeletes(Delete(items, m), rest);
      assert SetOf(order) == {m} + SetOf(rest);
      KeepLargest(items, m, SetOf(rest));
    }
  }

  lemma KeepAll<T>(items: seq<T>)
    ensures Keep(items, SetOf([])) == items
  {
    if items != [] {
      KeepAll(items[..|items| - 1]);
    }
  }

  predicate DistinctItems<T(==)>(items: seq<T>) {
    forall a, b :: 0 <= a < b < |items| ==> items[a] != items[b]
  }

  lemma DeleteKeeps<T>(items: seq<T>, i: nat)
    requires i < |items|
    ensures forall x :: x in Delete(items, i) ==> x in items
    ensures DistinctItems(items) ==> DistinctItems(Delete(items, i)) && items[i] !in Delete(items, i)
    ensures forall j :: 0 <= j < |items| - 1 ==> Delete(items, i)[j] == items[if j < i then j else j + 1]
  {
  }

  lemma {:induction false} DeleteEachKeeps<T>(items: seq<T>, order: seq<nat>)
    requires DeleteEach(items, order).Some?
    ensures forall x :: x in DeleteEach(items, order).value ==> x in items
    decreases |order|
  {
    if order != [] {
      DeleteKeeps(items, order[0]);
      DeleteEachKeeps(Delete(items, order[0]), order[1..]);
    }
  }

  /**
   If position `m` and all above hold elements from `alien`, deleting position `m` some time later,
   with only lower positions before it, loses one of them.
   */
  lemma {:induction false} LosesAlien<T>(items: seq<T>, order: seq<nat>, m: nat, alien: seq<T>) returns (lost: T)
    requires DistinctItems(items) && m in order && (forall i :: i in order ==> i <= m)
    requires forall j :: m <= j < |items| ==> items[j] in alien
    requires DeleteEach(items, order).Some?
    ensures lost in items && lost in alien && lost !in DeleteEach(items, order).value
    decreases |order|
  {
    var head := order[0];
    var next := Delete(items, head);
    InTail(order);
    DeleteKeeps(items, head);
    DeleteEachKeeps(next, order[1..]);
    if head == m {
      lost := items[m];
    } else {
      assert m in order[1..];
      lost := LosesAlien(next, order[1..], m, alien);
    }
  }

  lemma KeepContains<T>(items: seq<T>, gone: set<nat>, i: nat)
    requires i < |items| && i !in gone
    ensures items[i] in Keep(items, gone)
  {
    if i < |items| - 1 {
      assert items[..|items| - 1][i] == items[i];
    }
  }

  /** Going up loses an element that nobody named. */
  lemma AscentLoses<T>(items: seq<T>, head: nat, rest: seq<nat>)
    requires DistinctItems(items) && head < |items|
    requires (forall i :: i in rest ==> i < |items| && i != head) && exists i :: i in rest && i > head
    ensures DeleteEach(items, [head] + rest) != Some(Keep(items, SetOf([head] + rest)))
  {
    var order := [head] + rest;
    assert order[1..] == rest;
    var next := Delete(items, head);
    DeleteKeeps(items, head);
    var m := MaxOf(rest);
    if DeleteEach(next, rest).Some? {
      var alien := items[m + 1..];
      assert forall j :: m <= j < |next| ==> next[j] == alien[j - m];
      var lost := LosesAlien(next, rest, m, alien);
      var j :| m + 1 <= j < |items| && items[j] == lost;
      KeepContains(items, SetOf(order), j);
    }
  }

  lemma DownToCons(head: nat, rest: seq<nat>)
    requires DownTo(rest) && forall i :: i in rest ==> i < head
    ensures DownTo([head] + rest)
  {
    forall b | 0 <= b < |rest|
      ensures rest[b] < head
    {
      assert rest[b] in rest;
    }
  }

  lemma InTail(order: seq<nat>)
    requires order != []
    ensures forall i :: i in order[1..] ==> i in order && exists b :: 0 < b < |order| && order[b] == i
    ensures forall i :: i in order && i != order[0] ==> i in order[1..]
  {
    forall i | i in order[1..]
      ensures i in order && exists b :: 0 < b < |order| && order[b] == i
    {
      var a :| 0 <= a < |order[1..]| && order[1..][a] == i;
      assert order[a + 1] == i;
    }
  }

  /** Distinct positions in another order than descending delete something else, or fail. */
  lemma {:induction false} OnlyDescendingDeletes<T>(items: seq<T>, order: seq<nat>)
    requires DistinctItems(items) && (forall a, b :: 0 <= a < b < |order| ==> order[a] != order[b])
    requires forall i :: i in order ==> i < |items|
    requires DeleteEach(items, order) == Some(Keep(items, SetOf(order)))
    ensures DownTo(order)
    decreases |order|
  {
    if order != [] {
      var head, rest := order[0], order[1..];
      assert order == [head] + rest;
      InTail(order);
      if i :| i in rest && i > head {
        AscentLoses(items, head, rest);
      } else {
        assert SetOf(order) == {head} + SetOf(rest);
        DeleteKeeps(items, head);
        KeepLargest(items, head, SetOf(rest));
        OnlyDescendingDeletes(Delete(items, head), rest);
        DownToCons(head, rest);
      }
    }
  }

  lemma MaxOf(order: seq<nat>) returns (m: nat)
    requires order != []
    ensures m in order && forall i :: i in order ==> i <= m
  {
    if |order| == 1 {
      m := order[0];
    } else {
      var n := MaxOf(order[1..]);
      m := if n < order[0] then order[0] else n;
      assert order == [order[0]] + order[1..];
    }
  }

  /** Deleting distinct positions one by one deletes what they name exactly when they descend. */
  lemma SequentialIffDescending<T>(items: seq<T>, order: seq<nat>)
    requires DistinctItems(items) && (forall a, b :: 0 <= a < b < |order| ==> order[a] != order[b])
    requires forall i :: i in order ==> i < |items|
    ensures DeleteEach(items, order) == Some(Keep(items, SetOf(order))) <==> DownTo(order)
  {
    if DownTo(order) {
      DescendingDeletes(items, order);
    } else if DeleteEach(items, order) == Some(Keep(items, SetOf(order))) {
      OnlyDescendingDeletes(items, order);
    }
  }

  // ---------------------------------------------------------------- a batch of removals on one array

  /** `op` removes, as the patch engine reads it, element `index` of the array `key` of the object at `front`. */
  predicate RemovesElement(op: Operation<Json>, front: seq<Segment>, key: string, index: nat) {
    op.op == "remove" && Resolve(op.path) == Done(front + [Segment(key, index, true, false)])
  }

  lemma WalkWritten(doc: Fields, front: seq<Segment>, parent: Fields)
    requires Walk(doc, front).Done?
    ensures Lookup(Obj(doc), LocationOf(front)).Some?
    ensures Walk(WriteObject(doc, LocationOf(front), parent), front) == Done(parent)
    decreases |front|
  {
    WalkLooksUp(doc, front);
    if front != [] {
      var seg := front[0];
      var child := Navigate(doc, seg).value;
      WalkWritten(child, front[1..], parent);
      WalkLooksUp(child, front[1..]);
      WriteStep(doc, seg, LocationOf(front[1..]), parent);
    }
  }

  /** Writing below a navigated child rewrites the child. */
  lemma WriteStep(doc: Fields, seg: Segment, below: seq<Step>, parent: Fields)
    requires Navigate(doc, seg).Done?
    requires Lookup(Obj(Navigate(doc, seg).value), below).Some?
    ensures Lookup(Obj(doc), StepsOf(seg) + below).Some?
    ensures Navigate(WriteObject(doc, StepsOf(seg) + below, parent), seg)
        == Done(WriteObject(Navigate(doc, seg).value, below, parent))
  {
    StepLooksUp(doc, seg);
    LookupAppend(Obj(doc), StepsOf(seg), below);
    var loc := StepsOf(seg) + below;
    var field := doc[seg.key];
    WriteObjectIs(Navigate(doc, seg).value, below, parent);
    WriteObjectIs(doc, loc, parent);
    if seg.isArray {
      var inArray := [Elem(seg.index)] + below;
      assert loc[1..] == inArray && inArray[1..] == below;
      assert Write(field, inArray, Obj(parent))
          == Arr(field.items[seg.index := Write(field.items[seg.index], below, Obj(parent))]);
    } else {
      assert loc[1..] == below;
    }
  }

  /** The dashboard with the array `key` of the object at `front` replaced. */
  function WithArray(doc: Fields, front: seq<Segment>, key: string, items: seq<Json>): Fields
    requires Walk(doc, front).Done?
  {
    WalkLooksUp(doc, front);
    WriteObject(doc, LocationOf(front), Walk(doc, front).value[key := Arr(items)])
  }

  /** The array `key` of the object at `front`. */
  predicate HasArray(doc: Fields, front: seq<Segment>, key: string, items: seq<Json>) {
    Walk(doc, front).Done? && key in Walk(doc, front).value && Walk(doc, front).value[key] == Arr(items)
  }

  lemma WithArrayTwice(doc: Fields, front: seq<Segment>, key: string, items: seq<Json>, more: seq<Json>)
    requires Walk(doc, front).Done?
    ensures HasArray(WithArray(doc, front, key, items), front, key, items)
    ensures WithArray(WithArray(doc, front, key, items), front, key, more) == WithArray(doc, front, key, more)
  {
    var loc, parent := LocationOf(front), Walk(doc, front).value;
    var p1, p2 := parent[key := Arr(items)], parent[key := Arr(more)];
    WalkLooksUp(doc, front);
    WalkWritten(doc, front, p1);
    WriteObjectIs(doc, loc, p1);
    WriteTwice(Obj(doc), loc, Obj(p1), Obj(p2));
    WriteObjectIs(WriteObject(doc, loc, p1), loc, p2);
    assert p1[key := Arr(more)] == p2;
  }

  lemma WithSameArray(doc: Fields, front: seq<Segment>, key: string, items: seq<Json>)
    requires HasArray(doc, front, key, items)
    ensures WithArray(doc, front, key, items) == doc
  {
    var parent := Walk(doc, front).value;
    WalkLooksUp(doc, front);
    WriteSame(Obj(doc), LocationOf(front));
    assert parent[key := Arr(items)] == parent;
  }

  lemma RemovalStep(doc: Fields, front: seq<Segment>, key: string, items: seq<Json>, op: Operation<Json>, i: nat)
    requires RemovesElement(op, front, key, i) && HasArray(doc, front, key, items)
    ensures ApplyPath(doc, op.path, Remove) ==
              if i < |items| then Done(WithArray(doc, front, key, Delete(items, i))) else Failed(OutOfBounds)
  {
    var segments := front + [Segment(key, i, true, false)];
    assert segments[..|segments| - 1] == front;
  }

  /** Removals on one array, in any order: the batch deletes by position from that array and does nothing else. */
  lemma {:induction false} RemovalsRun(doc: Fields, front: seq<Segment>, key: string, items: seq<Json>,
                                       ops: seq<Operation<Json>>, order: seq<nat>)
    requires HasArray(doc, front, key, items)
    requires |ops| == |order| && forall j :: 0 <= j < |ops| ==> RemovesElement(ops[j], front, key, order[j])
    ensures ApplyBatch(doc, ops) == match DeleteEach(items, order) {
                                      case None => OperationFailed(OutOfBounds)
                                      case Some(rest) => Patched(WithArray(doc, front, key, rest)) }
    decreases |ops|
  {
    if ops == [] {
      WithSameArray(doc, front, key, items);
    } else {
      RemovalStep(doc, front, key, items, ops[0], order[0]);
      if order[0] < |items| {
        var fewer := Delete(items, order[0]);
        WithArrayTwice(doc, front, key, fewer, fewer);
        RemovalsRun(WithArray(doc, front, key, fewer), front, key, fewer, ops[1..], order[1..]);
        match DeleteEach(fewer, order[1..])
        case None =>
        case Some(rest) => WithArrayTwice(doc, front, key, fewer, rest);
      }
    }
  }

  /** The path text has no surrounding white space, so the reordering reads the same segments as the edit. */
  predicate Tidy(path: string) {
    Trim(path) == path
  }

  lemma ArrayPathFront(front: seq<Segment>, a: Segment, b: Segment, n: nat)
    requires n <= |front| + 1 && a.key == b.key
    ensures ArrayPathTo(front + [a], n) == ArrayPathTo(front + [b], n)
  {
    if n > 0 {
      ArrayPathFront(front, a, b, n - 1);
    }
  }

  lemma TidyRemoval(op: Operation<Json>, front: seq<Segment>, key: string, index: nat)
    requires RemovesElement(op, front, key, index) && Tidy(op.path)
    ensures RemovalOf(op) == Removal(ArrayPathTo(front + [Segment(key, 0, true, false)], |front| + 1), index)
  {
    RemovalAtFront(front, key, index);
  }

  lemma RemovalAtFront(front: seq<Segment>, key: string, index: nat)
    ensures RemovalAt(front + [Segment(key, index, true, false)])
         == Removal(ArrayPathTo(front + [Segment(key, 0, true, false)], |front| + 1), index)
  {
    ArrayPathFront(front, Segment(key, index, true, false), Segment(key, 0, true, false), |front| + 1);
  }

  lemma ArrangedSet(indices: seq<nat>, pi: seq<nat>)
    requires Arrangement(pi, |indices|)
    ensures SetOf(Arrange(indices, pi)) == SetOf(indices)
  {
    forall i | i in indices
      ensures i in Arrange(indices, pi)
    {
      var k :| 0 <= k < |indices| && indices[k] == i;
      assert k in pi;
      var a :| 0 <= a < |pi| && pi[a] == k;
      assert Arrange(indices, pi)[a] == i;
    }
  }

  // ---------------------------------------------------------------- the index at the end of a path

  /** The last characters of `s` that are not separators are the digits between `a` and `e`, in brackets. */
  predicate IndexAt(s: string, a: nat, e: nat) {
    && a + 1 < e < |s| && s[a] == '[' && s[e] == ']'
    && (forall k :: a < k < e ==> IsDigit(s[k]))
    && (forall k :: e <= k < |s| ==> IsSeparator(s[k]))
  }

  function IndexText(s: string, a: nat, e: nat): (digits: string)
    requires IndexAt(s, a, e)
    ensures AllDigits(digits)
  {
    s[a + 1..e]
  }

  lemma IndexAtOnce(s: string, a: nat, e: nat, a': nat, e': nat)
    requires IndexAt(s, a, e) && IndexAt(s, a', e')
    ensures a == a' && e == e'
  {
    assert IsDigit(s[e - 1]) && IsDigit(s[e' - 1]);
  }

  lemma IndexAtBehind(v: string, s: string, a: nat, e: nat)
    requires IndexAt(s, a, e)
    ensures IndexAt(v + s, |v| + a, |v| + e) && IndexText(v + s, |v| + a, |v| + e) == IndexText(s, a, e)
  {
  }

  lemma {:induction false} NothingParsed(s: string)
    requires Parse(s) == []
    ensures forall k :: 0 <= k < |s| ==> IsSeparator(s[k])
    decreases |s|
  {
    if s != "" && IsSeparator(s[0]) {
      NothingParsed(s[1..]);
      assert s == [s[0]] + s[1..];
    }
  }

  lemma MatchedIndex(s: string, segment: Segment, rest: string)
    requires s != "" && !IsSeparator(s[0]) && Match(s) == (segment, rest)
    ensures rest == s[|s| - |rest|..]
    ensures segment.isArray && !segment.isAppend && (forall k :: 0 <= k < |rest| ==> IsSeparator(rest[k])) ==>
              var a, e := |segment.key|, |s| - |rest| - 1;
              e >= 0 && IndexAt(s, a, e) && segment.index == Atoi(IndexText(s, a, e))
  {
    var n := KeyRun(s);
    var digits := IndexDigits(s[n..]);
    if digits != "" {
      assert digits == s[n + 1..n + 1 + |digits|];
      assert forall k :: n < k < n + 1 + |digits| ==> s[k] == digits[k - n - 1];
    }
  }

  lemma LastSegment(s: string, segment: Segment, rest: string)
    requires s != "" && !IsSeparator(s[0]) && Match(s) == (segment, rest)
    ensures RemovalAt(Parse(s)).Removal? ==>
              if Parse(rest) == []
                  then segment.isArray && !segment.isAppend && RemovalAt(Parse(s)).index == segment.index
              else RemovalAt(Parse(rest)).Removal? && RemovalAt(Parse(s)).index == RemovalAt(Parse(rest)).index
  {
    hide Match, ArrayPathTo;
    assert Parse(s) == [segment] + Parse(rest);
    if Parse(rest) != [] {
      assert Parse(s)[|Parse(s)| - 1] == Parse(rest)[|Parse(rest)| - 1];
    }
  }

  /** A path whose last segment is an array element ends in the index of that element. */
  lemma {:induction false} LastIndexAt(s: string) returns (a: nat, e: nat)
    requires RemovalAt(Parse(s)).Removal?
    ensures IndexAt(s, a, e) && RemovalAt(Parse(s)).index == Atoi(IndexText(s, a, e))
    decreases |s|
  {
    hide Match, RemovalAt, IndexAt, IndexText, Atoi;
    NoRemovalInNothing();
    if IsSeparator(s[0]) {
      a, e := LastIndexAt(s[1..]);
      assert s == [s[0]] + s[1..];
      IndexAtBehind([s[0]], s[1..], a, e);
      a, e := a + 1, e + 1;
    } else {
      var (segment, rest) := Match(s);
      MatchedIndex(s, segment, rest);
      LastSegment(s, segment, rest);
      if Parse(rest) == [] {
        NothingParsed(rest);
        a, e := |segment.key|, |s| - |rest| - 1;
      } else {
        a, e := LastIndexAt(rest);
        var front := s[..|s| - |rest|];
        assert s == front + rest;
        IndexAtBehind(front, rest, a, e);
        a, e := |front| + a, |front| + e;
      }
    }
  }

  lemma NoRemovalInNothing()
    ensures RemovalAt(Parse("")).NotRemoval?
  {
  }

  predicate AllSpace(s: string) {
    forall i :: 0 <= i < |s| ==> IsSpace(s[i])
  }

  lemma {:induction false} TrimParts(s: string) returns (before: string, after: string)
    ensures s == before + Trim(s) + after && AllSpace(before) && AllSpace(after)
    decreases |s|
  {
    before, after := "", "";
    hide IsSpace;
    if s != "" && IsSpace(s[0]) {
      before, after := TrimParts(s[1..]);
      SpaceBefore(s, before, Trim(s), after);
      before := [s[0]] + before;
    } else if s != "" && IsSpace(s[|s| - 1]) {
      before, after := TrimParts(s[..|s| - 1]);
      SpaceBehind(s, before, Trim(s), after);
      after := after + [s[|s| - 1]];
    }
  }

  lemma SpaceBefore(s: string, before: string, t: string, after: string)
    requires s != "" && s[1..] == before + t + after && IsSpace(s[0]) && AllSpace(before)
    ensures s == ([s[0]] + before) + t + after && AllSpace([s[0]] + before)
  {
    hide IsSpace;
    assert s == [s[0]] + s[1..];
  }

  lemma SpaceBehind(s: string, before: string, t: string, after: string)
    requires s != "" && s[..|s| - 1] == before + t + after && IsSpace(s[|s| - 1]) && AllSpace(after)
    ensures s == before + t + (after + [s[|s| - 1]]) && AllSpace(after + [s[|s| - 1]])
  {
    hide IsSpace;
    assert s == s[..|s| - 1] + [s[|s| - 1]];
  }

  /**
   White space around a path may hide a removal from the reordering, or have it seen in another array, but what
   the reordering takes for a removal has the right index.
   */
  lemma SeenWithItsIndex(op: Operation<Json>, front: seq<Segment>, key: string, index: nat)
    requires RemovesElement(op, front, key, index)
    ensures RemovalOf(op).Removal? ==> RemovalOf(op).index == index
  {
    hide *;
    var x, t := StripRoot(Trim(op.path)), StripRoot(op.path);
    EditedElement(op, front, key, index);
    ReadsText(op, t);
    if RemovalOf(op).Removal? && t != x {
      var a, e := LastIndexAt(t);
      var v := TrimmedBehind(op.path, a, e);
      var b, f := LastIndexAt(x);
      IndexAtBehind(v, x, b, f);
      IndexAtOnce(t, a, e, |v| + b, |v| + f);
    }
  }

  lemma EditedElement(op: Operation<Json>, front: seq<Segment>, key: string, index: nat)
    requires RemovesElement(op, front, key, index)
    ensures op.op == "remove"
    ensures var seen := RemovalAt(Parse(StripRoot(Trim(op.path)))); seen.Removal? && seen.index == index
  {
    hide Parse, Trim, StripRoot, Contains, RemovalAt;
    RemovalAtFront(front, key, index);
  }

  lemma StripIsSuffix(s: string) returns (root: string)
    ensures s == root + StripRoot(s)
    ensures s != "" ==> StripRoot(s) != "" && StripRoot(s)[|StripRoot(s)| - 1] == s[|s| - 1]
    ensures s != "" && IsSpace(s[0]) ==> StripRoot(s) == s
  {
    root := if StripRoot(s) == s then "" else "$.";
  }

  /** A path that ends in an index has no white space behind it. */
  lemma NoSpaceBehind(path: string, front: string, after: string, a: nat, e: nat)
    requires IndexAt(StripRoot(path), a, e) && path == front + after && AllSpace(after)
    ensures after == "" && path == front && path != ""
  {
    var _ := StripIsSuffix(path);
    hide StripRoot, IsSpace;
    if after != "" {
      SpaceIsLast(path, front, after);
      assert false;
    }
  }

  lemma TrimmedBehind(path: string, a: nat, e: nat) returns (v: string)
    requires IndexAt(StripRoot(path), a, e)
    ensures StripRoot(path) == v + StripRoot(Trim(path))
  {
    hide *;
    var before, after := TrimParts(path);
    var trimmed := Trim(path);
    NoSpaceBehind(path, before + trimmed, after, a, e);
    if before == "" {
      assert path == trimmed;
      v := "";
    } else {
      SpaceIsFirst(path, before, trimmed);
      var _ := StripIsSuffix(path);
      var root := StripIsSuffix(trimmed);
      Assoc(before, root, StripRoot(trimmed));
      v := before + root;
    }
  }

  lemma SpaceIsFirst(s: string, before: string, rest: string)
    requires s == before + rest && before != "" && AllSpace(before)
    ensures IsSpace(s[0])
  {
    assert s[0] == before[0];
  }

  lemma SpaceIsLast(s: string, front: string, after: string)
    requires s == front + after && after != "" && AllSpace(after)
    ensures !IsSeparator(s[|s| - 1])
  {
    assert s[|s| - 1] == after[|after| - 1];
  }

  // ---------------------------------------------------------------- which batches delete what they name

  /** How many of the numbers are greater than that at `k`: its position when the greatest comes first. */
  function Rank(indices: seq<nat>, k: nat): (r: nat)
    requires k < |indices|
    ensures r < |indices|
  {
    var greater := set j | 0 <= j < |indices| && indices[j] > indices[k];
    SubsetSize(greater, Below(|indices|) - {k});
    |greater|
  }

  /**
   Every removal is at its position from the greatest index down, or names the array of the removal there by the same
   text.
   */
  predicate Sortable(tags: seq<Removal>, indices: seq<nat>)
    requires |tags| == |indices|
  {
    forall k :: 0 <= k < |tags| ==> Rank(indices, k) == k || SameArray(tags[k], tags[Rank(indices, k)])
  }

  /** The indices are in range, and no two are the same. */
  predicate DistinctBelow(indices: seq<nat>, n: nat) {
    && (forall i :: i in indices ==> i < n)
    && (forall a, b :: 0 <= a < b < |indices| ==> indices[a] != indices[b])
  }

  ghost predicate RemoveElementsOf(ops: seq<Operation<Json>>, front: seq<Segment>, key: string, indices: seq<nat>) {
    |ops| == |indices| && forall j :: 0 <= j < |ops| ==> RemovesElement(ops[j], front, key, indices[j])
  }

  lemma {:induction false} EntriesCount(pi: seq<nat>)
    requires forall a, b :: 0 <= a < b < |pi| ==> pi[a] != pi[b]
    ensures |Entries(pi)| == |pi|
  {
    if pi == [] {
      assert Entries(pi) == {};
    } else {
      var n := |pi| - 1;
      EntriesCount(pi[..n]);
      assert pi == pi[..n] + [pi[n]];
      assert Entries(pi) == Entries(pi[..n]) + {pi[n]};
    }
  }

  lemma RankWhenDescending(indices: seq<nat>, pi: seq<nat>, a: nat)
    requires Arrangement(pi, |indices|) && DownTo(Arrange(indices, pi)) && a < |pi|
    ensures Rank(indices, pi[a]) == a
  {
    var r := Arrange(indices, pi);
    var greater := set j | 0 <= j < |indices| && indices[j] > indices[pi[a]];
    forall b, c | 0 <= b < c < |pi| ensures pi[b] != pi[c] {
      assert r[b] > r[c];
    }
    EntriesCount(pi[..a]);
    forall j ensures j in greater <==> j in Entries(pi[..a]) {
      if j in greater {
        assert j in pi;
        var b :| 0 <= b < |pi| && pi[b] == j;
        assert r[b] > r[a];
        assert b < a;
        assert pi[..a][b] == j;
      }
      if j in Entries(pi[..a]) {
        var b :| 0 <= b < a && pi[..a][b] == j;
        assert r[b] > r[a];
      }
    }
    assert greater == Entries(pi[..a]);
  }

  lemma DescendingExists(indices: seq<nat>) returns (pi: seq<nat>)
    requires forall a, b :: 0 <= a < b < |indices| ==> indices[a] != indices[b]
    ensures Arrangement(pi, |indices|) && DownTo(Arrange(indices, pi))
  {
    var infos := seq(|indices|, i requires 0 <= i < |indices| => RemoveInfo("", indices[i], i));
    var sorted := SortDown(infos);
    forall a | 0 <= a < |sorted| ensures sorted[a].opIndex < |indices|
        && indices[sorted[a].opIndex] == sorted[a].index {
      assert sorted[a] in sorted;
    }
    pi := OpIndices(sorted);
    forall k | 0 <= k < |indices| ensures k in pi {
      assert infos[k] in sorted;
      var a :| 0 <= a < |sorted| && sorted[a] == infos[k];
      assert pi[a] == k;
    }
  }

  /** A reordering descends if and only if the batch is sortable. */
  lemma DescendsIffSortable(tags: seq<Removal>, indices: seq<nat>, pi: seq<nat>)
    requires |tags| == |indices| && Ordered(tags, pi)
    requires forall k :: 0 <= k < |tags| && tags[k].Removal? ==> tags[k].index == indices[k]
    requires forall a, b :: 0 <= a < b < |indices| ==> indices[a] != indices[b]
    ensures DownTo(Arrange(indices, pi)) <==> Sortable(tags, indices)
  {
    if DownTo(Arrange(indices, pi)) {
      forall k | 0 <= k < |tags| ensures Rank(indices, k) == k || SameArray(tags[k], tags[Rank(indices, k)]) {
        assert k in pi;
        var a :| 0 <= a < |pi| && pi[a] == k;
        RankWhenDescending(indices, pi, a);
      }
    }
    if Sortable(tags, indices) {
      var down := DescendingExists(indices);
      SortableOrdered(tags, indices, down);
      OrderedIsUnique(tags, pi, down, |tags|);
    }
  }

  lemma SortableOrdered(tags: seq<Removal>, indices: seq<nat>, pi: seq<nat>)
    requires |tags| == |indices| && Arrangement(pi, |indices|) && DownTo(Arrange(indices, pi))
        && Sortable(tags, indices)
    requires forall k :: 0 <= k < |tags| && tags[k].Removal? ==> tags[k].index == indices[k]
    ensures Ordered(tags, pi)
  {
    forall i | 0 <= i < |tags|
      ensures pi[i] == i || SameArray(tags[pi[i]], tags[i])
    {
      RankWhenDescending(indices, pi, i);
    }
    forall i, j | 0 <= i < j < |pi| && SameArray(tags[pi[i]], tags[pi[j]])
      ensures tags[pi[i]].index > tags[pi[j]].index
    {
      assert Arrange(indices, pi)[i] > Arrange(indices, pi)[j];
    }
  }

  lemma TagsHaveIndices(ops: seq<Operation<Json>>, front: seq<Segment>, key: string, indices: seq<nat>)
    requires RemoveElementsOf(ops, front, key, indices)
    ensures forall k :: 0 <= k < |ops| && Removals(ops)[k].Removal? ==> Removals(ops)[k].index == indices[k]
  {
    forall k | 0 <= k < |ops| && Removals(ops)[k].Removal? ensures Removals(ops)[k].index == indices[k] {
      SeenWithItsIndex(ops[k], front, key, indices[k]);
    }
  }

  /** Removals of distinct elements of one array are never taken for a repeated removal. */
  lemma DistinctNotRepeated(ops: seq<Operation<Json>>, front: seq<Segment>, key: string, indices: seq<nat>)
    requires RemoveElementsOf(ops, front, key, indices)
    requires forall a, b :: 0 <= a < b < |indices| ==> indices[a] != indices[b]
    ensures !HasDuplicate(Removals(ops))
  {
    TagsHaveIndices(ops, front, key, indices);
  }

  lemma ArrangedDistinct(indices: seq<nat>, pi: seq<nat>, n: nat)
    requires DistinctBelow(indices, n) && Arrangement(pi, |indices|)
    ensures DistinctBelow(Arrange(indices, pi), n)
  {
    var r := Arrange(indices, pi);
    ArrangementPermutes(indices, pi);
    forall i | i in r ensures i < n {
      var a :| 0 <= a < |r| && r[a] == i;
      assert indices[pi[a]] in indices;
    }
    forall a, b | 0 <= a < b < |r| ensures r[a] != r[b] {
      if r[a] == r[b] {
        assert r == r[..a] + [r[a]] + r[a + 1..b] + [r[b]] + r[b + 1..];
        assert multiset(r)[r[a]] >= 2;
        DistinctOnce(indices, r[a]);
      }
    }
  }

  lemma {:induction false} DistinctOnce(indices: seq<nat>, i: nat)
    requires forall a, b :: 0 <= a < b < |indices| ==> indices[a] != indices[b]
    ensures multiset(indices)[i] <= 1
  {
    if indices != [] {
      var n := |indices| - 1;
      DistinctOnce(indices[..n], i);
      assert indices == indices[..n] + [indices[n]];
    }
  }

  /**
   A batch that removes distinct elements of one array, in any order and whatever its paths look like: after the
   reordering it leaves exactly the elements that were not named, in order, and the rest of the dashboard as it
   was, if the batch is sortable; and, where the elements differ from each other, only then.
   */
  lemma BatchRemovesAllIffSortable(doc: Fields, front: seq<Segment>, key: string, items: seq<Json>,
                                   ops: seq<Operation<Json>>, indices: seq<nat>, reordered: seq<Operation<Json>>)
    requires HasArray(doc, front, key, items) && RemoveElementsOf(ops, front, key, indices)
    requires DistinctBelow(indices, |items|) && IsReordering(ops, reordered)
    ensures var right := ApplyBatch(doc, reordered) == Patched(WithArray(doc, front, key, Keep(items, SetOf(indices))));
            && (Sortable(Removals(ops), indices) ==> right)
            && (DistinctItems(items) ==> (right <==> Sortable(Removals(ops), indices)))
  {
    var tags := Removals(ops);
    var pi :| Ordered(tags, pi) && reordered == Arrange(ops, pi);
    var order := Arrange(indices, pi);
    TagsHaveIndices(ops, front, key, indices);
    DescendsIffSortable(tags, indices, pi);
    ArrangedSet(indices, pi);
    ArrangedDistinct(indices, pi, |items|);
    hide RemovalOf, ApplyBatch, Keep, SetOf, WithArray, Sortable, HasArray, RemovesElement, Ordered, DistinctItems;
    RemovalsRightIffDescending(doc, front, key, items, reordered, order);
  }

  /**
   Removals of distinct elements, applied in the order they are in, delete what they name if and only if they descend.
   */
  lemma RemovalsRightIffDescending(doc: Fields, front: seq<Segment>, key: string, items: seq<Json>,
                                   ops: seq<Operation<Json>>, order: seq<nat>)
    requires HasArray(doc, front, key, items) && RemoveElementsOf(ops, front, key, order)
        && DistinctBelow(order, |items|)
    ensures var right := ApplyBatch(doc, ops) == Patched(WithArray(doc, front, key, Keep(items, SetOf(order))));
            && (DownTo(order) ==> right)
            && (DistinctItems(items) ==> (right <==> DownTo(order)))
  {
    RemovalsRun(doc, front, key, items, ops, order);
    if DownTo(order) {
      DescendingDeletes(items, order);
    } else if DistinctItems(items) {
      SequentialIffDescending(items, order);
      hide HasArray, RemovesElement, WithArray, ApplyBatch, Keep, SetOf, DownTo, DistinctItems;
      match DeleteEach(items, order)
      case None =>
      case Some(rest) =>
        if rest != Keep(items, SetOf(order)) {
          WalksToArray(doc, front, key, items);
          WithArraysDiffer(doc, front, key, rest, Keep(items, SetOf(order)));
        }
    }
  }

  /** Paths without surrounding white space are sortable. */
  lemma TidyIsSortable(ops: seq<Operation<Json>>, front: seq<Segment>, key: string, indices: seq<nat>)
    requires RemoveElementsOf(ops, front, key, indices) && forall j :: 0 <= j < |ops| ==> Tidy(ops[j].path)
    ensures Sortable(Removals(ops), indices)
  {
    forall k | 0 <= k < |ops|
      ensures Removals(ops)[k] == Removal(ArrayPathTo(front + [Segment(key, 0, true, false)], |front| + 1), indices[k])
    {
      TidyRemoval(ops[k], front, key, indices[k]);
    }
  }

  lemma WithArraysDiffer(doc: Fields, front: seq<Segment>, key: string, a: seq<Json>, b: seq<Json>)
    requires Walk(doc, front).Done? && a != b
    ensures WithArray(doc, front, key, a) != WithArray(doc, front, key, b)
  {
    WithArrayTwice(doc, front, key, a, a);
    WithArrayTwice(doc, front, key, b, b);
  }

  lemma WalksToArray(doc: Fields, front: seq<Segment>, key: string, items: seq<Json>)
    requires HasArray(doc, front, key, items)
    ensures Walk(doc, front).Done?
  {
  }

  // ---------------------------------------------------------------- where the tidiness of paths is needed

  const BLANK_ROOT := Segment(" $", 0, false, false)

  lemma PieceShifts(segments: seq<Segment>, j: nat)
    requires j < |segments|
    ensures PathPiece([BLANK_ROOT] + segments, j + 1) == (if j == 0 then "." else "") + PathPiece(segments, j)
  {
    assert ([BLANK_ROOT] + segments)[j + 1] == segments[j];
  }

  lemma {:induction false} ArrayPathShifts(segments: seq<Segment>, n: nat)
    requires 0 < n <= |segments|
    ensures ArrayPathTo([BLANK_ROOT] + segments, n + 1) == " $." + ArrayPathTo(segments, n)
  {
    PieceShifts(segments, n - 1);
    var piece := PathPiece(segments, n - 1);
    var longer := [BLANK_ROOT] + segments;
    if n == 1 {
      assert ArrayPathTo(longer, 1) == "" + PathPiece(longer, 0);
      assert " $" + ("." + piece) == " $." + ("" + piece);
    } else {
      ArrayPathShifts(segments, n - 1);
      assert (" $." + ArrayPathTo(segments, n - 1)) + piece == " $." + (ArrayPathTo(segments, n - 1) + piece);
    }
  }

  lemma RemovalShifts(segments: seq<Segment>)
    requires RemovalAt(segments).Removal?
    ensures RemovalAt([BLANK_ROOT] + segments)
        == Removal(" $." + RemovalAt(segments).arrayPath, RemovalAt(segments).index)
  {
    var longer := [BLANK_ROOT] + segments;
    ArrayPathShifts(segments, |segments|);
    assert longer[|longer| - 1] == segments[|segments| - 1];
  }

  lemma ParseBlank(q: string)
    ensures Parse(" $." + q) == [BLANK_ROOT] + Parse(q)
  {
    var rest := "." + q;
    assert IsKey(" $");
    ParsePrinted(BLANK_ROOT, rest);
    assert ToString(BLANK_ROOT) + rest == " $." + q;
    assert rest[1..] == q;
  }

  lemma StripRoots(q: string)
    requires q != ""
    ensures StripRoot("$." + q) == q && StripRoot(" $." + q) == " $." + q
  {
    assert ("$." + q)[..2] == "$." && ("$." + q)[2..] == q;
    assert (" $." + q)[..2] == " $";
  }

  lemma TrimBlank(path: string)
    ensures Trim(" " + path) == Trim(path)
  {
    assert (" " + path)[1..] == path;
  }

  lemma ResolveBlank(path: string)
    ensures Resolve(" " + path) == Resolve(path)
  {
    TrimBlank(path);
  }

  /** A blank in front of a path changes nothing for the edit, but the reordering sees another array. */
  lemma BlankChangesArrayPath(op: Operation<Json>, blank: Operation<Json>, q: string)
    requires q != "" && op.path == "$." + q && op.op == blank.op == "remove" && blank.path == " " + op.path
    requires RemovalOf(op).Removal?
    ensures Resolve(blank.path) == Resolve(op.path)
    ensures RemovalOf(blank) == Removal(" $." + RemovalOf(op).arrayPath, RemovalOf(op).index)
  {
    hide *;
    var long := " $." + q;
    StripRoots(q);
    assert blank.path == long;
    ReadsText(op, q);
    ReadsText(blank, long);
    ParseBlank(q);
    RemovalShifts(Parse(q));
    ResolveBlank(op.path);
  }

  lemma ReadsText(op: Operation<Json>, text: string)
    requires op.op == "remove" && StripRoot(op.path) == text
    ensures RemovalOf(op) == RemovalAt(Parse(text))
  {
  }

  /** Two removals the reordering assigns to different arrays stay in the order they came in. */
  lemma StrangersStayPut(ops: seq<Operation<Json>>, reordered: seq<Operation<Json>>)
    requires |ops| == 2 && IsReordering(ops, reordered) && !SameArray(RemovalOf(ops[0]), RemovalOf(ops[1]))
    ensures reordered == ops
  {
    var tags := Removals(ops);
    var pi :| Ordered(tags, pi) && reordered == Arrange(ops, pi);
    StrangersOrdered(tags);
    OrderedIsUnique(tags, pi, [0, 1], 2);
  }

  lemma StrangersOrdered(tags: seq<Removal>)
    requires |tags| == 2 && !SameArray(tags[0], tags[1])
    ensures Ordered(tags, [0, 1])
  {
    assert [0, 1][0] == 0 && [0, 1][1] == 1;
  }

  /**
   Removals of the elements i < j of one array, the first written with a blank in front: the batch is
   not reordered, and its outcome is never the deletion of these two elements.
   */
  lemma UntidyBatchDeletesWrongElement(doc: Fields, front: seq<Segment>, key: string, items: seq<Json>,
                                       first: Operation<Json>, blank: Operation<Json>, second: Operation<Json>,
                                       q: string,
                                       order: seq<nat>, reordered: seq<Operation<Json>>)
    requires HasArray(doc, front, key, items) && DistinctItems(items)
    requires |order| == 2 && order[0] < order[1] < |items|
    requires RemovesElement(first, front, key, order[0]) && q != "" && first.path == "$." + q && Tidy(first.path)
    requires RemovesElement(second, front, key, order[1]) && Tidy(second.path)
    requires blank.op == "remove" && blank.path == " " + first.path
    requires IsReordering([blank, second], reordered)
    ensures ApplyBatch(doc, reordered) != Patched(WithArray(doc, front, key, Keep(items, SetOf(order))))
  {
    BlankPairNotSortable(front, key, first, blank, second, q, order);
    hide *;
    var ops := [blank, second];
    PairOf(ops, front, key, order);
    BatchRemovesAllIffSortable(doc, front, key, items, ops, order, reordered);
  }

  lemma PairOf(ops: seq<Operation<Json>>, front: seq<Segment>, key: string, order: seq<nat>)
    requires |ops| == |order| == 2 && order[0] < order[1]
    requires RemovesElement(ops[0], front, key, order[0]) && RemovesElement(ops[1], front, key, order[1])
    ensures RemoveElementsOf(ops, front, key, order) && DistinctBelow(order, order[1] + 1)
    ensures Removals(ops)[0] == RemovalOf(ops[0]) && Removals(ops)[1] == RemovalOf(ops[1])
  {
    hide RemovesElement, RemovalOf;
    assert forall i :: i in order ==> i == order[0] || i == order[1];
  }

  lemma BlankPairNotSortable(front: seq<Segment>, key: string, first: Operation<Json>, blank: Operation<Json>,
                             second: Operation<Json>, q: string, order: seq<nat>)
    requires |order| == 2 && order[0] < order[1]
    requires RemovesElement(first, front, key, order[0]) && q != "" && first.path == "$." + q && Tidy(first.path)
    requires RemovesElement(second, front, key, order[1]) && Tidy(second.path)
    requires blank.op == "remove" && blank.path == " " + first.path
    ensures RemovesElement(blank, front, key, order[0]) && !Sortable(Removals([blank, second]), order)
  {
    hide Resolve, RemovalOf, ArrayPathTo, Sortable, Tidy;
    TidyRemoval(first, front, key, order[0]);
    TidyRemoval(second, front, key, order[1]);
    BlankChangesArrayPath(first, blank, q);
    TwoTexts(RemovalOf(blank), RemovalOf(second));
    PairOf([blank, second], front, key, order);
    AscendingNotSortable(Removals([blank, second]), order);
  }

  lemma AscendingNotSortable(tags: seq<Removal>, order: seq<nat>)
    requires |tags| == |order| == 2 && order[0] < order[1] && !SameArray(tags[0], tags[1])
    ensures !Sortable(tags, order)
  {
    var greater := set j | 0 <= j < |order| && order[j] > order[0];
    assert greater == {1};
    assert Rank(order, 0) == 1;
  }

  // ---------------------------------------------------------------- two panels

  function Panel(i: nat): string {
    "panels[" + Show(i) + "]"
  }

  lemma PanelPrints(i: nat)
    requires i <= MAX_INDEX
    ensures Printable(Segment("panels", i, true, false)) && ToString(Segment("panels", i, true, false)) + "" == Panel(i)
    ensures Ends("") && Parse("") == []
  {
  }

  lemma PanelParses(i: nat)
    requires i <= MAX_INDEX
    ensures Parse(Panel(i)) == [Segment("panels", i, true, false)]
  {
    hide *;
    PanelPrints(i);
    ParsePrinted(Segment("panels", i, true, false), "");
  }

  lemma {:induction false} ContainsItsChars(s: string, t: string, c: char)
    requires Contains(s, t) && c in t
    ensures c in s
  {
    if !(t <= s) {
      ContainsItsChars(s[1..], t, c);
    }
  }

  lemma NoFilter(p: string)
    requires '?' !in p && '*' !in p
    ensures !Contains(p, "?(@") && !Contains(p, "?(") && !Contains(p, "[*]")
  {
    if Contains(p, "?(@") {
      ContainsItsChars(p, "?(@", '?');
    }
    if Contains(p, "?(") {
      ContainsItsChars(p, "?(", '?');
    }
    if Contains(p, "[*]") {
      ContainsItsChars(p, "[*]", '*');
    }
  }

  lemma PanelText(i: nat)
    ensures '?' !in Panel(i) && '*' !in Panel(i) && Panel(i) != "" && !IsSpace(Panel(i)[|Panel(i)| - 1])
  {
    forall c | c in Panel(i) ensures c != '?' && c != '*' {
      assert c in "panels[" || c in Show(i) || c == ']';
    }
  }

  lemma RootedIsTidy(q: string)
    requires q != "" && !IsSpace(q[|q| - 1])
    ensures Trim("$." + q) == "$." + q
  {
    var path := "$." + q;
    assert path[|path| - 1] == q[|q| - 1] && path[0] == '$' && !IsSpace('$');
    hide IsSpace;
  }

  lemma TextResolves(q: string)
    requires Parse(q) != [] && '?' !in q && '*' !in q && q != "" && !IsSpace(q[|q| - 1])
    ensures Resolve("$." + q) == Done(Parse(q)) && Tidy("$." + q)
  {
    hide Contains, Parse, StripRoot, Trim, IsSpace;
    NoFilter(q);
    StripRoots(q);
    RootedIsTidy(q);
  }

  lemma PanelResolves(i: nat)
    requires i <= MAX_INDEX
    ensures Resolve("$." + Panel(i)) == Done([Segment("panels", i, true, false)]) && Tidy("$." + Panel(i))
  {
    hide *;
    PanelParses(i);
    PanelText(i);
    TextResolves(Panel(i));
  }

  lemma PanelRemoved(op: Operation<Json>, i: nat)
    requires op.op == "remove" && i <= MAX_INDEX
    ensures op.path == "$." + Panel(i) ==> RemovesElement(op, [], "panels", i) && Tidy(op.path)
    ensures op.path == " " + ("$." + Panel(i)) ==> RemovesElement(op, [], "panels", i)
  {
    PanelResolves(i);
    ResolveBlank("$." + Panel(i));
    assert [] + [Segment("panels", i, true, false)] == [Segment("panels", i, true, false)];
  }

  /** Two panels are named, the first with a blank in front: the reordering leaves the batch as it is. */
  lemma BlankedPanels(first: Operation<Json>, ops: seq<Operation<Json>>, reordered: seq<Operation<Json>>, i: nat,
                      j: nat)
    requires i <= MAX_INDEX && j <= MAX_INDEX
    requires |ops| == 2 && first.op == ops[0].op == ops[1].op == "remove" && IsReordering(ops, reordered)
    requires first.path == "$." + Panel(i) && ops[0].path == " " + first.path && ops[1].path == "$." + Panel(j)
    ensures reordered == ops && RemovesElement(ops[0], [], "panels", i) && RemovesElement(ops[1], [], "panels", j)
  {
    hide *;
    PanelRemoved(first, i);
    PanelRemoved(ops[0], i);
    PanelRemoved(ops[1], j);
    TidyRemoval(first, [], "panels", i);
    TidyRemoval(ops[1], [], "panels", j);
    PanelText(i);
    BlankChangesArrayPath(first, ops[0], Panel(i));
    TwoTexts(RemovalOf(ops[0]), RemovalOf(ops[1]));
    StrangersStayPut(ops, reordered);
  }

  lemma TwoTexts(a: Removal, b: Removal)
    requires b.Removal? && a.Removal? && a.arrayPath == " $." + b.arrayPath
    ensures !SameArray(a, b)
  {
  }

  lemma FirstPanels()
    ensures " $.panels[0]" == " " + ("$." + Panel(0)) && "$.panels[1]" == "$." + Panel(1) && 1 <= MAX_INDEX
  {
  }

  /**
   The batch " $.panels[0]", "$.panels[1]" names the first two of three panels, and deletes the first and the last.
   */
  lemma BlankBeforeFirstPanel(a: Json, b: Json, c: Json, any: Json, reordered: seq<Operation<Json>>)
    requires IsReordering([Operation("remove", " $.panels[0]", any), Operation("remove", "$.panels[1]", any)],
                          reordered)
    ensures ApplyBatch(map["panels" := Arr([a, b, c])], reordered) == Patched(map["panels" := Arr([b])])
  {
    hide *;
    var ops := [Operation("remove", " $.panels[0]", any), Operation("remove", "$.panels[1]", any)];
    FirstPanels();
    BlankedPanels(Operation("remove", "$." + Panel(0), any), ops, reordered, 0, 1);
    PanelsRun([a, b, c], ops);
  }

  lemma TwoDeletions<T>(items: seq<T>)
    requires |items| == 3
    ensures DeleteEach(items, [0, 1]) == Some([items[1]])
  {
    var fewer := Delete(items, 0);
    assert Delete(fewer, 1) == [items[1]];
    assert [0, 1][1..] == [1] && [1][1..] == [];
    assert DeleteEach([items[1]], []) == Some([items[1]]);
    assert DeleteEach(fewer, [1]) == Some([items[1]]);
  }

  lemma PanelsRun(items: seq<Json>, ops: seq<Operation<Json>>)
    requires |items| == 3
    requires |ops| == 2 && RemovesElement(ops[0], [], "panels", 0) && RemovesElement(ops[1], [], "panels", 1)
    ensures ApplyBatch(map["panels" := Arr(items)], ops) == Patched(map["panels" := Arr([items[1]])])
  {
    hide ApplyBatch, RemovesElement, DeleteEach, Delete;
    var doc: Fields := map["panels" := Arr(items)];
    assert HasArray(doc, [], "panels", items);
    RemovalsRun(doc, [], "panels", items, ops, [0, 1]);
    TwoDeletions(items);
    assert WithArray(doc, [], "panels", [items[1]]) == doc["panels" := Arr([items[1]])];
  }

  // ---------------------------------------------------------------- an index in front of an append

  /** The index of `key[i]/-` is dropped. */
  lemma AppendDropsIndex(key: string, i: nat, rest: string)
    requires IsKey(key)
    ensures Match(key + ("[" + Show(i) + "]" + ("/-" + rest))) == (Segment(key, 0, true, true), rest)
  {
    IndexDigitsOf(Show(i), "/-" + rest);
    MatchKey(key, "[" + Show(i) + "]" + ("/-" + rest));
    assert ("/-" + rest)[2..] == rest;
  }

  /** And an append with an index is the append to the array itself. */
  lemma AppendIgnoresIndex(doc: Fields, front: seq<Segment>, key: string, edit: Edit)
    ensures Apply(doc, front + [Segment(key, 0, true, true)], edit)
        == Apply(doc, front + [Segment(key, 0, false, true)], edit)
  {
    var a, b := front + [Segment(key, 0, true, true)], front + [Segment(key, 0, false, true)];
    assert a[..|a| - 1] == front == b[..|b| - 1];
  }

  /** `$.panels[i]/-` appends to the panels, whatever `i` is. */
  lemma IndexedAppendGoesToThePanels(doc: Fields, items: seq<Json>, i: nat, value: Json)
    requires HasArray(doc, [], "panels", items)
    ensures ApplyPath(doc, "$." + (Panel(i) + "/-"), Set(value)) == Done(doc["panels" := Arr(items + [value])])
  {
    IndexedAppendResolves(i);
    var segments := [Segment("panels", 0, true, true)];
    assert segments[..0] == [];
  }

  lemma MatchedWhole(q: string, segment: Segment)
    requires q != "" && !IsSeparator(q[0]) && Match(q) == (segment, "")
    ensures Parse(q) == [segment]
  {
    hide Match;
    assert Parse("") == [];
  }

  lemma PanelPieces(i: nat)
    ensures Panel(i) + "/-" == "panels" + ("[" + Show(i) + "]" + ("/-" + ""))
    ensures var q := Panel(i) + "/-";
        q != "" && !IsSeparator(q[0]) && q[|q| - 1] == '-' && IsKey("panels") && !IsSpace('-')
  {
  }

  lemma IndexedAppendResolves(i: nat)
    ensures Resolve("$." + (Panel(i) + "/-")) == Done([Segment("panels", 0, true, true)])
  {
    hide *;
    var q := Panel(i) + "/-";
    PanelPieces(i);
    AppendDropsIndex("panels", i, "");
    MatchedWhole(q, Segment("panels", 0, true, true));
    PanelText(i);
    assert '?' !in q && '*' !in q;
    TextResolves(q);
  }
}
