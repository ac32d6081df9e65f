/**
 The dashboard as the program holds it (dashboard.go): map objects that refer to one another and are
 changed in place.  A patch walks references down to one object and changes a field of that object;
 here this is shown to be the edit of the JSON tree that `PatchApply` describes.
 */
module DashboardDocument {
  import opened Common
  import opened JsonPath
  import opened PatchOrder
  import opened PatchApply
  import opened PatchMeaning

  /** A value inside an object: a scalar, a slice, or a reference to a map object. */
  datatype Val = Leaf(text: string) | Items(items: seq<Val>) | Ref(id: nat)

  /** The map objects by address. */
  type Heap = map<nat, map<string, Val>>

  // ---------------------------------------------------------------- trees in the heap

  /** What hangs below a value: the addresses of its objects and the JSON tree they make up. */
  datatype View = View(nodes: set<nat>, tree: Json)

  ghost predicate DisjointItems(views: seq<Option<View>>) {
    && (forall i :: 0 <= i < |views| ==> views[i].Some?)
    && (forall i, j :: 0 <= i < j < |views| ==> views[i].value.nodes !! views[j].value.nodes)
  }

  ghost function ItemNodes(views: seq<Option<View>>): set<nat>
    requires forall i :: 0 <= i < |views| ==> views[i].Some?
  {
    set i, n | 0 <= i < |views| && n in views[i].value.nodes :: n
  }

  function ItemTrees(views: seq<Option<View>>): seq<Json>
    requires forall i :: 0 <= i < |views| ==> views[i].Some?
  {
    seq(|views|, i requires 0 <= i < |views| => views[i].value.tree)
  }

  ghost function JoinItems(views: seq<Option<View>>): Option<View> {
    if DisjointItems(views) then Some(View(ItemNodes(views), Arr(ItemTrees(views)))) else None
  }

  ghost predicate DisjointFields(views: map<string, Option<View>>) {
    && (forall k :: k in views ==> views[k].Some?)
    && (forall k, l :: k in views && l in views && k != l ==> views[k].value.nodes !! views[l].value.nodes)
  }

  ghost function FieldNodes(views: map<string, Option<View>>): set<nat>
    requires forall k :: k in views ==> views[k].Some?
  {
    set k, n | k in views && n in views[k].value.nodes :: n
  }

  function FieldTrees(views: map<string, Option<View>>): Fields
    requires forall k :: k in views ==> views[k].Some?
  {
    map k | k in views :: views[k].value.tree
  }

  ghost function JoinFields(id: nat, views: map<string, Option<View>>): Option<View> {
    if DisjointFields(views) then Some(View({id} + FieldNodes(views), Obj(FieldTrees(views)))) else None
  }

  /**
   The view of a value, if the objects below it lie between `low` and `high`, refer only to younger
   objects and are each referred to once.
   */
  ghost function Read(h: Heap, v: Val, low: int, high: int): Option<View>
    decreases high - low, 0, v
  {
    match v
    case Leaf(t) => Some(View({}, Scalar(t)))
    case Items(items) => JoinItems(ReadItems(h, items, low, high))
    case Ref(id) => if low < id < high && id in h then JoinFields(id, ReadFields(h, id, high)) else None
  }

  ghost function ReadItems(h: Heap, items: seq<Val>, low: int, high: int): (views: seq<Option<View>>)
    ensures |views| == |items| && forall i :: 0 <= i < |items| ==> views[i] == Read(h, items[i], low, high)
    decreases high - low, 0, items
  {
    if items == [] then [] else [Read(h, items[0], low, high)] + ReadItems(h, items[1..], low, high)
  }

  ghost function ReadFields(h: Heap, id: nat, high: int): (views: map<string, Option<View>>)
    requires id in h && id < high
    decreases high - id, 1
  {
    map k | k in h[id] :: Read(h, h[id][k], id, high)
  }

  lemma {:induction false} NodesInRange(h: Heap, v: Val, low: int, high: int)
    requires Read(h, v, low, high).Some?
    ensures forall n :: n in Read(h, v, low, high).value.nodes ==> low < n < high && n in h
    decreases high - low, v
  {
    match v
    case Leaf(_) =>
    case Items(items) =>
      forall i | 0 <= i < |items|
        ensures forall n :: n in ReadItems(h, items, low, high)[i].value.nodes ==> low < n < high && n in h
      {
        assert ReadItems(h, items, low, high)[i].Some?;
        NodesInRange(h, items[i], low, high);
      }
    case Ref(id) =>
      forall k | k in h[id]
        ensures forall n :: n in ReadFields(h, id, high)[k].value.nodes ==> low < n < high && n in h
      {
        assert ReadFields(h, id, high)[k].Some?;
        NodesInRange(h, h[id][k], id, high);
      }
  }

  ghost predicate AgreeOn(h1: Heap, h2: Heap, nodes: set<nat>) {
    forall n :: n in nodes ==> n in h1 && n in h2 && h1[n] == h2[n]
  }

  /** Where two heaps agree on the objects below a value, it means the same in both; the bounds may widen. */
  lemma {:induction false} Frame(h1: Heap, h2: Heap, v: Val, low: int, high: int, low2: int, high2: int)
    requires Read(h1, v, low, high).Some? && low2 <= low && high <= high2
    requires AgreeOn(h1, h2, Read(h1, v, low, high).value.nodes)
    ensures Read(h2, v, low2, high2) == Read(h1, v, low, high)
    decreases high - low, v
  {
    match v
    case Leaf(_) =>
    case Items(items) =>
      var views := ReadItems(h1, items, low, high);
      forall i | 0 <= i < |items|
        ensures Read(h2, items[i], low2, high2) == views[i]
      {
        assert views[i].value.nodes <= ItemNodes(views);
        Frame(h1, h2, items[i], low, high, low2, high2);
      }
      assert ReadItems(h2, items, low2, high2) == views;
    case Ref(id) =>
      var views := ReadFields(h1, id, high);
      assert id in Read(h1, v, low, high).value.nodes;
      forall k | k in h1[id]
        ensures Read(h2, h1[id][k], id, high2) == views[k]
      {
        assert views[k].value.nodes <= FieldNodes(views);
        Frame(h1, h2, h1[id][k], id, high, id, high2);
      }
      assert ReadFields(h2, id, high2) == views;
  }

  /** One field of an object gets a value that uses the old nodes of that field and fresh ones. */
  lemma FieldChange(id: nat, views: map<string, Option<View>>, key: string, w: View, young: set<nat>)
    requires DisjointFields(views)
    requires w.nodes <= young + (if key in views then views[key].value.nodes else {})
    requires young !! FieldNodes(views)
    ensures JoinFields(id, views[key := Some(w)]).Some?
    ensures var r := JoinFields(id, views[key := Some(w)]).value;
            r.nodes <= {id} + FieldNodes(views) + young && r.tree == Obj(FieldTrees(views)[key := w.tree])
  {
    var views2 := views[key := Some(w)];
    forall k | k in views && k != key
      ensures views[k].value.nodes !! w.nodes
    {
      assert views[k].value.nodes <= FieldNodes(views);
    }
    assert FieldTrees(views2) == FieldTrees(views)[key := w.tree];
  }

  lemma ItemChange(views: seq<Option<View>>, i: nat, w: View, young: set<nat>)
    requires DisjointItems(views) && i < |views|
    requires w.nodes <= young + views[i].value.nodes
    requires young !! ItemNodes(views)
    ensures JoinItems(views[i := Some(w)]).Some?
    ensures var r := JoinItems(views[i := Some(w)]).value;
            r.nodes <= ItemNodes(views) + young && r.tree == Arr(ItemTrees(views)[i := w.tree])
  {
    var views2 := views[i := Some(w)];
    forall j | 0 <= j < |views| && j != i
      ensures views[j].value.nodes !! w.nodes
    {
      assert views[j].value.nodes <= ItemNodes(views);
    }
    assert ItemTrees(views2) == ItemTrees(views)[i := w.tree];
  }

  // ---------------------------------------------------------------- walking references

  /** The slice a segment refers to in an object (`validateArrayAccess`). */
  function SliceAt(obj: map<string, Val>, seg: Segment): Result<seq<Val>> {
    if seg.key !in obj || !obj[seg.key].Items? then Failed(NotAnArray)
    else if !seg.isAppend && seg.index >= |obj[seg.key].items| then Failed(OutOfBounds)
    else Done(obj[seg.key].items)
  }

  /** The address one level down (`navigateSegment`). */
  function Follow(obj: map<string, Val>, seg: Segment): Result<nat> {
    if seg.isAppend then Failed(AppendNotFinal)
    else if seg.isArray then
      match SliceAt(obj, seg)
      case Failed(e) => Failed(e)
      case Done(items) => if items[seg.index].Ref? then Done(items[seg.index].id) else Failed(NotAnObject)
    else if seg.key in obj && obj[seg.key].Ref? then Done(obj[seg.key].id)
    else Failed(NotAnObject)
  }

  /** The address reached along all segments. */
  ghost function FollowAll(h: Heap, id: nat, segments: seq<Segment>): Result<nat>
    decreases |segments|
  {
    if segments == [] then Done(id)
    else if id !in h then Failed(NotAnObject)
    else match Follow(h[id], segments[0])
      case Failed(e) => Failed(e)
      case Done(child) => FollowAll(h, child, segments[1..])
  }

  ghost predicate IsObject(h: Heap, id: nat, low: int, high: int) {
    Read(h, Ref(id), low, high).Some?
  }

  ghost function NodesOf(h: Heap, id: nat, low: int, high: int): set<nat>
    requires IsObject(h, id, low, high)
  {
    Read(h, Ref(id), low, high).value.nodes
  }

  ghost function FieldsOf(h: Heap, id: nat, low: int, high: int): Fields
    requires IsObject(h, id, low, high)
  {
    FieldTrees(ReadFields(h, id, high))
  }

  lemma ObjectView(h: Heap, id: nat, low: int, high: int)
    requires IsObject(h, id, low, high)
    ensures id in h && low < id < high && DisjointFields(ReadFields(h, id, high))
    ensures NodesOf(h, id, low, high) == {id} + FieldNodes(ReadFields(h, id, high))
    ensures Read(h, Ref(id), low, high).value.tree == Obj(FieldsOf(h, id, low, high))
  {
  }

  lemma ObjectRead(h: Heap, id: nat, low: int, high: int, views: map<string, Option<View>>)
    requires id in h && low < id < high && views.Keys == h[id].Keys
    requires forall k :: k in h[id] ==> Read(h, h[id][k], id, high) == views[k]
    ensures ReadFields(h, id, high) == views
    ensures Read(h, Ref(id), low, high) == JoinFields(id, views)
  {
  }

  lemma AnyLow(h: Heap, id: nat, low: int, high: int)
    requires low < id
    ensures Read(h, Ref(id), low, high) == Read(h, Ref(id), id - 1, high)
  {
  }

  lemma FieldView(h: Heap, id: nat, low: int, high: int, key: string)
    requires IsObject(h, id, low, high) && key in h[id]
    ensures Read(h, h[id][key], id, high).Some?
    ensures Read(h, h[id][key], id, high).value.nodes <= NodesOf(h, id, low, high)
    ensures FieldsOf(h, id, low, high)[key] == Read(h, h[id][key], id, high).value.tree
  {
    ObjectView(h, id, low, high);
    assert ReadFields(h, id, high)[key].Some?;
  }

  lemma SliceView(h: Heap, items: seq<Val>, low: int, high: int)
    requires Read(h, Items(items), low, high).Some?
    ensures DisjointItems(ReadItems(h, items, low, high))
    ensures Read(h, Items(items), low, high).value
        == View(ItemNodes(ReadItems(h, items, low, high)), Arr(ItemTrees(ReadItems(h, items, low, high))))
  {
  }

  /** Following a reference is navigating the tree. */
  lemma FollowNavigates(h: Heap, id: nat, low: int, high: int, seg: Segment)
    requires IsObject(h, id, low, high)
    ensures Follow(h[id], seg).Failed? ==> Navigate(FieldsOf(h, id, low, high), seg) == Failed(Follow(h[id], seg).error)
    ensures Follow(h[id], seg).Done? ==>
              && seg.key in h[id] && IsObject(h, Follow(h[id], seg).value, id, high)
              && Navigate(FieldsOf(h, id, low, high), seg) == Done(FieldsOf(h, Follow(h[id], seg).value, id, high))
              && Read(h, h[id][seg.key], id, high).Some?
              && NodesOf(h, Follow(h[id], seg).value, id, high) <= Read(h, h[id][seg.key], id, high).value.nodes
              && NodesOf(h, Follow(h[id], seg).value, id, high) <= NodesOf(h, id, low, high)
  {
    if seg.key in h[id] {
      FieldView(h, id, low, high, seg.key);
      var v := h[id][seg.key];
      match v
      case Leaf(_) =>
      case Ref(child) => ObjectView(h, child, id, high);
      case Items(items) =>
        SliceView(h, items, id, high);
        if seg.index < |items| {
          var view := ReadItems(h, items, id, high)[seg.index];
          assert view.Some? && view.value.nodes <= ItemNodes(ReadItems(h, items, id, high));
          if items[seg.index].Ref? {
            ObjectView(h, items[seg.index].id, id, high);
          }
        }
    }
  }

  lemma {:induction false} FollowAllInside(h: Heap, id: nat, low: int, high: int, segments: seq<Segment>)
    requires IsObject(h, id, low, high)
    ensures FollowAll(h, id, segments).Failed? ==>
              Walk(FieldsOf(h, id, low, high), segments) == Failed(FollowAll(h, id, segments).error)
    ensures FollowAll(h, id, segments).Done? ==>
              var c := FollowAll(h, id, segments).value;
              && IsObject(h, c, c as int - 1, high) && c in NodesOf(h, id, low, high)
              && Walk(FieldsOf(h, id, low, high), segments) == Done(FieldsOf(h, c, c as int - 1, high))
              && NodesOf(h, c, c as int - 1, high) <= NodesOf(h, id, low, high)
    decreases |segments|
  {
    hide Read, ReadFields, ReadItems, Follow, Navigate, FieldTrees;
    ObjectView(h, id, low, high);
    AnyLow(h, id, low, high);
    if segments != [] {
      FollowNavigates(h, id, low, high, segments[0]);
      if Follow(h[id], segments[0]).Done? {
        FollowAllInside(h, Follow(h[id], segments[0]).value, id, high, segments[1..]);
      }
    }
  }

  // ---------------------------------------------------------------- changing one object

  /** The heaps differ in the object `c` and in objects that did not exist before. */
  ghost predicate ChangedAt(h: Heap, h2: Heap, c: nat) {
    forall n :: n in h && n != c ==> n in h2 && h2[n] == h[n]
  }

  /** A field that does not contain the changed object means what it meant. */
  lemma OtherFieldKept(h: Heap, h2: Heap, id: nat, low: int, high: int, high2: int, c: nat, key: string, other: string)
    requires IsObject(h, id, low, high) && high <= high2 && ChangedAt(h, h2, c)
    requires key in h[id] && other in h[id] && key != other
    requires Read(h, h[id][key], id, high).Some? && c in Read(h, h[id][key], id, high).value.nodes
    ensures Read(h2, h[id][other], id, high2) == Read(h, h[id][other], id, high)
  {
    ObjectView(h, id, low, high);
    FieldView(h, id, low, high, other);
    FieldView(h, id, low, high, key);
    var views := ReadFields(h, id, high);
    assert views[other].value.nodes !! views[key].value.nodes;
    NodesInRange(h, h[id][other], id, high);
    Frame(h, h2, h[id][other], id, high, id, high2);
  }

  lemma OtherItemsKept(h: Heap, h2: Heap, items: seq<Val>, low: int, high: int, high2: int, c: nat, i: nat)
    requires Read(h, Items(items), low, high).Some? && high <= high2 && ChangedAt(h, h2, c)
    requires i < |items| && c in ReadItems(h, items, low, high)[i].value.nodes
    ensures ReadItems(h2, items, low, high2) == ReadItems(h, items, low, high)[i := Read(h2, items[i], low, high2)]
  {
    hide Read, ReadItems;
    SliceView(h, items, low, high);
    var views := ReadItems(h, items, low, high);
    forall j | 0 <= j < |items| && j != i
      ensures Read(h2, items[j], low, high2) == views[j]
    {
      assert views[j].value.nodes !! views[i].value.nodes;
      NodesInRange(h, items[j], low, high);
      Frame(h, h2, items[j], low, high, low, high2);
    }
  }

  /** How a value on the path changes when the object below it has changed to `w`. */
  lemma SlotChanges(h: Heap, h2: Heap, id: nat, low: int, high: int, high2: int, c: nat, seg: Segment, w: View,
                    young: set<nat>)
    requires IsObject(h, id, low, high) && high <= high2 && ChangedAt(h, h2, c)
    requires id in h && Follow(h[id], seg).Done?
    requires var child := Follow(h[id], seg).value;
             IsObject(h, child, id, high) && c in NodesOf(h, child, id, high)
             && Read(h2, Ref(child), id, high2) == Some(w) && w.nodes <= NodesOf(h, child, id, high) + young
    requires young !! NodesOf(h, id, low, high)
    ensures Read(h2, h[id][seg.key], id, high2).Some? && Read(h, h[id][seg.key], id, high).Some?
    ensures var r := Read(h2, h[id][seg.key], id, high2).value;
            var field := Read(h, h[id][seg.key], id, high).value;
            && r.nodes <= field.nodes + young && c in field.nodes
            && r.tree == if seg.isArray then Arr(field.tree.items[seg.index := w.tree]) else w.tree
  {
    FollowNavigates(h, id, low, high, seg);
    var v := h[id][seg.key];
    if seg.isArray {
      var items := v.items;
      FieldView(h, id, low, high, seg.key);
      SliceView(h, items, id, high);
      var views := ReadItems(h, items, id, high);
      assert views[seg.index].value.nodes == NodesOf(h, items[seg.index].id, id, high);
      OtherItemsKept(h, h2, items, id, high, high2, c, seg.index);
      NodesInRange(h, v, id, high);
      ItemChange(views, seg.index, w, young);
    }
  }

  /** Changing the object reached along `segments` writes the tree at that location. */
  lemma {:induction false} ChangeBelow(h: Heap, h2: Heap, id: nat, low: int, high: int, high2: int,
                                       segments: seq<Segment>, c: nat, w: View, young: set<nat>)
    requires IsObject(h, id, low, high) && high <= high2 && ChangedAt(h, h2, c)
    requires FollowAll(h, id, segments) == Done(c) && IsObject(h, c, c as int - 1, high)
    requires Read(h2, Ref(c), c as int - 1, high2) == Some(w) && w.nodes <= NodesOf(h, c, c as int - 1, high) + young
    requires young !! NodesOf(h, id, low, high)
    ensures Read(h2, Ref(id), low, high2).Some?
    ensures Read(h2, Ref(id), low, high2).value.nodes <= NodesOf(h, id, low, high) + young
    ensures Lookup(Obj(FieldsOf(h, id, low, high)), LocationOf(segments)).Some?
    ensures Read(h2, Ref(id), low, high2).value.tree
        == Write(Obj(FieldsOf(h, id, low, high)), LocationOf(segments), w.tree)
    decreases |segments|
  {
    hide Read, ReadFields, ReadItems, Follow, Navigate, FieldTrees;
    ObjectView(h, id, low, high);
    AnyLow(h, id, low, high);
    AnyLow(h2, id, low, high2);
    if segments != [] {
      var seg := segments[0];
      var child := Follow(h[id], seg).value;
      FollowNavigates(h, id, low, high, seg);
      FollowAllInside(h, child, id, high, segments[1..]);
      ObjectView(h, child, id, high);
      NodesInRange(h, Ref(child), id, high);
      ChangeBelow(h, h2, child, id, high, high2, segments[1..], c, w, young);
      var w2 := Read(h2, Ref(child), id, high2).value;
      SlotChanges(h, h2, id, low, high, high2, c, seg, w2, young);
      ObjectChanges(h, h2, id, low, high, high2, c, seg.key, young);
      WriteAlong(FieldsOf(h, id, low, high), seg, segments[1..], w.tree);
      FieldView(h, id, low, high, seg.key);
    }
  }

  /** How an object on the path changes with its field `key`. */
  lemma ObjectChanges(h: Heap, h2: Heap, id: nat, low: int, high: int, high2: int, c: nat, key: string, young: set<nat>)
    requires IsObject(h, id, low, high) && high <= high2 && ChangedAt(h, h2, c) && id != c && key in h[id]
    requires Read(h, h[id][key], id, high).Some? && c in Read(h, h[id][key], id, high).value.nodes
    requires Read(h2, h[id][key], id, high2).Some?
    requires Read(h2, h[id][key], id, high2).value.nodes <= Read(h, h[id][key], id, high).value.nodes + young
    requires young !! NodesOf(h, id, low, high)
    ensures Read(h2, Ref(id), low, high2).Some?
    ensures Read(h2, Ref(id), low, high2).value.nodes <= NodesOf(h, id, low, high) + young
    ensures Read(h2, Ref(id), low, high2).value.tree
        == Obj(FieldsOf(h, id, low, high)[key := Read(h2, h[id][key], id, high2).value.tree])
  {
    hide Read, ReadFields;
    ObjectView(h, id, low, high);
    FieldsKnown(h, id, high);
    var views := ReadFields(h, id, high);
    var r := Read(h2, h[id][key], id, high2).value;
    forall k | k in h[id] && k != key
      ensures Read(h2, h[id][k], id, high2) == views[k]
    {
      OtherFieldKept(h, h2, id, low, high, high2, c, key, k);
    }
    NodesInRange(h, Ref(id), low, high);
    ObjectRead(h2, id, low, high2, views[key := Some(r)]);
    FieldChange(id, views, key, r, young);
  }

  lemma FieldsKnown(h: Heap, id: nat, high: int)
    requires id in h && id < high
    ensures ReadFields(h, id, high).Keys == h[id].Keys
    ensures forall k :: k in h[id] ==> ReadFields(h, id, high)[k] == Read(h, h[id][k], id, high)
  {
  }

  /** Writing at a location that starts with the steps of a navigable segment. */
  lemma WriteAlong(fields: Fields, seg: Segment, rest: seq<Segment>, v: Json)
    requires Navigate(fields, seg).Done?
    requires Lookup(Obj(Navigate(fields, seg).value), LocationOf(rest)).Some?
    ensures Lookup(Obj(fields), StepsOf(seg) + LocationOf(rest)).Some?
    ensures var below := Write(Obj(Navigate(fields, seg).value), LocationOf(rest), v);
            Write(Obj(fields), StepsOf(seg) + LocationOf(rest), v)
              == Obj(fields[seg.key := if seg.isArray then Arr(fields[seg.key].items[seg.index := below]) else below])
  {
    var tail := LocationOf(rest);
    StepLooksUp(fields, seg);
    LookupAppend(Obj(fields), StepsOf(seg), tail);
    hide LocationOf, Lookup;
    if seg.isArray {
      WriteInArray(fields[seg.key], seg.index, tail, v);
      assert StepsOf(seg) + tail == [Field(seg.key)] + ([Elem(seg.index)] + tail);
      WriteInField(fields, seg.key, [Elem(seg.index)] + tail, v);
    } else {
      assert StepsOf(seg) + tail == [Field(seg.key)] + tail;
      WriteInField(fields, seg.key, tail, v);
    }
  }

  lemma WriteInField(fields: Fields, key: string, tail: seq<Step>, v: Json)
    requires key in fields && Lookup(Obj(fields), [Field(key)] + tail).Some?
    ensures Lookup(fields[key], tail).Some?
    ensures Write(Obj(fields), [Field(key)] + tail, v) == Obj(fields[key := Write(fields[key], tail, v)])
  {
    assert ([Field(key)] + tail)[1..] == tail;
  }

  lemma WriteInArray(j: Json, index: nat, tail: seq<Step>, v: Json)
    requires j.Arr? && index < |j.items| && Lookup(j, [Elem(index)] + tail).Some?
    ensures Lookup(j.items[index], tail).Some?
    ensures Write(j, [Elem(index)] + tail, v) == Arr(j.items[index := Write(j.items[index], tail, v)])
  {
    assert ([Elem(index)] + tail)[1..] == tail;
  }

  // ---------------------------------------------------------------- the last segment

  /** The changed object after an edit of its own field or slice (`setAtSegment`, `removeAtSegment`). */
  function EditObject(obj: map<string, Val>, seg: Segment, value: Option<Val>): Result<map<string, Val>> {
    match value
    case None =>
      if seg.isAppend then Failed(CannotRemoveAppend)
      else if seg.isArray then
        match SliceAt(obj, seg)
        case Failed(e) => Failed(e)
        case Done(items) => Done(obj[seg.key := Items(Delete(items, seg.index))])
      else Done(obj - {seg.key})
    case Some(v) =>
      if seg.isAppend then
        match SliceAt(obj, seg)
        case Failed(e) => Failed(e)
        case Done(items) => Done(obj[seg.key := Items(items + [v])])
      else if seg.isArray then
        match SliceAt(obj, seg)
        case Failed(e) => Failed(e)
        case Done(items) => Done(obj[seg.key := Items(items[seg.index := v])])
      else Done(obj[seg.key := v])
  }

  /** The value to be inserted is allocated apart from the dashboard. */
  ghost predicate Inserted(h: Heap, value: Option<Val>, edit: Edit, low: int, high: int) {
    match edit
    case Remove => value.None?
    case Set(j) =>
      && value.Some? && Read(h, value.value, low, high).Some?
      && Read(h, value.value, low, high).value.tree == j
  }

  lemma SliceTree(h: Heap, items: seq<Val>, low: int, high: int, views: seq<Option<View>>)
    requires ReadItems(h, items, low, high) == views && DisjointItems(views)
    ensures Read(h, Items(items), low, high) == Some(View(ItemNodes(views), Arr(ItemTrees(views))))
  {
  }

  lemma DeleteSlice(h: Heap, items: seq<Val>, low: int, high: int, i: nat)
    requires Read(h, Items(items), low, high).Some? && i < |items|
    ensures Read(h, Items(Delete(items, i)), low, high).Some?
    ensures Read(h, Items(Delete(items, i)), low, high).value.nodes <= Read(h, Items(items), low, high).value.nodes
    ensures Read(h, Items(Delete(items, i)), low, high).value.tree
        == Arr(Delete(ItemTrees(ReadItems(h, items, low, high)), i))
  {
    SliceView(h, items, low, high);
    var views := ReadItems(h, items, low, high);
    DeleteKeeps(items, i);
    DeleteKeeps(views, i);
    assert ReadItems(h, Delete(items, i), low, high) == Delete(views, i);
    DeleteViews(views, i);
    SliceTree(h, Delete(items, i), low, high, Delete(views, i));
  }

  lemma DeleteViews(views: seq<Option<View>>, i: nat)
    requires DisjointItems(views) && i < |views|
    ensures DisjointItems(Delete(views, i))
    ensures ItemNodes(Delete(views, i)) <= ItemNodes(views)
    ensures ItemTrees(Delete(views, i)) == Delete(ItemTrees(views), i)
  {
    var fewer := Delete(views, i);
    DeleteKeeps(views, i);
    DeleteKeeps(ItemTrees(views), i);
    hide Delete;
    forall n | n in ItemNodes(fewer)
      ensures n in ItemNodes(views)
    {
      var a :| 0 <= a < |fewer| && n in fewer[a].value.nodes;
      assert fewer[a] == views[if a < i then a else a + 1];
    }
  }

  lemma AppendSlice(h: Heap, items: seq<Val>, v: Val, low: int, high: int)
    requires Read(h, Items(items), low, high).Some? && Read(h, v, low, high).Some?
    requires Read(h, Items(items), low, high).value.nodes !! Read(h, v, low, high).value.nodes
    ensures Read(h, Items(items + [v]), low, high).Some?
    ensures Read(h, Items(items + [v]), low, high).value.nodes
         <= Read(h, Items(items), low, high).value.nodes + Read(h, v, low, high).value.nodes
    ensures Read(h, Items(items + [v]), low, high).value.tree
         == Arr(ItemTrees(ReadItems(h, items, low, high)) + [Read(h, v, low, high).value.tree])
  {
    SliceView(h, items, low, high);
    var views := ReadItems(h, items, low, high);
    var more := views + [Read(h, v, low, high)];
    assert ReadItems(h, items + [v], low, high) == more;
    forall a | 0 <= a < |views|
      ensures views[a].value.nodes !! more[|views|].value.nodes
    {
      assert views[a].value.nodes <= ItemNodes(views);
    }
    SliceTree(h, items + [v], low, high, more);
    assert ItemTrees(more) == ItemTrees(views) + [Read(h, v, low, high).value.tree];
  }

  lemma ReplaceInSlice(h: Heap, items: seq<Val>, v: Val, low: int, high: int, i: nat)
    requires Read(h, Items(items), low, high).Some? && Read(h, v, low, high).Some? && i < |items|
    requires Read(h, Items(items), low, high).value.nodes !! Read(h, v, low, high).value.nodes
    ensures Read(h, Items(items[i := v]), low, high).Some?
    ensures Read(h, Items(items[i := v]), low, high).value.nodes
         <= Read(h, Items(items), low, high).value.nodes + Read(h, v, low, high).value.nodes
    ensures Read(h, Items(items[i := v]), low, high).value.tree
         == Arr(ItemTrees(ReadItems(h, items, low, high))[i := Read(h, v, low, high).value.tree])
  {
    SliceView(h, items, low, high);
    var views := ReadItems(h, items, low, high);
    var w := Read(h, v, low, high).value;
    assert ReadItems(h, items[i := v], low, high) == views[i := Some(w)];
    ItemChange(views, i, w, w.nodes);
  }

  /** An object after one of its fields got a value that uses its old nodes and `young` ones. */
  lemma FieldSet(h: Heap, id: nat, low: int, high: int, key: string, v: Val, young: set<nat>)
    requires IsObject(h, id, low, high) && Read(h, v, id, high).Some?
    requires Read(h, v, id, high).value.nodes <= young + FieldPart(h, id, low, high, key)
    requires young !! NodesOf(h, id, low, high)
    ensures IsObject(h[id := h[id][key := v]], id, low, high)
    ensures NodesOf(h[id := h[id][key := v]], id, low, high) <= NodesOf(h, id, low, high) + young
    ensures FieldsOf(h[id := h[id][key := v]], id, low, high)
        == FieldsOf(h, id, low, high)[key := Read(h, v, id, high).value.tree]
  {
    hide Read, ReadFields;
    ObjectView(h, id, low, high);
    var h2 := h[id := h[id][key := v]];
    var w := Read(h, v, id, high).value;
    FieldsKnown(h, id, high);
    var views := ReadFields(h, id, high);
    forall k | k in h[id]
      ensures Read(h2, h[id][k], id, high) == views[k]
    {
      FieldView(h, id, low, high, k);
      NodesInRange(h, h[id][k], id, high);
      Frame(h, h2, h[id][k], id, high, id, high);
    }
    NodesInRange(h, v, id, high);
    Frame(h, h2, v, id, high, id, high);
    ObjectRead(h2, id, low, high, views[key := Some(w)]);
    FieldChange(id, views, key, w, young);
    assert FieldTrees(views[key := Some(w)]) == FieldTrees(views)[key := w.tree];
  }

  ghost function FieldPart(h: Heap, id: nat, low: int, high: int, key: string): set<nat>
    requires IsObject(h, id, low, high)
  {
    ObjectView(h, id, low, high);
    if key in h[id] then
      FieldView(h, id, low, high, key);
      Read(h, h[id][key], id, high).value.nodes
    else {}
  }

  lemma FieldRemoved(h: Heap, id: nat, low: int, high: int, key: string)
    requires IsObject(h, id, low, high)
    ensures IsObject(h[id := h[id] - {key}], id, low, high)
    ensures NodesOf(h[id := h[id] - {key}], id, low, high) <= NodesOf(h, id, low, high)
    ensures FieldsOf(h[id := h[id] - {key}], id, low, high) == FieldsOf(h, id, low, high) - {key}
  {
    hide Read, ReadFields;
    ObjectView(h, id, low, high);
    var h2 := h[id := h[id] - {key}];
    FieldsKnown(h, id, high);
    var views := ReadFields(h, id, high);
    forall k | k in h[id]
      ensures Read(h2, h[id][k], id, high) == views[k]
    {
      FieldView(h, id, low, high, k);
      NodesInRange(h, h[id][k], id, high);
      Frame(h, h2, h[id][k], id, high, id, high);
    }
    ObjectRead(h2, id, low, high, views - {key});
    assert FieldTrees(views - {key}) == FieldTrees(views) - {key};
    assert FieldNodes(views - {key}) <= FieldNodes(views);
  }

  /** A slice in an object and the array in its tree. */
  lemma SliceMatches(h: Heap, id: nat, low: int, high: int, seg: Segment)
    requires IsObject(h, id, low, high) && id in h
    ensures SliceAt(h[id], seg).Failed? ==>
        ArrayAt(FieldsOf(h, id, low, high), seg) == Failed(SliceAt(h[id], seg).error)
    ensures SliceAt(h[id], seg).Done? ==>
              && seg.key in h[id] && h[id][seg.key] == Items(SliceAt(h[id], seg).value)
              && Read(h, h[id][seg.key], id, high).Some?
              && ArrayAt(FieldsOf(h, id, low, high), seg)
                  == Done(ItemTrees(ReadItems(h, SliceAt(h[id], seg).value, id, high)))
  {
    if seg.key in h[id] {
      FieldView(h, id, low, high, seg.key);
      match h[id][seg.key]
      case Leaf(_) =>
      case Items(items) => SliceView(h, items, id, high);
      case Ref(child) => ObjectView(h, child, id, high);
    }
  }

  ghost function InsertedNodes(h: Heap, value: Option<Val>, low: int, high: int): set<nat> {
    if value.Some? && Read(h, value.value, low, high).Some? then Read(h, value.value, low, high).value.nodes else {}
  }

  /** Editing an object in place is editing the fields of its tree. */
  lemma EditMatches(h: Heap, id: nat, low: int, high: int, seg: Segment, value: Option<Val>, edit: Edit)
    requires IsObject(h, id, low, high) && id in h && Inserted(h, value, edit, id, high)
    requires InsertedNodes(h, value, id, high) !! NodesOf(h, id, low, high)
    ensures EditObject(h[id], seg, value).Failed? ==>
              Final(FieldsOf(h, id, low, high), seg, edit) == Failed(EditObject(h[id], seg, value).error)
    ensures EditObject(h[id], seg, value).Done? ==>
              var h2 := h[id := EditObject(h[id], seg, value).value];
              && IsObject(h2, id, low, high)
              && NodesOf(h2, id, low, high) <= NodesOf(h, id, low, high) + InsertedNodes(h, value, id, high)
              && Final(FieldsOf(h, id, low, high), seg, edit) == Done(FieldsOf(h2, id, low, high))
  {
    var young := InsertedNodes(h, value, id, high);
    hide Read, ReadFields, ReadItems, FieldTrees, ItemTrees, Delete;
    if seg.isAppend || seg.isArray {
      SliceMatches(h, id, low, high, seg);
      if SliceAt(h[id], seg).Done? {
        var items := SliceAt(h[id], seg).value;
        FieldView(h, id, low, high, seg.key);
        SliceView(h, items, id, high);
        if value.Some? && seg.isAppend {
          AppendSlice(h, items, value.value, id, high);
          FieldSet(h, id, low, high, seg.key, Items(items + [value.value]), young);
        } else if value.Some? {
          ReplaceInSlice(h, items, value.value, id, high, seg.index);
          FieldSet(h, id, low, high, seg.key, Items(items[seg.index := value.value]), young);
        } else if !seg.isAppend {
          DeleteSlice(h, items, id, high, seg.index);
          FieldSet(h, id, low, high, seg.key, Items(Delete(items, seg.index)), young);
        }
      }
    } else if value.Some? {
      FieldSet(h, id, low, high, seg.key, value.value, young);
    } else {
      FieldRemoved(h, id, low, high, seg.key);
    }
  }

  // ---------------------------------------------------------------- the document

  ghost predicate Bounded(h: Heap, next: nat) {
    forall n :: n in h ==> n < next
  }

  /** Old objects are untouched. */
  ghost predicate Grown(h1: Heap, h2: Heap, next1: nat, next2: nat) {
    next1 <= next2 && forall n :: n in h1 ==> n in h2 && h2[n] == h1[n]
  }

  /** A value laid out after `kept` leaves it alone and shares no object with it. */
  lemma StoredBeside(before: Heap, after: Heap, kept: Val, v: Val, lowKept: int, low: nat, next: nat)
    requires Grown(before, after, low, next) && lowKept < low
    requires Read(before, kept, lowKept, low).Some? && Read(after, v, low - 1, next).Some?
    ensures Read(after, kept, lowKept, next) == Read(before, kept, lowKept, low)
    ensures Read(after, v, lowKept, next) == Read(after, v, low - 1, next)
    ensures Read(before, kept, lowKept, low).value.nodes !! Read(after, v, low - 1, next).value.nodes
    ensures forall n :: n in Read(before, kept, lowKept, low).value.nodes ==> n < low
  {
    hide Read;
    NodesInRange(before, kept, lowKept, low);
    NodesInRange(after, v, low - 1, next);
    Frame(before, after, kept, lowKept, low, lowKept, next);
    Frame(after, after, v, low - 1, next, lowKept, next);
  }

  lemma LowerBound(h: Heap, v: Val, low: int, low2: int, high: int)
    requires Read(h, v, low, high).Some? && low2 <= low
    ensures Read(h, v, low2, high) == Read(h, v, low, high)
    ensures forall n :: n in Read(h, v, low, high).value.nodes ==> n > low
  {
    NodesInRange(h, v, low, high);
    Frame(h, h, v, low, high, low2, high);
  }

  lemma ObjectFromTree(h: Heap, v: Val, low: int, high: int, fields: Fields)
    requires Read(h, v, low, high).Some? && Read(h, v, low, high).value.tree == Obj(fields)
    ensures v.Ref? && IsObject(h, v.id, low, high) && FieldsOf(h, v.id, low, high) == fields
  {
    match v
    case Leaf(_) =>
    case Items(items) => SliceView(h, items, low, high);
    case Ref(id) => ObjectView(h, id, low, high);
  }

  lemma EmptyObject(h: Heap, id: nat, high: int)
    requires id in h && h[id] == map[] && id < high
    ensures IsObject(h, id, id - 1, high) && FieldsOf(h, id, id - 1, high) == map[]
  {
    assert ReadFields(h, id, high) == map[];
  }

  lemma SameObject(before: Heap, after: Heap, id: nat, low: int, high1: int, high2: int)
    requires IsObject(before, id, low, high1) && Read(after, Ref(id), low, high2) == Read(before, Ref(id), low, high1)
    ensures FieldsOf(after, id, low, high2) == FieldsOf(before, id, low, high1)
    ensures NodesOf(after, id, low, high2) == NodesOf(before, id, low, high1)
  {
    ObjectView(before, id, low, high1);
    ObjectView(after, id, low, high2);
  }

  lemma InsertedBelow(h: Heap, value: Option<Val>, edit: Edit, low: int, current: nat, high: int)
    requires Inserted(h, value, edit, low, high) && current <= low
    ensures Inserted(h, value, edit, current, high)
    ensures forall n :: n in InsertedNodes(h, value, current, high) ==> n > low
  {
    if value.Some? {
      LowerBound(h, value.value, low, current, high);
    }
  }

  /** An edit of the object reached along a path, seen from the root. */
  lemma DocumentChanges(before: Heap, after: Heap, root: nat, high: int, front: seq<Segment>, current: nat,
                        young: set<nat>)
    requires IsObject(before, root, -1, high) && FollowAll(before, root, front) == Done(current)
    requires IsObject(before, current, current as int - 1, high) && IsObject(after, current, current as int - 1, high)
    requires ChangedAt(before, after, current)
    requires NodesOf(after, current, current as int - 1, high)
        <= NodesOf(before, current, current as int - 1, high) + young
    requires young !! NodesOf(before, root, -1, high)
    ensures IsObject(after, root, -1, high)
    ensures Lookup(Obj(FieldsOf(before, root, -1, high)), LocationOf(front)).Some?
    ensures FieldsOf(after, root, -1, high)
         == WriteObject(FieldsOf(before, root, -1, high), LocationOf(front),
                        FieldsOf(after, current, current as int - 1, high))
  {
    var w := Read(after, Ref(current), current as int - 1, high).value;
    ObjectView(after, current, current as int - 1, high);
    ChangeBelow(before, after, root, -1, high, high, front, current, w, young);
    ObjectView(after, root, -1, high);
    WriteObjectIs(FieldsOf(before, root, -1, high), LocationOf(front),
                  FieldsOf(after, current, current as int - 1, high));
  }

  /** The heap with a freshly stored value as field `k` of the object `id`. */
  lemma FieldAdded(before: Heap, h: Heap, low: nat, high: nat, id: nat, k: string, item: Val)
    requires Grown(before, h, low, high) && id < low && id in h
    requires IsObject(before, id, id as int - 1, low) && Read(h, item, low - 1, high).Some?
    ensures IsObject(h[id := h[id][k := item]], id, id as int - 1, high)
    ensures FieldsOf(h[id := h[id][k := item]], id, id as int - 1, high)
         == FieldsOf(before, id, id as int - 1, low)[k := Read(h, item, low - 1, high).value.tree]
  {
    hide Read, ReadItems, ReadFields, ItemTrees, FieldTrees;
    ObjectView(before, id, id as int - 1, low);
    StoredBeside(before, h, Ref(id), item, id as int - 1, low, high);
    SameObject(before, h, id, id as int - 1, low, high);
    LowerBound(h, item, low - 1, id, high);
    FieldSet(h, id, id as int - 1, high, k, item, Read(h, item, id, high).value.nodes);
  }

  lemma EmptySlice(h: Heap, low: int, high: int)
    ensures Read(h, Items([]), low, high).Some? && Read(h, Items([]), low, high).value.tree == Arr([])
  {
  }

  /** A slice of stored items with a freshly stored one more. */
  lemma ItemAdded(before: Heap, h: Heap, vs: seq<Val>, item: Val, start: int, low: nat, high: nat, items: seq<Json>,
                  i: nat)
    requires Grown(before, h, low, high) && start < low && i < |items|
    requires Read(before, Items(vs), start, low).Some?
        && Read(before, Items(vs), start, low).value.tree == Arr(items[..i])
    requires Read(h, item, low - 1, high).Some? && Read(h, item, low - 1, high).value.tree == items[i]
    ensures Read(h, Items(vs + [item]), start, high).Some?
    ensures Read(h, Items(vs + [item]), start, high).value.tree == Arr(items[..i + 1])
  {
    hide Read, ReadItems, ReadFields, ItemTrees, FieldTrees;
    StoredBeside(before, h, Items(vs), item, start, low, high);
    AppendSlice(h, vs, item, start, high);
    SliceView(h, vs, start, high);
    assert items[..i + 1] == items[..i] + [items[i]];
  }

  lemma FieldsLeft(fields: Fields, todo: set<string>, k: string)
    requires todo <= fields.Keys && k in todo
    ensures (fields - todo)[k := fields[k]] == fields - (todo - {k})
  {
  }

  class Document {
    var heap: Heap
    var root: nat
    var next: nat

    ghost predicate Valid()
      reads this
    {
      IsObject(heap, root, -1, next) && Bounded(heap, next)
    }

    /** The dashboard as a JSON object. */
    ghost function Contents(): Fields
      requires Valid()
      reads this
    {
      FieldsOf(heap, root, -1, next)
    }

    constructor (dashboard: Fields)
      ensures Valid() && Contents() == dashboard
    {
      heap, root, next := map[], 0, 0;
      new;
      var v := Store(Obj(dashboard));
      ObjectFromTree(heap, v, -1, next, dashboard);
      root := v.id;
    }

    /** Lays out a decoded JSON value as objects of its own. */
    method Store(j: Json) returns (v: Val)
      requires Bounded(heap, next)
      modifies this
      ensures root == old(root) && Bounded(heap, next) && Grown(old(heap), heap, old(next), next)
      ensures Read(heap, v, old(next) - 1, next).Some? && Read(heap, v, old(next) - 1, next).value.tree == j
      decreases j, 1
    {
      match j
      case Scalar(t) =>
        v := Leaf(t);
      case Arr(items) =>
        v := StoreItems(j, items);
      case Obj(fields) =>
        v := StoreFields(j, fields);
    }

    method StoreItems(ghost j: Json, items: seq<Json>) returns (v: Val)
      requires j == Arr(items) && Bounded(heap, next)
      modifies this
      ensures root == old(root) && Bounded(heap, next) && Grown(old(heap), heap, old(next), next)
      ensures Read(heap, v, old(next) - 1, next).Some? && Read(heap, v, old(next) - 1, next).value.tree == j
      decreases j, 0
    {
      hide Read, ReadItems, ReadFields, ItemTrees, FieldTrees;
      var vs: seq<Val> := [];
      ghost var start: int := next - 1;
      EmptySlice(heap, start, next);
      for i := 0 to |items|
        invariant root == old(root) && start < next && Bounded(heap, next) && Grown(old(heap), heap, old(next), next)
        invariant Read(heap, Items(vs), start, next).Some?
        invariant Read(heap, Items(vs), start, next).value.tree == Arr(items[..i])
      {
        ghost var before, low := heap, next;
        var item := Store(items[i]);
        ItemAdded(before, heap, vs, item, start, low, next, items, i);
        vs := vs + [item];
      }
      assert items[..|items|] == items;
      v := Items(vs);
    }

    method StoreFields(ghost j: Json, fields: Fields) returns (v: Val)
      requires j == Obj(fields) && Bounded(heap, next)
      modifies this
      ensures root == old(root) && Bounded(heap, next) && Grown(old(heap), heap, old(next), next)
      ensures Read(heap, v, old(next) - 1, next).Some? && Read(heap, v, old(next) - 1, next).value.tree == j
      decreases j, 0
    {
      hide Read, ReadItems, ReadFields, ItemTrees, FieldTrees;
      var id := next;
      heap, next := heap[id := map[]], next + 1;
      EmptyObject(heap, id, next);
      var todo := fields.Keys;
      while todo != {}
        invariant todo <= fields.Keys && root == old(root) && id == old(next)
        invariant Bounded(heap, next) && Grown(old(heap), heap, old(next), next) && id < next && id in heap
        invariant IsObject(heap, id, id as int - 1, next)
        invariant FieldsOf(heap, id, id as int - 1, next) == fields - todo
        decreases todo
      {
        var k :| k in todo;
        ghost var before, low := heap, next;
        var item := Store(fields[k]);
        FieldAdded(before, heap, low, next, id, k, item);
        heap := heap[id := heap[id][k := item]];
        FieldsLeft(fields, todo, k);
        todo := todo - {k};
      }
      assert fields - {} == fields;
      ObjectView(heap, id, id as int - 1, next);
      v := Ref(id);
    }

    /** Follows references from the root (the loop of `applyJSONPath`). */
    method FindHolder(front: seq<Segment>) returns (holder: Result<nat>)
      requires Valid()
      ensures holder == FollowAll(heap, root, front)
    {
      hide Read, ReadItems, ReadFields, ItemTrees, FieldTrees, Navigate, Walk;
      var current: nat := root;
      ghost var low: int := -1;
      for i := 0 to |front|
        invariant IsObject(heap, current, low, next)
        invariant FollowAll(heap, current, front[i..]) == FollowAll(heap, root, front)
      {
        assert front[i..][0] == front[i] && front[i..][1..] == front[i + 1..];
        ObjectView(heap, current, low, next);
        FollowNavigates(heap, current, low, next, front[i]);
        match Follow(heap[current], front[i])
        case Failed(e) =>
          return Failed(e);
        case Done(child) =>
          low, current := current, child;
      }
      assert front[|front|..] == [];
      return Done(current);
    }

    /** The decoded value of an operation, laid out beside the dashboard. */
    method StoreValue(edit: Edit) returns (value: Option<Val>)
      requires Valid()
      modifies this
      ensures Valid() && root == old(root) && Contents() == old(Contents())
      ensures old(next) <= next && Inserted(heap, value, edit, old(next) - 1, next)
      ensures forall n :: n in NodesOf(heap, root, -1, next) ==> n < old(next)
    {
      hide Read, ReadItems, ReadFields, ItemTrees, FieldTrees;
      NodesInRange(heap, Ref(root), -1, next);
      match edit
      case Remove =>
        return None;
      case Set(j) =>
        ghost var before, low := heap, next;
        var v := Store(j);
        StoredBeside(before, heap, Ref(root), v, -1, low, next);
        SameObject(before, heap, root, -1, low, next);
        return Some(v);
    }

    /** One operation on a path text (`applyJSONPath`), in place. */
    method ApplyJSONPath(path: string, edit: Edit) returns (error: Option<Error>)
      requires Valid()
      modifies this
      ensures Valid() && root == old(root)
      ensures error.None? ==> ApplyPath(old(Contents()), path, edit) == Done(Contents())
      ensures error.Some? ==>
          ApplyPath(old(Contents()), path, edit) == Failed(error.value) && Contents() == old(Contents())
    {
      hide Read, ReadItems, ReadFields, ItemTrees, FieldTrees, Contains, Trim, StripRoot, Parse, Walk, FollowAll;
      var value := StoreValue(edit);
      var trimmed := StripRoot(Trim(path));
      if Contains(trimmed, "?(@") || Contains(trimmed, "?(") {
        return Some(UnsupportedFilter);
      }
      if Contains(trimmed, "[*]") {
        return Some(UnsupportedWildcard);
      }
      var segments := ParseJSONPath(trimmed);
      if |segments| == 0 {
        return Some(EmptyPath);
      }
      var front := segments[..|segments| - 1];
      FollowAllInside(heap, root, -1, next, front);
      var holder := FindHolder(front);
      match holder
      case Failed(e) =>
        return Some(e);
      case Done(current) =>
        error := EditCurrent(current, segments, value, edit, old(next));
    }

    /** The last step of an operation: changes the object the walk has reached. */
    method EditCurrent(current: nat, segments: seq<Segment>, value: Option<Val>, edit: Edit, ghost low: nat)
        returns (error: Option<Error>)
      requires Valid() && segments != []
      requires FollowAll(heap, root, segments[..|segments| - 1]) == Done(current)
      requires low <= next && Inserted(heap, value, edit, low - 1, next)
      requires forall n :: n in NodesOf(heap, root, -1, next) ==> n < low
      modifies this
      ensures Valid() && root == old(root)
      ensures error.None? ==> Apply(old(Contents()), segments, edit) == Done(Contents())
      ensures error.Some? ==>
          Apply(old(Contents()), segments, edit) == Failed(error.value) && Contents() == old(Contents())
    {
      hide Read, ReadItems, ReadFields, ItemTrees, FieldTrees, FollowAll, Walk, EditObject, Final, WriteObject,
          LocationOf;
      ghost var front, last := segments[..|segments| - 1], segments[|segments| - 1];
      FollowAllInside(heap, root, -1, next, front);
      ObjectView(heap, current, current as int - 1, next);
      InsertedBelow(heap, value, edit, low - 1, current, next);
      EditMatches(heap, current, current as int - 1, next, last, value, edit);
      match EditObject(heap[current], segments[|segments| - 1], value)
      case Failed(e) =>
        return Some(e);
      case Done(changed) =>
        ghost var young := InsertedNodes(heap, value, current, next);
        ghost var before := heap;
        heap := heap[current := changed];
        error := None;
        DocumentChanges(before, heap, root, next, front, current, young);
    }

    /**
     The loop over the operations of an update; yields the failure that stops it, if any, and the contents it has
     had.  Each operation that is done does what it asks for, and the one that stops the loop cannot be done.
     */
    method ApplyOperations(operations: seq<Operation<Json>>)
      returns (failure: Option<BatchResult>, ghost docs: seq<Fields>)
      requires Valid()
      modifies this
      ensures Valid()
      ensures ApplyBatch(old(Contents()), operations) == if failure.None? then Patched(Contents()) else failure.value
      ensures failure.Some? ==> !failure.value.Patched?
      ensures 0 < |docs| <= |operations| + 1 && docs[0] == old(Contents()) && docs[|docs| - 1] == Contents()
      ensures Performed(operations[..|docs| - 1], docs)
      ensures if failure.None? then |docs| == |operations| + 1
              else |docs| <= |operations| && Fails(operations[|docs| - 1], Contents(), failure.value)
    {
      hide ApplyPath, Performs, Fails;
      docs := [Contents()];
      for i := 0 to |operations|
        invariant Valid()
        invariant ApplyBatch(Contents(), operations[i..]) == ApplyBatch(old(Contents()), operations)
        invariant |docs| == i + 1 && docs[0] == old(Contents()) && docs[i] == Contents()
        invariant Performed(operations[..i], docs)
      {
        var op := operations[i];
        assert operations[i..][0] == op && operations[i..][1..] == operations[i + 1..];
        ghost var before := Contents();
        if op.op == "replace" || op.op == "add" {
          var error := ApplyJSONPath(op.path, Set(op.value));
          if error.Some? {
            failure := Some(OperationFailed(error.value));
            OneFails(before, op, failure.value);
            return;
          }
        } else if op.op == "remove" {
          var error := ApplyJSONPath(op.path, Remove);
          if error.Some? {
            failure := Some(OperationFailed(error.value));
            OneFails(before, op, failure.value);
            return;
          }
        } else {
          failure := Some(UnsupportedOperation);
          OneFails(before, op, failure.value);
          return;
        }
        OneDone(before, op, Contents());
        PerformedMore(operations[..i], docs, op, Contents());
        assert operations[..i + 1] == operations[..i] + [op];
        docs := docs + [Contents()];
      }
      assert operations[..|operations|] == operations;
      return None, docs;
    }
  }

  lemma OneDone(doc: Fields, op: Operation<Json>, doc': Fields)
    requires op.op in {"add", "replace", "remove"} && ApplyPath(doc, op.path, EditOf(op)) == Done(doc')
    ensures Performs(op, doc, doc')
  {
    hide ApplyPath, Performs;
    assert [op][1..] == [];
    OperationMeans(doc, op, doc');
  }

  lemma OneFails(doc: Fields, op: Operation<Json>, failure: BatchResult)
    requires if op.op in {"add", "replace", "remove"}
             then failure.OperationFailed? && ApplyPath(doc, op.path, EditOf(op)) == Failed(failure.error)
             else failure == UnsupportedOperation
    ensures Fails(op, doc, failure)
  {
    hide ApplyPath, Fails;
    OperationFails(doc, op, failure);
  }

  datatype Update = Rejected(index: nat, arrayPath: string) | Stopped(failure: BatchResult) | Updated

  /**
   A whole patch update: reorder, then apply in place (`updateDashboardWithPatches`).  The contents pass through the
   dashboards `docs`, one operation each; an update of one operation succeeds exactly if that can be done.
   */
  method UpdateWithPatches(document: Document, operations: seq<Operation<Json>>)
    returns (update: Update, ghost reordered: seq<Operation<Json>>, ghost docs: seq<Fields>)
    requires document.Valid()
    modifies document
    ensures document.Valid()
    ensures update.Rejected? <==> HasDuplicate(Removals(operations))
    ensures update.Rejected? ==>
        document.Contents() == old(document.Contents())
        && exists i, j :: 0 <= i < j < |operations|
            && Removals(operations)[i] == Removals(operations)[j] == Removal(update.arrayPath, update.index)
    ensures update.Stopped? ==> !update.failure.Patched?
    ensures !update.Rejected? ==>
        IsReordering(operations, reordered) && |reordered| == |operations| && 0 < |docs| <= |operations| + 1
        && docs[0] == old(document.Contents()) && docs[|docs| - 1] == document.Contents()
        && Performed(reordered[..|docs| - 1], docs)
        && ApplyBatch(docs[0], reordered) == if update.Updated? then Patched(document.Contents()) else update.failure
    ensures update.Updated? ==> |docs| == |operations| + 1
    ensures update.Stopped? ==>
        |docs| <= |operations| && Fails(reordered[|docs| - 1], document.Contents(), update.failure)
    ensures |operations| == 1 && update.Updated? ==>
        Performs(operations[0], old(document.Contents()), document.Contents())
    ensures |operations| == 1 && !update.Updated? ==>
        update.Stopped? && Fails(operations[0], old(document.Contents()), update.failure)
        && document.Contents() == old(document.Contents())
        && forall doc' :: !Performs(operations[0], old(document.Contents()), doc')
  {
    hide Performs, Fails, HasDuplicate, IsReordering, ApplyBatch;
    reordered, docs := operations, [];
    var outcome := SortArrayRemovesDescending(operations);
    if |operations| == 1 {
      OneStays(operations);
    }
    match outcome
    case DuplicateRemove(index, arrayPath) =>
      update := Rejected(index, arrayPath);
    case Reordered(sorted) =>
      reordered := sorted;
      ReorderedLength(operations, sorted);
      var failure;
      failure, docs := document.ApplyOperations(sorted);
      update := if failure.Some? then Stopped(failure.value) else Updated;
      assert sorted[..|sorted|] == sorted;
      if |operations| == 1 && failure.Some? {
        NotPerformed(operations[0], docs[0], failure.value);
      }
  }

  lemma ReorderedLength(operations: seq<Operation<Json>>, reordered: seq<Operation<Json>>)
    requires IsReordering(operations, reordered)
    ensures |reordered| == |operations|
  {
  }

  lemma NotPerformed(op: Operation<Json>, doc: Fields, failure: BatchResult)
    requires Fails(op, doc, failure) && !failure.Patched?
    ensures forall doc' :: !Performs(op, doc, doc')
  {
    hide Performs, Fails;
    OperationFails(doc, op, failure);
    forall doc' ensures !Performs(op, doc, doc') {
      OperationMeans(doc, op, doc');
    }
  }

  /**
   The update that the reordering is for: removals of distinct elements of one array, in any order.  It leaves
   exactly the other elements of that array and nothing else changed, if the batch is sortable; and, where the
   elements differ from each other, only then.
   */
  method RemoveElements(document: Document, operations: seq<Operation<Json>>, ghost front: seq<Segment>,
                        ghost key: string,
                        ghost items: seq<Json>, ghost indices: seq<nat>)
    returns (update: Update)
    requires document.Valid() && HasArray(document.Contents(), front, key, items)
    requires RemoveElementsOf(operations, front, key, indices) && DistinctBelow(indices, |items|)
    modifies document
    ensures document.Valid() && !update.Rejected?
    ensures var right := update == Updated
        && document.Contents() == WithArray(old(document.Contents()), front, key, Keep(items, SetOf(indices)));
            && (Sortable(Removals(operations), indices) ==> right)
            && (DistinctItems(items) ==> (right <==> Sortable(Removals(operations), indices)))
  {
    hide RemovalOf, RemovesElement, HasDuplicate, IsReordering, ApplyBatch, HasArray, Keep, SetOf, WithArray, Sortable,
        DistinctItems;
    ghost var before := document.Contents();
    DistinctNotRepeated(operations, front, key, indices);
    ghost var reordered, docs;
    update, reordered, docs := UpdateWithPatches(document, operations);
    BatchRemovesAllIffSortable(before, front, key, items, operations, indices, reordered);
  }
}
