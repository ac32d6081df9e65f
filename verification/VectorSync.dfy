/**
 The push of a project's embedded documents to Qdrant (push_to_qdrant.py and
 `push_embedded_payload_to_qdrant` in run_full_workflow.py): points are upserted batch by batch under a
 scan id; then the ids of the project's points of other scans are collected page by page, and deleted
 batch by batch.
 */
module VectorSync {
  import opened Common
  import opened Batching
  import Decimal

  // ---------------------------------------------------------------- points

  /** Qdrant's ids, in the order in which it pages through them. */
  datatype PointId = Num(n: nat) | Uuid(u: nat)

  predicate Before(a: PointId, b: PointId) {
    match (a, b)
    case (Num(m), Num(n)) => m < n
    case (Num(_), Uuid(_)) => true
    case (Uuid(_), Num(_)) => false
    case (Uuid(u), Uuid(v)) => u < v
  }

  datatype Point = Point(id: PointId, body: Body)

  /** What a point carries; `project` and `scan` are the payload fields that the filter reads. */
  datatype Body = Body(vector: seq<real>, project: Option<string>, scan: Option<string>, source: RawId, rest: string)

  type Points = map<PointId, Body>

  // ---------------------------------------------------------------- point ids

  datatype RawId = Missing | Number(n: int) | Text(s: string)

  datatype Document = Document(qdrantId: RawId, id: RawId, vector: seq<real>, project: Option<string>,
                               scan: Option<string>, rest: string)

  /** The uuid library: texts it accepts, with their value, the text of a value, and name-based ids. */
  datatype Uuids = Uuids(parse: string -> Option<nat>, show: nat -> string, five: string -> nat)

  /** The text of a uuid is accepted as that uuid. */
  ghost predicate ReadsItsTexts(u: Uuids) {
    forall v: nat :: u.parse(u.show(v)) == Some(v)
  }

  predicate Falsy(r: RawId) {
    r.Missing? || r == Number(0) || r == Text("")
  }

  function ValidId(u: Uuids, r: RawId): Option<PointId> {
    match r
    case Missing => None
    case Number(n) => if n >= 0 then Some(Num(n)) else None
    case Text(s) => if u.parse(s).Some? then Some(Uuid(u.parse(s).value)) else None
  }

  function Str(r: RawId): string
    requires !r.Missing?
  {
    match r
    case Number(n) => if n < 0 then "-" + Decimal.Show(-n) else Decimal.Show(n)
    case Text(s) => s
  }

  /** `resolve_point_id`; `None` where it raises. */
  function ResolvePointId(u: Uuids, d: Document): Option<PointId> {
    if ValidId(u, d.qdrantId).Some? then ValidId(u, d.qdrantId)
    else if ValidId(u, d.id).Some? then ValidId(u, d.id)
    else if Falsy(d.id) then None
    else Some(Uuid(u.five(Str(d.id))))
  }

  predicate Complete(d: Document) {
    !Falsy(d.id) && d.vector != []
  }

  function PointOf(u: Uuids, d: Document): Point
    requires Complete(d)
  {
    Point(ResolvePointId(u, d).value, Body(d.vector, d.project, d.scan, d.id, d.rest))
  }

  function PointsOf(u: Uuids, ds: seq<Document>): seq<Point>
    requires forall i :: 0 <= i < |ds| ==> Complete(ds[i])
  {
    seq(|ds|, i requires 0 <= i < |ds| => PointOf(u, ds[i]))
  }

  /** `id` is what a raw id stands for where the store accepts it as it is. */
  predicate Accepted(u: Uuids, r: RawId, id: PointId) {
    if id.Num? then r == Number(id.n) else r.Text? && u.parse(r.s) == Some(id.u)
  }

  /**
   `id` is the id of a document: its own qdrant id if the store accepts that, or else its id if the store accepts
   that, or else the name-based uuid of the text of its id.
   */
  ghost predicate Identified(u: Uuids, d: Document, id: PointId) {
    || Accepted(u, d.qdrantId, id)
    || ((forall x :: !Accepted(u, d.qdrantId, x)) && Accepted(u, d.id, id))
    || ((forall x :: !Accepted(u, d.qdrantId, x) && !Accepted(u, d.id, x)) && NamedByItsId(u, d.id, id))
  }

  predicate NamedByItsId(u: Uuids, r: RawId, id: PointId) {
    || (r.Text? && r.s != "" && id == Uuid(u.five(r.s)))
    || (r.Number? && r.n < 0 && id == Uuid(u.five("-" + Decimal.Show(-r.n))))
  }

  lemma ValidIsAccepted(u: Uuids, r: RawId, id: PointId)
    ensures ValidId(u, r) == Some(id) <==> Accepted(u, r, id)
  {
  }

  lemma NoneAccepted(u: Uuids, r: RawId)
    ensures ValidId(u, r) == None <==> forall x :: !Accepted(u, r, x)
  {
    hide Accepted, ValidId;
    forall x ensures ValidId(u, r) == Some(x) <==> Accepted(u, r, x) {
      ValidIsAccepted(u, r, x);
    }
  }

  lemma NameIsOfItsId(u: Uuids, r: RawId, id: PointId)
    requires ValidId(u, r) == None
    ensures !Falsy(r) && id == Uuid(u.five(Str(r))) <==> NamedByItsId(u, r, id)
  {
  }

  /** The resolved id is the id of the document. */
  lemma ResolvedIsIdentified(u: Uuids, d: Document, id: PointId)
    ensures ResolvePointId(u, d) == Some(id) <==> Identified(u, d, id)
  {
    ValidIsAccepted(u, d.qdrantId, id);
    ValidIsAccepted(u, d.id, id);
    NoneAccepted(u, d.qdrantId);
    NoneAccepted(u, d.id);
    if ValidId(u, d.id) == None {
      NameIsOfItsId(u, d.id, id);
    }
    hide Accepted, ValidId, Falsy, NamedByItsId, Str;
  }

  /** What a stored point has of its document. */
  predicate CarriesDocument(b: Body, d: Document) {
    b.vector == d.vector && b.project == d.project && b.scan == d.scan && b.source == d.id && b.rest == d.rest
  }

  ghost predicate AreIds(u: Uuids, ds: seq<Document>, ids: seq<PointId>) {
    |ids| == |ds| && forall i :: 0 <= i < |ds| ==> Identified(u, ds[i], ids[i])
  }

  method BuildQdrantPoints(u: Uuids, documents: seq<Document>) returns (points: Option<seq<Point>>)
    ensures points.Some? <==> forall i :: 0 <= i < |documents| ==> Complete(documents[i])
    ensures points.None? <==>
        exists d :: d in documents && (d.id == Missing || d.id == Number(0) || d.id == Text("") || d.vector == [])
    ensures points.Some? ==> points.value == PointsOf(u, documents)
    ensures points.Some? ==>
        |points.value| == |documents|
        && forall i :: 0 <= i < |documents| ==>
            Identified(u, documents[i], points.value[i].id) && CarriesDocument(points.value[i].body, documents[i])
  {
    hide Identified;
    var built: seq<Point> := [];
    for k := 0 to |documents|
      invariant |built| == k
      invariant forall i :: 0 <= i < k ==> Complete(documents[i]) && built[i] == PointOf(u, documents[i])
      invariant forall i :: 0 <= i < k ==>
          Identified(u, documents[i], built[i].id) && CarriesDocument(built[i].body, documents[i])
    {
      var d := documents[k];
      if Falsy(d.id) || d.vector == [] {
        assert d in documents;
        return None;
      }
      ResolvedIsIdentified(u, d, PointOf(u, d).id);
      built := built + [PointOf(u, d)];
    }
    points := Some(built);
  }

  // ---------------------------------------------------------------- ids of different projects

  /** The text from which the id of a chunk's point is derived. */
  function PointName(project: string, chunk: string): string {
    project + ":" + chunk
  }

  predicate Extends(longer: string, shorter: string) {
    |longer| > |shorter| && longer[..|shorter|] == shorter && longer[|shorter|] == ':'
  }

  lemma ExtensionCollides(p: string, q: string, d: string)
    requires Extends(q, p)
    ensures PointName(q, d) == PointName(p, q[|p| + 1..] + ":" + d)
  {
    assert q == p + ":" + q[|p| + 1..];
  }

  lemma ShorterIsExtended(p: string, c: string, q: string, d: string)
    requires PointName(p, c) == PointName(q, d) && |p| < |q|
    ensures Extends(q, p)
  {
    var name := PointName(p, c);
    assert name[..|p|] == p && name[..|q|] == q && name[|p|] == ':';
    assert q[..|p|] == p && q[|p|] == name[|p|];
  }

  ghost predicate MayCollide(p: string, q: string) {
    exists c, d :: PointName(p, c) == PointName(q, d)
  }

  /** Two projects can share a point name exactly when one id is the other with a `:` and more behind it. */
  lemma NamesCollideIffExtended(p: string, q: string)
    ensures MayCollide(p, q) <==> p == q || Extends(p, q) || Extends(q, p)
  {
    if MayCollide(p, q) {
      var c, d :| PointName(p, c) == PointName(q, d);
      if |p| < |q| {
        ShorterIsExtended(p, c, q, d);
      } else if |q| < |p| {
        ShorterIsExtended(q, d, p, c);
      } else {
        assert p == PointName(p, c)[..|p|] == PointName(q, d)[..|q|] == q;
      }
    }
    if p == q {
      assert PointName(p, "") == PointName(q, "");
    } else if Extends(q, p) {
      ExtensionCollides(p, q, "");
    } else if Extends(p, q) {
      ExtensionCollides(q, p, "");
    }
  }

  /** The kinds of chunks that the program makes. */
  function ChunkKinds(): set<string> {
    {"data_type", "method", "class_summary", "config", "external_service"}
  }

  function ChunkPrefix(kind: string): string {
    "chunk:" + kind + ":"
  }

  lemma PrefixTexts()
    ensures ChunkPrefix("method") == "chunk:method:" && ChunkPrefix("class_summary") == "chunk:class_summary:"
  {
  }

  /** An id as the program gives it to a chunk. */
  ghost predicate IsChunkId(c: string) {
    exists kind :: kind in ChunkKinds() && ChunkPrefix(kind) <= c
  }

  /** `longer` is `shorter`, a `:`, and what begins like the id of a chunk, up to a `:` or its end. */
  ghost predicate ExtendsByChunk(longer: string, shorter: string) {
    exists kind :: kind in ChunkKinds() && shorter + ":" + ChunkPrefix(kind) <= longer + ":"
  }

  ghost predicate ChunksMayCollide(p: string, q: string) {
    exists c, d :: IsChunkId(c) && IsChunkId(d) && PointName(p, c) == PointName(q, d)
  }

  lemma KindsAreNoPrefix(kind: string)
    requires kind in ChunkKinds()
    ensures |kind| >= 2 && kind[1] != 'h' && ':' !in kind
  {
  }

  lemma ColonsOfPrefix(kind: string, i: nat)
    requires kind in ChunkKinds() && i < |ChunkPrefix(kind)| && ChunkPrefix(kind)[i] == ':'
    ensures i == 5 || i == |ChunkPrefix(kind)| - 1
  {
    KindsAreNoPrefix(kind);
    hide ChunkKinds;
    var prefix := ChunkPrefix(kind);
    assert forall j :: 5 < j < |prefix| - 1 ==> prefix[j] == kind[j - 6];
    assert prefix[..5] == "chunk";
  }

  lemma SecondLetters(r: string, d: string, kind: string)
    requires kind in ChunkKinds() && IsChunkId(d)
    ensures |ChunkPrefix(kind)| >= 9 && ChunkPrefix(kind)[7] != 'h' && |d| >= 2 && d[1] == 'h'
    ensures |r| == 5 ==> (r + ":" + d)[7] == d[1]
  {
    KindsAreNoPrefix(kind);
    hide ChunkKinds;
    assert ChunkPrefix(kind)[7] == kind[1];
    var k :| k in ChunkKinds() && ChunkPrefix(k) <= d;
    assert d[1] == ChunkPrefix(k)[1];
  }

  /** A chunk id with another chunk id behind a colon in it has its own prefix in front of that colon. */
  lemma PrefixInFront(r: string, d: string, kind: string)
    requires kind in ChunkKinds() && ChunkPrefix(kind) <= r + ":" + d && IsChunkId(d)
    ensures ChunkPrefix(kind) <= r + ":"
  {
    var prefix, c := ChunkPrefix(kind), r + ":" + d;
    SecondLetters(r, d, kind);
    assert |r| < |prefix| ==> prefix[|r|] == c[|r|] == ':';
    if |r| < |prefix| {
      ColonsOfPrefix(kind, |r|);
    }
    hide ChunkKinds, ChunkPrefix, IsChunkId;
    assert prefix[7] == c[7];
    assert prefix == c[..|prefix|];
  }

  lemma ChunkExtension(p: string, c: string, q: string, d: string)
    requires IsChunkId(c) && IsChunkId(d) && PointName(p, c) == PointName(q, d) && |p| < |q|
    ensures ExtendsByChunk(q, p)
  {
    ShorterIsExtended(p, c, q, d);
    ExtensionCollides(p, q, d);
    var r := q[|p| + 1..];
    assert c == PointName(p, c)[|p| + 1..] == PointName(p, r + ":" + d)[|p| + 1..] == r + ":" + d;
    var kind :| kind in ChunkKinds() && ChunkPrefix(kind) <= c;
    PrefixInFront(r, d, kind);
    assert q + ":" == p + ":" + (r + ":");
    hide ChunkKinds, ChunkPrefix;
    assert p + ":" + ChunkPrefix(kind) <= q + ":";
  }

  lemma ChunkExtensionCollides(p: string, q: string)
    requires ExtendsByChunk(q, p)
    ensures ChunksMayCollide(p, q)
  {
    var kind :| kind in ChunkKinds() && p + ":" + ChunkPrefix(kind) <= q + ":";
    var d := ChunkPrefix("config");
    var r := q[|p| + 1..];
    assert (q + ":")[..|p| + 1] == (p + ":" + ChunkPrefix(kind))[..|p| + 1] == p + ":";
    assert q == p + ":" + r;
    assert ChunkPrefix(kind) <= r + ":" by {
      assert (q + ":")[|p| + 1..] == r + ":";
    }
    assert ChunkPrefix(kind) <= r + ":" + d;
    assert IsChunkId(r + ":" + d);
    assert IsChunkId(d);
    hide ChunkPrefix, ChunkKinds, IsChunkId;
    assert PointName(p, r + ":" + d) == PointName(q, d);
  }

  /** For ids of chunks the condition is narrower: the longer project id goes on like the id of a chunk. */
  lemma ChunksCollideIffExtended(p: string, q: string)
    ensures ChunksMayCollide(p, q) <==> p == q || ExtendsByChunk(p, q) || ExtendsByChunk(q, p)
  {
    if ChunksMayCollide(p, q) {
      var c, d :| IsChunkId(c) && IsChunkId(d) && PointName(p, c) == PointName(q, d);
      hide IsChunkId, ExtendsByChunk;
      if |p| < |q| {
        ChunkExtension(p, c, q, d);
      } else if |q| < |p| {
        ChunkExtension(q, d, p, c);
      } else {
        assert p == PointName(p, c)[..|p|] == PointName(q, d)[..|q|] == q;
      }
    }
    if p == q {
      assert "config" in ChunkKinds() && IsChunkId(ChunkPrefix("config"));
      assert PointName(p, ChunkPrefix("config")) == PointName(q, ChunkPrefix("config"));
    } else if ExtendsByChunk(q, p) {
      ChunkExtensionCollides(p, q);
    } else if ExtendsByChunk(p, q) {
      ChunkExtensionCollides(q, p);
      SwapChunks(q, p);
    }
  }

  lemma SwapChunks(p: string, q: string)
    requires ChunksMayCollide(p, q)
    ensures ChunksMayCollide(q, p)
  {
  }

  ghost predicate Injective(f: string -> nat) {
    forall a, b :: f(a) == f(b) ==> a == b
  }

  /** The text of the id of a chunk's point. */
  function DeriveQdrantPointId(u: Uuids, project: string, chunk: string): string {
    u.show(u.five(PointName(project, chunk)))
  }

  /** `d` is the embedded document of a chunk: it has the chunk's id, and the derived id where there is a project. */
  predicate OfChunk(u: Uuids, d: Document, project: string, chunk: string) {
    && d.id == Text(chunk)
    && d.qdrantId == if project != "" && chunk != "" then Text(DeriveQdrantPointId(u, project, chunk)) else Missing
  }

  /** The id of a chunk's point is the name-based uuid of its project and its id. */
  lemma ChunkIdentified(u: Uuids, d: Document, project: string, chunk: string, id: PointId)
    requires ReadsItsTexts(u) && OfChunk(u, d, project, chunk) && project != "" && chunk != ""
    ensures Identified(u, d, id) <==> id == Uuid(u.five(PointName(project, chunk)))
  {
    assert u.parse(d.qdrantId.s) == Some(u.five(PointName(project, chunk)));
    assert Accepted(u, d.qdrantId, Uuid(u.five(PointName(project, chunk))));
  }

  /** The points of two chunks have one id exactly when the projects and the ids print alike. */
  lemma ChunksShareIdIff(u: Uuids, d: Document, p: string, c: string, e: Document, q: string, f: string)
    requires ReadsItsTexts(u) && Injective(u.five) && p != "" && q != "" && c != "" && f != ""
    requires OfChunk(u, d, p, c) && OfChunk(u, e, q, f)
    ensures ResolvePointId(u, d) == ResolvePointId(u, e) <==> PointName(p, c) == PointName(q, f)
  {
    hide Identified, ResolvePointId, OfChunk, PointName, ReadsItsTexts;
    var x, y := Uuid(u.five(PointName(p, c))), Uuid(u.five(PointName(q, f)));
    ChunkIdentified(u, d, p, c, x);
    ChunkIdentified(u, e, q, f, y);
    ResolvedIsIdentified(u, d, x);
    ResolvedIsIdentified(u, e, y);
  }

  /** Project ids without a colon, as derived ones are: the points of their chunks never meet. */
  lemma ColonFreeProjectsApart(u: Uuids, d: Document, p: string, c: string, e: Document, q: string, f: string)
    requires ReadsItsTexts(u) && Injective(u.five) && p != "" && q != "" && c != "" && f != ""
    requires OfChunk(u, d, p, c) && OfChunk(u, e, q, f)
    requires ':' !in p && ':' !in q && p != q
    ensures ResolvePointId(u, d) != ResolvePointId(u, e)
  {
    ChunksShareIdIff(u, d, p, c, e, q, f);
    if PointName(p, c) == PointName(q, f) {
      NamesCollideIffExtended(p, q);
      assert false;
    }
  }

  /** Documents of chunks of one project whose ids differ have different ids. */
  lemma ChunksOfOneProjectApart(u: Uuids, project: string, chunks: seq<string>, ds: seq<Document>)
      returns (ids: seq<PointId>)
    requires ReadsItsTexts(u) && Injective(u.five) && project != "" && "" !in chunks && Distinct(chunks)
    requires |ds| == |chunks| && forall i :: 0 <= i < |ds| ==> OfChunk(u, ds[i], project, chunks[i])
    ensures AreIds(u, ds, ids) && Distinct(ids)
  {
    hide Identified, OfChunk, ReadsItsTexts;
    ids := seq(|ds|, i requires 0 <= i < |ds| => Uuid(u.five(PointName(project, chunks[i]))));
    forall i | 0 <= i < |ds| ensures Identified(u, ds[i], ids[i]) {
      assert chunks[i] in chunks;
      ChunkIdentified(u, ds[i], project, chunks[i], ids[i]);
    }
    forall i, j | 0 <= i < j < |ids| ensures ids[i] != ids[j] {
      SamePrefix(project, chunks[i], chunks[j]);
    }
  }

  lemma SamePrefix(p: string, c: string, d: string)
    ensures PointName(p, c) == PointName(p, d) ==> c == d
  {
    assert PointName(p, c)[|p| + 1..] == c && PointName(p, d)[|p| + 1..] == d;
  }

  /** And so have documents that have only ids that are no uuids. */
  lemma NamedDocumentsApart(u: Uuids, ds: seq<Document>, names: seq<string>) returns (ids: seq<PointId>)
    requires Injective(u.five) && "" !in names && Distinct(names) && |ds| == |names|
    requires forall i ::
        0 <= i < |ds| ==> ds[i].qdrantId == Missing && ds[i].id == Text(names[i]) && u.parse(names[i]).None?
    ensures AreIds(u, ds, ids) && Distinct(ids)
  {
    ids := seq(|ds|, i requires 0 <= i < |ds| => Uuid(u.five(names[i])));
    forall i | 0 <= i < |ds| ensures Identified(u, ds[i], ids[i]) {
      assert names[i] in names;
    }
  }

  // ---------------------------------------------------------------- the store, one request at a time

  function LastPoint(ps: seq<Point>, id: PointId): Option<Body> {
    if ps == [] then None
    else if ps[|ps| - 1].id == id then Some(ps[|ps| - 1].body)
    else LastPoint(ps[..|ps| - 1], id)
  }

  function Upsert(m: Points, ps: seq<Point>): Points {
    if ps == [] then m
    else Upsert(m, ps[..|ps| - 1])[ps[|ps| - 1].id := ps[|ps| - 1].body]
  }

  function Remove(m: Points, ids: seq<PointId>): Points {
    m - set id | id in ids
  }

  /** `stale_points_filter`: of the project, and not of the scan. */
  predicate Stale(b: Body, project: string, scan: string) {
    b.project == Some(project) && b.scan != Some(scan)
  }

  function StaleIds(m: Points, project: string, scan: string): set<PointId> {
    set id | id in m && Stale(m[id], project, scan)
  }

  predicate From(id: PointId, offset: Option<PointId>) {
    offset.Some? ==> !Before(id, offset.value)
  }

  const LIMIT := 256

  /** A page: the next ids of the filtered set from the offset on, and the first id it leaves over. */
  ghost predicate IsPage(matching: set<PointId>, offset: Option<PointId>, page: seq<PointId>, next: Option<PointId>) {
    && |page| <= LIMIT
    && (forall i, j :: 0 <= i < j < |page| ==> Before(page[i], page[j]))
    && (forall id :: id in page ==> id in matching && From(id, offset))
    && (next.Some? ==> page != [] && next.value in matching && From(next.value, offset))
    && (forall id :: id in matching && From(id, offset) ==> (id in page <==> (next.Some? ==> Before(id, next.value))))
  }

  method Least(s: set<PointId>) returns (m: PointId)
    requires s != {}
    ensures m in s && forall x :: x in s && x != m ==> Before(m, x)
  {
    m :| m in s;
    var rest := s - {m};
    while rest != {}
      invariant m in s && rest <= s
      invariant forall x :: x in s && x != m && x !in rest ==> Before(m, x)
      decreases rest
    {
      var x :| x in rest;
      rest := rest - {x};
      if Before(x, m) {
        m := x;
      }
    }
  }

  class QdrantClient {
    var collection: Option<Points>

    /** The length of the vectors for which the collection was created. */
    var vectorSize: int

    /** The collection after every request that changed it. */
    ghost var states: seq<Option<Points>>

    constructor (c: Option<Points>, size: int)
      ensures collection == c && vectorSize == size && states == []
    {
      collection, vectorSize, states := c, size, [];
    }

    method DeleteCollection()
      modifies this`collection, this`states
      ensures collection == None && states == old(states) + [None]
    {
      collection, states := None, states + [None];
    }

    method CreateCollection(size: int)
      modifies this
      ensures collection == Some(map[]) && vectorSize == size && states == old(states) + [collection]
    {
      collection, vectorSize, states := Some(map[]), size, states + [Some(map[])];
    }

    method UpsertPoints(ps: seq<Point>)
      requires collection.Some?
      modifies this`collection, this`states
      ensures collection == Some(Upsert(old(collection.value), ps)) && states == old(states) + [collection]
    {
      collection := Some(Upsert(collection.value, ps));
      states := states + [collection];
    }

    method ScrollPoints(project: string, scan: string, offset: Option<PointId>)
      returns (page: seq<PointId>, next: Option<PointId>)
      requires collection.Some?
      ensures IsPage(StaleIds(collection.value, project, scan), offset, page, next)
    {
      var rest := set id | id in StaleIds(collection.value, project, scan) && From(id, offset);
      ghost var all := rest;
      page := [];
      while |page| < LIMIT && rest != {}
        invariant |page| <= LIMIT && rest <= all
        invariant page == [] ==> rest == all
        invariant forall i, j :: 0 <= i < j < |page| ==> Before(page[i], page[j])
        invariant forall id :: id in page ==> id in all && id !in rest
        invariant forall id :: id in all ==> id in page || id in rest
        invariant forall id, x :: id in page && x in rest ==> Before(id, x)
      {
        var m := Least(rest);
        page, rest := page + [m], rest - {m};
      }
      if rest == {} {
        next := None;
      } else {
        var m := Least(rest);
        next := Some(m);
      }
    }

    method DeletePoints(ids: seq<PointId>)
      requires collection.Some?
      modifies this`collection, this`states
      ensures collection == Some(Remove(old(collection.value), ids))
      ensures states == if ids == [] then old(states) else old(states) + [collection]
    {
      if ids != [] {
        collection := Some(Remove(collection.value, ids));
        states := states + [collection];
      } else {
        assert Remove(collection.value, []) == collection.value;
      }
    }
  }

  // ---------------------------------------------------------------- collecting the stale ids

  ghost predicate NoRepeats(ids: seq<PointId>) {
    forall i, j :: 0 <= i < j < |ids| ==> ids[i] != ids[j]
  }

  /** The paged collection returns exactly the stale ids, each once. */
  method CollectStalePointIds(client: QdrantClient, project: string, scan: string) returns (ids: seq<PointId>)
    requires client.collection.Some?
    ensures NoRepeats(ids)
    ensures forall id :: id in ids <==> id in StaleIds(client.collection.value, project, scan)
  {
    ids := [];
    var offset := None;
    ghost var stale := StaleIds(client.collection.value, project, scan);
    ghost var left := stale;
    while true
      invariant NoRepeats(ids)
      invariant left == set id | id in stale && From(id, offset)
      invariant forall id :: id in stale ==> (id in ids <==> !From(id, offset))
      invariant forall id :: id in ids ==> id in stale
      decreases left
    {
      var page, next := client.ScrollPoints(project, scan, offset);
      assert forall i, j :: 0 <= i < |ids| && 0 <= j < |page| ==> ids[i] in ids && page[j] in page;
      ids := ids + page;
      if page == [] || next == None {
        break;
      }
      assert page[0] in page;
      ghost var later := set id | id in stale && From(id, next);
      assert page[0] in left && page[0] !in later;
      assert forall id :: id in later ==> id in left;
      left := later;
      offset := next;
    }
  }

  // ---------------------------------------------------------------- what a push does to one id

  lemma {:induction false} UpsertAt(m: Points, ps: seq<Point>, id: PointId)
    ensures id in Upsert(m, ps) <==> id in m || LastPoint(ps, id).Some?
    ensures id in Upsert(m, ps) ==>
              Upsert(m, ps)[id] == if LastPoint(ps, id).Some? then LastPoint(ps, id).value else m[id]
  {
    if ps != [] {
      UpsertAt(m, ps[..|ps| - 1], id);
    }
  }

  lemma {:induction false} UpsertAppend(m: Points, a: seq<Point>, b: seq<Point>)
    ensures Upsert(m, a + b) == Upsert(Upsert(m, a), b)
  {
    if b == [] {
      assert a + b == a;
    } else {
      assert (a + b)[..|a + b| - 1] == a + b[..|b| - 1];
      UpsertAppend(m, a, b[..|b| - 1]);
    }
  }

  lemma {:induction false} LastOfPrefix(ps: seq<Point>, n: nat, id: PointId)
    requires n <= |ps|
    ensures LastPoint(ps[..n], id).Some? ==> LastPoint(ps, id).Some?
    decreases |ps| - n
  {
    if n < |ps| {
      assert ps[..n + 1][..n] == ps[..n];
      LastOfPrefix(ps, n + 1, id);
    } else {
      assert ps[..n] == ps;
    }
  }

  /** The collection after a whole push that sweeps. */
  function Swept(m: Points, project: string, scan: string): Points {
    m - StaleIds(m, project, scan)
  }

  /** What is counted as deleted is what is gone. */
  lemma SweptCounts(m: Points, project: string, scan: string)
    ensures |Swept(m, project, scan)| + |StaleIds(m, project, scan)| == |m|
    ensures forall id :: id in m && id !in Swept(m, project, scan) <==>
              id in m && m[id].project == Some(project) && m[id].scan != Some(scan)
  {
    var kept := Swept(m, project, scan).Keys;
    var stale := StaleIds(m, project, scan);
    assert m.Keys == kept + stale && kept !! stale;
    assert |kept| == |Swept(m, project, scan)|;
  }

  /** The states a sweeping push passes through: some points upserted, or all of them and some stale ids gone. */
  ghost predicate OnTheWay(before: Points, ps: seq<Point>, project: string, scan: string, now: Option<Points>) {
    || (exists n: nat :: n <= |ps| && now == Some(Upsert(before, ps[..n])))
    || (exists gone: set<PointId> ::
        gone <= StaleIds(Upsert(before, ps), project, scan) && now == Some(Upsert(before, ps) - gone))
  }

  /**
   At no moment is an id of the new scan missing that was there before, nor a point of another project
   changed that the push does not overwrite; and once an old point is missing, every point of the new
   scan is in place.
   */
  lemma NothingMissingOnTheWay(before: Points, ps: seq<Point>, project: string, scan: string, now: Points, id: PointId)
    requires OnTheWay(before, ps, project, scan, Some(now)) && id in before
    ensures LastPoint(ps, id).Some? && !Stale(LastPoint(ps, id).value, project, scan) ==> id in now
    ensures LastPoint(ps, id).None? && !Stale(before[id], project, scan) ==> id in now && now[id] == before[id]
    ensures id !in now ==> forall x :: LastPoint(ps, x).Some? && !Stale(LastPoint(ps, x).value, project, scan)
                                       ==> x in now && now[x] == LastPoint(ps, x).value
  {
    if n: nat :| n <= |ps| && now == Upsert(before, ps[..n]) {
      UpsertAt(before, ps[..n], id);
      LastOfPrefix(ps, n, id);
    } else {
      var gone: set<PointId> :| gone <= StaleIds(Upsert(before, ps), project, scan) && now == Upsert(before, ps) - gone;
      UpsertAt(before, ps, id);
      forall x | LastPoint(ps, x).Some? && !Stale(LastPoint(ps, x).value, project, scan)
        ensures x in now && now[x] == LastPoint(ps, x).value
      {
        UpsertAt(before, ps, x);
      }
    }
  }

  // ---------------------------------------------------------------- the end of a push

  /** The project's points are the pushed points, the last one of each id. */
  ghost predicate Mirrors(m: Points, ps: seq<Point>, project: string) {
    forall id :: (id in m && m[id].project == Some(project)) || LastPoint(ps, id).Some? ==>
                   id in m && Some(m[id]) == LastPoint(ps, id) && m[id].project == Some(project)
  }

  /** Every pushed point carries the project and the scan of the push. */
  ghost predicate Labelled(ps: seq<Point>, project: string, scan: string) {
    forall id ::
        LastPoint(ps, id).Some? ==>
        LastPoint(ps, id).value.project == Some(project) && LastPoint(ps, id).value.scan == Some(scan)
  }

  /** No point of the project carries the scan already, except under an id that is pushed again. */
  ghost predicate NoLeftovers(m: Points, ps: seq<Point>, project: string, scan: string) {
    forall id :: id in m && m[id].project == Some(project) && m[id].scan == Some(scan) ==> LastPoint(ps, id).Some?
  }

  lemma SweptUpsertAt(before: Points, ps: seq<Point>, project: string, scan: string, id: PointId)
    ensures var m, last := Swept(Upsert(before, ps), project, scan), LastPoint(ps, id);
            && (last.Some? ==> (id in m <==> !Stale(last.value, project, scan)) && (id in m ==> m[id] == last.value))
            && (last.None? ==>
                (id in m <==> id in before && !Stale(before[id], project, scan)) && (id in m ==> m[id] == before[id]))
  {
    UpsertAt(before, ps, id);
  }

  /** The push ends with the project mirrored exactly when its points are labelled and no leftover has the scan id. */
  lemma MirrorsIff(before: Points, ps: seq<Point>, project: string, scan: string)
    ensures Mirrors(Swept(Upsert(before, ps), project, scan), ps, project)
       <==> Labelled(ps, project, scan) && NoLeftovers(before, ps, project, scan)
  {
    var m := Swept(Upsert(before, ps), project, scan);
    if Labelled(ps, project, scan) && NoLeftovers(before, ps, project, scan) {
      forall id | (id in m && m[id].project == Some(project)) || LastPoint(ps, id).Some?
        ensures id in m && Some(m[id]) == LastPoint(ps, id) && m[id].project == Some(project)
      {
        SweptUpsertAt(before, ps, project, scan, id);
      }
    }
    if Mirrors(m, ps, project) {
      forall id | LastPoint(ps, id).Some?
        ensures LastPoint(ps, id).value.project == Some(project) && LastPoint(ps, id).value.scan == Some(scan)
      {
        SweptUpsertAt(before, ps, project, scan, id);
      }
      forall id | id in before && before[id].project == Some(project) && before[id].scan == Some(scan)
        ensures LastPoint(ps, id).Some?
      {
        SweptUpsertAt(before, ps, project, scan, id);
      }
    }
  }

  /** Two pushes under one scan id: what the second one no longer has stays. */
  lemma SecondPushWithinASecond(m: Points, p: Point, project: string, scan: string)
    requires p.body.project == Some(project) && p.body.scan == Some(scan)
    ensures var first := Swept(Upsert(m, [p]), project, scan);
            var second := Swept(Upsert(first, []), project, scan);
            p.id in second && second[p.id] == p.body && !Mirrors(second, [], project)
  {
    var first := Swept(Upsert(m, [p]), project, scan);
    assert LastPoint([p], p.id) == Some(p.body) && LastPoint([], p.id) == None;
    SweptUpsertAt(m, [p], project, scan, p.id);
    SweptUpsertAt(first, [], project, scan, p.id);
    hide Swept, Upsert, LastPoint;
  }

  /** The points that do not belong to the project. */
  ghost predicate OthersUntouched(before: Points, after: Points, project: string) {
    forall id ::
        (id in before && before[id].project != Some(project)) || (id in after && after[id].project != Some(project)) ==>
                   id in before && id in after && after[id] == before[id]
  }

  ghost predicate TakesNoForeignId(before: Points, ps: seq<Point>, project: string) {
    forall id :: id in before && before[id].project != Some(project) ==> LastPoint(ps, id).None?
  }

  /** A push of labelled points leaves other projects alone exactly when it does not use their ids. */
  lemma OthersUntouchedIff(before: Points, ps: seq<Point>, project: string, scan: string)
    requires Labelled(ps, project, scan)
    ensures OthersUntouched(before, Swept(Upsert(before, ps), project, scan), project)
        <==> TakesNoForeignId(before, ps, project)
  {
    var m := Swept(Upsert(before, ps), project, scan);
    forall id
      ensures var last := LastPoint(ps, id);
              && (last.Some? ==> id in m && m[id] == last.value)
              && (last.None? ==>
                  (id in m <==> id in before && !Stale(before[id], project, scan)) && (id in m ==> m[id] == before[id]))
    {
      SweptUpsertAt(before, ps, project, scan, id);
    }
    hide Swept, Upsert, LastPoint;
    if OthersUntouched(before, m, project) {
      forall id | id in before && before[id].project != Some(project)
        ensures LastPoint(ps, id).None?
      {
        assert id in m && m[id] == before[id];
      }
    }
  }

  // ---------------------------------------------------------------- the program

  datatype Outcome =
    | Done(pushedPoints: nat, deletedStalePoints: nat)
    | MissingProjectId | MissingScanId | IncompleteDocument | BadDimension | ZeroStep

  lemma RemoveAppend(m: Points, a: seq<PointId>, b: seq<PointId>)
    ensures Remove(m, a + b) == Remove(Remove(m, a), b)
    ensures Remove(m, []) == m
  {
  }

  lemma RemoveStale(m: Points, ids: seq<PointId>, project: string, scan: string)
    requires forall id :: id in ids <==> id in StaleIds(m, project, scan)
    ensures Remove(m, ids) == Swept(m, project, scan)
  {
    assert StaleIds(m, project, scan) == set id | id in ids;
  }

  lemma PartlySwept(before: Points, ps: seq<Point>, project: string, scan: string, ids: seq<PointId>)
    requires forall id :: id in ids ==> id in StaleIds(Upsert(before, ps), project, scan)
    ensures OnTheWay(before, ps, project, scan, Some(Remove(Upsert(before, ps), ids)))
  {
    var gone := set id | id in ids;
    assert gone <= StaleIds(Upsert(before, ps), project, scan);
  }

  lemma PartlyUpserted(before: Points, ps: seq<Point>, project: string, scan: string, a: seq<Point>)
    requires a <= ps
    ensures OnTheWay(before, ps, project, scan, Some(Upsert(before, a)))
  {
    assert a == ps[..|a|];
  }

  /** The first batches of a list make up a prefix of it. */
  lemma {:induction false} BatchesPrefix<T>(cs: seq<seq<T>>, i: nat)
    requires i <= |cs|
    ensures Concat(cs[..i]) <= Concat(cs)
  {
    if i > 0 {
      BatchesPrefix(cs[1..], i - 1);
      assert cs[..i][1..] == cs[1..][..i - 1];
    }
  }

  ghost predicate AllStale(before: Points, ps: seq<Point>, project: string, scan: string, ids: seq<PointId>) {
    forall id :: id in ids ==> id in StaleIds(Upsert(before, ps), project, scan)
  }

  lemma DeleteStep(before: Points, ps: seq<Point>, project: string, scan: string, batches: seq<seq<PointId>>, i: nat)
    requires i < |batches| && AllStale(before, ps, project, scan, Concat(batches))
    ensures Remove(Remove(Upsert(before, ps), Concat(batches[..i])), batches[i])
        == Remove(Upsert(before, ps), Concat(batches[..i + 1]))
    ensures OnTheWay(before, ps, project, scan, Some(Remove(Upsert(before, ps), Concat(batches[..i + 1]))))
  {
    ConcatNext(batches, i);
    BatchesPrefix(batches, i + 1);
    RemoveAppend(Upsert(before, ps), Concat(batches[..i]), batches[i]);
    PartlySwept(before, ps, project, scan, Concat(batches[..i + 1]));
  }

  method DeleteBatches(client: QdrantClient, batches: seq<seq<PointId>>,
                       ghost before: Points, ghost ps: seq<Point>, ghost project: string, ghost scan: string)
    requires client.collection == Some(Upsert(before, ps)) && AllStale(before, ps, project, scan, Concat(batches))
    modifies client`collection, client`states
    ensures client.collection == Some(Remove(Upsert(before, ps), Concat(batches)))
    ensures batches == [] ==> client.states == old(client.states)
    ensures old(client.states) <= client.states
    ensures forall i ::
        |old(client.states)| <= i < |client.states| ==> OnTheWay(before, ps, project, scan, client.states[i])
  {
    RemoveAppend(Upsert(before, ps), [], []);
    assert Concat(batches[..0]) == [];
    hide *;
    for i := 0 to |batches|
      invariant client.collection == Some(Remove(Upsert(before, ps), Concat(batches[..i])))
      invariant i == 0 ==> client.states == old(client.states)
      invariant old(client.states) <= client.states
      invariant forall j ::
          |old(client.states)| <= j < |client.states| ==> OnTheWay(before, ps, project, scan, client.states[j])
    {
      DeleteStep(before, ps, project, scan, batches, i);
      client.DeletePoints(batches[i]);
    }
    assert batches[..|batches|] == batches;
  }

  /** Collects, counts and deletes; a step of zero is refused before the first batch. */
  method DeleteStale(client: QdrantClient, project: string, scan: string, size: int, ghost before: Points,
                     ghost ps: seq<Point>)
    returns (deleted: nat, ok: bool)
    requires client.collection == Some(Upsert(before, ps))
    modifies client`collection, client`states
    ensures ok <==> size != 0
    ensures deleted == |StaleIds(Upsert(before, ps), project, scan)|
    ensures client.collection == Some(if size > 0 then Swept(Upsert(before, ps), project, scan) else Upsert(before, ps))
    ensures size <= 0 ==> client.states == old(client.states)
    ensures old(client.states) <= client.states
    ensures forall i ::
        |old(client.states)| <= i < |client.states| ==> OnTheWay(before, ps, project, scan, client.states[i])
  {
    ghost var m := client.collection.value;
    var stale := CollectStalePointIds(client, project, scan);
    CountDistinct(stale, StaleIds(m, project, scan));
    deleted := |stale|;
    if size == 0 {
      return deleted, false;
    }
    RemoveStale(m, stale, project, scan);
    RemoveAppend(m, [], []);
    assert AllStale(before, ps, project, scan, stale) && AllStale(before, ps, project, scan, []);
    hide *;
    var batches := Chunked(stale, size);
    if size > 0 {
      ConcatChunks(stale, size);
    } else {
      NothingToConcat<PointId>();
    }
    DeleteBatches(client, batches, before, ps, project, scan);
    ok := true;
  }

  lemma NothingToConcat<T>()
    ensures Concat<T>([]) == []
  {
  }

  lemma UpsertStep(before: Points, ps: seq<Point>, project: string, scan: string, batches: seq<seq<Point>>, i: nat)
    requires i < |batches| && Concat(batches) <= ps
    ensures Upsert(Upsert(before, Concat(batches[..i])), batches[i]) == Upsert(before, Concat(batches[..i + 1]))
    ensures OnTheWay(before, ps, project, scan, Some(Upsert(before, Concat(batches[..i + 1]))))
  {
    ConcatNext(batches, i);
    BatchesPrefix(batches, i + 1);
    UpsertAppend(before, Concat(batches[..i]), batches[i]);
    PartlyUpserted(before, ps, project, scan, Concat(batches[..i + 1]));
  }

  method UpsertBatches(client: QdrantClient, batches: seq<seq<Point>>, ghost ps: seq<Point>, ghost project: string,
                       ghost scan: string)
    requires client.collection.Some? && Concat(batches) <= ps
    modifies client`collection, client`states
    ensures client.collection == Some(Upsert(old(client.collection.value), Concat(batches)))
    ensures old(client.states) <= client.states
    ensures forall i :: |old(client.states)| <= i < |client.states| ==>
                          OnTheWay(old(client.collection.value), ps, project, scan, client.states[i])
  {
    ghost var before := client.collection.value;
    assert Concat(batches[..0]) == [] && Upsert(before, []) == before;
    hide *;
    for i := 0 to |batches|
      invariant client.collection == Some(Upsert(before, Concat(batches[..i])))
      invariant old(client.states) <= client.states
      invariant forall j ::
          |old(client.states)| <= j < |client.states| ==> OnTheWay(before, ps, project, scan, client.states[j])
    {
      UpsertStep(before, ps, project, scan, batches, i);
      client.UpsertPoints(batches[i]);
    }
    assert batches[..|batches|] == batches;
  }

  lemma {:induction false} CountDistinct(ids: seq<PointId>, s: set<PointId>)
    requires NoRepeats(ids) && forall id :: id in ids <==> id in s
    ensures |ids| == |s|
  {
    if ids != [] {
      var n := |ids| - 1;
      forall id ensures id in ids[..n] <==> id in s - {ids[n]} {
        if id in ids[..n] {
          var i :| 0 <= i < n && ids[i] == id;
        }
      }
      CountDistinct(ids[..n], s - {ids[n]});
    } else {
      assert s == {};
    }
  }

  function InferEmbeddingDimension(ds: seq<Document>): int {
    if ds == [] then 0 else if ds[0].vector != [] then |ds[0].vector| else InferEmbeddingDimension(ds[1..])
  }

  lemma InferredFromFirst(ds: seq<Document>)
    requires ds != [] && Complete(ds[0])
    ensures InferEmbeddingDimension(ds) == |ds[0].vector| > 0
  {
  }

  /** The points a push starts from. */
  function Base(collection: Option<Points>, recreate: bool): Option<Points> {
    if recreate then None else collection
  }

  function Stored(base: Option<Points>): Points {
    match base
    case None => map[]
    case Some(m) => m
  }

  /** The points when the documents are in; a negative batch size puts none in. */
  function Upserted(base: Option<Points>, ps: seq<Point>, size: int): Points {
    if size > 0 then Upsert(Stored(base), ps) else Stored(base)
  }

  /** The collection a push ends with: without documents none is created, and a negative batch size deletes nothing. */
  function Target(base: Option<Points>, ps: seq<Point>, project: string, scan: string, size: int,
                  sweep: bool): Option<Points> {
    if base.None? && ps == [] then None
    else if base.Some? && sweep && size > 0 then Some(Swept(Upserted(base, ps, size), project, scan))
    else Some(Upserted(base, ps, size))
  }

  /** The points that are reported as deleted: the stale ones, even where the batch size is negative. */
  function Deletions(base: Option<Points>, ps: seq<Point>, project: string, scan: string, size: int, sweep: bool): nat {
    if base.Some? && sweep then |StaleIds(Upserted(base, ps, size), project, scan)| else 0
  }

  /** Documents with different ids that all carry the project and the scan: for each there is its point. */
  ghost predicate Stores(m: Points, u: Uuids, ds: seq<Document>, project: string, scan: string) {
    (forall i :: 0 <= i < |ds| ==> ds[i].project == Some(project) && ds[i].scan == Some(scan)) ==>
      forall ids :: AreIds(u, ds, ids) && Distinct(ids) ==>
        forall i :: 0 <= i < |ds| ==> ids[i] in m && CarriesDocument(m[ids[i]], ds[i])
  }

  lemma {:induction false} LastPointIs(ps: seq<Point>, i: nat)
    requires i < |ps| && forall j :: i < j < |ps| ==> ps[j].id != ps[i].id
    ensures LastPoint(ps, ps[i].id) == Some(ps[i].body)
    decreases |ps|
  {
    if i < |ps| - 1 {
      LastPointIs(ps[..|ps| - 1], i);
    }
  }

  /** After the upserts, and after the deletions as well, every document is stored. */
  lemma DocumentsStored(before: Points, u: Uuids, ds: seq<Document>, project: string, scan: string)
    requires AllComplete(ds)
    ensures Stores(Upsert(before, PointsOf(u, ds)), u, ds, project, scan)
    ensures Stores(Swept(Upsert(before, PointsOf(u, ds)), project, scan), u, ds, project, scan)
  {
    if forall i :: 0 <= i < |ds| ==> ds[i].project == Some(project) && ds[i].scan == Some(scan) {
      var ps := PointsOf(u, ds);
      forall ids, i | AreIds(u, ds, ids) && Distinct(ids) && 0 <= i < |ds|
        ensures var m := Upsert(before, ps); ids[i] in m && CarriesDocument(m[ids[i]], ds[i])
        ensures var m := Swept(Upsert(before, ps), project, scan); ids[i] in m && CarriesDocument(m[ids[i]], ds[i])
      {
        DocumentStored(before, u, ds, project, scan, ids, i);
      }
    }
  }

  lemma DocumentStored(before: Points, u: Uuids, ds: seq<Document>, project: string, scan: string, ids: seq<PointId>,
                       i: nat)
    requires AllComplete(ds) && AreIds(u, ds, ids) && Distinct(ids) && i < |ds|
    requires ds[i].project == Some(project) && ds[i].scan == Some(scan)
    ensures var m := Upsert(before, PointsOf(u, ds)); ids[i] in m && CarriesDocument(m[ids[i]], ds[i])
    ensures var m := Swept(Upsert(before, PointsOf(u, ds)), project, scan);
            ids[i] in m && CarriesDocument(m[ids[i]], ds[i])
  {
    hide Identified, Upsert, Swept, Complete;
    var ps := PointsOf(u, ds);
    forall j | 0 <= j < |ds| ensures ps[j].id == ids[j] {
      ResolvedIsIdentified(u, ds[j], ids[j]);
    }
    LastPointIs(ps, i);
    UpsertAt(before, ps, ids[i]);
    SweptUpsertAt(before, ps, project, scan, ids[i]);
  }

  /** Where the project is mirrored, it has as many points as documents were pushed. */
  lemma AsManyAsDocuments(m: Points, u: Uuids, ds: seq<Document>, project: string, scan: string, ids: seq<PointId>)
    requires AllComplete(ds) && AreIds(u, ds, ids) && Distinct(ids)
    requires forall i :: 0 <= i < |ds| ==> ds[i].project == Some(project) && ds[i].scan == Some(scan)
    requires Stores(m, u, ds, project, scan) && Mirrors(m, PointsOf(u, ds), project)
    ensures |set id | id in m && m[id].project == Some(project)| == |ds|
  {
    hide Identified, Complete;
    var ps := PointsOf(u, ds);
    var own := set id | id in m && m[id].project == Some(project);
    forall j | 0 <= j < |ds| ensures ps[j].id == ids[j] {
      ResolvedIsIdentified(u, ds[j], ids[j]);
    }
    forall id ensures id in ids <==> id in own {
      if id in own {
        LastPointIn(ps, id);
      }
      if id in ids {
        var i :| 0 <= i < |ids| && ids[i] == id;
        assert id in m && CarriesDocument(m[id], ds[i]);
      }
    }
    CountDistinct(ids, own);
  }

  lemma {:induction false} LastPointIn(ps: seq<Point>, id: PointId)
    requires LastPoint(ps, id).Some?
    ensures exists i :: 0 <= i < |ps| && ps[i].id == id
  {
    if ps[|ps| - 1].id != id {
      LastPointIn(ps[..|ps| - 1], id);
    }
  }

  predicate AllComplete(documents: seq<Document>) {
    forall i :: 0 <= i < |documents| ==> Complete(documents[i])
  }

  lemma NothingUpserted(u: Uuids, m: Points)
    ensures PointsOf(u, []) == [] && Upsert(m, []) == m
  {
  }

  /**
   The whole push. Into a collection that exists, without `recreate` and with `delete_missing`, it ends
   with the stale points of the project swept from under the upserted ones, and every state on the way
   is one of `OnTheWay`. A negative batch size stores and deletes nothing, whatever the counts say.
   */
  method PushEmbeddedPayload(client: QdrantClient, u: Uuids, project: string, scan: string, documents: seq<Document>,
                             embeddingDimension: int, size: int, recreate: bool, deleteMissing: bool)
    returns (outcome: Outcome)
    modifies client
    ensures outcome.MissingProjectId? <==> project == ""
    ensures outcome.MissingScanId? <==> project != "" && scan == ""
    ensures outcome.IncompleteDocument? <==> project != "" && scan != "" && !AllComplete(documents)
    ensures outcome.BadDimension?
        <==> project != "" && scan != "" && documents != [] && AllComplete(documents) && embeddingDimension < 0
    ensures outcome.ZeroStep? <==>
              && project != "" && scan != "" && size == 0 && AllComplete(documents)
              && if documents == []
                  then Base(old(client.collection), recreate).Some? && deleteMissing else embeddingDimension >= 0
    ensures outcome.MissingProjectId? || outcome.MissingScanId? ==> client.collection == old(client.collection)
    ensures outcome.IncompleteDocument? || outcome.BadDimension? ==>
        client.collection == Base(old(client.collection), recreate)
    ensures outcome.ZeroStep? ==>
              client.collection == if documents == [] then Base(old(client.collection), recreate)
                                   else Some(Stored(Base(old(client.collection), recreate)))
    ensures outcome.Done? ==>
              var base := Base(old(client.collection), recreate);
              && AllComplete(documents)
              && client.collection == Target(base, PointsOf(u, documents), project, scan, size, deleteMissing)
              && outcome == Done(|documents|,
                                 Deletions(base, PointsOf(u, documents), project, scan, size, deleteMissing))
    ensures outcome.Done? || outcome.ZeroStep? ==>
              client.vectorSize == if Base(old(client.collection), recreate).Some? || documents == []
                                   then old(client.vectorSize)
                                   else if embeddingDimension != 0 then embeddingDimension else |documents[0].vector|
    ensures outcome.Done? && size > 0 && !recreate && deleteMissing && old(client.collection) != None ==>
              client.collection.Some?
              && |client.collection.value| + outcome.deletedStalePoints
                 == |Upsert(old(client.collection.value), PointsOf(u, documents))|
    ensures outcome.Done? && size > 0 && documents != [] ==>
              client.collection.Some? && Stores(client.collection.value, u, documents, project, scan)
    ensures old(client.states) <= client.states
    ensures !recreate && old(client.collection) != None && AllComplete(documents) ==>
              forall i :: |old(client.states)| <= i < |client.states| ==>
                            OnTheWay(old(client.collection.value), PointsOf(u, documents), project, scan,
                                     client.states[i])
  {
    hide Swept, Upsert, StaleIds, OnTheWay, PointOf, Identified, Stores, CarriesDocument, Falsy, Stale;
    if project == "" {
      return MissingProjectId;
    }
    if scan == "" {
      return MissingScanId;
    }
    var exist := client.collection.Some?;
    if exist && recreate {
      client.DeleteCollection();
      exist := false;
    }
    if documents == [] {
      var deletedNow := 0;
      NothingUpserted(u, Stored(client.collection));
      if exist && !recreate && deleteMissing {
        SweptCounts(client.collection.value, project, scan);
        var allowed;
        deletedNow, allowed := DeleteStale(client, project, scan, size, client.collection.value, []);
        if !allowed {
          return ZeroStep;
        }
      }
      return Done(0, deletedNow);
    }
    var built := BuildQdrantPoints(u, documents);
    if built.None? {
      return IncompleteDocument;
    }
    var points := built.value;
    InferredFromFirst(documents);
    var dimension := if embeddingDimension != 0 then embeddingDimension else InferEmbeddingDimension(documents);
    if dimension <= 0 {
      return BadDimension;
    }
    if !exist {
      client.CreateCollection(dimension);
    }
    if size == 0 {
      return ZeroStep;
    }
    DocumentsStored(client.collection.value, u, documents, project, scan);
    SweptCounts(Upsert(client.collection.value, points), project, scan);
    var deleted := PushPoints(client, points, project, scan, size, exist && deleteMissing);
    outcome := Done(|points|, deleted);
  }

  /** The upserts and, where they are asked for, the deletions. */
  method PushPoints(client: QdrantClient, points: seq<Point>, project: string, scan: string, size: int, sweep: bool)
      returns (deleted: nat)
    requires client.collection.Some? && size != 0
    modifies client`collection, client`states
    ensures var base := old(client.collection);
            && client.collection == Some(if sweep
                                         && size > 0
                                         then Swept(Upserted(base, points, size), project, scan)
                                         else Upserted(base, points, size))
            && deleted == if sweep then |StaleIds(Upserted(base, points, size), project, scan)| else 0
    ensures old(client.states) <= client.states
    ensures forall i :: |old(client.states)| <= i < |client.states| ==>
                          OnTheWay(old(client.collection.value), points, project, scan, client.states[i])
  {
    ghost var before := client.collection.value;
    var batches := Chunked(points, size);
    if size > 0 {
      ConcatChunks(points, size);
    }
    UpsertBatches(client, batches, points, project, scan);
    deleted := 0;
    if sweep {
      var allowed;
      deleted, allowed := DeleteStale(client, project, scan, size, before, if size > 0 then points else []);
    }
  }
}
