/**
 The graph of a repository (`GraphBuilder` and the graph part of `build_artifacts` in
 build_rag_artifacts.py): a first pass over files, types and methods creates nodes and fills the tables by
 which names are resolved; later passes connect what they can resolve, and add configuration keys and
 external services.
 */
module GraphBuilder {
  import opened Common
  import GraphSync

  // ---------------------------------------------------------------- the analysis

  datatype Param = Param(name: string, kind: string)

  /** A method; what the program guesses from its code about external endpoints comes with it. */
  datatype Method = Method(name: string, params: seq<Param>, returnType: string,
                           endpoint: string, canonicalEndpoint: string, httpMethods: seq<string>,
                           analysedHttpMethods: seq<string>,
                           internalCalls: seq<string>, externalPaths: seq<string>, externalHttpMethods: seq<string>)

  datatype TypeInfo = TypeInfo(qualifiedName: string, name: string, nodeKind: string, methods: seq<Method>,
                               internalDependencies: seq<string>, implementsTypes: seq<string>,
                               extendsTypes: seq<string>)

  /** A file with the last component of its path. */
  datatype FileInfo = FileInfo(path: string, name: string, types: seq<TypeInfo>)

  datatype ConfigChunk = ConfigChunk(key: string, usedBy: seq<string>)

  datatype ServiceDependency = ServiceDependency(name: string, configs: seq<string>, usedBy: seq<string>)

  datatype Analysis = Analysis(repository: string, files: seq<FileInfo>, configChunks: seq<ConfigChunk>,
                               serviceDependencies: seq<ServiceDependency>)

  // ---------------------------------------------------------------- node ids

  function FileId(path: string): string { "file:" + path }

  function ClassId(name: string): string { "class:" + name }

  function ConfigId(key: string): string { "config:" + key }

  function ExternalServiceId(name: string): string { "external_service:" + name }

  function ServiceId(name: string): string { "service:" + name }

  function RepositoryId(name: string): string { "repository:" + name }

  function CommaJoined(parts: seq<string>): string {
    if parts == [] then "" else if |parts| == 1 then parts[0]
    else CommaJoined(parts[..|parts| - 1]) + "," + parts[|parts| - 1]
  }

  function HttpText(methods: seq<string>): string {
    if methods == [] then "ANY" else CommaJoined(methods)
  }

  function EndpointId(methods: seq<string>, endpoint: string): string {
    "endpoint:" + HttpText(methods) + ":" + endpoint
  }

  function ExternalEndpointId(service: string, methods: seq<string>, path: string): string {
    "endpoint:external:" + service + ":" + HttpText(methods) + ":" + path
  }

  // ---------------------------------------------------------------- names of types

  predicate Blank(c: char) {
    || '\t' <= c <= '\r' || '\U{1C}' <= c <= ' ' || c == '\U{85}' || c == '\U{A0}' || c == '\U{1680}'
    || '\U{2000}' <= c <= '\U{200A}' || c == '\U{2028}' || c == '\U{2029}' || c == '\U{202F}' || c == '\U{205F}'
        || c == '\U{3000}'
  }

  /** `" ".join(text.split())`. */
  function Collapsed(s: string): string {
    if s == "" then ""
    else
      var c, before := s[|s| - 1], Collapsed(s[..|s| - 1]);
      if Blank(c) then before
      else if before != "" && Blank(s[|s| - 2]) then before + " " + [c]
      else before + [c]
  }

  function NormalizeTypeName(name: string): string {
    if name == "" then "void" else Collapsed(name)
  }

  /** `replace("[]", "")`. */
  function WithoutBrackets(s: string): string {
    if s == "" then ""
    else if |s| >= 2 && s[0] == '[' && s[1] == ']' then WithoutBrackets(s[2..])
    else [s[0]] + WithoutBrackets(s[1..])
  }

  function UpTo(s: string, mark: char): string {
    if s == "" || s[0] == mark then "" else [s[0]] + UpTo(s[1..], mark)
  }

  /** Where the last dot is; `None` without one. */
  function LastDot(s: string): (r: Option<nat>)
    ensures r.Some? ==> r.value < |s| && s[r.value] == '.'
  {
    if s == "" then None
    else if s[|s| - 1] == '.' then Some(|s| - 1)
    else LastDot(s[..|s| - 1])
  }

  function Simple(s: string): string {
    match LastDot(s)
    case None => s
    case Some(i) => s[i + 1..]
  }

  function CleanTypeName(name: string): string {
    UpTo(WithoutBrackets(NormalizeTypeName(name)), '<')
  }

  function Signature(m: Method): string {
    m.name + "(" + CommaJoined(seq(|m.params|, i requires 0 <= i < |m.params| => NormalizeTypeName(m.params[i].kind)))
        + ")"
  }

  function MethodId(owner: string, m: Method): string {
    "method:" + owner + "#" + Signature(m)
  }

  function NameOf(t: TypeInfo): string {
    if t.qualifiedName != "" then t.qualifiedName else t.name
  }

  // ---------------------------------------------------------------- titles

  /** `", ".join(...)` of the types as they are written. */
  function KindsJoined(params: seq<Param>): string {
    if params == [] then ""
    else if |params| == 1 then params[0].kind
    else KindsJoined(params[..|params| - 1]) + ", " + params[|params| - 1].kind
  }

  /** `method_ref_short`. */
  function ShortRef(m: Method): string {
    m.name + "(" + KindsJoined(m.params) + ")"
  }

  function EndpointMethods(m: Method): seq<string> {
    if m.httpMethods != [] then m.httpMethods else m.analysedHttpMethods
  }

  function EndpointTitle(m: Method): string {
    var methods := CommaJoined(EndpointMethods(m));
    if m.canonicalEndpoint != "" then m.canonicalEndpoint
    else (if methods == "" then "ANY" else methods) + " " + m.endpoint
  }

  function ExternalTitle(methods: seq<string>, path: string): string {
    CommaJoined(methods) + " " + path
  }

  // ---------------------------------------------------------------- tables

  /** What names resolve to: simple names to qualified ones, owners and method names to method ids. */
  datatype Tables = Tables(bySimple: map<string, string>, qualified: set<string>,
                           byShort: map<(string, string), seq<string>>, byQualified: map<(string, string), seq<string>>,
                           methodInfo: map<string, Method>)

  const NO_TABLES := Tables(map[], {}, map[], map[], map[])

  function Listed(table: map<(string, string), seq<string>>, owner: string, name: string): seq<string> {
    if (owner, name) in table then table[(owner, name)] else []
  }

  /** The first type of a simple name keeps it. */
  function WithType(ts: Tables, t: TypeInfo): Tables {
    ts.(qualified := ts.qualified + {NameOf(t)},
        bySimple := if t.name != "" && t.name !in ts.bySimple then ts.bySimple[t.name := NameOf(t)] else ts.bySimple)
  }

  function WithMethod(ts: Tables, owner: string, shortOwner: string, m: Method): Tables {
    var id := MethodId(owner, m);
    ts.(methodInfo := ts.methodInfo[id := m],
        byShort := ts.byShort[(shortOwner, m.name) := Listed(ts.byShort, shortOwner, m.name) + [id]],
        byQualified := ts.byQualified[(owner, m.name) := Listed(ts.byQualified, owner, m.name) + [id]])
  }

  function WithMethods(ts: Tables, owner: string, shortOwner: string, ms: seq<Method>): Tables {
    if ms == [] then ts else WithMethod(WithMethods(ts, owner, shortOwner, ms[..|ms| - 1]), owner, shortOwner,
                                        ms[|ms| - 1])
  }

  function WithTypes(ts: Tables, types: seq<TypeInfo>): Tables {
    if types == [] then ts
    else
      var t := types[|types| - 1];
      WithMethods(WithType(WithTypes(ts, types[..|types| - 1]), t), NameOf(t), t.name, t.methods)
  }

  function WithFiles(ts: Tables, files: seq<FileInfo>): Tables {
    if files == [] then ts else WithTypes(WithFiles(ts, files[..|files| - 1]), files[|files| - 1].types)
  }

  // ---------------------------------------------------------------- resolving references

  function ResolveTypeReference(name: string, ts: Tables): Option<string> {
    if name == "" then None
    else
      var clean := CleanTypeName(name);
      if clean in ts.qualified then Some(clean)
      else if Simple(clean) in ts.bySimple then Some(ts.bySimple[Simple(clean)])
      else None
  }

  function ResolveMethodReference(target: string, ts: Tables): seq<string> {
    match LastDot(target)
    case None => []
    case Some(i) =>
      var owner, name := target[..i], target[i + 1..];
      if Listed(ts.byQualified, owner, name) != [] then Listed(ts.byQualified, owner, name)
      else Listed(ts.byShort, owner, name)
  }

  /** All methods that references resolve to, in order. */
  function ResolveAll(targets: seq<string>, ts: Tables): seq<string> {
    if targets == [] then []
    else ResolveAll(targets[..|targets| - 1], ts) + ResolveMethodReference(targets[|targets| - 1], ts)
  }

  // ---------------------------------------------------------------- sorts of ids

  datatype Sort =
    | FileNode | ClassNode | MethodNode | EndpointNode | ConfigNode
    | ServiceNode | ExternalNode | RepositoryNode | NoNode

  /** Ids of different sorts begin differently. */
  function SortOf(id: string): Sort {
    if |id| < 2 then NoNode
    else match id[0]
      case 'f' => FileNode
      case 'm' => MethodNode
      case 's' => ServiceNode
      case 'r' => RepositoryNode
      case 'e' => if id[1] == 'n' then EndpointNode else ExternalNode
      case 'c' => if id[1] == 'l' then ClassNode else ConfigNode
      case _ => NoNode
  }

  const NO_METHOD := Method("", [], "", "", "", [], [], [], [], [])

  lemma SortsOfIds(name: string, methods: seq<string>, path: string, m: Method)
    ensures SortOf(FileId(name)) == FileNode && SortOf(ClassId(name)) == ClassNode
        && SortOf(MethodId(name, m)) == MethodNode
    ensures SortOf(EndpointId(methods, path)) == EndpointNode
        && SortOf(ExternalEndpointId(name, methods, path)) == EndpointNode
    ensures SortOf(ConfigId(name)) == ConfigNode && SortOf(ServiceId(name)) == ServiceNode
    ensures SortOf(ExternalServiceId(name)) == ExternalNode && SortOf(RepositoryId(name)) == RepositoryNode
  {
  }

  lemma SameIds(a: string, b: string)
    ensures ConfigId(a) == ConfigId(b) ==> a == b
    ensures ClassId(a) == ClassId(b) ==> a == b
    ensures RepositoryId(a) == RepositoryId(b) ==> a == b
    ensures ExternalServiceId(a) == ExternalServiceId(b) ==> a == b
  {
    assert ConfigId(a)[7..] == a && ConfigId(b)[7..] == b;
    assert ClassId(a)[6..] == a && ClassId(b)[6..] == b;
    assert RepositoryId(a)[11..] == a && RepositoryId(b)[11..] == b;
    assert ExternalServiceId(a)[17..] == a && ExternalServiceId(b)[17..] == b;
  }

  // ---------------------------------------------------------------- graphs and insertions

  datatype Node = Node(kind: string, title: string)

  datatype EdgeId = EdgeId(from: string, to: string, kind: string)

  /** Metadata of an edge: the parameter that accepts a type, or the key by which a service is called. */
  datatype Metadata = NoMetadata | Parameter(name: string) | ViaConfig(key: string)

  datatype Insertion = PutNode(id: string, node: Node) | PutEdge(edge: EdgeId, metadata: Metadata)

  type Log = seq<Insertion>

  datatype Graph = Graph(nodes: map<string, Node>, nodeOrder: seq<string>, edges: map<EdgeId, Metadata>,
                         edgeOrder: seq<EdgeId>)

  const NO_GRAPH := Graph(map[], [], map[], [])

  /** The last description of an id wins, at its first place; the first metadata of a triple stays. */
  function Insert(g: Graph, i: Insertion): Graph {
    match i
    case PutNode(id, node) =>
      g.(nodes := g.nodes[id := node], nodeOrder := if id in g.nodes then g.nodeOrder else g.nodeOrder + [id])
    case PutEdge(e, metadata) =>
      if e in g.edges then g else g.(edges := g.edges[e := metadata], edgeOrder := g.edgeOrder + [e])
  }

  /** The graph after insertions, one after the other. */
  function Replay(g: Graph, log: Log): Graph {
    if log == [] then g else Insert(Replay(g, log[..|log| - 1]), log[|log| - 1])
  }

  lemma {:induction false} ReplayAppend(g: Graph, a: Log, b: Log)
    ensures Replay(g, a + b) == Replay(Replay(g, a), b)
  {
    if b == [] {
      assert a + b == a;
    } else {
      assert (a + b)[..|a + b| - 1] == a + b[..|b| - 1];
      ReplayAppend(g, a, b[..|b| - 1]);
    }
  }

  lemma ReplayFew(g: Graph, a: Insertion, b: Insertion, c: Insertion)
    ensures Replay(g, []) == g && Replay(g, [a]) == Insert(g, a)
    ensures Replay(g, [a, b]) == Insert(Insert(g, a), b)
    ensures Replay(g, [a, b, c]) == Insert(Insert(Insert(g, a), b), c)
  {
    assert [a][..0] == [] && [a, b][..1] == [a] && [a, b, c][..2] == [a, b];
    assert Replay(g, [a]) == Insert(g, a);
    assert Replay(g, [a, b]) == Insert(Replay(g, [a]), b);
  }

  function NodeIn(g: Graph, id: string): Option<Node> {
    if id in g.nodes then Some(g.nodes[id]) else None
  }

  function EdgeIn(g: Graph, e: EdgeId): Option<Metadata> {
    if e in g.edges then Some(g.edges[e]) else None
  }

  /** The last description that insertions give an id. */
  function Described(log: Log, id: string): Option<Node> {
    if log == [] then None
    else
      var last := log[|log| - 1];
      if last.PutNode? && last.id == id then Some(last.node) else Described(log[..|log| - 1], id)
  }

  /** The first metadata that insertions give a triple. */
  function FirstOf(log: Log, e: EdgeId): Option<Metadata> {
    if log == [] then None
    else
      var before, last := FirstOf(log[..|log| - 1], e), log[|log| - 1];
      if before.Some? then before else if last.PutEdge? && last.edge == e then Some(last.metadata) else None
  }

  function OrElse<T>(a: Option<T>, b: Option<T>): Option<T> {
    if a.Some? then a else b
  }

  ghost predicate ListedOnce(g: Graph) {
    && (forall id :: id in g.nodes <==> id in g.nodeOrder)
    && (forall i, j :: 0 <= i < j < |g.nodeOrder| ==> g.nodeOrder[i] != g.nodeOrder[j])
    && (forall e :: e in g.edges <==> e in g.edgeOrder)
    && (forall i, j :: 0 <= i < j < |g.edgeOrder| ==> g.edgeOrder[i] != g.edgeOrder[j])
  }

  /** What was there keeps its place, edges keep their metadata, and nodes get their last description. */
  lemma {:induction false} ReplayMeans(g: Graph, log: Log, id: string, e: EdgeId)
    ensures var after := Replay(g, log);
            && NodeIn(after, id) == OrElse(Described(log, id), NodeIn(g, id))
            && EdgeIn(after, e) == OrElse(EdgeIn(g, e), FirstOf(log, e))
            && g.nodeOrder <= after.nodeOrder && g.edgeOrder <= after.edgeOrder
            && (ListedOnce(g) ==> ListedOnce(after))
  {
    if log != [] {
      ReplayMeans(g, log[..|log| - 1], id, e);
    }
  }

  lemma {:induction false} LogAppend(a: Log, b: Log, id: string, e: EdgeId)
    ensures Described(a + b, id) == OrElse(Described(b, id), Described(a, id))
    ensures FirstOf(a + b, e) == OrElse(FirstOf(a, e), FirstOf(b, e))
  {
    if b == [] {
      assert a + b == a;
    } else {
      assert (a + b)[..|a + b| - 1] == a + b[..|b| - 1];
      LogAppend(a, b[..|b| - 1], id, e);
    }
  }

  function Says(i: Insertion, id: string): Option<Node> {
    if i.PutNode? && i.id == id then Some(i.node) else None
  }

  function Carries(i: Insertion, e: EdgeId): Option<Metadata> {
    if i.PutEdge? && i.edge == e then Some(i.metadata) else None
  }

  lemma SayOne(a: Insertion, id: string, e: EdgeId)
    ensures Described([a], id) == Says(a, id) && FirstOf([a], e) == Carries(a, e)
  {
    assert [a][..0] == [];
    assert FirstOf([a][..0], e) == None && Described([a][..0], id) == None;
  }

  lemma SayFew(a: Insertion, b: Insertion, c: Insertion, id: string, e: EdgeId)
    ensures Described([a], id) == Says(a, id) && FirstOf([a], e) == Carries(a, e)
    ensures Described([a, b], id) == OrElse(Says(b, id), Says(a, id))
        && FirstOf([a, b], e) == OrElse(Carries(a, e), Carries(b, e))
    ensures Described([a, b, c], id) == OrElse(Says(c, id), OrElse(Says(b, id), Says(a, id)))
    ensures FirstOf([a, b, c], e) == OrElse(Carries(a, e), OrElse(Carries(b, e), Carries(c, e)))
  {
    hide Described, FirstOf;
    assert [a, b] == [a] + [b] && [a, b, c] == [a, b] + [c];
    SayOne(a, id, e);
    SayOne(b, id, e);
    SayOne(c, id, e);
    LogAppend([a], [b], id, e);
    LogAppend([a, b], [c], id, e);
  }

  // ---------------------------------------------------------------- what an analysis inserts

  const RESOLVES_TO := "RESOLVES_TO"

  function Link(from: string, to: string, kind: string): Insertion {
    PutEdge(EdgeId(from, to, kind), NoMetadata)
  }

  /** The edge by which a service dependency names a configuration key. */
  function ConfigEdge(key: string, service: string): EdgeId {
    EdgeId(ConfigId(key), ExternalServiceId(service), RESOLVES_TO)
  }

  function EndpointOf(m: Method): string {
    EndpointId(EndpointMethods(m), m.endpoint)
  }

  function MethodRoot(owner: string, m: Method): Log {
    [PutNode(MethodId(owner, m), Node("Method", ShortRef(m))),
     Link(ClassId(owner), MethodId(owner, m), "DECLARES_METHOD")]
  }

  function EndpointLog(id: string, m: Method): Log {
    [PutNode(EndpointOf(m), Node("Endpoint", EndpointTitle(m))), Link(id, EndpointOf(m), "EXPOSES")]
  }

  function MethodLog(owner: string, m: Method): Log {
    MethodRoot(owner, m) + if m.endpoint == "" then [] else EndpointLog(MethodId(owner, m), m)
  }

  function MethodsLog(owner: string, ms: seq<Method>): Log {
    if ms == [] then [] else MethodsLog(owner, ms[..|ms| - 1]) + MethodLog(owner, ms[|ms| - 1])
  }

  function TypeRoot(service: string, file: string, id: string, t: TypeInfo): Log {
    [PutNode(id, Node(t.nodeKind, t.name)), Link(service, id, "CONTAINS_COMPONENT"), Link(file, id, "DECLARES_CLASS")]
  }

  function TypeLog(service: string, file: string, t: TypeInfo): Log {
    TypeRoot(service, file, ClassId(NameOf(t)), t) + MethodsLog(NameOf(t), t.methods)
  }

  function TypesLog(service: string, file: string, types: seq<TypeInfo>): Log {
    if types == [] then []
    else TypesLog(service, file, types[..|types| - 1]) + TypeLog(service, file, types[|types| - 1])
  }

  function FileRoot(repository: string, f: FileInfo): Log {
    [PutNode(FileId(f.path), Node("File", f.name)), Link(repository, FileId(f.path), "HAS_FILE")]
  }

  function FileLog(repository: string, service: string, f: FileInfo): Log {
    FileRoot(repository, f) + TypesLog(service, FileId(f.path), f.types)
  }

  function FilesLog(repository: string, service: string, files: seq<FileInfo>): Log {
    if files == [] then []
    else FilesLog(repository, service, files[..|files| - 1]) + FileLog(repository, service, files[|files| - 1])
  }

  /** The edge to a type, if the reference resolves. */
  function TypeLink(from: string, name: string, kind: string, metadata: Metadata, ts: Tables): Log {
    match ResolveTypeReference(name, ts)
    case None => []
    case Some(q) => if q == "" then [] else [PutEdge(EdgeId(from, ClassId(q), kind), metadata)]
  }

  function TypeLinks(from: string, names: seq<string>, kind: string, ts: Tables): Log {
    if names == [] then []
    else TypeLinks(from, names[..|names| - 1], kind, ts) + TypeLink(from, names[|names| - 1], kind, NoMetadata, ts)
  }

  function ParamLinks(from: string, params: seq<Param>, ts: Tables): Log {
    if params == [] then []
    else
      var p := params[|params| - 1];
      ParamLinks(from, params[..|params| - 1], ts) + TypeLink(from, p.kind, "ACCEPTS", Parameter(p.name), ts)
  }

  function LinksTo(from: string, targets: seq<string>, kind: string): Log {
    if targets == [] then []
    else LinksTo(from, targets[..|targets| - 1], kind) + [Link(from, targets[|targets| - 1], kind)]
  }

  function LinksFrom(sources: seq<string>, to: string, kind: string): Log {
    if sources == [] then []
    else LinksFrom(sources[..|sources| - 1], to, kind) + [Link(sources[|sources| - 1], to, kind)]
  }

  function MethodLinks(owner: string, m: Method, ts: Tables): Log {
    var id := MethodId(owner, m);
    LinksTo(id, ResolveAll(m.internalCalls, ts), "CALLS") + TypeLink(id, m.returnType, "RETURNS", NoMetadata, ts)
        + ParamLinks(id, m.params, ts)
  }

  function MethodsLinks(owner: string, ms: seq<Method>, ts: Tables): Log {
    if ms == [] then [] else MethodsLinks(owner, ms[..|ms| - 1], ts) + MethodLinks(owner, ms[|ms| - 1], ts)
  }

  function ClassLinks(t: TypeInfo, ts: Tables): Log {
    var id := ClassId(NameOf(t));
    TypeLinks(id, t.internalDependencies, "DEPENDS_ON", ts) + TypeLinks(id, t.implementsTypes, "IMPLEMENTS", ts)
    + TypeLinks(id, t.extendsTypes, "EXTENDS", ts) + MethodsLinks(NameOf(t), t.methods, ts)
  }

  function ClassesLinks(types: seq<TypeInfo>, ts: Tables): Log {
    if types == [] then [] else ClassesLinks(types[..|types| - 1], ts) + ClassLinks(types[|types| - 1], ts)
  }

  function FilesLinks(files: seq<FileInfo>, ts: Tables): Log {
    if files == [] then [] else FilesLinks(files[..|files| - 1], ts) + ClassesLinks(files[|files| - 1].types, ts)
  }

  function ConfigRoot(repository: string, service: string, key: string): Log {
    [PutNode(ConfigId(key), Node("ConfigKey", key)), Link(repository, ConfigId(key), "HAS_CONFIG"),
     Link(service, ConfigId(key), "CONTAINS_COMPONENT")]
  }

  function ConfigLog(repository: string, service: string, c: ConfigChunk, ts: Tables): Log {
    ConfigRoot(repository, service, c.key) + LinksFrom(ResolveAll(c.usedBy, ts), ConfigId(c.key), "USES_CONFIG")
  }

  function ConfigsLog(repository: string, service: string, cs: seq<ConfigChunk>, ts: Tables): Log {
    if cs == [] then []
    else ConfigsLog(repository, service, cs[..|cs| - 1], ts) + ConfigLog(repository, service, cs[|cs| - 1], ts)
  }

  /** The methods that use a configuration key, over all chunks. */
  function UsersOf(key: string, cs: seq<ConfigChunk>, ts: Tables): seq<string> {
    if cs == [] then []
    else UsersOf(key, cs[..|cs| - 1], ts) + if cs[|cs| - 1].key == key then ResolveAll(cs[|cs| - 1].usedBy, ts) else []
  }

  function PathLog(user: string, service: string, methods: seq<string>, path: string): Log {
    var id := ExternalEndpointId(service, methods, path);
    [PutNode(id, Node("Endpoint", ExternalTitle(methods, path))), Link(user, id, "CALLS_ENDPOINT"),
     Link(id, ExternalServiceId(service), RESOLVES_TO)]
  }

  function PathsLog(user: string, service: string, methods: seq<string>, paths: seq<string>): Log {
    if paths == [] then []
    else
      PathsLog(user, service, methods, paths[..|paths| - 1])
      + PathLog(user, service, methods, paths[|paths| - 1])
  }

  /** The external endpoints that the code of a user mentions. */
  function MentionedLog(user: string, service: string, ts: Tables): Log {
    if user in ts.methodInfo
    then PathsLog(user, service, ts.methodInfo[user].externalHttpMethods, ts.methodInfo[user].externalPaths) else []
  }

  /** A user of an external service. */
  function UserLog(user: string, service: string, via: Metadata, ts: Tables): Log {
    [PutEdge(EdgeId(user, ExternalServiceId(service), "CALLS_EXTERNAL"), via)] + MentionedLog(user, service, ts)
  }

  function UsersLog(users: seq<string>, service: string, via: Metadata, ts: Tables): Log {
    if users == [] then []
    else UsersLog(users[..|users| - 1], service, via, ts) + UserLog(users[|users| - 1], service, via, ts)
  }

  /** The users a service has through its configuration keys. */
  function KeyUsersLog(keys: seq<string>, service: string, cs: seq<ConfigChunk>, ts: Tables): Log {
    if keys == [] then []
    else
      var key := keys[|keys| - 1];
      KeyUsersLog(keys[..|keys| - 1], service, cs, ts) + UsersLog(UsersOf(key, cs, ts), service, ViaConfig(key), ts)
  }

  function PromisedLog(keys: seq<string>, service: string): Log {
    if keys == [] then []
    else PromisedLog(keys[..|keys| - 1], service) + [PutEdge(ConfigEdge(keys[|keys| - 1], service), NoMetadata)]
  }

  function ServiceRoot(repository: string, service: string, name: string): Log {
    [PutNode(ExternalServiceId(name), Node("ExternalService", name)),
     Link(repository, ExternalServiceId(name), "HAS_EXTERNAL_SERVICE"),
     Link(service, ExternalServiceId(name), "CONTAINS_COMPONENT")]
  }

  function ReferenceLog(name: string): Log {
    [PutNode(RepositoryId(name), Node("RepositoryReference", name)),
     Link(ExternalServiceId(name), RepositoryId(name), "REPRESENTS")]
  }

  function ServiceLog(repository: string, service: string, d: ServiceDependency, cs: seq<ConfigChunk>,
                      ts: Tables): Log {
    ServiceRoot(repository, service, d.name) + ReferenceLog(d.name) + PromisedLog(d.configs, d.name)
    + UsersLog(ResolveAll(d.usedBy, ts), d.name, NoMetadata, ts) + KeyUsersLog(d.configs, d.name, cs, ts)
  }

  function ServicesLog(repository: string, service: string, ds: seq<ServiceDependency>, cs: seq<ConfigChunk>,
                       ts: Tables): Log {
    if ds == [] then []
    else
      ServicesLog(repository, service, ds[..|ds| - 1], cs, ts)
      + ServiceLog(repository, service, ds[|ds| - 1], cs, ts)
  }

  function Roots(name: string): Log {
    [PutNode(RepositoryId(name), Node("Repository", name)), PutNode(ServiceId(name), Node("Service", name)),
     Link(RepositoryId(name), ServiceId(name), "OWNS")]
  }

  function TablesOf(a: Analysis): Tables {
    WithFiles(NO_TABLES, a.files)
  }

  function FirstPass(a: Analysis): Log {
    FilesLog(RepositoryId(a.repository), ServiceId(a.repository), a.files)
  }

  function SecondPass(a: Analysis): Log {
    FilesLinks(a.files, TablesOf(a))
  }

  function ConfigPass(a: Analysis): Log {
    ConfigsLog(RepositoryId(a.repository), ServiceId(a.repository), a.configChunks, TablesOf(a))
  }

  function ServicePass(a: Analysis): Log {
    ServicesLog(RepositoryId(a.repository), ServiceId(a.repository), a.serviceDependencies, a.configChunks, TablesOf(a))
  }

  /** All insertions for an analysis, in the order of the program. */
  function WholeLog(a: Analysis): Log {
    Roots(a.repository) + FirstPass(a) + SecondPass(a) + ConfigPass(a) + ServicePass(a)
  }

  /** The graph of an analysis. */
  function Built(a: Analysis): Graph {
    Replay(NO_GRAPH, WholeLog(a))
  }

  // ---------------------------------------------------------------- edges join nodes

  /**
   What is said of a list of insertions: which ids have nodes, which edges need not begin at one, the sorts of
   the nodes put in, and the only kind of edges that may carry metadata.
   */
  datatype Frame = Frame(all: set<string>, promised: set<EdgeId>, sorts: set<Sort>, loud: string)

  predicate Loud(kind: string) {
    kind == "ACCEPTS" || kind == "CALLS_EXTERNAL"
  }

  predicate Fits(i: Insertion, f: Frame) {
    match i
    case PutNode(id, _) => SortOf(id) in f.sorts
    case PutEdge(e, metadata) =>
      e.to in f.all && (e.from in f.all || e in f.promised)
          && if Loud(e.kind) then e.kind == f.loud else metadata.NoMetadata?
  }

  ghost predicate Sound(log: Log, f: Frame) {
    forall i :: i in log ==> Fits(i, f)
  }

  /** The nodes put in are among those of the frame. */
  ghost predicate Has(log: Log, all: set<string>) {
    forall i :: i in log && i.PutNode? ==> i.id in all
  }

  lemma Both(a: Log, b: Log, f: Frame)
    ensures Sound(a + b, f) <==> Sound(a, f) && Sound(b, f)
    ensures Has(a + b, f.all) <==> Has(a, f.all) && Has(b, f.all)
  {
    forall i ensures i in a + b <==> i in a || i in b {
    }
  }

  lemma SoundFew(a: Insertion, b: Insertion, c: Insertion, f: Frame)
    ensures Sound([], f) && Has([], f.all)
    ensures Sound([a], f) <==> Fits(a, f)
    ensures Sound([a, b], f) <==> Fits(a, f) && Fits(b, f)
    ensures Sound([a, b, c], f) <==> Fits(a, f) && Fits(b, f) && Fits(c, f)
    ensures Has([a, b], f.all) <==> (a.PutNode? ==> a.id in f.all) && (b.PutNode? ==> b.id in f.all)
    ensures Has([a, b, c], f.all)
        <==> (a.PutNode? ==> a.id in f.all) && (b.PutNode? ==> b.id in f.all) && (c.PutNode? ==> c.id in f.all)
  {
    hide Fits;
    assert a in [a] && a in [a, b] && b in [a, b] && a in [a, b, c] && b in [a, b, c] && c in [a, b, c];
  }

  /** What a sound list cannot say. */
  lemma {:induction false} NotSaid(log: Log, f: Frame, id: string, e: EdgeId)
    requires Sound(log, f)
    ensures SortOf(id) !in f.sorts ==> Described(log, id).None?
    ensures Loud(e.kind) && e.kind != f.loud ==> FirstOf(log, e).None?
    ensures !Loud(e.kind) ==> FirstOf(log, e).None? || FirstOf(log, e) == Some(NoMetadata)
  {
    if log != [] {
      var n := |log| - 1;
      assert log[n] in log && forall i :: i in log[..n] ==> i in log;
      NotSaid(log[..n], f, id, e);
      assert Fits(log[n], f);
      hide SortOf, Loud;
    }
  }

  /** A frame that admits these sorts. */
  predicate Admits(f: Frame, sorts: set<Sort>) {
    sorts <= f.sorts
  }

  lemma MethodSound(owner: string, m: Method, f: Frame)
    requires ClassId(owner) in f.all && Has(MethodLog(owner, m), f.all) && Admits(f, {MethodNode, EndpointNode})
    ensures Sound(MethodLog(owner, m), f) && MethodId(owner, m) in f.all
  {
    SortsOfIds(owner, EndpointMethods(m), m.endpoint, m);
    var id := MethodId(owner, m);
    var node, declares := PutNode(id, Node("Method", ShortRef(m))), Link(ClassId(owner), id, "DECLARES_METHOD");
    var endpoint, exposes := PutNode(EndpointOf(m), Node("Endpoint", EndpointTitle(m))),
        Link(id, EndpointOf(m), "EXPOSES");
    hide SortOf, MethodId, ClassId, EndpointId, Sound, Has, EndpointTitle, ShortRef, EndpointMethods;
    SoundFew(node, declares, node, f);
    SoundFew(endpoint, exposes, endpoint, f);
    Both(MethodRoot(owner, m), if m.endpoint == "" then [] else EndpointLog(id, m), f);
  }

  lemma {:induction false} MethodsSound(owner: string, ms: seq<Method>, f: Frame)
    requires ClassId(owner) in f.all && Has(MethodsLog(owner, ms), f.all) && Admits(f, {MethodNode, EndpointNode})
    ensures Sound(MethodsLog(owner, ms), f)
    ensures forall m :: m in ms ==> MethodId(owner, m) in f.all
  {
    hide ClassId, MethodLog, Sound, Has, MethodId, Admits;
    if ms != [] {
      var n := |ms| - 1;
      Both(MethodsLog(owner, ms[..n]), MethodLog(owner, ms[n]), f);
      MethodsSound(owner, ms[..n], f);
      MethodSound(owner, ms[n], f);
    } else {
      SoundNone(f);
    }
  }

  lemma SoundNone(f: Frame)
    ensures Sound([], f) && Has([], f.all)
  {
  }

  /** The type and its methods have nodes. */
  ghost predicate Declared(t: TypeInfo, all: set<string>) {
    ClassId(NameOf(t)) in all && forall m :: m in t.methods ==> MethodId(NameOf(t), m) in all
  }

  lemma TypeRootSound(service: string, file: string, id: string, t: TypeInfo, f: Frame)
    requires service in f.all && file in f.all && Has(TypeRoot(service, file, id, t), f.all) && SortOf(id) in f.sorts
    ensures Sound(TypeRoot(service, file, id, t), f) && id in f.all
  {
    var node := PutNode(id, Node(t.nodeKind, t.name));
    var contains, declares := Link(service, id, "CONTAINS_COMPONENT"), Link(file, id, "DECLARES_CLASS");
    hide SortOf, Sound, Has;
    SoundFew(node, contains, declares, f);
  }

  lemma TypeSound(service: string, file: string, t: TypeInfo, f: Frame)
    requires service in f.all && file in f.all && Has(TypeLog(service, file, t), f.all)
    requires Admits(f, {ClassNode, MethodNode, EndpointNode})
    ensures Sound(TypeLog(service, file, t), f) && Declared(t, f.all)
  {
    hide ClassId, MethodId, SortOf, Sound, Has, NameOf, MethodsLog, TypeRoot;
    var id := ClassId(NameOf(t));
    SortsOfIds(NameOf(t), [], "", NO_METHOD);
    Both(TypeRoot(service, file, id, t), MethodsLog(NameOf(t), t.methods), f);
    TypeRootSound(service, file, id, t, f);
    MethodsSound(NameOf(t), t.methods, f);
  }

  ghost predicate AllDeclared(types: seq<TypeInfo>, all: set<string>) {
    forall t :: t in types ==> Declared(t, all)
  }

  lemma {:induction false} TypesSound(service: string, file: string, types: seq<TypeInfo>, f: Frame)
    requires service in f.all && file in f.all && Has(TypesLog(service, file, types), f.all)
    requires Admits(f, {ClassNode, MethodNode, EndpointNode})
    ensures Sound(TypesLog(service, file, types), f) && AllDeclared(types, f.all)
  {
    hide TypeLog, Sound, Has, Declared, Admits;
    if types != [] {
      var n := |types| - 1;
      Both(TypesLog(service, file, types[..n]), TypeLog(service, file, types[n]), f);
      TypesSound(service, file, types[..n], f);
      TypeSound(service, file, types[n], f);
    } else {
      SoundNone(f);
    }
  }

  lemma FileSound(repository: string, service: string, file: FileInfo, f: Frame)
    requires repository in f.all && service in f.all && Has(FileLog(repository, service, file), f.all)
    requires Admits(f, {FileNode, ClassNode, MethodNode, EndpointNode})
    ensures Sound(FileLog(repository, service, file), f) && AllDeclared(file.types, f.all)
  {
    var id := FileId(file.path);
    var node, has := PutNode(id, Node("File", file.name)), Link(repository, id, "HAS_FILE");
    SortsOfIds(file.path, [], "", NO_METHOD);
    hide FileId, SortOf, TypesLog, AllDeclared, Sound, Has;
    SoundFew(node, has, node, f);
    Both(FileRoot(repository, file), TypesLog(service, id, file.types), f);
    TypesSound(service, id, file.types, f);
  }

  lemma {:induction false} FilesSound(repository: string, service: string, files: seq<FileInfo>, f: Frame)
    requires repository in f.all && service in f.all && Has(FilesLog(repository, service, files), f.all)
    requires Admits(f, {FileNode, ClassNode, MethodNode, EndpointNode})
    ensures Sound(FilesLog(repository, service, files), f)
    ensures forall file :: file in files ==> AllDeclared(file.types, f.all)
  {
    hide FileLog, Sound, Has, AllDeclared, Admits;
    if files != [] {
      var n := |files| - 1;
      Both(FilesLog(repository, service, files[..n]), FileLog(repository, service, files[n]), f);
      FilesSound(repository, service, files[..n], f);
      FileSound(repository, service, files[n], f);
    } else {
      SoundNone(f);
    }
  }

  // ---------------------------------------------------------------- tables lead to nodes

  ghost predicate AllIn(table: map<(string, string), seq<string>>, all: set<string>) {
    forall k, id :: k in table && id in table[k] ==> id in all
  }

  /** Whatever the tables resolve to is a node. */
  ghost predicate Resolvable(ts: Tables, all: set<string>) {
    && (forall q :: q in ts.qualified ==> ClassId(q) in all)
    && (forall n :: n in ts.bySimple ==> ClassId(ts.bySimple[n]) in all)
    && AllIn(ts.byShort, all) && AllIn(ts.byQualified, all)
  }

  lemma MethodResolvable(ts: Tables, owner: string, shortOwner: string, m: Method, all: set<string>)
    requires Resolvable(ts, all) && MethodId(owner, m) in all
    ensures Resolvable(WithMethod(ts, owner, shortOwner, m), all)
  {
    hide MethodId, ClassId;
  }

  lemma {:induction false} MethodsResolvable(ts: Tables, owner: string, shortOwner: string, ms: seq<Method>,
                                             all: set<string>)
    requires Resolvable(ts, all) && forall m :: m in ms ==> MethodId(owner, m) in all
    ensures Resolvable(WithMethods(ts, owner, shortOwner, ms), all)
  {
    hide Resolvable, WithMethod, MethodId;
    if ms != [] {
      MethodsResolvable(ts, owner, shortOwner, ms[..|ms| - 1], all);
      MethodResolvable(WithMethods(ts, owner, shortOwner, ms[..|ms| - 1]), owner, shortOwner, ms[|ms| - 1], all);
    }
  }

  lemma TypeResolvable(ts: Tables, t: TypeInfo, all: set<string>)
    requires Resolvable(ts, all) && Declared(t, all)
    ensures Resolvable(WithMethods(WithType(ts, t), NameOf(t), t.name, t.methods), all)
  {
    assert Resolvable(WithType(ts, t), all) by {
      hide ClassId, NameOf, AllIn;
    }
    MethodsResolvable(WithType(ts, t), NameOf(t), t.name, t.methods, all);
  }

  lemma {:induction false} TypesResolvable(ts: Tables, types: seq<TypeInfo>, all: set<string>)
    requires Resolvable(ts, all) && AllDeclared(types, all)
    ensures Resolvable(WithTypes(ts, types), all)
  {
    hide Resolvable, Declared, WithMethods, WithType, NameOf;
    if types != [] {
      TypesResolvable(ts, types[..|types| - 1], all);
      TypeResolvable(WithTypes(ts, types[..|types| - 1]), types[|types| - 1], all);
    }
  }

  lemma {:induction false} FilesResolvable(ts: Tables, files: seq<FileInfo>, all: set<string>)
    requires Resolvable(ts, all) && forall f :: f in files ==> AllDeclared(f.types, all)
    ensures Resolvable(WithFiles(ts, files), all)
  {
    hide Resolvable, AllDeclared, WithTypes;
    if files != [] {
      FilesResolvable(ts, files[..|files| - 1], all);
      TypesResolvable(WithFiles(ts, files[..|files| - 1]), files[|files| - 1].types, all);
    }
  }

  lemma ReferenceResolves(target: string, ts: Tables, all: set<string>)
    requires Resolvable(ts, all)
    ensures forall id :: id in ResolveMethodReference(target, ts) ==> id in all
  {
    hide ClassId;
  }

  lemma {:induction false} ReferencesResolve(targets: seq<string>, ts: Tables, all: set<string>)
    requires Resolvable(ts, all)
    ensures forall id :: id in ResolveAll(targets, ts) ==> id in all
  {
    hide Resolvable, ResolveMethodReference;
    if targets != [] {
      ReferencesResolve(targets[..|targets| - 1], ts, all);
      ReferenceResolves(targets[|targets| - 1], ts, all);
    }
  }

  // ---------------------------------------------------------------- links

  /** Metadata that a link of this kind may carry. */
  predicate MayCarry(kind: string, metadata: Metadata, f: Frame) {
    if Loud(kind) then kind == f.loud else metadata.NoMetadata?
  }

  lemma TypeLinkSound(from: string, name: string, kind: string, metadata: Metadata, ts: Tables, f: Frame)
    requires Resolvable(ts, f.all) && from in f.all && MayCarry(kind, metadata, f)
    ensures Sound(TypeLink(from, name, kind, metadata, ts), f)
  {
    hide ClassId, CleanTypeName, Simple, AllIn, Loud;
  }

  lemma {:induction false} TypeLinksSound(from: string, names: seq<string>, kind: string, ts: Tables, f: Frame)
    requires Resolvable(ts, f.all) && from in f.all && MayCarry(kind, NoMetadata, f)
    ensures Sound(TypeLinks(from, names, kind, ts), f)
  {
    hide Resolvable, TypeLink, Sound, MayCarry;
    if names != [] {
      var n := |names| - 1;
      TypeLinksSound(from, names[..n], kind, ts, f);
      TypeLinkSound(from, names[n], kind, NoMetadata, ts, f);
      Both(TypeLinks(from, names[..n], kind, ts), TypeLink(from, names[n], kind, NoMetadata, ts), f);
    } else {
      SoundNone(f);
    }
  }

  lemma {:induction false} ParamLinksSound(from: string, params: seq<Param>, ts: Tables, f: Frame)
    requires Resolvable(ts, f.all) && from in f.all && f.loud == "ACCEPTS"
    ensures Sound(ParamLinks(from, params, ts), f)
  {
    hide Resolvable, TypeLink, Sound;
    if params != [] {
      var n := |params| - 1;
      ParamLinksSound(from, params[..n], ts, f);
      TypeLinkSound(from, params[n].kind, "ACCEPTS", Parameter(params[n].name), ts, f);
      Both(ParamLinks(from, params[..n], ts), TypeLink(from, params[n].kind, "ACCEPTS", Parameter(params[n].name), ts),
           f);
    } else {
      SoundNone(f);
    }
  }

  lemma {:induction false} LinksSound(x: string, ys: seq<string>, kind: string, f: Frame)
    requires x in f.all && (forall y :: y in ys ==> y in f.all) && MayCarry(kind, NoMetadata, f)
    ensures Sound(LinksTo(x, ys, kind), f) && Sound(LinksFrom(ys, x, kind), f)
  {
    hide Loud;
    if ys != [] {
      var n := |ys| - 1;
      LinksSound(x, ys[..n], kind, f);
      Both(LinksTo(x, ys[..n], kind), [Link(x, ys[n], kind)], f);
      Both(LinksFrom(ys[..n], x, kind), [Link(ys[n], x, kind)], f);
    }
  }

  lemma MethodLinksSound(owner: string, m: Method, ts: Tables, f: Frame)
    requires Resolvable(ts, f.all) && MethodId(owner, m) in f.all && f.loud == "ACCEPTS"
    ensures Sound(MethodLinks(owner, m, ts), f)
  {
    hide Resolvable, MethodId, TypeLink, ParamLinks, LinksTo, ResolveAll, Sound;
    var id := MethodId(owner, m);
    var calls, returns_ := LinksTo(id, ResolveAll(m.internalCalls, ts), "CALLS"),
        TypeLink(id, m.returnType, "RETURNS", NoMetadata, ts);
    ReferencesResolve(m.internalCalls, ts, f.all);
    LinksSound(id, ResolveAll(m.internalCalls, ts), "CALLS", f);
    TypeLinkSound(id, m.returnType, "RETURNS", NoMetadata, ts, f);
    ParamLinksSound(id, m.params, ts, f);
    Both(calls, returns_, f);
    Both(calls + returns_, ParamLinks(id, m.params, ts), f);
  }

  lemma {:induction false} MethodsLinksSound(owner: string, ms: seq<Method>, ts: Tables, f: Frame)
    requires Resolvable(ts, f.all) && (forall m :: m in ms ==> MethodId(owner, m) in f.all) && f.loud == "ACCEPTS"
    ensures Sound(MethodsLinks(owner, ms, ts), f)
  {
    hide Resolvable, MethodId, MethodLinks, Sound;
    if ms != [] {
      var n := |ms| - 1;
      MethodsLinksSound(owner, ms[..n], ts, f);
      MethodLinksSound(owner, ms[n], ts, f);
      Both(MethodsLinks(owner, ms[..n], ts), MethodLinks(owner, ms[n], ts), f);
    } else {
      SoundNone(f);
    }
  }

  lemma ClassLinksSound(t: TypeInfo, ts: Tables, f: Frame)
    requires Resolvable(ts, f.all) && Declared(t, f.all) && f.loud == "ACCEPTS"
    ensures Sound(ClassLinks(t, ts), f)
  {
    hide Resolvable, ClassId, MethodId, TypeLinks, MethodsLinks, NameOf, Sound;
    var id := ClassId(NameOf(t));
    TypeLinksSound(id, t.internalDependencies, "DEPENDS_ON", ts, f);
    TypeLinksSound(id, t.implementsTypes, "IMPLEMENTS", ts, f);
    TypeLinksSound(id, t.extendsTypes, "EXTENDS", ts, f);
    MethodsLinksSound(NameOf(t), t.methods, ts, f);
    var depends, implements := TypeLinks(id, t.internalDependencies, "DEPENDS_ON", ts),
        TypeLinks(id, t.implementsTypes, "IMPLEMENTS", ts);
    var extends_ := TypeLinks(id, t.extendsTypes, "EXTENDS", ts);
    Both(depends, implements, f);
    Both(depends + implements, extends_, f);
    Both(depends + implements + extends_, MethodsLinks(NameOf(t), t.methods, ts), f);
  }

  lemma {:induction false} ClassesLinksSound(types: seq<TypeInfo>, ts: Tables, f: Frame)
    requires Resolvable(ts, f.all) && AllDeclared(types, f.all) && f.loud == "ACCEPTS"
    ensures Sound(ClassesLinks(types, ts), f)
  {
    hide Resolvable, Declared, ClassLinks, Sound;
    if types != [] {
      var n := |types| - 1;
      ClassesLinksSound(types[..n], ts, f);
      ClassLinksSound(types[n], ts, f);
      Both(ClassesLinks(types[..n], ts), ClassLinks(types[n], ts), f);
    } else {
      SoundNone(f);
    }
  }

  lemma {:induction false} FilesLinksSound(files: seq<FileInfo>, ts: Tables, f: Frame)
    requires Resolvable(ts, f.all) && (forall file :: file in files ==> AllDeclared(file.types, f.all))
        && f.loud == "ACCEPTS"
    ensures Sound(FilesLinks(files, ts), f)
  {
    hide Resolvable, AllDeclared, ClassesLinks, Sound;
    if files != [] {
      var n := |files| - 1;
      FilesLinksSound(files[..n], ts, f);
      ClassesLinksSound(files[n].types, ts, f);
      Both(FilesLinks(files[..n], ts), ClassesLinks(files[n].types, ts), f);
    } else {
      SoundNone(f);
    }
  }

  // ---------------------------------------------------------------- configuration

  lemma ConfigSound(repository: string, service: string, c: ConfigChunk, ts: Tables, f: Frame)
    requires Resolvable(ts, f.all) && repository in f.all && service in f.all
    requires Has(ConfigLog(repository, service, c, ts), f.all) && Admits(f, {ConfigNode})
    ensures Sound(ConfigLog(repository, service, c, ts), f) && ConfigId(c.key) in f.all
  {
    var id := ConfigId(c.key);
    var node := PutNode(id, Node("ConfigKey", c.key));
    var has, contains := Link(repository, id, "HAS_CONFIG"), Link(service, id, "CONTAINS_COMPONENT");
    var users := ResolveAll(c.usedBy, ts);
    SortsOfIds(c.key, [], "", NO_METHOD);
    hide Resolvable, ConfigId, SortOf, ResolveAll, LinksFrom, Sound, Has;
    SoundFew(node, has, contains, f);
    Both(ConfigRoot(repository, service, c.key), LinksFrom(users, id, "USES_CONFIG"), f);
    ReferencesResolve(c.usedBy, ts, f.all);
    LinksSound(id, users, "USES_CONFIG", f);
  }

  lemma {:induction false} ConfigsSound(repository: string, service: string, cs: seq<ConfigChunk>, ts: Tables, f: Frame)
    requires Resolvable(ts, f.all) && repository in f.all && service in f.all
    requires Has(ConfigsLog(repository, service, cs, ts), f.all) && Admits(f, {ConfigNode})
    ensures Sound(ConfigsLog(repository, service, cs, ts), f)
    ensures forall c :: c in cs ==> ConfigId(c.key) in f.all
  {
    hide Resolvable, ConfigId, ConfigLog, Sound, Has, Admits;
    if cs != [] {
      var n := |cs| - 1;
      Both(ConfigsLog(repository, service, cs[..n], ts), ConfigLog(repository, service, cs[n], ts), f);
      ConfigsSound(repository, service, cs[..n], ts, f);
      ConfigSound(repository, service, cs[n], ts, f);
    } else {
      SoundNone(f);
    }
  }

  lemma {:induction false} LinksDescribeNothing(sources: seq<string>, to: string, kind: string, id: string)
    ensures Described(LinksFrom(sources, to, kind), id).None?
  {
    if sources != [] {
      LinksDescribeNothing(sources[..|sources| - 1], to, kind, id);
    }
  }

  ghost predicate IsKey(cs: seq<ConfigChunk>, key: string) {
    exists c :: c in cs && c.key == key
  }

  /** A key has a node if and only if a chunk has the key. */
  lemma {:induction false} ConfigsDescribe(repository: string, service: string, cs: seq<ConfigChunk>, ts: Tables,
                                           key: string)
    ensures Described(ConfigsLog(repository, service, cs, ts), ConfigId(key))
         == if IsKey(cs, key) then Some(Node("ConfigKey", key)) else None
  {
    if cs != [] {
      var n := |cs| - 1;
      var e := EdgeId("", "", "");
      var users := LinksFrom(ResolveAll(cs[n].usedBy, ts), ConfigId(cs[n].key), "USES_CONFIG");
      ConfigsDescribe(repository, service, cs[..n], ts, key);
      LogAppend(ConfigsLog(repository, service, cs[..n], ts), ConfigLog(repository, service, cs[n], ts), ConfigId(key),
                e);
      LogAppend(ConfigRoot(repository, service, cs[n].key), users, ConfigId(key), e);
      LinksDescribeNothing(ResolveAll(cs[n].usedBy, ts), ConfigId(cs[n].key), "USES_CONFIG", ConfigId(key));
      ConfigRootDescribes(repository, service, cs[n].key, key);
      hide ConfigId, LinksFrom, ConfigRoot, Described, ResolveAll;
      assert cs == cs[..n] + [cs[n]];
      assert IsKey(cs, key) <==> IsKey(cs[..n], key) || cs[n].key == key;
    }
  }

  lemma ConfigRootDescribes(repository: string, service: string, key: string, k: string)
    ensures Described(ConfigRoot(repository, service, key), ConfigId(k))
        == if k == key then Some(Node("ConfigKey", key)) else None
  {
    SameIds(k, key);
    hide ConfigId, Described;
    SayFew(PutNode(ConfigId(key), Node("ConfigKey", key)), Link(repository, ConfigId(key), "HAS_CONFIG"),
           Link(service, ConfigId(key), "CONTAINS_COMPONENT"), ConfigId(k), ConfigEdge("", ""));
  }

  lemma {:induction false} UsersResolve(key: string, cs: seq<ConfigChunk>, ts: Tables, all: set<string>)
    requires Resolvable(ts, all)
    ensures forall id :: id in UsersOf(key, cs, ts) ==> id in all
  {
    hide Resolvable, ResolveAll;
    if cs != [] {
      UsersResolve(key, cs[..|cs| - 1], ts, all);
      ReferencesResolve(cs[|cs| - 1].usedBy, ts, all);
    }
  }

  // ---------------------------------------------------------------- services

  lemma PathSound(user: string, service: string, methods: seq<string>, path: string, f: Frame)
    requires user in f.all && ExternalServiceId(service) in f.all && Has(PathLog(user, service, methods, path), f.all)
    requires Admits(f, {EndpointNode})
    ensures Sound(PathLog(user, service, methods, path), f)
  {
    var id := ExternalEndpointId(service, methods, path);
    var node := PutNode(id, Node("Endpoint", ExternalTitle(methods, path)));
    var calls, resolves := Link(user, id, "CALLS_ENDPOINT"), Link(id, ExternalServiceId(service), RESOLVES_TO);
    SortsOfIds(service, methods, path, NO_METHOD);
    hide ExternalServiceId, ExternalEndpointId, ExternalTitle, SortOf, Sound, Has;
    SoundFew(node, calls, resolves, f);
  }

  lemma {:induction false} PathsSound(user: string, service: string, methods: seq<string>, paths: seq<string>, f: Frame)
    requires user in f.all && ExternalServiceId(service) in f.all && Has(PathsLog(user, service, methods, paths), f.all)
    requires Admits(f, {EndpointNode})
    ensures Sound(PathsLog(user, service, methods, paths), f)
  {
    hide ExternalServiceId, PathLog, Sound, Has, Admits;
    if paths != [] {
      var n := |paths| - 1;
      Both(PathsLog(user, service, methods, paths[..n]), PathLog(user, service, methods, paths[n]), f);
      PathsSound(user, service, methods, paths[..n], f);
      PathSound(user, service, methods, paths[n], f);
    } else {
      SoundNone(f);
    }
  }

  lemma UserSound(user: string, service: string, via: Metadata, ts: Tables, f: Frame)
    requires user in f.all && ExternalServiceId(service) in f.all && Has(UserLog(user, service, via, ts), f.all)
    requires Admits(f, {EndpointNode}) && f.loud == "CALLS_EXTERNAL"
    ensures Sound(UserLog(user, service, via, ts), f)
  {
    hide ExternalServiceId, PathsLog, Sound, Has, Admits;
    var call := PutEdge(EdgeId(user, ExternalServiceId(service), "CALLS_EXTERNAL"), via);
    SoundFew(call, call, call, f);
    SoundNone(f);
    Both([call], MentionedLog(user, service, ts), f);
    if user in ts.methodInfo {
      PathsSound(user, service, ts.methodInfo[user].externalHttpMethods, ts.methodInfo[user].externalPaths, f);
    }
  }

  lemma {:induction false} UsersSound(users: seq<string>, service: string, via: Metadata, ts: Tables, f: Frame)
    requires ExternalServiceId(service) in f.all && (forall u :: u in users ==> u in f.all)
        && Has(UsersLog(users, service, via, ts), f.all)
    requires Admits(f, {EndpointNode}) && f.loud == "CALLS_EXTERNAL"
    ensures Sound(UsersLog(users, service, via, ts), f)
  {
    hide ExternalServiceId, UserLog, Sound, Has, Admits;
    if users != [] {
      var n := |users| - 1;
      Both(UsersLog(users[..n], service, via, ts), UserLog(users[n], service, via, ts), f);
      UsersSound(users[..n], service, via, ts, f);
      UserSound(users[n], service, via, ts, f);
    } else {
      SoundNone(f);
    }
  }

  lemma {:induction false} KeyUsersSound(keys: seq<string>, service: string, cs: seq<ConfigChunk>, ts: Tables, f: Frame)
    requires Resolvable(ts, f.all) && ExternalServiceId(service) in f.all
        && Has(KeyUsersLog(keys, service, cs, ts), f.all)
    requires Admits(f, {EndpointNode}) && f.loud == "CALLS_EXTERNAL"
    ensures Sound(KeyUsersLog(keys, service, cs, ts), f)
  {
    hide Resolvable, ExternalServiceId, UsersLog, Sound, Has, UsersOf, Admits;
    if keys != [] {
      var n := |keys| - 1;
      var users := UsersOf(keys[n], cs, ts);
      Both(KeyUsersLog(keys[..n], service, cs, ts), UsersLog(users, service, ViaConfig(keys[n]), ts), f);
      KeyUsersSound(keys[..n], service, cs, ts, f);
      UsersResolve(keys[n], cs, ts, f.all);
      UsersSound(users, service, ViaConfig(keys[n]), ts, f);
    } else {
      SoundNone(f);
    }
  }

  lemma {:induction false} PromisedSound(keys: seq<string>, service: string, f: Frame)
    requires ExternalServiceId(service) in f.all && forall k :: k in keys ==> ConfigEdge(k, service) in f.promised
    ensures Sound(PromisedLog(keys, service), f)
    ensures forall k :: k in keys ==> PutEdge(ConfigEdge(k, service), NoMetadata) in PromisedLog(keys, service)
  {
    if keys != [] {
      var n := |keys| - 1;
      hide ExternalServiceId, ConfigId;
      PromisedSound(keys[..n], service, f);
      Both(PromisedLog(keys[..n], service), [PutEdge(ConfigEdge(keys[n], service), NoMetadata)], f);
    }
  }

  lemma ServiceRootSound(repository: string, service: string, name: string, f: Frame)
    requires repository in f.all && service in f.all && Has(ServiceRoot(repository, service, name), f.all)
        && Has(ReferenceLog(name), f.all)
    requires Admits(f, {ExternalNode, RepositoryNode})
    ensures Sound(ServiceRoot(repository, service, name), f) && Sound(ReferenceLog(name), f)
        && ExternalServiceId(name) in f.all
  {
    var id, reference := ExternalServiceId(name), RepositoryId(name);
    SortsOfIds(name, [], "", NO_METHOD);
    hide ExternalServiceId, RepositoryId, SortOf, Sound, Has;
    SoundFew(PutNode(id, Node("ExternalService", name)), Link(repository, id, "HAS_EXTERNAL_SERVICE"),
             Link(service, id, "CONTAINS_COMPONENT"), f);
    SoundFew(PutNode(reference, Node("RepositoryReference", name)), Link(id, reference, "REPRESENTS"),
             Link(id, reference, "REPRESENTS"), f);
  }

  /** The five parts of a service dependency, as lists and as what they say. */
  lemma ServiceParts(repository: string, service: string, d: ServiceDependency, cs: seq<ConfigChunk>, ts: Tables,
                     f: Frame, id: string, e: EdgeId)
    ensures var all := ServiceLog(repository, service, d, cs, ts);
            var root, reference, promised := ServiceRoot(repository, service, d.name), ReferenceLog(d.name),
                PromisedLog(d.configs, d.name);
            var users, keyUsers := UsersLog(ResolveAll(d.usedBy, ts), d.name, NoMetadata, ts),
                KeyUsersLog(d.configs, d.name, cs, ts);
            && all == root + reference + promised + users + keyUsers
            && (Sound(all, f) <==>
                  Sound(root, f) && Sound(reference, f) && Sound(promised, f) && Sound(users, f) && Sound(keyUsers, f))
            && (Has(all, f.all) ==>
                Has(root, f.all) && Has(reference, f.all) && Has(users, f.all) && Has(keyUsers, f.all))
            && Described(all, id) == OrElse(Described(keyUsers, id),
                                            OrElse(Described(users, id), OrElse(Described(promised, id),
                                     OrElse(Described(reference, id), Described(root, id)))))
            && FirstOf(all, e) == OrElse(OrElse(OrElse(OrElse(FirstOf(root, e), FirstOf(reference, e)),
                                                       FirstOf(promised, e)),
                                                FirstOf(users, e)), FirstOf(keyUsers, e))
  {
    var root, reference, promised := ServiceRoot(repository, service, d.name), ReferenceLog(d.name),
        PromisedLog(d.configs, d.name);
    var users, keyUsers := UsersLog(ResolveAll(d.usedBy, ts), d.name, NoMetadata, ts),
        KeyUsersLog(d.configs, d.name, cs, ts);
    assert ServiceLog(repository, service, d, cs, ts) == root + reference + promised + users + keyUsers;
    FiveSound(root, reference, promised, users, keyUsers, f);
    FiveSay(root, reference, promised, users, keyUsers, id, e);
    hide *;
  }

  lemma FiveSound(p: Log, q: Log, r: Log, s: Log, t: Log, f: Frame)
    ensures Sound(p + q + r + s + t, f) <==> Sound(p, f) && Sound(q, f) && Sound(r, f) && Sound(s, f) && Sound(t, f)
    ensures Has(p + q + r + s + t, f.all)
        <==> Has(p, f.all) && Has(q, f.all) && Has(r, f.all) && Has(s, f.all) && Has(t, f.all)
  {
    hide Sound, Has;
    Both(p, q, f);
    Both(p + q, r, f);
    Both(p + q + r, s, f);
    Both(p + q + r + s, t, f);
  }

  lemma FiveSay(p: Log, q: Log, r: Log, s: Log, t: Log, id: string, e: EdgeId)
    ensures Described(p + q + r + s + t, id)
        == OrElse(Described(t, id), OrElse(Described(s, id), OrElse(Described(r, id),
                                                OrElse(Described(q, id), Described(p, id)))))
    ensures FirstOf(p + q + r + s + t, e) == OrElse(OrElse(OrElse(OrElse(FirstOf(p, e), FirstOf(q, e)), FirstOf(r, e)),
                                                           FirstOf(s, e)), FirstOf(t, e))
  {
    hide *;
    LogAppend(p, q, id, e);
    LogAppend(p + q, r, id, e);
    LogAppend(p + q + r, s, id, e);
    LogAppend(p + q + r + s, t, id, e);
  }

  lemma ServiceSound(repository: string, service: string, d: ServiceDependency, cs: seq<ConfigChunk>, ts: Tables,
                     f: Frame)
    requires Resolvable(ts, f.all) && repository in f.all && service in f.all
        && Has(ServiceLog(repository, service, d, cs, ts), f.all)
    requires Admits(f, {ExternalNode, RepositoryNode, EndpointNode}) && f.loud == "CALLS_EXTERNAL"
    requires forall k :: k in d.configs ==> ConfigEdge(k, d.name) in f.promised
    ensures Sound(ServiceLog(repository, service, d, cs, ts), f)
    ensures forall k ::
        k in d.configs ==> PutEdge(ConfigEdge(k, d.name), NoMetadata) in ServiceLog(repository, service, d, cs, ts)
  {
    hide Resolvable, ExternalServiceId, ServiceRoot, ReferenceLog, PromisedLog, UsersLog, KeyUsersLog, ServiceLog,
        ResolveAll, ConfigEdge, Sound, Has;
    ServiceParts(repository, service, d, cs, ts, f, "", ConfigEdge("", ""));
    ServiceRootSound(repository, service, d.name, f);
    PromisedSound(d.configs, d.name, f);
    ReferencesResolve(d.usedBy, ts, f.all);
    UsersSound(ResolveAll(d.usedBy, ts), d.name, NoMetadata, ts, f);
    KeyUsersSound(d.configs, d.name, cs, ts, f);
  }

  lemma {:induction false} ServicesSound(repository: string, service: string, ds: seq<ServiceDependency>,
                                         cs: seq<ConfigChunk>, ts: Tables, f: Frame)
    requires Resolvable(ts, f.all) && repository in f.all && service in f.all
        && Has(ServicesLog(repository, service, ds, cs, ts), f.all)
    requires Admits(f, {ExternalNode, RepositoryNode, EndpointNode}) && f.loud == "CALLS_EXTERNAL"
    requires forall d, k :: d in ds && k in d.configs ==> ConfigEdge(k, d.name) in f.promised
    ensures Sound(ServicesLog(repository, service, ds, cs, ts), f)
    ensures forall d, k :: d in ds && k in d.configs ==>
              PutEdge(ConfigEdge(k, d.name), NoMetadata) in ServicesLog(repository, service, ds, cs, ts)
  {
    hide Resolvable, ServiceLog, ConfigEdge, Sound, Has, Admits;
    if ds != [] {
      var n := |ds| - 1;
      Both(ServicesLog(repository, service, ds[..n], cs, ts), ServiceLog(repository, service, ds[n], cs, ts), f);
      ServicesSound(repository, service, ds[..n], cs, ts, f);
      ServiceSound(repository, service, ds[n], cs, ts, f);
      assert ds == ds[..n] + [ds[n]];
    } else {
      SoundNone(f);
    }
  }

  // ---------------------------------------------------------------- the whole graph

  function FrameOf(a: Analysis, sorts: set<Sort>, loud: string): Frame {
    Frame(Built(a).nodes.Keys, set d, k | d in a.serviceDependencies && k in d.configs ::
          ConfigEdge(k, d.name), sorts, loud)
  }

  lemma {:induction false} PutIsDescribed(log: Log, i: Insertion)
    requires i in log
    ensures i.PutNode? ==> Described(log, i.id).Some?
    ensures i.PutEdge? ==> FirstOf(log, i.edge).Some?
  {
    var n := |log| - 1;
    assert log == log[..n] + [log[n]];
    if i in log[..n] {
      PutIsDescribed(log[..n], i);
    }
  }

  lemma {:induction false} CarriedIsPut(log: Log, e: EdgeId)
    requires FirstOf(log, e).Some?
    ensures PutEdge(e, FirstOf(log, e).value) in log
  {
    if FirstOf(log[..|log| - 1], e).Some? {
      CarriedIsPut(log[..|log| - 1], e);
    }
  }

  /** The graph of an analysis holds, for every id and triple, what the list of insertions says of it. */
  lemma BuiltMeans(a: Analysis, id: string, e: EdgeId)
    ensures NodeIn(Built(a), id) == Described(WholeLog(a), id) && EdgeIn(Built(a), e) == FirstOf(WholeLog(a), e)
    ensures ListedOnce(Built(a))
  {
    hide WholeLog, Described, FirstOf, Replay;
    ReplayMeans(NO_GRAPH, WholeLog(a), id, e);
  }

  lemma BuiltHas(a: Analysis)
    ensures Has(WholeLog(a), Built(a).nodes.Keys)
  {
    hide WholeLog, Built;
    forall i | i in WholeLog(a) && i.PutNode? ensures i.id in Built(a).nodes {
      PutIsDescribed(WholeLog(a), i);
      BuiltMeans(a, i.id, ConfigEdge("", ""));
    }
  }

  lemma PassesHave(a: Analysis)
    ensures var all := Built(a).nodes.Keys;
            Has(Roots(a.repository), all) && Has(FirstPass(a), all) && Has(SecondPass(a), all)
                && Has(ConfigPass(a), all) && Has(ServicePass(a), all)
  {
    BuiltHas(a);
    var f := FrameOf(a, {}, "");
    hide Built, Roots, FirstPass, SecondPass, ConfigPass, ServicePass, Has;
    Both(Roots(a.repository), FirstPass(a), f);
    Both(Roots(a.repository) + FirstPass(a), SecondPass(a), f);
    Both(Roots(a.repository) + FirstPass(a) + SecondPass(a), ConfigPass(a), f);
    Both(Roots(a.repository) + FirstPass(a) + SecondPass(a) + ConfigPass(a), ServicePass(a), f);
  }

  lemma RootsSound(name: string, f: Frame)
    requires Has(Roots(name), f.all) && Admits(f, {RepositoryNode, ServiceNode})
    ensures Sound(Roots(name), f) && RepositoryId(name) in f.all && ServiceId(name) in f.all
  {
    SortsOfIds(name, [], "", NO_METHOD);
    hide RepositoryId, ServiceId, SortOf, Sound, Has;
    SoundFew(PutNode(RepositoryId(name), Node("Repository", name)), PutNode(ServiceId(name), Node("Service", name)),
             Link(RepositoryId(name), ServiceId(name), "OWNS"), f);
  }

  lemma NoTablesResolvable(all: set<string>)
    ensures Resolvable(NO_TABLES, all)
  {
  }

  /** What each pass contributes, in one graph. */
  lemma PassesSound(a: Analysis)
    ensures Sound(Roots(a.repository), FrameOf(a, {RepositoryNode, ServiceNode}, ""))
    ensures Sound(FirstPass(a), FrameOf(a, {FileNode, ClassNode, MethodNode, EndpointNode}, ""))
    ensures Sound(SecondPass(a), FrameOf(a, {}, "ACCEPTS"))
    ensures Sound(ConfigPass(a), FrameOf(a, {ConfigNode}, ""))
    ensures Sound(ServicePass(a), FrameOf(a, {ExternalNode, RepositoryNode, EndpointNode}, "CALLS_EXTERNAL"))
    ensures forall d, k ::
        d in a.serviceDependencies && k in d.configs ==> PutEdge(ConfigEdge(k, d.name), NoMetadata) in ServicePass(a)
  {
    var repository, service, ts := RepositoryId(a.repository), ServiceId(a.repository), TablesOf(a);
    hide Built, Resolvable, AllDeclared, RepositoryId, ServiceId, ConfigId, ExternalServiceId, Roots, Sound, Has;
    hide FilesLog, FilesLinks, ConfigsLog, ServicesLog, WithFiles;
    PassesHave(a);
    RootsSound(a.repository, FrameOf(a, {RepositoryNode, ServiceNode}, ""));
    FilesSound(repository, service, a.files, FrameOf(a, {FileNode, ClassNode, MethodNode, EndpointNode}, ""));
    NoTablesResolvable(Built(a).nodes.Keys);
    FilesResolvable(NO_TABLES, a.files, Built(a).nodes.Keys);
    FilesLinksSound(a.files, ts, FrameOf(a, {}, "ACCEPTS"));
    ConfigsSound(repository, service, a.configChunks, ts, FrameOf(a, {ConfigNode}, ""));
    ServicesSound(repository, service, a.serviceDependencies, a.configChunks, ts,
                  FrameOf(a, {ExternalNode, RepositoryNode, EndpointNode}, "CALLS_EXTERNAL"));
  }

  /** What the whole list says of an id or a triple, pass by pass. */
  lemma PassesSay(a: Analysis, id: string, e: EdgeId)
    ensures NodeIn(Built(a), id)
         == OrElse(Described(ServicePass(a), id),
                   OrElse(Described(ConfigPass(a), id), OrElse(Described(SecondPass(a), id),
            OrElse(Described(FirstPass(a), id), Described(Roots(a.repository), id)))))
    ensures EdgeIn(Built(a), e)
         == OrElse(FirstOf(Roots(a.repository), e), OrElse(FirstOf(FirstPass(a), e), OrElse(FirstOf(SecondPass(a), e),
            OrElse(FirstOf(ConfigPass(a), e), FirstOf(ServicePass(a), e)))))
  {
    BuiltMeans(a, id, e);
    hide Built, Roots, FirstPass, SecondPass, ConfigPass, ServicePass, Described, FirstOf;
    LogAppend(Roots(a.repository), FirstPass(a), id, e);
    LogAppend(Roots(a.repository) + FirstPass(a), SecondPass(a), id, e);
    LogAppend(Roots(a.repository) + FirstPass(a) + SecondPass(a), ConfigPass(a), id, e);
    LogAppend(Roots(a.repository) + FirstPass(a) + SecondPass(a) + ConfigPass(a), ServicePass(a), id, e);
  }

  /** A configuration key has a node if and only if a chunk has the key. */
  lemma ConfigNodeIs(a: Analysis, key: string)
    ensures NodeIn(Built(a), ConfigId(key)) == if IsKey(a.configChunks, key) then Some(Node("ConfigKey", key)) else None
  {
    hide Built, Sound, Roots, SortOf, ConfigId, Described, FirstOf, FirstPass, SecondPass, ServicePass, ConfigsLog,
        IsKey;
    var id, e := ConfigId(key), ConfigEdge("", "");
    PassesSound(a);
    PassesSay(a, id, e);
    SortsOfIds(key, [], "", NO_METHOD);
    NotSaid(Roots(a.repository), FrameOf(a, {RepositoryNode, ServiceNode}, ""), id, e);
    NotSaid(FirstPass(a), FrameOf(a, {FileNode, ClassNode, MethodNode, EndpointNode}, ""), id, e);
    NotSaid(SecondPass(a), FrameOf(a, {}, "ACCEPTS"), id, e);
    NotSaid(ServicePass(a), FrameOf(a, {ExternalNode, RepositoryNode, EndpointNode}, "CALLS_EXTERNAL"), id, e);
    ConfigsDescribe(RepositoryId(a.repository), ServiceId(a.repository), a.configChunks, TablesOf(a), key);
  }

  /** A service dependency names a configuration key that no configuration chunk has. */
  ghost predicate Unbacked(a: Analysis, e: EdgeId) {
    exists d, k ::
        d in a.serviceDependencies && k in d.configs && e == ConfigEdge(k, d.name) && !IsKey(a.configChunks, k)
  }

  lemma EdgesEnd(a: Analysis, e: EdgeId)
    requires e in Built(a).edges
    ensures e.to in Built(a).nodes && (e.from in Built(a).nodes || e in FrameOf(a, {}, "").promised)
  {
    hide Built, Sound, Roots, FirstPass, SecondPass, ConfigPass, ServicePass, FirstOf, Described, SortOf, Loud,
        ConfigEdge;
    PassesSound(a);
    BuiltMeans(a, "", e);
    CarriedIsPut(WholeLog(a), e);
    var i := PutEdge(e, FirstOf(WholeLog(a), e).value);
    if i in Roots(a.repository) {
      SoundFits(Roots(a.repository), FrameOf(a, {RepositoryNode, ServiceNode}, ""), i);
    } else if i in FirstPass(a) {
      SoundFits(FirstPass(a), FrameOf(a, {FileNode, ClassNode, MethodNode, EndpointNode}, ""), i);
    } else if i in SecondPass(a) {
      SoundFits(SecondPass(a), FrameOf(a, {}, "ACCEPTS"), i);
    } else if i in ConfigPass(a) {
      SoundFits(ConfigPass(a), FrameOf(a, {ConfigNode}, ""), i);
    } else {
      SoundFits(ServicePass(a), FrameOf(a, {ExternalNode, RepositoryNode, EndpointNode}, "CALLS_EXTERNAL"), i);
    }
  }

  lemma SoundFits(log: Log, f: Frame, i: Insertion)
    requires Sound(log, f) && i in log
    ensures Fits(i, f)
  {
  }

  /**
   For every analysis: each edge of its graph ends at a node of the graph, and begins at one too, except
   exactly the edges from a configuration key that a service dependency names and no configuration chunk
   has.
   */
  lemma EdgesJoinNodes(a: Analysis, e: EdgeId)
    requires e in Built(a).edges
    ensures e.to in Built(a).nodes && (e.from in Built(a).nodes <==> !Unbacked(a, e))
  {
    EdgesEnd(a, e);
    hide Built, ConfigId, ExternalServiceId, IsKey;
    if Unbacked(a, e) {
      var d, k :| d in a.serviceDependencies && k in d.configs && e == ConfigEdge(k, d.name)
          && !IsKey(a.configChunks, k);
      ConfigNodeIs(a, k);
    } else if e in FrameOf(a, {}, "").promised {
      var d, k :| d in a.serviceDependencies && k in d.configs && e == ConfigEdge(k, d.name);
      ConfigNodeIs(a, k);
    }
  }

  /** A key that a service dependency names has an edge, whether or not the key has a node. */
  lemma NamedKeyHasEdge(a: Analysis, d: ServiceDependency, k: string)
    requires d in a.serviceDependencies && k in d.configs
    ensures ConfigEdge(k, d.name) in Built(a).edges
  {
    var e := ConfigEdge(k, d.name);
    hide Built, ConfigEdge, Sound, Roots, FirstPass, SecondPass, ConfigPass, ServicePass, FirstOf, Described;
    PassesSound(a);
    assert PutEdge(e, NoMetadata) in WholeLog(a);
    PutIsDescribed(WholeLog(a), PutEdge(e, NoMetadata));
    BuiltMeans(a, "", e);
  }

  /** A repository with one service dependency, whose key has no configuration chunk. */
  lemma OneUnbackedEdge(repository: string, service: string, key: string)
    ensures var a := Analysis(repository, [], [], [ServiceDependency(service, [key], [])]);
            var e := ConfigEdge(key, service);
            e in Built(a).edges && e.to in Built(a).nodes && e.from !in Built(a).nodes
  {
    var d := ServiceDependency(service, [key], []);
    var a := Analysis(repository, [], [], [d]);
    hide Built, ConfigEdge;
    assert d in a.serviceDependencies && key in d.configs && !IsKey(a.configChunks, key);
    NamedKeyHasEdge(a, d, key);
    assert Unbacked(a, ConfigEdge(key, service));
    EdgesJoinNodes(a, ConfigEdge(key, service));
  }

  // ---------------------------------------------------------------- descriptions of nodes

  /** The last type of a qualified name. */
  function LastType(types: seq<TypeInfo>, q: string): Option<TypeInfo> {
    if types == [] then None
    else if NameOf(types[|types| - 1]) == q then Some(types[|types| - 1])
    else LastType(types[..|types| - 1], q)
  }

  function LastTypeIn(files: seq<FileInfo>, q: string): Option<TypeInfo> {
    if files == [] then None else OrElse(LastType(files[|files| - 1].types, q), LastTypeIn(files[..|files| - 1], q))
  }

  function TypeNode(t: Option<TypeInfo>): Option<Node> {
    match t
    case None => None
    case Some(info) => Some(Node(info.nodeKind, info.name))
  }

  lemma MethodDescribesNoClass(owner: string, m: Method, q: string)
    ensures Described(MethodLog(owner, m), ClassId(q)).None?
  {
    var id, e := MethodId(owner, m), ConfigEdge("", "");
    SortsOfIds(owner, EndpointMethods(m), m.endpoint, m);
    SortsOfIds(q, [], "", NO_METHOD);
    var declares, exposes := Link(ClassId(owner), id, "DECLARES_METHOD"), Link(id, EndpointOf(m), "EXPOSES");
    hide SortOf, MethodId, ClassId, EndpointId, EndpointMethods, EndpointTitle, ShortRef, Described, FirstOf;
    SayFew(PutNode(id, Node("Method", ShortRef(m))), declares, declares, ClassId(q), e);
    SayFew(PutNode(EndpointOf(m), Node("Endpoint", EndpointTitle(m))), exposes, exposes, ClassId(q), e);
    LogAppend(MethodRoot(owner, m), EndpointLog(id, m), ClassId(q), e);
    assert MethodRoot(owner, m) + [] == MethodRoot(owner, m);
  }

  lemma {:induction false} MethodsDescribeNoClass(owner: string, ms: seq<Method>, q: string)
    ensures Described(MethodsLog(owner, ms), ClassId(q)).None?
  {
    hide MethodLog, ClassId;
    if ms != [] {
      var n := |ms| - 1;
      MethodsDescribeNoClass(owner, ms[..n], q);
      MethodDescribesNoClass(owner, ms[n], q);
      LogAppend(MethodsLog(owner, ms[..n]), MethodLog(owner, ms[n]), ClassId(q), ConfigEdge("", ""));
    }
  }

  lemma TypeDescribes(service: string, file: string, t: TypeInfo, q: string)
    ensures Described(TypeLog(service, file, t), ClassId(q)) == if NameOf(t) == q then TypeNode(Some(t)) else None
  {
    var id, e := ClassId(NameOf(t)), ConfigEdge("", "");
    SameIds(NameOf(t), q);
    MethodsDescribeNoClass(NameOf(t), t.methods, q);
    hide ClassId, NameOf, MethodsLog, Described, FirstOf;
    SayFew(PutNode(id, Node(t.nodeKind, t.name)), Link(service, id, "CONTAINS_COMPONENT"),
           Link(file, id, "DECLARES_CLASS"), ClassId(q), e);
    LogAppend(TypeRoot(service, file, id, t), MethodsLog(NameOf(t), t.methods), ClassId(q), e);
  }

  lemma {:induction false} TypesDescribe(service: string, file: string, types: seq<TypeInfo>, q: string)
    ensures Described(TypesLog(service, file, types), ClassId(q)) == TypeNode(LastType(types, q))
  {
    hide TypeLog, ClassId, NameOf;
    if types != [] {
      var n := |types| - 1;
      TypesDescribe(service, file, types[..n], q);
      TypeDescribes(service, file, types[n], q);
      LogAppend(TypesLog(service, file, types[..n]), TypeLog(service, file, types[n]), ClassId(q), ConfigEdge("", ""));
    }
  }

  lemma FileDescribes(repository: string, service: string, file: FileInfo, q: string)
    ensures Described(FileLog(repository, service, file), ClassId(q)) == TypeNode(LastType(file.types, q))
  {
    var id, e := FileId(file.path), ConfigEdge("", "");
    SortsOfIds(file.path, [], "", NO_METHOD);
    SortsOfIds(q, [], "", NO_METHOD);
    TypesDescribe(service, id, file.types, q);
    hide ClassId, FileId, TypesLog, Described, FirstOf, LastType, SortOf;
    SayFew(PutNode(id, Node("File", file.name)), Link(repository, id, "HAS_FILE"), Link(repository, id, "HAS_FILE"),
           ClassId(q), e);
    LogAppend(FileRoot(repository, file), TypesLog(service, id, file.types), ClassId(q), e);
  }

  lemma {:induction false} FilesDescribe(repository: string, service: string, files: seq<FileInfo>, q: string)
    ensures Described(FilesLog(repository, service, files), ClassId(q)) == TypeNode(LastTypeIn(files, q))
  {
    hide FileLog, ClassId, LastType;
    if files != [] {
      var n := |files| - 1;
      FilesDescribe(repository, service, files[..n], q);
      FileDescribes(repository, service, files[n], q);
      LogAppend(FilesLog(repository, service, files[..n]), FileLog(repository, service, files[n]), ClassId(q),
                ConfigEdge("", ""));
    }
  }

  /** A type has a node, with the kind and name of the last type of its qualified name. */
  lemma ClassNodeIs(a: Analysis, q: string)
    ensures NodeIn(Built(a), ClassId(q)) == TypeNode(LastTypeIn(a.files, q))
  {
    hide Built, Sound, Roots, SortOf, ClassId, Described, FirstOf, FilesLog, SecondPass, ServicePass, ConfigPass,
        LastTypeIn;
    var id, e := ClassId(q), ConfigEdge("", "");
    PassesSound(a);
    PassesSay(a, id, e);
    SortsOfIds(q, [], "", NO_METHOD);
    NotSaid(Roots(a.repository), FrameOf(a, {RepositoryNode, ServiceNode}, ""), id, e);
    NotSaid(SecondPass(a), FrameOf(a, {}, "ACCEPTS"), id, e);
    NotSaid(ConfigPass(a), FrameOf(a, {ConfigNode}, ""), id, e);
    NotSaid(ServicePass(a), FrameOf(a, {ExternalNode, RepositoryNode, EndpointNode}, "CALLS_EXTERNAL"), id, e);
    FilesDescribe(RepositoryId(a.repository), ServiceId(a.repository), a.files, q);
  }

  ghost predicate IsService(ds: seq<ServiceDependency>, name: string) {
    exists d :: d in ds && d.name == name
  }

  lemma HasExternal(repository: string, service: string, name: string, all: set<string>)
    requires Has(ServiceRoot(repository, service, name), all)
    ensures ExternalServiceId(name) in all
  {
    assert ServiceRoot(repository, service, name)[0] in ServiceRoot(repository, service, name);
  }

  lemma ServiceRootDescribes(repository: string, service: string, name: string, other: string)
    ensures Described(ServiceRoot(repository, service, name), RepositoryId(other)).None?
    ensures Described(ReferenceLog(name), RepositoryId(other))
        == if name == other then Some(Node("RepositoryReference", other)) else None
  {
    var external, id, e := ExternalServiceId(name), RepositoryId(other), ConfigEdge("", "");
    var represents := Link(external, RepositoryId(name), "REPRESENTS");
    SortsOfIds(name, [], "", NO_METHOD);
    SortsOfIds(other, [], "", NO_METHOD);
    SameIds(name, other);
    hide ExternalServiceId, RepositoryId, SortOf, Described, FirstOf;
    SayFew(PutNode(external, Node("ExternalService", name)), Link(repository, external, "HAS_EXTERNAL_SERVICE"),
           Link(service, external, "CONTAINS_COMPONENT"), id, e);
    SayFew(PutNode(RepositoryId(name), Node("RepositoryReference", name)), represents, represents, id, e);
  }

  lemma ServiceDescribes(repository: string, service: string, d: ServiceDependency, cs: seq<ConfigChunk>, ts: Tables,
                         f: Frame, name: string)
    requires Resolvable(ts, f.all) && Has(ServiceLog(repository, service, d, cs, ts), f.all)
    requires f.sorts == {EndpointNode} && f.loud == "CALLS_EXTERNAL" && forall k ::
        k in d.configs ==> ConfigEdge(k, d.name) in f.promised
    ensures Described(ServiceLog(repository, service, d, cs, ts), RepositoryId(name))
         == if d.name == name then Some(Node("RepositoryReference", name)) else None
  {
    hide Resolvable, ServiceRoot, ReferenceLog, PromisedLog, UsersLog, KeyUsersLog, ServiceLog, ResolveAll, ConfigEdge,
        Sound, Has;
    hide SortOf, Described, FirstOf, ExternalServiceId, RepositoryId;
    var users, id, e := ResolveAll(d.usedBy, ts), RepositoryId(name), ConfigEdge("", "");
    ServiceParts(repository, service, d, cs, ts, f, id, e);
    ServiceRootDescribes(repository, service, d.name, name);
    HasExternal(repository, service, d.name, f.all);
    PromisedSound(d.configs, d.name, f);
    ReferencesResolve(d.usedBy, ts, f.all);
    UsersSound(users, d.name, NoMetadata, ts, f);
    KeyUsersSound(d.configs, d.name, cs, ts, f);
    SortsOfIds(name, [], "", NO_METHOD);
    NotSaid(PromisedLog(d.configs, d.name), f, id, e);
    NotSaid(UsersLog(users, d.name, NoMetadata, ts), f, id, e);
    NotSaid(KeyUsersLog(d.configs, d.name, cs, ts), f, id, e);
  }

  lemma {:induction false} ServicesDescribe(repository: string, service: string, ds: seq<ServiceDependency>,
                                            cs: seq<ConfigChunk>,
                                            ts: Tables, f: Frame, name: string)
    requires Resolvable(ts, f.all) && Has(ServicesLog(repository, service, ds, cs, ts), f.all)
    requires f.sorts == {EndpointNode} && f.loud == "CALLS_EXTERNAL"
    requires forall d, k :: d in ds && k in d.configs ==> ConfigEdge(k, d.name) in f.promised
    ensures Described(ServicesLog(repository, service, ds, cs, ts), RepositoryId(name))
         == if IsService(ds, name) then Some(Node("RepositoryReference", name)) else None
  {
    hide Resolvable, ServiceLog, ConfigEdge, Has, RepositoryId;
    if ds != [] {
      var n := |ds| - 1;
      Both(ServicesLog(repository, service, ds[..n], cs, ts), ServiceLog(repository, service, ds[n], cs, ts), f);
      ServicesDescribe(repository, service, ds[..n], cs, ts, f, name);
      ServiceDescribes(repository, service, ds[n], cs, ts, f, name);
      LogAppend(ServicesLog(repository, service, ds[..n], cs, ts), ServiceLog(repository, service, ds[n], cs, ts),
                RepositoryId(name), ConfigEdge("", ""));
      assert ds == ds[..n] + [ds[n]];
      assert IsService(ds, name) <==> IsService(ds[..n], name) || ds[n].name == name;
    }
  }

  lemma TablesResolvable(a: Analysis)
    ensures Resolvable(TablesOf(a), Built(a).nodes.Keys)
  {
    var f := FrameOf(a, {FileNode, ClassNode, MethodNode, EndpointNode, RepositoryNode, ServiceNode}, "");
    hide Built, Resolvable, AllDeclared, RepositoryId, ServiceId, Roots, Sound, Has, FilesLog, WithFiles;
    PassesHave(a);
    RootsSound(a.repository, f);
    FilesSound(RepositoryId(a.repository), ServiceId(a.repository), a.files, f);
    NoTablesResolvable(f.all);
    FilesResolvable(NO_TABLES, a.files, f.all);
  }

  /**
   The node of the repository stays one, unless a service dependency bears the name of the repository: it becomes a
   reference.
   */
  lemma RepositoryNodeIs(a: Analysis)
    ensures NodeIn(Built(a), RepositoryId(a.repository))
         == Some(Node(if IsService(a.serviceDependencies, a.repository) then "RepositoryReference" else "Repository",
                      a.repository))
  {
    var name, f := a.repository, FrameOf(a, {EndpointNode}, "CALLS_EXTERNAL");
    var id, e := RepositoryId(name), ConfigEdge("", "");
    SortsOfIds(name, [], "", NO_METHOD);
    hide Built, Sound, SortOf, RepositoryId, ServiceId, Described, FirstOf, Resolvable, Has;
    hide FirstPass, SecondPass, ConfigPass, ServicesLog, IsService;
    PassesSound(a);
    PassesHave(a);
    TablesResolvable(a);
    PassesSay(a, id, e);
    NotSaid(FirstPass(a), FrameOf(a, {FileNode, ClassNode, MethodNode, EndpointNode}, ""), id, e);
    NotSaid(SecondPass(a), FrameOf(a, {}, "ACCEPTS"), id, e);
    NotSaid(ConfigPass(a), FrameOf(a, {ConfigNode}, ""), id, e);
    SayFew(PutNode(id, Node("Repository", name)), PutNode(ServiceId(name), Node("Service", name)),
           Link(id, ServiceId(name), "OWNS"), id, e);
    ServicesDescribe(id, ServiceId(name), a.serviceDependencies, a.configChunks, TablesOf(a), f, name);
  }

  // ---------------------------------------------------------------- metadata of edges

  predicate Accepts(p: Param, to: string, ts: Tables) {
    match ResolveTypeReference(p.kind, ts)
    case None => false
    case Some(q) => q != "" && ClassId(q) == to
  }

  /** The first parameter of a type. */
  function FirstParam(params: seq<Param>, to: string, ts: Tables): Option<Metadata> {
    if params == [] then None
    else
      var p := params[|params| - 1];
      OrElse(FirstParam(params[..|params| - 1], to, ts), if Accepts(p, to, ts) then Some(Parameter(p.name)) else None)
  }

  lemma {:induction false} FirstParamIs(params: seq<Param>, to: string, ts: Tables, i: nat)
    requires i < |params| && Accepts(params[i], to, ts) && forall j :: 0 <= j < i ==> !Accepts(params[j], to, ts)
    ensures FirstParam(params, to, ts) == Some(Parameter(params[i].name))
  {
    hide Accepts;
    var n := |params| - 1;
    if i < n {
      FirstParamIs(params[..n], to, ts, i);
    } else {
      NoParamBefore(params[..n], to, ts);
    }
  }

  lemma {:induction false} NoParamBefore(params: seq<Param>, to: string, ts: Tables)
    requires forall j :: 0 <= j < |params| ==> !Accepts(params[j], to, ts)
    ensures FirstParam(params, to, ts).None?
  {
    hide Accepts;
    if params != [] {
      NoParamBefore(params[..|params| - 1], to, ts);
    }
  }

  datatype OwnedMethod = OwnedMethod(owner: string, info: Method)

  function Owned(owner: string, ms: seq<Method>): seq<OwnedMethod> {
    if ms == [] then [] else Owned(owner, ms[..|ms| - 1]) + [OwnedMethod(owner, ms[|ms| - 1])]
  }

  function MethodsOf(types: seq<TypeInfo>): seq<OwnedMethod> {
    if types == [] then []
    else MethodsOf(types[..|types| - 1]) + Owned(NameOf(types[|types| - 1]), types[|types| - 1].methods)
  }

  /** All methods of an analysis with their types, in order. */
  function AllMethods(files: seq<FileInfo>): seq<OwnedMethod> {
    if files == [] then [] else AllMethods(files[..|files| - 1]) + MethodsOf(files[|files| - 1].types)
  }

  /** The first parameter of a type, in the first method of an id that has one. */
  function FirstAccepting(oms: seq<OwnedMethod>, e: EdgeId, ts: Tables): Option<Metadata> {
    if oms == [] then None
    else
      var om := oms[|oms| - 1];
      OrElse(FirstAccepting(oms[..|oms| - 1], e, ts),
             if MethodId(om.owner, om.info) == e.from then FirstParam(om.info.params, e.to, ts) else None)
  }

  lemma {:induction false} FirstAcceptingAppend(a: seq<OwnedMethod>, b: seq<OwnedMethod>, e: EdgeId, ts: Tables)
    ensures FirstAccepting(a + b, e, ts) == OrElse(FirstAccepting(a, e, ts), FirstAccepting(b, e, ts))
  {
    hide MethodId, FirstParam;
    if b == [] {
      assert a + b == a;
    } else {
      assert (a + b)[..|a + b| - 1] == a + b[..|b| - 1];
      FirstAcceptingAppend(a, b[..|b| - 1], e, ts);
    }
  }

  lemma TypeLinkCarries(from: string, name: string, kind: string, metadata: Metadata, ts: Tables, e: EdgeId)
    ensures FirstOf(TypeLink(from, name, kind, metadata, ts), e)
         == if e.from == from && e.kind == kind && Accepts(Param("", name), e.to, ts) then Some(metadata) else None
  {
    hide ResolveTypeReference, ClassId;
    match ResolveTypeReference(name, ts)
    case None =>
    case Some(q) => SayOne(PutEdge(EdgeId(from, ClassId(q), kind), metadata), "", e);
  }

  lemma {:induction false} OtherKinds(x: string, names: seq<string>, kind: string, ts: Tables, e: EdgeId)
    requires e.kind != kind
    ensures FirstOf(TypeLinks(x, names, kind, ts), e).None? && FirstOf(LinksTo(x, names, kind), e).None?
  {
    if names != [] {
      var n := |names| - 1;
      hide TypeLink;
      OtherKinds(x, names[..n], kind, ts, e);
      TypeLinkCarries(x, names[n], kind, NoMetadata, ts, e);
      LogAppend(TypeLinks(x, names[..n], kind, ts), TypeLink(x, names[n], kind, NoMetadata, ts), "", e);
    }
  }

  lemma {:induction false} ParamsCarry(from: string, params: seq<Param>, ts: Tables, e: EdgeId)
    requires e.kind == "ACCEPTS"
    ensures FirstOf(ParamLinks(from, params, ts), e) == if e.from == from then FirstParam(params, e.to, ts) else None
  {
    hide TypeLink;
    if params != [] {
      var n := |params| - 1;
      ParamsCarry(from, params[..n], ts, e);
      TypeLinkCarries(from, params[n].kind, "ACCEPTS", Parameter(params[n].name), ts, e);
      LogAppend(ParamLinks(from, params[..n], ts),
                TypeLink(from, params[n].kind, "ACCEPTS", Parameter(params[n].name), ts), "", e);
    }
  }

  lemma MethodCarries(owner: string, m: Method, ts: Tables, e: EdgeId)
    requires e.kind == "ACCEPTS"
    ensures FirstOf(MethodLinks(owner, m, ts), e)
        == if MethodId(owner, m) == e.from then FirstParam(m.params, e.to, ts) else None
  {
    var id, targets := MethodId(owner, m), ResolveAll(m.internalCalls, ts);
    hide MethodId, TypeLink, ParamLinks, LinksTo, TypeLinks, FirstParam, FirstOf, ResolveAll;
    assert "CALLS"[0] != "ACCEPTS"[0] && "RETURNS"[0] != "ACCEPTS"[0];
    OtherKinds(id, targets, "CALLS", ts, e);
    TypeLinkCarries(id, m.returnType, "RETURNS", NoMetadata, ts, e);
    ParamsCarry(id, m.params, ts, e);
    LogAppend(LinksTo(id, targets, "CALLS"), TypeLink(id, m.returnType, "RETURNS", NoMetadata, ts), "", e);
    LogAppend(LinksTo(id, targets, "CALLS") + TypeLink(id, m.returnType, "RETURNS", NoMetadata, ts),
              ParamLinks(id, m.params, ts), "", e);
  }

  lemma {:induction false} MethodsCarry(owner: string, ms: seq<Method>, ts: Tables, e: EdgeId)
    requires e.kind == "ACCEPTS"
    ensures FirstOf(MethodsLinks(owner, ms, ts), e) == FirstAccepting(Owned(owner, ms), e, ts)
  {
    hide MethodLinks, MethodId, FirstParam;
    if ms != [] {
      var n := |ms| - 1;
      MethodsCarry(owner, ms[..n], ts, e);
      MethodCarries(owner, ms[n], ts, e);
      LogAppend(MethodsLinks(owner, ms[..n], ts), MethodLinks(owner, ms[n], ts), "", e);
      var before := Owned(owner, ms[..n]);
      assert (before + [OwnedMethod(owner, ms[n])])[..|before|] == before;
    }
  }

  lemma ClassCarries(t: TypeInfo, ts: Tables, e: EdgeId)
    requires e.kind == "ACCEPTS"
    ensures FirstOf(ClassLinks(t, ts), e) == FirstAccepting(Owned(NameOf(t), t.methods), e, ts)
  {
    hide ClassId, TypeLinks, MethodsLinks, NameOf, FirstOf, FirstAccepting, LinksTo;
    var id := ClassId(NameOf(t));
    assert "DEPENDS_ON"[0] != "ACCEPTS"[0] && "IMPLEMENTS"[0] != "ACCEPTS"[0] && "EXTENDS"[0] != "ACCEPTS"[0];
    OtherKinds(id, t.internalDependencies, "DEPENDS_ON", ts, e);
    OtherKinds(id, t.implementsTypes, "IMPLEMENTS", ts, e);
    OtherKinds(id, t.extendsTypes, "EXTENDS", ts, e);
    MethodsCarry(NameOf(t), t.methods, ts, e);
    var depends, implements := TypeLinks(id, t.internalDependencies, "DEPENDS_ON", ts),
        TypeLinks(id, t.implementsTypes, "IMPLEMENTS", ts);
    var extends_ := TypeLinks(id, t.extendsTypes, "EXTENDS", ts);
    LogAppend(depends, implements, "", e);
    LogAppend(depends + implements, extends_, "", e);
    LogAppend(depends + implements + extends_, MethodsLinks(NameOf(t), t.methods, ts), "", e);
  }

  lemma {:induction false} ClassesCarry(types: seq<TypeInfo>, ts: Tables, e: EdgeId)
    requires e.kind == "ACCEPTS"
    ensures FirstOf(ClassesLinks(types, ts), e) == FirstAccepting(MethodsOf(types), e, ts)
  {
    hide ClassLinks, FirstAccepting, NameOf, Owned, FirstOf;
    if types != [] {
      var n := |types| - 1;
      ClassesCarry(types[..n], ts, e);
      ClassCarries(types[n], ts, e);
      LogAppend(ClassesLinks(types[..n], ts), ClassLinks(types[n], ts), "", e);
      FirstAcceptingAppend(MethodsOf(types[..n]), Owned(NameOf(types[n]), types[n].methods), e, ts);
    } else {
      NothingCarried(e, ts);
    }
  }

  lemma NothingCarried(e: EdgeId, ts: Tables)
    ensures FirstOf([], e).None? && FirstAccepting([], e, ts).None?
  {
  }

  lemma {:induction false} FilesCarry(files: seq<FileInfo>, ts: Tables, e: EdgeId)
    requires e.kind == "ACCEPTS"
    ensures FirstOf(FilesLinks(files, ts), e) == FirstAccepting(AllMethods(files), e, ts)
  {
    hide ClassesLinks, FirstAccepting, MethodsOf, FirstOf;
    if files != [] {
      var n := |files| - 1;
      FilesCarry(files[..n], ts, e);
      ClassesCarry(files[n].types, ts, e);
      LogAppend(FilesLinks(files[..n], ts), ClassesLinks(files[n].types, ts), "", e);
      FirstAcceptingAppend(AllMethods(files[..n]), MethodsOf(files[n].types), e, ts);
    } else {
      NothingCarried(e, ts);
    }
  }

  lemma LoudKinds()
    ensures Loud("ACCEPTS") && Loud("CALLS_EXTERNAL") && "ACCEPTS" != "CALLS_EXTERNAL" && "" != "ACCEPTS"
        && "" != "CALLS_EXTERNAL"
  {
    assert |"ACCEPTS"| != |"CALLS_EXTERNAL"|;
  }

  /** What the passes that are silent about a kind carry for it. */
  lemma QuietPasses(a: Analysis, e: EdgeId)
    ensures Loud(e.kind) ==>
        FirstOf(Roots(a.repository), e).None? && FirstOf(FirstPass(a), e).None? && FirstOf(ConfigPass(a), e).None?
    ensures e.kind == "ACCEPTS" ==> FirstOf(ServicePass(a), e).None?
    ensures e.kind == "CALLS_EXTERNAL" ==> FirstOf(SecondPass(a), e).None?
    ensures !Loud(e.kind) ==> EdgeIn(Built(a), e).None? || EdgeIn(Built(a), e) == Some(NoMetadata)
  {
    LoudKinds();
    hide Built, Sound, Roots, FirstPass, SecondPass, ConfigPass, ServicePass, Described, FirstOf, SortOf;
    PassesSound(a);
    PassesSay(a, "", e);
    assert e.kind == "" ==> !Loud(e.kind);
    NotSaid(Roots(a.repository), FrameOf(a, {RepositoryNode, ServiceNode}, ""), "", e);
    NotSaid(FirstPass(a), FrameOf(a, {FileNode, ClassNode, MethodNode, EndpointNode}, ""), "", e);
    NotSaid(SecondPass(a), FrameOf(a, {}, "ACCEPTS"), "", e);
    NotSaid(ConfigPass(a), FrameOf(a, {ConfigNode}, ""), "", e);
    NotSaid(ServicePass(a), FrameOf(a, {ExternalNode, RepositoryNode, EndpointNode}, "CALLS_EXTERNAL"), "", e);
  }

  /**
   An edge from a method to a type it accepts is there if a parameter resolves to the type, and names the first that
   does.
   */
  lemma AcceptsNamesFirstParameter(a: Analysis, e: EdgeId)
    requires e.kind == "ACCEPTS"
    ensures EdgeIn(Built(a), e) == FirstAccepting(AllMethods(a.files), e, TablesOf(a))
  {
    hide Built, Roots, FirstPass, ConfigPass, ServicePass, FirstOf, FirstAccepting, AllMethods, FilesLinks;
    LoudKinds();
    QuietPasses(a, e);
    PassesSay(a, "", e);
    FilesCarry(a.files, TablesOf(a), e);
  }

  /** Edges of other kinds carry no metadata. */
  lemma OtherEdgesCarryNothing(a: Analysis, e: EdgeId)
    requires e in Built(a).edges && e.kind != "ACCEPTS" && e.kind != "CALLS_EXTERNAL"
    ensures Built(a).edges[e] == NoMetadata
  {
    QuietPasses(a, e);
  }

  /** The first key that a user of it uses. */
  function FirstKey(keys: seq<string>, user: string, cs: seq<ConfigChunk>, ts: Tables): Option<Metadata> {
    if keys == [] then None
    else
      var key := keys[|keys| - 1];
      OrElse(FirstKey(keys[..|keys| - 1], user, cs, ts),
             if user in UsersOf(key, cs, ts) then Some(ViaConfig(key)) else None)
  }

  /** How a dependency reaches a user: directly, or through its first configuration key that the user uses. */
  function Via(d: ServiceDependency, user: string, cs: seq<ConfigChunk>, ts: Tables): Option<Metadata> {
    if user in ResolveAll(d.usedBy, ts) then Some(NoMetadata) else FirstKey(d.configs, user, cs, ts)
  }

  /** The first dependency of a service that reaches a user decides. */
  function FirstVia(ds: seq<ServiceDependency>, e: EdgeId, cs: seq<ConfigChunk>, ts: Tables): Option<Metadata> {
    if ds == [] then None
    else
      var d := ds[|ds| - 1];
      OrElse(FirstVia(ds[..|ds| - 1], e, cs, ts),
             if ExternalServiceId(d.name) == e.to then Via(d, e.from, cs, ts) else None)
  }

  lemma {:induction false} PathsCarryNoCall(user: string, service: string, methods: seq<string>, paths: seq<string>,
                                            e: EdgeId)
    requires e.kind == "CALLS_EXTERNAL"
    ensures FirstOf(PathsLog(user, service, methods, paths), e).None?
  {
    if paths != [] {
      var n := |paths| - 1;
      var id := ExternalEndpointId(service, methods, paths[n]);
      hide ExternalEndpointId, ExternalServiceId, ExternalTitle;
      PathsCarryNoCall(user, service, methods, paths[..n], e);
      assert "CALLS_ENDPOINT"[7] != "CALLS_EXTERNAL"[7] && RESOLVES_TO[0] != "CALLS_EXTERNAL"[0];
      SayFew(PutNode(id, Node("Endpoint", ExternalTitle(methods, paths[n]))), Link(user, id, "CALLS_ENDPOINT"),
             Link(id, ExternalServiceId(service), RESOLVES_TO), "", e);
      hide FirstOf;
      LogAppend(PathsLog(user, service, methods, paths[..n]), PathLog(user, service, methods, paths[n]), "", e);
    }
  }

  lemma UserCarries(user: string, service: string, via: Metadata, ts: Tables, e: EdgeId)
    requires e.kind == "CALLS_EXTERNAL"
    ensures FirstOf(UserLog(user, service, via, ts), e)
        == if e.from == user && e.to == ExternalServiceId(service) then Some(via) else None
  {
    hide ExternalServiceId, PathsLog;
    var call := PutEdge(EdgeId(user, ExternalServiceId(service), "CALLS_EXTERNAL"), via);
    SayOne(call, "", e);
    LogAppend([call], MentionedLog(user, service, ts), "", e);
    if user in ts.methodInfo {
      PathsCarryNoCall(user, service, ts.methodInfo[user].externalHttpMethods, ts.methodInfo[user].externalPaths, e);
    }
  }

  lemma {:induction false} UsersCarry(users: seq<string>, service: string, via: Metadata, ts: Tables, e: EdgeId)
    requires e.kind == "CALLS_EXTERNAL"
    ensures FirstOf(UsersLog(users, service, via, ts), e)
        == if e.from in users && e.to == ExternalServiceId(service) then Some(via) else None
  {
    hide ExternalServiceId, UserLog;
    if users != [] {
      var n := |users| - 1;
      UsersCarry(users[..n], service, via, ts, e);
      UserCarries(users[n], service, via, ts, e);
      LogAppend(UsersLog(users[..n], service, via, ts), UserLog(users[n], service, via, ts), "", e);
      assert e.from in users <==> e.from in users[..n] || e.from == users[n];
    }
  }

  lemma {:induction false} KeyUsersCarry(keys: seq<string>, service: string, cs: seq<ConfigChunk>, ts: Tables,
                                         e: EdgeId)
    requires e.kind == "CALLS_EXTERNAL"
    ensures FirstOf(KeyUsersLog(keys, service, cs, ts), e)
        == if e.to == ExternalServiceId(service) then FirstKey(keys, e.from, cs, ts) else None
  {
    hide ExternalServiceId, UsersLog, UsersOf;
    if keys != [] {
      var n := |keys| - 1;
      var users := UsersOf(keys[n], cs, ts);
      KeyUsersCarry(keys[..n], service, cs, ts, e);
      UsersCarry(users, service, ViaConfig(keys[n]), ts, e);
      LogAppend(KeyUsersLog(keys[..n], service, cs, ts), UsersLog(users, service, ViaConfig(keys[n]), ts), "", e);
    }
  }

  lemma {:induction false} PromisedCarryNoCall(keys: seq<string>, service: string, e: EdgeId)
    requires e.kind == "CALLS_EXTERNAL"
    ensures FirstOf(PromisedLog(keys, service), e).None?
  {
    assert RESOLVES_TO[0] != "CALLS_EXTERNAL"[0];
    hide ConfigId, ExternalServiceId;
    if keys != [] {
      PromisedCarryNoCall(keys[..|keys| - 1], service, e);
    }
  }

  lemma ServiceRootCarriesNoCall(repository: string, service: string, name: string, e: EdgeId)
    requires e.kind == "CALLS_EXTERNAL"
    ensures FirstOf(ServiceRoot(repository, service, name), e).None? && FirstOf(ReferenceLog(name), e).None?
  {
    var external, reference := ExternalServiceId(name), RepositoryId(name);
    var represents := Link(external, reference, "REPRESENTS");
    hide ExternalServiceId, RepositoryId, FirstOf, Described;
    assert "HAS_EXTERNAL_SERVICE"[0] != "CALLS_EXTERNAL"[0] && "CONTAINS_COMPONENT"[1] != "CALLS_EXTERNAL"[1];
    assert "REPRESENTS"[0] != "CALLS_EXTERNAL"[0];
    SayFew(PutNode(external, Node("ExternalService", name)), Link(repository, external, "HAS_EXTERNAL_SERVICE"),
           Link(service, external, "CONTAINS_COMPONENT"), "", e);
    SayFew(PutNode(reference, Node("RepositoryReference", name)), represents, represents, "", e);
  }

  lemma ServiceCarries(repository: string, service: string, d: ServiceDependency, cs: seq<ConfigChunk>, ts: Tables,
                       e: EdgeId)
    requires e.kind == "CALLS_EXTERNAL"
    ensures FirstOf(ServiceLog(repository, service, d, cs, ts), e)
        == if ExternalServiceId(d.name) == e.to then Via(d, e.from, cs, ts) else None
  {
    hide ServiceRoot, ReferenceLog, PromisedLog, UsersLog, KeyUsersLog, ServiceLog, ResolveAll, ExternalServiceId,
        FirstOf, Described, FirstKey;
    ServiceParts(repository, service, d, cs, ts, Frame({}, {}, {}, ""), "", e);
    ServiceRootCarriesNoCall(repository, service, d.name, e);
    PromisedCarryNoCall(d.configs, d.name, e);
    UsersCarry(ResolveAll(d.usedBy, ts), d.name, NoMetadata, ts, e);
    KeyUsersCarry(d.configs, d.name, cs, ts, e);
  }

  lemma {:induction false} ServicesCarry(repository: string, service: string, ds: seq<ServiceDependency>,
                                         cs: seq<ConfigChunk>, ts: Tables, e: EdgeId)
    requires e.kind == "CALLS_EXTERNAL"
    ensures FirstOf(ServicesLog(repository, service, ds, cs, ts), e) == FirstVia(ds, e, cs, ts)
  {
    hide ServiceLog, ExternalServiceId, Via;
    if ds != [] {
      var n := |ds| - 1;
      ServicesCarry(repository, service, ds[..n], cs, ts, e);
      ServiceCarries(repository, service, ds[n], cs, ts, e);
      LogAppend(ServicesLog(repository, service, ds[..n], cs, ts), ServiceLog(repository, service, ds[n], cs, ts), "",
                e);
    }
  }

  /** A call of an external service is there if a dependency reaches the caller, and tells how the first one does. */
  lemma CallsTellHow(a: Analysis, e: EdgeId)
    requires e.kind == "CALLS_EXTERNAL"
    ensures EdgeIn(Built(a), e) == FirstVia(a.serviceDependencies, e, a.configChunks, TablesOf(a))
  {
    hide Built, Roots, FirstPass, SecondPass, ConfigPass, ServicesLog, FirstOf, FirstVia;
    LoudKinds();
    QuietPasses(a, e);
    PassesSay(a, "", e);
    ServicesCarry(RepositoryId(a.repository), ServiceId(a.repository), a.serviceDependencies, a.configChunks,
                  TablesOf(a), e);
  }

  // ---------------------------------------------------------------- the builder

  class Builder {
    var nodes: map<string, Node>
    var nodeOrder: seq<string>
    var edges: map<EdgeId, Metadata>
    var edgeOrder: seq<EdgeId>

    constructor ()
      ensures State() == NO_GRAPH
    {
      nodes, nodeOrder, edges, edgeOrder := map[], [], map[], [];
    }

    function State(): Graph
      reads this
    {
      Graph(nodes, nodeOrder, edges, edgeOrder)
    }

    /** `add_node`: the last description of an id wins, its place is that of the first. */
    method AddNode(id: string, kind: string, title: string)
      modifies this`nodes, this`nodeOrder
      ensures nodes == old(nodes)[id := Node(kind, title)]
      ensures nodeOrder == if id in old(nodes) then old(nodeOrder) else old(nodeOrder) + [id]
      ensures State() == Insert(old(State()), PutNode(id, Node(kind, title)))
    {
      if id !in nodes {
        nodeOrder := nodeOrder + [id];
      }
      nodes := nodes[id := Node(kind, title)];
    }

    /** `add_edge`: the first metadata of a triple stays. */
    method AddEdge(from: string, to: string, kind: string, metadata: Metadata)
      modifies this`edges, this`edgeOrder
      ensures edges == if EdgeId(from, to, kind) in old(edges)
          then old(edges) else old(edges)[EdgeId(from, to, kind) := metadata]
      ensures edgeOrder == if EdgeId(from, to, kind) in old(edges)
          then old(edgeOrder) else old(edgeOrder) + [EdgeId(from, to, kind)]
      ensures State() == Insert(old(State()), PutEdge(EdgeId(from, to, kind), metadata))
    {
      var e := EdgeId(from, to, kind);
      if e !in edges {
        edgeOrder := edgeOrder + [e];
        edges := edges[e := metadata];
      }
    }
  }

  lemma Replays(g: Graph, a: Log, b: Log)
    ensures Replay(g, a + b) == Replay(Replay(g, a), b) && Replay(g, []) == g && a + [] == a
  {
    ReplayAppend(g, a, b);
  }

  // ---------------------------------------------------------------- first pass

  method AddMethodNode(g: Builder, owner: string, m: Method)
    modifies g
    ensures g.State() == Replay(old(g.State()), MethodRoot(owner, m))
  {
    hide Insert, Replay, MethodId, ClassId, ShortRef, Builder.State;
    var id := MethodId(owner, m);
    var declares := Link(ClassId(owner), id, "DECLARES_METHOD");
    ReplayFew(g.State(), PutNode(id, Node("Method", ShortRef(m))), declares, declares);
    g.AddNode(id, "Method", ShortRef(m));
    g.AddEdge(ClassId(owner), id, "DECLARES_METHOD", NoMetadata);
  }

  method AddEndpoint(g: Builder, id: string, m: Method)
    modifies g
    ensures g.State() == Replay(old(g.State()), EndpointLog(id, m))
  {
    hide Insert, Replay, EndpointOf, EndpointTitle, Builder.State;
    var exposes := Link(id, EndpointOf(m), "EXPOSES");
    ReplayFew(g.State(), PutNode(EndpointOf(m), Node("Endpoint", EndpointTitle(m))), exposes, exposes);
    g.AddNode(EndpointOf(m), "Endpoint", EndpointTitle(m));
    g.AddEdge(id, EndpointOf(m), "EXPOSES", NoMetadata);
  }

  method AddMethod(g: Builder, ts: Tables, owner: string, shortOwner: string, m: Method) returns (more: Tables)
    modifies g
    ensures g.State() == Replay(old(g.State()), MethodLog(owner, m))
    ensures more == WithMethod(ts, owner, shortOwner, m)
  {
    hide Replay, MethodRoot, EndpointLog, MethodId, WithMethod, Builder.State;
    Replays(g.State(), MethodRoot(owner, m), EndpointLog(MethodId(owner, m), m));
    AddMethodNode(g, owner, m);
    more := WithMethod(ts, owner, shortOwner, m);
    if m.endpoint != "" {
      AddEndpoint(g, MethodId(owner, m), m);
    }
  }

  method AddMethods(g: Builder, ts: Tables, owner: string, shortOwner: string, ms: seq<Method>) returns (more: Tables)
    modifies g
    ensures g.State() == Replay(old(g.State()), MethodsLog(owner, ms))
    ensures more == WithMethods(ts, owner, shortOwner, ms)
  {
    hide Replay, MethodLog, WithMethod, Builder.State;
    more := ts;
    Replays(g.State(), [], []);
    for i := 0 to |ms|
      invariant g.State() == Replay(old(g.State()), MethodsLog(owner, ms[..i]))
      invariant more == WithMethods(ts, owner, shortOwner, ms[..i])
    {
      assert ms[..i + 1][..i] == ms[..i];
      Replays(old(g.State()), MethodsLog(owner, ms[..i]), MethodLog(owner, ms[i]));
      more := AddMethod(g, more, owner, shortOwner, ms[i]);
    }
    assert ms[..|ms|] == ms;
  }

  method AddTypeNode(g: Builder, service: string, file: string, id: string, t: TypeInfo)
    modifies g
    ensures g.State() == Replay(old(g.State()), TypeRoot(service, file, id, t))
  {
    hide Insert, Replay, Builder.State;
    ReplayFew(g.State(), PutNode(id, Node(t.nodeKind, t.name)), Link(service, id, "CONTAINS_COMPONENT"),
              Link(file, id, "DECLARES_CLASS"));
    g.AddNode(id, t.nodeKind, t.name);
    g.AddEdge(service, id, "CONTAINS_COMPONENT", NoMetadata);
    g.AddEdge(file, id, "DECLARES_CLASS", NoMetadata);
  }

  method AddType(g: Builder, ts: Tables, service: string, file: string, t: TypeInfo) returns (more: Tables)
    modifies g
    ensures g.State() == Replay(old(g.State()), TypeLog(service, file, t))
    ensures more == WithMethods(WithType(ts, t), NameOf(t), t.name, t.methods)
  {
    hide Replay, TypeRoot, MethodsLog, WithMethods, WithType, ClassId, NameOf, Builder.State;
    Replays(g.State(), TypeRoot(service, file, ClassId(NameOf(t)), t), MethodsLog(NameOf(t), t.methods));
    AddTypeNode(g, service, file, ClassId(NameOf(t)), t);
    more := AddMethods(g, WithType(ts, t), NameOf(t), t.name, t.methods);
  }

  method AddTypes(g: Builder, ts: Tables, service: string, file: string, types: seq<TypeInfo>) returns (more: Tables)
    modifies g
    ensures g.State() == Replay(old(g.State()), TypesLog(service, file, types))
    ensures more == WithTypes(ts, types)
  {
    hide Replay, TypeLog, WithMethods, WithType, NameOf, Builder.State;
    more := ts;
    Replays(g.State(), [], []);
    for i := 0 to |types|
      invariant g.State() == Replay(old(g.State()), TypesLog(service, file, types[..i]))
      invariant more == WithTypes(ts, types[..i])
    {
      assert types[..i + 1][..i] == types[..i];
      Replays(old(g.State()), TypesLog(service, file, types[..i]), TypeLog(service, file, types[i]));
      more := AddType(g, more, service, file, types[i]);
    }
    assert types[..|types|] == types;
  }

  method AddFile(g: Builder, ts: Tables, repository: string, service: string, f: FileInfo) returns (more: Tables)
    modifies g
    ensures g.State() == Replay(old(g.State()), FileLog(repository, service, f))
    ensures more == WithTypes(ts, f.types)
  {
    hide Insert, Replay, TypesLog, WithTypes, FileId, Builder.State;
    var id := FileId(f.path);
    var has := Link(repository, id, "HAS_FILE");
    ReplayFew(g.State(), PutNode(id, Node("File", f.name)), has, has);
    Replays(g.State(), FileRoot(repository, f), TypesLog(service, id, f.types));
    g.AddNode(id, "File", f.name);
    g.AddEdge(repository, id, "HAS_FILE", NoMetadata);
    more := AddTypes(g, ts, service, id, f.types);
  }

  method AddFiles(g: Builder, repository: string, service: string, files: seq<FileInfo>) returns (ts: Tables)
    modifies g
    ensures g.State() == Replay(old(g.State()), FilesLog(repository, service, files))
    ensures ts == WithFiles(NO_TABLES, files)
  {
    hide Replay, FileLog, WithTypes, Builder.State;
    ts := NO_TABLES;
    Replays(g.State(), [], []);
    for i := 0 to |files|
      invariant g.State() == Replay(old(g.State()), FilesLog(repository, service, files[..i]))
      invariant ts == WithFiles(NO_TABLES, files[..i])
    {
      assert files[..i + 1][..i] == files[..i];
      Replays(old(g.State()), FilesLog(repository, service, files[..i]), FileLog(repository, service, files[i]));
      ts := AddFile(g, ts, repository, service, files[i]);
    }
    assert files[..|files|] == files;
  }

  // ---------------------------------------------------------------- second pass

  method LinkType(g: Builder, ts: Tables, from: string, name: string, kind: string, metadata: Metadata)
    modifies g
    ensures g.State() == Replay(old(g.State()), TypeLink(from, name, kind, metadata, ts))
  {
    hide Insert, Replay, ClassId, ResolveTypeReference, Builder.State;
    var resolved := ResolveTypeReference(name, ts);
    Replays(g.State(), [], []);
    if resolved.Some? && resolved.value != "" {
      var link := PutEdge(EdgeId(from, ClassId(resolved.value), kind), metadata);
      ReplayFew(g.State(), link, link, link);
      g.AddEdge(from, ClassId(resolved.value), kind, metadata);
    }
  }

  method LinkTypes(g: Builder, ts: Tables, from: string, names: seq<string>, kind: string)
    modifies g
    ensures g.State() == Replay(old(g.State()), TypeLinks(from, names, kind, ts))
  {
    hide Replay, TypeLink, Builder.State;
    Replays(g.State(), [], []);
    for i := 0 to |names|
      invariant g.State() == Replay(old(g.State()), TypeLinks(from, names[..i], kind, ts))
    {
      assert names[..i + 1][..i] == names[..i];
      Replays(old(g.State()), TypeLinks(from, names[..i], kind, ts), TypeLink(from, names[i], kind, NoMetadata, ts));
      LinkType(g, ts, from, names[i], kind, NoMetadata);
    }
    assert names[..|names|] == names;
  }

  method LinkParams(g: Builder, ts: Tables, from: string, params: seq<Param>)
    modifies g
    ensures g.State() == Replay(old(g.State()), ParamLinks(from, params, ts))
  {
    hide Replay, TypeLink, Builder.State;
    Replays(g.State(), [], []);
    for i := 0 to |params|
      invariant g.State() == Replay(old(g.State()), ParamLinks(from, params[..i], ts))
    {
      assert params[..i + 1][..i] == params[..i];
      Replays(old(g.State()), ParamLinks(from, params[..i], ts),
              TypeLink(from, params[i].kind, "ACCEPTS", Parameter(params[i].name), ts));
      LinkType(g, ts, from, params[i].kind, "ACCEPTS", Parameter(params[i].name));
    }
    assert params[..|params|] == params;
  }

  method LinkTargets(g: Builder, from: string, targets: seq<string>, kind: string)
    modifies g
    ensures g.State() == Replay(old(g.State()), LinksTo(from, targets, kind))
  {
    hide Insert, Replay, Builder.State;
    Replays(g.State(), [], []);
    for i := 0 to |targets|
      invariant g.State() == Replay(old(g.State()), LinksTo(from, targets[..i], kind))
    {
      var link := Link(from, targets[i], kind);
      assert targets[..i + 1][..i] == targets[..i];
      Replays(old(g.State()), LinksTo(from, targets[..i], kind), [link]);
      ReplayFew(g.State(), link, link, link);
      g.AddEdge(from, targets[i], kind, NoMetadata);
    }
    assert targets[..|targets|] == targets;
  }

  lemma {:induction false} LinksAppend(x: string, a: seq<string>, b: seq<string>, kind: string)
    ensures LinksTo(x, a + b, kind) == LinksTo(x, a, kind) + LinksTo(x, b, kind)
    ensures LinksFrom(a + b, x, kind) == LinksFrom(a, x, kind) + LinksFrom(b, x, kind)
  {
    if b == [] {
      assert a + b == a;
    } else {
      assert (a + b)[..|a + b| - 1] == a + b[..|b| - 1];
      LinksAppend(x, a, b[..|b| - 1], kind);
    }
  }

  method LinkCalls(g: Builder, ts: Tables, from: string, calls: seq<string>)
    modifies g
    ensures g.State() == Replay(old(g.State()), LinksTo(from, ResolveAll(calls, ts), "CALLS"))
  {
    hide Replay, ResolveMethodReference, Builder.State;
    Replays(g.State(), [], []);
    for i := 0 to |calls|
      invariant g.State() == Replay(old(g.State()), LinksTo(from, ResolveAll(calls[..i], ts), "CALLS"))
    {
      assert calls[..i + 1][..i] == calls[..i];
      var targets := ResolveMethodReference(calls[i], ts);
      LinksAppend(from, ResolveAll(calls[..i], ts), targets, "CALLS");
      Replays(old(g.State()), LinksTo(from, ResolveAll(calls[..i], ts), "CALLS"), LinksTo(from, targets, "CALLS"));
      LinkTargets(g, from, targets, "CALLS");
    }
    assert calls[..|calls|] == calls;
  }

  method LinkMethod(g: Builder, ts: Tables, owner: string, m: Method)
    modifies g
    ensures g.State() == Replay(old(g.State()), MethodLinks(owner, m, ts))
  {
    hide Replay, LinksTo, TypeLink, ParamLinks, ResolveAll, MethodId, Builder.State;
    var id := MethodId(owner, m);
    ghost var calls := LinksTo(id, ResolveAll(m.internalCalls, ts), "CALLS");
    ghost var returns_ := TypeLink(id, m.returnType, "RETURNS", NoMetadata, ts);
    Replays(g.State(), calls, returns_);
    Replays(g.State(), calls + returns_, ParamLinks(id, m.params, ts));
    LinkCalls(g, ts, id, m.internalCalls);
    LinkType(g, ts, id, m.returnType, "RETURNS", NoMetadata);
    LinkParams(g, ts, id, m.params);
  }

  method LinkMethods(g: Builder, ts: Tables, owner: string, ms: seq<Method>)
    modifies g
    ensures g.State() == Replay(old(g.State()), MethodsLinks(owner, ms, ts))
  {
    hide Replay, MethodLinks, Builder.State;
    Replays(g.State(), [], []);
    for i := 0 to |ms|
      invariant g.State() == Replay(old(g.State()), MethodsLinks(owner, ms[..i], ts))
    {
      assert ms[..i + 1][..i] == ms[..i];
      Replays(old(g.State()), MethodsLinks(owner, ms[..i], ts), MethodLinks(owner, ms[i], ts));
      LinkMethod(g, ts, owner, ms[i]);
    }
    assert ms[..|ms|] == ms;
  }

  method LinkClass(g: Builder, ts: Tables, t: TypeInfo)
    modifies g
    ensures g.State() == Replay(old(g.State()), ClassLinks(t, ts))
  {
    hide Replay, TypeLinks, MethodsLinks, ClassId, NameOf, Builder.State;
    var id := ClassId(NameOf(t));
    ghost var depends, implements := TypeLinks(id, t.internalDependencies, "DEPENDS_ON", ts),
        TypeLinks(id, t.implementsTypes, "IMPLEMENTS", ts);
    ghost var extends_ := TypeLinks(id, t.extendsTypes, "EXTENDS", ts);
    Replays(g.State(), depends, implements);
    Replays(g.State(), depends + implements, extends_);
    Replays(g.State(), depends + implements + extends_, MethodsLinks(NameOf(t), t.methods, ts));
    LinkTypes(g, ts, id, t.internalDependencies, "DEPENDS_ON");
    LinkTypes(g, ts, id, t.implementsTypes, "IMPLEMENTS");
    LinkTypes(g, ts, id, t.extendsTypes, "EXTENDS");
    LinkMethods(g, ts, NameOf(t), t.methods);
  }

  method LinkFile(g: Builder, ts: Tables, types: seq<TypeInfo>)
    modifies g
    ensures g.State() == Replay(old(g.State()), ClassesLinks(types, ts))
  {
    hide Replay, ClassLinks, Builder.State;
    Replays(g.State(), [], []);
    for i := 0 to |types|
      invariant g.State() == Replay(old(g.State()), ClassesLinks(types[..i], ts))
    {
      assert types[..i + 1][..i] == types[..i];
      Replays(old(g.State()), ClassesLinks(types[..i], ts), ClassLinks(types[i], ts));
      LinkClass(g, ts, types[i]);
    }
    assert types[..|types|] == types;
  }

  method LinkFiles(g: Builder, ts: Tables, files: seq<FileInfo>)
    modifies g
    ensures g.State() == Replay(old(g.State()), FilesLinks(files, ts))
  {
    hide Replay, ClassesLinks, Builder.State;
    Replays(g.State(), [], []);
    for i := 0 to |files|
      invariant g.State() == Replay(old(g.State()), FilesLinks(files[..i], ts))
    {
      assert files[..i + 1][..i] == files[..i];
      Replays(old(g.State()), FilesLinks(files[..i], ts), ClassesLinks(files[i].types, ts));
      LinkFile(g, ts, files[i].types);
    }
    assert files[..|files|] == files;
  }

  // ---------------------------------------------------------------- configuration

  method LinkUsers(g: Builder, users: seq<string>, id: string)
    modifies g
    ensures g.State() == Replay(old(g.State()), LinksFrom(users, id, "USES_CONFIG"))
  {
    hide Insert, Replay, Builder.State;
    Replays(g.State(), [], []);
    for i := 0 to |users|
      invariant g.State() == Replay(old(g.State()), LinksFrom(users[..i], id, "USES_CONFIG"))
    {
      var link := Link(users[i], id, "USES_CONFIG");
      assert users[..i + 1][..i] == users[..i];
      Replays(old(g.State()), LinksFrom(users[..i], id, "USES_CONFIG"), [link]);
      ReplayFew(g.State(), link, link, link);
      g.AddEdge(users[i], id, "USES_CONFIG", NoMetadata);
    }
    assert users[..|users|] == users;
  }

  /** The loops over `usedBy` of a chunk: the edges, and the methods to note in the usage table. */
  method LinkConfigUsers(g: Builder, ts: Tables, usedBy: seq<string>, id: string) returns (users: seq<string>)
    modifies g
    ensures g.State() == Replay(old(g.State()), LinksFrom(ResolveAll(usedBy, ts), id, "USES_CONFIG"))
    ensures users == ResolveAll(usedBy, ts)
  {
    hide Replay, ResolveMethodReference, Builder.State;
    users := [];
    Replays(g.State(), [], []);
    for i := 0 to |usedBy|
      invariant users == ResolveAll(usedBy[..i], ts)
      invariant g.State() == Replay(old(g.State()), LinksFrom(users, id, "USES_CONFIG"))
    {
      assert usedBy[..i + 1][..i] == usedBy[..i];
      var more := ResolveMethodReference(usedBy[i], ts);
      LinksAppend(id, users, more, "USES_CONFIG");
      Replays(old(g.State()), LinksFrom(users, id, "USES_CONFIG"), LinksFrom(more, id, "USES_CONFIG"));
      LinkUsers(g, more, id);
      users := users + more;
    }
    assert usedBy[..|usedBy|] == usedBy;
  }

  method AddConfigNode(g: Builder, repository: string, service: string, key: string)
    modifies g
    ensures g.State() == Replay(old(g.State()), ConfigRoot(repository, service, key))
  {
    hide Insert, Replay, ConfigId, Builder.State;
    var id := ConfigId(key);
    ReplayFew(g.State(), PutNode(id, Node("ConfigKey", key)), Link(repository, id, "HAS_CONFIG"),
              Link(service, id, "CONTAINS_COMPONENT"));
    g.AddNode(id, "ConfigKey", key);
    g.AddEdge(repository, id, "HAS_CONFIG", NoMetadata);
    g.AddEdge(service, id, "CONTAINS_COMPONENT", NoMetadata);
  }

  function Noted(usage: map<string, seq<string>>, id: string): seq<string> {
    if id in usage then usage[id] else []
  }

  /** The usage table holds, under the node id of a key, the methods that use the key. */
  ghost predicate Tabulates(usage: map<string, seq<string>>, cs: seq<ConfigChunk>, ts: Tables) {
    forall key :: Noted(usage, ConfigId(key)) == UsersOf(key, cs, ts)
  }

  lemma TabulatesNext(usage: map<string, seq<string>>, cs: seq<ConfigChunk>, c: ConfigChunk, ts: Tables)
    requires Tabulates(usage, cs, ts)
    ensures Tabulates(usage[ConfigId(c.key) := Noted(usage, ConfigId(c.key)) + ResolveAll(c.usedBy, ts)], cs + [c], ts)
  {
    var after := usage[ConfigId(c.key) := Noted(usage, ConfigId(c.key)) + ResolveAll(c.usedBy, ts)];
    assert (cs + [c])[..|cs|] == cs;
    forall key ensures Noted(after, ConfigId(key)) == UsersOf(key, cs + [c], ts) {
      SameIds(key, c.key);
      assert Noted(usage, ConfigId(key)) == UsersOf(key, cs, ts);
    }
  }

  method AddConfig(g: Builder, ts: Tables, repository: string, service: string, c: ConfigChunk)
      returns (users: seq<string>)
    modifies g
    ensures g.State() == Replay(old(g.State()), ConfigLog(repository, service, c, ts))
    ensures users == ResolveAll(c.usedBy, ts)
  {
    hide Replay, ConfigRoot, LinksFrom, ResolveAll, ConfigId, Builder.State;
    Replays(g.State(), ConfigRoot(repository, service, c.key),
            LinksFrom(ResolveAll(c.usedBy, ts), ConfigId(c.key), "USES_CONFIG"));
    AddConfigNode(g, repository, service, c.key);
    users := LinkConfigUsers(g, ts, c.usedBy, ConfigId(c.key));
  }

  method AddConfigs(g: Builder, ts: Tables, repository: string, service: string, cs: seq<ConfigChunk>)
      returns (usage: map<string, seq<string>>)
    modifies g
    ensures g.State() == Replay(old(g.State()), ConfigsLog(repository, service, cs, ts))
    ensures Tabulates(usage, cs, ts)
  {
    hide Replay, ConfigLog, ConfigId, ResolveAll, Noted, Tabulates, Builder.State;
    usage := map[];
    NothingTabulated(ts);
    Replays(g.State(), [], []);
    for i := 0 to |cs|
      invariant g.State() == Replay(old(g.State()), ConfigsLog(repository, service, cs[..i], ts))
      invariant Tabulates(usage, cs[..i], ts)
    {
      assert cs[..i + 1] == cs[..i] + [cs[i]] && cs[..i + 1][..i] == cs[..i];
      Replays(old(g.State()), ConfigsLog(repository, service, cs[..i], ts), ConfigLog(repository, service, cs[i], ts));
      TabulatesNext(usage, cs[..i], cs[i], ts);
      var users := AddConfig(g, ts, repository, service, cs[i]);
      usage := usage[ConfigId(cs[i].key) := Noted(usage, ConfigId(cs[i].key)) + users];
    }
    assert cs[..|cs|] == cs;
  }

  lemma NothingTabulated(ts: Tables)
    ensures Tabulates(map[], [], ts)
  {
  }

  // ---------------------------------------------------------------- services

  method AddPath(g: Builder, user: string, service: string, methods: seq<string>, path: string)
    modifies g
    ensures g.State() == Replay(old(g.State()), PathLog(user, service, methods, path))
  {
    hide Insert, Replay, ExternalServiceId, ExternalEndpointId, ExternalTitle, RESOLVES_TO, Builder.State;
    var id := ExternalEndpointId(service, methods, path);
    ReplayFew(g.State(), PutNode(id, Node("Endpoint", ExternalTitle(methods, path))), Link(user, id, "CALLS_ENDPOINT"),
              Link(id, ExternalServiceId(service), RESOLVES_TO));
    g.AddNode(id, "Endpoint", ExternalTitle(methods, path));
    g.AddEdge(user, id, "CALLS_ENDPOINT", NoMetadata);
    g.AddEdge(id, ExternalServiceId(service), RESOLVES_TO, NoMetadata);
  }

  method AddPaths(g: Builder, user: string, service: string, methods: seq<string>, paths: seq<string>)
    modifies g
    ensures g.State() == Replay(old(g.State()), PathsLog(user, service, methods, paths))
  {
    hide Replay, PathLog, Builder.State;
    Replays(g.State(), [], []);
    for i := 0 to |paths|
      invariant g.State() == Replay(old(g.State()), PathsLog(user, service, methods, paths[..i]))
    {
      assert paths[..i + 1][..i] == paths[..i];
      Replays(old(g.State()), PathsLog(user, service, methods, paths[..i]), PathLog(user, service, methods, paths[i]));
      AddPath(g, user, service, methods, paths[i]);
    }
    assert paths[..|paths|] == paths;
  }

  method AddUser(g: Builder, ts: Tables, user: string, service: string, via: Metadata)
    modifies g
    ensures g.State() == Replay(old(g.State()), UserLog(user, service, via, ts))
  {
    hide Insert, Replay, PathsLog, ExternalServiceId, Builder.State;
    var call := PutEdge(EdgeId(user, ExternalServiceId(service), "CALLS_EXTERNAL"), via);
    ReplayFew(g.State(), call, call, call);
    Replays(g.State(), [call], MentionedLog(user, service, ts));
    g.AddEdge(user, ExternalServiceId(service), "CALLS_EXTERNAL", via);
    Replays(g.State(), [], []);
    if user in ts.methodInfo {
      AddPaths(g, user, service, ts.methodInfo[user].externalHttpMethods, ts.methodInfo[user].externalPaths);
    }
  }

  method AddUsers(g: Builder, ts: Tables, users: seq<string>, service: string, via: Metadata)
    modifies g
    ensures g.State() == Replay(old(g.State()), UsersLog(users, service, via, ts))
  {
    hide Replay, UserLog, Builder.State;
    Replays(g.State(), [], []);
    for i := 0 to |users|
      invariant g.State() == Replay(old(g.State()), UsersLog(users[..i], service, via, ts))
    {
      assert users[..i + 1][..i] == users[..i];
      Replays(old(g.State()), UsersLog(users[..i], service, via, ts), UserLog(users[i], service, via, ts));
      AddUser(g, ts, users[i], service, via);
    }
    assert users[..|users|] == users;
  }

  lemma {:induction false} UsersAppend(a: seq<string>, b: seq<string>, service: string, via: Metadata, ts: Tables)
    ensures UsersLog(a + b, service, via, ts) == UsersLog(a, service, via, ts) + UsersLog(b, service, via, ts)
  {
    hide UserLog;
    if b == [] {
      assert a + b == a;
    } else {
      assert (a + b)[..|a + b| - 1] == a + b[..|b| - 1];
      UsersAppend(a, b[..|b| - 1], service, via, ts);
    }
  }

  /** The users that `usedBy` names. */
  method AddDirectUsers(g: Builder, ts: Tables, usedBy: seq<string>, service: string)
    modifies g
    ensures g.State() == Replay(old(g.State()), UsersLog(ResolveAll(usedBy, ts), service, NoMetadata, ts))
  {
    hide Replay, UserLog, ResolveMethodReference, Builder.State;
    Replays(g.State(), [], []);
    for i := 0 to |usedBy|
      invariant g.State() == Replay(old(g.State()), UsersLog(ResolveAll(usedBy[..i], ts), service, NoMetadata, ts))
    {
      assert usedBy[..i + 1][..i] == usedBy[..i];
      var more := ResolveMethodReference(usedBy[i], ts);
      UsersAppend(ResolveAll(usedBy[..i], ts), more, service, NoMetadata, ts);
      Replays(old(g.State()), UsersLog(ResolveAll(usedBy[..i], ts), service, NoMetadata, ts),
              UsersLog(more, service, NoMetadata, ts));
      AddUsers(g, ts, more, service, NoMetadata);
    }
    assert usedBy[..|usedBy|] == usedBy;
  }

  /** The users that the service's configuration keys have. */
  method AddKeyUsers(g: Builder, ts: Tables, usage: map<string, seq<string>>, keys: seq<string>, service: string,
                     ghost cs: seq<ConfigChunk>)
    requires Tabulates(usage, cs, ts)
    modifies g
    ensures g.State() == Replay(old(g.State()), KeyUsersLog(keys, service, cs, ts))
  {
    hide Replay, UsersLog, UsersOf, ConfigId, Noted, Builder.State;
    Replays(g.State(), [], []);
    for i := 0 to |keys|
      invariant g.State() == Replay(old(g.State()), KeyUsersLog(keys[..i], service, cs, ts))
    {
      assert keys[..i + 1][..i] == keys[..i];
      assert Noted(usage, ConfigId(keys[i])) == UsersOf(keys[i], cs, ts);
      Replays(old(g.State()), KeyUsersLog(keys[..i], service, cs, ts),
              UsersLog(UsersOf(keys[i], cs, ts), service, ViaConfig(keys[i]), ts));
      AddUsers(g, ts, Noted(usage, ConfigId(keys[i])), service, ViaConfig(keys[i]));
    }
    assert keys[..|keys|] == keys;
  }

  method AddServiceNodes(g: Builder, repository: string, service: string, name: string)
    modifies g
    ensures g.State() == Replay(old(g.State()), ServiceRoot(repository, service, name) + ReferenceLog(name))
  {
    hide Insert, Replay, ExternalServiceId, RepositoryId, Builder.State;
    var id, reference := ExternalServiceId(name), RepositoryId(name);
    Replays(g.State(), ServiceRoot(repository, service, name), ReferenceLog(name));
    ReplayFew(g.State(), PutNode(id, Node("ExternalService", name)), Link(repository, id, "HAS_EXTERNAL_SERVICE"),
              Link(service, id, "CONTAINS_COMPONENT"));
    g.AddNode(id, "ExternalService", name);
    g.AddEdge(repository, id, "HAS_EXTERNAL_SERVICE", NoMetadata);
    g.AddEdge(service, id, "CONTAINS_COMPONENT", NoMetadata);
    ReplayFew(g.State(), PutNode(reference, Node("RepositoryReference", name)), Link(id, reference, "REPRESENTS"),
              Link(id, reference, "REPRESENTS"));
    g.AddNode(reference, "RepositoryReference", name);
    g.AddEdge(id, reference, "REPRESENTS", NoMetadata);
  }

  method AddConfigEdges(g: Builder, keys: seq<string>, service: string)
    modifies g
    ensures g.State() == Replay(old(g.State()), PromisedLog(keys, service))
  {
    hide Insert, Replay, ConfigId, ExternalServiceId, RESOLVES_TO, Builder.State;
    Replays(g.State(), [], []);
    for i := 0 to |keys|
      invariant g.State() == Replay(old(g.State()), PromisedLog(keys[..i], service))
    {
      var link := PutEdge(ConfigEdge(keys[i], service), NoMetadata);
      assert keys[..i + 1][..i] == keys[..i];
      Replays(old(g.State()), PromisedLog(keys[..i], service), [link]);
      ReplayFew(g.State(), link, link, link);
      g.AddEdge(ConfigId(keys[i]), ExternalServiceId(service), RESOLVES_TO, NoMetadata);
    }
    assert keys[..|keys|] == keys;
  }

  method AddService(g: Builder, ts: Tables, usage: map<string, seq<string>>, repository: string, service: string,
                    d: ServiceDependency,
                    ghost cs: seq<ConfigChunk>)
    requires Tabulates(usage, cs, ts)
    modifies g
    ensures g.State() == Replay(old(g.State()), ServiceLog(repository, service, d, cs, ts))
  {
    hide Replay, ServiceRoot, ReferenceLog, PromisedLog, UsersLog, KeyUsersLog, ResolveAll, Tabulates, Builder.State;
    ghost var nodes := ServiceRoot(repository, service, d.name) + ReferenceLog(d.name);
    ghost var promised, users := PromisedLog(d.configs, d.name),
        UsersLog(ResolveAll(d.usedBy, ts), d.name, NoMetadata, ts);
    Replays(g.State(), nodes, promised);
    Replays(g.State(), nodes + promised, users);
    Replays(g.State(), nodes + promised + users, KeyUsersLog(d.configs, d.name, cs, ts));
    AddServiceNodes(g, repository, service, d.name);
    AddConfigEdges(g, d.configs, d.name);
    AddDirectUsers(g, ts, d.usedBy, d.name);
    AddKeyUsers(g, ts, usage, d.configs, d.name, cs);
  }

  method AddServices(g: Builder, ts: Tables, usage: map<string, seq<string>>, repository: string, service: string,
                     ds: seq<ServiceDependency>, ghost cs: seq<ConfigChunk>)
    requires Tabulates(usage, cs, ts)
    modifies g
    ensures g.State() == Replay(old(g.State()), ServicesLog(repository, service, ds, cs, ts))
  {
    hide Replay, ServiceLog, Tabulates, Builder.State;
    Replays(g.State(), [], []);
    for i := 0 to |ds|
      invariant g.State() == Replay(old(g.State()), ServicesLog(repository, service, ds[..i], cs, ts))
    {
      assert ds[..i + 1][..i] == ds[..i];
      Replays(old(g.State()), ServicesLog(repository, service, ds[..i], cs, ts),
              ServiceLog(repository, service, ds[i], cs, ts));
      AddService(g, ts, usage, repository, service, ds[i], cs);
    }
    assert ds[..|ds|] == ds;
  }

  // ---------------------------------------------------------------- the program

  /**
   The graph part of `build_artifacts`: the builder ends with the graph of the analysis, ids and triples listed
   once each, with the last description of every id and the first metadata of every triple.
   */
  method BuildGraph(a: Analysis) returns (g: Builder)
    ensures fresh(g) && g.State() == Built(a) && ListedOnce(g.State())
    ensures forall id :: NodeIn(g.State(), id) == Described(WholeLog(a), id)
    ensures forall e :: EdgeIn(g.State(), e) == FirstOf(WholeLog(a), e)
  {
    hide *;
    g := new Builder();
    var repository, service := RepositoryId(a.repository), ServiceId(a.repository);
    AddRoots(g, a.repository);
    var ts := AddFiles(g, repository, service, a.files);
    LinkFiles(g, ts, a.files);
    var usage := AddConfigs(g, ts, repository, service, a.configChunks);
    AddServices(g, ts, usage, repository, service, a.serviceDependencies, a.configChunks);
    PassesReplayed(a);
    BuiltMeans(a, "", ConfigEdge("", ""));
    forall id ensures NodeIn(g.State(), id) == Described(WholeLog(a), id) {
      BuiltMeans(a, id, ConfigEdge("", ""));
    }
    forall e ensures EdgeIn(g.State(), e) == FirstOf(WholeLog(a), e) {
      BuiltMeans(a, "", e);
    }
  }

  method AddRoots(g: Builder, name: string)
    modifies g
    ensures g.State() == Replay(old(g.State()), Roots(name))
  {
    hide Insert, Replay, RepositoryId, ServiceId, Builder.State;
    var repository, service := RepositoryId(name), ServiceId(name);
    ReplayFew(g.State(), PutNode(repository, Node("Repository", name)), PutNode(service, Node("Service", name)),
              Link(repository, service, "OWNS"));
    g.AddNode(repository, "Repository", name);
    g.AddNode(service, "Service", name);
    g.AddEdge(repository, service, "OWNS", NoMetadata);
  }

  lemma PassesReplayed(a: Analysis)
    ensures var repository, service, ts := RepositoryId(a.repository), ServiceId(a.repository),
        WithFiles(NO_TABLES, a.files);
            Built(a) == Replay(Replay(Replay(Replay(Replay(NO_GRAPH, Roots(a.repository)),
                                                    FilesLog(repository, service, a.files)),
                               FilesLinks(a.files, ts)), ConfigsLog(repository, service, a.configChunks, ts)),
                               ServicesLog(repository, service, a.serviceDependencies, a.configChunks, ts))
  {
    hide Replay, Roots, FilesLog, FilesLinks, ConfigsLog, ServicesLog, WithFiles, RepositoryId, ServiceId;
    ReplayAppend(NO_GRAPH, Roots(a.repository), FirstPass(a));
    ReplayAppend(NO_GRAPH, Roots(a.repository) + FirstPass(a), SecondPass(a));
    ReplayAppend(NO_GRAPH, Roots(a.repository) + FirstPass(a) + SecondPass(a), ConfigPass(a));
    ReplayAppend(NO_GRAPH, Roots(a.repository) + FirstPass(a) + SecondPass(a) + ConfigPass(a), ServicePass(a));
  }

  // ---------------------------------------------------------------- to the store

  /** Metadata as a row carries it: the text that `json.dumps` makes of it. */
  type Dump = Metadata -> string

  function RowOf(g: Graph, id: string): GraphSync.NodeRow
    requires id in g.nodes
  {
    GraphSync.NodeRow(id, g.nodes[id].kind, g.nodes[id].title, "")
  }

  function NodeRows(order: seq<string>, g: Graph): (rows: seq<GraphSync.NodeRow>)
    requires forall id :: id in order ==> id in g.nodes
    ensures |rows| == |order|
  {
    seq(|order|, i requires 0 <= i < |order| => RowOf(g, order[i]))
  }

  function EdgeRows(order: seq<EdgeId>, g: Graph, dump: Dump): (rows: seq<GraphSync.EdgeRow>)
    requires forall e :: e in order ==> e in g.edges
    ensures |rows| == |order|
  {
    seq(|order|, i requires 0
        <= i < |order| => GraphSync.EdgeRow(order[i].from, order[i].to, order[i].kind, dump(g.edges[order[i]])))
  }

  lemma {:induction false} LastRowOf(order: seq<string>, g: Graph, tag: string, id: string)
    requires (forall k :: k in order ==> k in g.nodes) && forall i, j :: 0 <= i < j < |order| ==> order[i] != order[j]
    ensures GraphSync.LastNode(NodeRows(order, g), tag, id)
         == if id in order && tag == GraphSync.LabelOf(RowOf(g, id)) then Some(RowOf(g, id)) else None
  {
    if order != [] {
      var n := |order| - 1;
      LastRowOf(order[..n], g, tag, id);
      assert NodeRows(order, g)[..n] == NodeRows(order[..n], g);
      assert id in order <==> id in order[..n] || id == order[n];
      hide GraphSync.LabelOf;
    }
  }

  lemma {:induction false} LastEdgeOf(order: seq<EdgeId>, g: Graph, dump: Dump, kind: string, from: string, to: string)
    requires forall e :: e in order ==> e in g.edges
    ensures GraphSync.LastEdge(EdgeRows(order, g, dump), kind, from, to).Some?
       <==> exists e ::
           e in order && e.from == from && e.to == to
           && GraphSync.TypeOf(GraphSync.EdgeRow(from, to, e.kind, "")) == kind
  {
    if order != [] {
      var n := |order| - 1;
      LastEdgeOf(order[..n], g, dump, kind, from, to);
      assert EdgeRows(order, g, dump)[..n] == EdgeRows(order[..n], g, dump);
      assert order == order[..n] + [order[n]];
      assert order[n] in order;
      TypeIgnoresMetadata(from, to);
      hide GraphSync.TypeOf;
    }
  }

  lemma TypeIgnoresMetadata(from: string, to: string)
    ensures forall kind, a, b ::
        GraphSync.TypeOf(GraphSync.EdgeRow(from, to, kind, a)) == GraphSync.TypeOf(GraphSync.EdgeRow(from, to, kind, b))
  {
  }

  /** The payload of a graph for a push. */
  function ToPayload(project: string, scan: string, g: Graph, dump: Dump): GraphSync.Payload
    requires (forall id :: id in g.nodeOrder ==> id in g.nodes) && (forall e :: e in g.edgeOrder ==> e in g.edges)
  {
    GraphSync.Payload(project, scan, NodeRows(g.nodeOrder, g), EdgeRows(g.edgeOrder, g, dump))
  }

  /** The key under which a node of the graph is stored. */
  function StoredKey(project: string, g: Graph, id: string): GraphSync.NodeKey
    requires id in g.nodes
  {
    GraphSync.NodeKey(GraphSync.LabelOf(RowOf(g, id)), project, id)
  }

  /** A push stores one node for each id of the graph, under the label of its kind and with its title. */
  lemma NodesStoredOnce(project: string, scan: string, g: Graph, dump: Dump, k: GraphSync.NodeKey)
    requires ListedOnce(g)
    ensures GraphSync.WantedNode(ToPayload(project, scan, g, dump), k)
         == if k.id in g.nodes && k == StoredKey(project, g, k.id)
             then Some(GraphSync.StoredNode(RowOf(g, k.id), scan)) else None
  {
    LastRowOf(g.nodeOrder, g, k.tag, k.id);
    hide NodeRows, EdgeRows, GraphSync.LabelOf, GraphSync.LastNode;
  }

  ghost predicate IsStoredAs(w: GraphSync.Payload, e: EdgeId, k: GraphSync.EdgeKey) {
    GraphSync.WantedEdge(w, k).Some? && k.from.id == e.from && k.to.id == e.to
    && k.kind == GraphSync.TypeOf(GraphSync.EdgeRow(e.from, e.to, e.kind, ""))
  }

  /**
   From the analysis to the store: of the edges of the graph a push stores exactly those that are backed by
   a node at either end, and drops the edges from configuration keys without a chunk.
   */
  lemma BackedEdgesAreStored(a: Analysis, project: string, scan: string, dump: Dump, e: EdgeId)
    requires e in Built(a).edges
    ensures ListedOnce(Built(a))
    ensures (exists k :: IsStoredAs(ToPayload(project, scan, Built(a), dump), e, k)) <==> !Unbacked(a, e)
  {
    BuiltMeans(a, "", e);
    EdgesJoinNodes(a, e);
    hide Built, Unbacked, GraphSync.LabelOf, GraphSync.TypeOf;
    var g := Built(a);
    var w := ToPayload(project, scan, g, dump);
    if e.from in g.nodes {
      var k := GraphSync.EdgeKey(StoredKey(project, g, e.from), StoredKey(project, g, e.to),
                                 GraphSync.TypeOf(GraphSync.EdgeRow(e.from, e.to, e.kind, "")));
      NodesStoredOnce(project, scan, g, dump, k.from);
      NodesStoredOnce(project, scan, g, dump, k.to);
      LastEdgeOf(g.edgeOrder, g, dump, k.kind, e.from, e.to);
      assert e in g.edgeOrder;
      assert IsStoredAs(w, e, k);
    }
    StoredEdgesBegin(project, scan, g, dump, e);
  }

  lemma StoredEdgesBegin(project: string, scan: string, g: Graph, dump: Dump, e: EdgeId)
    requires ListedOnce(g)
    ensures forall k :: IsStoredAs(ToPayload(project, scan, g, dump), e, k) ==> e.from in g.nodes
  {
    forall k | IsStoredAs(ToPayload(project, scan, g, dump), e, k) ensures e.from in g.nodes {
      NodesStoredOnce(project, scan, g, dump, k.from);
    }
  }
}
