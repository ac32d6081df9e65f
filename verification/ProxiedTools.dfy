/**
 Proxied tools (proxied_tools.go, proxied_handler.go, proxied_client.go): a session connects to its
 datasources once, registers their tools under names prefixed with the datasource type, and a call under
 such a name is routed back to a datasource's client and to the tool it was built from.
 */
module ProxiedTools {
  import opened Common

  // ---------------------------------------------------------------- names

  function Prefixed(kind: string, name: string): string {
    kind + "_" + name
  }

  function IndexOfUnderscore(s: string): (i: nat)
    ensures i <= |s| && '_' !in s[..i] && (i < |s| ==> s[i] == '_')
  {
    if s == "" || s[0] == '_' then 0
    else
      var i := IndexOfUnderscore(s[1..]);
      assert s[..i + 1] == [s[0]] + s[1..][..i];
      i + 1
  }

  /** `strings.SplitN(toolName, "_", 2)`; `None` where there is no underscore. */
  function ParseProxiedToolName(toolName: string): Option<(string, string)> {
    var i := IndexOfUnderscore(toolName);
    if i == |toolName| then None else Some((toolName[..i], toolName[i + 1..]))
  }

  lemma {:induction false} FirstUnderscore(kind: string, name: string)
    ensures IndexOfUnderscore(Prefixed(kind, name)) == IndexOfUnderscore(kind)
    ensures IndexOfUnderscore(kind) == |kind| <==> '_' !in kind
  {
    if kind != "" && kind[0] != '_' {
      FirstUnderscore(kind[1..], name);
      assert Prefixed(kind, name)[1..] == Prefixed(kind[1..], name);
      assert kind == [kind[0]] + kind[1..];
    }
  }

  /** A prefixed name parses back to its parts exactly when the datasource type has no underscore. */
  lemma ParseUndoesPrefix(kind: string, name: string)
    ensures ParseProxiedToolName(Prefixed(kind, name)) == Some((kind, name)) <==> '_' !in kind
    ensures ParseProxiedToolName(Prefixed(kind, name)).Some?
  {
    FirstUnderscore(kind, name);
    var full := Prefixed(kind, name);
    assert full[..|kind|] == kind && full[|kind| + 1..] == name;
  }

  /** So keys of datasources whose types have no underscore tell them apart. */
  lemma KeysTellDatasourcesApart(kind: string, uid: string, kind': string, uid': string)
    requires '_' !in kind && '_' !in kind'
    ensures Prefixed(kind, uid) == Prefixed(kind', uid') <==> kind == kind' && uid == uid'
  {
    ParseUndoesPrefix(kind, uid);
    ParseUndoesPrefix(kind', uid');
  }

  // ---------------------------------------------------------------- clients and tools

  datatype Tool = Tool(name: string, properties: map<string, string>, required: seq<string>)

  datatype Client = Client(kind: string, uid: string, tools: seq<Tool>)

  /** A discovered datasource, and what connecting to it gives. */
  datatype Discovered = Discovered(kind: string, uid: string, connected: Option<seq<Tool>>)

  const UID := "datasourceUid"

  function AddDatasourceUidParameter(tool: Tool, kind: string): Tool {
    Tool(Prefixed(kind, tool.name), tool.properties[UID := "UID of the " + kind + " datasource to query"],
         tool.required + [UID])
  }

  ghost predicate OffersAmong(c: Client, count: nat, name: string) {
    exists i :: 0 <= i < count && i < |c.tools| && name == Prefixed(c.kind, c.tools[i].name)
  }

  /** The client has the tool that is registered under the name. */
  ghost predicate Offers(c: Client, name: string) {
    OffersAmong(c, |c.tools|, name)
  }

  ghost predicate HasTool(c: Client, name: string) {
    exists i :: 0 <= i < |c.tools| && c.tools[i].name == name
  }

  lemma OffersPrefixed(c: Client, name: string)
    ensures Offers(c, Prefixed(c.kind, name)) <==> HasTool(c, name)
  {
    if i :| 0 <= i < |c.tools| && Prefixed(c.kind, name) == Prefixed(c.kind, c.tools[i].name) {
      assert name == Prefixed(c.kind, name)[|c.kind| + 1..] == c.tools[i].name;
    }
  }

  /** Clients are stored under their own type and uid. */
  ghost predicate Keyed(clients: map<string, Client>) {
    forall k :: k in clients ==> k == Prefixed(clients[k].kind, clients[k].uid)
  }

  /** What has been recorded when the clients of some keys are done, and of one more client some tools. */
  ghost predicate Recorded(clients: map<string, Client>, keys: set<string>, current: string, count: nat, n: string,
                           k: string) {
    k in clients && ((k in keys && Offers(clients[k], n)) || (k == current && OffersAmong(clients[k], count, n)))
  }

  /** The tables of a registration so far: tools by name, and for each name the keys that support it. */
  ghost predicate Tabulates(clients: map<string, Client>, keys: set<string>, current: string, count: nat,
                            tools: map<string, Tool>, table: map<string, seq<string>>) {
    && (forall n :: n in tools <==> n in table)
    && (forall n :: n in tools ==> tools[n].name == n && table[n] != [])
    && (forall n, k :: n in table && k in table[n] <==> Recorded(clients, keys, current, count, n, k))
  }

  /** `tool` is `original` under a prefixed name, with a parameter for the uid that it also requires. */
  ghost predicate TakesUid(original: Tool, kind: string, tool: Tool) {
    && tool.name == kind + "_" + original.name
    && tool.properties.Keys == original.properties.Keys + {"datasourceUid"}
    && tool.properties["datasourceUid"] == "UID of the " + kind + " datasource to query"
    && (forall p :: p in original.properties && p != "datasourceUid" ==> tool.properties[p] == original.properties[p])
    && tool.required == original.required + ["datasourceUid"]
  }

  /** A registered tool is a tool of some client that takes the uid as well. */
  ghost predicate Built(clients: map<string, Client>, tool: Tool) {
    exists k, t :: k in clients && t in clients[k].tools && TakesUid(t, clients[k].kind, tool)
  }

  /** So whatever is registered has the parameter and requires it. */
  lemma RegisteredTakeUid(clients: map<string, Client>, list: seq<Tool>, table: map<string, seq<string>>, tool: Tool)
    requires Complete(clients, list, table) && tool in list
    ensures "datasourceUid" in tool.properties && "datasourceUid" in tool.required
    ensures exists k, t :: k in clients && t in clients[k].tools && TakesUid(t, clients[k].kind, tool)
  {
    var k, t :| k in clients && t in clients[k].tools && TakesUid(t, clients[k].kind, tool);
    assert tool.required[|t.required|] == "datasourceUid";
  }

  lemma OffersOneMore(c: Client, count: nat, n: string)
    requires count < |c.tools|
    ensures OffersAmong(c, count + 1, n) <==> OffersAmong(c, count, n) || n == Prefixed(c.kind, c.tools[count].name)
  {
  }

  lemma OneMoreTool(clients: map<string, Client>, keys: set<string>, current: string, count: nat, next: nat,
                    tools: map<string, Tool>, table: map<string, seq<string>>, tool: Tool, rest: seq<string>)
    requires Tabulates(clients, keys, current, count, tools, table)
    requires current in clients && count < |clients[current].tools| && next == count + 1
    requires tool.name == Prefixed(clients[current].kind, clients[current].tools[count].name)
    requires rest == if tool.name in table then table[tool.name] else []
    ensures Tabulates(clients, keys, current, next, if tool.name in tools then tools else tools[tool.name := tool],
                      table[tool.name := rest + [current]])
  {
    forall n, k ensures Recorded(clients, keys, current, next, n, k)
                   <==> Recorded(clients, keys, current, count, n, k) || (n == tool.name && k == current) {
      OffersOneMore(clients[current], count, n);
    }
    hide Recorded;
    var more := table[tool.name := rest + [current]];
    forall n, k ensures n in more && k in more[n] <==> Recorded(clients, keys, current, next, n, k) {
      assert n in table && k in table[n] <==> Recorded(clients, keys, current, count, n, k);
    }
  }

  lemma NextClient(clients: map<string, Client>, keys: set<string>, current: string,
                   tools: map<string, Tool>, table: map<string, seq<string>>, next: string)
    requires current in clients && Tabulates(clients, keys, current, |clients[current].tools|, tools, table)
    ensures Tabulates(clients, keys + {current}, next, 0, tools, table)
  {
    forall n, k ensures Recorded(clients, keys, current, |clients[current].tools|, n, k)
                   <==> Recorded(clients, keys + {current}, next, 0, n, k) {
    }
    hide Recorded;
  }

  /**
   The registered names are those the table knows, each once; the table holds a key exactly where its
   client offers the name.
   */
  ghost predicate Complete(clients: map<string, Client>, list: seq<Tool>, table: map<string, seq<string>>) {
    && (forall n :: n in table <==> exists t :: t in list && t.name == n)
    && (forall i, j :: 0 <= i < j < |list| ==> list[i].name != list[j].name)
    && (forall n, k :: n in table && k in table[n] <==> k in clients && Offers(clients[k], n))
    && (forall t :: t in list ==> Built(clients, t))
  }

  /** Of all lists handed to the server only the last has tools, which are the session's. */
  ghost predicate HandedOnce(tools: seq<Tool>, registrations: seq<seq<Tool>>) {
    if tools == [] then forall r :: r in registrations ==> r == []
    else
      && registrations != [] && registrations[|registrations| - 1] == tools
      && forall i :: 0 <= i < |registrations| - 1 ==> registrations[i] == []
  }

  lemma HandedNext(registrations: seq<seq<Tool>>, list: seq<Tool>)
    requires HandedOnce([], registrations)
    ensures HandedOnce(list, registrations + [list])
  {
    assert forall i :: 0 <= i < |registrations| ==> registrations[i] in registrations;
  }

  // ---------------------------------------------------------------- the clients of a discovery

  /** The datasources that could be connected to, under their keys; the last one of a key stays. */
  function ClientsOf(ds: seq<Discovered>): map<string, Client> {
    if ds == [] then map[]
    else
      var before, d := ClientsOf(ds[..|ds| - 1]), ds[|ds| - 1];
      if d.connected.None? then before else before[Prefixed(d.kind, d.uid) := Client(d.kind, d.uid, d.connected.value)]
  }

  predicate ConnectsAs(d: Discovered, key: string) {
    d.connected.Some? && Prefixed(d.kind, d.uid) == key
  }

  /** The datasource at `i` is the last of its key that was connected to. */
  predicate LastConnected(ds: seq<Discovered>, key: string, i: nat) {
    i < |ds| && ConnectsAs(ds[i], key) && forall j :: i < j < |ds| ==> !ConnectsAs(ds[j], key)
  }

  lemma {:induction false} ClientsKeyed(ds: seq<Discovered>)
    ensures Keyed(ClientsOf(ds))
  {
    if ds != [] {
      ClientsKeyed(ds[..|ds| - 1]);
    }
  }

  lemma {:induction false} ConnectedHasClient(ds: seq<Discovered>, key: string)
    ensures key in ClientsOf(ds) <==> exists i :: 0 <= i < |ds| && ConnectsAs(ds[i], key)
  {
    if ds != [] {
      var n := |ds| - 1;
      hide Prefixed;
      ConnectedHasClient(ds[..n], key);
      if ConnectsAs(ds[n], key) {
        assert key in ClientsOf(ds);
      } else if key in ClientsOf(ds[..n]) {
        var i :| 0 <= i < n && ConnectsAs(ds[..n][i], key);
        assert ConnectsAs(ds[i], key);
      }
    }
  }

  /**
   A key has a client if and only if a datasource of the key was connected to, and it is the client of the last such.
   */
  lemma {:induction false} LastOfKeyConnects(ds: seq<Discovered>, key: string)
    ensures Keyed(ClientsOf(ds))
    ensures key in ClientsOf(ds) <==> exists i :: 0 <= i < |ds| && ConnectsAs(ds[i], key)
    ensures forall i: nat :: LastConnected(ds, key, i) ==>
              key in ClientsOf(ds) && ClientsOf(ds)[key] == Client(ds[i].kind, ds[i].uid, ds[i].connected.value)
  {
    ClientsKeyed(ds);
    ConnectedHasClient(ds, key);
    forall i: nat | LastConnected(ds, key, i)
      ensures key in ClientsOf(ds) && ClientsOf(ds)[key] == Client(ds[i].kind, ds[i].uid, ds[i].connected.value)
    {
      LastIsClient(ds, key, i);
    }
  }

  lemma {:induction false} LastIsClient(ds: seq<Discovered>, key: string, i: nat)
    requires LastConnected(ds, key, i)
    ensures key in ClientsOf(ds) && ClientsOf(ds)[key] == Client(ds[i].kind, ds[i].uid, ds[i].connected.value)
  {
    hide Prefixed;
    var n := |ds| - 1;
    if i < n {
      assert !ConnectsAs(ds[n], key);
      forall j | i < j < n ensures !ConnectsAs(ds[..n][j], key) {
        assert ds[..n][j] == ds[j];
      }
      LastIsClient(ds[..n], key, i);
    }
  }

  /** What a discovery leaves a session with; `None` where it fails. */
  function Connected(discovered: Option<seq<Discovered>>): map<string, Client> {
    match discovered
    case None => map[]
    case Some(ds) => ClientsOf(ds)
  }

  // ---------------------------------------------------------------- a session

  class Session {
    var initialized: bool                             // initOnce has run
    var proxiedClients: map<string, Client>
    var proxiedTools: seq<Tool>
    var toolToDatasources: map<string, seq<string>>
    ghost var registrations: seq<seq<Tool>>           // the tool lists handed to the server

    constructor ()
      ensures Valid() && !initialized && proxiedTools == [] && registrations == []
    {
      initialized, proxiedClients, proxiedTools, toolToDatasources := false, map[], [], map[];
      registrations := [];
    }

    /**
     Clients are under their keys; the tools and the table follow from the clients; and the server has
     been given tools at most once, which are these.
     */
    ghost predicate Valid()
      reads this
    {
      && Keyed(proxiedClients)
      && (!initialized ==> proxiedClients == map[] && proxiedTools == [])
      && (if proxiedTools == []
          then toolToDatasources == map[] else Complete(proxiedClients, proxiedTools, toolToDatasources))
      && HandedOnce(proxiedTools, registrations)
    }

    /** Step 1: the discovery, which runs once; `None` where it fails. */
    method Connect(discovered: Option<seq<Discovered>>)
      requires Valid()
      modifies this`initialized, this`proxiedClients
      ensures Valid() && initialized
      ensures proxiedClients == if old(initialized) then old(proxiedClients) else Connected(discovered)
    {
      if initialized {
        return;
      }
      initialized := true;
      if discovered.None? {
        return;
      }
      var clients: map<string, Client> := map[];
      for i := 0 to |discovered.value|
        invariant Keyed(clients) && clients == ClientsOf(discovered.value[..i])
      {
        assert discovered.value[..i + 1][..i] == discovered.value[..i];
        var d := discovered.value[i];
        if d.connected.Some? {
          clients := clients[Prefixed(d.kind, d.uid) := Client(d.kind, d.uid, d.connected.value)];
        }
      }
      assert discovered.value[..|discovered.value|] == discovered.value;
      proxiedClients := clients;
    }

    /** Step 2: collect the tools of all clients, in any order of the clients, and hand them to the server once. */
    method Register()
      requires Valid() && initialized
      modifies this`proxiedTools, this`toolToDatasources, this`registrations
      ensures Valid()
      ensures old(proxiedTools) != [] || proxiedClients == map[] ==>
                proxiedTools == old(proxiedTools) && toolToDatasources == old(toolToDatasources)
                    && registrations == old(registrations)
      ensures old(proxiedTools) == [] && proxiedClients != map[] ==>
          Complete(proxiedClients, proxiedTools, toolToDatasources)
    {
      if |proxiedTools| > 0 {
        return;
      }
      if |proxiedClients| == 0 {
        return;
      }
      hide Keyed, Complete, HandedOnce, Tabulates, Lists, AllBuilt;
      var tools, table := CollectTools(proxiedClients, toolToDatasources);
      var list := ListTools(proxiedClients, tools);
      TablesComplete(proxiedClients, tools, list, table);
      HandedNext(registrations, list);
      toolToDatasources := table;
      proxiedTools := list;
      registrations := registrations + [list];
    }

    /** `InitializeAndRegisterProxiedTools` for a session that exists. */
    method InitializeAndRegister(discovered: Option<seq<Discovered>>)
      requires Valid()
      modifies this
      ensures Valid() && initialized
      ensures old(proxiedTools) != [] ==>
                && proxiedClients == old(proxiedClients) && proxiedTools == old(proxiedTools)
                && toolToDatasources == old(toolToDatasources) && registrations == old(registrations)
      ensures proxiedClients == if old(initialized) then old(proxiedClients) else Connected(discovered)
      ensures if proxiedClients == map[] then proxiedTools == old(proxiedTools) && registrations == old(registrations)
              else old(proxiedTools) != [] || Complete(proxiedClients, proxiedTools, toolToDatasources)
    {
      Connect(discovered);
      Register();
    }
  }

  /** The first pass: nested loops over the clients and their tools. */
  method CollectTools(clients: map<string, Client>, start: map<string, seq<string>>)
    returns (tools: map<string, Tool>, table: map<string, seq<string>>)
    requires start == map[]
    ensures Tabulates(clients, clients.Keys, "", 0, tools, table)
    ensures AllBuilt(clients, tools)
  {
    tools, table := map[], start;
    var left := clients.Keys;
    ghost var done: set<string> := {};
    while left != {}
      invariant done + left == clients.Keys && done !! left
      invariant forall current :: Tabulates(clients, done, current, 0, tools, table)
      invariant forall n :: n in tools ==> Built(clients, tools[n])
      decreases left
    {
      var key :| key in left;
      left := left - {key};
      var client := clients[key];
      for j := 0 to |client.tools|
        invariant Tabulates(clients, done, key, j, tools, table)
        invariant forall n :: n in tools ==> Built(clients, tools[n])
      {
        var tool := client.tools[j];
        var toolName := Prefixed(client.kind, tool.name);
        var modified := AddDatasourceUidParameter(tool, client.kind);
        var rest := if toolName in table then table[toolName] else [];
        OneMoreTool(clients, done, key, j, j + 1, tools, table, modified, rest);
        if toolName !in tools {
          assert tool in clients[key].tools && TakesUid(tool, client.kind, modified);
          tools := tools[toolName := modified];
        }
        table := table[toolName := rest + [key]];
      }
      forall current ensures Tabulates(clients, done + {key}, current, 0, tools, table) {
        NextClient(clients, done, key, tools, table, current);
      }
      done := done + {key};
    }
    assert done == clients.Keys;
  }

  ghost predicate Lists(clients: map<string, Client>, tools: map<string, Tool>, list: seq<Tool>) {
    && (forall n :: n in tools <==> exists t :: t in list && t.name == n)
    && (forall i, j :: 0 <= i < j < |list| ==> list[i].name != list[j].name)
    && (forall t :: t in list ==> Built(clients, t))
  }

  ghost predicate AllBuilt(clients: map<string, Client>, tools: map<string, Tool>) {
    forall n :: n in tools ==> tools[n].name == n && Built(clients, tools[n])
  }

  /** The second pass: the tools of the map, in any order. */
  method ListTools(clients: map<string, Client>, tools: map<string, Tool>) returns (list: seq<Tool>)
    requires AllBuilt(clients, tools)
    ensures Lists(clients, tools, list)
  {
    hide Built;
    list := [];
    var left := tools.Keys;
    while left != {}
      invariant left <= tools.Keys
      invariant forall t :: t in list ==> t.name in tools && t.name !in left && Built(clients, t)
      invariant forall n :: n in tools && n !in left ==> tools[n] in list
      invariant forall i, j :: 0 <= i < j < |list| ==> list[i].name != list[j].name
      decreases left
    {
      var n :| n in left;
      list, left := list + [tools[n]], left - {n};
    }
    forall n | n in tools ensures exists t :: t in list && t.name == n {
      assert tools[n] in list;
    }
  }

  lemma TablesComplete(clients: map<string, Client>, tools: map<string, Tool>, list: seq<Tool>, table: map<string,
                       seq<string>>)
    requires Tabulates(clients, clients.Keys, "", 0, tools, table) && Lists(clients, tools, list)
    ensures Complete(clients, list, table)
    ensures list == [] ==> table == map[]
  {
    forall n, k ensures Recorded(clients, clients.Keys, "", 0, n, k) <==> k in clients && Offers(clients[k], n) {
    }
  }

  // ---------------------------------------------------------------- calls

  datatype Arg = Text(text: string) | Other(json: string)

  datatype Result =
    | Called(client: Client, tool: string, args: map<string, Arg>)
    | NoSession | NoArguments | NoUid | UidNotText | BadName | NoClient | NoTool

  function GetProxiedClient(clients: map<string, Client>, kind: string, uid: string): Option<Client> {
    if Prefixed(kind, uid) in clients then Some(clients[Prefixed(kind, uid)]) else None
  }

  /** `CallTool` of the client that was found, up to the remote call. */
  method CallTool(client: Client, tool: string, args: map<string, Arg>) returns (r: Result)
    ensures r == if HasTool(client, tool) then Called(client, tool, args) else NoTool
  {
    var exist := false;
    for i := 0 to |client.tools|
      invariant !exist && forall j :: 0 <= j < i ==> client.tools[j].name != tool
    {
      if client.tools[i].name == tool {
        exist := true;
        break;
      }
    }
    r := if exist then Called(client, tool, args) else NoTool;
  }

  /**
   The handler of one tool: `inContext` says whether the request comes with a session, `session` is what
   the session manager has for it.
   */
  method Handle(toolName: string, inContext: bool, arguments: Option<map<string, Arg>>, serverMode: bool,
                session: Option<map<string, Client>>, serverClients: map<string, Client>) returns (r: Result)
    ensures r.NoSession? <==> !inContext
    ensures r.NoArguments? <==> inContext && arguments.None?
    ensures r.NoUid? <==> inContext && arguments.Some? && UID !in arguments.value
    ensures r.UidNotText? <==> inContext && arguments.Some? && UID in arguments.value && !arguments.value[UID].Text?
    ensures inContext && arguments.Some? && UID in arguments.value && arguments.value[UID].Text? ==>
              r == Routed(toolName, arguments.value[UID].text, arguments.value - {UID},
                          if serverMode then None else session, serverClients)
  {
    if !inContext {
      return NoSession;
    }
    if arguments.None? {
      return NoArguments;
    }
    var args := arguments.value;
    if UID !in args {
      return NoUid;
    }
    if !args[UID].Text? {
      return UidNotText;
    }
    var parsed := ParseProxiedToolName(toolName);
    if parsed.None? {
      return BadName;
    }
    var (kind, original) := parsed.value;
    var client;
    if serverMode {
      client := GetProxiedClient(serverClients, kind, args[UID].text);
    } else {
      client := if session.Some? then GetProxiedClient(session.value, kind, args[UID].text) else None;
      if client.None? {
        client := GetProxiedClient(serverClients, kind, args[UID].text);
      }
    }
    if client.None? {
      return NoClient;
    }
    var forwardArgs: map<string, Arg> := map[];
    var left := args.Keys;
    while left != {}
      invariant left <= args.Keys
      invariant forwardArgs == map k | k in args && k !in left && k != UID :: args[k]
      decreases left
    {
      var k :| k in left;
      left := left - {k};
      if k != UID {
        forwardArgs := forwardArgs[k := args[k]];
      }
    }
    assert forwardArgs == args - {UID};
    r := CallTool(client.value, original, forwardArgs);
  }

  /** Where a call with a datasource's uid goes. */
  ghost function Routed(toolName: string, uid: string, args: map<string, Arg>,
                        session: Option<map<string, Client>>, serverClients: map<string, Client>): Result {
    match ParseProxiedToolName(toolName)
    case None => BadName
    case Some((kind, original)) =>
      var own := if session.Some? then GetProxiedClient(session.value, kind, uid) else None;
      var client := if own.Some? then own else GetProxiedClient(serverClients, kind, uid);
      if client.None? then NoClient
      else if HasTool(client.value, original) then Called(client.value, original, args)
      else NoTool
  }

  /**
   A call under `kind_tool` goes to the session's client of the key `kind_uid`, or else to that of the server, and is
   served if this client has the tool; a name without an underscore is none.
   */
  lemma CallOutcome(kind: string, tool: string, uid: string, args: map<string, Arg>,
                    session: Option<map<string, Client>>, serverClients: map<string, Client>)
    requires '_' !in kind
    ensures var key := kind + "_" + uid;
            var r := Routed(kind + "_" + tool, uid, args, session, serverClients);
            if session.Some? && key in session.value then
              r == if HasTool(session.value[key], tool) then Called(session.value[key], tool, args) else NoTool
            else if key in serverClients then
              r == if HasTool(serverClients[key], tool) then Called(serverClients[key], tool, args) else NoTool
            else r == NoClient
    ensures Routed(kind, uid, args, session, serverClients) == BadName
  {
    ParseUndoesPrefix(kind, tool);
    FirstUnderscore(kind, "");
    hide HasTool;
  }

  // ---------------------------------------------------------------- registration and routing agree

  /** Datasource types are `tempo` and the like. */
  ghost predicate PlainKinds(clients: map<string, Client>) {
    forall k :: k in clients ==> '_' !in clients[k].kind
  }

  /**
   A registered tool, called with the uid of any datasource recorded for it, reaches that datasource's own
   client under a tool the client has; and a uid for which the call reaches a client of the session under
   such a tool is the uid of a recorded datasource.
   */
  lemma RecordedIsRouted(clients: map<string, Client>, name: string, key: string,
                         args: map<string, Arg>, serverClients: map<string, Client>)
    requires Keyed(clients) && PlainKinds(clients) && key in clients && Offers(clients[key], name)
    ensures var c := clients[key];
            && ParseProxiedToolName(name).Some? && ParseProxiedToolName(name).value.0 == c.kind
            && HasTool(c, ParseProxiedToolName(name).value.1)
            && Routed(name, c.uid, args, Some(clients), serverClients)
                == Called(c, ParseProxiedToolName(name).value.1, args)
  {
    var c := clients[key];
    var i :| 0 <= i < |c.tools| && name == Prefixed(c.kind, c.tools[i].name);
    ParseUndoesPrefix(c.kind, c.tools[i].name);
  }

  /** Conversely, with no server-wide clients to fall back on, only the uids of recorded datasources are served. */
  lemma RoutedIsRecorded(clients: map<string, Client>, name: string, uid: string, args: map<string, Arg>)
    requires Keyed(clients) && PlainKinds(clients)
    ensures Routed(name, uid, args, Some(clients), map[]).Called? <==>
              exists key :: key in clients && Offers(clients[key], name) && clients[key].uid == uid
  {
    if key :| key in clients && Offers(clients[key], name) && clients[key].uid == uid {
      RecordedIsRouted(clients, name, key, args, map[]);
    }
    if Routed(name, uid, args, Some(clients), map[]).Called? {
      var (kind, original) := ParseProxiedToolName(name).value;
      var key := Prefixed(kind, uid);
      var c := clients[key];
      assert '_' !in kind;
      KeysTellDatasourcesApart(kind, uid, c.kind, c.uid);
      OffersPrefixed(c, original);
      assert name == Prefixed(kind, original);
    }
  }

  /** Both, for the tables of a session after its registration. */
  lemma TableServes(clients: map<string, Client>, list: seq<Tool>, table: map<string, seq<string>>,
                    name: string, uid: string, args: map<string, Arg>)
    requires Keyed(clients) && PlainKinds(clients) && Complete(clients, list, table)
    ensures Routed(name, uid, args, Some(clients), map[]).Called? <==>
              name in table && exists key :: key in table[name] && key in clients && clients[key].uid == uid
  {
    RoutedIsRecorded(clients, name, uid, args);
    hide Routed, Keyed, PlainKinds, Offers, Built;
  }
}
