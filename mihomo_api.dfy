/** The request side of the controller client: the shared client cache keyed by
    the core's socket path, the response interceptor, the proxy-group list shown
    by the UI and closing connections by chain. HTTP itself is abstract: a
    request the client would send is a value of `Request`. */
module MihomoApi {
  import opened Json

  // ---------------------------------------------------------------------------
  // Shared client (getAxios)
  // ---------------------------------------------------------------------------

  /** Per-request timeout of the shared client, in milliseconds. */
  const RequestTimeout: int := 15000
  const BaseUrl: string := "http://localhost"

  /** A client bound to one socket path; `serial` tells apart clients built at
      different times. */
  datatype Client = Client(socketPath: string, baseUrl: string, timeout: int, serial: nat)

  class ClientCache {
    /** The cached client (`axiosIns`), None before the first call. */
    var client: Option<Client>
    /** How many clients have been built so far. */
    var built: nat

    ghost predicate Valid()
      reads this
    {
      client.Some? ==> client.value.serial < built
    }

    constructor ()
      ensures Valid() && client == None && built == 0
    {
      client := None;
      built := 0;
    }

    /** getAxios: reuse the cached client unless `force` is set or it is bound
        to another socket path than the current one; otherwise build a new one
        and cache it. */
    method GetAxios(force: bool, currentSocketPath: string) returns (c: Client)
      requires Valid()
      modifies this
      ensures Valid()
      ensures client == Some(c) && c.socketPath == currentSocketPath
      ensures var reuse := old(client).Some? && !force && old(client).value.socketPath == currentSocketPath;
        && (reuse ==> c == old(client).value && built == old(built))
        && (!reuse ==> c == Client(currentSocketPath, BaseUrl, RequestTimeout, old(built))
                       && built == old(built) + 1)
        && (old(client).Some? && !reuse ==> c != old(client).value)
    {
      var f := force;
      if client.Some? && client.value.socketPath != currentSocketPath {
        f := true;
      }
      if client.Some? && !f {
        return client.value;
      }
      c := Client(currentSocketPath, BaseUrl, RequestTimeout, built);
      built := built + 1;
      client := Some(c);
    }
  }

  /** What a failed request carries: the server's response, when there was one. */
  datatype RequestError = RequestError(response: Option<HttpResponse>)
  datatype HttpResponse = HttpResponse(data: Value)

  /** The reason a request made through the shared client is rejected with. */
  datatype Rejection = ServerBody(body: Value) | RawError(error: RequestError)

  /** The error interceptor: reject with the response body when there is a
      response and its body is truthy, otherwise with the error itself. */
  function OnRejected(e: RequestError): (r: Rejection)
    ensures r.ServerBody? <==> e.response.Some? && Truthy(e.response.value.data)
    ensures r.ServerBody? ==> r.body == e.response.value.data
    ensures r.RawError? ==> r.error == e
  {
    if e.response.Some? && Truthy(e.response.value.data) then ServerBody(e.response.value.data)
    else RawError(e)
  }

  // ---------------------------------------------------------------------------
  // Closing connections (mihomoCloseAllConnections)
  // ---------------------------------------------------------------------------

  datatype Connection = Connection(id: string, chains: Option<seq<string>>)

  /** A request the client sends to the controller. */
  datatype Request = DeleteConnection(id: string) | DeleteAllConnections

  predicate OnChain(c: Connection, name: string) {
    c.chains.Some? && name in c.chains.value
  }

  /** The connections whose chain names `name`, in list order. */
  function OnChainOf(conns: seq<Connection>, name: string): (r: seq<Connection>)
    ensures |r| <= |conns|
    ensures forall c :: c in r <==> c in conns && OnChain(c, name)
  {
    if conns == [] then []
    else OnChainOf(conns[..|conns| - 1], name)
         + (if OnChain(conns[|conns| - 1], name) then [conns[|conns| - 1]] else [])
  }

  /** Filtering a concatenation filters each part: the selection keeps list order. */
  lemma {:induction false} OnChainOfAppend(a: seq<Connection>, b: seq<Connection>, name: string)
    ensures OnChainOf(a + b, name) == OnChainOf(a, name) + OnChainOf(b, name)
  {
    if b == [] {
      assert a + b == a;
    } else {
      var b' := b[..|b| - 1];
      assert (a + b)[..|a + b| - 1] == a + b';
      assert (a + b)[|a + b| - 1] == b[|b| - 1];
      OnChainOfAppend(a, b', name);
    }
  }

  /** mihomoCloseAllConnections. With a non-empty `name`, one close request per
      listed connection whose chain contains `name`, in list order; a failing
      close is ignored and the loop goes on, so every target gets its request.
      Without a name (or with an empty one), a single bulk delete. `listing` is
      the fetched connection list, None when the response has none. */
  method CloseAllConnections(name: Option<string>, listing: Option<seq<Connection>>)
    returns (issued: seq<Request>)
    ensures name.None? || name.value == "" ==> issued == [DeleteAllConnections]
    ensures name.Some? && name.value != "" ==>
      var targets := OnChainOf(listing.GetOr([]), name.value);
      && |issued| == |targets|
      && forall i :: 0 <= i < |issued| ==> issued[i] == DeleteConnection(targets[i].id)
  {
    if name.None? || name.value == "" {
      return [DeleteAllConnections];
    }
    var targets := OnChainOf(listing.GetOr([]), name.value);
    issued := [];
    for i := 0 to |targets|
      invariant |issued| == i
      invariant forall k :: 0 <= k < i ==> issued[k] == DeleteConnection(targets[k].id)
    {
      issued := issued + [DeleteConnection(targets[i].id)];
    }
  }

  // ---------------------------------------------------------------------------
  // Proxy groups (mihomoGroups)
  // ---------------------------------------------------------------------------

  /** A proxy entry of the controller's `/proxies` table. `all` is present on
      groups only. */
  datatype ProxyInfo = ProxyInfo(all: Option<seq<string>>, hidden: bool, testUrl: Option<string>)

  /** A `proxy-groups` entry of the running configuration. */
  datatype GroupDecl = GroupDecl(name: string, url: Option<string>)

  /** An element of the returned list. `all` names the members; in the source
      each member is a reference to the entry of that name in the proxy table
      (undefined when there is none), so the members are resolved in the table
      returned beside the list. `Undefined` is the JavaScript `undefined` that
      the reordering can put at the front. */
  datatype MixedGroup = Group(name: string, testUrl: Option<string>, all: seq<string>) | Undefined

  datatype Groups = Groups(list: seq<MixedGroup>, proxies: map<string, ProxyInfo>)

  datatype Failure = TypeError

  datatype Result<T> = Ok(value: T) | Err(error: Failure)

  const GlobalName: string := "GLOBAL"

  /** A runtime group is listed when the proxy table has it, it has members and
      it is not hidden. */
  predicate Listed(proxies: map<string, ProxyInfo>, d: GroupDecl) {
    d.name in proxies && proxies[d.name].all.Some? && !proxies[d.name].hidden
  }

  /** The listed runtime groups, in runtime order. */
  function ListedDecls(proxies: map<string, ProxyInfo>, decls: seq<GroupDecl>): (r: seq<GroupDecl>)
    ensures |r| <= |decls|
    ensures forall i :: 0 <= i < |r| ==> Listed(proxies, r[i])
    ensures forall d :: d in r <==> d in decls && Listed(proxies, d)
  {
    if decls == [] then []
    else ListedDecls(proxies, decls[..|decls| - 1])
         + (if Listed(proxies, decls[|decls| - 1]) then [decls[|decls| - 1]] else [])
  }

  /** The proxy table after the loop: each listed group's `testUrl` is
      overwritten with its runtime url (the last one, for a repeated name). */
  function TaggedTable(proxies: map<string, ProxyInfo>, decls: seq<GroupDecl>): (t: map<string, ProxyInfo>)
    ensures t.Keys == proxies.Keys
    ensures forall k :: k in proxies ==> t[k].all == proxies[k].all && t[k].hidden == proxies[k].hidden
  {
    if decls == [] then proxies
    else
      var t := TaggedTable(proxies, decls[..|decls| - 1]);
      var d := decls[|decls| - 1];
      if Listed(proxies, d) then t[d.name := t[d.name].(testUrl := d.url)] else t
  }

  /** The group copied from a listed runtime entry, with its runtime url. */
  function GroupOf(proxies: map<string, ProxyInfo>, d: GroupDecl): (g: MixedGroup)
    requires Listed(proxies, d)
  {
    Group(d.name, d.url, proxies[d.name].all.value)
  }

  /** Array.prototype.findIndex on group names: -1 when there is none. */
  function FindIndex(groups: seq<MixedGroup>, name: string): (r: int)
    ensures -1 <= r < |groups|
    ensures r == -1 <==> forall i :: 0 <= i < |groups| ==> !(groups[i].Group? && groups[i].name == name)
    ensures r >= 0 ==> groups[r].Group? && groups[r].name == name
    ensures r >= 0 ==> forall i :: 0 <= i < r ==> !(groups[i].Group? && groups[i].name == name)
  {
    if groups == [] then -1
    else if groups[0].Group? && groups[0].name == name then 0
    else
      var k := FindIndex(groups[1..], name);
      if k == -1 then -1 else k + 1
  }

  /** `s.unshift(s.splice(idx, 1)[0])`. With idx == -1, splice removes the last
      element; on an empty array it removes nothing and `undefined` is put in
      front. */
  function MoveToFront(s: seq<MixedGroup>, idx: int): (r: seq<MixedGroup>)
    requires -1 <= idx < |s|
    ensures |r| == if s == [] then 1 else |s|
    ensures r[0] == if idx >= 0 then s[idx] else if s == [] then Undefined else s[|s| - 1]
  {
    if idx >= 0 then [s[idx]] + s[..idx] + s[idx + 1..]
    else if s == [] then [Undefined]
    else [s[|s| - 1]] + s[..|s| - 1]
  }

  /** Whether some element of the list is the group named GLOBAL. */
  predicate HasGlobal(groups: seq<MixedGroup>) {
    exists i :: 0 <= i < |groups| && groups[i].Group? && groups[i].name == GlobalName
  }

  /** mihomoGroups. `mode` is the controller's configured mode (default "rule"),
      `proxies` the `/proxies` table, `runtimeGroups` the running configuration's
      `proxy-groups` (None when absent). Reading a field of a missing GLOBAL
      entry, or mapping the members of a GLOBAL entry without any, throws. */
  method MihomoGroups(mode: Option<string>, proxies: map<string, ProxyInfo>,
                      runtimeGroups: Option<seq<GroupDecl>>)
    returns (r: Result<Groups>)
    ensures mode.GetOr("rule") == "direct" ==> r == Ok(Groups([], proxies))
    ensures r == GroupsSpec(mode.GetOr("rule"), proxies, runtimeGroups.GetOr([]))
  {
    var m := mode.GetOr("rule");
    if m == "direct" {
      return Ok(Groups([], proxies));
    }
    var groups, table := CollectRuntimeGroups(proxies, runtimeGroups.GetOr([]));
    if FindIndex(groups, GlobalName) == -1 {
      if GlobalName !in table {
        return Err(TypeError);
      }
      var newGlobal := table[GlobalName];
      if !newGlobal.hidden {
        if newGlobal.all.None? {
          return Err(TypeError);
        }
        groups := groups + [Group(GlobalName, newGlobal.testUrl, newGlobal.all.value)];
      }
    }
    if m == "global" {
      var global := FindIndex(groups, GlobalName);
      groups := MoveToFront(groups, global);
    }
    return Ok(Groups(groups, table));
  }

  /** The `forEach` over the runtime `proxy-groups` in mihomoGroups: tag each
      listed group with its url in the table and push a copy of it. */
  method CollectRuntimeGroups(proxies: map<string, ProxyInfo>, decls: seq<GroupDecl>)
    returns (groups: seq<MixedGroup>, table: map<string, ProxyInfo>)
    ensures groups == RuntimeGroups(proxies, decls)
    ensures table == TaggedTable(proxies, decls)
  {
    table := proxies;
    groups := [];
    for i := 0 to |decls|
      invariant table == TaggedTable(proxies, decls[..i])
      invariant groups == RuntimeGroups(proxies, decls[..i])
    {
      RuntimeGroupsStep(proxies, decls, i);
      TaggedTableStep(proxies, decls, i);
      var name := decls[i].name;
      if name in table && table[name].all.Some? && !table[name].hidden {
        table := table[name := table[name].(testUrl := decls[i].url)];
        var newGroup := table[name];
        groups := groups + [Group(name, newGroup.testUrl, newGroup.all.value)];
      }
    }
    assert decls[..|decls|] == decls;
  }

  lemma TaggedTableStep(proxies: map<string, ProxyInfo>, decls: seq<GroupDecl>, i: nat)
    requires i < |decls|
    ensures var t := TaggedTable(proxies, decls[..i]);
      var d := decls[i];
      && ((d.name in t && t[d.name].all.Some? && !t[d.name].hidden) <==> Listed(proxies, d))
      && (Listed(proxies, d) ==> t[d.name].all == proxies[d.name].all)
      && TaggedTable(proxies, decls[..i + 1])
         == if Listed(proxies, d) then t[d.name := t[d.name].(testUrl := d.url)] else t
  {
    assert decls[..i + 1][..i] == decls[..i];
  }

  lemma RuntimeGroupsStep(proxies: map<string, ProxyInfo>, decls: seq<GroupDecl>, i: nat)
    requires i < |decls|
    ensures RuntimeGroups(proxies, decls[..i + 1])
         == RuntimeGroups(proxies, decls[..i])
            + (if Listed(proxies, decls[i]) then [GroupOf(proxies, decls[i])] else [])
  {
    assert decls[..i + 1][..i] == decls[..i];
  }

  /** The groups listed from the runtime configuration, before GLOBAL is considered. */
  function RuntimeGroups(proxies: map<string, ProxyInfo>, decls: seq<GroupDecl>): (gs: seq<MixedGroup>)
    ensures |gs| == |ListedDecls(proxies, decls)|
  {
    var listed := ListedDecls(proxies, decls);
    seq(|listed|, k requires 0 <= k < |listed| => GroupOf(proxies, listed[k]))
  }

  /** What mihomoGroups returns for a mode other than "direct", before and after
      the global-mode reordering. */
  function GroupsSpec(mode: string, proxies: map<string, ProxyInfo>, decls: seq<GroupDecl>): (r: Result<Groups>)
    ensures mode == "direct" ==> r == Ok(Groups([], proxies))
    ensures mode != "direct" && r.Ok? ==>
      && r.value.proxies == TaggedTable(proxies, decls)
      && |RuntimeGroups(proxies, decls)| <= |r.value.list| <= |RuntimeGroups(proxies, decls)| + 1
  {
    if mode == "direct" then Ok(Groups([], proxies))
    else
      var table := TaggedTable(proxies, decls);
      var base := RuntimeGroups(proxies, decls);
      var appended: Result<seq<MixedGroup>> :=
        if FindIndex(base, GlobalName) != -1 then Ok(base)
        else if GlobalName !in table then Err(TypeError)
        else if table[GlobalName].hidden then Ok(base)
        else if table[GlobalName].all.None? then Err(TypeError)
        else Ok(base + [Group(GlobalName, table[GlobalName].testUrl, table[GlobalName].all.value)]);
      match appended
      case Err(e) => Err(e)
      case Ok(groups) =>
        if mode == "global" then Ok(Groups(MoveToFront(groups, FindIndex(groups, GlobalName)), table))
        else Ok(Groups(groups, table))
  }

  /** Selecting listed groups from a concatenation selects from each part:
      runtime order is kept. */
  lemma {:induction false} ListedDeclsAppend(proxies: map<string, ProxyInfo>, a: seq<GroupDecl>, b: seq<GroupDecl>)
    ensures ListedDecls(proxies, a + b) == ListedDecls(proxies, a) + ListedDecls(proxies, b)
  {
    if b == [] {
      assert a + b == a;
    } else {
      var b' := b[..|b| - 1];
      assert (a + b)[..|a + b| - 1] == a + b';
      assert (a + b)[|a + b| - 1] == b[|b| - 1];
      ListedDeclsAppend(proxies, a, b');
    }
  }

  /** A runtime group named GLOBAL is among the collected groups exactly when
      the runtime configuration lists it. */
  lemma RuntimeGroupsHaveGlobal(proxies: map<string, ProxyInfo>, decls: seq<GroupDecl>)
    ensures FindIndex(RuntimeGroups(proxies, decls), GlobalName) != -1
        <==> exists d :: d in decls && d.name == GlobalName && Listed(proxies, d)
  {
    var listed := ListedDecls(proxies, decls);
    var base := RuntimeGroups(proxies, decls);
    if exists d :: d in decls && d.name == GlobalName && Listed(proxies, d) {
      var d :| d in decls && d.name == GlobalName && Listed(proxies, d);
      assert d in listed;
      var k :| 0 <= k < |listed| && listed[k] == d;
      assert base[k].Group? && base[k].name == GlobalName;
    }
    if FindIndex(base, GlobalName) != -1 {
      var k := FindIndex(base, GlobalName);
      assert listed[k] in listed;
    }
  }

  /** Outside global mode the listed runtime groups come first, in runtime
      order, and GLOBAL is appended only when it is missing and not hidden. */
  lemma GroupsInRuleMode(mode: string, proxies: map<string, ProxyInfo>, decls: seq<GroupDecl>)
    requires mode != "direct" && mode != "global"
    ensures var r := GroupsSpec(mode, proxies, decls);
      var base := RuntimeGroups(proxies, decls);
      && (r.Ok? ==> r.value.list[..|base|] == base)
      && (r.Ok? && FindIndex(base, GlobalName) == -1 && !proxies[GlobalName].hidden ==>
            r.value.list == base + [Group(GlobalName, proxies[GlobalName].testUrl, proxies[GlobalName].all.value)])
      && (r.Ok? && (FindIndex(base, GlobalName) != -1 || proxies[GlobalName].hidden) ==>
            r.value.list == base)
  {
    var table := TaggedTable(proxies, decls);
    var base := RuntimeGroups(proxies, decls);
    if FindIndex(base, GlobalName) == -1 && GlobalName in proxies {
      RuntimeGroupsHaveGlobal(proxies, decls);
      TaggedTableUntouched(proxies, decls, GlobalName);
    }
  }

  /** A listed runtime group's entry ends with the url of the last listed
      declaration of that name as its `testUrl`. */
  lemma {:induction false} TaggedTableLastUrl(proxies: map<string, ProxyInfo>, decls: seq<GroupDecl>, j: nat)
    requires j < |decls| && Listed(proxies, decls[j])
    requires forall i :: j < i < |decls| && Listed(proxies, decls[i]) ==> decls[i].name != decls[j].name
    ensures TaggedTable(proxies, decls)[decls[j].name].testUrl == decls[j].url
  {
    var front := decls[..|decls| - 1];
    if j < |decls| - 1 {
      assert front[j] == decls[j];
      TaggedTableLastUrl(proxies, front, j);
    }
  }

  /** An entry that no listed runtime group names keeps its own testUrl. */
  lemma {:induction false} TaggedTableUntouched(proxies: map<string, ProxyInfo>, decls: seq<GroupDecl>, name: string)
    requires name in proxies
    requires forall d :: d in decls && d.name == name ==> !Listed(proxies, d)
    ensures TaggedTable(proxies, decls)[name] == proxies[name]
  {
    if decls != [] {
      var prefix := decls[..|decls| - 1];
      assert forall d :: d in prefix ==> d in decls;
      TaggedTableUntouched(proxies, prefix, name);
    }
  }

  /** mihomoGroups throws exactly when GLOBAL is not among the runtime groups
      and the proxy table either has no GLOBAL entry or has a visible one
      without members. */
  lemma GroupsFailure(mode: string, proxies: map<string, ProxyInfo>, decls: seq<GroupDecl>)
    requires mode != "direct"
    ensures GroupsSpec(mode, proxies, decls).Err?
        <==> && FindIndex(RuntimeGroups(proxies, decls), GlobalName) == -1
             && (GlobalName !in proxies
                 || (!proxies[GlobalName].hidden && proxies[GlobalName].all.None?))
  {
  }

  /** Global mode returns the rule-mode list reordered by the splice/unshift step. */
  lemma GlobalModeReordersRuleMode(proxies: map<string, ProxyInfo>, decls: seq<GroupDecl>)
    ensures var g := GroupsSpec("global", proxies, decls);
      var r := GroupsSpec("rule", proxies, decls);
      && (g.Ok? <==> r.Ok?)
      && (r.Ok? ==> g.value == Groups(MoveToFront(r.value.list, FindIndex(r.value.list, GlobalName)),
                                      r.value.proxies))
  {
  }

  /** When GLOBAL is in the list, the reordering puts it in front and keeps the
      other groups in their order: the result is a permutation of the list. */
  lemma {:induction false} MoveGlobalToFront(s: seq<MixedGroup>)
    requires HasGlobal(s)
    ensures var k := FindIndex(s, GlobalName);
      var r := MoveToFront(s, k);
      && 0 <= k < |s|
      && r[0].Group? && r[0].name == GlobalName
      && r[1..] == s[..k] + s[k + 1..]
      && multiset(r) == multiset(s)
  {
    var k := FindIndex(s, GlobalName);
    GlobalFound(s);
    assert s[k].Group? && s[k].name == GlobalName;
    MoveToFrontPermutes(s, k);
  }

  lemma {:induction false} GlobalFound(s: seq<MixedGroup>)
    requires HasGlobal(s)
    ensures FindIndex(s, GlobalName) >= 0
  {
    var i :| 0 <= i < |s| && s[i].Group? && s[i].name == GlobalName;
    assert !(forall j :: 0 <= j < |s| ==> !(s[j].Group? && s[j].name == GlobalName));
  }

  lemma {:induction false} MoveToFrontPermutes(s: seq<MixedGroup>, k: nat)
    requires k < |s|
    ensures var r := MoveToFront(s, k);
      r[0] == s[k] && r[1..] == s[..k] + s[k + 1..] && multiset(r) == multiset(s)
  {
    var front, back := s[..k], s[k + 1..];
    var rest := front + back;
    var r := [s[k]] + rest;
    assert r == MoveToFront(s, k);
    assert r[1..] == rest;
    assert s == front + [s[k]] + back;
    assert multiset(r) == multiset([s[k]]) + multiset(front) + multiset(back);
    assert multiset(s) == multiset(front) + multiset([s[k]]) + multiset(back);
  }

  /** In global mode with GLOBAL hidden (so neither listed nor appended), the
      findIndex result -1 makes splice take the LAST group to the front; with no
      groups at all, `undefined` becomes the only element. */
  lemma GlobalModeWithoutGlobal(proxies: map<string, ProxyInfo>, decls: seq<GroupDecl>)
    requires GlobalName in proxies && proxies[GlobalName].hidden
    requires FindIndex(RuntimeGroups(proxies, decls), GlobalName) == -1
    ensures var r := GroupsSpec("global", proxies, decls);
      var base := RuntimeGroups(proxies, decls);
      && r.Ok?
      && (base == [] ==> r.value.list == [Undefined])
      && (base != [] ==> r.value.list == [base[|base| - 1]] + base[..|base| - 1])
  {
    TaggedTableUntouchedAll(proxies, decls);
  }

  /** The reordering as evidently intended: GLOBAL moves to the front when it
      is in the list, and the list is left alone otherwise. */
  function GlobalFirst(groups: seq<MixedGroup>): (r: seq<MixedGroup>)
    ensures multiset(r) == multiset(groups)
    ensures HasGlobal(groups) ==> r[0].Group? && r[0].name == GlobalName
    ensures !HasGlobal(groups) ==> r == groups
  {
    var k := FindIndex(groups, GlobalName);
    if k == -1 then groups
    else
      MoveGlobalToFront(groups);
      MoveToFront(groups, k)
  }

  lemma TaggedTableUntouchedAll(proxies: map<string, ProxyInfo>, decls: seq<GroupDecl>)
    requires GlobalName in proxies && proxies[GlobalName].hidden
    ensures TaggedTable(proxies, decls)[GlobalName].hidden
  {
  }
}
