/** The backend registry: `validateTopology` and `serializeTopology` of dashboard/backends.go. */
module Topology {
  import opened Text
  import opened Decimal

  const SCHEMA_VERSION: int := 1

  datatype Backend = Backend(
    id: string,
    displayName: string,
    host: string,
    backendPort: int,
    publicPort: int,
    fallback: bool,
    fallbackBackend: string,
    profile: string,
    enabled: bool,
    connectionMode: string,
    backendAdapter: string,
    onlineMode: bool,
    requireIdentity: bool,
    capacity: int,
    secretEnv: string)

  datatype Registry = Registry(version: int, primary: string, routingMode: string, backends: seq<Backend>)

  predicate IsRoutingMode(m: string) {
    m == "primary" || m == "failover" || m == "round_robin" || m == "least_sessions"
  }

  predicate IsIdChar(c: char) {
    'a' <= c <= 'z' || IsDigit(c) || c == '_' || c == '-'
  }

  /** `^[a-z][a-z0-9_-]{1,31}$` */
  predicate IsId(s: string) {
    2 <= |s| <= 32 && 'a' <= s[0] <= 'z' && forall i :: 0 <= i < |s| ==> IsIdChar(s[i])
  }

  predicate IsEnvChar(c: char) {
    'A' <= c <= 'Z' || IsDigit(c) || c == '_'
  }

  /** `^[A-Z][A-Z0-9_]{2,63}$` */
  predicate IsEnvName(s: string) {
    3 <= |s| <= 64 && 'A' <= s[0] <= 'Z' && forall i :: 0 <= i < |s| ==> IsEnvChar(s[i])
  }

  /** Free of the characters that separate fields, entries and lines. */
  predicate IsPlain(s: string) {
    '|' !in s && ';' !in s && '\r' !in s && '\n' !in s
  }

  function ModeOf(b: Backend): string {
    if b.connectionMode == "" then "transparent" else b.connectionMode
  }

  function AdapterOf(b: Backend): string {
    if b.backendAdapter == "" then "proxy_only" else b.backendAdapter
  }

  /** The rules for one backend. */
  predicate ValidBackend(b: Backend) {
    && IsId(b.id)
    && Trim(b.displayName) != "" && IsPlain(b.displayName)
    && Trim(b.host) != "" && IsPlain(b.host)
    && 1 <= b.backendPort <= 65535
    && 0 <= b.publicPort <= 65535
    && b.profile != "" && IsPlain(b.profile)
    && (ModeOf(b) == "transparent" || ModeOf(b) == "full_proxy")
    && (AdapterOf(b) == "endstone" || AdapterOf(b) == "vanilla_bridge" || AdapterOf(b) == "vanilla_agent"
        || AdapterOf(b) == "proxy_only")
    && 1 <= b.capacity <= 100000
    && !(ModeOf(b) == "full_proxy" && b.onlineMode)
    && !(ModeOf(b) == "full_proxy" && b.publicPort == 0)
    && !(b.requireIdentity && ModeOf(b) != "full_proxy")
    && !(b.fallbackBackend != "" && b.fallbackBackend == b.id)
    && (b.secretEnv == "" || IsEnvName(b.secretEnv))
  }

  ghost predicate DistinctIds(bs: seq<Backend>) {
    forall i, j :: 0 <= i < j < |bs| ==> bs[i].id != bs[j].id
  }

  /** No two backends share a public port; port 0 means "none". */
  ghost predicate DistinctPorts(bs: seq<Backend>) {
    forall i, j :: 0 <= i < j < |bs| && bs[i].publicPort > 0 ==> bs[i].publicPort != bs[j].publicPort
  }

  /** The rules for the whole registry. */
  ghost predicate Valid(t: Registry) {
    && t.version == SCHEMA_VERSION && IsRoutingMode(t.routingMode) && t.backends != []
    && (forall i :: 0 <= i < |t.backends| ==> ValidBackend(t.backends[i]))
    && DistinctIds(t.backends) && DistinctPorts(t.backends)
    && (exists i :: 0 <= i < |t.backends| && t.backends[i].id == t.primary)
  }

  /** `validateTopology`: one pass that remembers the ids and public ports already seen. */
  method ValidateTopology(t: Registry) returns (ok: bool)
    ensures ok <==> Valid(t)
  {
    hide Valid, ValidBackend, IsRoutingMode, SeenIds, SeenPorts, DistinctIds, DistinctPorts;
    if t.version != SCHEMA_VERSION || !IsRoutingMode(t.routingMode) || |t.backends| == 0 {
      Rejected(t, 0);
      return false;
    }
    var ids: set<string> := {};
    var publicPorts: map<int, string> := map[];
    var primaryFound := false;
    var i := 0;
    NothingSeen();
    assert t.backends[..i] == [] && publicPorts.Keys == {};
    while i < |t.backends|
      invariant 0 <= i <= |t.backends|
      invariant forall k :: 0 <= k < i ==> ValidBackend(t.backends[k])
      invariant SeenIds(t.backends[..i], ids) && SeenPorts(t.backends[..i], publicPorts.Keys)
      invariant DistinctIds(t.backends[..i]) && DistinctPorts(t.backends[..i])
      invariant primaryFound <==> exists k :: 0 <= k < i && t.backends[k].id == t.primary
    {
      var b := t.backends[i];
      assert t.backends[..i + 1] == t.backends[..i] + [b];
      SeenIdsStep(t.backends[..i], b, ids);
      SeenPortsStep(t.backends[..i], b, publicPorts.Keys);
      Rejected(t, i + 1);
      if !ValidBackend(b) {
        return false;
      }
      if b.id in ids {
        return false;
      }
      ids := ids + {b.id};
      if b.id == t.primary {
        primaryFound := true;
      }
      if b.publicPort > 0 {
        if b.publicPort in publicPorts {
          return false;
        }
        ghost var before := publicPorts.Keys;
        publicPorts := publicPorts[b.publicPort := b.id];
        assert publicPorts.Keys == before + {b.publicPort};
      }
      i := i + 1;
    }
    assert t.backends[..i] == t.backends;
    Settled(t);
    return primaryFound;
  }

  ghost predicate SeenIds(bs: seq<Backend>, ids: set<string>) {
    ids == set b | b in bs :: b.id
  }

  ghost predicate SeenPorts(bs: seq<Backend>, ports: set<int>) {
    ports == set b | b in bs && b.publicPort > 0 :: b.publicPort
  }

  lemma NothingSeen()
    ensures SeenIds([], {}) && SeenPorts([], {}) && DistinctIds([]) && DistinctPorts([])
  {
  }

  lemma SeenIdsStep(bs: seq<Backend>, b: Backend, ids: set<string>)
    requires SeenIds(bs, ids) && DistinctIds(bs)
    ensures SeenIds(bs + [b], ids + {b.id})
    ensures DistinctIds(bs + [b]) <==> b.id !in ids
  {
    if b.id in ids {
      var c :| c in bs && c.id == b.id;
      var k :| 0 <= k < |bs| && bs[k] == c;
      assert (bs + [b])[k].id == (bs + [b])[|bs|].id;
    } else {
      forall k | 0 <= k < |bs| ensures bs[k].id != b.id { assert bs[k] in bs; }
    }
  }

  lemma SeenPortsStep(bs: seq<Backend>, b: Backend, ports: set<int>)
    requires SeenPorts(bs, ports) && DistinctPorts(bs)
    ensures SeenPorts(bs + [b], if b.publicPort > 0 then ports + {b.publicPort} else ports)
    ensures DistinctPorts(bs + [b]) <==> !(b.publicPort > 0 && b.publicPort in ports)
  {
    if b.publicPort > 0 && b.publicPort in ports {
      var c :| c in bs && c.publicPort > 0 && c.publicPort == b.publicPort;
      var k :| 0 <= k < |bs| && bs[k] == c;
      assert (bs + [b])[k].publicPort == (bs + [b])[|bs|].publicPort;
    } else {
      forall k | 0 <= k < |bs| && bs[k].publicPort > 0 ensures bs[k].publicPort != b.publicPort { assert bs[k] in bs; }
    }
  }

  /** Reasons to reject after the first `n` backends. */
  lemma Rejected(t: Registry, n: nat)
    requires n <= |t.backends|
    ensures Valid(t) ==> t.version == SCHEMA_VERSION && IsRoutingMode(t.routingMode) && |t.backends| > 0
    ensures Valid(t) ==> forall i :: 0 <= i < n ==> ValidBackend(t.backends[i])
    ensures Valid(t) ==> DistinctIds(t.backends[..n]) && DistinctPorts(t.backends[..n])
  {
    hide ValidBackend, IsRoutingMode, DistinctIds, DistinctPorts;
    PrefixDistinct(t.backends, n);
  }

  lemma Settled(t: Registry)
    requires t.version == SCHEMA_VERSION && IsRoutingMode(t.routingMode) && |t.backends| > 0
    requires forall i :: 0 <= i < |t.backends| ==> ValidBackend(t.backends[i])
    requires DistinctIds(t.backends) && DistinctPorts(t.backends)
    ensures Valid(t) <==> exists k :: 0 <= k < |t.backends| && t.backends[k].id == t.primary
  {
    hide ValidBackend, IsRoutingMode, DistinctIds, DistinctPorts;
  }

  lemma PrefixDistinct(bs: seq<Backend>, n: nat)
    requires n <= |bs|
    ensures DistinctIds(bs) ==> DistinctIds(bs[..n])
    ensures DistinctPorts(bs) ==> DistinctPorts(bs[..n])
  {
  }

  // ---- printing ----------------------------------------------------------

  function BoolText(b: bool): string {
    if b then "true" else "false"
  }

  function ProfileOf(b: Backend): string {
    if b.profile == "" then b.id else b.profile
  }

  function EntryFields(b: Backend): seq<string> {
    [b.id, b.host, Itoa(b.backendPort), BoolText(b.fallback), ProfileOf(b), BoolText(b.enabled)]
  }

  function Entry(b: Backend): string {
    Join(EntryFields(b), '|')
  }

  function Entries(bs: seq<Backend>): seq<string> {
    seq(|bs|, i requires 0 <= i < |bs| => Entry(bs[i]))
  }

  /** The backends with a public port of their own, in order. */
  function Routed(bs: seq<Backend>): seq<Backend> {
    if bs == [] then [] else (if bs[0].publicPort > 0 then [bs[0]] else []) + Routed(bs[1..])
  }

  function RouteEntry(b: Backend): string {
    Join([Itoa(b.publicPort), b.id], '|')
  }

  function Routes(bs: seq<Backend>): seq<string> {
    seq(|bs|, i requires 0 <= i < |bs| => RouteEntry(bs[i]))
  }

  function NameEntry(b: Backend): string {
    b.id + "|" + b.displayName
  }

  function Names(bs: seq<Backend>): seq<string> {
    seq(|bs|, i requires 0 <= i < |bs| => NameEntry(bs[i]))
  }

  function Managed(): (line: string)
    ensures line != "" && line[0] == '#' && '\n' !in line
  {
    "# Managed by" + " Ninj-OS Edge Fabric." + " Use the dashboard" + " or edit while" + " the proxy is stopped."
  }

  /** One `key=value` line. */
  function PropertyText(p: (string, string)): string {
    p.0 + "=" + p.1
  }

  function PropertyTexts(ps: seq<(string, string)>): seq<string> {
    seq(|ps|, i requires 0 <= i < |ps| => PropertyText(ps[i]))
  }

  function Pairs(primary: string, mode: string, entries: seq<string>, routes: seq<string>,
                 names: seq<string>): seq<(string, string)> {
    [("version", Itoa(SCHEMA_VERSION)),
     ("primary_backend", primary),
     ("routing_mode", mode),
     ("backends", Join(entries, ';')),
     ("static_routes", Join(routes, ';')),
     ("display_names", Join(names, ';'))]
  }

  function SerializedLines(primary: string, mode: string, entries: seq<string>, routes: seq<string>,
                           names: seq<string>): seq<string> {
    [Managed()] + PropertyTexts(Pairs(primary, mode, entries, routes, names))
  }

  function Serialize(t: Registry): string {
    Unlines(SerializedLines(t.primary, t.routingMode, Entries(t.backends), Routes(Routed(t.backends)),
                            Names(t.backends)))
  }

  lemma ListsAppend(a: seq<Backend>, b: Backend)
    ensures Entries(a + [b]) == Entries(a) + [Entry(b)]
    ensures Names(a + [b]) == Names(a) + [NameEntry(b)]
    ensures Routes(a + [b]) == Routes(a) + [RouteEntry(b)]
  {
    hide Entry, NameEntry, RouteEntry;
    assert (a + [b])[..|a|] == a;
  }

  lemma {:induction false} RoutedAppend(a: seq<Backend>, b: Backend)
    ensures Routed(a + [b]) == Routed(a) + if b.publicPort > 0 then [b] else []
  {
    if a == [] {
      assert a + [b] == [b] && [b][1..] == [];
    } else {
      RoutedAppend(a[1..], b);
      assert (a + [b])[1..] == a[1..] + [b];
    }
  }

  /** `serializeTopology`: one pass collecting entries, routes and names. */
  method SerializeTopology(t: Registry) returns (text: string)
    ensures text == Serialize(t)
  {
    hide Entry, RouteEntry, NameEntry, Unlines, SerializedLines, Entries, Routes, Routed, Names;
    var entries: seq<string> := [];
    var routes: seq<string> := [];
    var names: seq<string> := [];
    NothingListed();
    var i := 0;
    assert t.backends[..i] == [];
    while i < |t.backends|
      invariant 0 <= i <= |t.backends|
      invariant entries == Entries(t.backends[..i])
      invariant routes == Routes(Routed(t.backends[..i]))
      invariant names == Names(t.backends[..i])
    {
      var b := t.backends[i];
      assert t.backends[..i + 1] == t.backends[..i] + [b];
      ListsAppend(t.backends[..i], b);
      RoutedAppend(t.backends[..i], b);
      entries := entries + [Entry(b)];
      if b.publicPort > 0 {
        ListsAppend(Routed(t.backends[..i]), b);
        routes := routes + [RouteEntry(b)];
      } else {
        assert Routed(t.backends[..i]) + [] == Routed(t.backends[..i]);
      }
      names := names + [NameEntry(b)];
      i := i + 1;
    }
    assert t.backends[..i] == t.backends;
    text := Unlines(SerializedLines(t.primary, t.routingMode, entries, routes, names));
  }

  lemma NothingListed()
    ensures Entries([]) == [] && Routes(Routed([])) == [] && Names([]) == []
  {
  }
}
