/** How the gateway reads the topology file the dashboard prints: `load_properties`,
    `parse_backends`, `parse_static_routes` and the topology part of `load_config` in
    gateway/gateway.cpp. */
module GatewayConfig {
  import opened Text
  import opened Decimal
  import opened Topology

  datatype GatewayBackend = GatewayBackend(
    name: string, host: string, port: int, fallback: bool, profile: string, enabled: bool)

  datatype StaticRoute = StaticRoute(port: int, backend: string)

  datatype GatewayTopology = GatewayTopology(
    backends: seq<GatewayBackend>, routes: seq<StaticRoute>, primary: string, routingMode: string)

  datatype ConfigError =
    | BadEntry | BadPort | MissingName | NoBackends
    | BadRoute | DuplicatePort
    | DuplicateName | UnknownPrimary | UnknownRouteBackend

  function ParseBool(s: string, fallback: bool): bool {
    var l := ToLower(s);
    if l == "true" || l == "1" || l == "yes" || l == "on" then true
    else if l == "false" || l == "0" || l == "no" || l == "off" then false
    else fallback
  }

  // ---- key=value files ---------------------------------------------------

  type Properties = map<string, string>

  function PropertyLine(values: Properties, line: string): Properties {
    var raw := Trim(line);
    if raw == "" || raw[0] == '#' then values
    else
      var i := IndexOf(raw, '=');
      if i == |raw| then values else values[Trim(raw[..i]) := Trim(raw[i + 1..])]
  }

  function PropertyLines(values: Properties, lines: seq<string>): Properties
    decreases |lines|
  {
    if lines == [] then values else PropertyLines(PropertyLine(values, lines[0]), lines[1..])
  }

  /** `load_properties`, as a loop. */
  method LoadProperties(text: string) returns (values: Properties)
    ensures values == PropertyLines(map[], Split(text, '\n'))
  {
    var lines := Split(text, '\n');
    values := map[];
    var i := 0;
    while i < |lines|
      invariant 0 <= i <= |lines|
      invariant PropertyLines(map[], lines) == PropertyLines(values, lines[i..])
    {
      values := PropertyLine(values, lines[i]);
      assert lines[i..][1..] == lines[i + 1..];
      i := i + 1;
    }
  }

  function Property(values: Properties, name: string, fallback: string): string {
    if name in values then values[name] else fallback
  }

  // ---- backends ----------------------------------------------------------

  function ParseItem(item: string): Result<GatewayBackend, ConfigError> {
    var fields := Split(item, '|');
    if |fields| < 3 then Err(BadEntry)
    else
      var port := ParseUnsigned(fields[2], 0);
      if port == 0 || port > 65535 then Err(BadPort)
      else
        var name, host := Trim(fields[0]), Trim(fields[1]);
        var fallback := if |fields| >= 4 then ParseBool(Trim(fields[3]), false) else false;
        var profile := if |fields| >= 5 && Trim(fields[4]) != "" then Trim(fields[4]) else name;
        var enabled := if |fields| >= 6 then ParseBool(Trim(fields[5]), true) else true;
        if name == "" || host == "" then Err(MissingName)
        else Ok(GatewayBackend(name, host, port, fallback, profile, enabled))
  }

  function ParseItems(acc: seq<GatewayBackend>, items: seq<string>): Result<seq<GatewayBackend>, ConfigError>
    decreases |items|
  {
    if items == [] then Ok(acc)
    else if Trim(items[0]) == "" then ParseItems(acc, items[1..])
    else
      match ParseItem(Trim(items[0]))
      case Err(e) => Err(e)
      case Ok(b) => ParseItems(acc + [b], items[1..])
  }

  function BackendsOf(raw: string): Result<seq<GatewayBackend>, ConfigError> {
    match ParseItems([], Split(raw, ';'))
    case Err(e) => Err(e)
    case Ok(bs) => if bs == [] then Err(NoBackends) else Ok(bs)
  }

  /** `parse_backends`, as a loop that pushes onto a vector. */
  method ParseBackends(raw: string) returns (r: Result<seq<GatewayBackend>, ConfigError>)
    ensures r == BackendsOf(raw)
  {
    var items := Split(raw, ';');
    var result: seq<GatewayBackend> := [];
    var i := 0;
    while i < |items|
      invariant 0 <= i <= |items|
      invariant ParseItems([], items) == ParseItems(result, items[i..])
    {
      var item := Trim(items[i]);
      assert items[i..][1..] == items[i + 1..];
      if item != "" {
        match ParseItem(item)
        case Err(e) => return Err(e);
        case Ok(b) => result := result + [b];
      }
      i := i + 1;
    }
    return if result == [] then Err(NoBackends) else Ok(result);
  }

  // ---- static routes -----------------------------------------------------

  function ParseRoute(item: string): Result<StaticRoute, ConfigError> {
    var fields := Split(item, '|');
    if |fields| != 2 then Err(BadRoute)
    else
      var port := ParseUnsigned(Trim(fields[0]), 0);
      var name := Trim(fields[1]);
      if port == 0 || port > 65535 || name == "" then Err(BadRoute) else Ok(StaticRoute(port, name))
  }

  function UsedPorts(routes: seq<StaticRoute>): set<int> {
    set r | r in routes :: r.port
  }

  function ParseRoutes(acc: seq<StaticRoute>, items: seq<string>): Result<seq<StaticRoute>, ConfigError>
    decreases |items|
  {
    if items == [] then Ok(acc)
    else if Trim(items[0]) == "" then ParseRoutes(acc, items[1..])
    else
      match ParseRoute(Trim(items[0]))
      case Err(e) => Err(e)
      case Ok(r) => if r.port in UsedPorts(acc) then Err(DuplicatePort) else ParseRoutes(acc + [r], items[1..])
  }

  /** `parse_static_routes`, as a loop with a set of the ports seen. */
  method ParseStaticRoutes(raw: string) returns (r: Result<seq<StaticRoute>, ConfigError>)
    ensures r == ParseRoutes([], Split(raw, ';'))
  {
    var items := Split(raw, ';');
    var result: seq<StaticRoute> := [];
    var used: set<int> := {};
    var i := 0;
    while i < |items|
      invariant 0 <= i <= |items| && used == UsedPorts(result)
      invariant ParseRoutes([], items) == ParseRoutes(result, items[i..])
    {
      var item := Trim(items[i]);
      assert items[i..][1..] == items[i + 1..];
      if item != "" {
        match ParseRoute(item)
        case Err(e) => return Err(e);
        case Ok(route) =>
          if route.port in used {
            return Err(DuplicatePort);
          }
          used := used + {route.port};
          result := result + [route];
      }
      i := i + 1;
    }
    return Ok(result);
  }

  // ---- the topology part of load_config ----------------------------------

  ghost predicate Knows(bs: seq<GatewayBackend>, name: string) {
    exists i :: 0 <= i < |bs| && bs[i].name == name
  }

  ghost predicate DistinctNames(bs: seq<GatewayBackend>) {
    forall i, j :: 0 <= i < j < |bs| ==> bs[i].name != bs[j].name
  }

  /** The main configuration `base` overlaid with the managed topology file. */
  ghost function LoadTopology(base: Properties, text: string): Result<GatewayTopology, ConfigError> {
    var values := base + PropertyLines(map[], Split(text, '\n'));
    match BackendsOf(Property(values, "backends", "kingdom|127.0.0.1|25565|false|kingdom|true"))
    case Err(e) => Err(e)
    case Ok(bs) =>
      match ParseRoutes([], Split(Property(values, "static_routes", "25566|kingdom"), ';'))
      case Err(e) => Err(e)
      case Ok(rs) =>
        var primary := Property(values, "primary_backend", if bs == [] then "" else bs[0].name);
        if !DistinctNames(bs) then Err(DuplicateName)
        else if !Knows(bs, primary) then Err(UnknownPrimary)
        else if exists i :: 0 <= i < |rs| && !Knows(bs, rs[i].backend) then Err(UnknownRouteBackend)
        else Ok(GatewayTopology(bs, rs, primary, Property(values, "routing_mode", "failover")))
  }

  // ---- what the gateway makes of a printed registry ----------------------

  /** A backend as the gateway sees it: host and profile trimmed, an all-blank profile replaced by the name. */
  function Seen(b: Backend): GatewayBackend {
    GatewayBackend(b.id, Trim(b.host), b.backendPort, b.fallback,
                   if Trim(b.profile) == "" then b.id else Trim(b.profile), b.enabled)
  }

  function SeenAll(bs: seq<Backend>): seq<GatewayBackend> {
    seq(|bs|, i requires 0 <= i < |bs| => Seen(bs[i]))
  }

  function RouteOf(b: Backend): StaticRoute {
    StaticRoute(b.publicPort, b.id)
  }

  function RoutesOf(bs: seq<Backend>): seq<StaticRoute> {
    seq(|bs|, i requires 0 <= i < |bs| => RouteOf(bs[i]))
  }

  lemma IdShape(s: string)
    requires IsId(s)
    ensures IsPlain(s) && Trimmed(s) && Trim(s) == s && '=' !in s
  {
    TrimIdentity(s);
  }

  lemma DigitsShape(n: nat)
    ensures IsPlain(Itoa(n)) && Trimmed(Itoa(n)) && Itoa(n) != ""
  {
    DigitsAreNotSpace(n);
  }

  lemma BoolShape(b: bool, fallback: bool)
    ensures IsPlain(BoolText(b)) && Trim(BoolText(b)) == BoolText(b) && ParseBool(BoolText(b), fallback) == b
    ensures BoolText(b) != "" && BoolText(b)[|BoolText(b)| - 1] == 'e'
  {
    var t := BoolText(b);
    TrimIdentity(t);
    assert ToLower(t) == t;
  }

  lemma FieldsPlain(b: Backend)
    requires ValidBackend(b)
    ensures forall i :: 0 <= i < |EntryFields(b)| ==> IsPlain(EntryFields(b)[i])
  {
    hide Itoa, BoolText, Trim;
    IdShape(b.id);
    DigitsShape(b.backendPort);
    BoolShape(b.fallback, false);
    BoolShape(b.enabled, true);
  }

  lemma JoinPlain(parts: seq<string>, c: char)
    requires forall i :: 0 <= i < |parts| ==> IsPlain(parts[i])
    ensures forall x :: x in Join(parts, c) && (x == ';' || x == '\n' || x == '\r' || x == '|') ==> x == c
  {
    hide Join;
    forall x | x in Join(parts, c) && (x == ';' || x == '\n' || x == '\r' || x == '|') ensures x == c {
      JoinChars(parts, c, x);
    }
  }

  lemma EntryShape(b: Backend)
    requires ValidBackend(b)
    ensures ';' !in Entry(b) && '\n' !in Entry(b) && Trim(Entry(b)) == Entry(b) && Entry(b) != ""
    ensures Split(Entry(b), '|') == EntryFields(b)
  {
    hide Join, Split, Trim, Itoa;
    FieldsPlain(b);
    SplitJoin(EntryFields(b), '|');
    BoolShape(b.enabled, true);
    JoinEnds(EntryFields(b), '|');
    JoinPlain(EntryFields(b), '|');
    TrimIdentity(Entry(b));
  }

  lemma ParseEntry(b: Backend)
    requires ValidBackend(b)
    ensures ParseItem(Entry(b)) == Ok(Seen(b))
  {
    hide Entry, Split, Trim, Itoa, BoolText, ParseBool, ParseUnsigned;
    EntryShape(b);
    IdShape(b.id);
    ParseUnsignedItoa(b.backendPort, 0);
    BoolShape(b.fallback, false);
    BoolShape(b.enabled, true);
  }

  lemma {:induction false} ParseEntries(acc: seq<GatewayBackend>, bs: seq<Backend>)
    requires forall i :: 0 <= i < |bs| ==> ValidBackend(bs[i])
    ensures ParseItems(acc, Entries(bs)) == Ok(acc + SeenAll(bs))
    decreases |bs|
  {
    hide Entry, ParseItem, ValidBackend, Seen, Trim;
    if bs == [] {
      assert acc + SeenAll(bs) == acc;
    } else {
      EntryShape(bs[0]);
      ParseEntry(bs[0]);
      ParseEntries(acc + [Seen(bs[0])], bs[1..]);
      assert Entries(bs)[1..] == Entries(bs[1..]);
      assert acc + [Seen(bs[0])] + SeenAll(bs[1..]) == acc + SeenAll(bs);
    }
  }

  lemma RouteShape(b: Backend)
    requires ValidBackend(b) && b.publicPort > 0
    ensures var e := RouteEntry(b);
            ';' !in e && '\n' !in e && Trim(e) == e && e != "" && ParseRoute(e) == Ok(RouteOf(b))
  {
    hide Join, Split, Trim, Itoa, ParseUnsigned;
    var parts := [Itoa(b.publicPort), b.id];
    IdShape(b.id);
    DigitsShape(b.publicPort);
    SplitJoin(parts, '|');
    JoinEnds(parts, '|');
    JoinPlain(parts, '|');
    TrimIdentity(RouteEntry(b));
    TrimIdentity(Itoa(b.publicPort));
    ParseUnsignedItoa(b.publicPort, 0);
  }

  lemma UsedPortsSnoc(acc: seq<StaticRoute>, r: StaticRoute)
    ensures UsedPorts(acc + [r]) == UsedPorts(acc) + {r.port}
  {
  }

  lemma {:induction false} ParseRouteEntries(acc: seq<StaticRoute>, bs: seq<Backend>)
    requires forall i :: 0 <= i < |bs| ==> ValidBackend(bs[i]) && bs[i].publicPort > 0
    requires DistinctPorts(bs)
    requires forall i :: 0 <= i < |bs| ==> bs[i].publicPort !in UsedPorts(acc)
    ensures ParseRoutes(acc, Routes(bs)) == Ok(acc + RoutesOf(bs))
    decreases |bs|
  {
    hide RouteEntry, ParseRoute, ValidBackend, Trim, UsedPorts;
    if bs == [] {
      assert acc + RoutesOf(bs) == acc;
    } else {
      var r := RouteOf(bs[0]);
      RouteShape(bs[0]);
      UsedPortsSnoc(acc, r);
      assert forall i :: 0 <= i < |bs[1..]| ==> bs[1..][i] == bs[i + 1];
      ParseRouteEntries(acc + [r], bs[1..]);
      assert Routes(bs)[1..] == Routes(bs[1..]);
      assert acc + [r] + RoutesOf(bs[1..]) == acc + RoutesOf(bs);
    }
  }

  lemma {:induction false} RoutedMembers(bs: seq<Backend>)
    ensures forall i :: 0 <= i < |Routed(bs)| ==> Routed(bs)[i] in bs && Routed(bs)[i].publicPort > 0
  {
    if bs != [] { RoutedMembers(bs[1..]); }
  }

  lemma {:induction false} RoutedDistinct(bs: seq<Backend>)
    requires DistinctPorts(bs)
    ensures DistinctPorts(Routed(bs))
  {
    if bs != [] {
      RoutedDistinct(bs[1..]);
      RoutedMembers(bs[1..]);
      if bs[0].publicPort > 0 {
        forall j | 0 <= j < |Routed(bs[1..])| ensures Routed(bs[1..])[j].publicPort != bs[0].publicPort {
          var k :| 0 <= k < |bs[1..]| && bs[1..][k] == Routed(bs[1..])[j];
          assert bs[k + 1] == bs[1..][k];
        }
      }
    }
  }

  // ---- reading the lines -------------------------------------------------

  predicate IsKey(key: string) {
    key != "" && Trimmed(key) && '=' !in key && key[0] != '#'
  }

  lemma {:induction false} TrimSnocSpace(v: string, c: char)
    requires IsSpace(c)
    ensures Trim(v + [c]) == Trim(v)
  {
    if v == "" {
      assert (v + [c])[1..] == "";
    } else if IsSpace(v[0]) {
      assert (v + [c])[1..] == v[1..] + [c];
      TrimSnocSpace(v[1..], c);
    } else {
      assert (v + [c])[..|v|] == v;
    }
  }

  lemma {:induction false} TrimTrimRight(v: string)
    ensures Trim(TrimRight(v)) == Trim(v)
  {
    if v != "" && IsSpace(v[|v| - 1]) {
      TrimTrimRight(v[..|v| - 1]);
      TrimSnocSpace(v[..|v| - 1], v[|v| - 1]);
      assert v == v[..|v| - 1] + [v[|v| - 1]];
    }
  }

  lemma {:induction false} TrimRightAppend(head: string, tail: string)
    requires head != "" && !IsSpace(head[|head| - 1])
    ensures TrimRight(head + tail) == head + TrimRight(tail)
  {
    if tail == "" {
      assert head + tail == head;
    } else if IsSpace(tail[|tail| - 1]) {
      var s := head + tail;
      assert s[..|s| - 1] == head + tail[..|tail| - 1];
      TrimRightAppend(head, tail[..|tail| - 1]);
    }
  }

  lemma PropertyLineReads(values: Properties, key: string, v: string)
    requires IsKey(key)
    ensures PropertyLine(values, key + "=" + v) == values[key := Trim(v)]
  {
    var head := key + "=";
    assert TrimLeft(head + v) == head + v;
    TrimRightAppend(head, v);
    var raw, rest := Trim(head + v), TrimRight(v);
    assert raw == key + ['='] + rest;
    IndexOfAt(key, '=', rest);
    assert raw[..|key|] == key && raw[|key| + 1..] == rest;
    TrimIdentity(key);
    TrimTrimRight(v);
  }

  lemma CommentLine(values: Properties, line: string)
    requires line != "" && line[0] == '#'
    ensures PropertyLine(values, line) == values
  {
    TrimRightAppend(line[..1], line[1..]);
    assert line[..1] + line[1..] == line;
  }

  ghost predicate Has(values: Properties, k: string, v: string) {
    k in values && values[k] == v
  }

  /** After reading a list of `key=value` lines, a key that occurs once has its trimmed value. */
  lemma {:induction false} ReadPairs(values: Properties, ps: seq<(string, string)>, i: nat)
    requires forall j :: 0 <= j < |ps| ==> IsKey(ps[j].0)
    requires i < |ps| && forall j :: i < j < |ps| ==> ps[j].0 != ps[i].0
    ensures Has(PropertyLines(values, PropertyTexts(ps) + [""]), ps[i].0, Trim(ps[i].1))
    decreases |ps|
  {
    hide PropertyLine, Trim, IsKey;
    var lines := PropertyTexts(ps) + [""];
    var p := ps[0];
    PropertyLineReads(values, p.0, p.1);
    var next := values[p.0 := Trim(p.1)];
    assert lines[1..] == PropertyTexts(ps[1..]) + [""];
    if i > 0 {
      ReadPairs(next, ps[1..], i - 1);
    } else {
      assert forall j :: 0 <= j < |ps[1..]| ==> ps[1..][j] == ps[j + 1];
      ReadOthers(next, ps[1..], p.0);
    }
  }

  lemma {:induction false} ReadOthers(values: Properties, ps: seq<(string, string)>, k: string)
    requires forall j :: 0 <= j < |ps| ==> IsKey(ps[j].0) && ps[j].0 != k
    requires k in values
    ensures Has(PropertyLines(values, PropertyTexts(ps) + [""]), k, values[k])
    decreases |ps|
  {
    hide PropertyLine, Trim, IsKey;
    var lines := PropertyTexts(ps) + [""];
    if ps == [] {
      assert PropertyLine(values, "") == values by { BlankLine(values); }
      assert lines[1..] == [];
    } else {
      PropertyLineReads(values, ps[0].0, ps[0].1);
      assert lines[1..] == PropertyTexts(ps[1..]) + [""];
      ReadOthers(values[ps[0].0 := Trim(ps[0].1)], ps[1..], k);
    }
  }

  lemma BlankLine(values: Properties)
    ensures PropertyLine(values, "") == values
  {
  }

  lemma KeysTrimmed()
    ensures IsKey("version") && IsKey("primary_backend") && IsKey("routing_mode")
    ensures IsKey("backends") && IsKey("static_routes") && IsKey("display_names")
    ensures "static_routes" != "display_names"
  {
    assert "static_routes"[0] != "display_names"[0];
  }

  /** The four topology values survive printing and reading. */
  lemma ReadSerialized(primary: string, mode: string, entries: seq<string>, routes: seq<string>, names: seq<string>)
    ensures var values := PropertyLines(map[], SerializedLines(primary, mode, entries, routes, names) + [""]);
            && Has(values, "primary_backend", Trim(primary)) && Has(values, "routing_mode", Trim(mode))
            && Has(values, "backends", Trim(Join(entries, ';')))
                && Has(values, "static_routes", Trim(Join(routes, ';')))
  {
    hide PropertyLine, Trim, IsKey, Join, PropertyTexts, Managed, Has, Itoa;
    var ps := Pairs(primary, mode, entries, routes, names);
    var lines := SerializedLines(primary, mode, entries, routes, names) + [""];
    CommentLine(map[], Managed());
    assert lines[0] == Managed() && lines[1..] == PropertyTexts(ps) + [""];
    KeysTrimmed();
    ReadPairs(map[], ps, 1);
    ReadPairs(map[], ps, 2);
    ReadPairs(map[], ps, 3);
    ReadPairs(map[], ps, 4);
  }

  // ---- the whole file ----------------------------------------------------

  ghost predicate Clean(lines: seq<string>) {
    forall i :: 0 <= i < |lines| ==> '\n' !in lines[i]
  }

  lemma JoinClean(parts: seq<string>)
    requires Clean(parts)
    ensures '\n' !in Join(parts, ';')
  {
    if '\n' in Join(parts, ';') {
      JoinChars(parts, ';', '\n');
    }
  }

  lemma SerializedClean(primary: string, mode: string, entries: seq<string>, routes: seq<string>, names: seq<string>)
    requires '\n' !in primary && '\n' !in mode && Clean(entries) && Clean(routes) && Clean(names)
    ensures forall l :: l in SerializedLines(primary, mode, entries, routes, names) ==> '\n' !in l
  {
    hide Join, Itoa, Managed;
    JoinClean(entries);
    JoinClean(routes);
    JoinClean(names);
    DigitsShape(SCHEMA_VERSION);
    var ps := Pairs(primary, mode, entries, routes, names);
    forall i | 0 <= i < |ps| ensures '\n' !in PropertyText(ps[i]) {
      assert '\n' !in ps[i].1;
      assert '\n' !in ps[i].0;
    }
  }

  ghost predicate AllValid(bs: seq<Backend>) {
    forall i :: 0 <= i < |bs| ==> ValidBackend(bs[i])
  }

  lemma EntryListShape(bs: seq<Backend>)
    requires AllValid(bs)
    ensures Clean(Entries(bs)) && Clean(Names(bs)) && forall e :: e in Entries(bs) ==> ';' !in e
    ensures Trimmed(Join(Entries(bs), ';'))
  {
    hide Entry, Join, Trim;
    forall i | 0 <= i < |bs|
      ensures '\n' !in Entries(bs)[i] && ';' !in Entries(bs)[i] && Trimmed(Entries(bs)[i]) && Entries(bs)[i] != ""
      ensures '\n' !in Names(bs)[i]
    {
      EntryShape(bs[i]);
      TrimTrims(Entry(bs[i]));
      IdShape(bs[i].id);
    }
    JoinTrimmed(Entries(bs), ';');
  }

  lemma RouteListShape(bs: seq<Backend>)
    requires AllValid(bs) && forall i :: 0 <= i < |bs| ==> bs[i].publicPort > 0
    ensures Clean(Routes(bs)) && forall e :: e in Routes(bs) ==> ';' !in e
    ensures Trimmed(Join(Routes(bs), ';'))
  {
    hide RouteEntry, Join, Trim, ParseRoute;
    forall i | 0 <= i < |bs|
      ensures '\n' !in Routes(bs)[i] && ';' !in Routes(bs)[i] && Trimmed(Routes(bs)[i]) && Routes(bs)[i] != ""
    {
      RouteShape(bs[i]);
      TrimTrims(RouteEntry(bs[i]));
    }
    JoinTrimmed(Routes(bs), ';');
  }

  lemma BackendsRead(bs: seq<Backend>)
    requires AllValid(bs) && bs != []
    ensures BackendsOf(Join(Entries(bs), ';')) == Ok(SeenAll(bs))
  {
    hide Join, Split, ParseItems, Entry, Seen, ValidBackend;
    EntryListShape(bs);
    SplitJoin(Entries(bs), ';');
    ParseEntries([], bs);
    assert [] + SeenAll(bs) == SeenAll(bs);
  }

  lemma RoutesRead(bs: seq<Backend>)
    requires AllValid(bs) && DistinctPorts(bs) && forall i :: 0 <= i < |bs| ==> bs[i].publicPort > 0
    ensures ParseRoutes([], Split(Join(Routes(bs), ';'), ';')) == Ok(RoutesOf(bs))
  {
    if bs == [] {
      assert Routes(bs) == [] && RoutesOf(bs) == [];
      assert Split("", ';') == [""];
      assert [""][1..] == [];
    } else {
      hide Join, Split, ParseRoutes, RouteEntry, ValidBackend;
      RouteListShape(bs);
      SplitJoin(Routes(bs), ';');
      ParseRouteEntries([], bs);
      assert [] + RoutesOf(bs) == RoutesOf(bs);
    }
  }

  lemma ModeShape(m: string)
    requires IsRoutingMode(m)
    ensures Trim(m) == m && '\n' !in m
  {
    TrimIdentity(m);
  }

  /** The gateway reads back exactly the registry the dashboard printed: the same backends in the
      same order, the same routes, primary and routing mode, whatever the main configuration says. */
  lemma GatewayReads(base: Properties, t: Registry)
    requires Valid(t)
    ensures LoadTopology(base, Serialize(t))
         == Ok(GatewayTopology(SeenAll(t.backends), RoutesOf(Routed(t.backends)), t.primary, t.routingMode))
  {
    hide Join, Split, Trim, Unlines, SerializedLines, PropertyLines, BackendsOf, ParseRoutes, Routed, Entries,
         Routes, Names, IsId, IsRoutingMode, Seen, DistinctPorts, LoadTopology, Has, DistinctNames, Knows;
    var bs, routed := t.backends, Routed(t.backends);
    RoutedMembers(bs);
    RoutedDistinct(bs);
    EntryListShape(bs);
    RouteListShape(routed);
    var p :| 0 <= p < |bs| && bs[p].id == t.primary;
    IdShape(t.primary);
    ModeShape(t.routingMode);
    var lines := SerializedLines(t.primary, t.routingMode, Entries(bs), Routes(routed), Names(bs));
    SerializedClean(t.primary, t.routingMode, Entries(bs), Routes(routed), Names(bs));
    SplitUnlines(lines);
    ReadSerialized(t.primary, t.routingMode, Entries(bs), Routes(routed), Names(bs));
    TrimIdentity(Join(Entries(bs), ';'));
    TrimIdentity(Join(Routes(routed), ';'));
    BackendsRead(bs);
    RoutesRead(routed);
    NamesKnown(bs, routed, p);
    LoadFrom(base, Serialize(t), t.primary, t.routingMode, Join(Entries(bs), ';'), Join(Routes(routed), ';'),
        SeenAll(bs), RoutesOf(routed));
  }

  /** Loading a file whose properties are known. */
  lemma LoadFrom(base: Properties, text: string, primary: string, mode: string, entries: string, routes: string,
                 bs: seq<GatewayBackend>, rs: seq<StaticRoute>)
    requires var values := PropertyLines(map[], Split(text, '\n'));
             && Has(values, "primary_backend", primary) && Has(values, "routing_mode", mode)
             && Has(values, "backends", entries) && Has(values, "static_routes", routes)
    requires BackendsOf(entries) == Ok(bs) && ParseRoutes([], Split(routes, ';')) == Ok(rs)
    requires DistinctNames(bs) && Knows(bs, primary) && forall i :: 0 <= i < |rs| ==> Knows(bs, rs[i].backend)
    ensures LoadTopology(base, text) == Ok(GatewayTopology(bs, rs, primary, mode))
  {
    hide Split, PropertyLines, BackendsOf, ParseRoutes, DistinctNames, Knows;
  }

  lemma NamesKnown(bs: seq<Backend>, routed: seq<Backend>, p: nat)
    requires DistinctIds(bs) && p < |bs|
    requires forall i :: 0 <= i < |routed| ==> routed[i] in bs
    ensures DistinctNames(SeenAll(bs)) && Knows(SeenAll(bs), bs[p].id)
    ensures forall i :: 0 <= i < |RoutesOf(routed)| ==> Knows(SeenAll(bs), RoutesOf(routed)[i].backend)
  {
    hide Trim;
    assert SeenAll(bs)[p].name == bs[p].id;
    forall i | 0 <= i < |routed| ensures Knows(SeenAll(bs), routed[i].id) {
      var k :| 0 <= k < |bs| && bs[k] == routed[i];
      assert SeenAll(bs)[k].name == routed[i].id;
    }
  }

  /** The gateway's view of a backend is the registered one exactly when host and profile carry no loose blanks. */
  lemma SeenExact(b: Backend)
    requires ValidBackend(b)
    ensures Seen(b) == GatewayBackend(b.id, b.host, b.backendPort, b.fallback, b.profile, b.enabled)
       <==> Trimmed(b.host) && Trimmed(b.profile)
  {
    hide IsId, IsPlain;
    TrimTrims(b.host);
    TrimTrims(b.profile);
    if Trimmed(b.host) { TrimIdentity(b.host); }
    if Trimmed(b.profile) { TrimIdentity(b.profile); }
    if Trim(b.profile) == "" && b.profile == b.id { IdTrimmed(b.id); }
  }

  lemma IdTrimmed(s: string)
    requires IsId(s)
    ensures Trim(s) == s && s != ""
  {
    TrimIdentity(s);
  }
}
