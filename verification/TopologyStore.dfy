/** The registry kept inside the unified configuration: `topologyFromUnified` and
    `applyTopologyToUnified` of dashboard/config.go, and the save-and-verify step of `saveTopology`
    in dashboard/backends.go. */
module TopologyStore {
  import opened Text
  import opened Decimal
  import opened Topology
  import opened Ini
  import opened IniPrinter
  import opened Vault

  const PREFIX: string := "backend."

  function SectionOf(id: string): string {
    PREFIX + id
  }

  function IdOf(section: string): string {
    if HasPrefix(section, PREFIX) then section[|PREFIX|..] else section
  }

  // ---- reading -----------------------------------------------------------

  function ValueOr(m: Section, k: string, fallback: string): string {
    var v := Trim(Lookup(m, k));
    if v != "" then v else fallback
  }

  function IntOr(m: Section, k: string, fallback: int): int {
    match Atoi(Trim(Lookup(m, k)))
    case None => fallback
    case Some(n) => n
  }

  function BoolOr(m: Section, k: string, fallback: bool): bool {
    var v := ToLower(Trim(Lookup(m, k)));
    if v in ["1", "true", "yes", "on", "enabled"] then true
    else if v in ["0", "false", "no", "off", "disabled"] then false
    else fallback
  }

  /** `envNameFromReference` */
  function EnvName(reference: string): string {
    var v := Trim(reference);
    if HasPrefix(ToLower(v), "env:") then Trim(v[4..]) else ""
  }

  function UpperFirst(s: string): string {
    if s != "" && 'a' <= s[0] <= 'z' then [(s[0] as int - 32) as char] + s[1..] else s
  }

  function Words(s: string): seq<string>
    decreases |s|
  {
    var t := TrimLeft(s);
    TrimLeftTrims(s);
    if t == "" then []
    else
      var i := WordEnd(t);
      [UpperFirst(t[..i])] + Words(t[i..])
  }

  function WordEnd(s: string): (i: nat)
    ensures i <= |s|
    ensures s != "" && !IsSpace(s[0]) ==> i > 0
  {
    if s == "" || IsSpace(s[0]) then 0 else 1 + WordEnd(s[1..])
  }

  /** `humanizeBackendID` */
  function Humanize(id: string): string {
    Join(Words(seq(|id|, i requires 0 <= i < |id| => if id[i] == '-' || id[i] == '_' then ' ' else id[i])), ' ')
  }

  function BackendFrom(id: string, m: Section): Backend {
    Backend(
      id,
      ValueOr(m, "display_name", Humanize(id)),
      ValueOr(m, "host", "127.0.0.1"),
      IntOr(m, "backend_port", 19132),
      IntOr(m, "public_port", 0),
      BoolOr(m, "fallback", false),
      ValueOr(m, "fallback_backend", ""),
      ValueOr(m, "protection_profile", id),
      BoolOr(m, "enabled", true),
      ValueOr(m, "connection_mode", "transparent"),
      ValueOr(m, "backend_adapter", "proxy_only"),
      BoolOr(m, "backend_online_mode", true),
      BoolOr(m, "require_proxy_identity", false),
      IntOr(m, "capacity", 50),
      EnvName(Lookup(m, "companion_secret")))
  }

  function BackendSections(d: Document): set<string> {
    set s | s in d && HasPrefix(s, PREFIX)
  }

  function ReadSections(sections: seq<string>, d: Document): seq<Backend>
    requires forall s :: s in sections ==> s in d
  {
    seq(|sections|, i requires 0 <= i < |sections| => BackendFrom(IdOf(sections[i]), d[sections[i]]))
  }

  function GetOr(d: Document, s: string, k: string, fallback: string): string {
    if s in d then ValueOr(d[s], k, fallback) else fallback
  }

  function Assemble(d: Document, bs: seq<Backend>): Registry {
    var primary := GetOr(d, "edge", "primary_backend", "");
    Registry(SCHEMA_VERSION, if primary == "" && bs != [] then bs[0].id else primary,
             GetOr(d, "edge", "routing_mode", "primary"), bs)
  }

  /** The registry a document describes: its backend sections in sorted order. */
  ghost function RegistryOf(d: Document): Registry {
    SortedSorts(BackendSections(d));
    var sections := Sorted(BackendSections(d));
    assert forall s :: s in sections ==> s in Elements(sections);
    Assemble(d, ReadSections(sections, d))
  }

  /** `topologyFromUnified` */
  method TopologyFromUnified(d: Document) returns (t: Registry, ok: bool)
    ensures t == RegistryOf(d) && (ok <==> Valid(t))
  {
    hide BackendFrom, Assemble, Valid, Sorted;
    var sections: seq<string> := [];
    var todo := d.Keys;
    while todo != {}
      invariant todo <= d.Keys
      invariant Elements(sections) == set s | s in d && s !in todo && HasPrefix(s, PREFIX)
      invariant |sections| == |Elements(sections)|
      decreases |todo|
    {
      var s :| s in todo;
      if HasPrefix(s, PREFIX) {
        SnocElements(sections, s);
        sections := sections + [s];
      }
      todo := todo - {s};
    }
    assert Elements(sections) == BackendSections(d);
    sections := SortStrings(sections);
    SortedSorts(BackendSections(d));
    assert forall s :: s in sections ==> s in Elements(sections);
    t := Assemble(d, ReadSections(sections, d));
    ok := ValidateTopology(t);
  }

  // ---- writing -----------------------------------------------------------

  function SectionFor(b: Backend, secret: string): Section {
    map[
      "display_name" := b.displayName,
      "host" := b.host,
      "backend_port" := Itoa(b.backendPort),
      "public_port" := Itoa(b.publicPort),
      "enabled" := BoolText(b.enabled),
      "fallback" := BoolText(b.fallback),
      "fallback_backend" := b.fallbackBackend,
      "protection_profile" := b.profile,
      "connection_mode" := b.connectionMode,
      "backend_adapter" := b.backendAdapter,
      "backend_online_mode" := BoolText(b.onlineMode),
      "require_proxy_identity" := BoolText(b.requireIdentity),
      "capacity" := Itoa(b.capacity),
      "companion_secret" := secret]
  }

  function SecretFor(d: Document, id: string): string {
    Get(d, SectionOf(id), "companion_secret")
  }

  function EdgeFor(d: Document, t: Registry): Section {
    (if "edge" in d then d["edge"] else map[])["primary_backend" := t.primary]["routing_mode" := t.routingMode]
  }

  ghost function IdsOf(bs: seq<Backend>): set<string> {
    set b | b in bs :: b.id
  }

  /** Write every backend in turn into its own section. */
  function AddBackends(base: Document, d: Document, bs: seq<Backend>): Document
    decreases |bs|
  {
    if bs == [] then base
    else AddBackends(base[SectionOf(bs[0].id) := SectionFor(bs[0], SecretFor(d, bs[0].id))], d, bs[1..])
  }

  function WithoutBackends(d: Document): Document {
    map s | s in d && !HasPrefix(s, PREFIX) :: d[s]
  }

  function Apply(d: Document, t: Registry): Document {
    AddBackends(WithoutBackends(d)["edge" := EdgeFor(d, t)], d, t.backends)
  }

  /** Remove the backend sections, remembering each one's credential. */
  method TakeBackends(d: Document) returns (rest: Document, secrets: map<string, string>)
    ensures rest == WithoutBackends(d)
    ensures forall id :: (if id in secrets then secrets[id] else "") == SecretFor(d, id)
  {
    hide SectionOf, IdOf;
    rest, secrets := d, map[];
    var todo := d.Keys;
    while todo != {}
      invariant todo <= d.Keys
      invariant forall s :: s in rest <==> s in d && !(s !in todo && HasPrefix(s, PREFIX))
      invariant forall s :: s in rest ==> rest[s] == d[s]
      invariant forall id :: id in secrets ==> (SectionOf(id) in d
          && secrets[id] == Lookup(d[SectionOf(id)], "companion_secret"))
      invariant forall id :: SectionOf(id) in d && SectionOf(id) !in todo ==> id in secrets
      decreases |todo|
    {
      var s :| s in todo;
      if HasPrefix(s, PREFIX) {
        SectionIds(s);
        secrets := secrets[IdOf(s) := Lookup(rest[s], "companion_secret")];
        rest := rest - {s};
      } else {
        NotASection(s);
      }
      todo := todo - {s};
    }
    assert rest == WithoutBackends(d);
  }

  lemma SectionIds(s: string)
    requires HasPrefix(s, PREFIX)
    ensures SectionOf(IdOf(s)) == s
    ensures forall id :: SectionOf(id) == s ==> id == IdOf(s)
  {
    forall id | SectionOf(id) == s ensures id == IdOf(s) {
      assert SectionOf(id)[|PREFIX|..] == id;
    }
  }

  lemma NotASection(s: string)
    requires !HasPrefix(s, PREFIX)
    ensures forall id :: SectionOf(id) != s
  {
  }

  /** `applyTopologyToUnified`: backend sections are removed and rewritten; the credentials found
      before are put back. */
  method ApplyTopologyToUnified(d: Document, t: Registry) returns (ok: bool, r: Document)
    ensures ok <==> Valid(t)
    ensures r == if ok then Apply(d, t) else d
  {
    hide Valid, SectionFor, EdgeFor, WithoutBackends, SectionOf, SecretFor;
    ok := ValidateTopology(t);
    r := d;
    if !ok {
      return;
    }
    var rest, secrets := TakeBackends(d);
    var edge := if "edge" in d then d["edge"] else map[];
    r := rest["edge" := EdgeFor(d, t)];
    ghost var base := r;
    var i := 0;
    while i < |t.backends|
      invariant 0 <= i <= |t.backends|
      invariant AddBackends(base, d, t.backends) == AddBackends(r, d, t.backends[i..])
    {
      var b := t.backends[i];
      assert t.backends[i..][1..] == t.backends[i + 1..];
      var secret := if b.id in secrets then secrets[b.id] else "";
      r := r[SectionOf(b.id) := SectionFor(b, secret)];
      i := i + 1;
    }
  }

  // ---- what applying a registry does to the document ---------------------

  lemma SectionOfInjective(a: string, b: string)
    requires SectionOf(a) == SectionOf(b)
    ensures a == b
  {
    assert SectionOf(a)[|PREFIX|..] == a && SectionOf(b)[|PREFIX|..] == b;
  }

  ghost predicate Names(bs: seq<Backend>, s: string) {
    exists i :: 0 <= i < |bs| && SectionOf(bs[i].id) == s
  }

  lemma {:induction false} AddMiss(base: Document, d: Document, bs: seq<Backend>, s: string)
    requires !Names(bs, s)
    ensures var r := AddBackends(base, d, bs); (s in r <==> s in base) && (s in base ==> r[s] == base[s])
    decreases |bs|
  {
    hide SectionFor, SecretFor;
    if bs != [] {
      assert SectionOf(bs[0].id) != s;
      assert !Names(bs[1..], s) by { assert forall i :: 0 <= i < |bs[1..]| ==> bs[1..][i] == bs[i + 1]; }
      AddMiss(base[SectionOf(bs[0].id) := SectionFor(bs[0], SecretFor(d, bs[0].id))], d, bs[1..], s);
    }
  }

  lemma {:induction false} AddHit(base: Document, d: Document, bs: seq<Backend>, i: nat)
    requires DistinctIds(bs) && i < |bs|
    ensures var r := AddBackends(base, d, bs); var s := SectionOf(bs[i].id);
            s in r && r[s] == SectionFor(bs[i], SecretFor(d, bs[i].id))
    decreases |bs|
  {
    hide SectionFor, SecretFor;
    var b := bs[0];
    var next := base[SectionOf(b.id) := SectionFor(b, SecretFor(d, b.id))];
    if i > 0 {
      AddHit(next, d, bs[1..], i - 1);
    } else {
      if Names(bs[1..], SectionOf(b.id)) {
        var k :| 0 <= k < |bs[1..]| && SectionOf(bs[1..][k].id) == SectionOf(b.id);
        SectionOfInjective(bs[k + 1].id, b.id);
      }
      AddMiss(next, d, bs[1..], SectionOf(b.id));
    }
  }

  /** Everything outside the registry is untouched, and each kept backend keeps its credential. */
  lemma ApplyKeepsRest(d: Document, t: Registry)
    requires Valid(t)
    ensures forall s :: !HasPrefix(s, PREFIX) && s != "edge" ==> ((s in Apply(d, t) <==> s in d)
        && (s in d ==> Apply(d, t)[s] == d[s]))
    ensures "edge" in Apply(d, t)
    ensures forall k :: (k != "primary_backend" && k != "routing_mode"
        ==> Get(Apply(d, t), "edge", k) == Get(d, "edge", k))
    ensures forall b :: b in t.backends ==> SecretFor(Apply(d, t), b.id) == SecretFor(d, b.id)
  {
    hide AddBackends, Sorted, ValidBackend;
    var base := WithoutBackends(d)["edge" := EdgeFor(d, t)];
    forall s | !HasPrefix(s, PREFIX)
      ensures (s in Apply(d, t) <==> s in base) && (s in base ==> Apply(d, t)[s] == base[s])
    {
      NotASection(s);
      AddMiss(base, d, t.backends, s);
    }
    assert !HasPrefix("edge", PREFIX);
    forall b | b in t.backends ensures SecretFor(Apply(d, t), b.id) == SecretFor(d, b.id) {
      var i :| 0 <= i < |t.backends| && t.backends[i] == b;
      AddHit(base, d, t.backends, i);
    }
  }

  // ---- reading back what was applied -------------------------------------

  /** A backend after a trip through its section: text fields trimmed, blanks defaulted, and the
      credential source taken from the stored secret rather than from the registry. */
  function Normalize(b: Backend, secret: string): Backend {
    b.(displayName := Trim(b.displayName),
       host := Trim(b.host),
       fallbackBackend := Trim(b.fallbackBackend),
       profile := if Trim(b.profile) == "" then b.id else Trim(b.profile),
       connectionMode := ModeOf(b),
       backendAdapter := AdapterOf(b),
       secretEnv := EnvName(secret))
  }

  lemma KeysDiffer()
    ensures "display_name" != "backend_port" && "fallback" != "capacity"
    ensures "fallback_backend" != "companion_secret" && "connection_mode" != "backend_adapter"
  {
    assert "display_name"[0] != "backend_port"[0] && "fallback"[0] != "capacity"[0];
    assert "fallback_backend"[0] != "companion_secret"[0] && "connection_mode"[0] != "backend_adapter"[0];
  }

  lemma LookupText(b: Backend, secret: string)
    ensures var m := SectionFor(b, secret);
            && Lookup(m, "display_name") == b.displayName && Lookup(m, "host") == b.host
            && Lookup(m, "fallback_backend") == b.fallbackBackend && Lookup(m, "protection_profile") == b.profile
            && Lookup(m, "connection_mode") == b.connectionMode && Lookup(m, "backend_adapter") == b.backendAdapter
            && Lookup(m, "companion_secret") == secret
  {
    hide Itoa, BoolText;
    KeysDiffer();
  }

  lemma LookupNumbers(b: Backend, secret: string)
    ensures var m := SectionFor(b, secret);
            && Lookup(m, "backend_port") == Itoa(b.backendPort) && Lookup(m, "public_port") == Itoa(b.publicPort)
            && Lookup(m, "capacity") == Itoa(b.capacity)
            && Lookup(m, "enabled") == BoolText(b.enabled) && Lookup(m, "fallback") == BoolText(b.fallback)
            && Lookup(m, "backend_online_mode") == BoolText(b.onlineMode)
            && Lookup(m, "require_proxy_identity") == BoolText(b.requireIdentity)
  {
    hide Itoa, BoolText;
    KeysDiffer();
  }

  lemma BoolReads(m: Section, k: string, v: bool, fallback: bool)
    requires Lookup(m, k) == BoolText(v)
    ensures BoolOr(m, k, fallback) == v
  {
    var t := BoolText(v);
    TrimIdentity(t);
    assert ToLower(t) == t;
  }

  lemma IntReads(m: Section, k: string, v: int, fallback: int)
    requires Lookup(m, k) == Itoa(v) && 0 <= v <= 100000
    ensures IntOr(m, k, fallback) == v
  {
    hide Itoa, Atoi, Trim;
    AtoiItoa(v);
  }

  lemma ModeReads(m: Section, b: Backend)
    requires ValidBackend(b)
    requires Lookup(m, "connection_mode") == b.connectionMode && Lookup(m, "backend_adapter") == b.backendAdapter
    ensures ValueOr(m, "connection_mode", "transparent") == ModeOf(b)
    ensures ValueOr(m, "backend_adapter", "proxy_only") == AdapterOf(b)
  {
    hide IsId, IsPlain;
    TrimIdentity(b.connectionMode);
    TrimIdentity(b.backendAdapter);
  }

  lemma ReadsBackend(b: Backend, secret: string)
    requires ValidBackend(b)
    ensures BackendFrom(b.id, SectionFor(b, secret)) == Normalize(b, secret)
  {
    var m := SectionFor(b, secret);
    LookupText(b, secret);
    LookupNumbers(b, secret);
    assert Trim(b.displayName) != "" && Trim(b.host) != "";
    assert 0 <= b.backendPort <= 100000 && 0 <= b.publicPort <= 100000 && 0 <= b.capacity <= 100000;
    ModeReads(m, b);
    hide SectionFor, BoolOr, IntOr, Itoa, BoolText, Trim, EnvName, Humanize, ModeOf, AdapterOf, Lookup, ValidBackend;
    IntReads(m, "backend_port", b.backendPort, 19132);
    IntReads(m, "public_port", b.publicPort, 0);
    IntReads(m, "capacity", b.capacity, 50);
    BoolReads(m, "fallback", b.fallback, false);
    BoolReads(m, "enabled", b.enabled, true);
    BoolReads(m, "backend_online_mode", b.onlineMode, true);
    BoolReads(m, "require_proxy_identity", b.requireIdentity, false);
  }

  /** The first backend with this id. */
  function Find(bs: seq<Backend>, id: string): (b: Backend)
    requires exists i :: 0 <= i < |bs| && bs[i].id == id
    ensures b in bs && b.id == id
  {
    if bs[0].id == id then bs[0]
    else
      assert exists i :: 0 <= i < |bs[1..]| && bs[1..][i].id == id by {
        var i :| 0 <= i < |bs| && bs[i].id == id;
        assert bs[1..][i - 1].id == id;
      }
      Find(bs[1..], id)
  }

  /** The ids of a registry in order, which is how a document lists its backends. */
  ghost function SortedIds(bs: seq<Backend>): seq<string> {
    Sorted(IdsOf(bs))
  }

  lemma SortedIdsAreIds(bs: seq<Backend>)
    ensures forall j :: 0 <= j < |SortedIds(bs)| ==> exists i :: 0 <= i < |bs| && bs[i].id == SortedIds(bs)[j]
    ensures forall i :: 0 <= i < |bs| ==> bs[i].id in SortedIds(bs)
  {
    var ids := SortedIds(bs);
    SortedSorts(IdsOf(bs));
    forall j | 0 <= j < |ids| ensures exists i :: 0 <= i < |bs| && bs[i].id == ids[j] {
      assert ids[j] in Elements(ids);
      var b :| b in bs && b.id == ids[j];
      var i :| 0 <= i < |bs| && bs[i] == b;
    }
    forall i | 0 <= i < |bs| ensures bs[i].id in ids {
      assert bs[i] in bs;
      assert bs[i].id in Elements(ids);
    }
  }

  /** The backends of `bs` sorted by id, each as it comes back from its section in `d`. */
  ghost function SortedBack(d: Document, bs: seq<Backend>): seq<Backend> {
    var ids := SortedIds(bs);
    SortedIdsAreIds(bs);
    seq(|ids|, j requires 0 <= j < |ids| => Normalize(Find(bs, ids[j]), SecretFor(d, ids[j])))
  }

  lemma PrefixSorted(ids: set<string>)
    ensures var sections := set id | id in ids :: SectionOf(id);
            && |Sorted(sections)| == |Sorted(ids)|
            && forall j :: 0 <= j < |Sorted(ids)| ==> Sorted(sections)[j] == SectionOf(Sorted(ids)[j])
  {
    hide SectionOf, Sorted, Less, Elements;
    var q := Sorted(ids);
    SortedSorts(ids);
    var p := seq(|q|, j requires 0 <= j < |q| => SectionOf(q[j]));
    var sections := set id | id in ids :: SectionOf(id);
    SortedSorts(sections);
    forall i, j | 0 <= i < j < |p| ensures Less(p[i], p[j]) { SectionLess(q[i], q[j]); }
    SectionElements(ids, q, p);
    IncreasingUnique(p, Sorted(sections));
  }

  lemma SectionElements(ids: set<string>, q: seq<string>, p: seq<string>)
    requires Elements(q) == ids && |p| == |q| && forall j :: 0 <= j < |q| ==> p[j] == SectionOf(q[j])
    ensures Elements(p) == set id | id in ids :: SectionOf(id)
  {
    hide SectionOf;
    forall id | id in ids ensures SectionOf(id) in Elements(p) {
      assert id in Elements(q);
      var j :| 0 <= j < |q| && q[j] == id;
      assert p[j] in p;
    }
    forall s | s in Elements(p) ensures exists id :: id in ids && SectionOf(id) == s {
      var j :| 0 <= j < |p| && p[j] == s;
      assert q[j] in Elements(q);
    }
  }

  lemma SectionLess(a: string, b: string)
    requires Less(a, b)
    ensures Less(SectionOf(a), SectionOf(b))
  {
    LessPrefix(PREFIX, a, b);
  }

  lemma AppliedSections(d: Document, t: Registry)
    requires Valid(t)
    ensures BackendSections(Apply(d, t)) == set id | id in IdsOf(t.backends) :: SectionOf(id)
  {
    hide AddBackends, SectionFor, SecretFor, EdgeFor, ValidBackend;
    var base := WithoutBackends(d)["edge" := EdgeFor(d, t)];
    var want := set id | id in IdsOf(t.backends) :: SectionOf(id);
    assert !HasPrefix("edge", PREFIX);
    forall s | s in BackendSections(Apply(d, t)) ensures s in want {
      if !Names(t.backends, s) {
        AddMiss(base, d, t.backends, s);
      } else {
        var i :| 0 <= i < |t.backends| && SectionOf(t.backends[i].id) == s;
        assert t.backends[i] in t.backends;
        assert t.backends[i].id in IdsOf(t.backends);
      }
    }
    forall s | s in want ensures s in BackendSections(Apply(d, t)) {
      var id :| id in IdsOf(t.backends) && SectionOf(id) == s;
      var b :| b in t.backends && b.id == id;
      var i :| 0 <= i < |t.backends| && t.backends[i] == b;
      AddHit(base, d, t.backends, i);
    }
  }

  lemma AppliedBackend(d: Document, t: Registry, id: string)
    requires Valid(t) && exists i :: 0 <= i < |t.backends| && t.backends[i].id == id
    ensures SectionOf(id) in Apply(d, t)
    ensures BackendFrom(id, Apply(d, t)[SectionOf(id)]) == Normalize(Find(t.backends, id), SecretFor(d, id))
  {
    hide AddBackends, SectionFor, SecretFor, EdgeFor, BackendFrom, Normalize, ValidBackend, Find;
    var b := Find(t.backends, id);
    var i :| 0 <= i < |t.backends| && t.backends[i] == b;
    AddHit(WithoutBackends(d)["edge" := EdgeFor(d, t)], d, t.backends, i);
    ReadsBackend(b, SecretFor(d, id));
  }

  lemma AppliedEdge(d: Document, t: Registry)
    requires Valid(t)
    ensures GetOr(Apply(d, t), "edge", "primary_backend", "") == t.primary && t.primary != ""
    ensures GetOr(Apply(d, t), "edge", "routing_mode", "primary") == t.routingMode
  {
    hide AddBackends, Trim;
    var base := WithoutBackends(d)["edge" := EdgeFor(d, t)];
    assert !HasPrefix("edge", PREFIX);
    NotASection("edge");
    AddMiss(base, d, t.backends, "edge");
    var i :| 0 <= i < |t.backends| && t.backends[i].id == t.primary;
    assert IsId(t.primary) by { assert ValidBackend(t.backends[i]); }
    assert Trim(t.primary) == t.primary && t.primary != "" by { IdTrim(t.primary); }
    assert Trim(t.routingMode) == t.routingMode by { ModeTrim(t.routingMode); }
  }

  lemma IdTrim(s: string)
    requires IsId(s)
    ensures Trim(s) == s && s != ""
  {
    TrimIdentity(s);
  }

  lemma ModeTrim(m: string)
    requires IsRoutingMode(m)
    ensures Trim(m) == m && m != ""
  {
    TrimIdentity(m);
  }

  /** Applying a registry and reading it back gives the same registry, its backends sorted by id
      and each one normalised. */
  lemma ReadApplied(d: Document, t: Registry)
    requires Valid(t)
    ensures RegistryOf(Apply(d, t)) == Registry(SCHEMA_VERSION, t.primary, t.routingMode, SortedBack(d, t.backends))
  {
    hide Apply, BackendFrom, Normalize, Sorted, Find, GetOr, SectionOf, IdOf, ValidBackend, IsRoutingMode, SecretFor;
    var r := Apply(d, t);
    AppliedSections(d, t);
    PrefixSorted(IdsOf(t.backends));
    SortedIdsAreIds(t.backends);
    SortedSorts(BackendSections(r));
    var sections, ids := Sorted(BackendSections(r)), SortedIds(t.backends);
    assert forall s :: s in sections ==> s in Elements(sections);
    var read := ReadSections(sections, r);
    forall j | 0 <= j < |ids| ensures read[j] == SortedBack(d, t.backends)[j] {
      AppliedBackend(d, t, ids[j]);
      SectionRoundTrip(ids[j]);
    }
    assert read == SortedBack(d, t.backends);
    AppliedEdge(d, t);
  }

  lemma SectionRoundTrip(id: string)
    ensures IdOf(SectionOf(id)) == id
  {
    assert SectionOf(id)[|PREFIX|..] == id;
  }

  // ---- save and verify ---------------------------------------------------

  /** Text fields without loose blanks, and no field left to a default. */
  predicate Canonical(b: Backend) {
    && Trimmed(b.displayName) && Trimmed(b.host) && Trimmed(b.fallbackBackend) && Trimmed(b.profile)
    && b.connectionMode != "" && b.backendAdapter != ""
  }

  function Clear(b: Backend): Backend {
    b.(secretEnv := "")
  }

  lemma TrimFixed(s: string)
    ensures Trim(s) == s <==> Trimmed(s)
  {
    TrimTrims(s);
    if Trimmed(s) { TrimIdentity(s); }
  }

  lemma NormalizeExact(b: Backend, secret: string)
    requires ValidBackend(b)
    ensures Clear(Normalize(b, secret)) == Clear(b) <==> Canonical(b)
  {
    assert Trim(b.profile) == "" ==> b.profile != b.id by { IdTrim(b.id); }
    hide ValidBackend, Trim, EnvName, Trimmed;
    TrimFixed(b.displayName);
    TrimFixed(b.host);
    TrimFixed(b.fallbackBackend);
    TrimFixed(b.profile);
    assert b.profile != "" && Trim("") == "" by { TrimIdentity(""); assert ValidBackend(b); }
  }

  /** The registry as `normalizedTopology` orders it: sorted by id, credential sources cleared. */
  ghost function NormalForm(bs: seq<Backend>): seq<Backend> {
    var ids := SortedIds(bs);
    SortedIdsAreIds(bs);
    seq(|ids|, j requires 0 <= j < |ids| => Clear(Find(bs, ids[j])))
  }

  /** The comparison `saveTopology` makes. */
  ghost predicate SameRegistry(a: Registry, b: Registry) {
    && a.version == b.version && a.primary == b.primary && a.routingMode == b.routingMode
    && NormalForm(a.backends) == NormalForm(b.backends)
  }

  ghost predicate AllCanonical(bs: seq<Backend>) {
    forall i :: 0 <= i < |bs| ==> Canonical(bs[i])
  }

  lemma {:induction false} FindUnique(bs: seq<Backend>, i: nat)
    requires DistinctIds(bs) && i < |bs|
    ensures Find(bs, bs[i].id) == bs[i]
  {
    if i > 0 {
      FindUnique(bs[1..], i - 1);
    }
  }

  lemma SortedBackIds(d: Document, bs: seq<Backend>)
    ensures var back, ids := SortedBack(d, bs), SortedIds(bs);
            && |back| == |ids| && (forall j :: 0 <= j < |back| ==> back[j].id == ids[j])
            && DistinctIds(back) && IdsOf(back) == IdsOf(bs)
  {
    hide Sorted, Find, SecretFor, EnvName, Trim, ModeOf, AdapterOf;
    var back, ids := SortedBack(d, bs), SortedIds(bs);
    SortedIdsAreIds(bs);
    SortedSorts(IdsOf(bs));
    forall i, j | 0 <= i < j < |ids| ensures ids[i] != ids[j] { LessAsymmetric(ids[i], ids[j]); }
    forall id | id in IdsOf(bs) ensures id in IdsOf(back) {
      assert id in Elements(ids);
      var j :| 0 <= j < |ids| && ids[j] == id;
      assert back[j] in back;
    }
    forall id | id in IdsOf(back) ensures id in IdsOf(bs) {
      var b :| b in back && b.id == id;
      var j :| 0 <= j < |back| && back[j] == b;
      assert ids[j] in Elements(ids);
    }
  }

  /** Canonical backends come back as they were, apart from the credential source. */
  lemma SameAfterReading(d: Document, t: Registry)
    requires Valid(t) && AllCanonical(t.backends)
    ensures SameRegistry(RegistryOf(Apply(d, t)), t)
  {
    hide Normalize, Canonical, ValidBackend, RegistryOf, Apply, Sorted, SecretFor, Clear;
    var bs, back := t.backends, SortedBack(d, t.backends);
    ReadApplied(d, t);
    SortedBackIds(d, bs);
    SortedIdsAreIds(bs);
    SortedIdsAreIds(back);
    var ids := SortedIds(bs);
    forall j | 0 <= j < |ids| ensures NormalForm(back)[j] == NormalForm(bs)[j] {
      FindUnique(back, j);
      var i :| 0 <= i < |bs| && bs[i] == Find(bs, ids[j]);
      NormalizeExact(bs[i], SecretFor(d, ids[j]));
    }
    assert NormalForm(back) == NormalForm(bs);
  }

  // ---- through the file --------------------------------------------------

  /** A backend whose section survives printing and parsing. */
  predicate Storable(b: Backend) {
    Canonical(b) && '\n' !in b.fallbackBackend
  }

  ghost predicate AllStorable(bs: seq<Backend>) {
    forall i :: 0 <= i < |bs| ==> Storable(bs[i])
  }

  predicate IsFieldKey(k: string) {
    0 < |k| < 30 && forall i :: 0 <= i < |k| ==> 'a' <= k[i] <= 'z' || k[i] == '_'
  }

  /** A value that can stand on a line of its own after any field name. */
  predicate IsFieldText(v: string) {
    Trimmed(v) && '\n' !in v
  }

  lemma FieldPair(k: string, v: string)
    requires IsFieldKey(k) && IsFieldText(v) && |k| + 1 + |v| <= MAX_LINE
    ensures Pair(k, v)
  {
    assert ToLower(k) == k;
  }

  lemma FieldKeys()
    ensures IsFieldKey("display_name") && IsFieldKey("host") && IsFieldKey("backend_port") && IsFieldKey("public_port")
    ensures IsFieldKey("enabled") && IsFieldKey("fallback") && IsFieldKey("fallback_backend")
    ensures IsFieldKey("protection_profile") && IsFieldKey("connection_mode") && IsFieldKey("backend_adapter")
    ensures IsFieldKey("backend_online_mode") && IsFieldKey("require_proxy_identity") && IsFieldKey("capacity")
    ensures IsFieldKey("companion_secret") && IsFieldKey("primary_backend") && IsFieldKey("routing_mode")
  {
    hide IsFieldKey;
    AddressKeys();
    ModeKeys();
  }

  lemma AddressKeys()
    ensures IsFieldKey("display_name") && IsFieldKey("host") && IsFieldKey("backend_port") && IsFieldKey("public_port")
    ensures IsFieldKey("enabled") && IsFieldKey("fallback") && IsFieldKey("fallback_backend")
        && IsFieldKey("protection_profile")
  {
  }

  lemma ModeKeys()
    ensures IsFieldKey("connection_mode") && IsFieldKey("backend_adapter") && IsFieldKey("backend_online_mode")
    ensures IsFieldKey("require_proxy_identity") && IsFieldKey("capacity")
    ensures IsFieldKey("companion_secret") && IsFieldKey("primary_backend") && IsFieldKey("routing_mode")
  {
  }

  lemma NumberText(n: nat)
    requires n <= 100000
    ensures IsFieldText(Itoa(n)) && |Itoa(n)| <= 6
  {
    DigitsAreNotSpace(n);
    DigitsLength(n, 6);
  }

  lemma {:induction false} DigitsLength(n: nat, k: nat)
    requires k > 0 && n < Pow10(k)
    ensures |Digits(n)| <= k
  {
    if n >= 10 { DigitsLength(n / 10, k - 1); }
  }

  function Pow10(k: nat): nat {
    if k == 0 then 1 else 10 * Pow10(k - 1)
  }

  lemma BoolPlain(b: bool)
    ensures IsFieldText(BoolText(b)) && |BoolText(b)| <= 5
  {
  }

  /** Every entry can stand on a line of its own. */
  ghost predicate FieldSection(m: Section) {
    forall k :: k in m ==> IsFieldKey(k) && IsFieldText(m[k])
  }

  lemma PutField(m: Section, k: string, v: string) returns (r: Section)
    requires FieldSection(m) && IsFieldKey(k) && IsFieldText(v)
    ensures r == m[k := v] && FieldSection(r)
  {
    hide IsFieldKey, IsFieldText;
    r := m[k := v];
  }

  lemma PutOk(m: Section, k: string, v: string) returns (r: Section)
    requires SectionOk(m) && IsFieldKey(k) && IsFieldText(v) && |k| + 1 + |v| <= MAX_LINE
    ensures r == m[k := v] && SectionOk(r)
  {
    hide IsFieldKey, IsFieldText, Pair;
    FieldPair(k, v);
    r := m[k := v];
  }

  predicate ModesOk(b: Backend) {
    IsFieldText(b.connectionMode) && IsFieldText(b.backendAdapter) && |b.connectionMode| < 20 && |b.backendAdapter| < 20
  }

  predicate TextsOk(b: Backend, secret: string) {
    && IsFieldText(b.displayName) && IsFieldText(b.host) && IsFieldText(b.fallbackBackend)
    && IsFieldText(b.profile) && IsFieldText(secret)
  }

  lemma BackendTexts(b: Backend, secret: string)
    requires ValidBackend(b) && Storable(b) && IsFieldText(secret)
    ensures TextsOk(b, secret) && ModesOk(b)
  {
    hide IsId, Trim, Trimmed, IsFieldText;
    TextOk(b.displayName);
    TextOk(b.host);
    TextOk(b.fallbackBackend);
    TextOk(b.profile);
    ModeTexts(b.connectionMode);
    AdapterTexts(b.backendAdapter);
  }

  lemma TextOk(v: string)
    requires Trimmed(v) && '\n' !in v
    ensures IsFieldText(v)
  {
  }

  lemma ModeTexts(m: string)
    requires m == "transparent" || m == "full_proxy"
    ensures IsFieldText(m) && |m| < 20
  {
  }

  lemma AdapterTexts(m: string)
    requires m == "endstone" || m == "vanilla_bridge" || m == "vanilla_agent" || m == "proxy_only"
    ensures IsFieldText(m) && |m| < 20
  {
  }

  lemma StoredSection(b: Backend, secret: string)
    requires TextsOk(b, secret) && ModesOk(b)
    requires 0 <= b.backendPort <= 100000 && 0 <= b.publicPort <= 100000 && 0 <= b.capacity <= 100000
    ensures FieldSection(SectionFor(b, secret))
  {
    hide IsFieldKey, IsFieldText, Itoa, BoolText, FieldSection;
    FieldKeys();
    NumberText(b.backendPort);
    NumberText(b.publicPort);
    NumberText(b.capacity);
    BoolPlain(b.enabled);
    BoolPlain(b.fallback);
    BoolPlain(b.onlineMode);
    BoolPlain(b.requireIdentity);
    EmptyFields();
    var m: Section := PutField(map[], "display_name", b.displayName);
    m := PutField(m, "host", b.host);
    m := PutField(m, "backend_port", Itoa(b.backendPort));
    m := PutField(m, "public_port", Itoa(b.publicPort));
    m := PutField(m, "enabled", BoolText(b.enabled));
    m := PutField(m, "fallback", BoolText(b.fallback));
    m := PutField(m, "fallback_backend", b.fallbackBackend);
    m := PutField(m, "protection_profile", b.profile);
    m := PutField(m, "connection_mode", b.connectionMode);
    m := PutField(m, "backend_adapter", b.backendAdapter);
    m := PutField(m, "backend_online_mode", BoolText(b.onlineMode));
    m := PutField(m, "require_proxy_identity", BoolText(b.requireIdentity));
    m := PutField(m, "capacity", Itoa(b.capacity));
    m := PutField(m, "companion_secret", secret);
  }

  lemma EmptyFields()
    ensures FieldSection(map[])
  {
  }

  lemma FieldsClean(m: Section)
    requires FieldSection(m)
    ensures CleanSection(m)
  {
    forall k | k in m ensures '\n' !in k && '\n' !in m[k] {
      assert IsFieldKey(k) && IsFieldText(m[k]);
    }
  }

  lemma FieldsOk(m: Section)
    requires FieldSection(m) && forall k :: k in m ==> |k| + 3 + |m[k]| <= MAX_LINE
    ensures SectionOk(m)
  {
    hide IsFieldKey, IsFieldText, Pair;
    forall k | k in m ensures Pair(k, m[k]) { FieldPair(k, m[k]); }
  }

  lemma ValidParts(b: Backend)
    requires ValidBackend(b)
    ensures IsId(b.id) && 0 <= b.backendPort <= 100000 && 0 <= b.publicPort <= 100000 && 0 <= b.capacity <= 100000
  {
  }

  lemma SectionNameOk(id: string)
    requires IsId(id)
    ensures SectionName(SectionOf(id))
  {
    var s := SectionOf(id);
    assert forall i :: 0 <= i < |s| ==> LowerChar(s[i]) == s[i] && s[i] != '\n';
  }

  lemma SecretText(d: Document, id: string)
    requires WellFormed(d)
    ensures IsFieldText(SecretFor(d, id))
  {
    hide SectionName;
    if SectionOf(id) in d && "companion_secret" in d[SectionOf(id)] {
      assert Pair("companion_secret", d[SectionOf(id)]["companion_secret"]);
    }
  }

  lemma IdText(s: string)
    requires IsId(s)
    ensures IsFieldText(s) && |s| <= 32
  {
  }

  lemma ModeText(m: string)
    requires IsRoutingMode(m)
    ensures IsFieldText(m) && |m| <= 14
  {
  }

  lemma EdgeOk(d: Document, t: Registry)
    requires WellFormed(d) && Valid(t)
    ensures SectionOk(EdgeFor(d, t))
  {
    hide Pair, SectionName, ValidBackend, IsFieldKey, SectionOk, IsFieldText, IsRoutingMode;
    var i :| 0 <= i < |t.backends| && t.backends[i].id == t.primary;
    ValidParts(t.backends[i]);
    IdText(t.primary);
    ModeText(t.routingMode);
    FieldKeys();
    var m := PutOk(d["edge"], "primary_backend", t.primary);
    m := PutOk(m, "routing_mode", t.routingMode);
  }

  /** The section of a storable backend after applying. */
  lemma AppliedFields(d: Document, t: Registry, i: nat)
    requires WellFormed(d) && Valid(t) && i < |t.backends| && Storable(t.backends[i])
    ensures var s := SectionOf(t.backends[i].id);
            s in Apply(d, t) && SectionName(s) && FieldSection(Apply(d, t)[s])
  {
    hide SectionFor, SecretFor, EdgeFor, ValidBackend, Storable, SectionName, WellFormed, AddBackends, IsRoutingMode,
         TextsOk, ModesOk, IsFieldText, IsId, FieldSection;
    var b := t.backends[i];
    AddHit(WithoutBackends(d)["edge" := EdgeFor(d, t)], d, t.backends, i);
    SecretText(d, b.id);
    ValidParts(b);
    SectionNameOk(b.id);
    BackendTexts(b, SecretFor(d, b.id));
    StoredSection(b, SecretFor(d, b.id));
  }

  /** The sections outside the registry, and the edge section, stay well formed. */
  lemma AppliedOthers(d: Document, t: Registry, s: string)
    requires WellFormed(d) && Valid(t) && s in Apply(d, t) && !Names(t.backends, s)
    ensures SectionName(s) && SectionOk(Apply(d, t)[s])
  {
    hide SectionFor, SecretFor, EdgeFor, ValidBackend, SectionName, SectionOk, AddBackends, IsRoutingMode;
    EdgeOk(d, t);
    AddMiss(WithoutBackends(d)["edge" := EdgeFor(d, t)], d, t.backends, s);
  }

  lemma ApplyClean(d: Document, t: Registry)
    requires WellFormed(d) && Valid(t) && AllStorable(t.backends)
    ensures Clean(Apply(d, t))
  {
    hide Apply, WellFormed, Valid, Storable, SectionOk, FieldSection, CleanSection;
    forall s | s in Apply(d, t) ensures '\n' !in s && CleanSection(Apply(d, t)[s]) {
      if Names(t.backends, s) {
        var i :| 0 <= i < |t.backends| && SectionOf(t.backends[i].id) == s;
        AppliedFields(d, t, i);
        FieldsClean(Apply(d, t)[s]);
      } else {
        AppliedOthers(d, t, s);
        SectionClean(Apply(d, t)[s]);
      }
    }
  }

  lemma SectionClean(m: Section)
    requires SectionOk(m)
    ensures CleanSection(m)
  {
    forall k | k in m ensures '\n' !in k && '\n' !in m[k] { assert Pair(k, m[k]); }
  }

  /** A stored registry leaves the configuration in the form the parser returns. */
  lemma ApplyWellFormed(d: Document, t: Registry)
    requires WellFormed(d) && Valid(t) && AllStorable(t.backends)
    requires Printable(Apply(d, t))
    ensures WellFormed(Apply(d, t))
  {
    hide Valid, Storable, SectionName, SectionOk, FieldSection, Apply;
    forall s | s in Apply(d, t) ensures SectionName(s) && SectionOk(Apply(d, t)[s]) {
      if Names(t.backends, s) {
        var i :| 0 <= i < |t.backends| && SectionOf(t.backends[i].id) == s;
        AppliedFields(d, t, i);
        FieldsOk(Apply(d, t)[s]);
      } else {
        AppliedOthers(d, t, s);
      }
    }
    ApplyKeepsRest(d, t);
  }

  // ---- what a well-formed file can hold ----------------------------------

  lemma WordsTrimmed(s: string)
    ensures forall i :: 0 <= i < |Words(s)| ==> Words(s)[i] != "" && Trimmed(Words(s)[i])
    decreases |s|
  {
    TrimLeftTrims(s);
    var t := TrimLeft(s);
    if t != "" {
      var e := WordEnd(t);
      WordPlain(t);
      WordsTrimmed(t[e..]);
    }
  }

  lemma {:induction false} WordPlain(s: string)
    ensures forall i :: 0 <= i < WordEnd(s) ==> !IsSpace(s[i])
  {
    if s != "" && !IsSpace(s[0]) {
      WordPlain(s[1..]);
      assert forall i :: 1 <= i < WordEnd(s) ==> s[i] == s[1..][i - 1];
    }
  }

  lemma HumanizeTrimmed(id: string)
    ensures Trimmed(Humanize(id))
  {
    hide Words, Join;
    var text := seq(|id|, i requires 0 <= i < |id| => if id[i] == '-' || id[i] == '_' then ' ' else id[i]);
    WordsTrimmed(text);
    JoinTrimmed(Words(text), ' ');
  }

  lemma ValueTrimmed(m: Section, k: string, fallback: string)
    requires Trimmed(fallback)
    ensures Trimmed(ValueOr(m, k, fallback))
    ensures fallback != "" ==> ValueOr(m, k, fallback) != ""
    ensures CleanSection(m) && '\n' !in fallback ==> '\n' !in ValueOr(m, k, fallback)
  {
    TrimTrims(Lookup(m, k));
  }

  /** Whatever a well-formed section says, the backend read from it is storable. */
  lemma ReadIsStorable(id: string, m: Section)
    requires IsId(id) && CleanSection(m)
    ensures Storable(BackendFrom(id, m))
  {
    hide ValueOr, IntOr, BoolOr, EnvName, Humanize, CleanSection, Trimmed;
    HumanizeTrimmed(id);
    IdTrim(id);
    Fallbacks(id);
    ValueTrimmed(m, "display_name", Humanize(id));
    ValueTrimmed(m, "host", "127.0.0.1");
    ValueTrimmed(m, "fallback_backend", "");
    ValueTrimmed(m, "protection_profile", id);
    ValueTrimmed(m, "connection_mode", "transparent");
    ValueTrimmed(m, "backend_adapter", "proxy_only");
  }

  lemma Fallbacks(id: string)
    requires IsId(id)
    ensures Trimmed("127.0.0.1") && Trimmed("") && Trimmed(id) && Trimmed("transparent") && Trimmed("proxy_only")
  {
  }

  /** If a registry equals one read from a well-formed document, all its backends are storable. */
  lemma SameMeansStorable(e: Document, t: Registry)
    requires WellFormed(e) && Valid(t) && NormalForm(RegistryOf(e).backends) == NormalForm(t.backends)
    ensures AllStorable(t.backends)
  {
    hide Sorted, BackendFrom, ValidBackend, Storable, WellFormed, Find, IdOf, GetOr, IsRoutingMode, BackendSections;
    var bs, back := t.backends, RegistryOf(e).backends;
    SortedIdsAreIds(bs);
    SortedIdsAreIds(back);
    forall i | 0 <= i < |bs| ensures Storable(bs[i]) {
      FindUnique(bs, i);
      var j :| 0 <= j < |SortedIds(bs)| && SortedIds(bs)[j] == bs[i].id;
      assert NormalForm(bs)[j] == Clear(bs[i]);
      var r := Find(back, SortedIds(back)[j]);
      assert Clear(r) == Clear(bs[i]);
      ReadFromSection(e, r);
      ValidParts(bs[i]);
      var s :| s in e && r == BackendFrom(IdOf(s), e[s]);
      CleanSectionOf(e, s);
      BackendFromId(IdOf(s), e[s]);
      ReadIsStorable(r.id, e[s]);
      StorableAside(r, bs[i]);
    }
  }

  lemma BackendFromId(id: string, m: Section)
    ensures BackendFrom(id, m).id == id
  {
    hide ValueOr, IntOr, BoolOr, EnvName, Humanize;
  }

  lemma StorableAside(a: Backend, b: Backend)
    requires Clear(a) == Clear(b)
    ensures Storable(a) == Storable(b) && a.id == b.id
  {
    assert a.(secretEnv := "").displayName == b.(secretEnv := "").displayName;
  }

  lemma CleanSectionOf(e: Document, s: string)
    requires WellFormed(e) && s in e
    ensures CleanSection(e[s])
  {
    WellFormedClean(e);
  }

  lemma ReadFromSection(e: Document, r: Backend)
    requires r in RegistryOf(e).backends
    ensures exists s :: s in e && r == BackendFrom(IdOf(s), e[s])
  {
    hide BackendFrom, Sorted, IdOf, GetOr;
    SortedSorts(BackendSections(e));
    var sections := Sorted(BackendSections(e));
    assert forall s :: s in sections ==> s in Elements(sections);
    var j :| 0 <= j < |sections| && ReadSections(sections, e)[j] == r;
    assert sections[j] in Elements(sections);
  }

  // ---- when a save is kept -----------------------------------------------

  /** The file written by `saveTopology` can be read, and the registry found in it is the one saved. */
  ghost predicate ReadsBackSame(y: Layout, d: Document, t: Registry) {
    var read := Parse(Render(y, Apply(d, t)));
    read.Ok? && SameRegistry(RegistryOf(read.value), t)
  }

  /** The comparison after writing, made against the file, succeeds if and only if every backend is
      storable and every printed line fits the scanner. */
  lemma VerificationPasses(y: Layout, d: Document, t: Registry)
    requires Proper(y) && WellFormed(d) && Valid(t)
    ensures ReadsBackSame(y, d, t) <==> AllStorable(t.backends) && Printable(Apply(d, t))
    ensures ReadsBackSame(y, d, t) ==> Parse(Render(y, Apply(d, t))) == Ok(Apply(d, t))
  {
    hide Parse, Render, Apply, Valid, WellFormed, RegistryOf, NormalForm, Storable, Clean;
    var text := Render(y, Apply(d, t));
    if AllStorable(t.backends) && Printable(Apply(d, t)) {
      ApplyWellFormed(d, t);
      RoundTrip(y, Apply(d, t));
      StorableCanonical(t.backends);
      SameAfterReading(d, t);
    }
    if ReadsBackSame(y, d, t) {
      ParseWellFormed(text);
      SameMeansStorable(Parse(text).value, t);
      ApplyClean(d, t);
      if !Printable(Apply(d, t)) {
        var s, k :| s in Apply(d, t) && k in Apply(d, t)[s] && |k| + 3 + |Apply(d, t)[s][k]| > MAX_LINE;
        LongPairBreaksParse(y, Apply(d, t), s, k);
        assert false;
      }
    }
  }

  lemma StorableCanonical(bs: seq<Backend>)
    requires AllStorable(bs)
    ensures AllCanonical(bs)
  {
    hide Canonical;
  }

  /** The credential source a kept backend gets is empty or a proper variable name. */
  predicate SourcesOk(d: Document, bs: seq<Backend>) {
    forall i :: 0 <= i < |bs| ==> SourceOk(d, bs[i].id)
  }

  lemma NormalizeValid(b: Backend, secret: string)
    requires ValidBackend(b) && Canonical(b)
    ensures ValidBackend(Normalize(b, secret)) <==> EnvName(secret) == "" || IsEnvName(EnvName(secret))
  {
    hide EnvName, Trim, Trimmed, IsId, IsPlain, IsEnvName;
    NormalizeExact(b, secret);
    SameButSource(b, secret);
  }

  lemma SameButSource(b: Backend, secret: string)
    requires Clear(Normalize(b, secret)) == Clear(b)
    ensures Normalize(b, secret) == b.(secretEnv := EnvName(secret))
  {
    hide EnvName, Trim;
    assert Normalize(b, secret).(secretEnv := "") == b.(secretEnv := "");
    assert Normalize(b, secret).secretEnv == EnvName(secret);
  }

  predicate SourceOk(d: Document, id: string) {
    var e := EnvName(SecretFor(d, id));
    e == "" || IsEnvName(e)
  }

  /** Each backend read back is valid exactly when its credential source is proper. */
  lemma BackendsBackValid(d: Document, t: Registry)
    requires Valid(t) && AllCanonical(t.backends)
    ensures (forall j :: 0 <= j < |SortedBack(d, t.backends)| ==> ValidBackend(SortedBack(d, t.backends)[j]))
        <==> SourcesOk(d, t.backends)
  {
    hide Normalize, Canonical, ValidBackend, Sorted, SourceOk, IsRoutingMode, DistinctPorts;
    var bs, back, ids := t.backends, SortedBack(d, t.backends), SortedIds(t.backends);
    SortedBackIds(d, bs);
    SortedIdsAreIds(bs);
    forall j | 0 <= j < |back| ensures ValidBackend(back[j]) <==> SourceOk(d, ids[j]) {
      var i :| 0 <= i < |bs| && bs[i] == Find(bs, ids[j]);
      NormalizeValid(bs[i], SecretFor(d, ids[j]));
      SourceOkMeans(d, ids[j]);
    }
    forall j | 0 <= j < |back| && SourcesOk(d, bs) ensures SourceOk(d, ids[j]) {
      var i :| 0 <= i < |bs| && bs[i].id == ids[j];
    }
    forall i | 0 <= i < |bs| && (forall j :: 0 <= j < |back| ==> ValidBackend(back[j])) ensures SourceOk(d, bs[i].id) {
      var j :| 0 <= j < |ids| && ids[j] == bs[i].id;
      assert ValidBackend(back[j]);
    }
  }

  lemma SourceOkMeans(d: Document, id: string)
    ensures SourceOk(d, id) <==> EnvName(SecretFor(d, id)) == "" || IsEnvName(EnvName(SecretFor(d, id)))
  {
  }

  /** The registry read back passes validation exactly when the credential sources do. */
  lemma ReadBackValid(d: Document, t: Registry)
    requires Valid(t) && AllCanonical(t.backends)
    ensures Valid(RegistryOf(Apply(d, t))) <==> SourcesOk(d, t.backends)
  {
    hide Normalize, Canonical, ValidBackend, RegistryOf, Apply, Sorted, SourceOk, IsRoutingMode, DistinctPorts, Find;
    var bs, back, ids := t.backends, SortedBack(d, t.backends), SortedIds(t.backends);
    ReadApplied(d, t);
    SortedBackIds(d, bs);
    SortedIdsAreIds(bs);
    SortedBackPorts(d, t);
    BackendsBackValid(d, t);
    var p :| 0 <= p < |bs| && bs[p].id == t.primary;
    var q :| 0 <= q < |ids| && ids[q] == bs[p].id;
    assert back[q].id == t.primary;
  }

  lemma SortedBackPorts(d: Document, t: Registry)
    requires Valid(t)
    ensures DistinctPorts(SortedBack(d, t.backends))
  {
    hide Sorted, SecretFor, EnvName, Trim, ModeOf, AdapterOf, ValidBackend, IsRoutingMode;
    var bs, back, ids := t.backends, SortedBack(d, t.backends), SortedIds(t.backends);
    SortedBackIds(d, bs);
    SortedIdsAreIds(bs);
    forall i, j | 0 <= i < j < |back| && back[i].publicPort > 0 ensures back[i].publicPort != back[j].publicPort {
      var x :| 0 <= x < |bs| && bs[x] == Find(bs, ids[i]);
      var z :| 0 <= z < |bs| && bs[z] == Find(bs, ids[j]);
      assert ids[i] == back[i].id && ids[j] == back[j].id && ids[i] != ids[j];
      assert bs[x].publicPort == back[i].publicPort && bs[z].publicPort == back[j].publicPort;
    }
  }

  /** `saveTopology` keeps the new registry, rather than restoring the old file, if and only if every
      backend is storable, every line fits, and the stored credential sources are proper. */
  lemma SaveAndVerify(y: Layout, d: Document, t: Registry)
    requires Proper(y) && WellFormed(d) && Valid(t)
    ensures ReadsBackSame(y, d, t) && Valid(RegistryOf(Parse(Render(y, Apply(d, t))).value))
            <==> AllStorable(t.backends) && Printable(Apply(d, t)) && SourcesOk(d, t.backends)
  {
    hide Parse, Render, Apply, Valid, WellFormed, RegistryOf, NormalForm, Storable, SourcesOk, Printable, SameRegistry;
    VerificationPasses(y, d, t);
    if AllStorable(t.backends) && Printable(Apply(d, t)) {
      StorableCanonical(t.backends);
      ReadBackValid(d, t);
    }
  }

  /** A line break in the fallback field passes validation and breaks the save. */
  lemma LineBreakRollsBack(y: Layout, d: Document)
    requires Proper(y) && WellFormed(d)
    ensures var b := Backend("lobby", "Lobby", "127.0.0.1", 19132, 0, false, "x\ny", "lobby", true, "transparent",
        "proxy_only", true, false, 50, "");
            var t := Registry(SCHEMA_VERSION, "lobby", "primary", [b]);
            Valid(t) && AllCanonical(t.backends) && !ReadsBackSame(y, d, t)
  {
    var b := Backend("lobby", "Lobby", "127.0.0.1", 19132, 0, false, "x\ny", "lobby", true, "transparent",
        "proxy_only", true, false, 50, "");
    var t := Registry(SCHEMA_VERSION, "lobby", "primary", [b]);
    LobbyValid(b);
    assert t.backends[0].id == t.primary;
    assert "x\ny"[1] == '\n';
    assert !Storable(t.backends[0]);
    hide *;
    VerificationPasses(y, d, t);
  }

  lemma LobbyValid(b: Backend)
    requires b == Backend("lobby", "Lobby", "127.0.0.1", 19132, 0, false, "x\ny", "lobby", true, "transparent",
        "proxy_only", true, false, 50, "")
    ensures ValidBackend(b) && Canonical(b)
  {
    TrimIdentity("Lobby");
    TrimIdentity("127.0.0.1");
  }
}
