/** `renderUnifiedConfig` of dashboard/config.go, and the round trip through `parseINI`. */
module IniPrinter {
  import opened Text
  import opened Ini

  /** The fixed choices of the printer: comment lines on top, the sections printed first, and the
      keys printed first in each section. The results below hold for any such choice. */
  datatype Layout = Layout(header: seq<string>, standard: seq<string>, listed: string -> seq<string>)

  /** Headers are comments or blank lines. */
  ghost predicate Proper(y: Layout) {
    forall i :: 0 <= i < |y.header| ==> HeaderLine(y.header[i])
  }

  /** The items of `list` that belong to `keep`, in list order. */
  function Filter(list: seq<string>, keep: set<string>): (r: seq<string>)
    ensures forall x :: x in r <==> x in list && x in keep
  {
    if list == [] then [] else (if list[0] in keep then [list[0]] else []) + Filter(list[1..], keep)
  }

  /** Listed keys first, the remaining ones sorted. */
  ghost function KeyOrder(listed: seq<string>, m: Section): seq<string> {
    Filter(listed, m.Keys) + Sorted(m.Keys - Elements(listed))
  }

  lemma KeyOrderCovers(listed: seq<string>, m: Section)
    ensures Elements(KeyOrder(listed, m)) == m.Keys
  {
    var rest := Sorted(m.Keys - Elements(listed));
    SortedSorts(m.Keys - Elements(listed));
    assert forall x :: x in rest <==> x in Elements(rest);
    assert forall x :: x in listed <==> x in Elements(listed);
  }

  lemma KeyOrderKeys(listed: seq<string>, m: Section)
    ensures forall k :: k in KeyOrder(listed, m) ==> k in m
  {
    KeyOrderCovers(listed, m);
    assert forall k :: k in KeyOrder(listed, m) ==> k in Elements(KeyOrder(listed, m));
  }

  datatype Kind = BackendKind | ProfileKind | StandardKind | ExtraKind

  function KindOf(y: Layout, s: string): Kind {
    if HasPrefix(s, "backend.") then BackendKind
    else if HasPrefix(s, "profile.") then ProfileKind
    else if s in y.standard then StandardKind
    else ExtraKind
  }

  ghost function OfKind(y: Layout, names: set<string>, kind: Kind): set<string> {
    set s | s in names && KindOf(y, s) == kind
  }

  /** Standard sections in fixed order, then backends, profiles and the rest, each sorted. */
  ghost function Ordered(y: Layout, names: set<string>): seq<string> {
    y.standard + Sorted(OfKind(y, names, BackendKind)) + Sorted(OfKind(y, names, ProfileKind))
      + Sorted(OfKind(y, names, ExtraKind))
  }

  ghost function SectionOrder(y: Layout, d: Document): seq<string> {
    Filter(Ordered(y, d.Keys), d.Keys)
  }

  lemma SectionOrderCovers(y: Layout, d: Document)
    ensures Elements(SectionOrder(y, d)) == d.Keys
  {
    forall s | s in d ensures s in Ordered(y, d.Keys) {
      if KindOf(y, s) != StandardKind {
        var group := Sorted(OfKind(y, d.Keys, KindOf(y, s)));
        SortedSorts(OfKind(y, d.Keys, KindOf(y, s)));
        assert s in Elements(group);
      }
    }
  }

  ghost function KeyOrdersOf(y: Layout, d: Document): KeyOrders {
    map s | s in d :: KeyOrder(y.listed(s), d[s])
  }

  lemma KeyOrdersCover(y: Layout, d: Document)
    ensures Covers(KeyOrdersOf(y, d), d)
  {
    forall s | s in d ensures Elements(KeyOrdersOf(y, d)[s]) == d[s].Keys {
      KeyOrderCovers(y.listed(s), d[s]);
    }
  }

  /** What the printer writes. */
  ghost function RenderLines(y: Layout, d: Document): seq<string> {
    KeyOrdersCover(y, d);
    y.header + Blocks(SectionOrder(y, d), KeyOrdersOf(y, d), d, " ")
  }

  ghost function Render(y: Layout, d: Document): string {
    Unlines(RenderLines(y, d))
  }

  // ---- the round trip ----------------------------------------------------

  /** Every `key = value` line the printer writes fits the scanner. */
  ghost predicate Printable(d: Document) {
    forall s, k :: s in d && k in d[s] ==> |k| + 3 + |d[s][k]| <= MAX_LINE
  }

  lemma LongPairBreaksParse(y: Layout, d: Document, s: string, k: string)
    requires Proper(y) && Clean(d) && s in d && k in d[s] && |k| + 3 + |d[s][k]| > MAX_LINE
    ensures Parse(Render(y, d)).Err?
  {
    hide Parse, Blocks, SectionOrder, KeyOrdersOf, Clean;
    KeyOrdersCover(y, d);
    SectionOrderCovers(y, d);
    var orders, order := KeyOrdersOf(y, d), SectionOrder(y, d);
    assert forall x :: x in order <==> x in Elements(order);
    var i := LongPairLine(order, orders, d, s, k);
    BlocksLinesClean(order, orders, d, " ");
    LongTextFails(RenderLines(y, d), |y.header| + i);
  }

  lemma LongTextFails(lines: seq<string>, i: nat)
    requires (forall l :: l in lines ==> '\n' !in l) && i < |lines| && |lines[i]| > MAX_LINE
    ensures Parse(Unlines(lines)).Err?
  {
    SplitUnlines(lines);
    LongLineFails(ParseLine, MAX_LINE, START, lines + [""], 1, i);
  }

  lemma {:induction false} LongPairLine(order: seq<string>, orders: KeyOrders, d: Document, s: string, k: string)
    returns (i: nat)
    requires Covers(orders, d) && (forall x :: x in order ==> x in d) && s in order
    requires k in d[s] && |k| + 3 + |d[s][k]| > MAX_LINE
    ensures i < |Blocks(order, orders, d, " ")| && |Blocks(order, orders, d, " ")[i]| > MAX_LINE
  {
    var block := BlockOf(order[0], orders, d, " ");
    if order[0] == s {
      assert k in Elements(orders[s]);
      var j :| 0 <= j < |orders[s]| && orders[s][j] == k;
      i := 1 + j;
      assert block[i] == KeyLine(k, d[s][k], " ");
    } else {
      var j := LongPairLine(order[1..], orders, d, s, k);
      i := |block| + j;
    }
  }

  /** Saving and reloading: for every document the parser can return, printing and parsing gives
      it back if and only if every printed line fits the scanner. */
  lemma RoundTrip(y: Layout, d: Document)
    requires Proper(y) && WellFormed(d)
    ensures Parse(Render(y, d)) == Ok(d) <==> Printable(d)
    ensures !Printable(d) ==> Parse(Render(y, d)).Err?
  {
    KeyOrdersCover(y, d);
    SectionOrderCovers(y, d);
    if Printable(d) {
      ReadBack(MAX_LINE, y.header, SectionOrder(y, d), KeyOrdersOf(y, d), d, " ");
    } else {
      WellFormedClean(d);
      var s, k :| s in d && k in d[s] && |k| + 3 + |d[s][k]| > MAX_LINE;
      LongPairBreaksParse(y, d, s, k);
    }
  }

  /** A printed line is at most two characters longer than the shortest form the parser accepts, so a
      scanner with two more characters reads back every document. */
  lemma WiderRoundTrip(y: Layout, d: Document)
    requires Proper(y) && WellFormed(d)
    ensures ParseWithin(MAX_LINE + 2, Render(y, d)) == Ok(d)
  {
    hide ParseWithin, Blocks, SectionOrder, KeyOrdersOf, SectionName;
    KeyOrdersCover(y, d);
    SectionOrderCovers(y, d);
    forall s, k | s in d && k in d[s] ensures PairFits(MAX_LINE + 2, k, d[s][k], " ") {
      assert Pair(k, d[s][k]);
    }
    ReadBack(MAX_LINE + 2, y.header, SectionOrder(y, d), KeyOrdersOf(y, d), d, " ");
  }

  /** Hence the printed text determines the document, also where the parser rejects it. */
  lemma RenderInjective(y: Layout, d: Document, e: Document)
    requires Proper(y) && WellFormed(d) && WellFormed(e)
    requires Render(y, d) == Render(y, e)
    ensures d == e
  {
    hide *;
    WiderRoundTrip(y, d);
    WiderRoundTrip(y, e);
  }

  /** A line the parser accepts, but whose printed form it then rejects. */
  lemma RoundTripFails(y: Layout, v: string)
    requires Proper(y) && |v| == MAX_LINE - 2 && forall c :: c in v ==> c == 'x'
    ensures Parse("k=" + v).Ok? && Parse(Render(y, Parse("k=" + v).value)).Err?
  {
    var d: Document := map["edge" := map["k" := v]];
    var line := "k=" + v;
    assert ToLower("k") == "k";
    assert v[0] in v && v[|v| - 1] in v;
    assert Pair("k", v);
    assert line == KeyLine("k", v, "");
    IndexOfAbsent(line, '\n');
    assert Split(line, '\n') == [line];
    ParseKeyLine(START, "k", v, "", 1);
    assert Run(ParseLine, MAX_LINE, START, [line], 1) == Run(ParseLine, MAX_LINE, Put(START, "k", v), [line][1..], 2);
    assert Parse(line) == Ok(Put(START, "k", v).doc);
    ParseWellFormed(line);
    var e := Parse(line).value;
    assert "edge" in e && "k" in e["edge"] && e["edge"]["k"] == v;
    RoundTrip(y, e);
  }

  // ---- the printing loops ------------------------------------------------

  lemma {:induction false} UnlinesAppend(a: seq<string>, b: seq<string>)
    ensures Unlines(a + b) == Unlines(a) + Unlines(b)
  {
    if a == [] {
      assert a + b == b;
    } else {
      assert (a + b)[1..] == a[1..] + b;
      UnlinesAppend(a[1..], b);
    }
  }

  lemma {:induction false} FilterAppend(a: seq<string>, b: seq<string>, keep: set<string>)
    ensures Filter(a + b, keep) == Filter(a, keep) + Filter(b, keep)
  {
    if a == [] {
      assert a + b == b;
    } else {
      assert (a + b)[1..] == a[1..] + b;
      FilterAppend(a[1..], b, keep);
    }
  }

  lemma {:induction false} BlocksAppend(a: seq<string>, b: seq<string>, orders: KeyOrders, d: Document, pad: string)
    requires Covers(orders, d) && (forall s :: s in a ==> s in d) && (forall s :: s in b ==> s in d)
    ensures Blocks(a + b, orders, d, pad) == Blocks(a, orders, d, pad) + Blocks(b, orders, d, pad)
  {
    if a == [] {
      assert a + b == b;
    } else {
      assert (a + b)[1..] == a[1..] + b;
      BlocksAppend(a[1..], b, orders, d, pad);
    }
  }

  lemma SnocElements(q: seq<string>, x: string)
    requires |q| == |Elements(q)| && x !in Elements(q)
    ensures Elements(q + [x]) == Elements(q) + {x} && |q + [x]| == |Elements(q + [x])|
  {
  }

  lemma CollectStep(done: set<string>, listed: seq<string>, remaining: seq<string>, k: string)
    requires Elements(remaining) == done - Elements(listed) && |remaining| == |Elements(remaining)| && k !in done
    ensures var r := if k in listed then remaining else remaining + [k];
            Elements(r) == (done + {k}) - Elements(listed) && |r| == |Elements(r)|
  {
    SnocElements(remaining, k);
  }

  /** The keys outside the list, met in whatever order the map is walked, sorted. */
  method RemainingKeys(listed: seq<string>, m: Section) returns (remaining: seq<string>)
    ensures remaining == Sorted(m.Keys - Elements(listed))
  {
    hide Sorted, Elements;
    remaining := [];
    ghost var done: set<string> := {};
    NoElements(listed);
    var todo := m.Keys;
    while todo != {}
      invariant done + todo == m.Keys && done !! todo
      invariant Elements(remaining) == done - Elements(listed) && |remaining| == |Elements(remaining)|
      decreases |todo|
    {
      var k :| k in todo;
      CollectStep(done, listed, remaining, k);
      if k !in listed {
        remaining := remaining + [k];
      }
      todo, done := todo - {k}, done + {k};
    }
    assert done == m.Keys;
    remaining := SortStrings(remaining);
  }

  lemma NoElements(listed: seq<string>)
    ensures Elements([]) == {} - Elements(listed) && |Elements([])| == 0
  {
  }

  method RenderKeys(keys: seq<string>, m: Section) returns (text: string)
    requires forall k :: k in keys ==> k in m
    ensures text == Unlines(KeyLines(keys, m, " "))
  {
    hide KeyLine, Unlines;
    ghost var lines: seq<string> := [];
    text := "";
    AppendLine([], "");
    var i := 0;
    while i < |keys|
      invariant 0 <= i <= |keys|
      invariant lines == KeyLines(keys, m, " ")[..i]
      invariant text == Unlines(lines)
    {
      var line := KeyLine(keys[i], m[keys[i]], " ");
      AppendLine(lines, line);
      text := text + line + "\n";
      lines := lines + [line];
      i := i + 1;
    }
    assert lines == KeyLines(keys, m, " ");
  }

  /** One section: its header, the listed keys that are present, the others sorted, a blank line. */
  method RenderSection(y: Layout, s: string, m: Section) returns (text: string)
    ensures forall k :: k in KeyOrder(y.listed(s), m) ==> k in m
    ensures text == Unlines(Block(s, KeyOrder(y.listed(s), m), m, " "))
  {
    hide Sorted, Elements, Unlines, KeyLines;
    var listed := y.listed(s);
    KeyOrderKeys(listed, m);
    var remaining := RemainingKeys(listed, m);
    var keys := Filter(listed, m.Keys) + remaining;
    assert keys == KeyOrder(listed, m);
    var body := RenderKeys(keys, m);
    text := "[" + s + "]" + "\n" + body + "\n";
    BlockText("[" + s + "]", KeyLines(keys, m, " "));
  }

  lemma BlockText(head: string, body: seq<string>)
    ensures Unlines([head] + body + [""]) == head + "\n" + Unlines(body) + "\n"
  {
    AppendLine([head] + body, "");
    assert ([head] + body)[1..] == body;
  }

  lemma AppendLine(lines: seq<string>, line: string)
    ensures Unlines(lines + [line]) == Unlines(lines) + line + "\n"
    ensures Unlines([]) == ""
  {
    UnlinesAppend(lines, [line]);
    assert [line][1..] == [];
  }

  lemma GroupStep(y: Layout, done: set<string>, kind: Kind, names: seq<string>, s: string)
    requires Elements(names) == OfKind(y, done, kind) && |names| == |Elements(names)| && s !in done
    ensures var r := if KindOf(y, s) == kind then names + [s] else names;
            Elements(r) == OfKind(y, done + {s}, kind) && |r| == |Elements(r)|
  {
    hide KindOf;
    SnocElements(names, s);
  }

  lemma NoGroup(y: Layout, kind: Kind)
    ensures Elements([]) == OfKind(y, {}, kind) && |Elements([])| == 0
  {
  }

  /** The sections of one kind, met in whatever order the map is walked, sorted. */
  method Group(y: Layout, d: Document, kind: Kind) returns (names: seq<string>)
    ensures names == Sorted(OfKind(y, d.Keys, kind))
  {
    hide Sorted, Elements, OfKind, KindOf;
    names := [];
    ghost var done: set<string> := {};
    NoGroup(y, kind);
    var todo := d.Keys;
    while todo != {}
      invariant done + todo == d.Keys && done !! todo
      invariant Elements(names) == OfKind(y, done, kind) && |names| == |Elements(names)|
      decreases |todo|
    {
      var s :| s in todo;
      GroupStep(y, done, kind, names, s);
      if KindOf(y, s) == kind {
        names := names + [s];
      }
      todo, done := todo - {s}, done + {s};
    }
    assert done == d.Keys;
    names := SortStrings(names);
  }

  /** `renderUnifiedConfig`: the text is a function of the document, whatever the map order. */
  method RenderUnifiedConfig(y: Layout, d: Document) returns (output: string)
    ensures output == Render(y, d)
  {
    hide Unlines, Sorted, KeyOrder, OfKind, Blocks, KeyOrdersOf, Filter;
    var backends := Group(y, d, BackendKind);
    var profiles := Group(y, d, ProfileKind);
    var extras := Group(y, d, ExtraKind);
    output := RenderInOrder(y, d, y.standard + backends + profiles + extras);
  }

  /** The sections of a list that exist, one after the other. */
  method RenderInOrder(y: Layout, d: Document, ordered: seq<string>) returns (output: string)
    ensures Covers(KeyOrdersOf(y, d), d)
    ensures output == Unlines(y.header + Blocks(Filter(ordered, d.Keys), KeyOrdersOf(y, d), d, " "))
  {
    hide Unlines, KeyOrder, Blocks, KeyOrdersOf, Filter;
    ghost var orders := KeyOrdersOf(y, d);
    KeyOrdersCover(y, d);
    output := Unlines(y.header);
    NothingYet(y.header, orders, d);
    var i := 0;
    while i < |ordered|
      invariant 0 <= i <= |ordered|
      invariant output == Unlines(y.header + Blocks(Filter(ordered[..i], d.Keys), orders, d, " "))
    {
      var s := ordered[i];
      assert ordered[..i + 1] == ordered[..i] + [s];
      FilterStep(ordered[..i], s, d.Keys);
      if s in d {
        var text := RenderSection(y, s, d[s]);
        output := output + text;
        AppendBlock(y.header, orders, d, Filter(ordered[..i], d.Keys), s);
        BlockOfOrders(y, d, s);
      }
      i := i + 1;
    }
    assert ordered[..i] == ordered;
  }

  lemma NothingYet(header: seq<string>, orders: KeyOrders, d: Document)
    requires Covers(orders, d)
    ensures header + Blocks(Filter([], d.Keys), orders, d, " ") == header
  {
  }

  lemma FilterStep(a: seq<string>, s: string, keep: set<string>)
    ensures Filter(a + [s], keep) == if s in keep then Filter(a, keep) + [s] else Filter(a, keep)
  {
    FilterAppend(a, [s], keep);
    assert [s][1..] == [];
  }

  lemma BlockOfOrders(y: Layout, d: Document, s: string)
    requires Covers(KeyOrdersOf(y, d), d) && s in d
    ensures forall k :: k in KeyOrder(y.listed(s), d[s]) ==> k in d[s]
    ensures BlockOf(s, KeyOrdersOf(y, d), d, " ") == Block(s, KeyOrder(y.listed(s), d[s]), d[s], " ")
  {
    hide KeyOrder;
    KeyOrderKeys(y.listed(s), d[s]);
  }

  lemma Regroup(a: seq<string>, b: seq<string>, c: seq<string>)
    ensures Unlines(a + (b + c)) == Unlines(a + b) + Unlines(c)
  {
    UnlinesAppend(a + b, c);
    assert a + (b + c) == (a + b) + c;
  }

  lemma AppendBlock(header: seq<string>, orders: KeyOrders, d: Document, done: seq<string>, s: string)
    requires Covers(orders, d) && s in d && forall x :: x in done ==> x in d
    ensures Unlines(header + Blocks(done + [s], orders, d, " "))
         == Unlines(header + Blocks(done, orders, d, " ")) + Unlines(BlockOf(s, orders, d, " "))
  {
    BlocksAppend(done, [s], orders, d, " ");
    assert Blocks([s], orders, d, " ") == BlockOf(s, orders, d, " ") by { assert [s][1..] == []; }
    Regroup(header, Blocks(done, orders, d, " "), BlockOf(s, orders, d, " "));
  }

  // ---- the layout of dashboard/config.go ---------------------------------

  function EdgeHeader(): seq<string> {
    [Comment(Title()), Comment(Hint()), ""]
  }

  function Title(): (t: string)
    ensures |t| < 100 && '\n' !in t
  {
    " Ninj-OS Edge Fabric unified configuration"
  }

  function Hint(): (t: string)
    ensures |t| < 100 && '\n' !in t
  {
    " Use env:VARIABLE for secrets " + "stored in Pterodactyl Startup."
  }

  function Comment(text: string): string {
    "#" + text
  }

  function EdgeLayout(): Layout {
    Layout(EdgeHeader(),
           ["edge", "dashboard", "session_core", "companion", "transfer",
            "firewall", "incident", "health", "logging", "discord"],
           Listed)
  }

  /** The keys printed first, in this order, for each kind of section. */
  function Listed(s: string): seq<string> {
    if HasPrefix(s, "backend.") then
      ["display_name", "host", "backend_port", "public_port", "enabled", "fallback", "fallback_backend",
       "protection_profile", "connection_mode", "backend_adapter", "backend_online_mode",
       "require_proxy_identity", "capacity", "companion_secret"]
    else if HasPrefix(s, "profile.") then
      ["max_datagram_size", "max_packets_per_second_per_ip", "max_handshakes_per_minute",
       "max_sessions_per_ip", "allow_new_sessions_during_incident"]
    else if s == "edge" then
      ["config_version", "instance_name", "public_host", "primary_allocation_port",
       "managed_public_udp_ports", "primary_backend", "routing_mode"]
    else if s == "dashboard" then
      ["port", "public_host", "owner_username", "owner_token", "operator_token", "viewer_token",
       "metrics_token", "totp_secret", "session_minutes"]
    else if s == "session_core" then
      ["enabled", "version", "advertised_version", "protocol_capture_enabled", "protocol_capture_mode",
       "protocol_observation_max_bytes", "protocol_capture_packet_ids", "protocol_capture_max_packet_bytes",
       "protocol_capture_decode_failures", "listen_host", "internal_token", "motd", "sub_motd",
       "require_transfer_ticket", "command_prefix", "profiles_folder"]
    else if s == "companion" then
      ["default_secret", "presence_ttl_seconds", "capture_mode", "selected_packet_ids", "payload_limit",
       "redact_packet_ids", "queue_capacity", "batch_size", "flush_ms", "movement_sample_rate",
       "metrics_interval_ticks", "reconnect_seconds", "presence_enabled", "presence_include_address",
       "transfer_enabled", "drop_receive_ids", "drop_send_ids"]
    else if s == "transfer" then
      ["enabled", "public_host", "port_start", "port_end", "ticket_ttl_seconds", "require_source_ip"]
    else if s == "firewall" then
      ["enabled", "adaptive", "risk_decay_per_minute", "risk_warning_threshold", "risk_ban_threshold",
       "progressive_ban_seconds", "max_datagram_size", "max_packets_per_second_per_ip",
       "global_packets_per_second", "max_handshakes_per_minute", "max_sessions", "max_sessions_per_ip"]
    else if s == "incident" then
      ["enabled", "trigger_packets_per_second", "trigger_drop_ratio", "minimum_packets_per_second",
       "recovery_seconds", "rate_divisor", "handshake_divisor"]
    else if s == "health" then
      ["enabled", "interval_seconds", "timeout_ms", "failure_threshold", "recovery_threshold",
       "automatic_actions", "require_companion", "companion_stale_seconds", "degraded_after_seconds",
       "stable_recovery_seconds", "minimum_tps", "maximum_mspt"]
    else if s == "logging" then
      ["packet_capture", "capture_outgoing", "packet_hex_preview_bytes", "packet_log_max_bytes",
       "event_log_max_bytes", "audit_log_max_bytes", "metric_sample_seconds", "metric_retention_days"]
    else if s == "discord" then
      ["webhook_url", "bot_token", "channel_id", "summary_minutes"]
    else []
  }

  lemma CommentProper(text: string)
    requires |text| < 100 && '\n' !in text
    ensures HeaderLine(Comment(text))
  {
  }

  lemma EdgeHeaderProper()
    ensures forall i :: 0 <= i < |EdgeHeader()| ==> HeaderLine(EdgeHeader()[i])
  {
    hide Comment, Title, Hint;
    var title, hint := Title(), Hint();
    CommentProper(title);
    CommentProper(hint);
  }

  lemma EdgeLayoutProper()
    ensures Proper(EdgeLayout())
  {
    hide EdgeHeader, Listed;
    EdgeHeaderProper();
  }

  /** The round trip with the layout the dashboard uses. */
  lemma EdgeRoundTrip(d: Document)
    requires WellFormed(d)
    ensures Parse(Render(EdgeLayout(), d)) == Ok(d) <==> Printable(d)
  {
    hide *;
    EdgeLayoutProper();
    RoundTrip(EdgeLayout(), d);
  }
}
