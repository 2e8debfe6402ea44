/** The edge gateway's data (gateway/gateway.cpp) and the consistency conditions between its
    redundant structures, with one lemma for each kind of update the event handlers make. */
module GatewayState {
  import opened Text
  import RateWindow
  import Risk
  import Probe
  import Routing
  import Incident
  import Tickets
  import TransferProtocol

  // ---- addresses ---------------------------------------------------------

  datatype SockAddr = Inet(address: nat, port: nat) | Inet6(address: nat, port: nat, scope: nat)

  /** `EndpointKey`: a client address as seen by one listener. */
  datatype Endpoint = Endpoint(client: SockAddr, listener: nat)

  datatype Ip = Ip4(address: nat) | Ip6(address: nat, scope: nat)

  /** `IpKey::from`: an IPv4-mapped IPv6 address (::ffff:a.b.c.d) counts as the IPv4 one. */
  function IpOf(a: SockAddr): Ip {
    match a
    case Inet(address, _) => Ip4(address)
    case Inet6(address, _, scope) =>
      if address / 0x1_0000_0000 == 0xffff then Ip4(address % 0x1_0000_0000) else Ip6(address, scope)
  }

  // ---- records -----------------------------------------------------------

  datatype Session = Session(
    client: SockAddr, listener: nat, ip: Ip, backend: nat, ticketId: string,
    created: nat, lastActivity: nat, clientPackets: nat, serverPackets: nat)

  function EndpointOf(s: Session): Endpoint {
    Endpoint(s.client, s.listener)
  }

  datatype IpState = IpState(
    packets: RateWindow.Window, pings: RateWindow.Window, handshakes: RateWindow.Window,
    strikes: nat, activeSessions: nat, standing: Risk.Standing, totalDropped: nat)

  /** A record for an address seen for the first time. */
  function NewIpState(now: nat): IpState {
    IpState(RateWindow.Window(now, 0), RateWindow.Window(now, 0), RateWindow.Window(now, 0), 0, 0, Risk.CLEAN, 0)
  }

  datatype Backend = Backend(
    name: string, fallback: bool, profile: string, enabled: bool, prober: Probe.Prober,
    cachedPong: seq<nat>, activeSessions: nat)

  datatype Profile = Profile(
    maxDatagram: nat, maxPackets: nat, maxHandshakes: nat, maxSessionsPerIp: nat, allowDuringIncident: bool)

  datatype Config = Config(
    listenPort: nat,
    staticRoutes: map<nat, string>,
    primary: string,
    mode: Routing.Mode,
    transferEnabled: bool,
    ticketReload: nat,
    requireSourceIp: bool,
    view: Tickets.View,
    idleTimeout: nat,
    handshakeTimeout: nat,
    cleanupInterval: nat,
    maxSessions: nat,
    firewallEnabled: bool,
    risk: Risk.Policy,
    globalRate: nat,
    strikeLimit: nat,
    tempBan: nat,
    pingCacheEnabled: bool,
    pingLimit: nat,
    healthEnabled: bool,
    probing: Probe.Settings,
    incident: Incident.Settings,
    rateDivisor: nat,
    handshakeDivisor: nat,
    profiles: map<string, Profile>,
    defaultProfile: Profile)

  datatype Counters = Counters(
    clientPackets: nat, serverPackets: nat, dropped: nat, rateLimited: nat, temporaryBans: nat,
    cachedPongs: nat, sessionsOpened: nat, sessionsClosed: nat, ticketsConsumed: nat, ticketRejections: nat,
    warnings: nat, denylistDrops: nat, healthChecks: nat, healthFailures: nat, reloads: nat)

  const ZERO: Counters := Counters(0, 0, 0, 0, 0, 0, 0, 0, 0, 0, 0, 0, 0, 0, 0)

  function Closed(c: Counters): Counters {
    c.(sessionsClosed := c.sessionsClosed + 1)
  }

  function Opened(c: Counters): Counters {
    c.(sessionsOpened := c.sessionsOpened + 1)
  }

  const SECOND: nat := 1000
  const MINUTE: nat := 60000
  const STALE: nat := 900000

  function With<K, V>(m: map<K, V>, k: K, v: V): map<K, V> {
    m[k := v]
  }

  function Without<K, V>(m: map<K, V>, k: K): map<K, V> {
    m - {k}
  }

  lemma WithoutKeys<K, V>(m: map<K, V>, k: K)
    ensures Without(m, k).Keys == m.Keys - {k}
  {
  }

  // ---- sessions and their index ------------------------------------------

  /** The index by client and the session table are inverse to each other. */
  ghost predicate Links(sessions: map<int, Session>, byClient: map<Endpoint, int>) {
    && (forall fd :: fd in sessions ==>
          EndpointOf(sessions[fd]) in byClient && byClient[EndpointOf(sessions[fd])] == fd
          && sessions[fd].ip == IpOf(sessions[fd].client))
    && (forall e :: e in byClient ==> byClient[e] in sessions && EndpointOf(sessions[byClient[e]]) == e)
  }

  lemma LinksOpen(sessions: map<int, Session>, byClient: map<Endpoint, int>, fd: int, s: Session)
    requires Links(sessions, byClient) && fd !in sessions && EndpointOf(s) !in byClient && s.ip == IpOf(s.client)
    ensures Links(sessions[fd := s], byClient[EndpointOf(s) := fd])
  {
  }

  lemma LinksClose(sessions: map<int, Session>, byClient: map<Endpoint, int>, fd: int)
    requires Links(sessions, byClient) && fd in sessions
    ensures Links(sessions - {fd}, byClient - {EndpointOf(sessions[fd])})
  {
  }

  /** A session may change only its traffic figures. */
  predicate SameRoute(s: Session, t: Session) {
    s.client == t.client && s.listener == t.listener && s.ip == t.ip && s.backend == t.backend
  }

  lemma LinksTouch(sessions: map<int, Session>, byClient: map<Endpoint, int>, fd: int, s: Session)
    requires Links(sessions, byClient) && fd in sessions && SameRoute(sessions[fd], s)
    ensures Links(sessions[fd := s], byClient)
  {
  }

  // ---- session counts ----------------------------------------------------

  function FromIp(sessions: map<int, Session>, ip: Ip): set<int> {
    set fd | fd in sessions && sessions[fd].ip == ip
  }

  function OnBackend(sessions: map<int, Session>, b: nat): set<int> {
    set fd | fd in sessions && sessions[fd].backend == b
  }

  /** Every address and every backend counts exactly its own sessions. */
  ghost predicate Loads(sessions: map<int, Session>, ipStates: map<Ip, IpState>, backends: seq<Backend>) {
    && (forall ip :: ip in ipStates ==> ipStates[ip].activeSessions == |FromIp(sessions, ip)|)
    && (forall b: nat :: b < |backends| ==> backends[b].activeSessions == |OnBackend(sessions, b)|)
    && (forall fd :: fd in sessions ==> sessions[fd].ip in ipStates && sessions[fd].backend < |backends|)
  }

  function AddIp(ipStates: map<Ip, IpState>, ip: Ip, k: int): map<Ip, IpState>
    requires ip in ipStates && ipStates[ip].activeSessions + k >= 0
  {
    ipStates[ip := ipStates[ip].(activeSessions := ipStates[ip].activeSessions + k)]
  }

  lemma AddIpKeys(ipStates: map<Ip, IpState>, ip: Ip, k: int)
    requires ip in ipStates && ipStates[ip].activeSessions + k >= 0
    ensures AddIp(ipStates, ip, k).Keys == ipStates.Keys
  {
  }

  function AddBackend(backends: seq<Backend>, b: nat, k: int): seq<Backend>
    requires b < |backends| && backends[b].activeSessions + k >= 0
  {
    backends[b := backends[b].(activeSessions := backends[b].activeSessions + k)]
  }

  lemma LoadsOpen(sessions: map<int, Session>, ipStates: map<Ip, IpState>, backends: seq<Backend>, fd: int, s: Session)
    requires Loads(sessions, ipStates, backends) && fd !in sessions && s.ip in ipStates && s.backend < |backends|
    ensures Loads(sessions[fd := s], AddIp(ipStates, s.ip, 1), AddBackend(backends, s.backend, 1))
  {
    hide FromIp, OnBackend;
    var after := sessions[fd := s];
    forall ip ensures |FromIp(after, ip)| == |FromIp(sessions, ip)| + if ip == s.ip then 1 else 0 {
      FromIpInsert(sessions, fd, s, ip);
    }
    forall b: nat ensures |OnBackend(after, b)| == |OnBackend(sessions, b)| + if b == s.backend then 1 else 0 {
      OnBackendInsert(sessions, fd, s, b);
    }
  }

  lemma FromIpInsert(sessions: map<int, Session>, fd: int, s: Session, ip: Ip)
    requires fd !in sessions
    ensures |FromIp(sessions[fd := s], ip)| == |FromIp(sessions, ip)| + if ip == s.ip then 1 else 0
  {
    assert FromIp(sessions[fd := s], ip) == FromIp(sessions, ip) + if ip == s.ip then {fd} else {};
  }

  lemma OnBackendInsert(sessions: map<int, Session>, fd: int, s: Session, b: nat)
    requires fd !in sessions
    ensures |OnBackend(sessions[fd := s], b)| == |OnBackend(sessions, b)| + if b == s.backend then 1 else 0
  {
    assert OnBackend(sessions[fd := s], b) == OnBackend(sessions, b) + if b == s.backend then {fd} else {};
  }

  /** The counters a close decrements are positive, so its saturation tests never bite. */
  lemma LoadsPositive(sessions: map<int, Session>, ipStates: map<Ip, IpState>, backends: seq<Backend>, fd: int)
    requires Loads(sessions, ipStates, backends) && fd in sessions
    ensures sessions[fd].ip in ipStates && ipStates[sessions[fd].ip].activeSessions > 0
    ensures sessions[fd].backend < |backends| && backends[sessions[fd].backend].activeSessions > 0
  {
    assert fd in FromIp(sessions, sessions[fd].ip) && fd in OnBackend(sessions, sessions[fd].backend);
  }

  lemma LoadsClose(sessions: map<int, Session>, ipStates: map<Ip, IpState>, backends: seq<Backend>, fd: int)
    requires Loads(sessions, ipStates, backends) && fd in sessions
    ensures var s := sessions[fd];
            && s.ip in ipStates && ipStates[s.ip].activeSessions > 0
            && s.backend < |backends| && backends[s.backend].activeSessions > 0
            && Loads(sessions - {fd}, AddIp(ipStates, s.ip, -1), AddBackend(backends, s.backend, -1))
  {
    hide FromIp, OnBackend;
    LoadsPositive(sessions, ipStates, backends, fd);
    var s, after := sessions[fd], sessions - {fd};
    assert after[fd := s] == sessions;
    forall ip ensures |FromIp(sessions, ip)| == |FromIp(after, ip)| + if ip == s.ip then 1 else 0 {
      FromIpInsert(after, fd, s, ip);
    }
    forall b: nat ensures |OnBackend(sessions, b)| == |OnBackend(after, b)| + if b == s.backend then 1 else 0 {
      OnBackendInsert(after, fd, s, b);
    }
  }

  lemma LoadsTouch(sessions: map<int, Session>, ipStates: map<Ip, IpState>, backends: seq<Backend>, fd: int, s: Session)
    requires Loads(sessions, ipStates, backends) && fd in sessions && SameRoute(sessions[fd], s)
    ensures Loads(sessions[fd := s], ipStates, backends)
  {
    var after := sessions[fd := s];
    forall ip ensures FromIp(after, ip) == FromIp(sessions, ip) {}
    forall b: nat ensures OnBackend(after, b) == OnBackend(sessions, b) {}
  }

  /** A record may change freely except for its session count; a new record starts at none. */
  lemma LoadsIp(sessions: map<int, Session>, ipStates: map<Ip, IpState>, backends: seq<Backend>, ip: Ip, s: IpState)
    requires Loads(sessions, ipStates, backends)
    requires s.activeSessions == if ip in ipStates then ipStates[ip].activeSessions else 0
    ensures Loads(sessions, ipStates[ip := s], backends)
  {
    if ip !in ipStates {
      forall fd | fd in sessions ensures fd !in FromIp(sessions, ip) {
        assert sessions[fd].ip in ipStates;
      }
      assert FromIp(sessions, ip) == {};
    }
  }

  lemma LoadsEvict(sessions: map<int, Session>, ipStates: map<Ip, IpState>, backends: seq<Backend>, ip: Ip)
    requires Loads(sessions, ipStates, backends) && ip in ipStates && ipStates[ip].activeSessions == 0
    ensures Loads(sessions, ipStates - {ip}, backends)
  {
    forall fd | fd in sessions ensures sessions[fd].ip != ip {
      if sessions[fd].ip == ip { LoadsPositive(sessions, ipStates, backends, fd); }
    }
  }

  /** Backends may change except for their number and session counts. */
  lemma LoadsBackends(sessions: map<int, Session>, ipStates: map<Ip, IpState>, backends: seq<Backend>,
                      after: seq<Backend>)
    requires Loads(sessions, ipStates, backends) && |after| == |backends|
    requires forall b :: 0 <= b < |backends| ==> after[b].activeSessions == backends[b].activeSessions
    ensures Loads(sessions, ipStates, after)
  {
  }

  // ---- packet accounting -------------------------------------------------

  lemma SomeKey<V>(m: map<int, V>)
    requires |m| != 0
    ensures exists k :: k in m
  {
    if forall k :: k !in m { NoKey(m); }
  }

  lemma NoKey<V>(m: map<int, V>)
    requires forall k :: k !in m
    ensures |m| == 0
  {
    assert forall k :: k !in m.Keys;
    assert m.Keys == {};
  }

  /** Packets forwarded by the sessions in the table. */
  ghost function SumPackets(sessions: map<int, Session>): nat
    decreases |sessions|
  {
    if |sessions| == 0 then 0
    else
      var fd := AnyKey(sessions);
      sessions[fd].clientPackets + SumPackets(sessions - {fd})
  }

  ghost function AnyKey<V>(m: map<int, V>): (k: int)
    requires |m| != 0
    ensures k in m
  {
    SomeKey(m);
    var k :| k in m;
    k
  }

  /** One unfolding of the sum, at some session. */
  lemma SumUnfold(sessions: map<int, Session>) returns (g: int)
    requires |sessions| != 0
    ensures g in sessions && SumPackets(sessions) == sessions[g].clientPackets + SumPackets(sessions - {g})
  {
    g := AnyKey(sessions);
  }

  lemma {:induction false} SumRemove(sessions: map<int, Session>, fd: int)
    requires fd in sessions
    ensures SumPackets(sessions) == sessions[fd].clientPackets + SumPackets(sessions - {fd})
    decreases |sessions|
  {
    hide SumPackets;
    var g := SumUnfold(sessions);
    if g != fd {
      SumRemove(sessions - {g}, fd);
      SumRemove(sessions - {fd}, g);
      assert sessions - {g} - {fd} == sessions - {fd} - {g};
    }
  }

  lemma SumInsert(sessions: map<int, Session>, fd: int, s: Session)
    requires fd !in sessions
    ensures SumPackets(sessions[fd := s]) == SumPackets(sessions) + s.clientPackets
  {
    SumRemove(sessions[fd := s], fd);
    assert sessions[fd := s] - {fd} == sessions;
  }

  lemma SumTouch(sessions: map<int, Session>, fd: int, s: Session)
    requires fd in sessions
    ensures SumPackets(sessions[fd := s]) == SumPackets(sessions) + s.clientPackets - sessions[fd].clientPackets
  {
    SumRemove(sessions[fd := s], fd);
    SumRemove(sessions, fd);
    assert sessions[fd := s] - {fd} == sessions - {fd};
  }

  /** What left the gateway towards backends: by sessions still open and by sessions since closed. */
  ghost predicate Forwarding(sessions: map<int, Session>, forwarded: nat, retired: nat) {
    forwarded == retired + SumPackets(sessions)
  }

  /** Every datagram ended in exactly one way, except `pending` ones still being handled, and every
      session opened is either closed or in the table, which never exceeds its limit. */
  ghost predicate Books(c: Counters, open: nat, forwarded: nat, limit: nat, pending: nat) {
    && c.clientPackets == forwarded + c.cachedPongs + c.dropped + pending
    && c.sessionsOpened == c.sessionsClosed + open
    && open <= limit
  }

  // ---- rate windows ------------------------------------------------------

  /** All packets an address got past one rate check, and the largest limit applied to it. */
  datatype Passes = Passes(spans: seq<RateWindow.Span>, bound: nat)

  function PassesOf(log: map<Ip, Passes>, ip: Ip): Passes {
    if ip in log then log[ip] else Passes([], 0)
  }

  ghost predicate RatesOf(states: map<Ip, IpState>, ip: Ip, p: Passes, h: Passes, time: nat) {
    && RateWindow.SpansOk(p.spans, SECOND, p.bound) && RateWindow.SpansOk(h.spans, MINUTE, h.bound)
    && if ip in states then
         && states[ip].packets.start <= time && states[ip].handshakes.start <= time
         && RateWindow.Tied(p.spans, states[ip].packets, SECOND, p.bound)
         && RateWindow.Tied(h.spans, states[ip].handshakes, MINUTE, h.bound)
         && states[ip].handshakes.start < states[ip].packets.start + SECOND
       else
         RateWindow.Rested(p.spans, SECOND, time) && RateWindow.Rested(h.spans, MINUTE, time)
  }

  /** The live windows agree with the history, also for addresses that were forgotten. */
  ghost predicate Rates(states: map<Ip, IpState>, packets: map<Ip, Passes>, handshakes: map<Ip, Passes>, time: nat) {
    forall ip: Ip :: RatesOf(states, ip, PassesOf(packets, ip), PassesOf(handshakes, ip), time)
  }

  lemma RatesLater(states: map<Ip, IpState>, packets: map<Ip, Passes>, handshakes: map<Ip, Passes>, time: nat, now: nat)
    requires Rates(states, packets, handshakes, time) && time <= now
    ensures Rates(states, packets, handshakes, now)
  {
    forall ip: Ip ensures RatesOf(states, ip, PassesOf(packets, ip), PassesOf(handshakes, ip), now) {
      assert RatesOf(states, ip, PassesOf(packets, ip), PassesOf(handshakes, ip), time);
    }
  }

  predicate SameWindows(s: IpState, t: IpState) {
    s.packets == t.packets && s.handshakes == t.handshakes && s.pings == t.pings
  }

  lemma RatesIp(states: map<Ip, IpState>, packets: map<Ip, Passes>, handshakes: map<Ip, Passes>, time: nat, ip: Ip,
                s: IpState)
    requires Rates(states, packets, handshakes, time) && ip in states && SameWindows(states[ip], s)
    ensures Rates(states[ip := s], packets, handshakes, time)
  {
    forall i: Ip ensures RatesOf(states[ip := s], i, PassesOf(packets, i), PassesOf(handshakes, i), time) {
      assert RatesOf(states, i, PassesOf(packets, i), PassesOf(handshakes, i), time);
    }
  }

  /** The ping window plays no part in the other rates. */
  lemma RatesPing(states: map<Ip, IpState>, packets: map<Ip, Passes>, handshakes: map<Ip, Passes>, time: nat, ip: Ip,
                  w: RateWindow.Window)
    requires Rates(states, packets, handshakes, time) && ip in states
    ensures Rates(states[ip := states[ip].(pings := w)], packets, handshakes, time)
  {
    forall i: Ip ensures RatesOf(states[ip := states[ip].(pings := w)], i, PassesOf(packets, i),
        PassesOf(handshakes, i), time) {
      assert RatesOf(states, i, PassesOf(packets, i), PassesOf(handshakes, i), time);
    }
  }

  lemma RatesNew(states: map<Ip, IpState>, packets: map<Ip, Passes>, handshakes: map<Ip, Passes>, time: nat, ip: Ip)
    requires Rates(states, packets, handshakes, time) && ip !in states
    ensures Rates(states[ip := NewIpState(time)], packets, handshakes, time)
  {
    forall i: Ip ensures RatesOf(states[ip := NewIpState(time)], i, PassesOf(packets, i), PassesOf(handshakes, i),
        time) {
      assert RatesOf(states, i, PassesOf(packets, i), PassesOf(handshakes, i), time);
    }
  }

  /** An address may be forgotten once its packet window is long over: both histories are at rest. */
  lemma RatesEvict(states: map<Ip, IpState>, packets: map<Ip, Passes>, handshakes: map<Ip, Passes>, time: nat, ip: Ip)
    requires Rates(states, packets, handshakes, time) && ip in states && time > states[ip].packets.start + STALE
    ensures Rates(states - {ip}, packets, handshakes, time)
  {
    forall i: Ip ensures RatesOf(states - {ip}, i, PassesOf(packets, i), PassesOf(handshakes, i), time) {
      assert RatesOf(states, i, PassesOf(packets, i), PassesOf(handshakes, i), time);
    }
  }

  /** One packet check for an address. */
  ghost function LogPass(log: map<Ip, Passes>, ip: Ip, w: RateWindow.Window, now: nat, width: nat, limit: nat): map<Ip,
                         Passes> {
    var (w1, ok) := RateWindow.Admit(w, now, width, limit);
    var p := PassesOf(log, ip);
    log[ip := Passes(if ok then RateWindow.Logged(p.spans, w1.start, now) else p.spans, RateWindow.Max(p.bound, limit))]
  }

  lemma RatesPacket(states: map<Ip, IpState>, packets: map<Ip, Passes>, handshakes: map<Ip, Passes>, time: nat, ip: Ip,
                    limit: nat)
    requires Rates(states, packets, handshakes, time) && ip in states
    ensures var (w, _) := RateWindow.Admit(states[ip].packets, time, SECOND, limit);
            && Rates(states[ip := states[ip].(packets := w)],
                LogPass(packets, ip, states[ip].packets, time, SECOND, limit), handshakes, time)
            && states[ip].packets.start <= w.start && time < w.start + SECOND
  {
    hide RateWindow.Tied, RateWindow.SpansOk, RateWindow.Rested, RateWindow.Logged, RateWindow.Admit;
    var s, p := states[ip], PassesOf(packets, ip);
    assert RatesOf(states, ip, p, PassesOf(handshakes, ip), time);
    RateWindow.AdmitKeeps(p.spans, s.packets, time, SECOND, limit, p.bound);
    var (w, ok) := RateWindow.Admit(s.packets, time, SECOND, limit);
    var after, log := states[ip := s.(packets := w)], LogPass(packets, ip, s.packets, time, SECOND, limit);
    TiedSpans(PassesOf(log, ip).spans, w, SECOND, PassesOf(log, ip).bound);
    forall i: Ip ensures RatesOf(after, i, PassesOf(log, i), PassesOf(handshakes, i), time) {
      assert RatesOf(states, i, PassesOf(packets, i), PassesOf(handshakes, i), time);
    }
  }

  lemma TiedSpans(spans: seq<RateWindow.Span>, w: RateWindow.Window, width: nat, bound: nat)
    requires RateWindow.Tied(spans, w, width, bound)
    ensures RateWindow.SpansOk(spans, width, bound)
  {
  }

  lemma RatesHandshake(states: map<Ip, IpState>, packets: map<Ip, Passes>, handshakes: map<Ip, Passes>, time: nat,
                       ip: Ip, limit: nat)
    requires Rates(states, packets, handshakes, time) && ip in states && time < states[ip].packets.start + SECOND
    ensures var (w, _) := RateWindow.Admit(states[ip].handshakes, time, MINUTE, limit);
            Rates(states[ip := states[ip].(handshakes := w)], packets,
                LogPass(handshakes, ip, states[ip].handshakes, time, MINUTE, limit), time)
  {
    hide RateWindow.Tied, RateWindow.SpansOk, RateWindow.Rested, RateWindow.Logged, RateWindow.Admit;
    var s, h := states[ip], PassesOf(handshakes, ip);
    assert RatesOf(states, ip, PassesOf(packets, ip), h, time);
    RateWindow.AdmitKeeps(h.spans, s.handshakes, time, MINUTE, limit, h.bound);
    var (w, ok) := RateWindow.Admit(s.handshakes, time, MINUTE, limit);
    var after, log := states[ip := s.(handshakes := w)], LogPass(handshakes, ip, s.handshakes, time, MINUTE, limit);
    TiedSpans(PassesOf(log, ip).spans, w, MINUTE, PassesOf(log, ip).bound);
    forall i: Ip ensures RatesOf(after, i, PassesOf(packets, i), PassesOf(log, i), time) {
      assert RatesOf(states, i, PassesOf(packets, i), PassesOf(handshakes, i), time);
    }
  }

  /** In every consistent state: whatever the limits were, no address got more than twice the largest
      limit past the packet check in any second, nor past the handshake check in any minute, even if
      its record was dropped and created again in between. */
  lemma RateGuarantee(states: map<Ip, IpState>, packets: map<Ip, Passes>, handshakes: map<Ip, Passes>, time: nat,
                      ip: Ip, t: nat)
    requires Rates(states, packets, handshakes, time)
    ensures RateWindow.Passed(PassesOf(packets, ip).spans, t, t + SECOND) <= 2 * PassesOf(packets, ip).bound
    ensures RateWindow.Passed(PassesOf(handshakes, ip).spans, t, t + MINUTE) <= 2 * PassesOf(handshakes, ip).bound
  {
    assert RatesOf(states, ip, PassesOf(packets, ip), PassesOf(handshakes, ip), time);
    RateWindow.TwiceTheBound(PassesOf(packets, ip).spans, SECOND, PassesOf(packets, ip).bound, t);
    RateWindow.TwiceTheBound(PassesOf(handshakes, ip).spans, MINUTE, PassesOf(handshakes, ip).bound, t);
  }

  // ---- ping windows ------------------------------------------------------

  /** The ping window of an address agrees with the history of answered pings, and cannot outlive the packet
      window by which a record is judged stale. */
  ghost predicate PingsOf(states: map<Ip, IpState>, ip: Ip, p: Passes, time: nat) {
    && RateWindow.SpansOk(p.spans, SECOND, p.bound)
    && if ip in states then
         && states[ip].pings.start <= time && states[ip].pings.start < states[ip].packets.start + SECOND
         && RateWindow.Tied(p.spans, states[ip].pings, SECOND, p.bound)
       else RateWindow.Rested(p.spans, SECOND, time)
  }

  /** So for all addresses but the `loose` ones, whose pings were checked without a packet check before. */
  ghost predicate Pings(states: map<Ip, IpState>, log: map<Ip, Passes>, loose: set<Ip>, time: nat) {
    forall ip: Ip :: ip !in loose ==> PingsOf(states, ip, PassesOf(log, ip), time)
  }

  lemma PingsLater(states: map<Ip, IpState>, log: map<Ip, Passes>, loose: set<Ip>, time: nat, now: nat)
    requires Pings(states, log, loose, time) && time <= now
    ensures Pings(states, log, loose, now)
  {
    hide RateWindow.Tied, RateWindow.SpansOk;
    forall i: Ip | i !in loose ensures PingsOf(states, i, PassesOf(log, i), now) {
      assert PingsOf(states, i, PassesOf(log, i), time);
    }
  }

  /** A record may change if its ping window stays and its packet window does not go back. */
  lemma PingsIp(states: map<Ip, IpState>, log: map<Ip, Passes>, loose: set<Ip>, time: nat, ip: Ip, s: IpState)
    requires Pings(states, log, loose, time) && ip in states
    requires s.pings == states[ip].pings && s.packets.start >= states[ip].packets.start
    ensures Pings(states[ip := s], log, loose, time)
  {
    hide RateWindow.Tied, RateWindow.SpansOk, RateWindow.Rested;
    forall i: Ip | i !in loose ensures PingsOf(states[ip := s], i, PassesOf(log, i), time) {
      assert PingsOf(states, i, PassesOf(log, i), time);
    }
  }

  lemma PingsAdd(states: map<Ip, IpState>, log: map<Ip, Passes>, loose: set<Ip>, time: nat, ip: Ip, k: int)
    requires Pings(states, log, loose, time) && ip in states && states[ip].activeSessions + k >= 0
    ensures Pings(AddIp(states, ip, k), log, loose, time)
  {
    hide Pings;
    PingsIp(states, log, loose, time, ip, states[ip].(activeSessions := states[ip].activeSessions + k));
  }

  lemma PingsNew(states: map<Ip, IpState>, log: map<Ip, Passes>, loose: set<Ip>, time: nat, ip: Ip)
    requires Pings(states, log, loose, time) && ip !in states
    ensures Pings(states[ip := NewIpState(time)], log, loose, time)
  {
    hide RateWindow.SpansOk;
    forall i: Ip | i !in loose ensures PingsOf(states[ip := NewIpState(time)], i, PassesOf(log, i), time) {
      assert PingsOf(states, i, PassesOf(log, i), time);
    }
  }

  lemma PingsEvict(states: map<Ip, IpState>, log: map<Ip, Passes>, loose: set<Ip>, time: nat, ip: Ip)
    requires Pings(states, log, loose, time) && ip in states && time > states[ip].packets.start + STALE
    ensures Pings(states - {ip}, log, loose, time)
  {
    forall i: Ip | i !in loose ensures PingsOf(states - {ip}, i, PassesOf(log, i), time) {
      assert PingsOf(states, i, PassesOf(log, i), time);
    }
  }

  lemma PingsLoosen(states: map<Ip, IpState>, log: map<Ip, Passes>, loose: set<Ip>, time: nat, ip: Ip)
    requires Pings(states, log, loose, time)
    ensures Pings(states, log, loose + {ip}, time)
  {
    hide PingsOf;
  }

  /** One ping check; unless the address is loose, its packet window was checked just before. */
  lemma PingsCheck(states: map<Ip, IpState>, log: map<Ip, Passes>, loose: set<Ip>, time: nat, ip: Ip, limit: nat)
    requires Pings(states, log, loose, time) && ip in states
    requires ip !in loose ==> time < states[ip].packets.start + SECOND
    ensures var (w, _) := RateWindow.Admit(states[ip].pings, time, SECOND, limit);
            Pings(states[ip := states[ip].(pings := w)], LogPass(log, ip, states[ip].pings, time, SECOND, limit),
                loose, time)
  {
    hide RateWindow.Tied, RateWindow.SpansOk, RateWindow.Rested, RateWindow.Logged, RateWindow.Admit;
    var s, p := states[ip], PassesOf(log, ip);
    var (w, ok) := RateWindow.Admit(s.pings, time, SECOND, limit);
    var after, logged := states[ip := s.(pings := w)], LogPass(log, ip, s.pings, time, SECOND, limit);
    if ip !in loose {
      assert PingsOf(states, ip, p, time);
      RateWindow.AdmitKeeps(p.spans, s.pings, time, SECOND, limit, p.bound);
      TiedSpans(PassesOf(logged, ip).spans, w, SECOND, PassesOf(logged, ip).bound);
    }
    forall i: Ip | i !in loose ensures PingsOf(after, i, PassesOf(logged, i), time) {
      assert PingsOf(states, i, PassesOf(log, i), time);
    }
  }

  lemma PingsFresh(bans: map<Ip, Risk.Standing>, now: nat)
    ensures Pings(Restored(bans, now), map[], {}, now)
  {
    forall ip: Ip ensures PingsOf(Restored(bans, now), ip, PassesOf(map[], ip), now) {
    }
  }

  lemma PingGuarantee(states: map<Ip, IpState>, log: map<Ip, Passes>, loose: set<Ip>, time: nat, ip: Ip, t: nat)
    requires Pings(states, log, loose, time) && ip !in loose
    ensures RateWindow.Passed(PassesOf(log, ip).spans, t, t + SECOND) <= 2 * PassesOf(log, ip).bound
  {
    hide RateWindow.Tied, RateWindow.SpansOk, RateWindow.Rested, RateWindow.Passed;
    assert PingsOf(states, ip, PassesOf(log, ip), time);
    RateWindow.TwiceTheBound(PassesOf(log, ip).spans, SECOND, PassesOf(log, ip).bound, t);
  }

  // ---- health probes, incident mode, tickets ------------------------------

  ghost predicate Probes(backends: seq<Backend>, logs: seq<Probe.History>, s: Probe.Settings) {
    && |logs| == |backends|
    && forall b :: 0 <= b < |backends| ==>
         && Probe.Counts(backends[b].prober, logs[b])
         && (s.timeout <= s.interval ==> Probe.Resolved(backends[b].prober, logs[b]))
  }

  lemma ProbesSame(backends: seq<Backend>, logs: seq<Probe.History>, s: Probe.Settings, after: seq<Backend>)
    requires Probes(backends, logs, s) && |after| == |backends|
    requires forall b :: 0 <= b < |backends| ==> after[b].prober == backends[b].prober
    ensures Probes(after, logs, s)
  {
  }

  lemma ProbesSet(backends: seq<Backend>, logs: seq<Probe.History>, s: Probe.Settings, b: nat, x: Backend,
                  h: Probe.History)
    requires Probes(backends, logs, s) && b < |backends|
    requires Probe.Counts(x.prober, h) && (s.timeout <= s.interval ==> Probe.Resolved(x.prober, h))
    ensures Probes(backends[b := x], logs[b := h], s)
  {
  }

  /** The totals seen at the last incident check never run ahead, and between checks drops never
      outnumber packets. */
  ghost predicate Incidents(m: Incident.Mode, log: seq<Incident.Checked>, c: Counters, pending: nat) {
    && Incident.Inv(m, log)
    && m.lastPackets <= c.clientPackets && m.lastDrops <= c.dropped
    && c.dropped - m.lastDrops + pending <= c.clientPackets - m.lastPackets
  }

  lemma BooksClose(sessions: map<int, Session>, fd: int, c: Counters, forwarded: nat, limit: nat, pending: nat,
                   m: Incident.Mode, log: seq<Incident.Checked>)
    requires fd in sessions && Books(c, |sessions|, forwarded, limit, pending) && Incidents(m, log, c, pending)
    ensures Books(Closed(c), |Without(sessions, fd)|, forwarded, limit, pending)
    ensures Incidents(m, log, Closed(c), pending)
  {
    hide Incident.Inv;
    assert (sessions - {fd}).Keys == sessions.Keys - {fd};
  }

  ghost predicate TicketTable(tickets: Tickets.Table, view: Tickets.View, n: nat) {
    && (forall p :: p in tickets ==> tickets[p].backend < n)
    && (forall d :: d in view.backendIndex ==> view.backendIndex[d] < n)
  }

  // ---- everything that hangs on the session table -------------------------

  /** The session table, its index, all session counts and the packet sums agree. */
  ghost predicate Tables(sessions: map<int, Session>, byClient: map<Endpoint, int>, ipStates: map<Ip, IpState>,
                         backends: seq<Backend>,
                         forwarded: nat, retired: nat) {
    Links(sessions, byClient) && Loads(sessions, ipStates, backends) && Forwarding(sessions, forwarded, retired)
  }

  lemma TablesOpen(sessions: map<int, Session>, byClient: map<Endpoint, int>, ipStates: map<Ip, IpState>,
                   backends: seq<Backend>,
                   forwarded: nat, retired: nat, fd: int, s: Session)
    requires Tables(sessions, byClient, ipStates, backends, forwarded, retired)
    requires fd !in sessions && EndpointOf(s) !in byClient && s.ip == IpOf(s.client) && s.ip in ipStates
    requires s.backend < |backends| && s.clientPackets == 0
    ensures Tables(sessions[fd := s], byClient[EndpointOf(s) := fd], AddIp(ipStates, s.ip, 1),
        AddBackend(backends, s.backend, 1), forwarded, retired)
    ensures |sessions[fd := s]| == |sessions| + 1
  {
    hide Links, Loads, SumPackets, AddIp, AddBackend, IpOf, EndpointOf;
    LinksOpen(sessions, byClient, fd, s);
    LoadsOpen(sessions, ipStates, backends, fd, s);
    SumInsert(sessions, fd, s);
    assert sessions[fd := s].Keys == sessions.Keys + {fd};
  }

  lemma TablesTouch(sessions: map<int, Session>, byClient: map<Endpoint, int>, ipStates: map<Ip, IpState>,
                    backends: seq<Backend>,
                    forwarded: nat, retired: nat, fd: int, s: Session)
    requires Tables(sessions, byClient, ipStates, backends, forwarded, retired) && fd in sessions
        && SameRoute(sessions[fd], s)
    requires s.clientPackets >= sessions[fd].clientPackets
    ensures Tables(sessions[fd := s], byClient, ipStates, backends,
        forwarded + s.clientPackets - sessions[fd].clientPackets, retired)
    ensures |sessions[fd := s]| == |sessions|
  {
    hide Links, Loads, SumPackets, SameRoute;
    LinksTouch(sessions, byClient, fd, s);
    LoadsTouch(sessions, ipStates, backends, fd, s);
    SumTouch(sessions, fd, s);
    assert sessions[fd := s].Keys == sessions.Keys;
  }

  lemma TablesClose(sessions: map<int, Session>, byClient: map<Endpoint, int>, ipStates: map<Ip, IpState>,
                    backends: seq<Backend>,
                    forwarded: nat, retired: nat, fd: int)
    requires Tables(sessions, byClient, ipStates, backends, forwarded, retired) && fd in sessions
    ensures var s := sessions[fd];
            && s.ip in ipStates && ipStates[s.ip].activeSessions > 0
            && s.backend < |backends| && backends[s.backend].activeSessions > 0
            && Tables(Without(sessions, fd), Without(byClient, EndpointOf(s)), AddIp(ipStates, s.ip, -1),
                AddBackend(backends, s.backend, -1),
                      forwarded, retired + s.clientPackets)
  {
    hide Links, Loads, SumPackets, AddIp, AddBackend, EndpointOf;
    LinksClose(sessions, byClient, fd);
    LoadsClose(sessions, ipStates, backends, fd);
    SumRemove(sessions, fd);
  }

  lemma TablesIp(sessions: map<int, Session>, byClient: map<Endpoint, int>, ipStates: map<Ip, IpState>,
                 backends: seq<Backend>,
                 forwarded: nat, retired: nat, ip: Ip, s: IpState)
    requires Tables(sessions, byClient, ipStates, backends, forwarded, retired)
    requires s.activeSessions == if ip in ipStates then ipStates[ip].activeSessions else 0
    ensures Tables(sessions, byClient, ipStates[ip := s], backends, forwarded, retired)
  {
    hide Loads;
    LoadsIp(sessions, ipStates, backends, ip, s);
  }

  lemma TablesEvict(sessions: map<int, Session>, byClient: map<Endpoint, int>, ipStates: map<Ip, IpState>,
                    backends: seq<Backend>,
                    forwarded: nat, retired: nat, ip: Ip)
    requires Tables(sessions, byClient, ipStates, backends, forwarded, retired) && ip in ipStates
        && ipStates[ip].activeSessions == 0
    ensures Tables(sessions, byClient, ipStates - {ip}, backends, forwarded, retired)
  {
    hide Loads;
    LoadsEvict(sessions, ipStates, backends, ip);
  }

  lemma TablesBackends(sessions: map<int, Session>, byClient: map<Endpoint, int>, ipStates: map<Ip, IpState>,
                       backends: seq<Backend>,
                       forwarded: nat, retired: nat, after: seq<Backend>)
    requires Tables(sessions, byClient, ipStates, backends, forwarded, retired) && |after| == |backends|
    requires forall b :: 0 <= b < |backends| ==> after[b].activeSessions == backends[b].activeSessions
    ensures Tables(sessions, byClient, ipStates, after, forwarded, retired)
  {
    hide Loads;
    LoadsBackends(sessions, ipStates, backends, after);
  }

  /** A new session is in both tables and in all counts. */
  predicate Entered(s0: map<int, Session>, s1: map<int, Session>, b0: map<Endpoint, int>, b1: map<Endpoint, int>,
                    i0: map<Ip, IpState>, i1: map<Ip, IpState>, k0: seq<Backend>, k1: seq<Backend>, c0: Counters,
                        c1: Counters,
                    fd: int, s: Session) {
    && s.ip in i0 && s.backend < |k0|
    && s1 == With(s0, fd, s) && b1 == With(b0, EndpointOf(s), fd)
    && i1 == AddIp(i0, s.ip, 1) && k1 == AddBackend(k0, s.backend, 1) && c1 == Opened(c0)
  }

  lemma EnteredSo(s0: map<int, Session>, b0: map<Endpoint, int>, i0: map<Ip, IpState>, k0: seq<Backend>, c0: Counters,
                  fd: int, s: Session)
    requires s.ip in i0 && s.backend < |k0|
    ensures Entered(s0, With(s0, fd, s), b0, With(b0, EndpointOf(s), fd), i0, AddIp(i0, s.ip, 1), k0,
        AddBackend(k0, s.backend, 1),
                    c0, Opened(c0), fd, s)
  {
  }

  /** A session is gone from both tables and from all counts, which were positive. */
  predicate Left(s0: map<int, Session>, s1: map<int, Session>, b0: map<Endpoint, int>, b1: map<Endpoint, int>,
                 i0: map<Ip, IpState>, i1: map<Ip, IpState>, k0: seq<Backend>, k1: seq<Backend>, c0: Counters,
                     c1: Counters, fd: int) {
    && fd in s0 && s1 == Without(s0, fd) && b1 == Without(b0, EndpointOf(s0[fd]))
    && s0[fd].ip in i0 && i0[s0[fd].ip].activeSessions > 0 && i1 == AddIp(i0, s0[fd].ip, -1)
    && s0[fd].backend < |k0| && k0[s0[fd].backend].activeSessions > 0 && k1 == AddBackend(k0, s0[fd].backend, -1)
    && c1 == Closed(c0)
  }

  lemma LeftSo(s0: map<int, Session>, b0: map<Endpoint, int>, i0: map<Ip, IpState>, k0: seq<Backend>, c0: Counters,
               fd: int)
    requires fd in s0 && s0[fd].ip in i0 && i0[s0[fd].ip].activeSessions > 0
    requires s0[fd].backend < |k0| && k0[s0[fd].backend].activeSessions > 0
    ensures Left(s0, Without(s0, fd), b0, Without(b0, EndpointOf(s0[fd])), i0, AddIp(i0, s0[fd].ip, -1),
                 k0, AddBackend(k0, s0[fd].backend, -1), c0, Closed(c0), fd)
  {
  }

  /** Changing a session count touches neither rates nor probes. */
  lemma CountsAside(ipStates: map<Ip, IpState>, packets: map<Ip, Passes>, handshakes: map<Ip, Passes>, time: nat,
                    ip: Ip,
                    backends: seq<Backend>, logs: seq<Probe.History>, p: Probe.Settings, b: nat, k: int)
    requires Rates(ipStates, packets, handshakes, time) && ip in ipStates && ipStates[ip].activeSessions + k >= 0
    requires Probes(backends, logs, p) && b < |backends| && backends[b].activeSessions + k >= 0
    ensures Rates(AddIp(ipStates, ip, k), packets, handshakes, time) && Probes(AddBackend(backends, b, k), logs, p)
    ensures |AddBackend(backends, b, k)| == |backends|
  {
    hide Rates, Probes;
    RatesIp(ipStates, packets, handshakes, time, ip, ipStates[ip].(activeSessions := ipStates[ip].activeSessions + k));
    ProbesSame(backends, logs, p, AddBackend(backends, b, k));
  }

  // ---- ban ladders -------------------------------------------------------

  function LadderAt(ladders: map<Ip, Risk.Ladder>, ip: Ip): Risk.Ladder {
    if ip in ladders then ladders[ip] else Risk.GROUND
  }

  /** The ban level of every record is explained by its bans since it was created or reset, and no risk
      score is negative. */
  ghost predicate Ladders(states: map<Ip, IpState>, ladders: map<Ip, Risk.Ladder>) {
    && ladders.Keys <= states.Keys
    && (forall ip :: ip in states ==> Risk.OnLadder(LadderAt(ladders, ip), states[ip].standing.banLevel))
    && (forall ip :: ip in states ==> states[ip].standing.score >= 0)
  }

  /** A change of a record that keeps its ban level and does not make its score negative. */
  predicate SameLevel(s: IpState, t: IpState) {
    t.standing.banLevel == s.standing.banLevel && (t.standing.score == s.standing.score || t.standing.score >= 0)
  }

  lemma LaddersIp(states: map<Ip, IpState>, ladders: map<Ip, Risk.Ladder>, ip: Ip, s: IpState)
    requires Ladders(states, ladders)
    requires if ip in states then SameLevel(states[ip], s) else s.standing.banLevel == 0 && s.standing.score >= 0
    ensures Ladders(states[ip := s], ladders)
  {
    hide Risk.OnLadder;
    Risk.GroundLevel();
  }

  lemma LaddersClimb(states: map<Ip, IpState>, ladders: map<Ip, Risk.Ladder>, ip: Ip, s: IpState, l: Risk.Ladder)
    requires Ladders(states, ladders) && Risk.OnLadder(l, s.standing.banLevel) && s.standing.score >= 0
    ensures Ladders(states[ip := s], ladders[ip := l])
  {
    hide Risk.OnLadder;
  }

  lemma LaddersEvict(states: map<Ip, IpState>, ladders: map<Ip, Risk.Ladder>, ip: Ip)
    requires Ladders(states, ladders)
    ensures Ladders(states - {ip}, ladders - {ip})
  {
    hide Risk.OnLadder;
  }

  lemma LaddersAdd(states: map<Ip, IpState>, ladders: map<Ip, Risk.Ladder>, ip: Ip, k: int)
    requires Ladders(states, ladders) && ip in states && states[ip].activeSessions + k >= 0
    ensures Ladders(AddIp(states, ip, k), ladders)
  {
    hide Risk.OnLadder;
  }

  /** Restored records start at the level they were saved with. */
  function Rungs(bans: map<Ip, Risk.Standing>): map<Ip, Risk.Ladder> {
    map ip | ip in bans :: Risk.Ladder(bans[ip].banLevel, [])
  }

  lemma LaddersFresh(bans: map<Ip, Risk.Standing>, now: nat)
    requires forall ip :: ip in bans ==> bans[ip].score >= 0
    ensures Ladders(Restored(bans, now), Rungs(bans))
  {
    forall ip | ip in bans ensures Risk.OnLadder(LadderAt(Rungs(bans), ip), bans[ip].banLevel) {
      assert Rungs(bans)[ip].bans == [];
    }
  }

  // ---- the ticket protocol -----------------------------------------------

  /** The gateway holds its side of the protocol, and the protocol is in order. */
  ghost predicate TicketWorld(w: TransferProtocol.World, tickets: Tickets.Table, spent: set<string>,
                              view: Tickets.View, enabled: bool) {
    && w.table == tickets && w.spent == spent && w.view == view
    && (!enabled ==> tickets == map[])
    && TransferProtocol.Inv(w)
  }

  /** Settings every way of loading the configuration enforces, and divisors of at least 1. */
  predicate Sound(c: Config) {
    c.risk.Valid() && c.rateDivisor >= 1 && c.handshakeDivisor >= 1
  }

  // ---- the whole state ----------------------------------------------------

  /** Everything the gateway keeps agrees; `pending` datagrams are still being handled. */
  ghost predicate Agree(sessions: map<int, Session>, byClient: map<Endpoint, int>, ipStates: map<Ip, IpState>,
                        backends: seq<Backend>,
                        forwarded: nat, retired: nat, c: Counters, config: Config, packets: map<Ip, Passes>,
                            handshakes: map<Ip, Passes>, time: nat,
                        logs: seq<Probe.History>, m: Incident.Mode, log: seq<Incident.Checked>, tickets: Tickets.Table,
                            pending: nat) {
    && Tables(sessions, byClient, ipStates, backends, forwarded, retired)
    && Books(c, |sessions|, forwarded, config.maxSessions, pending)
    && Rates(ipStates, packets, handshakes, time)
    && Probes(backends, logs, config.probing)
    && Incidents(m, log, c, pending)
    && TicketTable(tickets, config.view, |backends|)
    && Sound(config)
  }

  lemma AgreeOpen(sessions: map<int, Session>, byClient: map<Endpoint, int>, ipStates: map<Ip, IpState>,
                  backends: seq<Backend>,
                        forwarded: nat, retired: nat, c: Counters, config: Config, packets: map<Ip, Passes>,
                            handshakes: map<Ip, Passes>, time: nat,
                        logs: seq<Probe.History>, m: Incident.Mode, log: seq<Incident.Checked>, tickets: Tickets.Table,
                            pending: nat, fd: int, s: Session)
    requires Agree(sessions, byClient, ipStates, backends, forwarded, retired, c, config, packets, handshakes, time,
        logs, m, log, tickets, pending)
    requires fd !in sessions && EndpointOf(s) !in byClient && s.ip == IpOf(s.client) && s.ip in ipStates
    requires s.backend < |backends| && s.clientPackets == 0 && |sessions| < config.maxSessions
    ensures Agree(With(sessions, fd, s), With(byClient, EndpointOf(s), fd), AddIp(ipStates, s.ip, 1),
        AddBackend(backends, s.backend, 1),
                  forwarded, retired, Opened(c), config, packets, handshakes, time, logs, m, log, tickets, pending)
  {
    hide Tables, Rates, Probes, Sound, TicketTable, AddIp, AddBackend, IpOf, EndpointOf, Incident.Inv;
    TablesOpen(sessions, byClient, ipStates, backends, forwarded, retired, fd, s);
    CountsAside(ipStates, packets, handshakes, time, s.ip, backends, logs, config.probing, s.backend, 1);
  }

  lemma AgreeClose(sessions: map<int, Session>, byClient: map<Endpoint, int>, ipStates: map<Ip, IpState>,
                   backends: seq<Backend>,
                        forwarded: nat, retired: nat, c: Counters, config: Config, packets: map<Ip, Passes>,
                            handshakes: map<Ip, Passes>, time: nat,
                        logs: seq<Probe.History>, m: Incident.Mode, log: seq<Incident.Checked>, tickets: Tickets.Table,
                            pending: nat, fd: int)
    requires Agree(sessions, byClient, ipStates, backends, forwarded, retired, c, config, packets, handshakes, time,
        logs, m, log, tickets, pending)
    requires fd in sessions
    ensures var s := sessions[fd];
            && s.ip in ipStates && ipStates[s.ip].activeSessions > 0
            && s.backend < |backends| && backends[s.backend].activeSessions > 0
            && Agree(Without(sessions, fd), Without(byClient, EndpointOf(s)), AddIp(ipStates, s.ip, -1),
                AddBackend(backends, s.backend, -1),
                     forwarded, retired + s.clientPackets, Closed(c), config,
                     packets, handshakes, time, logs, m, log, tickets, pending)
  {
    hide Tables, Books, Rates, Probes, Incidents, Sound, TicketTable, AddIp, AddBackend, EndpointOf, Without;
    TablesClose(sessions, byClient, ipStates, backends, forwarded, retired, fd);
    CountsAside(ipStates, packets, handshakes, time, sessions[fd].ip, backends, logs, config.probing,
        sessions[fd].backend, -1);
    BooksClose(sessions, fd, c, forwarded, config.maxSessions, pending, m, log);
  }

  predicate IsFresh(b: Backend) {
    b.activeSessions == 0 && b.prober == Probe.Fresh(b.prober.lastAttempt)
  }

  /** Records restored from the ban file. */
  function Restored(bans: map<Ip, Risk.Standing>, now: nat): map<Ip, IpState> {
    map ip | ip in bans :: NewIpState(now).(standing := bans[ip])
  }

  lemma AgreeFresh(c: Config, bs: seq<Backend>, bans: map<Ip, Risk.Standing>, now: nat)
    requires Sound(c) && forall b :: 0 <= b < |bs| ==> IsFresh(bs[b])
    requires forall d :: d in c.view.backendIndex ==> c.view.backendIndex[d] < |bs|
    ensures Agree(map[], map[], Restored(bans, now), bs, 0, 0, ZERO, c, map[], map[], now,
                  seq(|bs|, _ => Probe.NONE), Incident.Calm(now), [], map[], 0)
  {
    hide Tables, Rates, Probes, Restored, Sound;
    TablesFresh(bs, bans, now);
    RatesFresh(bans, now);
    ProbesFresh(bs, c.probing);
  }

  lemma TablesFresh(bs: seq<Backend>, bans: map<Ip, Risk.Standing>, now: nat)
    requires forall b :: 0 <= b < |bs| ==> IsFresh(bs[b])
    ensures Tables(map[], map[], Restored(bans, now), bs, 0, 0)
  {
    var none: map<int, Session> := map[];
    assert SumPackets(none) == 0;
    forall b: nat ensures |OnBackend(none, b)| == 0 { assert OnBackend(none, b) == {}; }
    forall ip ensures |FromIp(none, ip)| == 0 { assert FromIp(none, ip) == {}; }
  }

  lemma RatesFresh(bans: map<Ip, Risk.Standing>, now: nat)
    ensures Rates(Restored(bans, now), map[], map[], now)
  {
    forall ip: Ip ensures RatesOf(Restored(bans, now), ip, PassesOf(map[], ip), PassesOf(map[], ip), now) {
    }
  }

  lemma ProbesFresh(bs: seq<Backend>, s: Probe.Settings)
    requires forall b :: 0 <= b < |bs| ==> IsFresh(bs[b])
    ensures Probes(bs, seq(|bs|, _ => Probe.NONE), s)
  {
  }
}
