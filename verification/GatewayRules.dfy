/** The rules the gateway applies: how a datagram can end, penalties, limits, backends, commands and
    live settings (gateway/gateway.cpp), as functions of the state. */
module GatewayRules {
  import opened Text
  import opened GatewayState
  import RateWindow
  import Risk
  import Probe
  import Routing
  import Incident
  import Tickets
  import TransferProtocol

  /** How a client datagram ended. */
  datatype Action =
    | DropEmpty | DropDenylist | DropBanned | DropOversized | DropGlobalRate | DropIpRate | DropHandshakeRate
    | DropPingRate | CachedPong | DropMaintenance | DropDrain | DropIncident | DropSessionLimit
    | DropStaticRoute | DropNoBackend | DropTicket | DropUpstreamSocket | DropUpstreamSend | Forward
    | Fatal  // a new socket could not be registered: the gateway stops

  predicate IsDrop(a: Action) {
    a != CachedPong && a != Forward && a != Fatal
  }

  /** What the operating system answers while one datagram is handled: the clocks at a drop, whether
      replies could be sent, the new socket (if any) and its registration, the ticket file. */
  datatype Outcomes = Outcomes(clock: nat, epoch: nat, pongSent: bool, socket: Option<int>, registered: bool,
                               sent: bool, file: Option<seq<Tickets.Ticket>>, sourceMatches: bool)

  predicate IsPing(id: nat) { id == 0x01 || id == 0x02 }

  predicate IsHandshake(id: nat) { id == 0x05 || id == 0x07 || id == 0x09 }

  // ---- drops and strikes -------------------------------------------------

  datatype Penalty = Penalty(state: IpState, warned: bool, banned: bool)

  /** `drop`: count it, and for an offence add a strike and risk; without the adaptive firewall enough
      strikes make a fixed ban. */
  function Punish(s: IpState, strike: bool, points: int, allowlisted: bool, clock: nat, epoch: nat, c: Config): Penalty
    requires c.risk.Valid()
  {
    var counted := s.(totalDropped := s.totalDropped + 1);
    if !strike then Penalty(counted, false, false)
    else
      var (standing, effect) := Risk.Offend(s.standing, points, allowlisted, clock, epoch, c.risk);
      var struck := counted.(strikes := s.strikes + 1, standing := standing);
      if c.risk.adaptive || struck.strikes < c.strikeLimit then Penalty(struck, effect.warned, effect.banSeconds > 0)
      else
        Penalty(struck.(strikes := 0,
                        standing := standing.(bannedUntil := clock + c.tempBan * 1000,
                                              bannedUntilEpoch := epoch + c.tempBan * 1000)),
                effect.warned, true)
  }

  lemma PunishKeeps(s: IpState, strike: bool, points: int, allowlisted: bool, clock: nat, epoch: nat, c: Config)
    requires c.risk.Valid()
    ensures var p := Punish(s, strike, points, allowlisted, clock, epoch, c);
            SameWindows(s, p.state) && p.state.activeSessions == s.activeSessions
  {
    hide Risk.Offend;
  }

  /** The ban history of a record after a drop. */
  function Climbing(l: Risk.Ladder, s: IpState, strike: bool, points: int, allowlisted: bool, clock: nat, epoch: nat,
                    c: Config): Risk.Ladder
    requires c.risk.Valid()
  {
    if strike then Risk.Climb(l, Risk.Offend(s.standing, points, allowlisted, clock, epoch, c.risk).1, c.risk) else l
  }

  /** A drop keeps the history in step; with the adaptive firewall a new ban of that history is in force. */
  lemma PunishClimbs(l: Risk.Ladder, s: IpState, strike: bool, points: int, allowlisted: bool, clock: nat, epoch: nat,
                     c: Config)
    requires c.risk.Valid() && Risk.OnLadder(l, s.standing.banLevel)
    ensures var p, after := Punish(s, strike, points, allowlisted, clock, epoch, c),
        Climbing(l, s, strike, points, allowlisted, clock, epoch, c);
            && Risk.OnLadder(after, p.state.standing.banLevel)
            && (s.standing.score >= 0 ==> p.state.standing.score >= 0)
            && (strike && points > 0 && c.risk.adaptive && !allowlisted ==> p.state.standing.score < c.risk.ban)
            && (c.risk.adaptive && after != l ==>
                  after.bans == l.bans + [after.bans[|l.bans|]]
                      && p.state.standing.bannedUntil == clock + after.bans[|l.bans|].seconds * 1000)
  {
    hide Risk.Offend, Risk.OnLadder;
    Risk.OffendClimbs(l, s.standing, points, allowlisted, clock, epoch, c.risk);
    Risk.OffenceBounds(s.standing, points, allowlisted, clock, epoch, c.risk);
  }

  /** What an offence costs; the other drops cost nothing. */
  function Points(a: Action): int {
    match a
    case DropOversized => 25
    case DropIpRate => 15
    case DropHandshakeRate => 20
    case DropPingRate => 5
    case DropSessionLimit => 10
    case _ => 0
  }

  /** The record was charged for this drop: strikes and standing are what the penalty makes of them. */
  predicate Charged(before: IpState, after: IpState, a: Action, allowlisted: bool, o: Outcomes, c: Config)
    requires c.risk.Valid()
  {
    var p := Punish(before, true, Points(a), allowlisted, o.clock, o.epoch, c);
    after.standing == p.state.standing && after.strikes == p.state.strikes
        && after.totalDropped == before.totalDropped + 1
  }

  /** The penalty does not look at the rate windows. */
  lemma ChargedAnyWindow(s: IpState, t: IpState, after: IpState, a: Action, allowlisted: bool, o: Outcomes, c: Config)
    requires c.risk.Valid() && s.standing == t.standing && s.strikes == t.strikes && s.totalDropped == t.totalDropped
    ensures Charged(s, after, a, allowlisted, o, c) == Charged(t, after, a, allowlisted, o, c)
  {
    hide Risk.Offend;
  }

  /** The record of an address, newly made if there is none. */
  function RecordOf(states: map<Ip, IpState>, ip: Ip, now: nat): IpState {
    if ip in states then states[ip] else NewIpState(now)
  }

  /** `is_banned`: by the steady clock or by the wall clock. */
  predicate IsBanned(s: Risk.Standing, now: nat, epoch: nat) {
    (s.bannedUntil != 0 && now < s.bannedUntil) || (s.bannedUntilEpoch != 0 && epoch < s.bannedUntilEpoch)
  }

  // ---- limits ------------------------------------------------------------

  function PacketLimit(c: Config, p: Profile, incident: bool): nat
    requires c.rateDivisor >= 1
  {
    if incident then RateWindow.Max(100, p.maxPackets / c.rateDivisor) else p.maxPackets
  }

  function HandshakeLimit(c: Config, p: Profile, incident: bool): nat
    requires c.handshakeDivisor >= 1
  {
    if incident then RateWindow.Max(1, p.maxHandshakes / c.handshakeDivisor) else p.maxHandshakes
  }

  function ProfileNamed(c: Config, name: string): Profile {
    if name in c.profiles then c.profiles[name] else c.defaultProfile
  }

  // ---- backends ----------------------------------------------------------

  /** `backend_index_by_name`: the first backend with the name. */
  function IndexByName(backends: seq<Backend>, name: string): (r: Option<nat>)
    ensures r.Some? ==> r.value < |backends| && backends[r.value].name == name
    ensures r.None? ==> forall i :: 0 <= i < |backends| ==> backends[i].name != name
  {
    if backends == [] then None
    else if backends[0].name == name then Some(0)
    else
      match IndexByName(backends[1..], name)
      case None => assert forall i :: 1 <= i < |backends| ==> backends[i] == backends[1..][i - 1]; None
      case Some(i) => Some(i + 1)
  }

  /** `backend_available` */
  predicate IsUp(backends: seq<Backend>, c: Config, i: nat) {
    i < |backends| && backends[i].enabled && (!c.healthEnabled || backends[i].prober.healthy)
  }

  function CandidateOf(b: Backend): Routing.Candidate {
    Routing.Candidate(b.name, b.fallback, b.enabled, b.prober.healthy, b.activeSessions)
  }

  function Candidates(backends: seq<Backend>): seq<Routing.Candidate> {
    seq(|backends|, i requires 0 <= i < |backends| => CandidateOf(backends[i]))
  }

  /** `static_backend_for_listener` */
  function StaticBackend(c: Config, backends: seq<Backend>, listener: nat): Option<nat> {
    if listener !in c.staticRoutes then None
    else
      match IndexByName(backends, c.staticRoutes[listener])
      case None => None
      case Some(i) => if IsUp(backends, c, i) then Some(i) else None
  }

  // ---- transfer tickets --------------------------------------------------

  /** The gateway's side of the ticket protocol: loaded tickets, spent ids, last reading of the file. */
  datatype TicketState = TicketState(table: Tickets.Table, spent: set<string>, lastReload: nat)

  predicate ReloadDue(c: Config, s: TicketState, now: nat, force: bool) {
    force || now >= s.lastReload + c.ticketReload
  }

  /** `refresh_transfer_tickets` */
  function Refreshed(c: Config, s: TicketState, now: nat, force: bool, file: Option<seq<Tickets.Ticket>>,
                     epoch: int): TicketState {
    if !c.transferEnabled then s.(table := map[])
    else if !ReloadDue(c, s, now, force) then s
    else if file.None? then s.(lastReload := now)
    else
      var table := Tickets.LoadTable(c.view, file.value, s.spent, epoch);
      TicketState(table, Tickets.Pruned(s.spent, table), now)
  }

  lemma RefreshedCases(c: Config, s: TicketState, now: nat, force: bool, file: Option<seq<Tickets.Ticket>>, epoch: int)
    ensures var t := Refreshed(c, s, now, force, file, epoch);
            && (!c.transferEnabled ==> t == s.(table := map[]))
            && (c.transferEnabled && !(force || now >= s.lastReload + c.ticketReload) ==> t == s)
            && (c.transferEnabled && (force || now >= s.lastReload + c.ticketReload) ==>
                  t == if file.None? then s.(lastReload := now)
                       else TicketState(Tickets.LoadTable(c.view, file.value, s.spent, epoch),
                                        Tickets.Pruned(s.spent, Tickets.LoadTable(c.view, file.value, s.spent, epoch)),
                                            now))
  {
    hide Tickets.LoadTable, Tickets.Pruned;
  }

  /** The ticket on this port can be used now. */
  predicate Usable(c: Config, backends: seq<Backend>, table: Tickets.Table, port: nat, epoch: int, matches: bool) {
    port in table && Tickets.Spendable(table, port, epoch, matches, IsUp(backends, c, table[port].backend))
  }

  // ---- how the checks of a datagram end ----------------------------------

  /** One passage through a rate check, recorded in the history: `pass` is what the window says. */
  ghost predicate Checked(before: map<Ip, Passes>, after: map<Ip, Passes>, ip: Ip, w: RateWindow.Window,
                          now: nat, width: nat, limit: nat, pass: bool) {
    after == LogPass(before, ip, w, now, width, limit) && pass == RateWindow.Admit(w, now, width, limit).1
  }

  /** A packet got past the firewall: it is not oversized, it passed the packet check of its address and, if
      it is a handshake, the handshake check, and both passages are on record. */
  ghost predicate RatesPassed(p0: map<Ip, Passes>, p1: map<Ip, Passes>, h0: map<Ip, Passes>, h1: map<Ip, Passes>,
                              ip: Ip, s: IpState,
                              profile: Profile, c: Config, incident: bool, id: nat, size: nat, now: nat) {
    && Sound(c) && size <= profile.maxDatagram
    && Checked(p0, p1, ip, s.packets, now, SECOND, PacketLimit(c, profile, incident), true)
    && (IsHandshake(id) ==> Checked(h0, h1, ip, s.handshakes, now, MINUTE, HandshakeLimit(c, profile, incident), true))
  }

  /** The drops before a packet is looked at as game traffic. */
  predicate IsScreening(a: Action) {
    a.DropEmpty? || a.DropDenylist? || a.DropBanned? || a.DropOversized? || a.DropGlobalRate? || a.DropIpRate?
        || a.DropHandshakeRate?
  }

  function Counted(c: Counters): Counters {
    c.(clientPackets := c.clientPackets + 1)
  }

  /** A datagram that was already counted ended in `a`, and went into the total for that and no other. */
  predicate Settled(c0: Counters, forwarded0: nat, c1: Counters, forwarded1: nat, halted: bool, a: Action) {
    && (a == Fatal <==> halted)
    && c1.clientPackets == c0.clientPackets
    && c1.dropped == c0.dropped + (if IsDrop(a) then 1 else 0)
    && c1.cachedPongs == c0.cachedPongs + (if a == CachedPong then 1 else 0)
    && forwarded1 == forwarded0 + (if a == Forward then 1 else 0)
  }

  /** The totals after the screening of a new datagram. */
  predicate Judged(c0: Counters, c1: Counters, a: Option<Action>) {
    && c1.clientPackets == c0.clientPackets + 1 && c1.cachedPongs == c0.cachedPongs
    && c1.dropped == c0.dropped + if a.Some? then 1 else 0
  }

  lemma SettledEnds(c0: Counters, f0: nat, judged: Counters, c1: Counters, f1: nat, halted: bool,
                    early: Option<Action>, a: Action)
    requires Judged(c0, judged, early)
    requires early.Some? ==> a == early.value && IsScreening(a) && c1 == judged && f1 == f0 && !halted
    requires early.None? ==> Settled(judged, f0, c1, f1, halted, a)
    ensures Settled(Counted(c0), f0, c1, f1, halted, a)
  {
  }

  /** The totals after a ping was tried on the cache. */
  predicate PingTotals(c0: Counters, c1: Counters, a: Option<Action>) {
    && (a.Some? ==> a.value.DropPingRate? || a.value.CachedPong?)
    && c1.clientPackets == c0.clientPackets
    && c1.dropped == c0.dropped + (if a == Some(DropPingRate) then 1 else 0)
    && c1.cachedPongs == c0.cachedPongs + (if a == Some(CachedPong) then 1 else 0)
  }

  lemma PingTotalsNone(c: Counters)
    ensures PingTotals(c, c, None)
  {
  }

  lemma PingEnds(c0: Counters, f0: nat, pinged: Counters, c1: Counters, f1: nat, halted: bool, answer: Option<Action>,
                 a: Action)
    requires PingTotals(c0, pinged, answer)
    requires answer.Some? ==> a == answer.value && c1 == pinged && f1 == f0 && !halted
    requires answer.None? ==> Settled(pinged, f0, c1, f1, halted, a)
    ensures Settled(c0, f0, c1, f1, halted, a)
  {
  }

  /** The drops that keep an address from opening a session. */
  predicate IsRefusal(a: Action) {
    a.DropMaintenance? || a.DropDrain? || a.DropIncident? || a.DropSessionLimit?
  }

  /** The drops of a packet for which no new session could be set up. */
  predicate IsUnconnected(a: Action) {
    a.DropStaticRoute? || a.DropNoBackend? || a.DropTicket? || a.DropUpstreamSocket?
  }

  lemma Kinds(a: Action)
    ensures IsRefusal(a) || IsUnconnected(a) || a.DropUpstreamSend? ==> IsDrop(a) && !IsScreening(a)
    ensures IsScreening(a) ==> IsDrop(a)
    ensures a.DropEmpty? || a.DropDenylist? || a.DropBanned? ==> IsScreening(a)
    ensures a.DropPingRate? ==> IsDrop(a) && !IsScreening(a)
    ensures IsRefusal(a) ==> !IsUnconnected(a)
    ensures a.DropStaticRoute? || a.DropNoBackend? || a.DropTicket? || a.DropUpstreamSocket? ==> IsUnconnected(a)
    ensures a.DropUpstreamSend? ==> !IsRefusal(a) && !IsUnconnected(a)
    ensures a.Forward? || a.CachedPong? || a.Fatal? ==> (!IsDrop(a) && !IsRefusal(a) && !IsUnconnected(a)
        && !IsScreening(a))
  {
  }

  /** The firewall got as far as the rates of the address. */
  predicate ReachedRates(a: Option<Action>) {
    a.None? || a.value.DropIpRate? || a.value.DropHandshakeRate?
  }

  /** What one datagram may do to the sessions that were open: nothing, except that a forwarded one is
      booked on the session of its endpoint. */
  ghost predicate Touched(before: map<int, Session>, after: map<int, Session>, index: map<Endpoint, int>, e: Endpoint,
                          now: nat, forward: bool) {
    && (forall g :: g in before ==> g in after && (after[g] == before[g] || (forward && e in index && index[e] == g)))
    && (forward ==>
          && e in index && index[e] in after && after[index[e]].lastActivity == now
          && after[index[e]].clientPackets == (if index[e] in before then before[index[e]].clientPackets else 0) + 1)
  }

  predicate IsNew(sessions: map<int, Session>, fd: int) {
    fd in sessions && sessions[fd].clientPackets == 0
  }

  function Booked(s: Session, now: nat): Session {
    s.(lastActivity := now, clientPackets := s.clientPackets + 1)
  }

  lemma TouchedNone(sessions: map<int, Session>, index: map<Endpoint, int>, e: Endpoint, now: nat)
    ensures Touched(sessions, sessions, index, e, now, false)
  {
  }

  lemma TouchedNew(before: map<int, Session>, after: map<int, Session>, index: map<Endpoint, int>, e: Endpoint,
                   fd: int, now: nat)
    requires fd !in before && IsNew(after, fd) && e in index && index[e] == fd
    requires forall g :: g in before ==> g in after && after[g] == before[g]
    ensures Touched(before, after, index, e, now, false) && Touched(before, after[fd := Booked(after[fd], now)], index,
        e, now, true)
  {
  }

  /** Sessions that have sent little time out sooner. */
  predicate TimedOut(s: Session, now: nat, c: Config) {
    now >= s.lastActivity + if s.clientPackets <= 2 then c.handshakeTimeout else c.idleTimeout
  }

  /** Two records that differ at most in their session count. */
  predicate SameButLoad(s: IpState, t: IpState) {
    s == t.(activeSessions := s.activeSessions)
  }

  /** No ban in force, and the last packet window began long ago. */
  predicate Lapsed(s: IpState, now: nat, epoch: nat) {
    !IsBanned(s.standing, now, epoch) && now > s.packets.start + STALE
  }

  predicate Forgettable(s: IpState, now: nat, epoch: nat) {
    s.activeSessions == 0 && Lapsed(s, now, epoch)
  }

  /** A record after a cleanup: risk decayed, an expired ban cleared. */
  function Aged(s: IpState, now: nat, epoch: nat, p: Risk.Policy): IpState {
    var d := Risk.Decay(s.standing, now, p);
    s.(standing := if IsBanned(d, now, epoch) then d else d.(bannedUntil := 0, bannedUntilEpoch := 0))
  }

  lemma AgedKeeps(s: IpState, now: nat, epoch: nat, p: Risk.Policy)
    ensures SameWindows(s, Aged(s, now, epoch, p)) && Aged(s, now, epoch, p).activeSessions == s.activeSessions
    ensures s.standing.score >= 0 ==> SameLevel(s, Aged(s, now, epoch, p))
  {
    hide Risk.Decay;
    Risk.DecayKeepsBans(s.standing, now, p);
    if s.standing.score >= 0 { Risk.DecayBounds(s.standing, now, p); }
  }

  lemma LapsedKeeps(before: map<Ip, IpState>, after: map<Ip, IpState>, now: nat, epoch: nat)
    requires after.Keys == before.Keys && forall ip :: ip in after ==> SameButLoad(after[ip], before[ip])
    ensures forall ip :: ip in after ==> Lapsed(after[ip], now, epoch) == Lapsed(before[ip], now, epoch)
  {
  }

  // ---- pings of addresses that are not policed ---------------------------

  /** Two records that differ at most in their ping window. */
  predicate OnlyPings(s: IpState, t: IpState) {
    t == s.(pings := t.pings)
  }

  /** One ping check of a record. */
  function Pinged(s: IpState, now: nat, limit: nat): (IpState, bool) {
    var (w, ok) := RateWindow.Admit(s.pings, now, SECOND, limit);
    (s.(pings := w), ok)
  }

  /** Without packet checks the packet window never moves, so a record may be forgotten while its ping window
      is running. With a limit of 2, five pings get through within two milliseconds: one at the end of a
      window, two in the next, and two more after the record was forgotten and made anew. */
  lemma PingsOverrun(c: nat, u: nat, epoch: nat)
    requires c + STALE < u
    ensures var s0 := NewIpState(c);
            var (s1, a1) := Pinged(s0, u, 2);
            var (s2, a2) := Pinged(s1, u + 999, 2);
            var (s3, a3) := Pinged(s2, u + 1000, 2);
            var (s4, a4) := Pinged(s3, u + 1000, 2);
            var (s5, a5) := Pinged(NewIpState(u + 1001), u + 1001, 2);
            var (s6, a6) := Pinged(s5, u + 1001, 2);
            a2 && a3 && a4 && Forgettable(s4, u + 1000, epoch) && a5 && a6
  {
  }

  lemma AgedKeepsAll(before: map<Ip, IpState>, after: map<Ip, IpState>, now: nat, epoch: nat, p: Risk.Policy)
    requires after.Keys == before.Keys && forall ip :: ip in after ==> SameButLoad(after[ip], before[ip])
    ensures forall ip :: ip in after ==>
              var a := Aged(after[ip], now, epoch, p);
              SameButLoad(a, Aged(before[ip], now, epoch, p)) && a.activeSessions == after[ip].activeSessions
  {
    hide Risk.Decay;
  }

  /** One health check of a backend. */
  function Probed(b: Backend, now: nat, token: nat, delivered: bool, s: Probe.Settings): Backend {
    b.(prober := Probe.Check(b.prober, now, token, delivered, s))
  }

  predicate IsPong(data: seq<nat>) {
    |data| >= 9 && data[0] == 0x1C
  }

  /** `read_be64` */
  function BigEndian(bytes: seq<nat>): nat {
    if bytes == [] then 0 else BigEndian(bytes[..|bytes| - 1]) * 256 + bytes[|bytes| - 1]
  }

  function Token(data: seq<nat>): nat
    requires |data| >= 9
  {
    BigEndian(data[1..9])
  }

  /** A pong arrives: match it against the probe and keep it as the answer for pings. */
  function Reply(b: Backend, data: seq<nat>, s: Probe.Settings): Backend
    requires IsPong(data)
  {
    b.(prober := Probe.Pong(b.prober, Token(data), s), cachedPong := data)
  }

  function Answered(b: Backend, replies: seq<seq<nat>>, s: Probe.Settings): Backend
    decreases |replies|
  {
    if replies == [] then b
    else Answered(if IsPong(replies[0]) then Reply(b, replies[0], s) else b, replies[1..], s)
  }

  function AnsweredHistory(h: Probe.History, b: Backend, replies: seq<seq<nat>>, s: Probe.Settings): Probe.History
    decreases |replies|
  {
    if replies == [] then h
    else if IsPong(replies[0]) then
      AnsweredHistory(Probe.PongHistory(h, b.prober, Token(replies[0])), Reply(b, replies[0], s), replies[1..], s)
    else AnsweredHistory(h, b, replies[1..], s)
  }

  // ---- commands and live settings ----------------------------------------

  datatype Command =
    | Maintenance(on: bool) | Drain(on: bool)
    | Ban(ip: Ip, seconds: int) | Unban(ip: Ip) | RiskReset(ip: Ip)
    | Switch(name: string, on: bool) | Route(mode: Routing.Mode) | Restart(services: bool)

  function ManuallyBanned(s: IpState, seconds: int, clock: nat, epoch: nat): IpState {
    var duration: nat := if seconds < 1 then 1000 else seconds * 1000;
    s.(standing := s.standing.(bannedUntil := clock + duration, bannedUntilEpoch := epoch + duration))
  }

  function Unbanned(s: IpState): IpState {
    s.(strikes := 0, standing := s.standing.(bannedUntil := 0, bannedUntilEpoch := 0))
  }

  function Reset(s: IpState): IpState {
    s.(strikes := 0, standing := s.standing.(score := 0, offenses := 0, banLevel := 0, bannedUntil := 0,
        bannedUntilEpoch := 0))
  }

  /** The records after a command. */
  function Commanded(states: map<Ip, IpState>, command: Command, clock: nat, epoch: nat): map<Ip, IpState> {
    match command
    case Ban(ip, seconds) => states[ip := ManuallyBanned(RecordOf(states, ip, clock), seconds, clock, epoch)]
    case Unban(ip) => if ip in states then states[ip := Unbanned(states[ip])] else states
    case RiskReset(ip) => if ip in states then states[ip := Reset(states[ip])] else states
    case _ => states
  }

  lemma CommandedOthers(states: map<Ip, IpState>, command: Command, clock: nat, epoch: nat)
    ensures !command.Ban? && !command.Unban? && !command.RiskReset?
        ==> Commanded(states, command, clock, epoch) == states
  {
  }

  /** The first backend of that name is switched on or off. */
  function Switched(backends: seq<Backend>, name: string, on: bool): seq<Backend> {
    match IndexByName(backends, name)
    case None => backends
    case Some(i) => backends[i := backends[i].(enabled := on)]
  }

  /** The settings that can change while the gateway runs; absent ones stay. */
  datatype Live = Live(
    mode: Option<Routing.Mode>, firewall: Option<bool>, adaptive: Option<bool>, globalRate: Option<nat>,
        pingLimit: Option<nat>,
    decay: Option<int>, warning: Option<int>, ban: Option<int>, schedule: Option<seq<int>>,
    failures: Option<int>, recoveries: Option<int>,
    incidentEnabled: Option<bool>, triggerRate: Option<nat>, minimumRate: Option<nat>, recovery: Option<nat>,
        triggerRatio: Option<real>,
    rateDivisor: Option<nat>, handshakeDivisor: Option<nat>)

  function Or<T>(o: Option<T>, default: T): T {
    if o.Some? then o.value else default
  }

  function MaxInt(a: int, b: int): int {
    if a < b then b else a
  }

  function Clamp(x: real, low: real, high: real): real {
    if x < low then low else if high < x then high else x
  }

  function LivePolicy(p: Risk.Policy, v: Live): Risk.Policy {
    var warning := MaxInt(1, Or(v.warning, p.warning));
    Risk.Policy(Or(v.adaptive, p.adaptive), Or(v.decay, p.decayPerMinute), warning,
                MaxInt(warning + 1, Or(v.ban, p.ban)), Or(v.schedule, p.schedule))
  }

  function LiveIncident(s: Incident.Settings, v: Live): Incident.Settings {
    Incident.Settings(Or(v.incidentEnabled, s.enabled), Or(v.triggerRate, s.triggerRate),
        Or(v.minimumRate, s.minimumRate),
                      if v.triggerRatio.Some? then Clamp(v.triggerRatio.value, 0.01, 1.0) else s.triggerRatio,
                      Or(v.recovery, s.recovery))
  }

  /** `apply_live_values`: thresholds are repaired, an unknown routing mode or an empty ban schedule is
      an error, and the divisors are taken as they come. */
  function ApplyLive(c: Config, v: Live): Result<Config, string> {
    if v.mode == Some(Routing.Other) then Err("Invalid live routing_mode")
    else if LivePolicy(c.risk, v).schedule == [] then Err("progressive_ban_seconds cannot be empty")
    else Ok(c.(
      mode := Or(v.mode, c.mode), firewallEnabled := Or(v.firewall, c.firewallEnabled), risk := LivePolicy(c.risk, v),
      globalRate := Or(v.globalRate, c.globalRate), pingLimit := Or(v.pingLimit, c.pingLimit),
      probing := c.probing.(failureThreshold := Or(v.failures, c.probing.failureThreshold),
                            recoveryThreshold := Or(v.recoveries, c.probing.recoveryThreshold)),
      incident := LiveIncident(c.incident, v),
      rateDivisor := Or(v.rateDivisor, c.rateDivisor), handshakeDivisor := Or(v.handshakeDivisor, c.handshakeDivisor)))
  }

  /** A reload leaves the gateway with usable settings exactly when it brings no divisor of 0. */
  lemma LiveSound(c: Config, v: Live)
    requires Sound(c) && ApplyLive(c, v).Ok?
    ensures Sound(ApplyLive(c, v).value) <==> v.rateDivisor != Some(0) && v.handshakeDivisor != Some(0)
  {
  }

  /** What a reload cannot touch. */
  predicate LiveOnly(c: Config, d: Config) {
    && c.maxSessions == d.maxSessions && c.view == d.view && c.transferEnabled == d.transferEnabled
    && c.probing.timeout == d.probing.timeout && c.probing.interval == d.probing.interval
  }

  lemma ApplyLiveOnly(c: Config, v: Live)
    requires ApplyLive(c, v).Ok?
    ensures LiveOnly(c, ApplyLive(c, v).value)
  {
  }

  lemma LiveProbes(backends: seq<Backend>, logs: seq<Probe.History>, c: Config, d: Config)
    requires Probes(backends, logs, c.probing) && LiveOnly(c, d)
    ensures Probes(backends, logs, d.probing) && c.maxSessions == d.maxSessions && c.view == d.view
        && c.transferEnabled == d.transferEnabled
  {
  }

  /** What became of the profile file: its size could not be read, it could not be opened, or it was read. */
  datatype ProfileLoad = Missing | Unreadable(default: Profile) | Loaded(profiles: map<string, Profile>,
      default: Profile)

  /** `load_protection_profiles`: the old profiles stay if the size is unknown; an unreadable file leaves the
      default profile alone. */
  function WithProfiles(c: Config, load: ProfileLoad): Config {
    match load
    case Missing => c
    case Unreadable(default) => c.(profiles := map[], defaultProfile := default)
    case Loaded(profiles, default) => c.(profiles := profiles, defaultProfile := default)
  }

  lemma ProfilesAside(d: Config, c: Config, load: ProfileLoad)
    ensures Sound(WithProfiles(c, load)) == Sound(c) && LiveOnly(d, WithProfiles(c, load)) == LiveOnly(d, c)
  {
  }

  // ---- events ------------------------------------------------------------

  datatype Event =
    | Datagram(client: SockAddr, listener: nat, id: nat, size: nat, now: nat, outcomes: Outcomes)
    | FromBackend(fd: int, sent: seq<bool>, failed: bool, now: nat)
    | SocketError(fd: int)
    | HealthTimer(now: nat, tokens: seq<nat>, delivered: seq<bool>)
    | HealthReplies(b: nat, replies: seq<seq<nat>>)
    | TicketTimer(now: nat, file: Option<seq<Tickets.Ticket>>, epoch: nat)
    | Operator(command: Command, at: nat, epoch: nat)
    | NewSettings(live: Option<Live>, load: ProfileLoad, allow: set<Ip>, deny: set<Ip>)
    | IncidentTimer(now: nat)
    | CleanupTimer(now: nat, epoch: nat)
    | Outdoors(step: TransferProtocol.Event)

  /** Some element: the iteration order of the source's hash tables is not specified. */
  method Pick<T>(s: set<T>) returns (x: T)
    requires s != {}
    ensures x in s
  {
    x :| x in s;
  }

  function CountTrue(s: seq<bool>): nat {
    if s == [] then 0 else (if s[0] then 1 else 0) + CountTrue(s[1..])
  }
}
