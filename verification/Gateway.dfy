/** The edge gateway as an object with one method per event (class `Gateway` in gateway/gateway.cpp).
    Every method keeps `Valid()`, so what `Valid()` says holds in every reachable state. Results of
    operating-system calls are parameters; `now` is the steady clock of the event loop. */
module Gateway {
  import opened Text
  import opened GatewayState
  import opened GatewayRules
  import RateWindow
  import Risk
  import Probe
  import Routing
  import Incident
  import Tickets
  import TransferProtocol

  class Gateway {
    var config: Config
    var backends: seq<Backend>
    var sessions: map<int, Session>
    var byClient: map<Endpoint, int>
    var ipStates: map<Ip, IpState>
    var allowlist: set<Ip>
    var denylist: set<Ip>
    var tickets: Tickets.Table
    var spent: set<string>
    var maintenance: bool
    var drain: bool
    var incident: Incident.Mode
    var turn: nat
    var globalWindow: nat
    var globalPackets: nat
    var counters: Counters
    var lastCleanup: nat
    var lastTicketReload: nat
    var stopCode: Option<nat>  // exit code of a restart asked for by an operator
    var halted: bool

    // The world outside: the ticket file, the wall clock, and the history of the ticket protocol.
    var world: TransferProtocol.World

    // History, for stating what runs guarantee.
    ghost var time: nat
    ghost var forwarded: nat
    ghost var retired: nat
    ghost var packetLog: map<Ip, Passes>
    ghost var handshakeLog: map<Ip, Passes>
    ghost var probeLogs: seq<Probe.History>
    ghost var incidentLog: seq<Incident.Checked>
    ghost var ladders: map<Ip, Risk.Ladder>
    ghost var pingLog: map<Ip, Passes>
    ghost var loose: set<Ip>  // addresses that sent a ping while not policed

    /** Everything agrees; `pending` datagrams are still being handled. */
    ghost predicate Consistent(pending: nat)
      reads this
    {
      && Agree(sessions, byClient, ipStates, backends, forwarded, retired, counters, config, packetLog, handshakeLog,
          time,
               probeLogs, incident, incidentLog, tickets, pending)
      && Ladders(ipStates, ladders)
      && Pings(ipStates, pingLog, loose, time)
      && TicketWorld(world, tickets, spent, config.view, config.transferEnabled)
    }

    /** What is read from outside is what is there: the ticket file, if it can be read, and the wall clock. */
    predicate Outside(file: Option<seq<Tickets.Ticket>>, epoch: int)
      reads `world
    {
      (file.Some? ==> file.value == world.file) && epoch == world.clock
    }

    /** The state between events. A gateway that stopped on a registration failure leaves the datagram
        it was handling unaccounted. */
    ghost predicate Valid()
      reads this
    {
      Consistent(if halted then 1 else 0)
    }

    lemma SoundNow(pending: nat)
      requires Consistent(pending)
      ensures Sound(config)
    {
      hide Ladders, Pings, TicketWorld, Tables, Rates, Probes, Books, Incidents, TicketTable;
    }

    /** A new process: `bans` are the records restored from the ban file, `w` the world it starts in, and
        the ticket file is read at once. `c` holds the settings after the first reading of the live file. */
    constructor (c: Config, bs: seq<Backend>, bans: map<Ip, Risk.Standing>, now: nat, w: TransferProtocol.World,
        readable: bool)
      requires Sound(c)
      requires forall b :: 0 <= b < |bs| ==> IsFresh(bs[b])
      requires forall d :: d in c.view.backendIndex ==> c.view.backendIndex[d] < |bs|
      requires forall ip :: ip in bans ==> bans[ip].score >= 0
      requires TransferProtocol.Inv(w) && w.table == map[] && w.spent == {} && w.view == c.view
      ensures Valid() && !halted && sessions == map[] && counters == ZERO && forwarded == 0
      ensures config == c && backends == bs && time == now && world.process == w.process && world.routed == w.routed
      ensures TicketsHeld() == Refreshed(c, TicketState(map[], {}, 0), now, true,
          if readable then Some(w.file) else None, w.clock)
    {
      hide Agree, Ladders, Pings, Restored, Refreshed, TransferProtocol.Inv;
      config, backends, sessions, byClient, ipStates := c, bs, map[], map[], Restored(bans, now);
      allowlist, denylist, tickets, spent, world := {}, {}, map[], {}, w;
      maintenance, drain, halted, stopCode := false, false, false, None;
      incident := Incident.Calm(now);
      turn, globalWindow, globalPackets, counters := 0, now, 0, ZERO;
      lastCleanup, lastTicketReload := now, 0;
      time, forwarded, retired, ladders := now, 0, 0, Rungs(bans);
      packetLog, handshakeLog, pingLog, loose, incidentLog := map[], map[], map[], {}, [];
      probeLogs := seq(|bs|, _ => Probe.NONE);
      AgreeFresh(c, bs, bans, now);
      LaddersFresh(bans, now);
      PingsFresh(bans, now);
      new;
      RefreshTickets(now, true, if readable then Some(world.file) else None, world.clock, 0);
    }

    // ---- one datagram ----------------------------------------------------

    /** Only an address that is not policed can have become loose. */
    ghost predicate Loosened(before: set<Ip>, ip: Ip)
      reads `loose, `config, `allowlist
    {
      loose == before || (!Policed(ip) && loose == before + {ip})
    }

    /** Count the datagram and find or create the record of its address. */
    method Arrive(ip: Ip, now: nat)
      requires Valid() && !halted && now >= time
      modifies `counters, `globalPackets, `ipStates, `time
      ensures Consistent(1) && time == now && globalPackets == old(globalPackets) + 1
      ensures counters == old(counters).(clientPackets := old(counters).clientPackets + 1)
      ensures ipStates == if ip in old(ipStates) then old(ipStates) else old(ipStates)[ip := NewIpState(now)]
    {
      hide Ladders, Pings, TicketWorld, Tables, Rates, Probes, TicketTable, Sound;
      counters := counters.(clientPackets := counters.clientPackets + 1);
      globalPackets := globalPackets + 1;
      RatesLater(ipStates, packetLog, handshakeLog, time, now);
      PingsLater(ipStates, pingLog, loose, time, now);
      time := now;
      if ip !in ipStates {
        TablesIp(sessions, byClient, ipStates, backends, forwarded, retired, ip, NewIpState(now));
        RatesNew(ipStates, packetLog, handshakeLog, now, ip);
        PingsNew(ipStates, pingLog, loose, now, ip);
        LaddersIp(ipStates, ladders, ip, NewIpState(now));
        ipStates := ipStates[ip := NewIpState(now)];
      }
    }

    /** A record changes outside its windows and its session count. */
    method SetIp(ip: Ip, s: IpState, ghost pending: nat)
      requires Consistent(pending) && ip in ipStates && SameWindows(ipStates[ip], s)
      requires s.activeSessions == ipStates[ip].activeSessions && SameLevel(ipStates[ip], s)
      modifies `ipStates
      ensures Consistent(pending) && ipStates == old(ipStates)[ip := s]
    {
      hide Ladders, Pings, TicketWorld, Tables, Rates, Probes, TicketTable, Sound;
      TablesIp(sessions, byClient, ipStates, backends, forwarded, retired, ip, s);
      RatesIp(ipStates, packetLog, handshakeLog, time, ip, s);
      LaddersIp(ipStates, ladders, ip, s);
      PingsIp(ipStates, pingLog, loose, time, ip, s);
      ipStates := ipStates[ip := s];
    }

    /** The same, with a change of its ban history. */
    method SetIpOn(ip: Ip, s: IpState, ghost l: Risk.Ladder, ghost pending: nat)
      requires Consistent(pending) && ip in ipStates && SameWindows(ipStates[ip], s)
      requires s.activeSessions == ipStates[ip].activeSessions && Risk.OnLadder(l, s.standing.banLevel)
          && s.standing.score >= 0
      modifies `ipStates, `ladders
      ensures Consistent(pending) && ipStates == old(ipStates)[ip := s] && ladders == old(ladders)[ip := l]
    {
      hide Ladders, Pings, TicketWorld, Tables, Rates, Probes, TicketTable, Sound, Risk.OnLadder;
      TablesIp(sessions, byClient, ipStates, backends, forwarded, retired, ip, s);
      RatesIp(ipStates, packetLog, handshakeLog, time, ip, s);
      LaddersClimb(ipStates, ladders, ip, s, l);
      PingsIp(ipStates, pingLog, loose, time, ip, s);
      ipStates := ipStates[ip := s];
      ladders := ladders[ip := l];
    }

    /** The ban history of a record explains its level. */
    lemma LadderHolds(ip: Ip, pending: nat)
      requires Consistent(pending) && ip in ipStates
      ensures Risk.OnLadder(LadderAt(ladders, ip), ipStates[ip].standing.banLevel) && ipStates[ip].standing.score >= 0
    {
      hide Agree, TicketWorld, Risk.OnLadder;
    }

    /** Settle a pending datagram as dropped. */
    method CountDrop(limited: bool)
      requires Consistent(1)
      modifies `counters
      ensures Consistent(0)
      ensures counters == old(counters).(dropped := old(counters).dropped + 1,
                                         rateLimited := old(counters).rateLimited + (if limited then 1 else 0))
    {
      hide Ladders, Pings, TicketWorld, Tables, Rates, Probes, TicketTable, Sound;
      counters := counters.(dropped := counters.dropped + 1,
          rateLimited := counters.rateLimited + (if limited then 1 else 0));
    }

    /** Drop without further consequence. */
    method DropQuietly(ip: Ip, limited: bool)
      requires Consistent(1) && ip in ipStates
      modifies `counters, `ipStates
      ensures Consistent(0)
      ensures ipStates == old(ipStates)[ip := old(ipStates)[ip].(totalDropped := old(ipStates)[ip].totalDropped + 1)]
      ensures counters == old(counters).(dropped := old(counters).dropped + 1,
                                         rateLimited := old(counters).rateLimited + (if limited then 1 else 0))
    {
      hide Consistent;
      SetIp(ip, ipStates[ip].(totalDropped := ipStates[ip].totalDropped + 1), 1);
      CountDrop(limited);
    }

    /** `drop` with a strike. */
    method DropOffence(ip: Ip, strike: bool, points: int, limited: bool, clock: nat, epoch: nat)
      requires Consistent(1) && ip in ipStates
      modifies `counters, `ipStates, `ladders
      ensures Consistent(0) && Sound(config)
      ensures var p := Punish(old(ipStates)[ip], strike, points, ip in allowlist, clock, epoch, config);
              && ipStates == old(ipStates)[ip := p.state]
              && counters == old(counters).(dropped := old(counters).dropped + 1,
                                            rateLimited := old(counters).rateLimited + (if limited then 1 else 0),
                                            warnings := old(counters).warnings + (if p.warned then 1 else 0),
                                            temporaryBans := old(counters).temporaryBans + (if p.banned then 1 else 0))
      ensures ladders == old(ladders)[ip := Climbing(LadderAt(old(ladders), ip), old(ipStates)[ip], strike, points,
          ip in allowlist, clock, epoch, config)]
      ensures ipStates[ip].standing.score >= 0
      ensures strike && points > 0 && config.risk.adaptive && ip !in allowlist
          ==> ipStates[ip].standing.score < config.risk.ban
    {
      hide Ladders, Pings, TicketWorld, Tables, Rates, Probes, TicketTable, Punish, SameWindows, Climbing,
          Risk.OnLadder;
      var p := Punish(ipStates[ip], strike, points, ip in allowlist, clock, epoch, config);
      PunishKeeps(ipStates[ip], strike, points, ip in allowlist, clock, epoch, config);
      LadderHolds(ip, 1);
      PunishClimbs(LadderAt(ladders, ip), ipStates[ip], strike, points, ip in allowlist, clock, epoch, config);
      SetIpOn(ip, p.state, Climbing(LadderAt(ladders, ip), ipStates[ip], strike, points, ip in allowlist, clock, epoch,
          config), 1);
      counters := counters.(warnings := counters.warnings + (if p.warned then 1 else 0),
                            temporaryBans := counters.temporaryBans + (if p.banned then 1 else 0));
      CountDrop(limited);
    }

    /** Drop a packet that is an offence. */
    method DropPunished(ip: Ip, a: Action, o: Outcomes)
      requires Points(a) > 0 && ip in ipStates && Consistent(1)
      modifies `counters, `ipStates, `ladders
      ensures OnlyDropped(Some(a)) && ipStates == old(ipStates)[ip := ipStates[ip]]
      ensures SameWindows(ipStates[ip], old(ipStates)[ip]) && ipStates[ip].activeSessions
          == old(ipStates)[ip].activeSessions
      ensures Sound(config) && Charged(old(ipStates)[ip], ipStates[ip], a, ip in allowlist, o, config)
      ensures counters.rateLimited == old(counters).rateLimited + if a.DropOversized?
          || a.DropSessionLimit? then 0 else 1
      ensures ladders == old(ladders)[ip := Climbing(LadderAt(old(ladders), ip), old(ipStates)[ip], true, Points(a),
          ip in allowlist, o.clock, o.epoch, config)]
      ensures ipStates[ip].standing.score >= 0
      ensures config.risk.adaptive && ip !in allowlist ==> ipStates[ip].standing.score < config.risk.ban
      ensures Consistent(0)
    {
      hide Consistent, Risk.Offend, Climbing;
      SoundNow(1);
      PunishKeeps(ipStates[ip], true, Points(a), ip in allowlist, o.clock, o.epoch, config);
      DropOffence(ip, true, Points(a), !(a.DropOversized? || a.DropSessionLimit?), o.clock, o.epoch);
    }

    // ---- rate checks -----------------------------------------------------

    method CheckPacketRate(ip: Ip, limit: nat, now: nat) returns (ok: bool)
      requires Consistent(1) && ip in ipStates && time == now
      modifies `ipStates, `packetLog
      ensures Consistent(1)
      ensures var (w, pass) := RateWindow.Admit(old(ipStates)[ip].packets, now, SECOND, limit);
              && ok == pass && ipStates == old(ipStates)[ip := old(ipStates)[ip].(packets := w)]
                  && now < w.start + SECOND
      ensures packetLog == LogPass(old(packetLog), ip, old(ipStates)[ip].packets, now, SECOND, limit)
    {
      hide Ladders, Pings, TicketWorld, Tables, Rates, Probes, TicketTable, Sound;
      var (w, pass) := RateWindow.Admit(ipStates[ip].packets, now, SECOND, limit);
      RatesPacket(ipStates, packetLog, handshakeLog, time, ip, limit);
      TablesIp(sessions, byClient, ipStates, backends, forwarded, retired, ip, ipStates[ip].(packets := w));
      LaddersIp(ipStates, ladders, ip, ipStates[ip].(packets := w));
      PingsIp(ipStates, pingLog, loose, time, ip, ipStates[ip].(packets := w));
      packetLog := LogPass(packetLog, ip, ipStates[ip].packets, now, SECOND, limit);
      ipStates := ipStates[ip := ipStates[ip].(packets := w)];
      ok := pass;
    }

    method CheckHandshakeRate(ip: Ip, limit: nat, now: nat) returns (ok: bool)
      requires Consistent(1) && ip in ipStates && time == now < ipStates[ip].packets.start + SECOND
      modifies `ipStates, `handshakeLog
      ensures Consistent(1)
      ensures var (w, pass) := RateWindow.Admit(old(ipStates)[ip].handshakes, now, MINUTE, limit);
              ok == pass && ipStates == old(ipStates)[ip := old(ipStates)[ip].(handshakes := w)]
      ensures handshakeLog == LogPass(old(handshakeLog), ip, old(ipStates)[ip].handshakes, now, MINUTE, limit)
    {
      hide Ladders, Pings, TicketWorld, Tables, Rates, Probes, TicketTable, Sound;
      var (w, pass) := RateWindow.Admit(ipStates[ip].handshakes, now, MINUTE, limit);
      RatesHandshake(ipStates, packetLog, handshakeLog, time, ip, limit);
      TablesIp(sessions, byClient, ipStates, backends, forwarded, retired, ip, ipStates[ip].(handshakes := w));
      LaddersIp(ipStates, ladders, ip, ipStates[ip].(handshakes := w));
      PingsIp(ipStates, pingLog, loose, time, ip, ipStates[ip].(handshakes := w));
      handshakeLog := LogPass(handshakeLog, ip, ipStates[ip].handshakes, now, MINUTE, limit);
      ipStates := ipStates[ip := ipStates[ip].(handshakes := w)];
      ok := pass;
    }

    /** What every rate check leaves alone. */
    twostate predicate OnlyDropped(new action: Option<Action>)
      reads this
    {
      && ipStates.Keys == old(ipStates).Keys
      && counters.clientPackets == old(counters).clientPackets
      && counters.sessionsOpened == old(counters).sessionsOpened
          && counters.sessionsClosed == old(counters).sessionsClosed
      && counters.cachedPongs == old(counters).cachedPongs
      && counters.dropped == old(counters).dropped + if action.Some? && IsDrop(action.value) then 1 else 0
    }

    /** If the address is policed, its packet window was checked at this time. */
    predicate Rolled(ip: Ip, now: nat)
      reads `ipStates, `config, `allowlist
    {
      ip in ipStates && (Policed(ip) ==> now < ipStates[ip].packets.start + SECOND)
    }

    /** Packet rate of the address, then, for handshakes, its handshake rate. */
    method AddressRates(ip: Ip, handshake: bool, packetLimit: nat, handshakeLimit: nat, now: nat, o: Outcomes)
                        returns (action: Option<Action>)
      requires Consistent(1) && ip in ipStates && time == now
      modifies `counters, `ipStates, `ladders, `packetLog, `handshakeLog
      ensures Consistent(if action.Some? then 0 else 1) && OnlyDropped(action)
      ensures ReachedRates(action)
      ensures action == None ==> now < ipStates[ip].packets.start + SECOND
      ensures Sound(config) && (action.Some? ==> Charged(old(ipStates)[ip], ipStates[ip], action.value,
          ip in allowlist, o, config))
      ensures Checked(old(packetLog), packetLog, ip, old(ipStates)[ip].packets, now, SECOND, packetLimit,
          action != Some(DropIpRate))
      ensures if action != Some(DropIpRate) && handshake
              then Checked(old(handshakeLog), handshakeLog, ip, old(ipStates)[ip].handshakes, now, MINUTE,
                  handshakeLimit, action == None)
              else handshakeLog == old(handshakeLog) && action != Some(DropHandshakeRate)
    {
      hide Consistent, Checked, Charged;
      SoundNow(1);
      action := RateVerdict(ip, handshake, packetLimit, handshakeLimit, now);
      if action.Some? {
        ghost var before := ipStates[ip];
        DropPunished(ip, action.value, o);
        ChargedAnyWindow(old(ipStates)[ip], before, ipStates[ip], action.value, ip in allowlist, o, config);
      }
    }

    method RateVerdict(ip: Ip, handshake: bool, packetLimit: nat, handshakeLimit: nat, now: nat)
                       returns (action: Option<Action>)
      requires ip in ipStates && time == now && Consistent(1)
      modifies `ipStates, `packetLog, `handshakeLog
      ensures ReachedRates(action) && ipStates.Keys == old(ipStates).Keys
      ensures action == None ==> now < ipStates[ip].packets.start + SECOND
      ensures var s, t := old(ipStates)[ip], ipStates[ip]; t == s.(packets := t.packets, handshakes := t.handshakes)
      ensures Checked(old(packetLog), packetLog, ip, old(ipStates)[ip].packets, now, SECOND, packetLimit,
          action != Some(DropIpRate))
      ensures if action != Some(DropIpRate) && handshake
              then Checked(old(handshakeLog), handshakeLog, ip, old(ipStates)[ip].handshakes, now, MINUTE,
                  handshakeLimit, action == None)
              else handshakeLog == old(handshakeLog) && action != Some(DropHandshakeRate)
      ensures Consistent(1)
    {
      hide Consistent, LogPass, RateWindow.Admit;
      var ok := CheckPacketRate(ip, packetLimit, now);
      if !ok {
        return Some(DropIpRate);
      }
      if handshake {
        ok := CheckHandshakeRate(ip, handshakeLimit, now);
        if !ok {
          return Some(DropHandshakeRate);
        }
      }
      return None;
    }

    /** The checks for addresses that are not allowlisted: size, global rate, then the rates of the
        address. */
    method Firewall(ip: Ip, id: nat, size: nat, profile: Profile, now: nat, o: Outcomes)
                    returns (action: Option<Action>)
      requires Consistent(1) && Sound(config) && ip in ipStates && time == now
      modifies `counters, `ipStates, `ladders, `globalWindow, `globalPackets, `packetLog, `handshakeLog
      ensures Consistent(if action.Some? then 0 else 1) && OnlyDropped(action)
      ensures action == Some(DropOversized) <==> size > profile.maxDatagram
      ensures action != Some(DropOversized) ==>
                (globalWindow, globalPackets) == if now >= old(globalWindow) + SECOND then (now, 1)
                    else (old(globalWindow), old(globalPackets))
      ensures action == Some(DropGlobalRate) <==> size <= profile.maxDatagram && globalPackets > config.globalRate
      ensures action == Some(DropOversized) || action == Some(DropGlobalRate) ==>
                packetLog == old(packetLog) && handshakeLog == old(handshakeLog)
      ensures action == None ==> now < ipStates[ip].packets.start + SECOND
      ensures action.Some? ==> action.value.DropOversized? || action.value.DropGlobalRate? || ReachedRates(action)
      ensures action.Some? && !action.value.DropGlobalRate? ==>
                Charged(old(ipStates)[ip], ipStates[ip], action.value, ip in allowlist, o, config)
      ensures ReachedRates(action) ==>
                Checked(old(packetLog), packetLog, ip, old(ipStates)[ip].packets, now, SECOND,
                        PacketLimit(config, profile, incident.on), action != Some(DropIpRate))
      ensures ReachedRates(action) && action != Some(DropIpRate) && IsHandshake(id) ==>
                Checked(old(handshakeLog), handshakeLog, ip, old(ipStates)[ip].handshakes, now, MINUTE,
                        HandshakeLimit(config, profile, incident.on), action == None)
    {
      hide Consistent, Checked, Charged, PacketLimit, HandshakeLimit;
      if size > profile.maxDatagram {
        DropPunished(ip, DropOversized, o);
        return Some(DropOversized);
      }
      RollGlobalWindow(now);
      if globalPackets > config.globalRate {
        DropQuietly(ip, true);
        return Some(DropGlobalRate);
      }
      action := AddressRates(ip, IsHandshake(id), PacketLimit(config, profile, incident.on),
                             HandshakeLimit(config, profile, incident.on), now, o);
    }

    method RollGlobalWindow(now: nat)
      modifies `globalWindow, `globalPackets
      requires Consistent(1)
      ensures Consistent(1)
      ensures (globalWindow, globalPackets) == if now >= old(globalWindow) + SECOND then (now, 1)
          else (old(globalWindow), old(globalPackets))
    {
      hide Agree, Ladders, Pings, TicketWorld;
      if now >= globalWindow + SECOND {
        globalWindow, globalPackets := now, 1;
      }
    }

    // ---- transfer tickets ------------------------------------------------

    lemma SameWorld(w: TransferProtocol.World)
      ensures TransferProtocol.Within(w, w)
    {
    }

    function TicketsHeld(): TicketState
      reads `tickets, `spent, `lastTicketReload
    {
      TicketState(tickets, spent, lastTicketReload)
    }

    /** `refresh_transfer_tickets`: re-read the ticket file when it is due and readable. */
    method RefreshTickets(now: nat, force: bool, file: Option<seq<Tickets.Ticket>>, epoch: int, ghost pending: nat)
      requires Outside(file, epoch) && Consistent(pending)
      modifies `tickets, `world, `spent, `lastTicketReload
      ensures TransferProtocol.Within(old(world), world) && world.routed == old(world).routed
      ensures TicketsHeld() == Refreshed(config, old(TicketsHeld()), now, force, file, epoch)
      ensures Consistent(pending)
    {
      hide Ladders, Pings, TicketWorld, Tables, Rates, Probes, Sound, TransferProtocol.Within, Refreshed;
      SameWorld(world);
      RefreshedCases(config, TicketsHeld(), now, force, file, epoch);
      if !config.transferEnabled {
        NoTickets(pending);
        tickets := map[];
        return;
      }
      if !force && now < lastTicketReload + config.ticketReload {
        return;
      }
      lastTicketReload := now;
      if file.None? {
        return;
      }
      LoadTickets(file.value, epoch, pending);
    }

    lemma NoTickets(pending: nat)
      requires Consistent(pending) && !config.transferEnabled
      ensures tickets == map[]
    {
      hide Agree, Ladders, Pings, TransferProtocol.Inv;
    }

    method LoadTickets(file: seq<Tickets.Ticket>, epoch: int, ghost pending: nat)
      requires config.transferEnabled && file == world.file && epoch == world.clock && Consistent(pending)
      modifies `tickets, `world, `spent
      ensures TransferProtocol.Within(old(world), world) && world.routed == old(world).routed
      ensures tickets == Tickets.LoadTable(config.view, file, old(spent), epoch)
          && spent == Tickets.Pruned(old(spent), tickets)
      ensures Consistent(pending)
    {
      hide Ladders, Pings, Tables, Rates, Probes, Sound, Incidents, Books, Tickets.LoadTable, Tickets.Pruned,
          TransferProtocol.Inv, TransferProtocol.Within;
      Tickets.LoadTableExact(config.view, file, spent, epoch);
      TransferProtocol.StepKeeps(world, TransferProtocol.Refresh);
      TransferProtocol.StepExtends(world, TransferProtocol.Refresh);
      tickets := Tickets.LoadTable(config.view, file, spent, epoch);
      spent := Tickets.Pruned(spent, tickets);
      world := TransferProtocol.Step(world, TransferProtocol.Refresh);
    }

    /** `transfer_backend_for_ping`: the destination of a usable ticket, without spending it. */
    method TicketBackend(port: nat, now: nat, o: Outcomes) returns (r: Option<nat>)
      requires Consistent(1)
      requires Outside(o.file, o.epoch)
      modifies `tickets, `world, `spent, `lastTicketReload
      ensures TransferProtocol.Within(old(world), world)
      ensures Consistent(1) && (r.Some? ==> IsUp(backends, config, r.value))
      ensures TicketsHeld() == Refreshed(config, old(TicketsHeld()), now, false, o.file, o.epoch)
      ensures r == if Usable(config, backends, tickets, port, o.epoch, o.sourceMatches)
          then Some(tickets[port].backend) else None
    {
      hide Consistent, IsUp, Refreshed;
      RefreshTickets(now, false, o.file, o.epoch, 1);
      if Usable(config, backends, tickets, port, o.epoch, o.sourceMatches) {
        return Some(tickets[port].backend);
      }
      return None;
    }

    /** `consume_transfer_ticket`: spend the ticket of this port if it is loaded, unspent, unexpired,
        matches the address and leads to an available backend. */
    method ConsumeTicket(port: nat, now: nat, o: Outcomes) returns (r: Option<Tickets.Loaded>)
      requires Consistent(1)
      requires Outside(o.file, o.epoch)
      modifies `tickets, `world, `spent, `lastTicketReload, `counters
      ensures TransferProtocol.Within(old(world), world)
      ensures Consistent(1)
      ensures var s := Refreshed(config, old(TicketsHeld()), now, false, o.file, o.epoch);
        if Usable(config, backends, s.table, port, o.epoch, o.sourceMatches)
        then r == Some(s.table[port]) && TicketsHeld() == s.(table := Tickets.Spend(s.table, port),
            spent := s.spent + {s.table[port].ticket.id})
        else r == None && TicketsHeld() == s
      ensures counters == if r.Some? then old(counters).(ticketsConsumed := old(counters).ticketsConsumed + 1)
          else old(counters)
      ensures world.routed == old(world).routed + if r.Some?
          then [TransferProtocol.Routing(r.value.ticket, world.clock, world.process)] else []
    {
      hide Consistent, IsUp, Refreshed, TransferProtocol.Extends;
      RefreshTickets(now, false, o.file, o.epoch, 1);
      ghost var refreshed := world;
      if !Usable(config, backends, tickets, port, o.epoch, o.sourceMatches) {
        return None;
      }
      r := Some(tickets[port]);
      SpendTicket(port);
      TransferProtocol.ExtendsTransitive(old(world), refreshed, world);
    }

    method SpendTicket(port: nat)
      requires Tickets.Spendable(tickets, port, world.clock, true, true) && Consistent(1)
      modifies `tickets, `world, `spent, `counters
      ensures tickets == Tickets.Spend(old(tickets), port) && spent == old(spent) + {old(tickets)[port].ticket.id}
      ensures counters == old(counters).(ticketsConsumed := old(counters).ticketsConsumed + 1)
      ensures TransferProtocol.Within(old(world), world)
      ensures world.routed == old(world).routed + [TransferProtocol.Routing(old(tickets)[port].ticket,
          old(world).clock, old(world).process)]
      ensures Consistent(1)
    {
      hide Ladders, Pings, Tables, Rates, Probes, Sound, Incident.Inv, TransferProtocol.Inv, TransferProtocol.Within;
      TransferProtocol.StepKeeps(world, TransferProtocol.Consume(port, true, true));
      TransferProtocol.StepExtends(world, TransferProtocol.Consume(port, true, true));
      world := TransferProtocol.Step(world, TransferProtocol.Consume(port, true, true));
      spent := spent + {tickets[port].ticket.id};
      tickets := Tickets.Spend(tickets, port);
      counters := counters.(ticketsConsumed := counters.ticketsConsumed + 1);
    }

    // ---- choosing a backend ----------------------------------------------

    /** `choose_backend` on the gateway's own backends. */
    method Choose(forSession: bool, ghost pending: nat) returns (r: Option<nat>)
      requires Consistent(pending)
      modifies `turn
      ensures Consistent(pending) && (r.Some? ==> IsUp(backends, config, r.value))
      ensures Routing.Chosen(Candidates(backends), config.healthEnabled, config.primary, config.mode, old(turn),
          forSession, r)
      ensures turn == old(turn) + if config.mode == Routing.RoundRobin
          && (exists i: nat :: Routing.Up(Candidates(backends), config.healthEnabled, i)) then 1 else 0
    {
      hide Ladders, Pings, TicketWorld, Tables, Rates, Probes, Sound, TicketTable, Routing.Chosen;
      r, turn := Routing.ChooseBackend(Candidates(backends), config.healthEnabled, config.primary, config.mode, turn,
          forSession);
      Routing.ChoiceIsUp(Candidates(backends), config.healthEnabled, config.primary, config.mode, old(turn),
          forSession, r);
    }

    /** The backend that answers for a listener: its static route, the routing mode on the main port, or the
        destination of a usable ticket. */
    ghost predicate AnswersFor(r: Option<nat>, listener: nat, turn0: nat, o: Outcomes)
      reads this
    {
      if listener in config.staticRoutes then r == StaticBackend(config, backends, listener)
      else if listener == config.listenPort then
        Routing.Chosen(Candidates(backends), config.healthEnabled, config.primary, config.mode, turn0, false, r)
      else
        r == if Usable(config, backends, tickets, listener, o.epoch, o.sourceMatches)
            then Some(tickets[listener].backend) else None
    }

    /** The backend whose cached answer a ping on this listener gets. */
    method PingBackend(listener: nat, now: nat, o: Outcomes) returns (r: Option<nat>)
      requires Consistent(1)
      requires Outside(o.file, o.epoch)
      modifies `turn, `tickets, `world, `spent, `lastTicketReload
      ensures TransferProtocol.Within(old(world), world)
      ensures Consistent(1) && (r.Some? ==> IsUp(backends, config, r.value))
      ensures AnswersFor(r, listener, old(turn), o)
    {
      hide Consistent, Routing.Chosen, Refreshed;
      if listener in config.staticRoutes {
        r := StaticBackend(config, backends, listener);
      } else if listener == config.listenPort {
        r := Choose(false, 1);
      } else {
        r := TicketBackend(listener, now, o);
      }
    }

    /** Answer an unconnected ping from the cache, within its own rate limit; without a cached answer
        the ping is handled like any other packet. */
    method AnswerPing(ip: Ip, listener: nat, now: nat, o: Outcomes)
                      returns (action: Option<Action>, answeredBy: Option<nat>)
      requires time == now && Rolled(ip, now) && Consistent(1)
      requires Outside(o.file, o.epoch)
      modifies `counters, `ipStates, `ladders, `pingLog, `loose, `turn, `tickets, `world, `spent, `lastTicketReload
      ensures TransferProtocol.Within(old(world), world)
      ensures Consistent(if action.Some? then 0 else 1) && ipStates.Keys == old(ipStates).Keys && ip in ipStates
      ensures PingTotals(old(counters), counters, action) && (action.Some? ==> (action.value.DropPingRate?
          || action.value.CachedPong?))
      ensures Checked(old(pingLog), pingLog, ip, old(ipStates)[ip].pings, now, SECOND, config.pingLimit,
          action != Some(DropPingRate))
      ensures loose == old(loose) + (if Policed(ip) then {} else {ip})
      ensures Sound(config) && (action == Some(DropPingRate)
          ==> Charged(old(ipStates)[ip], ipStates[ip], DropPingRate, ip in allowlist, o, config))
      ensures action == Some(CachedPong) <==> answeredBy.Some?
      ensures answeredBy.Some? ==>
        && o.pongSent && IsUp(backends, config, answeredBy.value) && backends[answeredBy.value].cachedPong != []
        && AnswersFor(answeredBy, listener, old(turn), o)
    {
      hide Consistent, Checked, Charged, AnswersFor, Policed, Climbing, IsUp;
      SoundNow(1);
      answeredBy := None;
      var ok := CheckPingRate(ip, config.pingLimit, now);
      if !ok {
        ghost var before := ipStates[ip];
        SameWorld(world);
        DropPunished(ip, DropPingRate, o);
        ChargedAnyWindow(old(ipStates)[ip], before, ipStates[ip], DropPingRate, ip in allowlist, o, config);
        return Some(DropPingRate), None;
      }
      action, answeredBy := FromCache(listener, now, o);
    }

    method CheckPingRate(ip: Ip, limit: nat, now: nat) returns (ok: bool)
      requires time == now && Rolled(ip, now) && Consistent(1)
      modifies `ipStates, `pingLog, `loose
      ensures Checked(old(pingLog), pingLog, ip, old(ipStates)[ip].pings, now, SECOND, limit, ok)
      ensures ip in ipStates && ipStates == old(ipStates)[ip := ipStates[ip]]
          && OnlyPings(old(ipStates)[ip], ipStates[ip])
      ensures loose == old(loose) + (if Policed(ip) then {} else {ip})
      ensures Consistent(1)
    {
      hide Consistent, Checked;
      if !Policed(ip) {
        Loosen(ip);
      }
      ok := CountPing(ip, limit, now);
    }

    /** The address is not policed, so its ping window may outlive its record. */
    ghost method Loosen(ip: Ip)
      requires Consistent(1)
      modifies `loose
      ensures loose == old(loose) + {ip} && Consistent(1)
    {
      hide Agree, Ladders, Pings, TicketWorld;
      PingsLoosen(ipStates, pingLog, loose, time, ip);
      loose := loose + {ip};
    }

    method CountPing(ip: Ip, limit: nat, now: nat) returns (ok: bool)
      requires time == now && ip in ipStates && (ip !in loose ==> now < ipStates[ip].packets.start + SECOND)
          && Consistent(1)
      modifies `ipStates, `pingLog
      ensures Checked(old(pingLog), pingLog, ip, old(ipStates)[ip].pings, now, SECOND, limit, ok)
      ensures ip in ipStates && ipStates == old(ipStates)[ip := ipStates[ip]]
          && OnlyPings(old(ipStates)[ip], ipStates[ip])
      ensures Consistent(1)
    {
      hide Ladders, Pings, TicketWorld, Tables, Rates, Probes, TicketTable, Sound, Incident.Inv, RateWindow.Admit,
          LogPass;
      var (w, pass) := RateWindow.Admit(ipStates[ip].pings, now, SECOND, limit);
      RatesPing(ipStates, packetLog, handshakeLog, time, ip, w);
      TablesIp(sessions, byClient, ipStates, backends, forwarded, retired, ip, ipStates[ip].(pings := w));
      LaddersIp(ipStates, ladders, ip, ipStates[ip].(pings := w));
      PingsCheck(ipStates, pingLog, loose, time, ip, limit);
      pingLog := LogPass(pingLog, ip, ipStates[ip].pings, now, SECOND, limit);
      ipStates := ipStates[ip := ipStates[ip].(pings := w)];
      ok := pass;
    }

    /** The cached answer of the backend for this listener, if there is one and it can be sent. */
    method FromCache(listener: nat, now: nat, o: Outcomes) returns (action: Option<Action>, answeredBy: Option<nat>)
      requires Consistent(1)
      requires Outside(o.file, o.epoch)
      modifies `counters, `turn, `tickets, `world, `spent, `lastTicketReload
      ensures TransferProtocol.Within(old(world), world)
      ensures Consistent(if action.Some? then 0 else 1)
      ensures PingTotals(old(counters), counters, action) && action == if answeredBy.Some? then Some(CachedPong)
          else None
      ensures answeredBy.Some? ==>
        && o.pongSent && IsUp(backends, config, answeredBy.value) && backends[answeredBy.value].cachedPong != []
        && AnswersFor(answeredBy, listener, old(turn), o)
    {
      hide Consistent, Routing.Chosen, StaticBackend, Usable, TransferProtocol.Within;
      var b := PingBackend(listener, now, o);
      if b.Some? && backends[b.value].cachedPong != [] && o.pongSent {
        CountPong();
        return Some(CachedPong), b;
      }
      return None, None;
    }

    method CountPong()
      requires Consistent(1)
      modifies `counters
      ensures Consistent(0)
      ensures counters == old(counters).(cachedPongs := old(counters).cachedPongs + 1,
          serverPackets := old(counters).serverPackets + 1)
    {
      hide Ladders, Pings, TicketWorld, Tables, Rates, Probes, TicketTable, Sound;
      counters := counters.(cachedPongs := counters.cachedPongs + 1, serverPackets := counters.serverPackets + 1);
    }

    // ---- sessions --------------------------------------------------------

    /** Where a new session on this listener goes: its static route, the routing mode on the main
        port, or a transfer ticket that is spent by this. */
    method Route(listener: nat, now: nat, o: Outcomes) returns (b: Option<nat>, ticketId: string)
      requires Consistent(1)
      requires Outside(o.file, o.epoch)
      modifies `turn, `tickets, `world, `spent, `lastTicketReload, `counters
      ensures TransferProtocol.Within(old(world), world)
      ensures Consistent(1) && (b.Some? ==> IsUp(backends, config, b.value))
      ensures counters == old(counters).(ticketsConsumed := counters.ticketsConsumed)
      ensures listener in config.staticRoutes ==> b == StaticBackend(config, backends, listener) && ticketId == ""
      ensures listener !in config.staticRoutes && listener == config.listenPort ==>
        ticketId == "" && Routing.Chosen(Candidates(backends), config.healthEnabled, config.primary, config.mode,
            old(turn), true, b)
      ensures listener !in config.staticRoutes && listener != config.listenPort && b.Some? ==>
        && listener in tickets && tickets[listener].consumed && tickets[listener].backend == b.value
        && tickets[listener].ticket.id == ticketId && ticketId in spent && tickets[listener].ticket.expiresAt > o.epoch
    {
      hide Consistent, Routing.Chosen, Refreshed;
      ticketId := "";
      if listener in config.staticRoutes {
        b := StaticBackend(config, backends, listener);
      } else if listener == config.listenPort {
        b := Choose(true, 1);
      } else {
        var ticket := ConsumeTicket(listener, now, o);
        b := None;
        if ticket.Some? {
          b, ticketId := Some(ticket.value.backend), ticket.value.ticket.id;
        }
      }
    }

    /** Enter a new session in both tables and all counts. */
    method OpenSession(fd: int, s: Session)
      requires fd !in sessions && EndpointOf(s) !in byClient && s.clientPackets == 0
      requires |sessions| < config.maxSessions && s.backend < |backends| && s.ip == IpOf(s.client) && s.ip in ipStates
          && Consistent(1)
      modifies `sessions, `byClient, `ipStates, `backends, `counters
      ensures Entered(old(sessions), sessions, old(byClient), byClient, old(ipStates), ipStates, old(backends),
          backends, old(counters), counters, fd, s)
      ensures Consistent(1)
    {
      hide Consistent, AddIp, AddBackend, IpOf, EndpointOf, With, Opened, Entered;
      EnteredSo(sessions, byClient, ipStates, backends, counters, fd, s);
      sessions, byClient := With(sessions, fd, s), With(byClient, EndpointOf(s), fd);
      ipStates, backends := AddIp(ipStates, s.ip, 1), AddBackend(backends, s.backend, 1);
      counters := Opened(counters);
      OpenKeeps(fd, s);
    }

    twostate lemma OpenKeeps(new fd: int, new s: Session)
      requires old(Consistent(1)) && fd !in old(sessions) && EndpointOf(s) !in old(byClient) && s.clientPackets == 0
      requires |old(sessions)| < config.maxSessions && s.backend < |old(backends)| && s.ip == IpOf(s.client)
          && s.ip in old(ipStates)
      requires Entered(old(sessions), sessions, old(byClient), byClient, old(ipStates), ipStates, old(backends),
          backends, old(counters), counters, fd, s)
      requires unchanged(`config, `forwarded, `retired, `time, `packetLog, `handshakeLog, `probeLogs, `incident,
          `incidentLog, `ladders, `pingLog, `loose,
                         `tickets, `spent, `world)
      ensures Consistent(1)
    {
      hide Ladders, Pings, TicketWorld, Agree, AddIp, AddBackend, IpOf, EndpointOf, With, Opened;
      AgreeOpen(old(sessions), old(byClient), old(ipStates), old(backends), old(forwarded), old(retired),
          old(counters), config,
                packetLog, handshakeLog, time, probeLogs, incident, incidentLog, tickets, 1, fd, s);
      LaddersAdd(old(ipStates), ladders, s.ip, 1);
      PingsAdd(old(ipStates), pingLog, loose, time, s.ip, 1);
    }

    /** Pass the packet to the backend of its session. */
    method SendUpstream(fd: int, ip: Ip, now: nat, sent: bool) returns (action: Action)
      requires Consistent(1) && fd in sessions && ip in ipStates
      modifies `sessions, `ipStates, `counters, `forwarded
      ensures Consistent(0) && action == if sent then Forward else DropUpstreamSend
      ensures sent ==>
        && sessions == old(sessions)[fd := Booked(old(sessions)[fd], now)]
        && forwarded == old(forwarded) + 1 && counters == old(counters) && ipStates == old(ipStates)
      ensures !sent ==>
        && sessions == old(sessions) && forwarded == old(forwarded) && ipStates.Keys == old(ipStates).Keys
        && counters == old(counters).(dropped := old(counters).dropped + 1)
    {
      hide Consistent;
      if sent {
        CountForward(fd, now);
        return Forward;
      }
      DropQuietly(ip, false);
      return DropUpstreamSend;
    }

    method CountForward(fd: int, now: nat)
      requires Consistent(1) && fd in sessions
      modifies `sessions, `forwarded
      ensures Consistent(0) && forwarded == old(forwarded) + 1
      ensures sessions == old(sessions)[fd := Booked(old(sessions)[fd], now)]
    {
      hide Ladders, Pings, TicketWorld, Tables, Rates, Probes, Sound, TicketTable, Incident.Inv;
      var s := Booked(sessions[fd], now);
      TablesTouch(sessions, byClient, ipStates, backends, forwarded, retired, fd, s);
      sessions := sessions[fd := s];
      forwarded := forwarded + 1;
    }

    /** Why a new session is refused before a backend is even chosen. */
    method Refuse(ip: Ip, profile: Profile, o: Outcomes) returns (action: Option<Action>)
      requires Consistent(1) && Sound(config) && ip in ipStates
      modifies `counters, `ipStates, `ladders
      ensures Consistent(if action.Some? then 0 else 1) && OnlyDropped(action)
      ensures action == Some(DropMaintenance) <==> maintenance
      ensures action == Some(DropDrain) <==> !maintenance && drain
      ensures action == Some(DropIncident) <==> !maintenance && !drain && incident.on && !profile.allowDuringIncident
      ensures action == Some(DropSessionLimit) <==>
                && !maintenance && !drain && !(incident.on && !profile.allowDuringIncident)
                && (|sessions| >= config.maxSessions || |FromIp(sessions, ip)| >= profile.maxSessionsPerIp)
      ensures action.Some? ==> IsRefusal(action.value)
      ensures action == Some(DropSessionLimit) ==> Charged(old(ipStates)[ip], ipStates[ip], DropSessionLimit,
          ip in allowlist, o, config)
    {
      hide Consistent, Charged, FromIp;
      SessionsOf(ip, 1);
      if maintenance || drain || (incident.on && !profile.allowDuringIncident) {
        DropQuietly(ip, false);
        return Some(if maintenance then DropMaintenance else if drain then DropDrain else DropIncident);
      }
      if |sessions| >= config.maxSessions || ipStates[ip].activeSessions >= profile.maxSessionsPerIp {
        DropPunished(ip, DropSessionLimit, o);
        return Some(DropSessionLimit);
      }
      return None;
    }

    /** The session count of an address is the number of its sessions in the table. */
    lemma SessionsOf(ip: Ip, pending: nat)
      requires Consistent(pending) && ip in ipStates
      ensures ipStates[ip].activeSessions == |FromIp(sessions, ip)|
    {
      hide Ladders, Pings, TicketWorld, FromIp, Rates, Probes, Books, Incidents, TicketTable, Sound, Links, Forwarding;
    }

    /** No backend for a new session. */
    method DropUnrouted(ip: Ip, listener: nat) returns (action: Action)
      requires Consistent(1) && ip in ipStates
      modifies `counters, `ipStates
      ensures Consistent(0) && OnlyDropped(Some(action))
      ensures action == if listener in config.staticRoutes then DropStaticRoute
                        else if listener == config.listenPort then DropNoBackend else DropTicket
      ensures counters.ticketRejections == old(counters).ticketRejections + if action == DropTicket then 1 else 0
    {
      hide Ladders, Pings, TicketWorld, Tables, Rates, Probes, TicketTable, Sound, Incident.Inv;
      DropQuietly(ip, false);
      if listener in config.staticRoutes {
        return DropStaticRoute;
      }
      if listener == config.listenPort {
        return DropNoBackend;
      }
      counters := counters.(ticketRejections := counters.ticketRejections + 1);
      return DropTicket;
    }

    /** One session was added, towards an available backend and, on a transfer port, for a ticket that
        is spent now and was not expired. */
    predicate Connected(before: map<int, Session>, index: map<Endpoint, int>, client: SockAddr, listener: nat, fd: int,
                        epoch: nat)
      reads this
    {
      && fd !in before && fd in sessions && sessions.Keys == before.Keys + {fd}
      && (forall g :: g in before ==> g in sessions && sessions[g] == before[g])
      && byClient == index[Endpoint(client, listener) := fd]
      && sessions[fd].client == client && sessions[fd].listener == listener
      && IsUp(backends, config, sessions[fd].backend)
      && (listener in config.staticRoutes ==> backends[sessions[fd].backend].name == config.staticRoutes[listener])
      && (listener !in config.staticRoutes && listener != config.listenPort ==>
            && listener in tickets && tickets[listener].consumed && tickets[listener].ticket.expiresAt > epoch
            && tickets[listener].backend == sessions[fd].backend
            && tickets[listener].ticket.id == sessions[fd].ticketId && sessions[fd].ticketId in spent)
    }

    /** Choose a backend, open a socket towards it and enter the session. */
    method Connect(client: SockAddr, listener: nat, now: nat, o: Outcomes) returns (action: Option<Action>, fd: int)
      requires Consistent(1) && !halted && IpOf(client) in ipStates && Endpoint(client, listener) !in byClient
      requires o.socket.Some? ==> o.socket.value !in sessions
      requires |sessions| < config.maxSessions
      requires Outside(o.file, o.epoch)
      modifies `counters, `ipStates, `turn, `tickets, `world, `spent, `lastTicketReload, `sessions, `byClient,
          `backends, `halted
      ensures TransferProtocol.Within(old(world), world)
      ensures Consistent(if action.Some? && IsDrop(action.value) then 0 else 1) && ipStates.Keys == old(ipStates).Keys
      ensures action == Some(Fatal) <==> halted
      ensures action == None ==> (o.socket == Some(fd) && Connected(old(sessions), old(byClient), client, listener, fd,
          o.epoch) && IsNew(sessions, fd))
      ensures action.Some? ==> sessions == old(sessions) && byClient == old(byClient) && backends == old(backends)
      ensures action.Some? ==> IsUnconnected(action.value) || action.value.Fatal?
      ensures counters.clientPackets == old(counters).clientPackets && counters.cachedPongs == old(counters).cachedPongs
      ensures counters.dropped == old(counters).dropped + if action.Some? && IsDrop(action.value) then 1 else 0
    {
      hide Consistent, IpOf, Routing.Chosen, StaticBackend, IsUp, IsDrop, IsUnconnected;
      var ip := IpOf(client);
      var b, ticketId := Route(listener, now, o);
      if b.None? {
        var why := DropUnrouted(ip, listener);
        Kinds(why);
        return Some(why), 0;
      }
      StaticName(listener);
      Kinds(DropUpstreamSocket);
      Kinds(Fatal);
      action, fd := Attach(client, listener, b.value, ticketId, now, o);
    }

    /** With a backend chosen: get a socket and enter the session. */
    method Attach(client: SockAddr, listener: nat, b: nat, ticketId: string, now: nat, o: Outcomes)
                  returns (action: Option<Action>, fd: int)
      requires Consistent(1) && !halted && IpOf(client) in ipStates && Endpoint(client, listener) !in byClient
      requires o.socket.Some? ==> o.socket.value !in sessions
      requires |sessions| < config.maxSessions && IsUp(backends, config, b)
      modifies `counters, `ipStates, `sessions, `byClient, `backends, `halted
      ensures Consistent(if action == Some(DropUpstreamSocket) then 0 else 1) && ipStates.Keys == old(ipStates).Keys
      ensures action == (if o.socket.None? then Some(DropUpstreamSocket) else if !o.registered then Some(Fatal)
          else None)
      ensures halted <==> action == Some(Fatal)
      ensures action == None ==>
        && fd == o.socket.value && sessions == old(sessions)[fd := Session(client, listener, IpOf(client), b, ticketId,
            now, now, 0, 0)]
        && byClient == old(byClient)[Endpoint(client, listener) := fd]
        && b < |backends| == |old(backends)| && IsUp(backends, config, b) && backends[b].name == old(backends)[b].name
      ensures action.Some? ==> sessions == old(sessions) && byClient == old(byClient) && backends == old(backends)
      ensures counters == old(counters).(dropped := old(counters).dropped + (if action == Some(DropUpstreamSocket)
          then 1 else 0),
                                         sessionsOpened := old(counters).sessionsOpened + (if action == None then 1
                                             else 0))
    {
      hide Consistent, IpOf, IsUp, AddIp, AddBackend;
      if o.socket.None? {
        DropQuietly(IpOf(client), false);
        return Some(DropUpstreamSocket), 0;
      }
      if !o.registered {
        Halt();
        return Some(Fatal), 0;
      }
      StillUp(b);
      AddIpKeys(ipStates, IpOf(client), 1);
      OpenSession(o.socket.value, Session(client, listener, IpOf(client), b, ticketId, now, now, 0, 0));
      return None, o.socket.value;
    }

    lemma StaticName(listener: nat)
      ensures listener in config.staticRoutes && StaticBackend(config, backends, listener).Some? ==>
        var b := StaticBackend(config, backends, listener).value;
        b < |backends| && backends[b].name == config.staticRoutes[listener]
    {
    }

    /** Counting a session does not change what a backend is. */
    lemma StillUp(b: nat)
      requires IsUp(backends, config, b)
      ensures b < |backends| && |AddBackend(backends, b, 1)| == |backends|
      ensures IsUp(AddBackend(backends, b, 1), config, b) && AddBackend(backends, b, 1)[b].name == backends[b].name
    {
    }

    method Halt()
      requires Consistent(1)
      modifies `halted
      ensures Consistent(1) && halted
    {
      halted := true;
    }

    /** Nothing forbids a new session from this address: neither the mode nor a session limit. */
    predicate MayOpen(before: map<int, Session>, ip: Ip, profile: Profile)
      reads `maintenance, `drain, `incident, `config
    {
      && !maintenance && !drain && (incident.on ==> profile.allowDuringIncident)
      && |before| < config.maxSessions && |FromIp(before, ip)| < profile.maxSessionsPerIp
    }

    /** A packet from an endpoint without a session: refuse it or open a session for it. */
    method StartSession(client: SockAddr, listener: nat, profile: Profile, now: nat, o: Outcomes)
                        returns (action: Option<Action>, fd: int)
      requires Consistent(1) && !halted && IpOf(client) in ipStates && Endpoint(client, listener) !in byClient
      requires o.socket.Some? ==> o.socket.value !in sessions
      requires Outside(o.file, o.epoch)
      modifies `counters, `ipStates, `ladders, `turn, `tickets, `world, `spent, `lastTicketReload, `sessions,
          `byClient, `backends, `halted
      ensures TransferProtocol.Within(old(world), world)
      ensures Consistent(if action.Some? && IsDrop(action.value) then 0 else 1) && ipStates.Keys == old(ipStates).Keys
      ensures action == Some(Fatal) <==> halted
      ensures action == None ==> (o.socket == Some(fd) && Connected(old(sessions), old(byClient), client, listener, fd,
          o.epoch) && IsNew(sessions, fd))
      ensures action.Some? ==> sessions == old(sessions) && byClient == old(byClient) && backends == old(backends)
      ensures action.Some? ==> IsRefusal(action.value) || IsUnconnected(action.value) || action.value.Fatal?
      ensures counters.clientPackets == old(counters).clientPackets && counters.cachedPongs == old(counters).cachedPongs
      ensures counters.dropped == old(counters).dropped + if action.Some? && IsDrop(action.value) then 1 else 0
      ensures (action.Some? && IsRefusal(action.value)) <==>
                !MayOpen(old(sessions), IpOf(client), profile)
    {
      hide Consistent, FromIp, IpOf, IsUp, Connected, IsDrop, IsUnconnected, IsScreening;
      SoundNow(1);
      fd := 0;
      action := Refuse(IpOf(client), profile, o);
      if action.None? {
        action, fd := Connect(client, listener, now, o);
      }
      if action.Some? {
        Kinds(action.value);
      }
    }

    predicate SameSessions(before: map<int, Session>, index: map<Endpoint, int>, bs: seq<Backend>)
      reads this
    {
      sessions.Keys == before.Keys && byClient == index && backends == bs
    }

    /** A session is added only for a packet that went towards a backend from an endpoint without one, and
        only when that was allowed; otherwise sessions, index and backends are as before. */
    predicate SessionRule(before: map<int, Session>, index: map<Endpoint, int>, bs: seq<Backend>, client: SockAddr,
                          listener: nat,
                          profile: Profile, action: Action, o: Outcomes)
      reads this
    {
      if Endpoint(client, listener) !in index && (action.Forward? || action.DropUpstreamSend?)
      then o.socket.Some? && Connected(before, index, client, listener, o.socket.value, o.epoch)
          && MayOpen(before, IpOf(client), profile)
      else SameSessions(before, index, bs)
    }

    /** Pass the packet on through the session of its endpoint, opening one if need be. */
    method Relay(client: SockAddr, listener: nat, profile: Profile, now: nat, o: Outcomes) returns (action: Action)
      requires Consistent(1) && !halted && IpOf(client) in ipStates
      requires o.socket.Some? ==> o.socket.value !in sessions
      requires Outside(o.file, o.epoch)
      modifies `counters, `ipStates, `ladders, `turn, `tickets, `world, `spent, `lastTicketReload, `sessions,
          `byClient, `backends, `halted, `forwarded
      ensures TransferProtocol.Within(old(world), world)
      ensures Consistent(if halted then 1 else 0) && Settled(old(counters), old(forwarded), counters, forwarded,
          halted, action)
      ensures !action.CachedPong? && !IsScreening(action)
      ensures Touched(old(sessions), sessions, byClient, Endpoint(client, listener), now, action.Forward?)
      ensures SessionRule(old(sessions), old(byClient), old(backends), client, listener, profile, action, o)
      ensures Endpoint(client, listener) in old(byClient) ==> action == (if o.sent then Forward else DropUpstreamSend)
    {
      hide Consistent, IpOf, IsUp, MayOpen, Connected;
      var endpoint := Endpoint(client, listener);
      if endpoint in byClient {
        NoDangling(endpoint);
        action := SendUpstream(byClient[endpoint], IpOf(client), now, o.sent);
      } else {
        action := RelayNew(client, listener, profile, now, o);
      }
    }

    method RelayNew(client: SockAddr, listener: nat, profile: Profile, now: nat, o: Outcomes) returns (action: Action)
      requires Consistent(1) && !halted && IpOf(client) in ipStates && Endpoint(client, listener) !in byClient
      requires o.socket.Some? ==> o.socket.value !in sessions
      requires Outside(o.file, o.epoch)
      modifies `counters, `ipStates, `ladders, `turn, `tickets, `world, `spent, `lastTicketReload, `sessions,
          `byClient, `backends, `halted, `forwarded
      ensures TransferProtocol.Within(old(world), world)
      ensures Consistent(if halted then 1 else 0) && Settled(old(counters), old(forwarded), counters, forwarded,
          halted, action)
      ensures !action.CachedPong? && !IsScreening(action)
      ensures Touched(old(sessions), sessions, byClient, Endpoint(client, listener), now, action.Forward?)
      ensures if action == Forward || action == DropUpstreamSend
        then o.socket.Some? && Connected(old(sessions), old(byClient), client, listener, o.socket.value, o.epoch)
            && MayOpen(old(sessions), IpOf(client), profile)
        else SameSessions(old(sessions), old(byClient), old(backends))
    {
      hide Consistent, IpOf, IsUp, MayOpen, IsDrop, IsRefusal, IsUnconnected, IsScreening, IsNew, Connected, Touched;
      var refused, fd := StartSession(client, listener, profile, now, o);
      if refused.Some? {
        Kinds(refused.value);
        TouchedNone(sessions, byClient, Endpoint(client, listener), now);
        return refused.value;
      }
      action := SendFirst(old(sessions), old(byClient), client, listener, fd, now, o);
      Kinds(action);
    }

    /** Pass the packet that opened a session to its backend. */
    method SendFirst(ghost before: map<int, Session>, ghost index: map<Endpoint, int>, client: SockAddr, listener: nat,
                     fd: int,
                     now: nat, o: Outcomes) returns (action: Action)
      requires IpOf(client) in ipStates && IsNew(sessions, fd)
      requires Connected(before, index, client, listener, fd, o.epoch) && Consistent(1)
      modifies `sessions, `ipStates, `counters, `forwarded
      ensures action == if o.sent then Forward else DropUpstreamSend
      ensures Connected(before, index, client, listener, fd, o.epoch)
      ensures Touched(before, sessions, byClient, Endpoint(client, listener), now, action.Forward?)
      ensures counters == old(counters).(dropped := old(counters).dropped + if o.sent then 0 else 1)
      ensures forwarded == old(forwarded) + if o.sent then 1 else 0
      ensures Consistent(0)
    {
      hide Consistent, IpOf, IsUp, Touched;
      TouchedNew(before, sessions, byClient, Endpoint(client, listener), fd, now);
      action := SendUpstream(fd, IpOf(client), now, o.sent);
    }

    /** An index entry always leads to a session: the handler's branch for a dangling one is dead. */
    lemma NoDangling(endpoint: Endpoint)
      requires Consistent(1) && endpoint in byClient
      ensures byClient[endpoint] in sessions && EndpointOf(sessions[byClient[endpoint]]) == endpoint
    {
      hide Ladders, Pings, TicketWorld, Loads, Rates, Probes, Books, Incidents, TicketTable, Sound, Forwarding;
    }

    // ---- the whole handler -----------------------------------------------

    /** `profile_for_listener`: the profile of the endpoint's session, else of the static route, else
        the default one. */
    function ProfileFor(listener: nat, endpoint: Endpoint): Profile
      reads this
    {
      if endpoint in byClient && byClient[endpoint] in sessions
          && sessions[byClient[endpoint]].backend < |backends| then
        ProfileNamed(config, backends[sessions[byClient[endpoint]].backend].profile)
      else if listener in config.staticRoutes && IndexByName(backends, config.staticRoutes[listener]).Some? then
        ProfileNamed(config, backends[IndexByName(backends, config.staticRoutes[listener]).value].profile)
      else config.defaultProfile
    }

    /** The address is subject to the rate checks. */
    predicate Policed(ip: Ip)
      reads `config, `allowlist
    {
      config.firewallEnabled && ip !in allowlist
    }

    /** Empty packets, packets from denied and from banned addresses are dropped as such, and no others. */
    predicate BarredRightly(a: Option<Action>, ip: Ip, size: nat, s: IpState, now: nat, epoch: nat)
      reads `denylist, `allowlist
    {
      && (a == Some(DropEmpty) <==> size == 0)
      && (a == Some(DropDenylist) <==> size > 0 && ip in denylist)
      && (a == Some(DropBanned) <==> (size > 0 && ip !in denylist && ip !in allowlist
          && IsBanned(s.standing, now, epoch)))
    }

    lemma BarringEnds(early: Option<Action>, a: Action, ip: Ip, size: nat, s: IpState, now: nat, epoch: nat)
      requires BarredRightly(early, ip, size, s, now, epoch)
      requires (early.Some? ==> a == early.value) && (early.None? ==> !IsScreening(a))
      ensures BarredRightly(Some(a), ip, size, s, now, epoch)
    {
      hide IsBanned;
    }

    /** The packet passed the rate checks, which are on record since. */
    ghost predicate Passed(p0: map<Ip, Passes>, h0: map<Ip, Passes>, ip: Ip, s: IpState, profile: Profile, id: nat,
                           size: nat, now: nat)
      reads `packetLog, `handshakeLog, `config, `incident
    {
      RatesPassed(p0, packetLog, h0, handshakeLog, ip, s, profile, config, incident.on, id, size, now)
    }

    /** The tests before a packet is looked at as Bedrock traffic: emptiness, deny list, ban, firewall. */
    method Screen(ip: Ip, id: nat, size: nat, profile: Profile, now: nat, o: Outcomes) returns (action: Option<Action>)
      requires ip in ipStates && time == now && Sound(config) && Consistent(1)
      modifies `counters, `ipStates, `ladders, `globalWindow, `globalPackets, `packetLog, `handshakeLog
      ensures OnlyDropped(action)
      ensures action == None ==> Rolled(ip, now)
      ensures action.Some? ==> IsScreening(action.value)
      ensures action == Some(DropEmpty) <==> size == 0
      ensures action == Some(DropDenylist) <==> size > 0 && ip in denylist
      ensures action == Some(DropBanned) <==>
        size > 0 && ip !in denylist && ip !in allowlist && IsBanned(old(ipStates)[ip].standing, now, o.epoch)
      ensures Policed(ip) && ReachedRates(action) ==>
                && size <= profile.maxDatagram
                && Checked(old(packetLog), packetLog, ip, old(ipStates)[ip].packets, now, SECOND,
                           PacketLimit(config, profile, incident.on), action != Some(DropIpRate))
      ensures Policed(ip) && ReachedRates(action) && action != Some(DropIpRate) && IsHandshake(id) ==>
                Checked(old(handshakeLog), handshakeLog, ip, old(ipStates)[ip].handshakes, now, MINUTE,
                        HandshakeLimit(config, profile, incident.on), action == None)
      ensures Consistent(if action.Some? then 0 else 1)
    {
      hide Consistent, Checked, Sound, PacketLimit, HandshakeLimit, IsBanned, IsHandshake, Risk.Decay;
      action := Barred(ip, size, now, o);
      if action.None? && config.firewallEnabled && ip !in allowlist {
        action := Firewall(ip, id, size, profile, now, o);
      }
    }

    /** Empty datagrams, denied and banned addresses; the risk score decays on the way. */
    method Barred(ip: Ip, size: nat, now: nat, o: Outcomes) returns (action: Option<Action>)
      requires Consistent(1) && ip in ipStates
      modifies `counters, `ipStates
      ensures Consistent(if action.Some? then 0 else 1) && OnlyDropped(action)
      ensures action.Some? ==> action.value.DropEmpty? || action.value.DropDenylist? || action.value.DropBanned?
      ensures action == Some(DropEmpty) <==> size == 0
      ensures action == Some(DropDenylist) <==> size > 0 && ip in denylist
      ensures action == Some(DropBanned) <==>
        size > 0 && ip !in denylist && ip !in allowlist && IsBanned(old(ipStates)[ip].standing, now, o.epoch)
      ensures SameWindows(ipStates[ip], old(ipStates)[ip])
      ensures action == None ==>
        && counters == old(counters)
        && ipStates == old(ipStates)[ip := old(ipStates)[ip].(standing := Risk.Decay(old(ipStates)[ip].standing, now,
            config.risk))]
    {
      hide Consistent;
      if size == 0 {
        DropQuietly(ip, false);
        return Some(DropEmpty);
      }
      if ip in denylist {
        DropDenied(ip);
        return Some(DropDenylist);
      }
      LadderHolds(ip, 1);
      Risk.DecayKeepsBans(ipStates[ip].standing, now, config.risk);
      Risk.DecayBounds(ipStates[ip].standing, now, config.risk);
      SetIp(ip, ipStates[ip].(standing := Risk.Decay(ipStates[ip].standing, now, config.risk)), 1);
      if IsBanned(ipStates[ip].standing, now, o.epoch) && ip !in allowlist {
        DropQuietly(ip, false);
        return Some(DropBanned);
      }
      return None;
    }

    method DropDenied(ip: Ip)
      requires Consistent(1) && ip in ipStates
      modifies `counters, `ipStates
      ensures Consistent(0) && OnlyDropped(Some(DropDenylist))
          && counters.denylistDrops == old(counters).denylistDrops + 1
      ensures SameWindows(ipStates[ip], old(ipStates)[ip])
    {
      hide Ladders, Pings, TicketWorld, Tables, Rates, Probes, TicketTable, Sound, Incident.Inv;
      DropQuietly(ip, false);
      counters := counters.(denylistDrops := counters.denylistDrops + 1);
    }

    /** `process_client_datagram`: one datagram from `client` on the port `listener`. It is counted once
        and ends in exactly one way; a session is opened only when nothing forbids it. */
    method ProcessDatagram(client: SockAddr, listener: nat, id: nat, size: nat, now: nat, o: Outcomes)
                           returns (action: Action)
      requires !halted && now >= time && now > 0 && (o.socket.Some? ==> o.socket.value !in sessions) && Valid()
      requires Outside(o.file, o.epoch)
      modifies `counters, `ipStates, `ladders, `globalWindow, `globalPackets, `packetLog, `handshakeLog, `time,
               `pingLog, `loose, `turn, `tickets, `world, `spent, `lastTicketReload, `sessions, `byClient, `backends,
                   `halted, `forwarded
      ensures Loosened(old(loose), IpOf(client))
      ensures TransferProtocol.Within(old(world), world)
      ensures Settled(Counted(old(counters)), old(forwarded), counters, forwarded, halted, action) && time == now
      ensures Touched(old(sessions), sessions, byClient, Endpoint(client, listener), now, action.Forward?)
      ensures BarredRightly(Some(action), IpOf(client), size, RecordOf(old(ipStates), IpOf(client), now), now, o.epoch)
      ensures !IsScreening(action) && config.firewallEnabled && IpOf(client) !in allowlist ==>
        Passed(old(packetLog), old(handshakeLog), IpOf(client), RecordOf(old(ipStates), IpOf(client), now),
            old(ProfileFor(listener, Endpoint(client, listener))), id, size, now)
      ensures SessionRule(old(sessions), old(byClient), old(backends), client, listener,
          old(ProfileFor(listener, Endpoint(client, listener))), action, o)
      ensures Valid()
    {
      hide Consistent, RatesPassed, IsBanned, Sound, IpOf, Touched, IsScreening,
        ProfileFor, Policed, RecordOf, IsDrop, Passed, SessionRule, BarredRightly, Settled, Counted;
      SoundNow(0);
      action := Treat(client, listener, ProfileFor(listener, Endpoint(client, listener)), id, size, now, o);
    }

    /** The same, with the profile that applies. */
    method Treat(client: SockAddr, listener: nat, profile: Profile, id: nat, size: nat, now: nat, o: Outcomes)
                 returns (action: Action)
      requires !halted && now >= time && now > 0 && Sound(config) && (o.socket.Some? ==> o.socket.value !in sessions)
          && Valid()
      requires Outside(o.file, o.epoch)
      modifies `counters, `ipStates, `ladders, `globalWindow, `globalPackets, `packetLog, `handshakeLog, `time,
               `pingLog, `loose, `turn, `tickets, `world, `spent, `lastTicketReload, `sessions, `byClient, `backends,
                   `halted, `forwarded
      ensures Loosened(old(loose), IpOf(client))
      ensures TransferProtocol.Within(old(world), world)
      ensures Settled(Counted(old(counters)), old(forwarded), counters, forwarded, halted, action) && time == now
      ensures Touched(old(sessions), sessions, byClient, Endpoint(client, listener), now, action.Forward?)
      ensures BarredRightly(Some(action), IpOf(client), size, RecordOf(old(ipStates), IpOf(client), now), now, o.epoch)
      ensures !IsScreening(action) && config.firewallEnabled && IpOf(client) !in allowlist ==>
        Passed(old(packetLog), old(handshakeLog), IpOf(client), RecordOf(old(ipStates), IpOf(client), now), profile,
            id, size, now)
      ensures SessionRule(old(sessions), old(byClient), old(backends), client, listener, profile, action, o)
      ensures Valid()
    {
      hide Consistent, RatesPassed, IsBanned, Sound, IpOf, Touched, IsDrop, IsScreening, Policed, RecordOf, Passed,
          SessionRule, BarredRightly, Settled, Judged, Counted;
      var early := Judge(IpOf(client), id, size, profile, now, o);
      ghost var judged := counters;
      action := Conclude(early, client, listener, id, profile, now, o);
      SettledEnds(old(counters), old(forwarded), judged, counters, forwarded, halted, early, action);
      BarringEnds(early, action, IpOf(client), size, RecordOf(old(ipStates), IpOf(client), now), now, o.epoch);
    }

    /** A packet that was not screened out is served. */
    method Conclude(early: Option<Action>, client: SockAddr, listener: nat, id: nat, profile: Profile, now: nat,
                    o: Outcomes)
      returns (action: Action)
      requires !halted && IpOf(client) in ipStates && (o.socket.Some? ==> o.socket.value !in sessions)
      requires early.Some? ==> IsScreening(early.value)
      requires Consistent(if early.Some? then 0 else 1)
      requires early.None? ==> time == now && Rolled(IpOf(client), now)
      requires Outside(o.file, o.epoch)
      modifies `counters, `ipStates, `ladders, `pingLog, `loose, `turn, `tickets, `world, `spent, `lastTicketReload,
          `sessions, `byClient, `backends, `halted, `forwarded
      ensures Loosened(old(loose), IpOf(client))
      ensures TransferProtocol.Within(old(world), world)
      ensures early.Some? ==> (action == early.value && counters == old(counters) && !halted
          && forwarded == old(forwarded))
      ensures early.None? ==> (Settled(old(counters), old(forwarded), counters, forwarded, halted, action)
          && !IsScreening(action))
      ensures early.Some? ==> (IsScreening(action) && IsDrop(action) && !action.Forward? && !action.CachedPong?
          && !action.Fatal?)
      ensures Touched(old(sessions), sessions, byClient, Endpoint(client, listener), now, action.Forward?)
      ensures SessionRule(old(sessions), old(byClient), old(backends), client, listener, profile, action, o)
      ensures Consistent(if halted then 1 else 0)
    {
      hide Consistent, FromIp, Connected, IpOf, IsDrop, IsScreening, MayOpen;
      if early.Some? {
        Kinds(early.value);
        return early.value;
      }
      action := Serve(client, listener, id, profile, now, o);
      Kinds(action);
    }

    /** Count the datagram and screen it. */
    method Judge(ip: Ip, id: nat, size: nat, profile: Profile, now: nat, o: Outcomes) returns (action: Option<Action>)
      requires !halted && now >= time && Sound(config) && Valid()
      modifies `counters, `ipStates, `ladders, `globalWindow, `globalPackets, `packetLog, `handshakeLog, `time
      ensures ip in ipStates && time == now && Judged(old(counters), counters, action)
      ensures action == None ==> Rolled(ip, now)
      ensures action.Some? ==> IsScreening(action.value)
      ensures BarredRightly(action, ip, size, RecordOf(old(ipStates), ip, now), now, o.epoch)
      ensures config.firewallEnabled && ip !in allowlist && action == None ==>
                Passed(old(packetLog), old(handshakeLog), ip, RecordOf(old(ipStates), ip, now), profile, id, size, now)
      ensures Consistent(if action.Some? then 0 else 1)
    {
      hide Consistent, Checked, PacketLimit, HandshakeLimit, IsBanned, IsHandshake, Sound, FromIp, IsDrop, IsScreening;
      Arrive(ip, now);
      action := Screen(ip, id, size, profile, now, o);
      if action.Some? {
        Kinds(action.value);
      }
    }

    /** Answer a ping from the cache if possible, else relay the packet. */
    method Serve(client: SockAddr, listener: nat, id: nat, profile: Profile, now: nat, o: Outcomes)
                 returns (action: Action)
      requires !halted && IpOf(client) in ipStates && (o.socket.Some? ==> o.socket.value !in sessions) && Consistent(1)
      requires time == now && Rolled(IpOf(client), now)
      requires Outside(o.file, o.epoch)
      modifies `counters, `ipStates, `ladders, `pingLog, `loose, `turn, `tickets, `world, `spent, `lastTicketReload,
          `sessions, `byClient, `backends, `halted, `forwarded
      ensures Loosened(old(loose), IpOf(client))
      ensures TransferProtocol.Within(old(world), world)
      ensures Settled(old(counters), old(forwarded), counters, forwarded, halted, action) && !IsScreening(action)
      ensures Touched(old(sessions), sessions, byClient, Endpoint(client, listener), now, action.Forward?)
      ensures SessionRule(old(sessions), old(byClient), old(backends), client, listener, profile, action, o)
      ensures Consistent(if halted then 1 else 0)
    {
      hide Consistent, IpOf, IsDrop, IsScreening, Settled, PingTotals, Touched, SessionRule, TransferProtocol.Extends,
          RateWindow.Admit, IsUp, AnswersFor, Charged;
      SameWorld(world);
      PingTotalsNone(counters);
      var answer: Option<Action> := None;
      if IsPing(id) && config.pingCacheEnabled {
        var server: Option<nat>;
        answer, server := AnswerPing(IpOf(client), listener, now, o);
      }
      ghost var mid, pinged := world, counters;
      action := Continue(answer, client, listener, profile, now, o);
      TransferProtocol.ExtendsTransitive(old(world), mid, world);
      PingEnds(old(counters), old(forwarded), pinged, counters, forwarded, halted, answer, action);
    }

    /** A packet that was no answered ping goes on to its backend. */
    method Continue(answer: Option<Action>, client: SockAddr, listener: nat, profile: Profile, now: nat, o: Outcomes)
                    returns (action: Action)
      requires !halted && IpOf(client) in ipStates && (o.socket.Some? ==> o.socket.value !in sessions)
      requires (answer.Some? ==> answer.value.DropPingRate? || answer.value.CachedPong?) && Outside(o.file, o.epoch)
      requires Consistent(if answer.Some? then 0 else 1)
      modifies `counters, `ipStates, `ladders, `turn, `tickets, `world, `spent, `lastTicketReload, `sessions,
          `byClient, `backends, `halted, `forwarded
      ensures TransferProtocol.Within(old(world), world) && !IsScreening(action)
      ensures answer.Some? ==> (action == answer.value && counters == old(counters) && !halted
          && forwarded == old(forwarded))
      ensures answer.None? ==> Settled(old(counters), old(forwarded), counters, forwarded, halted, action)
      ensures Touched(old(sessions), sessions, byClient, Endpoint(client, listener), now, action.Forward?)
      ensures SessionRule(old(sessions), old(byClient), old(backends), client, listener, profile, action, o)
      ensures Consistent(if halted then 1 else 0)
    {
      hide Consistent, IpOf, IsDrop, IsScreening, Settled, Touched, Connected, MayOpen, TransferProtocol.Within;
      SameWorld(world);
      if answer.Some? {
        Kinds(answer.value);
        TouchedNone(sessions, byClient, Endpoint(client, listener), now);
        return answer.value;
      }
      action := Relay(client, listener, profile, now, o);
    }

    // ---- the other events ------------------------------------------------

    /** `close_session`: forget a session everywhere. Its guards against counters at zero never bite. */
    method CloseSession(fd: int, ghost pending: nat)
      requires Consistent(pending)
      modifies `sessions, `byClient, `ipStates, `backends, `counters, `retired
      ensures Consistent(pending)
      ensures fd !in old(sessions) ==>
        sessions == old(sessions) && byClient == old(byClient) && ipStates == old(ipStates)
            && backends == old(backends) && counters == old(counters)
      ensures fd in old(sessions) ==>
        Left(old(sessions), sessions, old(byClient), byClient, old(ipStates), ipStates, old(backends), backends,
            old(counters), counters, fd)
    {
      hide Consistent, Left;
      if fd in sessions {
        Remove(fd, pending);
      }
    }

    method Remove(fd: int, ghost pending: nat)
      requires fd in sessions && Consistent(pending)
      modifies `sessions, `byClient, `ipStates, `backends, `counters, `retired
      ensures Left(old(sessions), sessions, old(byClient), byClient, old(ipStates), ipStates, old(backends), backends,
          old(counters), counters, fd)
      ensures Consistent(pending)
    {
      hide Consistent, AddIp, AddBackend, EndpointOf, Without, Left, Closed;
      var s := sessions[fd];
      StillCounted(fd, pending);
      LeftSo(sessions, byClient, ipStates, backends, counters, fd);
      if s.ip in ipStates && ipStates[s.ip].activeSessions > 0 {
        ipStates := AddIp(ipStates, s.ip, -1);
      }
      if s.backend < |backends| && backends[s.backend].activeSessions > 0 {
        backends := AddBackend(backends, s.backend, -1);
      }
      byClient, sessions := Without(byClient, EndpointOf(s)), Without(sessions, fd);
      counters, retired := Closed(counters), retired + s.clientPackets;
      CloseKeeps(fd, pending);
    }

    /** The counters a close decrements are positive. */
    lemma StillCounted(fd: int, pending: nat)
      requires fd in sessions && Consistent(pending)
      ensures var s := sessions[fd];
              && s.ip in ipStates && ipStates[s.ip].activeSessions > 0
              && s.backend < |backends| && backends[s.backend].activeSessions > 0
    {
      hide Ladders, Pings, TicketWorld, Rates, Probes, Books, Incidents, TicketTable, Sound, Links, Forwarding, Loads;
      LoadsPositive(sessions, ipStates, backends, fd);
    }

    twostate lemma CloseKeeps(new fd: int, new pending: nat)
      requires fd in old(sessions) && old(Consistent(pending))
      requires Left(old(sessions), sessions, old(byClient), byClient, old(ipStates), ipStates, old(backends), backends,
          old(counters), counters, fd)
      requires retired == old(retired) + old(sessions)[fd].clientPackets
      requires unchanged(`config, `forwarded, `time, `packetLog, `handshakeLog, `probeLogs, `incident, `incidentLog,
          `ladders, `pingLog, `loose,
                         `tickets, `spent, `world)
      ensures Consistent(pending)
    {
      hide Ladders, Pings, TicketWorld, Agree, AddIp, AddBackend, EndpointOf, Without, Closed;
      AgreeClose(old(sessions), old(byClient), old(ipStates), old(backends), forwarded, old(retired), old(counters),
          config,
                 packetLog, handshakeLog, time, probeLogs, incident, incidentLog, tickets, pending, fd);
      LaddersAdd(old(ipStates), ladders, old(sessions)[fd].ip, -1);
      PingsAdd(old(ipStates), pingLog, loose, time, old(sessions)[fd].ip, -1);
    }

    /** One packet from a backend reached its client. */
    method Delivered(fd: int, now: nat)
      requires fd in sessions && Consistent(0)
      modifies `sessions, `counters
      ensures sessions == old(sessions)[fd := old(sessions)[fd].(lastActivity := now,
          serverPackets := old(sessions)[fd].serverPackets + 1)]
      ensures counters == old(counters).(serverPackets := old(counters).serverPackets + 1)
      ensures Consistent(0)
    {
      hide Ladders, Pings, TicketWorld, Tables, Rates, Probes, Sound, TicketTable, Incident.Inv;
      var s := sessions[fd].(lastActivity := now, serverPackets := sessions[fd].serverPackets + 1);
      TablesTouch(sessions, byClient, ipStates, backends, forwarded, retired, fd, s);
      sessions := sessions[fd := s];
      counters := counters.(serverPackets := counters.serverPackets + 1);
    }

    /** `handle_backend_data`: pass on what a backend sent; `sent` says which packets could be delivered,
        `failed` whether receiving ended in an error, which closes the session. */
    method BackendData(fd: int, sent: seq<bool>, failed: bool, now: nat)
      requires !halted && Valid()
      modifies `sessions, `byClient, `ipStates, `backends, `counters, `retired
      ensures fd !in old(sessions) ==> sessions == old(sessions) && counters == old(counters)
      ensures fd in old(sessions) ==>
        && counters.serverPackets == old(counters).serverPackets + CountTrue(sent)
        && (failed ==> sessions.Keys == old(sessions).Keys - {fd})
        && (!failed ==>
              && sessions.Keys == old(sessions).Keys && sessions[fd].serverPackets
                  == old(sessions)[fd].serverPackets + CountTrue(sent)
              && sessions[fd].lastActivity == if CountTrue(sent) > 0 then now else old(sessions)[fd].lastActivity)
      ensures Valid()
    {
      hide Consistent, AddIp, AddBackend;
      if fd !in sessions {
        return;
      }
      var i := 0;
      while i < |sent|
        invariant 0 <= i <= |sent| && Consistent(0)
        invariant sessions.Keys == old(sessions).Keys && fd in sessions
        invariant sessions[fd].lastActivity == if CountTrue(sent[i..]) < CountTrue(sent) then now
            else old(sessions)[fd].lastActivity
        invariant CountTrue(sent[i..]) <= CountTrue(sent)
        invariant sessions[fd].serverPackets + CountTrue(sent[i..]) == old(sessions)[fd].serverPackets + CountTrue(sent)
        invariant counters.serverPackets + CountTrue(sent[i..]) == old(counters).serverPackets + CountTrue(sent)
      {
        assert sent[i..][1..] == sent[i + 1..];
        if sent[i] {
          Delivered(fd, now);
        }
        i := i + 1;
      }
      if failed {
        CloseSession(fd, 0);
      }
    }

    // ---- the cleanup tick ------------------------------------------------

    /** Close every session that was silent for too long. */
    method CloseExpired(now: nat)
      requires Consistent(0)
      modifies `sessions, `byClient, `ipStates, `backends, `counters, `retired
      ensures forall fd :: fd in sessions <==> fd in old(sessions) && !TimedOut(old(sessions)[fd], now, config)
      ensures forall fd :: fd in sessions ==> sessions[fd] == old(sessions)[fd]
      ensures ipStates.Keys == old(ipStates).Keys && forall ip :: (ip in ipStates
          ==> SameButLoad(ipStates[ip], old(ipStates)[ip]))
      ensures Consistent(0)
    {
      hide Consistent, TimedOut, EndpointOf;
      var expired := set fd | fd in sessions && TimedOut(sessions[fd], now, config);
      while expired != {}
        invariant Consistent(0) && expired <= sessions.Keys
        invariant forall fd :: fd in sessions ==> fd in old(sessions) && sessions[fd] == old(sessions)[fd]
        invariant forall fd :: fd in sessions && TimedOut(sessions[fd], now, config) ==> fd in expired
        invariant forall fd :: fd in expired ==> TimedOut(sessions[fd], now, config)
        invariant forall fd :: fd in old(sessions) && !TimedOut(old(sessions)[fd], now, config) ==> fd in sessions
        invariant ipStates.Keys == old(ipStates).Keys && forall ip :: (ip in ipStates
            ==> SameButLoad(ipStates[ip], old(ipStates)[ip]))
        decreases |expired|
      {
        var fd := Pick(expired);
        CloseSession(fd, 0);
        expired := expired - {fd};
      }
    }

    /** Let every record age; forget those that are idle, unbanned and old. (Decay leaves bans alone, so
        it does not matter that it comes before this test.) */
    method AgeRecords(now: nat, epoch: nat)
      requires now <= time && Consistent(0)
      modifies `ipStates, `ladders
      ensures forall ip :: ip in ipStates <==> ip in old(ipStates) && !Forgettable(old(ipStates)[ip], now, epoch)
      ensures forall ip :: ip in ipStates ==> ipStates[ip] == Aged(old(ipStates)[ip], now, epoch, config.risk)
      ensures Consistent(0)
    {
      hide Consistent, Aged, Forgettable;
      var todo := ipStates.Keys;
      while todo != {}
        invariant Consistent(0) && todo <= ipStates.Keys && ipStates.Keys <= old(ipStates).Keys
        invariant forall ip :: ip in todo ==> ipStates[ip] == old(ipStates)[ip]
        invariant forall ip :: ip in ipStates && ip !in todo ==>
                    ipStates[ip] == Aged(old(ipStates)[ip], now, epoch, config.risk)
                        && !Forgettable(old(ipStates)[ip], now, epoch)
        invariant forall ip :: ip in old(ipStates) && !Forgettable(old(ipStates)[ip], now, epoch) ==> ip in ipStates
        decreases |todo|
      {
        var ip := Pick(todo);
        if Forgettable(ipStates[ip], now, epoch) {
          Forget(ip, now, epoch);
        } else {
          LadderHolds(ip, 0);
          AgedKeeps(ipStates[ip], now, epoch, config.risk);
          SetIp(ip, Aged(ipStates[ip], now, epoch, config.risk), 0);
        }
        todo := todo - {ip};
      }
    }

    method Forget(ip: Ip, now: nat, epoch: nat)
      requires ip in ipStates && Forgettable(ipStates[ip], now, epoch) && now <= time && Consistent(0)
      modifies `ipStates, `ladders
      ensures ipStates == old(ipStates) - {ip} && ladders == old(ladders) - {ip} && Consistent(0)
    {
      hide Ladders, Pings, TicketWorld, Tables, Rates, Probes, TicketTable, Sound, Incident.Inv;
      TablesEvict(sessions, byClient, ipStates, backends, forwarded, retired, ip);
      RatesEvict(ipStates, packetLog, handshakeLog, time, ip);
      LaddersEvict(ipStates, ladders, ip);
      PingsEvict(ipStates, pingLog, loose, time, ip);
      ipStates := ipStates - {ip};
      ladders := ladders - {ip};
    }

    /** `cleanup`: at most once per interval, close expired sessions, drop expired tickets and age the
        records of all addresses. */
    method Cleanup(now: nat, epoch: nat)
      requires epoch == world.clock && !halted && Valid()
      modifies `sessions, `byClient, `ipStates, `ladders, `backends, `counters, `retired, `tickets, `world,
          `lastCleanup, `time
      ensures time == if now >= old(lastCleanup) + config.cleanupInterval then RateWindow.Max(old(time), now)
          else old(time)
      ensures now < old(lastCleanup) + config.cleanupInterval ==>
        sessions == old(sessions) && ipStates == old(ipStates) && tickets == old(tickets)
            && lastCleanup == old(lastCleanup)
      ensures now >= old(lastCleanup) + config.cleanupInterval ==>
        && (forall fd :: fd in sessions <==> fd in old(sessions) && !TimedOut(old(sessions)[fd], now, config))
        && (forall fd :: fd in sessions ==> sessions[fd] == old(sessions)[fd])
        && tickets == Tickets.Unexpired(old(tickets), epoch)
        && (forall ip :: ip in ipStates <==>
              ip in old(ipStates) && !(|FromIp(sessions, ip)| == 0 && Lapsed(old(ipStates)[ip], now, epoch)))
        && (forall ip :: ip in ipStates ==>
              SameButLoad(ipStates[ip], Aged(old(ipStates)[ip], now, epoch, config.risk))
                  && ipStates[ip].activeSessions == |FromIp(sessions, ip)|)
      ensures TransferProtocol.Within(old(world), world)
      ensures Valid()
    {
      hide Consistent, TimedOut, FromIp, Aged, Lapsed;
      SameWorld(world);
      if now < lastCleanup + config.cleanupInterval {
        return;
      }
      Advance(now);
      CloseExpired(now);
      LapsedKeeps(old(ipStates), ipStates, now, epoch);
      AgedKeepsAll(old(ipStates), ipStates, now, epoch, config.risk);
      forall ip | ip in ipStates ensures ipStates[ip].activeSessions == |FromIp(sessions, ip)| {
        SessionsOf(ip, 0);
      }
      ExpireTickets(epoch);
      AgeRecords(now, epoch);
    }

    method Advance(now: nat)
      requires Consistent(0)
      modifies `lastCleanup, `time
      ensures lastCleanup == now && time == RateWindow.Max(old(time), now) && Consistent(0)
    {
      hide Ladders, Pings, TicketWorld, Tables, Rates, Probes, TicketTable, Sound, Incident.Inv;
      lastCleanup := now;
      if time < now {
        RatesLater(ipStates, packetLog, handshakeLog, time, now);
        PingsLater(ipStates, pingLog, loose, time, now);
      PingsLater(ipStates, pingLog, loose, time, now);
        time := now;
      }
    }

    method ExpireTickets(epoch: nat)
      requires epoch == world.clock && Consistent(0)
      modifies `tickets, `world
      ensures tickets == Tickets.Unexpired(old(tickets), epoch) && TransferProtocol.Within(old(world), world)
          && Consistent(0)
    {
      hide Ladders, Pings, Tables, Rates, Probes, Sound, Incident.Inv, TransferProtocol.Inv, TransferProtocol.Within;
      TransferProtocol.StepKeeps(world, TransferProtocol.Cleanup);
      TransferProtocol.StepExtends(world, TransferProtocol.Cleanup);
      world := TransferProtocol.Step(world, TransferProtocol.Cleanup);
      tickets := Tickets.Unexpired(tickets, epoch);
    }

    // ---- health checks ---------------------------------------------------

    /** `handle_health_checks`: expire waiting probes and send due ones; `tokens` and `delivered` give the
        random token and the send result for each backend. */
    method HealthTick(now: nat, tokens: seq<nat>, delivered: seq<bool>)
      requires |tokens| == |delivered| == |backends| && !halted && Valid()
      modifies `backends, `probeLogs, `counters
      ensures !config.healthEnabled && !config.pingCacheEnabled ==> (backends == old(backends)
          && probeLogs == old(probeLogs))
      ensures config.healthEnabled || config.pingCacheEnabled ==>
        && |backends| == |old(backends)| == |probeLogs| == |old(probeLogs)|
        && forall b :: 0 <= b < |backends| ==>
             && backends[b] == Probed(old(backends)[b], now, tokens[b], delivered[b], config.probing)
             && probeLogs[b] == Probe.CheckHistory(old(probeLogs)[b], old(backends)[b].prober, now, delivered[b],
                 config.probing)
      ensures Valid()
    {
      hide Ladders, Pings, TicketWorld, Agree, Probe.CheckHistory, Probed;
      if !config.healthEnabled && !config.pingCacheEnabled {
        return;
      }
      LogsMatch();
      var i := 0;
      while i < |backends|
        invariant 0 <= i <= |backends| == |old(backends)| == |probeLogs| == |old(probeLogs)|
        invariant Consistent(0)
        invariant forall b :: 0 <= b < i ==>
                    && backends[b] == Probed(old(backends)[b], now, tokens[b], delivered[b], config.probing)
                    && probeLogs[b] == Probe.CheckHistory(old(probeLogs)[b], old(backends)[b].prober, now,
                        delivered[b], config.probing)
        invariant forall b :: i <= b < |backends| ==> (backends[b] == old(backends)[b]
            && probeLogs[b] == old(probeLogs)[b])
      {
        CheckBackend(i, now, tokens[i], delivered[i]);
        i := i + 1;
      }
    }

    lemma LogsMatch()
      requires Consistent(0)
      ensures |probeLogs| == |backends|
    {
      hide Ladders, Pings, TicketWorld, Tables, Rates, Books, Incidents, TicketTable, Sound;
    }

    method CheckBackend(b: nat, now: nat, token: nat, delivered: bool)
      requires b < |backends| == |probeLogs| && Consistent(0)
      modifies `backends, `probeLogs, `counters
      ensures backends == old(backends)[b := Probed(old(backends)[b], now, token, delivered, config.probing)]
      ensures probeLogs == old(probeLogs)[b := Probe.CheckHistory(old(probeLogs)[b], old(backends)[b].prober, now,
          delivered, config.probing)]
      ensures Consistent(0)
    {
      hide Ladders, Pings, TicketWorld, Tables, Rates, TicketTable, Sound, Incident.Inv, Probe.Check,
          Probe.CheckHistory, Probe.Counts, Probe.Resolved;
      var p := backends[b].prober;
      var after := backends[b := Probed(backends[b], now, token, delivered, config.probing)];
      Probe.CheckKeeps(p, probeLogs[b], now, token, delivered, config.probing);
      ProbesSet(backends, probeLogs, config.probing, b, after[b],
          Probe.CheckHistory(probeLogs[b], p, now, delivered, config.probing));
      TablesBackends(sessions, byClient, ipStates, backends, forwarded, retired, after);
      counters := counters.(
        healthFailures := counters.healthFailures + (if p.awaiting
            && now >= p.sentAt + config.probing.timeout then 1 else 0),
        healthChecks := counters.healthChecks + (if now >= p.lastAttempt + config.probing.interval
            && delivered then 1 else 0));
      probeLogs := probeLogs[b := Probe.CheckHistory(probeLogs[b], p, now, delivered, config.probing)];
      backends := after;
    }

    /** `handle_health_response`: every reply that looks like a pong is cached; one with the awaited
        token also counts as a recovery. */
    method HealthResponse(b: nat, replies: seq<seq<nat>>)
      requires b < |backends| && !halted && Valid()
      modifies `backends, `probeLogs
      ensures |backends| == |old(backends)| && |old(probeLogs)| == |old(backends)|
      ensures forall i :: 0 <= i < |backends| && i != b ==> backends[i] == old(backends)[i]
      ensures backends[b] == Answered(old(backends)[b], replies, config.probing)
      ensures probeLogs == old(probeLogs)[b := AnsweredHistory(old(probeLogs)[b], old(backends)[b], replies,
          config.probing)]
      ensures Valid()
    {
      hide Ladders, Pings, TicketWorld, Agree, Reply, Probe.PongHistory;
      LogsMatch();
      var i := 0;
      while i < |replies|
        invariant 0 <= i <= |replies| && |backends| == |old(backends)| == |probeLogs| == |old(probeLogs)|
        invariant Consistent(0)
        invariant forall j :: 0 <= j < |backends| && j != b ==> backends[j] == old(backends)[j]
        invariant forall j :: 0 <= j < |backends| && j != b ==> probeLogs[j] == old(probeLogs)[j]
        invariant Answered(backends[b], replies[i..], config.probing)
            == Answered(old(backends)[b], replies, config.probing)
        invariant AnsweredHistory(probeLogs[b], backends[b], replies[i..], config.probing)
                  == AnsweredHistory(old(probeLogs)[b], old(backends)[b], replies, config.probing)
      {
        assert replies[i..][1..] == replies[i + 1..];
        if IsPong(replies[i]) {
          TakePong(b, replies[i]);
        }
        i := i + 1;
      }
    }

    method TakePong(b: nat, data: seq<nat>)
      requires b < |backends| == |probeLogs| && IsPong(data) && Consistent(0)
      modifies `backends, `probeLogs
      ensures backends == old(backends)[b := Reply(old(backends)[b], data, config.probing)]
      ensures probeLogs == old(probeLogs)[b := Probe.PongHistory(old(probeLogs)[b], old(backends)[b].prober,
          Token(data))]
      ensures Consistent(0)
    {
      hide Ladders, Pings, TicketWorld, Tables, Rates, TicketTable, Sound, Incident.Inv, Probe.Pong, Probe.PongHistory,
          Probe.Counts, Probe.Resolved, Token;
      var p := backends[b].prober;
      var after := backends[b := Reply(backends[b], data, config.probing)];
      Probe.PongKeeps(p, probeLogs[b], Token(data), config.probing);
      ProbesSet(backends, probeLogs, config.probing, b, after[b], Probe.PongHistory(probeLogs[b], p, Token(data)));
      TablesBackends(sessions, byClient, ipStates, backends, forwarded, retired, after);
      probeLogs := probeLogs[b := Probe.PongHistory(probeLogs[b], p, Token(data))];
      backends := after;
    }

    // ---- incident mode ---------------------------------------------------

    /** `handle_incident_mode`. The drop ratio it computes always lies between 0 and 1. */
    method IncidentTick(now: nat)
      requires now > 0 && !halted && Valid()
      modifies `incident, `incidentLog
      ensures !Incident.Due(old(incident), now, config.incident) ==> (incident == old(incident)
          && incidentLog == old(incidentLog))
      ensures Incident.Due(old(incident), now, config.incident) ==>
        && old(incident).lastPackets <= counters.clientPackets && old(incident).lastDrops <= counters.dropped
        && 0.0 <= Incident.Ratio(counters.dropped - old(incident).lastDrops,
            counters.clientPackets - old(incident).lastPackets) <= 1.0
        && incident == Incident.Check(old(incident), now, counters.clientPackets, counters.dropped, config.incident)
        && (old(incident).on && !incident.on ==>
              exists since: nat :: Incident.CalmSince(incidentLog, since) && now >= since + config.incident.recovery)
      ensures Valid()
    {
      hide Ladders, Pings, TicketWorld, Tables, Rates, TicketTable, Sound, Probes, Incident.Inv, Incident.Verdict,
          Incident.Check, Incident.CalmSince, Incident.Ratio;
      if !Incident.Due(incident, now, config.incident) {
        return;
      }
      Incident.RatioInRange(counters.dropped - incident.lastDrops, counters.clientPackets - incident.lastPackets);
      Incident.CheckKeeps(incident, incidentLog, now, counters.clientPackets, counters.dropped, config.incident);
      Incident.CheckTotals(incident, now, counters.clientPackets, counters.dropped, config.incident);
      var bad := Incident.Verdict(incident, now, counters.clientPackets, counters.dropped, config.incident);
      incident := Incident.Check(incident, now, counters.clientPackets, counters.dropped, config.incident);
      incidentLog := incidentLog + [Incident.Checked(now, bad)];
    }

    // ---- operator commands and live settings ------------------------------

    /** `apply_command`, once the line is parsed; `clock` and `epoch` are read while handling it. */
    method ApplyCommand(command: Command, clock: nat, epoch: nat)
      requires !halted && clock >= time && Valid()
      modifies `maintenance, `drain, `ipStates, `ladders, `time, `backends, `config, `stopCode
      ensures time == if command.Ban? then clock else old(time)
      ensures maintenance == (if command.Maintenance? then command.on else old(maintenance))
      ensures drain == (if command.Drain? then command.on else old(drain))
      ensures config == (if command.Route? && command.mode != Routing.Other then old(config).(mode := command.mode)
          else old(config))
      ensures backends == (if command.Switch? then Switched(old(backends), command.name, command.on) else old(backends))
      ensures ipStates == Commanded(old(ipStates), command, clock, epoch)
      ensures ladders == if command.RiskReset? && command.ip in old(ipStates)
          then old(ladders)[command.ip := Risk.GROUND] else old(ladders)
      ensures stopCode == if command.Restart? then Some(if command.services then 76 else 75) else old(stopCode)
      ensures Valid()
    {
      hide Ladders, Pings, TicketWorld, Agree, Switched, Commanded;
      CommandedOthers(ipStates, command, clock, epoch);
      match command {
        case Maintenance(on) => maintenance := on;
        case Drain(on) => drain := on;
        case Ban(ip, seconds) => CommandRecord(ip, command, clock, epoch);
        case Unban(ip) => CommandRecord(ip, command, clock, epoch);
        case RiskReset(ip) => CommandRecord(ip, command, clock, epoch);
        case Switch(name, on) => SwitchBackend(name, on);
        case Restart(services) => stopCode := Some(if services then 76 else 75);
        case Route(mode) => if mode != Routing.Other { SetMode(mode); }
      }
    }

    /** The commands about one address. */
    method CommandRecord(ip: Ip, command: Command, clock: nat, epoch: nat)
      requires (command.Ban? || command.Unban? || command.RiskReset?) && command.ip == ip && clock >= time
          && Consistent(0)
      modifies `ipStates, `ladders, `time
      ensures time == if command.Ban? then clock else old(time)
      ensures ipStates == Commanded(old(ipStates), command, clock, epoch)
      ensures ladders == if command.RiskReset? && ip in old(ipStates) then old(ladders)[ip := Risk.GROUND]
          else old(ladders)
      ensures Consistent(0)
    {
      hide Consistent, Risk.OnLadder;
      Risk.GroundLevel();
      match command {
        case Ban(_, seconds) =>
          Meet(ip, clock);
          SetIp(ip, ManuallyBanned(ipStates[ip], seconds, clock, epoch), 0);
        case Unban(_) => if ip in ipStates { SetIp(ip, Unbanned(ipStates[ip]), 0); }
        case RiskReset(_) => if ip in ipStates { SetIpOn(ip, Reset(ipStates[ip]), Risk.GROUND, 0); }
      }
    }

    /** Find or create the record of an address outside the packet path. */
    method Meet(ip: Ip, now: nat)
      requires now >= time && Consistent(0)
      modifies `ipStates, `time
      ensures ipStates == old(ipStates)[ip := RecordOf(old(ipStates), ip, now)] && time == now && Consistent(0)
    {
      hide Ladders, Pings, TicketWorld, Tables, Rates, Probes, TicketTable, Sound, Incident.Inv;
      RatesLater(ipStates, packetLog, handshakeLog, time, now);
      PingsLater(ipStates, pingLog, loose, time, now);
      time := now;
      if ip !in ipStates {
        TablesIp(sessions, byClient, ipStates, backends, forwarded, retired, ip, NewIpState(now));
        RatesNew(ipStates, packetLog, handshakeLog, now, ip);
        PingsNew(ipStates, pingLog, loose, now, ip);
        LaddersIp(ipStates, ladders, ip, NewIpState(now));
        ipStates := ipStates[ip := NewIpState(now)];
      }
    }

    method SwitchBackend(name: string, on: bool)
      requires Consistent(0)
      modifies `backends
      ensures backends == Switched(old(backends), name, on) && Consistent(0)
    {
      hide Ladders, Pings, TicketWorld, Tables, Rates, Probes, TicketTable, Sound, Incident.Inv;
      TablesBackends(sessions, byClient, ipStates, backends, forwarded, retired, Switched(backends, name, on));
      ProbesSame(backends, probeLogs, config.probing, Switched(backends, name, on));
      backends := Switched(backends, name, on);
    }

    method SetMode(mode: Routing.Mode)
      requires Consistent(0)
      modifies `config
      ensures config == old(config).(mode := mode) && Consistent(0)
    {
      hide Ladders, Pings, TicketWorld, Tables, Rates, Probes, TicketTable, Incident.Inv;
      config := config.(mode := mode);
    }

    /** `reload_live_config`. Nothing changes when the live file cannot be read (`v` is None) or holds an invalid
        value. After that the values and the lists are replaced, and stay so when the profiles then fail to
        load, although the reload counts as failed. The divisors must not be 0, which the reload itself does
        not check. */
    method Reload(v: Option<Live>, load: ProfileLoad, allow: set<Ip>, deny: set<Ip>) returns (ok: bool)
      requires v.Some? ==> v.value.rateDivisor != Some(0) && v.value.handshakeDivisor != Some(0)
      requires !halted && Valid()
      modifies `config, `allowlist, `denylist, `counters
      ensures ok <==> v.Some? && ApplyLive(old(config), v.value).Ok? && load.Loaded?
      ensures counters == old(counters).(reloads := old(counters).reloads + if ok then 1 else 0)
      ensures v.Some? && ApplyLive(old(config), v.value).Ok? ==>
        config == WithProfiles(ApplyLive(old(config), v.value).value, load) && allowlist == allow && denylist == deny
      ensures !(v.Some? && ApplyLive(old(config), v.value).Ok?) ==>
        config == old(config) && allowlist == old(allowlist) && denylist == old(denylist)
      ensures Valid()
    {
      hide Agree, Ladders, Pings, TicketWorld, Sound, ApplyLive, LiveOnly, WithProfiles;
      ok := false;
      if v.None? {
        return;
      }
      match ApplyLive(config, v.value)
      case Err(_) =>
      case Ok(next) =>
        SoundNow(0);
        LiveSound(config, v.value);
        ApplyLiveOnly(config, v.value);
        ProfilesAside(config, next, load);
        ok := load.Loaded?;
        Adopt(WithProfiles(next, load), ok);
        allowlist, denylist := allow, deny;
    }

    method Adopt(next: Config, complete: bool)
      requires Sound(next) && LiveOnly(config, next) && Consistent(0)
      modifies `config, `counters
      ensures config == next && counters == old(counters).(reloads := old(counters).reloads + if complete then 1 else 0)
      ensures Consistent(0)
    {
      hide Ladders, Pings, TicketWorld, Tables, Rates, Probes, TicketTable, Sound, Incident.Inv, LiveOnly;
      LiveProbes(backends, probeLogs, config, next);
      config := next;
      counters := counters.(reloads := counters.reloads + if complete then 1 else 0);
    }

    // ---- the end ---------------------------------------------------------

    /** `shutdown`: every session is closed, also after a fatal error. */
    method Shutdown()
      requires Valid()
      modifies `sessions, `byClient, `ipStates, `backends, `counters, `retired
      ensures sessions == map[] && byClient == map[] && counters.sessionsOpened == counters.sessionsClosed
          && forwarded == retired
      ensures (forall ip :: ip in ipStates ==> ipStates[ip].activeSessions == 0)
      ensures (forall b :: 0 <= b < |backends| ==> backends[b].activeSessions == 0)
      ensures Valid()
    {
      hide Consistent;
      CloseAll(if halted then 1 else 0);
      AllClosed(if halted then 1 else 0);
    }

    method CloseAll(ghost pending: nat)
      requires Consistent(pending)
      modifies `sessions, `byClient, `ipStates, `backends, `counters, `retired
      ensures sessions.Keys == {} && Consistent(pending)
    {
      hide Consistent, AddIp, AddBackend, EndpointOf, Without;
      var open := sessions.Keys;
      while open != {}
        invariant Consistent(pending) && open == sessions.Keys
        decreases |open|
      {
        var fd := Pick(open);
        WithoutKeys(sessions, fd);
        CloseSession(fd, pending);
        open := open - {fd};
      }
    }

    lemma AllClosed(pending: nat)
      requires sessions.Keys == {} && Consistent(pending)
      ensures sessions == map[] && byClient == map[] && counters.sessionsOpened == counters.sessionsClosed
          && forwarded == retired
      ensures (forall ip :: ip in ipStates ==> ipStates[ip].activeSessions == 0)
      ensures (forall b :: 0 <= b < |backends| ==> backends[b].activeSessions == 0)
    {
      hide Ladders, Pings, TicketWorld, Rates, Probes, Incidents, TicketTable, Sound;
      assert sessions == map[];
      assert byClient == map[];
      forall ip | ip in ipStates ensures ipStates[ip].activeSessions == 0 { assert FromIp(sessions, ip) == {}; }
      forall b: nat | b < |backends| ensures backends[b].activeSessions == 0 { assert OnBackend(sessions, b) == {}; }
    }

    // ---- whole runs ------------------------------------------------------

    /** A step outside: the wall clock, or the dashboard working on tickets and topology. */
    method Elsewhere(e: TransferProtocol.Event)
      requires (e.Tick? || e.Create? || e.List? || e.SaveTopology? || e.CleanStatic?)
          && TransferProtocol.Enabled(world, e) && Consistent(0)
      modifies `world
      ensures world == TransferProtocol.Step(old(world), e) && TransferProtocol.Extends(old(world), world)
          && Consistent(0)
    {
      hide Agree, Ladders, Pings, TransferProtocol.Inv, TransferProtocol.Extends, TransferProtocol.Enabled;
      TransferProtocol.StepKeeps(world, e);
      TransferProtocol.StepExtends(world, e);
      world := TransferProtocol.Step(world, e);
    }

    /** One event; `clock` is the latest steady time seen so far. Passed over are events the environment cannot
        produce (time running backwards, a socket number still in use, a file or a wall clock other than what
        is there) and, by assumption, a live reload with a divisor of 0. */
    method Handle(e: Event, clock: nat) returns (later: nat)
      requires clock == time && !halted && Valid()
      modifies this
      ensures later == time >= clock && TransferProtocol.Extends(old(world), world) && Valid()
      ensures halted ==> e.Datagram?
    {
      hide Consistent, TransferProtocol.Extends, TransferProtocol.Step, TransferProtocol.Enabled, Settled, Touched,
          SessionRule, BarredRightly, Passed,
        Refreshed, ApplyLive, WithProfiles, Commanded, Switched, Probed, Answered, AnsweredHistory, Probe.CheckHistory,
            Incident.Check, Incident.Due,
        Incident.Ratio, Incident.CalmSince, Tickets.Unexpired, TimedOut, Aged, Lapsed, SameButLoad, FromIp, AddIp,
            AddBackend, EndpointOf, Without, CountTrue;
      SameWorld(world);
      later := clock;
      match e {
        case Datagram(client, listener, id, size, now, o) =>
          if clock <= now && 0 < now && (o.socket.Some? ==> o.socket.value !in sessions) && Outside(o.file, o.epoch) {
            var action := ProcessDatagram(client, listener, id, size, now, o);
            later := now;
          }
        case FromBackend(fd, sent, failed, now) => BackendData(fd, sent, failed, now);
        case SocketError(fd) => CloseSession(fd, 0);
        case HealthTimer(now, tokens, delivered) =>
          if |tokens| == |delivered| == |backends| { HealthTick(now, tokens, delivered); }
        case HealthReplies(b, replies) => if b < |backends| { HealthResponse(b, replies); }
        case TicketTimer(now, file, epoch) => if Outside(file, epoch) { RefreshTickets(now, false, file, epoch, 0); }
        case Operator(command, at, epoch) =>
          if clock <= at { ApplyCommand(command, at, epoch); later := if command.Ban? then at else clock; }
        case NewSettings(v, load, allow, deny) =>
          if v.Some? ==> v.value.rateDivisor != Some(0) && v.value.handshakeDivisor != Some(0) { var ok := Reload(v,
              load, allow, deny); }
        case IncidentTimer(now) => if now > 0 { IncidentTick(now); }
        case CleanupTimer(now, epoch) =>
          if epoch == world.clock {
            if now >= lastCleanup + config.cleanupInterval { later := RateWindow.Max(clock, now); }
            Cleanup(now, epoch);
          }
        case Outdoors(step) =>
          if (step.Tick? || step.Create? || step.List? || step.SaveTopology? || step.CleanStatic?)
              && TransferProtocol.Enabled(world, step) {
            Elsewhere(step);
          }
      }
    }

    /** Whatever happens, in whatever order, inside and outside: the state stays consistent until the gateway
        stops, and no ticket is routed twice or after its expiry. */
    method Run(events: seq<Event>, start: nat)
      requires start == time && !halted && Valid()
      modifies this
      ensures Valid()
      ensures forall i, j :: (|old(world).routed| <= i < j < |world.routed|
          ==> world.routed[i].ticket.id != world.routed[j].ticket.id)
      ensures forall i :: 0 <= i < |world.routed| ==> world.routed[i].at < world.routed[i].ticket.expiresAt
    {
      hide Agree, Consistent, TransferProtocol.Extends, TransferProtocol.Inv;
      SameWorld(world);
      var i, clock := 0, start;
      while i < |events| && !halted && stopCode.None?
        invariant 0 <= i <= |events| && clock == time && Valid() && TransferProtocol.Extends(old(world), world)
      {
        ghost var before := world;
        clock := Handle(events[i], clock);
        TransferProtocol.ExtendsTransitive(old(world), before, world);
        i := i + 1;
      }
      Shutdown();
      TicketsInOrder(if halted then 1 else 0);
      forall i, j | |old(world).routed| <= i < j < |world.routed|
        ensures world.routed[i].ticket.id != world.routed[j].ticket.id
      {
        TransferProtocol.RoutedOnce(old(world), world, i, j);
      }
    }

    lemma TicketsInOrder(pending: nat)
      requires Consistent(pending)
      ensures TransferProtocol.Inv(world)
      ensures forall i :: 0 <= i < |world.routed| ==> world.routed[i].at < world.routed[i].ticket.expiresAt
    {
      hide Agree, Ladders, Pings, TransferProtocol.FileInv, TransferProtocol.TableInv, TransferProtocol.SpentInv;
    }

    // ---- what holds in every reachable state ------------------------------

    /** The index by client is the inverse of the session table, and all session counts are exact. */
    lemma SessionsAgree()
      requires Valid()
      ensures forall fd :: fd in sessions ==> (EndpointOf(sessions[fd]) in byClient
          && byClient[EndpointOf(sessions[fd])] == fd)
      ensures forall e :: e in byClient ==> byClient[e] in sessions && EndpointOf(sessions[byClient[e]]) == e
      ensures forall ip :: ip in ipStates ==> ipStates[ip].activeSessions == |FromIp(sessions, ip)|
      ensures forall fd :: fd in sessions ==> sessions[fd].ip in ipStates
      ensures forall b :: 0 <= b < |backends| ==> backends[b].activeSessions == |OnBackend(sessions, b)|
      ensures counters.sessionsOpened - counters.sessionsClosed == |sessions| <= config.maxSessions
    {
      hide Ladders, Pings, TicketWorld, Rates, Probes, Incidents, TicketTable, Sound, Forwarding, FromIp, OnBackend;
    }

    /** Every datagram was forwarded, answered from the cache or dropped, and never two of these; the
        only exception is the one that stopped the gateway. */
    lemma PacketsAccounted()
      requires Valid()
      ensures counters.clientPackets == forwarded + counters.cachedPongs + counters.dropped + (if halted then 1 else 0)
      ensures forwarded == retired + SumPackets(sessions)
    {
      hide Ladders, Pings, TicketWorld, Links, Loads, Rates, Probes, Incidents, TicketTable, Sound, SumPackets;
    }

    /** No address ever got more than twice its largest limit past the packet check within one second,
        or past the handshake check within one minute. */
    lemma RatesBounded(ip: Ip, t: nat)
      requires Valid()
      ensures RateWindow.Passed(PassesOf(packetLog, ip).spans, t, t + SECOND) <= 2 * PassesOf(packetLog, ip).bound
      ensures RateWindow.Passed(PassesOf(handshakeLog, ip).spans, t, t + MINUTE) <= 2 * PassesOf(handshakeLog, ip).bound
    {
      hide Ladders, Pings, TicketWorld, Tables, Rates, Books, Probes, Incidents, TicketTable, Sound, RateWindow.Passed,
          PassesOf;
      RateGuarantee(ipStates, packetLog, handshakeLog, time, ip, t);
    }

    /** Nor are more than twice as many pings answered within one second as the largest limit allows, to any
        address that sent no ping while it was not policed. */
    lemma PingsBounded(ip: Ip, t: nat)
      requires Valid() && ip !in loose
      ensures RateWindow.Passed(PassesOf(pingLog, ip).spans, t, t + SECOND) <= 2 * PassesOf(pingLog, ip).bound
    {
      hide Agree, Ladders, Pings, TicketWorld, RateWindow.Passed, PassesOf;
      PingGuarantee(ipStates, pingLog, loose, time, ip, t);
    }

    /** No record ever has a negative risk score. */
    lemma ScoresBounded(ip: Ip)
      requires Valid() && ip in ipStates
      ensures ipStates[ip].standing.score >= 0
    {
      hide Agree, TicketWorld, Risk.OnLadder;
    }

    /** The bans of every address climb the schedule: while it stays the same, the n-th progressive ban since
        the record was created or reset lasts the n-th entry, counted from the level it started at. */
    lemma BansClimb(ip: Ip, schedule: seq<int>)
      requires Valid() && ip in ipStates && schedule != []
      requires forall n :: 0 <= n < |LadderAt(ladders, ip).bans| ==> LadderAt(ladders, ip).bans[n].schedule == schedule
      ensures var l := LadderAt(ladders, ip);
              forall n :: 0 <= n < |l.bans| ==> l.bans[n].seconds == Risk.BanSeconds(l.start + n, schedule)
    {
      hide Agree, TicketWorld, Risk.OnLadder, Risk.BanSeconds;
      LadderHolds(ip, if halted then 1 else 0);
      Risk.LadderExact(LadderAt(ladders, ip), ipStates[ip].standing.banLevel, schedule);
    }

    /** With a timeout that fits the interval every probe sent was resolved exactly once, or is the one
        still waiting; both counters are the lengths of the current runs. */
    lemma ProbesResolved(b: nat)
      requires Valid() && b < |backends|
      ensures b < |probeLogs| && Probe.Counts(backends[b].prober, probeLogs[b])
      ensures config.probing.timeout <= config.probing.interval ==>
        probeLogs[b].sent == |probeLogs[b].outcomes| + if backends[b].prober.awaiting then 1 else 0
    {
      hide Ladders, Pings, TicketWorld, Tables, Rates, Books, Incidents, TicketTable, Sound, Probe.Counts;
    }
  }
}
