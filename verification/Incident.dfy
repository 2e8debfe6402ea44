/** Automatic incident mode of the gateway (`handle_incident_mode` in gateway/gateway.cpp). Times are
    milliseconds of the steady clock, 0 means "not set"; rates are computed exactly. */
module Incident {

  datatype Settings = Settings(enabled: bool, triggerRate: nat, minimumRate: nat, triggerRatio: real, recovery: nat)

  datatype Mode = Mode(on: bool, candidate: nat, lastCheck: nat, lastPackets: nat, lastDrops: nat,
                       entries: nat, exits: nat)

  /** At the start. */
  function Calm(now: nat): Mode {
    Mode(false, 0, now, 0, 0, 0, 0)
  }

  /** Packets per second over the interval, rounded down. */
  function Rate(packets: nat, elapsed: nat): nat
    requires elapsed > 0
  {
    packets * 1000 / elapsed
  }

  function Ratio(drops: nat, packets: nat): real {
    if packets == 0 then 0.0 else drops as real / packets as real
  }

  /** Does the traffic since the last check call for incident mode? */
  predicate Alarming(packets: nat, drops: nat, elapsed: nat, s: Settings)
    requires elapsed > 0
  {
    var rate := Rate(packets, elapsed);
    rate >= s.triggerRate || (rate >= s.minimumRate && Ratio(drops, packets) >= s.triggerRatio)
  }

  /** A check is due at most once a second. */
  predicate Due(m: Mode, now: nat, s: Settings) {
    s.enabled && now >= m.lastCheck + 1000
  }

  function Verdict(m: Mode, now: nat, packets: nat, drops: nat, s: Settings): bool
    requires Due(m, now, s) && m.lastPackets <= packets && m.lastDrops <= drops
  {
    Alarming(packets - m.lastPackets, drops - m.lastDrops, now - m.lastCheck, s)
  }

  /** One check against the running totals. */
  function Check(m: Mode, now: nat, packets: nat, drops: nat, s: Settings): Mode
    requires Due(m, now, s) && m.lastPackets <= packets && m.lastDrops <= drops
  {
    var bad := Verdict(m, now, packets, drops, s);
    var c := m.(lastCheck := now, lastPackets := packets, lastDrops := drops);
    if !m.on then
      if bad then c.(on := true, candidate := 0, entries := m.entries + 1) else c
    else if bad then c.(candidate := 0)
    else if m.candidate == 0 then c.(candidate := now)
    else if now >= m.candidate + s.recovery then c.(on := false, candidate := 0, exits := m.exits + 1)
    else c
  }

  // ---- history -----------------------------------------------------------

  datatype Checked = Checked(at: nat, bad: bool)

  /** The checks from number `i` on were all calm. */
  ghost predicate CalmFrom(log: seq<Checked>, i: nat) {
    i < |log| && forall k :: i <= k < |log| ==> !log[k].bad
  }

  /** Calm checks reach back to the time `since`. */
  ghost predicate CalmSince(log: seq<Checked>, since: nat) {
    exists i: nat :: CalmFrom(log, i) && log[i].at == since
  }

  ghost predicate Inv(m: Mode, log: seq<Checked>) {
    && m.entries == m.exits + (if m.on then 1 else 0)
    && (m.candidate != 0 ==> m.on && CalmSince(log, m.candidate))
    && (m.on && log != [] && !log[|log| - 1].bad ==> m.candidate != 0)
  }

  lemma CalmExtends(log: seq<Checked>, since: nat, at: nat)
    requires CalmSince(log, since)
    ensures CalmSince(log + [Checked(at, false)], since)
  {
    var i: nat :| CalmFrom(log, i) && log[i].at == since;
    assert CalmFrom(log + [Checked(at, false)], i);
  }

  lemma CalmStarts(log: seq<Checked>, at: nat)
    ensures CalmSince(log + [Checked(at, false)], at)
  {
    assert CalmFrom(log + [Checked(at, false)], |log|);
  }

  /** Every check keeps the books: entries minus exits is 1 exactly while the mode is on, a pending
      recovery rests on calm checks only, and the mode is left only after calm checks that span the
      whole recovery time. */
  lemma CheckKeeps(m: Mode, log: seq<Checked>, now: nat, packets: nat, drops: nat, s: Settings)
    requires Inv(m, log) && now > 0
    requires Due(m, now, s) && m.lastPackets <= packets && m.lastDrops <= drops
    ensures var bad := Verdict(m, now, packets, drops, s);
            var after, log' := Check(m, now, packets, drops, s), log + [Checked(now, bad)];
            && Inv(after, log')
            && (m.on && !after.on ==> exists since: nat :: CalmSince(log', since) && now >= since + s.recovery)
            && (bad ==> after.on && after.candidate == 0)
            && (!m.on && after.on ==> bad)
  {
    hide Alarming;
    var bad := Verdict(m, now, packets, drops, s);
    if !bad {
      CalmStarts(log, now);
      if m.candidate != 0 { CalmExtends(log, m.candidate, now); }
    }
  }

  /** A check always notes the totals it saw. */
  lemma CheckTotals(m: Mode, now: nat, packets: nat, drops: nat, s: Settings)
    requires Due(m, now, s) && m.lastPackets <= packets && m.lastDrops <= drops
    ensures var after := Check(m, now, packets, drops, s); after.lastPackets == packets && after.lastDrops == drops
  {
    hide Verdict;
  }

  /** Drops never outnumber packets between two checks, so the ratio lies between 0 and 1. */
  lemma RatioInRange(drops: nat, packets: nat)
    requires drops <= packets
    ensures 0.0 <= Ratio(drops, packets) <= 1.0
  {
  }

  // ---- whole runs --------------------------------------------------------

  datatype Event = Event(now: nat, packets: nat, drops: nat, settings: Settings)

  /** Checks may come at any time and under changing settings; totals only grow. */
  ghost predicate Proper(m: Mode, es: seq<Event>)
    decreases |es|
  {
    es == [] ||
    (es[0].now > 0 && m.lastPackets <= es[0].packets && m.lastDrops <= es[0].drops &&
     Proper(React(m, es[0]), es[1..]))
  }

  function React(m: Mode, e: Event): Mode {
    if Due(m, e.now, e.settings) && m.lastPackets <= e.packets && m.lastDrops <= e.drops
    then Check(m, e.now, e.packets, e.drops, e.settings) else m
  }

  function After(m: Mode, es: seq<Event>): Mode
    decreases |es|
  {
    if es == [] then m else After(React(m, es[0]), es[1..])
  }

  ghost function LogOf(m: Mode, log: seq<Checked>, es: seq<Event>): seq<Checked>
    requires Proper(m, es)
    decreases |es|
  {
    if es == [] then log
    else
      var e := es[0];
      var log' := if Due(m, e.now, e.settings) then log + [Checked(e.now,
          Verdict(m, e.now, e.packets, e.drops, e.settings))] else log;
      LogOf(React(m, e), log', es[1..])
  }

  /** The invariant holds after every run. */
  lemma {:induction false} RunKeeps(m: Mode, log: seq<Checked>, es: seq<Event>)
    requires Inv(m, log) && Proper(m, es)
    ensures Inv(After(m, es), LogOf(m, log, es))
    decreases |es|
  {
    hide Inv, Check, Verdict;
    if es != [] {
      var e := es[0];
      if Due(m, e.now, e.settings) {
        CheckKeeps(m, log, e.now, e.packets, e.drops, e.settings);
        RunKeeps(React(m, e), log + [Checked(e.now, Verdict(m, e.now, e.packets, e.drops, e.settings))], es[1..]);
      } else {
        RunKeeps(React(m, e), log, es[1..]);
      }
    }
  }
}
