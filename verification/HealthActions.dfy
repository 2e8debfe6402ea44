/** Automatic backend actions of the dashboard: `healthActionLoop` (dashboard/control_plane.go).
    Times are milliseconds since the epoch; 0 in a streak field means "no streak". */
module HealthActions {
  import opened Text

  datatype Companion = Companion(timestamp: int, tps: Option<real>, mspt: Option<real>)

  /** What one tick sees of one backend; `appended` says whether a command could be added to the log. */
  datatype Sighting = Sighting(server: string, gatewayHealthy: bool, companion: Option<Companion>, appended: bool)

  datatype Policy = Policy(requireCompanion: bool, staleAfter: int, degradedAfter: int, recoveryAfter: int,
                           minimumTps: real, maximumMspt: real)

  function Healthy(s: Sighting, p: Policy, now: int): bool {
    match s.companion
    case None => s.gatewayHealthy && !p.requireCompanion
    case Some(c) =>
      && s.gatewayHealthy
      && now - c.timestamp <= p.staleAfter
      && (c.tps.Some? ==> c.tps.value >= p.minimumTps)
      && (c.mspt.Some? ==> c.mspt.value <= p.maximumMspt)
  }

  datatype Command = Disable | Restore

  /** The three entries the loop keeps for a server. */
  datatype State = State(disabled: bool, unhealthyFrom: int, healthyFrom: int)

  const INITIAL: State := State(false, 0, 0)

  /** One observation of a server: the verdict, the delays in force, and whether a command could be added to
      the log, which the loop does not look at. */
  datatype Event = Event(now: int, healthy: bool, degradedAfter: int, recoveryAfter: int, appended: bool)

  function EventOf(s: Sighting, p: Policy, now: int): Event {
    Event(now, Healthy(s, p, now), p.degradedAfter, p.recoveryAfter, s.appended)
  }

  function Next(s: State, e: Event): (State, Option<Command>) {
    if !e.healthy then
      var from := if s.unhealthyFrom == 0 then e.now else s.unhealthyFrom;
      if !s.disabled && e.now - from >= e.degradedAfter then (State(true, from, 0), Some(Disable))
      else (State(s.disabled, from, 0), None)
    else if !s.disabled then (State(false, 0, s.healthyFrom), None)
    else
      var from := if s.healthyFrom == 0 then e.now else s.healthyFrom;
      if e.now - from >= e.recoveryAfter then (State(false, 0, 0), Some(Restore))
      else (State(true, 0, from), None)
  }

  // ---- one server over a whole run ---------------------------------------

  function StateAt(es: seq<Event>, n: nat): State
    requires n <= |es|
  {
    if n == 0 then INITIAL else Next(StateAt(es, n - 1), es[n - 1]).0
  }

  function EmitAt(es: seq<Event>, j: nat): Option<Command>
    requires j < |es|
  {
    Next(StateAt(es, j), es[j]).1
  }

  /** The commands decided for the server by the first `n` observations. */
  function Emitted(es: seq<Event>, n: nat): seq<Command>
    requires n <= |es|
  {
    if n == 0 then []
    else
      match EmitAt(es, n - 1)
      case None => Emitted(es, n - 1)
      case Some(c) => Emitted(es, n - 1) + [c]
  }

  /** The commands that reached the log, and the number of those that did not. */
  function Logged(es: seq<Event>, n: nat): seq<Command>
    requires n <= |es|
  {
    if n == 0 then []
    else
      match EmitAt(es, n - 1)
      case None => Logged(es, n - 1)
      case Some(c) => Logged(es, n - 1) + if es[n - 1].appended then [c] else []
  }

  function Lost(es: seq<Event>, n: nat): nat
    requires n <= |es|
  {
    if n == 0 then 0
    else Lost(es, n - 1) + if EmitAt(es, n - 1).Some? && !es[n - 1].appended then 1 else 0
  }

  /** Observations i..j all had the same verdict. */
  ghost predicate Streak(es: seq<Event>, i: nat, j: nat, healthy: bool) {
    i <= j < |es| && forall k :: i <= k <= j ==> es[k].healthy == healthy
  }

  ghost predicate Clocked(es: seq<Event>) {
    forall k :: 0 <= k < |es| ==> es[k].now > 0
  }

  /** What the streak fields mean after `n` observations. */
  lemma {:induction false} StreakFields(es: seq<Event>, n: nat)
    requires n <= |es| && Clocked(es)
    ensures var s := StateAt(es, n);
            && (s.unhealthyFrom != 0 ==> exists i: nat :: (i < n && Streak(es, i, n - 1, false)
                && es[i].now == s.unhealthyFrom))
            && (s.healthyFrom != 0 ==> s.disabled && exists i: nat :: (i < n && Streak(es, i, n - 1, true)
                && es[i].now == s.healthyFrom))
            && (n > 0 && !es[n - 1].healthy ==> s.unhealthyFrom != 0)
    decreases n
  {
    if n > 0 {
      StreakFields(es, n - 1);
      var before, s, e := StateAt(es, n - 1), StateAt(es, n), es[n - 1];
      if s.unhealthyFrom != 0 {
        if before.unhealthyFrom == 0 {
          assert Streak(es, n - 1, n - 1, false);
        } else {
          var i: nat :| i < n - 1 && Streak(es, i, n - 2, false) && es[i].now == before.unhealthyFrom;
          assert Streak(es, i, n - 1, false);
        }
      }
      if s.healthyFrom != 0 {
        if before.healthyFrom == 0 {
          assert Streak(es, n - 1, n - 1, true);
        } else {
          var i: nat :| i < n - 1 && Streak(es, i, n - 2, true) && es[i].now == before.healthyFrom;
          assert Streak(es, i, n - 1, true);
        }
      }
    }
  }

  /** A server is disabled only at the end of an unbroken unhealthy streak at least as long as the
      degraded delay. */
  lemma DisableAfterStreak(es: seq<Event>, j: nat)
    requires j < |es| && Clocked(es) && EmitAt(es, j) == Some(Disable)
    ensures exists i: nat :: Streak(es, i, j, false) && es[j].now - es[i].now >= es[j].degradedAfter
  {
    StreakFields(es, j);
    var before := StateAt(es, j);
    if before.unhealthyFrom == 0 {
      assert Streak(es, j, j, false);
    } else {
      var i: nat :| i < j && Streak(es, i, j - 1, false) && es[i].now == before.unhealthyFrom;
      assert Streak(es, i, j, false);
    }
  }

  /** A server is restored only at the end of an unbroken healthy streak at least as long as the
      recovery delay. */
  lemma RestoreAfterStreak(es: seq<Event>, j: nat)
    requires j < |es| && Clocked(es) && EmitAt(es, j) == Some(Restore)
    ensures exists i: nat :: Streak(es, i, j, true) && es[j].now - es[i].now >= es[j].recoveryAfter
  {
    StreakFields(es, j);
    var before := StateAt(es, j);
    if before.healthyFrom == 0 {
      assert Streak(es, j, j, true);
    } else {
      var i: nat :| i < j && Streak(es, i, j - 1, true) && es[i].now == before.healthyFrom;
      assert Streak(es, i, j, true);
    }
  }

  /** The commands decided for a server strictly alternate, starting with disable, and the server is marked
      disabled exactly when the last one was a disable. */
  lemma {:induction false} Alternation(es: seq<Event>, n: nat)
    requires n <= |es|
    ensures var cs := Emitted(es, n);
            && Alternates(cs)
            && (StateAt(es, n).disabled <==> |cs| % 2 == 1)
    decreases n
  {
    if n > 0 {
      Alternation(es, n - 1);
    }
  }

  /** Disable, restore, disable, and so on. */
  ghost predicate Alternates(cs: seq<Command>) {
    forall k :: 0 <= k < |cs| ==> (cs[k] == Disable <==> k % 2 == 0)
  }

  /** Observation `j` adds a command to the log. */
  predicate Adds(es: seq<Event>, j: nat)
    requires j < |es|
  {
    EmitAt(es, j).Some? && es[j].appended
  }

  lemma {:induction false} LoggedOrLost(es: seq<Event>, n: nat)
    requires n <= |es|
    ensures |Logged(es, n)| + Lost(es, n) == |Emitted(es, n)|
    decreases n
  {
    if n > 0 { LoggedOrLost(es, n - 1); }
  }

  /** The log of a server alternates, starting with disable, if and only if an even number of commands was
      lost before each one that reached it; so it does whenever none is lost. */
  lemma {:induction false} LogAlternates(es: seq<Event>, n: nat)
    requires n <= |es|
    ensures Alternates(Logged(es, n)) <==> forall j: nat :: j < n ==> EvenlyLost(es, j)
    decreases n
  {
    if n > 0 {
      hide Alternates, EmitAt, Logged, EvenlyLost;
      LogAlternates(es, n - 1);
      LoggedStep(es, n);
    } else {
      hide Alternates;
      NoneAlternate();
    }
  }

  /** If observation `j` adds a command to the log, an even number was lost before. */
  predicate EvenlyLost(es: seq<Event>, j: nat)
    requires j < |es|
  {
    Adds(es, j) ==> Lost(es, j) % 2 == 0
  }

  lemma LoggedStep(es: seq<Event>, n: nat)
    requires 0 < n <= |es|
    ensures Alternates(Logged(es, n)) <==> Alternates(Logged(es, n - 1)) && EvenlyLost(es, n - 1)
  {
    hide Alternates, StateAt, Next, EmitAt, Lost;
    LoggedOrLost(es, n - 1);
    if Adds(es, n - 1) {
      DecidedInTurn(es, n);
      AlternatesSnoc(Logged(es, n - 1), EmitAt(es, n - 1).value);
      assert (|Logged(es, n - 1)| % 2 == 0 <==> |Emitted(es, n - 1)| % 2 == 0) <==> Lost(es, n - 1) % 2 == 0;
    } else {
      assert Logged(es, n) == Logged(es, n - 1);
    }
  }

  lemma NoneAlternate()
    ensures Alternates([])
  {
  }

  lemma AlternatesSnoc(cs: seq<Command>, c: Command)
    ensures Alternates(cs + [c]) <==> Alternates(cs) && (c == Disable <==> |cs| % 2 == 0)
  {
    var all := cs + [c];
    assert all[|cs|] == c && forall k :: 0 <= k < |cs| ==> all[k] == cs[k];
  }

  lemma DecidedInTurn(es: seq<Event>, n: nat)
    requires 0 < n <= |es| && EmitAt(es, n - 1).Some?
    ensures EmitAt(es, n - 1).value == Disable <==> |Emitted(es, n - 1)| % 2 == 0
  {
    hide StateAt, Next, EmitAt;
    Alternation(es, n);
    assert Emitted(es, n)[|Emitted(es, n - 1)|] == EmitAt(es, n - 1).value;
  }

  /** A disable that is lost makes the log begin with a restore. */
  lemma LostDisable(now: int)
    requires now > 0
    ensures var es := [Event(now, false, 0, 0, false), Event(now, true, 0, 0, true)];
            Emitted(es, 2) == [Disable, Restore] && Logged(es, 2) == [Restore]
  {
    var es := [Event(now, false, 0, 0, false), Event(now, true, 0, 0, true)];
    assert StateAt(es, 1) == State(true, now, 0);
    assert Emitted(es, 1) == [Disable] && Logged(es, 1) == [];
  }

  /** Nor is a due command ever withheld: an enabled server seen unhealthy since observation `i`
      for at least the delay is disabled by observation `j`. */
  lemma NeverOverdue(es: seq<Event>, i: nat, j: nat)
    requires Clocked(es) && Streak(es, i, j, false) && (i == 0 || es[i - 1].healthy)
    requires es[j].now - es[i].now >= es[j].degradedAfter
    ensures StateAt(es, j + 1).disabled
  {
    UnhealthySince(es, i, j);
  }

  lemma {:induction false} UnhealthySince(es: seq<Event>, i: nat, j: nat)
    requires Clocked(es) && Streak(es, i, j, false) && (i == 0 || es[i - 1].healthy)
    ensures StateAt(es, j + 1).unhealthyFrom == es[i].now
    decreases j
  {
    if j > i {
      UnhealthySince(es, i, j - 1);
    } else if i > 0 {
      assert StateAt(es, i).unhealthyFrom == 0;
    }
  }

  /** And a disabled server seen healthy since observation `i` for at least the recovery delay is enabled
      again by observation `j`. */
  lemma RestoreNeverOverdue(es: seq<Event>, i: nat, j: nat)
    requires Clocked(es) && Streak(es, i, j, true) && (i == 0 || !es[i - 1].healthy)
    requires es[j].now - es[i].now >= es[j].recoveryAfter
    ensures !StateAt(es, j + 1).disabled
  {
    HealthySince(es, i, j);
  }

  lemma {:induction false} HealthySince(es: seq<Event>, i: nat, j: nat)
    requires Clocked(es) && Streak(es, i, j, true) && (i == 0 || !es[i - 1].healthy)
    ensures StateAt(es, j + 1).disabled ==>
              StateAt(es, j + 1).healthyFrom == es[i].now && es[j].now - es[i].now < es[j].recoveryAfter
    decreases j
  {
    if j > i {
      HealthySince(es, i, j - 1);
    } else if i > 0 {
      assert StateAt(es, i).healthyFrom == 0;
    }
  }

  // ---- the loop ----------------------------------------------------------

  function Read<V>(m: map<string, V>, k: string, default: V): V {
    if k in m then m[k] else default
  }

  class Actions {
    var disabled: map<string, bool>
    var unhealthyFrom: map<string, int>
    var healthyFrom: map<string, int>
    var queued: seq<(string, Command)>
    ghost var seen: map<string, seq<Event>>

    function StateOf(server: string): State
      reads this
    {
      State(Read(disabled, server, false), Read(unhealthyFrom, server, 0), Read(healthyFrom, server, 0))
    }

    ghost function Seen(server: string): seq<Event>
      reads this
    {
      Read(seen, server, [])
    }

    /** Every server's entries and commands are those of its own observations. */
    ghost predicate Valid()
      reads this
    {
      forall server: string ::
        && Clocked(Seen(server))
        && StateOf(server) == StateAt(Seen(server), |Seen(server)|)
        && CommandsFor(queued, server) == Logged(Seen(server), |Seen(server)|)
    }

    constructor ()
      ensures Valid() && queued == [] && seen == map[]
    {
      disabled, unhealthyFrom, healthyFrom := map[], map[], map[];
      queued, seen := [], map[];
    }

    /** Update a server's entries; the result is the command to send, if any. */
    method Decide(server: string, healthy: bool, p: Policy, now: int) returns (command: Option<Command>)
      modifies `disabled, `unhealthyFrom, `healthyFrom
      ensures forall appended: bool ::
        (StateOf(server), command) == Next(old(StateOf(server)),
            Event(now, healthy, p.degradedAfter, p.recoveryAfter, appended))
      ensures forall other: string :: other != server ==> StateOf(other) == old(StateOf(other))
    {
      command := None;
      if !healthy {
        healthyFrom := healthyFrom[server := 0];
        if Read(unhealthyFrom, server, 0) == 0 {
          unhealthyFrom := unhealthyFrom[server := now];
        }
        if !Read(disabled, server, false) && now - unhealthyFrom[server] >= p.degradedAfter {
          disabled := disabled[server := true];
          command := Some(Disable);
        }
        return;
      }
      unhealthyFrom := unhealthyFrom[server := 0];
      if Read(disabled, server, false) {
        if Read(healthyFrom, server, 0) == 0 {
          healthyFrom := healthyFrom[server := now];
        }
        if now - healthyFrom[server] >= p.recoveryAfter {
          disabled := disabled[server := false];
          healthyFrom := healthyFrom[server := 0];
          command := Some(Restore);
        }
      }
    }

    /** One backend within a tick. */
    method Observe(s: Sighting, p: Policy, now: int)
      requires Valid() && now > 0
      modifies this
      ensures Valid()
      ensures seen == old(seen)[s.server := old(Seen(s.server)) + [EventOf(s, p, now)]]
    {
      hide Healthy, Next, StateAt, Logged, CommandsFor;
      ghost var e := EventOf(s, p, now);
      ghost var es := Seen(s.server);
      assert Clocked(es);
      var command := Decide(s.server, Healthy(s, p, now), p, now);
      if command.Some? && s.appended {
        ghost var before := queued;
        queued := queued + [(s.server, command.value)];
        forall server: string
          ensures CommandsFor(queued, server)
               == CommandsFor(before, server) + if s.server == server then [command.value] else []
        {
          CommandsSnoc(before, (s.server, command.value), server);
        }
      }
      seen := seen[s.server := es + [e]];
      Extend(es, e);
      forall server: string
        ensures Clocked(Seen(server))
        ensures StateOf(server) == StateAt(Seen(server), |Seen(server)|)
        ensures CommandsFor(queued, server) == Logged(Seen(server), |Seen(server)|)
      {
        if server != s.server {
          assert Seen(server) == old(Seen(server));
          assert command.Some? && s.appended ==> CommandsFor(queued, server) == CommandsFor(old(queued), server) + [];
          assert CommandsFor(queued, server) == old(CommandsFor(queued, server));
        }
      }
    }

    /** One tick over all backends the gateway reports. */
    method Tick(sightings: seq<Sighting>, p: Policy, now: int)
      requires Valid() && now > 0
      modifies this
      ensures Valid() && seen == SeenAfter(old(seen), sightings, p, now)
    {
      var i := 0;
      assert sightings[i..] == sightings;
      while i < |sightings|
        invariant 0 <= i <= |sightings| && Valid()
        invariant SeenAfter(old(seen), sightings, p, now) == SeenAfter(seen, sightings[i..], p, now)
      {
        Observe(sightings[i], p, now);
        assert sightings[i..][1..] == sightings[i + 1..];
        i := i + 1;
      }
    }
  }

  ghost function SeenAfter(seen: map<string, seq<Event>>, sightings: seq<Sighting>, p: Policy, now: int)
    : map<string, seq<Event>>
    decreases |sightings|
  {
    if sightings == [] then seen
    else
      var s := sightings[0];
      var e := EventOf(s, p, now);
      SeenAfter(seen[s.server := Read(seen, s.server, []) + [e]], sightings[1..], p, now)
  }

  function CommandsFor(queued: seq<(string, Command)>, server: string): seq<Command> {
    if queued == [] then []
    else
      var last := queued[|queued| - 1];
      CommandsFor(queued[..|queued| - 1], server) + if last.0 == server then [last.1] else []
  }

  lemma CommandsSnoc(queued: seq<(string, Command)>, c: (string, Command), server: string)
    ensures CommandsFor(queued + [c], server) == CommandsFor(queued, server) + if c.0 == server then [c.1] else []
  {
    assert (queued + [c])[..|queued|] == queued;
  }

  lemma {:induction false} SamePast(es: seq<Event>, e: Event, n: nat)
    requires n <= |es|
    ensures StateAt(es + [e], n) == StateAt(es, n) && Logged(es + [e], n) == Logged(es, n)
    decreases n
  {
    if n > 0 { SamePast(es, e, n - 1); }
  }

  lemma Extend(es: seq<Event>, e: Event)
    ensures var r := Next(StateAt(es, |es|), e);
            && StateAt(es + [e], |es| + 1) == r.0
            && Logged(es + [e], |es| + 1) == Logged(es, |es|) + if r.1.Some? && e.appended then [r.1.value] else []
  {
    SamePast(es, e, |es|);
  }
}
