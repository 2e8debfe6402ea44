/** Health probing of one backend (`handle_health_checks`, `handle_health_response` in
    gateway/gateway.cpp). Times are milliseconds of the steady clock. */
module Probe {

  /** The probe fields of a backend. */
  datatype Prober = Prober(healthy: bool, awaiting: bool, failures: nat, recoveries: nat,
                           token: nat, sentAt: nat, lastAttempt: nat)

  datatype Settings = Settings(interval: nat, timeout: nat, failureThreshold: int, recoveryThreshold: int)

  /** First half of a check: a probe that has waited too long counts as failed. */
  function Expire(b: Prober, now: nat, s: Settings): Prober {
    if b.awaiting && now >= b.sentAt + s.timeout then
      b.(awaiting := false, failures := b.failures + 1, recoveries := 0,
         healthy := b.healthy && b.failures + 1 < s.failureThreshold)
    else b
  }

  /** Second half: a new probe when the interval is over; `delivered` says whether sending worked. */
  function Attempt(b: Prober, now: nat, token: nat, delivered: bool, s: Settings): Prober {
    if now < b.lastAttempt + s.interval then b
    else if delivered then b.(lastAttempt := now, token := token, awaiting := true, sentAt := now)
    else b.(lastAttempt := now, token := token)
  }

  /** A pong with its token. */
  function Pong(b: Prober, token: nat, s: Settings): Prober {
    if b.awaiting && token == b.token then
      b.(awaiting := false, failures := 0, recoveries := b.recoveries + 1,
         healthy := b.healthy || b.recoveries + 1 >= s.recoveryThreshold)
    else b
  }

  // ---- a history of probes -----------------------------------------------

  datatype Outcome = TimedOut | Matched

  /** Probes sent so far and how the finished ones ended, oldest first. */
  datatype History = History(sent: nat, outcomes: seq<Outcome>)

  const NONE: History := History(0, [])

  function ExpireHistory(h: History, b: Prober, now: nat, s: Settings): History {
    if b.awaiting && now >= b.sentAt + s.timeout then h.(outcomes := h.outcomes + [TimedOut]) else h
  }

  function AttemptHistory(h: History, b: Prober, now: nat, delivered: bool, s: Settings): History {
    if now >= b.lastAttempt + s.interval && delivered then h.(sent := h.sent + 1) else h
  }

  function PongHistory(h: History, b: Prober, token: nat): History {
    if b.awaiting && token == b.token then h.(outcomes := h.outcomes + [Matched]) else h
  }

  /** Length of the run of `o` at the end of the history. */
  function Trailing(outcomes: seq<Outcome>, o: Outcome): nat {
    if outcomes == [] || outcomes[|outcomes| - 1] != o then 0 else 1 + Trailing(outcomes[..|outcomes| - 1], o)
  }

  lemma TrailingSnoc(outcomes: seq<Outcome>, o: Outcome)
    ensures Trailing(outcomes + [o], o) == Trailing(outcomes, o) + 1
    ensures forall x: Outcome :: x != o ==> Trailing(outcomes + [o], x) == 0
  {
    assert (outcomes + [o])[..|outcomes|] == outcomes;
  }

  /** Both counters are the lengths of the current runs. */
  ghost predicate Counts(b: Prober, h: History) {
    b.failures == Trailing(h.outcomes, TimedOut) && b.recoveries == Trailing(h.outcomes, Matched)
  }

  /** Every probe sent has ended exactly once, except the one still waiting. */
  ghost predicate Resolved(b: Prober, h: History) {
    && h.sent == |h.outcomes| + (if b.awaiting then 1 else 0)
    && (b.awaiting ==> b.sentAt <= b.lastAttempt)
  }

  lemma ExpireKeeps(b: Prober, h: History, now: nat, s: Settings)
    requires Counts(b, h)
    ensures Counts(Expire(b, now, s), ExpireHistory(h, b, now, s))
    ensures Resolved(b, h) ==> Resolved(Expire(b, now, s), ExpireHistory(h, b, now, s))
  {
    TrailingSnoc(h.outcomes, TimedOut);
  }

  lemma PongKeeps(b: Prober, h: History, token: nat, s: Settings)
    requires Counts(b, h)
    ensures Counts(Pong(b, token, s), PongHistory(h, b, token))
    ensures Resolved(b, h) ==> Resolved(Pong(b, token, s), PongHistory(h, b, token))
  {
    TrailingSnoc(h.outcomes, Matched);
  }

  /** One whole check. With a timeout no longer than the interval it never overwrites a probe that
      is still waiting. */
  function Check(b: Prober, now: nat, token: nat, delivered: bool, s: Settings): Prober {
    Attempt(Expire(b, now, s), now, token, delivered, s)
  }

  function CheckHistory(h: History, b: Prober, now: nat, delivered: bool, s: Settings): History {
    AttemptHistory(ExpireHistory(h, b, now, s), Expire(b, now, s), now, delivered, s)
  }

  lemma CheckKeeps(b: Prober, h: History, now: nat, token: nat, delivered: bool, s: Settings)
    requires Counts(b, h)
    ensures Counts(Check(b, now, token, delivered, s), CheckHistory(h, b, now, delivered, s))
    ensures s.timeout <= s.interval && Resolved(b, h) ==>
            Resolved(Check(b, now, token, delivered, s), CheckHistory(h, b, now, delivered, s))
  {
    ExpireKeeps(b, h, now, s);
  }

  /** The verdict turns to unhealthy only at a timeout that completes a run as long as the failure
      threshold, and such a timeout always does it. */
  lemma FlipsDown(b: Prober, h: History, now: nat, s: Settings)
    requires Counts(b, h)
    ensures var after, log := Expire(b, now, s), ExpireHistory(h, b, now, s);
            && (b.healthy && !after.healthy ==> log != h && Trailing(log.outcomes, TimedOut) >= s.failureThreshold)
            && (log != h && Trailing(log.outcomes, TimedOut) >= s.failureThreshold ==> !after.healthy)
            && (!b.healthy ==> !after.healthy)
  {
    TrailingSnoc(h.outcomes, TimedOut);
  }

  /** And to healthy only at a pong that completes a run as long as the recovery threshold. */
  lemma FlipsUp(b: Prober, h: History, token: nat, s: Settings)
    requires Counts(b, h)
    ensures var after, log := Pong(b, token, s), PongHistory(h, b, token);
            && (!b.healthy && after.healthy ==> log != h && Trailing(log.outcomes, Matched) >= s.recoveryThreshold)
            && (log != h && Trailing(log.outcomes, Matched) >= s.recoveryThreshold ==> after.healthy)
            && (b.healthy ==> after.healthy)
  {
    TrailingSnoc(h.outcomes, Matched);
  }

  // ---- whole runs of one backend -----------------------------------------

  datatype Event = CheckAt(now: nat, token: nat, delivered: bool) | PongWith(pong: nat)

  function After(b: Prober, es: seq<Event>, s: Settings): Prober {
    if es == [] then b
    else
      var before := After(b, es[..|es| - 1], s);
      match es[|es| - 1]
      case CheckAt(now, token, delivered) => Check(before, now, token, delivered, s)
      case PongWith(token) => Pong(before, token, s)
  }

  function HistoryAfter(b: Prober, es: seq<Event>, s: Settings): History {
    if es == [] then NONE
    else
      var before, h := After(b, es[..|es| - 1], s), HistoryAfter(b, es[..|es| - 1], s);
      match es[|es| - 1]
      case CheckAt(now, _, delivered) => CheckHistory(h, before, now, delivered, s)
      case PongWith(token) => PongHistory(h, before, token)
  }

  /** A backend as the gateway creates it. */
  function Fresh(lastAttempt: nat): Prober {
    Prober(true, false, 0, 0, 0, 0, lastAttempt)
  }

  lemma {:induction false} RunResolves(last: nat, es: seq<Event>, s: Settings)
    ensures Counts(After(Fresh(last), es, s), HistoryAfter(Fresh(last), es, s))
    ensures s.timeout <= s.interval ==> Resolved(After(Fresh(last), es, s), HistoryAfter(Fresh(last), es, s))
  {
    if es != [] {
      hide Counts, Resolved, Check, CheckHistory, Pong, PongHistory;
      var before := es[..|es| - 1];
      RunResolves(last, before, s);
      match es[|es| - 1]
      case CheckAt(now, token, delivered) =>
        CheckKeeps(After(Fresh(last), before, s), HistoryAfter(Fresh(last), before, s), now, token, delivered, s);
      case PongWith(token) =>
        PongKeeps(After(Fresh(last), before, s), HistoryAfter(Fresh(last), before, s), token, s);
    } else {
      assert Trailing([], TimedOut) == 0 && Trailing([], Matched) == 0;
    }
  }

  /** With a longer timeout than interval, two checks one interval apart lose the first probe. */
  lemma LostProbe(last: nat, s: Settings)
    requires s.timeout > s.interval
    ensures var es := [CheckAt(last + s.interval, 1, true), CheckAt(last + 2 * s.interval, 2, true)];
            var b, h := After(Fresh(last), es, s), HistoryAfter(Fresh(last), es, s);
            h.sent == 2 && h.outcomes == [] && b.awaiting && !Resolved(b, h)
  {
    var e1, e2 := CheckAt(last + s.interval, 1, true), CheckAt(last + 2 * s.interval, 2, true);
    assert [e1, e2][..1] == [e1] && [e1][..0] == [];
    assert After(Fresh(last), [e1], s) == Prober(true, true, 0, 0, 1, last + s.interval, last + s.interval);
    assert HistoryAfter(Fresh(last), [e1], s) == History(1, []);
  }

  /** Hence probes are always resolved, in every run, if and only if the timeout fits the interval. */
  lemma ResolvedExactly(s: Settings)
    ensures s.timeout <= s.interval <==>
            forall last: nat, es: seq<Event> :: Resolved(After(Fresh(last), es, s), HistoryAfter(Fresh(last), es, s))
  {
    if s.timeout <= s.interval {
      forall last: nat, es: seq<Event>
        ensures Resolved(After(Fresh(last), es, s), HistoryAfter(Fresh(last), es, s))
      {
        RunResolves(last, es, s);
      }
    } else {
      LostProbe(0, s);
    }
  }
}
