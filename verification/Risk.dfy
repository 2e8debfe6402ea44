/** The adaptive firewall of the gateway: risk decay, offences and progressive bans
    (`decay_risk`, `add_risk`, `apply_progressive_ban` in gateway/gateway.cpp). Times are
    milliseconds; 0 means "not set". */
module Risk {

  const MINUTE: nat := 60000
  const MAX_SCORE: int := 10000

  /** The firewall settings; both ways of loading them enforce `Valid`. */
  datatype Policy = Policy(adaptive: bool, decayPerMinute: int, warning: int, ban: int, schedule: seq<int>) {
    predicate Valid() {
      1 <= warning < ban && schedule != []
    }
  }

  /** The part of a client's record that the adaptive firewall owns. */
  datatype Standing = Standing(score: int, updated: nat, banLevel: int, offenses: nat,
                               bannedUntil: nat, bannedUntilEpoch: nat)

  const CLEAN: Standing := Standing(0, 0, 0, 0, 0, 0)

  /** `decay_risk`: whole minutes since the last update are paid off; the rest carries over. */
  function Decay(s: Standing, now: nat, p: Policy): Standing {
    if s.updated == 0 || p.decayPerMinute <= 0 || s.score <= 0 then s.(updated := now)
    else if now < s.updated + MINUTE then s
    else
      var minutes := (now - s.updated) / MINUTE;
      s.(score := Floor(s.score - minutes * p.decayPerMinute), updated := s.updated + minutes * MINUTE)
  }

  function Floor(x: int): nat {
    if x < 0 then 0 else x
  }

  function MinInt(a: int, b: int): int {
    if a < b then a else b
  }

  /** How long a ban lasts for a client at this level. */
  function BanSeconds(level: int, schedule: seq<int>): (r: nat)
    requires schedule != []
    ensures r >= 1
  {
    var seconds := schedule[MinInt(Floor(level), |schedule| - 1)];
    if seconds < 1 then 1 else seconds
  }

  /** `apply_progressive_ban`; `clock` and `epoch` are the steady and the wall clock. */
  function Banned(s: Standing, clock: nat, epoch: nat, p: Policy): Standing
    requires p.schedule != []
  {
    var seconds := BanSeconds(s.banLevel, p.schedule);
    s.(banLevel := MinInt(s.banLevel + 1, |p.schedule| - 1),
       bannedUntil := clock + seconds * 1000,
       bannedUntilEpoch := epoch + seconds * 1000,
       score := Floor(p.warning / 2))
  }

  /** What an offence did besides changing the standing. */
  datatype Effect = Effect(warned: bool, banSeconds: nat)

  /** `add_risk`: decay, charge the points, and ban when the threshold is reached. */
  function Offend(s: Standing, points: int, allowlisted: bool, clock: nat, epoch: nat, p: Policy): (Standing, Effect)
    requires p.Valid()
  {
    if !p.adaptive || points <= 0 || allowlisted then (s, Effect(false, 0))
    else
      var d := Decay(s, clock, p);
      var score := MinInt(MAX_SCORE, d.score + points);
      var charged := d.(score := score, updated := clock, offenses := d.offenses + 1);
      var warned := d.score < p.warning <= score;
      if score >= p.ban then (Banned(charged, clock, epoch, p),
          Effect(warned, BanSeconds(charged.banLevel, p.schedule)))
      else (charged, Effect(warned, 0))
  }

  // ---- decay does not depend on polling ----------------------------------

  lemma MinutesAdd(u: nat, t1: nat, t2: nat)
    requires u + MINUTE <= t1 <= t2
    ensures var m1 := (t1 - u) / MINUTE;
            t2 - (u + m1 * MINUTE) >= 0 && (t2 - u) / MINUTE == m1 + (t2 - (u + m1 * MINUTE)) / MINUTE
  {
  }

  lemma Distribute(a: nat, b: nat, d: nat)
    ensures (a + b) * d == a * d + b * d
  {
  }

  /** Decaying at `t1` and again at `t2` gives the score of decaying once at `t2`. */
  lemma DecayIsPollingFree(s: Standing, t1: nat, t2: nat, p: Policy)
    requires s.updated != 0 && 0 < t1 <= t2
    ensures Decay(Decay(s, t1, p), t2, p).score == Decay(s, t2, p).score
  {
    if p.decayPerMinute > 0 && s.score > 0 && t1 >= s.updated + MINUTE {
      var d := p.decayPerMinute;
      var m1, m := (t1 - s.updated) / MINUTE, (t2 - s.updated) / MINUTE;
      var first := Decay(s, t1, p);
      MinutesAdd(s.updated, t1, t2);
      var m2 := (t2 - first.updated) / MINUTE;
      Distribute(m1, m2, d);
      if m2 == 0 { assert m2 * d == 0; }
    }
  }

  // ---- scores ------------------------------------------------------------

  lemma DecayBounds(s: Standing, now: nat, p: Policy)
    requires s.score >= 0
    ensures 0 <= Decay(s, now, p).score <= s.score
  {
    if s.updated != 0 && p.decayPerMinute > 0 && s.score > 0 && now >= s.updated + MINUTE {
      assert (now - s.updated) / MINUTE * p.decayPerMinute >= 0;
    }
  }

  /** After any offence that counts the score is below the ban threshold, and it never turns negative. */
  lemma OffenceBounds(s: Standing, points: int, allowlisted: bool, clock: nat, epoch: nat, p: Policy)
    requires p.Valid()
    ensures var (t, e) := Offend(s, points, allowlisted, clock, epoch, p);
            && (s.score >= 0 ==> t.score >= 0)
            && (p.adaptive && points > 0 && !allowlisted ==> t.score < p.ban && t.offenses == s.offenses + 1)
  {
    hide BanSeconds, Decay;
    DecayKeepsBans(s, clock, p);
    if s.score >= 0 { DecayBounds(s, clock, p); }
  }

  /** A negative score, which only a damaged ban file can bring in, stays negative after an offence. */
  lemma NegativeScore(clock: nat, epoch: nat, p: Policy)
    requires p.Valid() && p.adaptive && clock > 0
    ensures Offend(CLEAN.(score := -100), 5, false, clock, epoch, p).0.score == -95
  {
  }

  // ---- the ban ladder ----------------------------------------------------

  /** A progressive ban: how long it was, and the schedule in force. */
  datatype Ban = Ban(seconds: nat, schedule: seq<int>)

  /** The progressive bans of a record since it was created or reset, and the level it had then. */
  datatype Ladder = Ladder(start: int, bans: seq<Ban>)

  const GROUND: Ladder := Ladder(0, [])

  function LevelAfter(start: int, bans: seq<Ban>): int {
    if bans == [] then start
    else MinInt(LevelAfter(start, bans[..|bans| - 1]) + 1, |bans[|bans| - 1].schedule| - 1)
  }

  /** Ban number `n` lasted what its schedule says for the level reached by then. */
  predicate BanRight(l: Ladder, n: nat)
    requires n < |l.bans|
  {
    l.bans[n].schedule != [] && l.bans[n].seconds == BanSeconds(LevelAfter(l.start, l.bans[..n]), l.bans[n].schedule)
  }

  /** The history explains the level a record is at. */
  ghost predicate OnLadder(l: Ladder, level: int) {
    level == LevelAfter(l.start, l.bans) && forall n :: 0 <= n < |l.bans| ==> BanRight(l, n)
  }

  /** The history after an offence. */
  function Climb(l: Ladder, e: Effect, p: Policy): Ladder {
    if e.banSeconds > 0 then Ladder(l.start, l.bans + [Ban(e.banSeconds, p.schedule)]) else l
  }

  lemma OffendClimbs(l: Ladder, s: Standing, points: int, allowlisted: bool, clock: nat, epoch: nat, p: Policy)
    requires p.Valid() && OnLadder(l, s.banLevel)
    ensures var (t, e) := Offend(s, points, allowlisted, clock, epoch, p);
            && OnLadder(Climb(l, e, p), t.banLevel)
            && (e.banSeconds > 0 ==> (t.bannedUntil == clock + e.banSeconds * 1000
                && t.bannedUntilEpoch == epoch + e.banSeconds * 1000))
            && (e.banSeconds == 0 ==> t.bannedUntil == s.bannedUntil && t.bannedUntilEpoch == s.bannedUntilEpoch)
  {
    hide BanSeconds, Decay;
    DecayKeepsBans(s, clock, p);
    var (t, e) := Offend(s, points, allowlisted, clock, epoch, p);
    if e.banSeconds > 0 {
      ClimbKeeps(l, Ban(e.banSeconds, p.schedule));
    }
  }

  lemma DecayKeepsBans(s: Standing, now: nat, p: Policy)
    ensures var d := Decay(s, now, p);
            && d.banLevel == s.banLevel && d.bannedUntil == s.bannedUntil && d.bannedUntilEpoch == s.bannedUntilEpoch
            && d.offenses == s.offenses
  {
  }

  lemma ClimbKeeps(l: Ladder, b: Ban)
    requires OnLadder(l, LevelAfter(l.start, l.bans)) && b.schedule != []
    requires b.seconds == BanSeconds(LevelAfter(l.start, l.bans), b.schedule)
    ensures OnLadder(Ladder(l.start, l.bans + [b]), MinInt(LevelAfter(l.start, l.bans) + 1, |b.schedule| - 1))
  {
    hide BanSeconds;
    var after := Ladder(l.start, l.bans + [b]);
    assert after.bans[..|l.bans|] == l.bans;
    forall n | 0 <= n < |after.bans| ensures BanRight(after, n) {
      if n < |l.bans| {
        assert after.bans[..n] == l.bans[..n];
        assert BanRight(l, n);
      }
    }
  }

  lemma {:induction false} LevelCapped(start: int, bans: seq<Ban>, schedule: seq<int>)
    requires schedule != [] && forall n :: 0 <= n < |bans| ==> bans[n].schedule == schedule
    ensures LevelAfter(start, bans) == if bans == [] then start else MinInt(start + |bans|, |schedule| - 1)
  {
    if bans != [] {
      LevelCapped(start, bans[..|bans| - 1], schedule);
    }
  }

  /** While the schedule stays the same, the n-th ban lasts the n-th entry counted from the starting
      level, or the last one when the schedule is used up, and never less than a second. Everything
      else in the policy may change. */
  lemma LadderExact(l: Ladder, level: int, schedule: seq<int>)
    requires OnLadder(l, level) && schedule != [] && forall n :: 0 <= n < |l.bans| ==> l.bans[n].schedule == schedule
    ensures forall n :: 0 <= n < |l.bans| ==> l.bans[n].seconds == BanSeconds(l.start + n, schedule)
  {
    forall n | 0 <= n < |l.bans| ensures l.bans[n].seconds == BanSeconds(l.start + n, schedule) {
      LevelCapped(l.start, l.bans[..n], schedule);
      assert BanRight(l, n);
    }
  }

  // ---- whole runs of one record ------------------------------------------

  /** What happens to a record; each event comes with the policy in force at the time. */
  datatype Event =
    | Offence(points: int, allowlisted: bool, clock: nat, epoch: nat, policy: Policy)
    | Poll(now: nat, policy: Policy)
    | Unban
    | Reset

  predicate Sane(e: Event) {
    e.Offence? ==> e.policy.Valid()
  }

  function React(s: Standing, e: Event): (Standing, Effect)
    requires Sane(e)
  {
    match e
    case Offence(points, allowlisted, clock, epoch, p) => Offend(s, points, allowlisted, clock, epoch, p)
    case Poll(now, p) => (Decay(s, now, p), Effect(false, 0))
    case Unban => (s.(bannedUntil := 0, bannedUntilEpoch := 0), Effect(false, 0))
    case Reset => (s.(score := 0, offenses := 0, banLevel := 0, bannedUntil := 0, bannedUntilEpoch := 0),
        Effect(false, 0))
  }

  ghost predicate AllSane(es: seq<Event>) {
    forall i :: 0 <= i < |es| ==> Sane(es[i])
  }

  ghost function After(es: seq<Event>): Standing
    requires AllSane(es)
  {
    if es == [] then CLEAN else React(After(es[..|es| - 1]), es[|es| - 1]).0
  }

  /** The progressive bans since the record was created or last reset. */
  ghost function Climbed(es: seq<Event>): Ladder
    requires AllSane(es)
  {
    if es == [] then GROUND
    else
      var before, e := es[..|es| - 1], es[|es| - 1];
      if e.Reset? then GROUND
      else if e.Offence? then Climb(Climbed(before), React(After(before), e).1, e.policy)
      else Climbed(before)
  }

  lemma {:induction false} RunClimbs(es: seq<Event>)
    requires AllSane(es)
    ensures OnLadder(Climbed(es), After(es).banLevel)
  {
    if es != [] {
      hide OnLadder, Offend, Climb, Decay;
      GroundLevel();
      var before, e := es[..|es| - 1], es[|es| - 1];
      RunClimbs(before);
      match e
      case Offence(points, allowlisted, clock, epoch, p) =>
        OffendClimbs(Climbed(before), After(before), points, allowlisted, clock, epoch, p);
      case Poll(now, p) => DecayKeepsBans(After(before), now, p);
      case Unban =>
      case Reset =>
    }
  }

  lemma GroundLevel()
    ensures OnLadder(GROUND, 0)
  {
  }

  /** The offence is charged: the firewall is adaptive, it costs points and the client is not allowlisted. */
  predicate Counts(e: Event) {
    e.Offence? && e.policy.adaptive && e.points > 0 && !e.allowlisted
  }

  /** In every run from a clean record the score is at least 0, and below the ban threshold in force after
      every offence that counts. */
  lemma {:induction false} RunScores(es: seq<Event>)
    requires AllSane(es)
    ensures After(es).score >= 0
    ensures es != [] && Counts(es[|es| - 1]) ==> After(es).score < es[|es| - 1].policy.ban
  {
    if es != [] {
      hide Offend, Decay;
      var before, e := es[..|es| - 1], es[|es| - 1];
      RunScores(before);
      match e
      case Offence(points, allowlisted, clock, epoch, p) =>
        OffenceBounds(After(before), points, allowlisted, clock, epoch, p);
      case Poll(now, p) => DecayBounds(After(before), now, p);
      case Unban =>
      case Reset =>
    }
  }

  /** In every run with one schedule, whatever else changes: the n-th ban since the record was created or
      reset lasts the n-th entry, or the last one when the schedule is used up, at least a second. */
  lemma BanLadder(es: seq<Event>, schedule: seq<int>)
    requires AllSane(es) && schedule != [] && forall i :: (0 <= i < |es| && es[i].Offence?
        ==> es[i].policy.schedule == schedule)
    ensures forall n :: 0 <= n < |Climbed(es).bans| ==> Climbed(es).bans[n].seconds == BanSeconds(n, schedule)
  {
    hide OnLadder, BanSeconds;
    RunClimbs(es);
    OneSchedule(es, schedule);
    LadderExact(Climbed(es), After(es).banLevel, schedule);
  }

  lemma {:induction false} OneSchedule(es: seq<Event>, schedule: seq<int>)
    requires AllSane(es) && forall i :: 0 <= i < |es| && es[i].Offence? ==> es[i].policy.schedule == schedule
    ensures Climbed(es).start == 0 && forall n :: (0 <= n < |Climbed(es).bans|
        ==> Climbed(es).bans[n].schedule == schedule)
  {
    if es != [] {
      hide React, Offend;
      OneSchedule(es[..|es| - 1], schedule);
    }
  }
}
