/** Which backend a new session goes to: `choose_backend` in gateway/gateway.cpp. */
module Routing {
  import opened Text

  /** What routing looks at in a backend. */
  datatype Candidate = Candidate(name: string, fallback: bool, enabled: bool, healthy: bool, sessions: nat)

  /** `Other` is a mode name the configuration file may hold but the gateway does not know. */
  datatype Mode = Primary | Failover | RoundRobin | LeastSessions | Other

  /** Enabled, and healthy if health is checked. */
  predicate Up(cs: seq<Candidate>, checked: bool, i: nat) {
    i < |cs| && cs[i].enabled && (!checked || cs[i].healthy)
  }

  /** Indices of the available backends, in order. */
  function Available(cs: seq<Candidate>, checked: bool, n: nat): seq<nat>
    requires n <= |cs|
  {
    if n == 0 then [] else Available(cs, checked, n - 1) + if Up(cs, checked, n - 1) then [n - 1] else []
  }

  ghost predicate Ascending(q: seq<nat>) {
    forall i, j :: 0 <= i < j < |q| ==> q[i] < q[j]
  }

  lemma {:induction false} AvailableExact(cs: seq<Candidate>, checked: bool, n: nat)
    requires n <= |cs|
    ensures forall i: nat :: i in Available(cs, checked, n) <==> i < n && Up(cs, checked, i)
    ensures Ascending(Available(cs, checked, n))
  {
    if n > 0 {
      AvailableExact(cs, checked, n - 1);
      var q := Available(cs, checked, n - 1);
      assert forall k :: 0 <= k < |q| ==> q[k] in q;
    }
  }

  /** The last backend carrying the primary name. */
  function PrimaryIndex(cs: seq<Candidate>, primary: string, n: nat): (r: Option<nat>)
    requires n <= |cs|
    ensures r.Some? ==> r.value < n && cs[r.value].name == primary
    ensures r.None? ==> forall i :: 0 <= i < n ==> cs[i].name != primary
  {
    if n == 0 then None
    else if cs[n - 1].name == primary then Some(n - 1)
    else PrimaryIndex(cs, primary, n - 1)
  }

  ghost predicate PrimaryUp(cs: seq<Candidate>, checked: bool, primary: string) {
    var p := PrimaryIndex(cs, primary, |cs|);
    p.Some? && Up(cs, checked, p.value)
  }

  ghost predicate FirstUp(cs: seq<Candidate>, checked: bool, r: nat) {
    Up(cs, checked, r) && forall i: nat :: Up(cs, checked, i) ==> r <= i
  }

  /** What each mode promises about its choice. */
  ghost predicate Chosen(cs: seq<Candidate>, checked: bool, primary: string, mode: Mode, turn: nat,
                         forSession: bool, r: Option<nat>) {
    var p := PrimaryIndex(cs, primary, |cs|);
    if forall i: nat :: !Up(cs, checked, i) then r.None?
    else match mode
      case Primary => r == if PrimaryUp(cs, checked, primary) then p else None
      case Failover =>
        if PrimaryUp(cs, checked, primary) then r == p else r.Some? && Substitute(cs, checked, r.value)
      case RoundRobin =>
        var a := Available(cs, checked, |cs|);
        |a| > 0 && r == Some(a[turn % |a|])
      case LeastSessions => r.Some? && LeastLoaded(cs, checked, r.value)
      case Other =>
        if forSession && PrimaryUp(cs, checked, primary) then r == p else r.Some? && FirstUp(cs, checked, r.value)
  }

  /** The first available fallback, or the first available backend when no fallback is available. */
  ghost predicate Substitute(cs: seq<Candidate>, checked: bool, r: nat) {
    if exists i: nat :: Up(cs, checked, i) && cs[i].fallback then
      Up(cs, checked, r) && cs[r].fallback && forall i: nat :: Up(cs, checked, i) && cs[i].fallback ==> r <= i
    else FirstUp(cs, checked, r)
  }

  /** The first available backend with the fewest sessions. */
  ghost predicate LeastLoaded(cs: seq<Candidate>, checked: bool, r: nat) {
    && Up(cs, checked, r)
    && forall i: nat :: Up(cs, checked, i) ==>
         cs[r].sessions < cs[i].sessions || (cs[r].sessions == cs[i].sessions && r <= i)
  }

  // ---- the algorithm -----------------------------------------------------

  /** `choose_backend`; the round-robin counter advances only in that mode. */
  method ChooseBackend(cs: seq<Candidate>, checked: bool, primary: string, mode: Mode, turn: nat, forSession: bool)
    returns (r: Option<nat>, next: nat)
    ensures Chosen(cs, checked, primary, mode, turn, forSession, r)
    ensures next == if mode == RoundRobin && (exists i: nat :: Up(cs, checked, i)) then turn + 1 else turn
  {
    hide Available, Ascending;
    next := turn;
    var available, p := Survey(cs, checked, primary);
    AvailableExact(cs, checked, |cs|);
    if |available| == 0 {
      return None, turn;
    }
    assert available[0] in available;
    FirstIsFirst(cs, checked, available);
    var primaryUp := p.Some? && p.value in available;
    match mode
    case Primary =>
      r := if primaryUp then p else None;
    case Failover =>
      if primaryUp {
        r := p;
      } else {
        var k := FirstFallback(cs, checked, available);
        r := Some(k);
      }
    case RoundRobin =>
      r, next := Some(available[turn % |available|]), turn + 1;
    case LeastSessions =>
      var k := FewestSessions(cs, checked, available);
      r := Some(k);
    case Other =>
      r := if forSession && primaryUp then p else Some(available[0]);
  }

  method Survey(cs: seq<Candidate>, checked: bool, primary: string) returns (available: seq<nat>, p: Option<nat>)
    ensures available == Available(cs, checked, |cs|) && p == PrimaryIndex(cs, primary, |cs|)
  {
    available, p := [], None;
    var i := 0;
    while i < |cs|
      invariant 0 <= i <= |cs|
      invariant available == Available(cs, checked, i) && p == PrimaryIndex(cs, primary, i)
    {
      if cs[i].name == primary {
        p := Some(i);
      }
      if cs[i].enabled && (!checked || cs[i].healthy) {
        available := available + [i];
      }
      i := i + 1;
    }
  }

  ghost predicate Lists(cs: seq<Candidate>, checked: bool, available: seq<nat>) {
    (forall i: nat :: i in available <==> Up(cs, checked, i)) && Ascending(available)
  }

  lemma FirstIsFirst(cs: seq<Candidate>, checked: bool, available: seq<nat>)
    requires Lists(cs, checked, available) && available != []
    ensures FirstUp(cs, checked, available[0])
  {
    forall i: nat | Up(cs, checked, i) ensures available[0] <= i {
      var k :| 0 <= k < |available| && available[k] == i;
    }
  }

  method FirstFallback(cs: seq<Candidate>, checked: bool, available: seq<nat>) returns (r: nat)
    requires Lists(cs, checked, available) && available != []
    ensures Substitute(cs, checked, r)
  {
    var k := 0;
    while k < |available|
      invariant 0 <= k <= |available|
      invariant forall l :: 0 <= l < |available| ==> available[l] in available
      invariant forall l :: 0 <= l < k ==> !cs[available[l]].fallback
    {
      assert available[k] in available;
      if cs[available[k]].fallback {
        forall i: nat | Up(cs, checked, i) && cs[i].fallback ensures available[k] <= i {
          var l :| 0 <= l < |available| && available[l] == i;
        }
        return available[k];
      }
      k := k + 1;
    }
    forall i: nat | Up(cs, checked, i) ensures !cs[i].fallback {
      var l :| 0 <= l < |available| && available[l] == i;
    }
    FirstIsFirst(cs, checked, available);
    return available[0];
  }

  /** `std::min_element` by session count. */
  method FewestSessions(cs: seq<Candidate>, checked: bool, available: seq<nat>) returns (r: nat)
    requires Lists(cs, checked, available) && available != []
    ensures LeastLoaded(cs, checked, r)
  {
    r := available[0];
    assert r in available;
    var k := 1;
    while k < |available|
      invariant 1 <= k <= |available| && Up(cs, checked, r) && r <= available[k - 1]
      invariant forall l :: 0 <= l < k ==> available[l] in available
      invariant forall l :: 0 <= l < k ==>
                  cs[r].sessions < cs[available[l]].sessions
                      || (cs[r].sessions == cs[available[l]].sessions && r <= available[l])
    {
      assert available[k] in available;
      if cs[available[k]].sessions < cs[r].sessions {
        r := available[k];
      }
      k := k + 1;
    }
    forall i: nat | Up(cs, checked, i)
      ensures cs[r].sessions < cs[i].sessions || (cs[r].sessions == cs[i].sessions && r <= i)
    {
      var l :| 0 <= l < |available| && available[l] == i;
    }
  }

  // ---- results -----------------------------------------------------------

  /** Whatever the mode, a chosen backend is enabled, and healthy if health is checked; and one is
      chosen whenever any is available, except that primary mode insists on the primary. */
  lemma ChoiceIsUp(cs: seq<Candidate>, checked: bool, primary: string, mode: Mode, turn: nat, forSession: bool,
                   r: Option<nat>)
    requires Chosen(cs, checked, primary, mode, turn, forSession, r)
    ensures r.Some? ==> Up(cs, checked, r.value)
    ensures mode != Primary ==> (r.Some? <==> exists i: nat :: Up(cs, checked, i))
    ensures mode == Primary ==> (r.Some? <==> PrimaryUp(cs, checked, primary))
  {
    if mode == RoundRobin && exists i: nat :: Up(cs, checked, i) {
      AvailableExact(cs, checked, |cs|);
      var a := Available(cs, checked, |cs|);
      assert a[turn % |a|] in a;
    }
  }

  lemma Gap(a: nat, b: nat, n: nat)
    requires a < b
    ensures b * n >= a * n + n
  {
    assert b * n == a * n + (b - a) * n;
    assert (b - a) * n == n + (b - a - 1) * n;
  }

  lemma UniqueRemainder(x: nat, n: nat, q: nat, r: nat)
    requires n > 0 && x == q * n + r && r < n
    ensures x % n == r
  {
    var q', r' := x / n, x % n;
    assert x == q' * n + r' && r' < n;
    if q' > q {
      Gap(q, q', n);
    } else if q' < q {
      Gap(q', q, n);
    }
  }

  /** Consecutive turns walk round the list. */
  lemma {:induction false} Walk(turn: nat, n: nat, d: nat)
    requires n > 0 && d < n
    ensures var t := turn % n; (turn + d) % n == if t + d < n then t + d else t + d - n
  {
    var q, t := turn / n, turn % n;
    assert turn == q * n + t;
    if t + d < n {
      UniqueRemainder(turn + d, n, q, t + d);
    } else {
      assert (q + 1) * n == q * n + n;
      UniqueRemainder(turn + d, n, q + 1, t + d - n);
    }
  }

  /** The choice `d` turns after `turn`. */
  function PickAfter(a: seq<nat>, turn: nat, d: nat): nat
    requires a != []
  {
    a[(turn + d) % |a|]
  }

  /** While the available backends stay the same, any full round of consecutive round-robin choices
      takes each of them exactly once. */
  lemma RoundRobinIsFair(cs: seq<Candidate>, checked: bool, turn: nat, b: nat)
    requires Up(cs, checked, b)
    ensures var a := Available(cs, checked, |cs|);
            a != [] &&
            exists d: nat :: d < |a| && PickAfter(a, turn, d) == b &&
              forall e: nat :: e < |a| && PickAfter(a, turn, e) == b ==> e == d
  {
    AvailableExact(cs, checked, |cs|);
    var a := Available(cs, checked, |cs|);
    assert b in a;
    var k :| 0 <= k < |a| && a[k] == b;
    TakenOnce(a, turn, k);
  }

  lemma TakenOnce(a: seq<nat>, turn: nat, k: nat)
    requires Ascending(a) && k < |a|
    ensures exists d: nat :: d < |a| && PickAfter(a, turn, d) == a[k] &&
              forall e: nat :: e < |a| && PickAfter(a, turn, e) == a[k] ==> e == d
  {
    var n, t := |a|, turn % |a|;
    var d := if k >= t then k - t else k + n - t;
    Walk(turn, n, d);
    assert PickAfter(a, turn, d) == a[k];
    forall e: nat | e < n && PickAfter(a, turn, e) == a[k] ensures e == d {
      Walk(turn, n, e);
      var l := if t + e < n then t + e else t + e - n;
      assert a[l] == a[k];
      assert l == k;
    }
  }

  /** Loads of the available backends differ by at most `s`. */
  ghost predicate SpreadAtMost(cs: seq<Candidate>, checked: bool, s: nat) {
    forall i: nat, j: nat :: Up(cs, checked, i) && Up(cs, checked, j) ==> cs[i].sessions <= cs[j].sessions + s
  }

  function Opened(cs: seq<Candidate>, r: nat): seq<Candidate>
    requires r < |cs|
  {
    cs[r := cs[r].(sessions := cs[r].sessions + 1)]
  }

  /** Opening a session on the least loaded backend leaves the spread of loads at most the larger of
      1 and what it was. */
  lemma LeastSessionsBalances(cs: seq<Candidate>, checked: bool, r: nat, s: nat)
    requires LeastLoaded(cs, checked, r) && SpreadAtMost(cs, checked, s)
    ensures SpreadAtMost(Opened(cs, r), checked, if s < 1 then 1 else s)
  {
    var after := Opened(cs, r);
    forall i: nat, j: nat | Up(after, checked, i) && Up(after, checked, j)
      ensures after[i].sessions <= after[j].sessions + if s < 1 then 1 else s
    {
      assert Up(cs, checked, i) && Up(cs, checked, j);
    }
  }
}
