/** How evenly round robin spreads sessions. The turn counter of `choose_backend` (gateway/gateway.cpp)
    also advances for pings, so what matters is at which turns the sessions fall. */
module RoundRobin {
  import opened Text
  import opened Routing

  /** The turns at which sessions are placed, in a series of calls (true for a session, false for a ping). */
  function SessionTurns(calls: seq<bool>, turn: nat): seq<nat> {
    if calls == [] then [] else (if calls[0] then [turn] else []) + SessionTurns(calls[1..], turn + 1)
  }

  function Picks(a: seq<nat>, turns: seq<nat>): seq<nat>
    requires a != []
  {
    seq(|turns|, i requires 0 <= i < |turns| => PickAfter(a, turns[i], 0))
  }

  /** The backends a series of calls gives to its sessions, while the available backends stay the same. */
  method PlaceSessions(cs: seq<Candidate>, checked: bool, primary: string, calls: seq<bool>, turn: nat)
                       returns (placed: seq<nat>)
    requires Available(cs, checked, |cs|) != []
    ensures placed == Picks(Available(cs, checked, |cs|), SessionTurns(calls, turn))
  {
    hide Available, Chosen;
    ghost var a := Available(cs, checked, |cs|);
    SomeUp(cs, checked);
    placed := [];
    var i, now := 0, turn;
    while i < |calls|
      invariant 0 <= i <= |calls| && now == turn + i
      invariant placed + Picks(a, SessionTurns(calls[i..], now)) == Picks(a, SessionTurns(calls, turn))
    {
      var r, next := ChooseBackend(cs, checked, primary, RoundRobin, now, calls[i]);
      ChosenInTurn(cs, checked, primary, now, calls[i], r);
      assert calls[i..][1..] == calls[i + 1..];
      PicksCons(a, now, SessionTurns(calls[i + 1..], now + 1));
      if calls[i] {
        placed := placed + [r.value];
      }
      i, now := i + 1, next;
    }
  }

  lemma SomeUp(cs: seq<Candidate>, checked: bool)
    requires Available(cs, checked, |cs|) != []
    ensures exists i: nat :: Up(cs, checked, i)
  {
    AvailableExact(cs, checked, |cs|);
    assert Available(cs, checked, |cs|)[0] in Available(cs, checked, |cs|);
  }

  lemma ChosenInTurn(cs: seq<Candidate>, checked: bool, primary: string, turn: nat, forSession: bool, r: Option<nat>)
    requires Chosen(cs, checked, primary, RoundRobin, turn, forSession, r) && Available(cs, checked, |cs|) != []
    ensures r == Some(PickAfter(Available(cs, checked, |cs|), turn, 0))
  {
    hide Available;
    SomeUp(cs, checked);
  }

  lemma PicksCons(a: seq<nat>, t: nat, rest: seq<nat>)
    requires a != []
    ensures Picks(a, [t] + rest) == [PickAfter(a, t, 0)] + Picks(a, rest)
    ensures Picks(a, [] + rest) == Picks(a, rest)
  {
    assert [] + rest == rest;
  }

  // ---- when a round is fair ----------------------------------------------

  /** `b` is taken by session `i` and by no other. */
  ghost predicate OnlyAt(picks: seq<nat>, b: nat, i: nat) {
    i < |picks| && picks[i] == b && forall j: nat :: j < |picks| && picks[j] == b ==> j == i
  }

  ghost predicate EachOnce(a: seq<nat>, picks: seq<nat>) {
    forall b :: b in a ==> exists i: nat :: OnlyAt(picks, b, i)
  }

  /** No two turns fall on the same place of a round of `n`. */
  ghost predicate Incongruent(turns: seq<nat>, n: nat)
    requires n > 0
  {
    forall i, j :: 0 <= i < j < |turns| ==> turns[i] % n != turns[j] % n
  }

  ghost function SetOf(q: seq<nat>): set<nat> {
    set x | x in q
  }

  ghost function Below(n: nat): set<nat> {
    if n == 0 then {} else Below(n - 1) + {n - 1}
  }

  lemma {:induction false} DistinctCount(q: seq<nat>)
    requires forall i, j :: 0 <= i < j < |q| ==> q[i] != q[j]
    ensures |SetOf(q)| == |q|
  {
    if q != [] {
      var n := |q| - 1;
      DistinctCount(q[..n]);
      assert q == q[..n] + [q[n]];
      assert SetOf(q) == SetOf(q[..n]) + {q[n]};
    }
  }

  lemma {:induction false} BelowCount(n: nat)
    ensures |Below(n)| == n && forall x: nat :: x in Below(n) <==> x < n
  {
    if n > 0 {
      BelowCount(n - 1);
    }
  }

  lemma FullSubset(x: set<nat>, y: set<nat>)
    requires x <= y && |x| == |y|
    ensures x == y
  {
    assert y == x + (y - x) && |y - x| == |y| - |x|;
  }

  /** Distinct places, as many as there are, fill the round. */
  lemma AllPlaces(q: seq<nat>, n: nat, k: nat)
    requires |q| == n && k < n && (forall i :: 0 <= i < n ==> q[i] < n)
    requires forall i, j :: 0 <= i < j < n ==> q[i] != q[j]
    ensures k in q
  {
    DistinctCount(q);
    BelowCount(n);
    FullSubset(SetOf(q), Below(n));
    assert k in SetOf(q);
  }

  /** As many sessions as there are available backends take each of them exactly once if and only if no
      two of their turns are congruent. */
  lemma FairExactly(a: seq<nat>, turns: seq<nat>)
    requires Ascending(a) && a != [] && |turns| == |a|
    ensures EachOnce(a, Picks(a, turns)) <==> Incongruent(turns, |a|)
  {
    var n, picks := |a|, Picks(a, turns);
    if Incongruent(turns, n) {
      forall b | b in a ensures exists i: nat :: OnlyAt(picks, b, i) {
        var k :| 0 <= k < n && a[k] == b;
        var q := seq(n, i requires 0 <= i < n => turns[i] % n);
        AllPlaces(q, n, k);
        var i :| 0 <= i < n && q[i] == k;
        assert forall j, l :: 0 <= j < l < n ==> q[j] != q[l];
        assert forall j: nat :: j < n && picks[j] == b ==> q[j] == k;
        assert OnlyAt(picks, b, i);
      }
    } else {
      var i, j :| 0 <= i < j < n && turns[i] % n == turns[j] % n;
      var b := a[turns[i] % n];
      assert picks[i] == b && picks[j] == b;
      assert forall k: nat :: !OnlyAt(picks, b, k);
      assert b in a;
    }
  }

  // ---- a fixed number of pings before every session ----------------------

  function Repeated(g: nat, k: nat): seq<bool> {
    if k == 0 then [] else Pings(g) + [true] + Repeated(g, k - 1)
  }

  function Pings(g: nat): seq<bool> {
    seq(g, _ => false)
  }

  function Spaced(t: nat, step: nat, k: nat): seq<nat> {
    seq(k, i requires 0 <= i < k => t + i * step)
  }

  lemma {:induction false} TurnsAfterPings(g: nat, rest: seq<bool>, turn: nat)
    ensures SessionTurns(Pings(g) + rest, turn) == SessionTurns(rest, turn + g)
  {
    if g == 0 {
      assert Pings(g) + rest == rest;
    } else {
      assert (Pings(g) + rest)[1..] == Pings(g - 1) + rest;
      TurnsAfterPings(g - 1, rest, turn + 1);
    }
  }

  lemma {:induction false} TurnsRepeated(g: nat, k: nat, turn: nat)
    ensures SessionTurns(Repeated(g, k), turn) == Spaced(turn + g, g + 1, k)
  {
    if k > 0 {
      var tail := [true] + Repeated(g, k - 1);
      assert Repeated(g, k) == Pings(g) + tail;
      TurnsAfterPings(g, tail, turn);
      assert tail[1..] == Repeated(g, k - 1);
      TurnsRepeated(g, k - 1, turn + g + 1);
      var all, rest := Spaced(turn + g, g + 1, k), Spaced(turn + g + 1 + g, g + 1, k - 1);
      forall i | 1 <= i < k ensures all[i] == rest[i - 1] {
        assert i * (g + 1) == (i - 1) * (g + 1) + (g + 1);
      }
      assert all == [turn + g] + rest;
    }
  }

  function Gcd(a: nat, b: nat): nat
    decreases b
  {
    if b == 0 then a else Gcd(b, a % b)
  }

  /** The greatest common divisor as a combination. */
  lemma {:induction false} Bezout(a: nat, b: nat) returns (x: int, y: int)
    ensures x * a + y * b == Gcd(a, b)
    decreases b
  {
    if b == 0 {
      x, y := 1, 0;
    } else {
      var u, v := Bezout(b, a % b);
      x, y := v, u - v * (a / b);
      Regroup(u, v, a / b, b, a % b);
    }
  }

  lemma Regroup(u: int, v: int, q: int, b: int, r: int)
    ensures v * (q * b + r) + (u - v * q) * b == u * b + v * r
  {
    assert v * (q * b + r) == v * (q * b) + v * r;
    assert v * (q * b) == (v * q) * b;
    assert (u - v * q) * b == u * b - (v * q) * b;
  }

  predicate Multiple(x: nat, d: nat, k: nat) {
    x == d * k
  }

  lemma {:induction false} GcdDivides(a: nat, b: nat) returns (p: nat, q: nat)
    requires a > 0
    ensures Gcd(a, b) > 0 && Multiple(a, Gcd(a, b), p) && Multiple(b, Gcd(a, b), q)
    decreases b
  {
    hide Multiple;
    if b == 0 {
      p, q := 1, 0;
      Trivial(a);
    } else {
      var u, v := GcdDivides(b, a % b);
      p := Gather(Gcd(a, b), a, b, u, v);
      q := u;
    }
  }

  lemma Trivial(a: nat)
    ensures Multiple(a, a, 1) && Multiple(0, a, 0)
  {
  }

  lemma Gather(g: nat, a: nat, b: nat, u: nat, v: nat) returns (p: nat)
    requires b > 0 && Multiple(b, g, u) && Multiple(a % b, g, v)
    ensures Multiple(a, g, p)
  {
    var c := a / b;
    p := c * u + v;
    assert a == c * b + a % b;
    assert c * (g * u) == g * (c * u);
    assert g * (c * u + v) == g * (c * u) + g * v;
  }

  lemma SameRest(x: nat, y: nat, n: nat, m: nat)
    requires n > 0 && y == x + m * n
    ensures x % n == y % n
  {
    assert y == (x / n + m) * n + x % n by { assert (x / n + m) * n == x / n * n + m * n; }
    UniqueRemainder(y, n, x / n + m, x % n);
  }

  /** Equal remainders mean a difference that is a multiple. */
  lemma RestDifference(x: nat, y: nat, n: nat) returns (m: nat)
    requires n > 0 && x <= y && x % n == y % n
    ensures y - x == m * n
  {
    assert x / n <= y / n;
    m := y / n - x / n;
    assert m * n == y / n * n - x / n * n;
  }

  /** If `k` steps of a size prime to `n` make a multiple of `n`, then `k` is a multiple of `n`. */
  lemma PrimeStep(k: nat, step: nat, n: nat, m: nat) returns (c: int)
    requires Gcd(step, n) == 1 && k * step == m * n
    ensures k == c * n
  {
    hide Gcd;
    var x, y := Bezout(step, n);
    c := x * m + k * y;
    assert k == k * (x * step + y * n) == x * (k * step) + (k * y) * n == (x * m) * n + (k * y) * n == c * n by {
      assert k * (x * step + y * n) == k * (x * step) + k * (y * n);
      assert k * (x * step) == x * (k * step) && k * (y * n) == (k * y) * n;
      assert x * (m * n) == (x * m) * n;
      assert c * n == (x * m) * n + (k * y) * n;
    }
  }

  lemma PositiveMultiple(k: nat, n: nat, c: int)
    requires k > 0 && n > 0 && k == c * n
    ensures k >= n
  {
    assert c <= 0 ==> c * n <= 0;
    assert c * n == (c - 1) * n + n;
    assert (c - 1) * n >= 0;
  }

  lemma Apart(t: nat, step: nat, n: nat, i: nat, j: nat)
    requires n > 0 && Gcd(step, n) == 1 && i < j < n
    ensures (t + i * step) % n != (t + j * step) % n
  {
    hide Gcd;
    assert j * step == i * step + (j - i) * step && (j - i) * step >= 0;
    if (t + i * step) % n == (t + j * step) % n {
      var m := RestDifference(t + i * step, t + j * step, n);
      var c := PrimeStep(j - i, step, n, m);
      PositiveMultiple(j - i, n, c);
    }
  }

  /** With a common divisor two of the turns coincide. */
  lemma Coincide(t: nat, step: nat, n: nat) returns (j: nat)
    requires n > 0 && step > 0 && Gcd(step, n) != 1
    ensures 0 < j < n && t % n == (t + j * step) % n
  {
    hide Gcd;
    var p, q := GcdDivides(step, n);
    var g := Gcd(step, n);
    Quotient(n, g, q);
    j := q;
    assert q * step == p * n by { assert q * (g * p) == p * (g * q); }
    SameRest(t, t + j * step, n, p);
  }

  lemma Quotient(n: nat, g: nat, q: nat)
    requires n > 0 && g > 1 && n == g * q
    ensures 0 < q < n
  {
    assert g * q == q + (g - 1) * q;
    assert q != 0;
    assert (g - 1) * q >= q by { assert (g - 1) * q == q + (g - 2) * q && (g - 2) * q >= 0; }
  }

  lemma SpacedExactly(t: nat, step: nat, n: nat)
    requires n > 0 && step > 0
    ensures Incongruent(Spaced(t, step, n), n) <==> Gcd(step, n) == 1
  {
    hide Gcd;
    var turns := Spaced(t, step, n);
    if Gcd(step, n) == 1 {
      forall i, j | 0 <= i < j < n ensures turns[i] % n != turns[j] % n {
        Apart(t, step, n, i, j);
      }
    } else {
      var j := Coincide(t, step, n);
      assert turns[0] == t && turns[j] == t + j * step;
    }
  }

  /** With `g` pings before every session, a round of sessions takes each available backend exactly once
      if and only if `g + 1` and the number of backends have no common divisor. */
  lemma PingsExactly(a: seq<nat>, g: nat, turn: nat)
    requires Ascending(a) && a != []
    ensures EachOnce(a, Picks(a, SessionTurns(Repeated(g, |a|), turn))) <==> Gcd(g + 1, |a|) == 1
  {
    hide EachOnce, Incongruent, Picks, Spaced, Repeated, SessionTurns, Gcd;
    TurnsRepeated(g, |a|, turn);
    SpacedLength(turn + g, g + 1, |a|);
    FairExactly(a, Spaced(turn + g, g + 1, |a|));
    SpacedExactly(turn + g, g + 1, |a|);
  }

  lemma SpacedLength(t: nat, step: nat, k: nat)
    ensures |Spaced(t, step, k)| == k
  {
  }

  /** One ping before every session, two backends: every session goes to the same one. */
  lemma PingsSkew(a: seq<nat>, turn: nat, k: nat)
    requires |a| == 2
    ensures var picks := Picks(a, SessionTurns(Repeated(1, k), turn));
            |picks| == k && forall i :: 0 <= i < k ==> picks[i] == a[(turn + 1) % 2]
  {
    hide SessionTurns, Repeated;
    TurnsRepeated(1, k, turn);
    var turns := Spaced(turn + 1, 2, k);
    forall i | 0 <= i < k ensures PickAfter(a, turns[i], 0) == a[(turn + 1) % 2] {
      SameRest(turn + 1, turns[i], 2, i);
    }
  }
}
