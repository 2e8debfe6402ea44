/** The dashboard's replay protection for signed messages: `verifySignedBody` and `acceptReplayKey`
    (dashboard/main.go). A message is fresh for 60 s around its timestamp; accepted signatures are
    remembered for 120 s. The two tests read the clock separately. */
module ReplayGuard {

  const FRESH: int := 60000
  const KEEP: int := 120000

  /** One arrival: `checkedAt` is the clock at the freshness test, `storedAt` the one handed to the
      replay cache; `genuine` says that the header parsed and the signature matched. */
  datatype Delivery = Delivery(signature: string, timestamp: int, checkedAt: int, storedAt: int, genuine: bool)

  datatype Verdict = Unauthorized | Replay | Accepted

  type Cache = map<string, int>

  predicate Passes(d: Delivery) {
    d.genuine && -FRESH <= d.checkedAt - d.timestamp <= FRESH
  }

  function Purge(seen: Cache, now: int): Cache {
    map k | k in seen && now - seen[k] <= KEEP :: seen[k]
  }

  function Judge(seen: Cache, d: Delivery): Verdict {
    if !Passes(d) then Unauthorized
    else if d.signature in Purge(seen, d.storedAt) then Replay
    else Accepted
  }

  function Next(seen: Cache, d: Delivery): Cache {
    match Judge(seen, d)
    case Unauthorized => seen
    case Replay => Purge(seen, d.storedAt)
    case Accepted => Purge(seen, d.storedAt)[d.signature := d.storedAt]
  }

  /** The guard as the dashboard object keeps it. */
  class Guard {
    var replaySeen: Cache

    constructor ()
      ensures replaySeen == map[]
    {
      replaySeen := map[];
    }

    /** `acceptReplayKey`: drop old entries while walking the map, then test and insert. */
    method AcceptReplayKey(signature: string, now: int) returns (ok: bool)
      modifies this
      ensures ok <==> signature !in Purge(old(replaySeen), now)
      ensures replaySeen == if ok then Purge(old(replaySeen), now)[signature := now] else Purge(old(replaySeen), now)
    {
      var todo := replaySeen.Keys;
      while todo != {}
        invariant todo <= replaySeen.Keys <= old(replaySeen).Keys
        invariant forall k :: (k in old(replaySeen) && k !in todo
            ==> (k in replaySeen <==> now - old(replaySeen)[k] <= KEEP))
        invariant forall k :: k in replaySeen ==> replaySeen[k] == old(replaySeen)[k]
        decreases |todo|
      {
        var k :| k in todo;
        if now - replaySeen[k] > KEEP {
          replaySeen := replaySeen - {k};
        }
        todo := todo - {k};
      }
      assert replaySeen == Purge(old(replaySeen), now);
      if signature in replaySeen {
        return false;
      }
      replaySeen := replaySeen[signature := now];
      return true;
    }

    /** `verifySignedBody` */
    method VerifySignedBody(d: Delivery) returns (v: Verdict)
      modifies this
      ensures v == Judge(old(replaySeen), d) && replaySeen == Next(old(replaySeen), d)
    {
      if !Passes(d) {
        return Unauthorized;
      }
      var ok := AcceptReplayKey(d.signature, d.storedAt);
      return if ok then Accepted else Replay;
    }
  }

  // ---- whole runs --------------------------------------------------------

  /** The cache after the first `n` deliveries of a run. */
  function CacheAt(ds: seq<Delivery>, n: nat): Cache
    requires n <= |ds|
  {
    if n == 0 then map[] else Next(CacheAt(ds, n - 1), ds[n - 1])
  }

  predicate AcceptedAt(ds: seq<Delivery>, j: nat)
    requires j < |ds|
  {
    Judge(CacheAt(ds, j), ds[j]) == Accepted
  }

  /** No later purge up to `n` was more than 120 s after delivery `i` was stored. */
  ghost predicate Kept(ds: seq<Delivery>, i: nat, n: nat)
    requires i < n <= |ds|
  {
    forall k :: i < k < n && Passes(ds[k]) ==> ds[k].storedAt - ds[i].storedAt <= KEEP
  }

  ghost predicate Remembers(ds: seq<Delivery>, n: nat, sig: string, i: nat)
    requires n <= |ds|
  {
    i < n && AcceptedAt(ds, i) && ds[i].signature == sig && Kept(ds, i, n)
  }

  lemma KeptStep(ds: seq<Delivery>, i: nat, n: nat)
    requires i < n - 1 && n <= |ds|
    ensures Kept(ds, i, n) <==> (Kept(ds, i, n - 1) && (Passes(ds[n - 1])
        ==> ds[n - 1].storedAt - ds[i].storedAt <= KEEP))
  {
  }

  /** The cache holds exactly the signatures accepted and not yet purged, with their storing times. */
  lemma {:induction false} CacheExact(ds: seq<Delivery>, n: nat, sig: string)
    requires n <= |ds|
    ensures sig in CacheAt(ds, n) ==> exists i: nat :: Remembers(ds, n, sig, i) && CacheAt(ds, n)[sig] == ds[i].storedAt
    ensures forall i: nat :: Remembers(ds, n, sig, i) ==> sig in CacheAt(ds, n) && CacheAt(ds, n)[sig] == ds[i].storedAt
    decreases n
  {
    if n > 0 {
      var d, before := ds[n - 1], CacheAt(ds, n - 1);
      CacheExact(ds, n - 1, sig);
      if sig in CacheAt(ds, n) {
        if AcceptedAt(ds, n - 1) && d.signature == sig {
          assert Remembers(ds, n, sig, n - 1);
        } else {
          var i: nat :| Remembers(ds, n - 1, sig, i) && before[sig] == ds[i].storedAt;
          KeptStep(ds, i, n);
          assert Remembers(ds, n, sig, i);
        }
      }
      forall i: nat | Remembers(ds, n, sig, i) ensures sig in CacheAt(ds, n) && CacheAt(ds, n)[sig] == ds[i].storedAt {
        if i < n - 1 {
          KeptStep(ds, i, n);
          assert Remembers(ds, n - 1, sig, i);
        }
      }
    }
  }

  /** A fresh, genuine delivery is accepted exactly when no earlier acceptance of its signature is
      still remembered at its own storing time: this holds for every run and any clock readings. */
  lemma AcceptedExactly(ds: seq<Delivery>, j: nat)
    requires j < |ds|
    ensures AcceptedAt(ds, j) <==>
            Passes(ds[j]) && !exists i: nat :: (Remembers(ds, j, ds[j].signature, i)
                && ds[j].storedAt - ds[i].storedAt <= KEEP)
  {
    var sig := ds[j].signature;
    CacheExact(ds, j, sig);
    if sig in Purge(CacheAt(ds, j), ds[j].storedAt) {
      var i: nat :| Remembers(ds, j, sig, i) && CacheAt(ds, j)[sig] == ds[i].storedAt;
      assert ds[j].storedAt - ds[i].storedAt <= KEEP;
    }
  }

  // ---- a second acceptance -----------------------------------------------

  /** Delivery `i` is the last acceptance of its signature before `j`. */
  ghost predicate LastBefore(ds: seq<Delivery>, i: nat, j: nat) {
    && i < j < |ds| && ds[i].signature == ds[j].signature && AcceptedAt(ds, i)
    && forall k :: i < k < j && ds[k].signature == ds[j].signature ==> !AcceptedAt(ds, k)
  }

  /** Delivery `k` passes the tests and its clock purges what was stored by delivery `i`. */
  ghost predicate Purges(ds: seq<Delivery>, i: nat, k: nat) {
    i < k < |ds| && Passes(ds[k]) && ds[k].storedAt - ds[i].storedAt > KEEP
  }

  lemma NotKept(ds: seq<Delivery>, i: nat, n: nat)
    requires i < n <= |ds|
    ensures Kept(ds, i, n) <==> !exists k: nat :: k < n && Purges(ds, i, k)
  {
    if !Kept(ds, i, n) {
      var k :| i < k < n && Passes(ds[k]) && ds[k].storedAt - ds[i].storedAt > KEEP;
      assert Purges(ds, i, k);
    }
  }

  /** Only the last acceptance of a signature can still be remembered. */
  lemma OnlyLast(ds: seq<Delivery>, i: nat, j: nat, e: nat)
    requires LastBefore(ds, i, j) && Remembers(ds, j, ds[j].signature, e)
    ensures e == i
  {
    if e < i {
      assert Kept(ds, e, i) && ds[i].storedAt - ds[e].storedAt <= KEEP;
      assert Remembers(ds, i, ds[i].signature, e);
      AcceptedExactly(ds, i);
    }
  }

  /** In every run, whatever the clocks and the order of the lock: a repeated message that passes the tests
      is accepted again if and only if a delivery since its last acceptance, itself included, purged it. */
  lemma AcceptedAgainExactly(ds: seq<Delivery>, i: nat, j: nat)
    requires LastBefore(ds, i, j) && Passes(ds[j])
    ensures AcceptedAt(ds, j) <==> exists k: nat :: k <= j && Purges(ds, i, k)
  {
    hide Passes;
    AcceptedExactly(ds, j);
    NotKept(ds, i, j);
    forall e: nat | Remembers(ds, j, ds[j].signature, e) ensures e == i { OnlyLast(ds, i, j, e); }
    assert Remembers(ds, j, ds[j].signature, i) <==> Kept(ds, i, j);
    assert Purges(ds, i, j) <==> ds[j].storedAt - ds[i].storedAt > KEEP;
  }

  ghost predicate AcceptedTwice(ds: seq<Delivery>, i: nat, j: nat) {
    i < j < |ds| && ds[i].signature == ds[j].signature && AcceptedAt(ds, i) && AcceptedAt(ds, j)
  }

  /** The first delivery of its signature that passes the tests. */
  ghost predicate First(ds: seq<Delivery>, i: nat) {
    && i < |ds| && Passes(ds[i])
    && forall k :: 0 <= k < i && ds[k].signature == ds[i].signature ==> !Passes(ds[k])
  }

  lemma FirstAccepted(ds: seq<Delivery>, i: nat)
    requires First(ds, i)
    ensures AcceptedAt(ds, i)
  {
    AcceptedExactly(ds, i);
    assert forall e: nat :: e < i && AcceptedAt(ds, e) ==> Passes(ds[e]);
  }

  /** The earliest acceptance after `i` of the same signature, up to `j`. */
  lemma {:induction false} NextAcceptance(ds: seq<Delivery>, i: nat, j: nat) returns (n: nat)
    requires AcceptedTwice(ds, i, j)
    ensures i < n <= j && AcceptedTwice(ds, i, n) && LastBefore(ds, i, n)
    decreases j - i
  {
    n := j;
    if !LastBefore(ds, i, j) {
      var k :| i < k < j && ds[k].signature == ds[j].signature && AcceptedAt(ds, k);
      n := NextAcceptance(ds, i, k);
    }
  }

  /** Hence a message gets through twice in a run if and only if, after its first delivery that passes the
      tests, one delivery purges that and the message is delivered again at or after that point. */
  lemma RepeatedExactly(ds: seq<Delivery>, i: nat)
    requires First(ds, i)
    ensures (exists m: nat, n: nat :: AcceptedTwice(ds, m, n) && ds[m].signature == ds[i].signature)
       <==> exists k: nat, j: nat :: k <= j && Purges(ds, i, k) && Again(ds, i, j)
  {
    FirstAccepted(ds, i);
    if m: nat, n: nat :| AcceptedTwice(ds, m, n) && ds[m].signature == ds[i].signature {
      assert Passes(ds[m]) && i <= m;
      assert AcceptedTwice(ds, i, n);
      var j := NextAcceptance(ds, i, n);
      AcceptedAgainExactly(ds, i, j);
      var k: nat :| k <= j && Purges(ds, i, k);
      assert Again(ds, i, j);
    }
    if k: nat, j: nat :| k <= j && Purges(ds, i, k) && Again(ds, i, j) {
      if LastBefore(ds, i, j) {
        AcceptedAgainExactly(ds, i, j);
        assert AcceptedTwice(ds, i, j);
      } else {
        var l :| i < l < j && ds[l].signature == ds[j].signature && AcceptedAt(ds, l);
        assert AcceptedTwice(ds, i, l);
      }
    }
  }

  /** The message of delivery `i` passes the tests again at `j`. */
  ghost predicate Again(ds: seq<Delivery>, i: nat, j: nat) {
    i < j < |ds| && Passes(ds[j]) && ds[j].signature == ds[i].signature
  }

  // ---- in terms of delays ------------------------------------------------

  /** A signature covers its timestamp, so equal signatures carry equal timestamps. */
  ghost predicate Binding(ds: seq<Delivery>) {
    forall i, j :: 0 <= i < j < |ds| && ds[i].genuine && ds[j].genuine && ds[i].signature == ds[j].signature ==>
      ds[i].timestamp == ds[j].timestamp
  }

  /** How far apart the two clock readings of a delivery are. */
  function Delay(d: Delivery): int {
    d.storedAt - d.checkedAt
  }

  /** The storing clock is read before the lock is taken, so deliveries may overtake each other; this run
      has them overtaken by at most `c`. */
  ghost predicate Overtaken(ds: seq<Delivery>, c: nat) {
    forall i, j :: 0 <= i < j < |ds| ==> ds[i].storedAt - ds[j].storedAt <= c
  }

  /** A second acceptance needs the second delivery to have waited longer between its two clock readings
      than the first, up to what other deliveries overtook it by. */
  lemma SecondAcceptance(ds: seq<Delivery>, i: nat, j: nat, c: nat)
    requires Overtaken(ds, c) && Binding(ds) && AcceptedTwice(ds, i, j)
    ensures Delay(ds[i]) < Delay(ds[j]) + c
  {
    var n := NextAcceptance(ds, i, j);
    AcceptedAgainExactly(ds, i, n);
    var k: nat :| k <= n && Purges(ds, i, k);
    assert ds[k].storedAt - ds[j].storedAt <= c;
    assert ds[i].timestamp == ds[j].timestamp;
  }

  /** Storing times follow the order in which the lock is taken. The code does not ensure it. */
  ghost predicate InLockOrder(ds: seq<Delivery>) {
    Overtaken(ds, 0)
  }

  /** If deliveries take the lock in the order of their clocks and read one clock each, no message is ever
      accepted twice, in any run, although the cache forgets every entry after 120 s. */
  lemma AtMostOnce(ds: seq<Delivery>, i: nat, j: nat)
    requires InLockOrder(ds) && Binding(ds) && i < j < |ds| && ds[i].signature == ds[j].signature
    requires forall k :: 0 <= k < |ds| ==> Delay(ds[k]) == 0
    ensures !(AcceptedAt(ds, i) && AcceptedAt(ds, j))
  {
    if AcceptedAt(ds, i) && AcceptedAt(ds, j) {
      SecondAcceptance(ds, i, j, 0);
    }
  }

  /** The same message at the first and at the last moment it is fresh, with delays `a` and `b`, and in
      between another one that overtook it by `c`. */
  function EdgeRun(sig: string, other: string, t: int, a: nat, b: nat, c: nat): seq<Delivery> {
    var late := t + FRESH + b + c;
    [Delivery(sig, t, t - FRESH, t - FRESH + a, true), Delivery(other, late, late, late, true),
     Delivery(sig, t, t + FRESH, t + FRESH + b, true)]
  }

  /** At the edges of the window a replay gets through whenever `a < b + c`: with the first delivery faster
      than the second by a millisecond, or overtaken by a millisecond. */
  lemma ReplayAtTheEdge(sig: string, other: string, t: int, a: nat, b: nat, c: nat)
    requires a < b + c && sig != other
    ensures var ds := EdgeRun(sig, other, t, a, b, c);
            Overtaken(ds, c) && Binding(ds) && AcceptedTwice(ds, 0, 2) && Delay(ds[0]) == a && Delay(ds[2]) == b
  {
    var ds := EdgeRun(sig, other, t, a, b, c);
    assert CacheAt(ds, 0) == map[];
    assert CacheAt(ds, 1) == map[sig := t - FRESH + a];
    assert Purge(CacheAt(ds, 1), ds[1].storedAt) == map[];
    assert CacheAt(ds, 2) == map[other := t + FRESH + b + c];
  }

  /** The failing run with one clock reading per delivery: the lock is taken out of order. */
  lemma LockOrderReplay(t: int)
    ensures var ds := EdgeRun("s", "other", t, 0, 0, 1);
            (forall k :: 0 <= k < |ds| ==> Delay(ds[k]) == 0) && AcceptedTwice(ds, 0, 2)
  {
    assert "s"[0] != "other"[0];
    ReplayAtTheEdge("s", "other", t, 0, 0, 1);
  }

  /** Some run accepts one message twice, with these delays and overtaking at most `c`. */
  ghost predicate CanRepeat(a: nat, b: nat, c: nat) {
    exists ds: seq<Delivery>, i: nat, j: nat :: RepeatsWith(ds, i, j, a, b, c)
  }

  ghost predicate RepeatsWith(ds: seq<Delivery>, i: nat, j: nat, a: nat, b: nat, c: nat) {
    Overtaken(ds, c) && Binding(ds) && AcceptedTwice(ds, i, j) && Delay(ds[i]) == a && Delay(ds[j]) == b
  }

  /** A message can be accepted twice with delays `a` and `b`, where deliveries are overtaken by at most
      `c`, if and only if `a < b + c`. */
  lemma RepeatExactly(a: nat, b: nat, c: nat)
    ensures CanRepeat(a, b, c) <==> a < b + c
  {
    if ds: seq<Delivery>, i: nat, j: nat :| RepeatsWith(ds, i, j, a, b, c) {
      SecondAcceptance(ds, i, j, c);
    }
    if a < b + c {
      assert "s"[0] != "other"[0];
      ReplayAtTheEdge("s", "other", 0, a, b, c);
      assert RepeatsWith(EdgeRun("s", "other", 0, a, b, c), 0, 2, a, b, c);
    }
  }

  /** A run is the life of one dashboard process: the cache is not saved, so after a restart any message that
      passes the tests is accepted, whatever was accepted before. */
  lemma RestartForgets(before: seq<Delivery>, i: nat)
    requires i < |before| && AcceptedAt(before, i)
    ensures AcceptedAt([before[i]], 0)
  {
    assert CacheAt([before[i]], 0) == map[];
  }
}
