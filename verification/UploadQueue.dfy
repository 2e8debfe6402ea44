/** The companion's bounded upload queue: `enqueue` on the game thread and `upload_loop` on the
    worker (companion/src/plugin.cpp). Each method is one critical section or one atomic update, so
    a run of the two threads is any sequence of calls. */
module UploadQueue {

  /** `positions` shows where each item of `part` sits in `whole`, strictly left to right: `part` is
      `whole` with some items left out, nothing reordered and nothing repeated. */
  ghost predicate Embeds<T>(positions: seq<nat>, part: seq<T>, whole: seq<T>) {
    && |positions| == |part|
    && (forall i :: 0 <= i < |positions| ==> positions[i] < |whole|)
    && (forall i :: 0 <= i < |part| ==> positions[i] < |whole| && part[i] == whole[positions[i]])
    && (forall i, j :: 0 <= i < j < |positions| ==> positions[i] < positions[j])
  }

  lemma EmbedsSnoc<T>(positions: seq<nat>, part: seq<T>, whole: seq<T>, x: T)
    requires Embeds(positions, part, whole)
    ensures Embeds(positions + [|whole|], part + [x], whole + [x])
  {
  }

  /** Leaving out a stretch keeps the order of the rest. */
  lemma EmbedsCut<T>(positions: seq<nat>, a: seq<T>, cut: seq<T>, b: seq<T>, whole: seq<T>)
    requires Embeds(positions, a + cut + b, whole)
    ensures |positions| == |a| + |cut| + |b|
    ensures Embeds(positions[..|a|] + positions[|a| + |cut|..], a + b, whole)
  {
    var p := positions[..|a|] + positions[|a| + |cut|..];
    forall i | 0 <= i < |a + b| ensures p[i] < |whole| && (a + b)[i] == whole[p[i]] {
      var k := if i < |a| then i else i + |cut|;
      assert p[i] == positions[k] && (a + b)[i] == (a + cut + b)[k];
    }
    forall i, j | 0 <= i < j < |p| ensures p[i] < p[j] {
      var k := if i < |a| then i else i + |cut|;
      var l := if j < |a| then j else j + |cut|;
      assert p[i] == positions[k] && p[j] == positions[l];
    }
  }

  lemma Regroup<T>(sent: seq<T>, batch: seq<T>, left: nat, queue: seq<T>)
    requires left <= |batch|
    ensures sent + batch + queue == sent + batch[..left] + (batch[left..] + queue)
  {
    assert batch == batch[..left] + batch[left..];
  }

  class UploadQueue<T> {
    var queue: seq<T>
    var batch: seq<T>
    var dropped: nat
    var uploaded: nat
    var failures: nat
    var running: bool

    ghost var accepted: seq<T>   // every record `enqueue` took, in order
    ghost var sent: seq<T>       // every record in an acknowledged batch, in order
    ghost var positions: seq<nat>
    ghost var rejected: nat      // records `enqueue` refused
    ghost var lost: nat          // accepted records given up later
    ghost var uncounted: nat     // losses the `dropped` counter does not show
    ghost var limit: nat         // the largest capacity in force so far

    ghost predicate Valid()
      reads this
    {
      && Embeds(positions, sent + batch + queue, accepted)
      && |accepted| == |sent| + |batch| + |queue| + lost
      && uploaded == |sent|
      && dropped + uncounted == rejected + lost
      && |queue| <= limit
    }

    constructor ()
      ensures Valid() && accepted == [] && sent == [] && queue == [] && batch == [] && limit == 0
      ensures dropped == 0 && rejected == 0 && lost == 0 && uncounted == 0
    {
      queue, batch, dropped, uploaded, failures, running := [], [], 0, 0, 0, true;
      accepted, sent, positions, rejected, lost, uncounted, limit := [], [], [], 0, 0, 0, 0;
    }

    /** `enqueue`: refuse when the queue is at capacity. */
    method Enqueue(record: T, capacity: nat) returns (ok: bool)
      requires Valid()
      modifies `queue, `dropped, `accepted, `positions, `rejected, `limit
      ensures Valid()
      ensures ok <==> old(|queue|) < capacity
      ensures ok ==> queue == old(queue) + [record] && accepted == old(accepted) + [record]
                     && dropped == old(dropped) && rejected == old(rejected)
      ensures !ok ==> queue == old(queue) && accepted == old(accepted)
                      && dropped == old(dropped) + 1 && rejected == old(rejected) + 1
      ensures limit == Max(old(limit), capacity)
    {
      limit := Max(limit, capacity);
      if |queue| >= capacity {
        dropped, rejected := dropped + 1, rejected + 1;
        return false;
      }
      EmbedsSnoc(positions, sent + batch + queue, accepted, record);
      assert sent + batch + queue + [record] == sent + batch + (queue + [record]);
      queue, positions := queue + [record], positions + [|accepted|];
      accepted := accepted + [record];
      return true;
    }

    /** The worker takes up to `batchSize` records from the front. */
    method TakeBatch(batchSize: nat)
      requires Valid() && batch == []
      modifies `queue, `batch
      ensures Valid() && batch + queue == old(queue)
      ensures |batch| == if batchSize < old(|queue|) then batchSize else old(|queue|)
    {
      var count := if batchSize < |queue| then batchSize else |queue|;
      var i := 0;
      while i < count
        invariant 0 <= i <= count && |batch| == i && batch + queue == old(queue)
        modifies `queue, `batch
      {
        batch := batch + [queue[0]];
        queue := queue[1..];
        i := i + 1;
      }
      assert sent + batch + queue == sent + [] + old(queue);
    }

    /** The dashboard acknowledged the batch. */
    method UploadSucceeded()
      requires Valid()
      modifies `batch, `uploaded, `sent
      ensures Valid() && sent == old(sent + batch) && batch == [] && uploaded == old(uploaded) + old(|batch|)
    {
      uploaded := uploaded + |batch|;
      sent := sent + batch;
      batch := [];
      assert sent + batch + queue == old(sent + batch + queue);
    }

    /** The upload failed: while running, put the batch back in front as far as it fits; during
        shutdown give it up. */
    method UploadFailed(capacity: nat)
      requires Valid()
      modifies `queue, `batch, `dropped, `failures, `positions, `lost, `uncounted, `limit
      ensures Valid() && batch == [] && failures == old(failures) + 1
      ensures limit == Max(old(limit), capacity)
      ensures !running ==> queue == old(queue) && lost == old(lost) + old(|batch|) && uncounted == old(uncounted)
      ensures running ==>
        var n := Surplus(old(|batch|), old(|queue|), capacity);
        && queue == old(batch)[n..] + old(queue) && lost == old(lost) + n
        && dropped == old(dropped) + (if n > 0 then 1 else 0)
        && uncounted == old(uncounted) + (if n > 0 then n - 1 else 0)
    {
      hide Valid;
      if running {
        Requeue(capacity);
      } else {
        GiveUp(capacity);
      }
    }

    method GiveUp(capacity: nat)
      requires Valid()
      modifies `batch, `dropped, `failures, `positions, `lost, `limit
      ensures Valid() && batch == [] && failures == old(failures) + 1
      ensures limit == Max(old(limit), capacity) && lost == old(lost) + old(|batch|)
    {
      hide Embeds;
      failures := failures + 1;
      limit := Max(limit, capacity);
      dropped := dropped + |batch|;
      lost := lost + |batch|;
      assert queue[..0] == batch[|batch|..] && queue[0..] == queue;
      ForgetBatch(|batch|);
    }

    method Requeue(capacity: nat)
      requires Valid()
      modifies `queue, `batch, `dropped, `failures, `positions, `lost, `uncounted, `limit
      ensures Valid() && batch == [] && failures == old(failures) + 1
      ensures limit == Max(old(limit), capacity)
      ensures var n := Surplus(old(|batch|), old(|queue|), capacity);
        && queue == old(batch)[n..] + old(queue) && lost == old(lost) + n
        && dropped == old(dropped) + (if n > 0 then 1 else 0)
        && uncounted == old(uncounted) + (if n > 0 then n - 1 else 0)
    {
      hide Embeds;
      failures := failures + 1;
      limit := Max(limit, capacity);
      ghost var waiting := queue;
      var left := PutBack(capacity);
      if left > 0 {
        dropped := dropped + 1;
        lost, uncounted := lost + left, uncounted + (left - 1);
      }
      assert queue[..|batch| - left] == batch[left..] && queue[|batch| - left..] == waiting;
      ForgetBatch(left);
    }

    /** The first `left` records of the batch are gone, the others are back in the queue. */
    method ForgetBatch(ghost left: nat)
      requires left <= |batch| && |queue| >= |batch| - left
      requires queue[..|batch| - left] == batch[left..]
      requires Embeds(positions, sent + batch + queue[|batch| - left..], accepted)
      modifies `batch, `positions
      ensures batch == [] && Embeds(positions, sent + batch + queue, accepted)
    {
      hide Embeds;
      ghost var waiting := queue[|batch| - left..];
      assert queue == batch[left..] + waiting;
      Regroup(sent, batch, left, waiting);
      EmbedsCut(positions, sent, batch[..left], queue, accepted);
      positions := positions[..|sent|] + positions[|sent| + left..];
      batch := [];
      assert sent + batch + queue == sent + queue;
    }

    /** Push the batch back in front, last record first, until it is empty or the queue is full. */
    method PutBack(capacity: nat) returns (left: nat)
      modifies `queue
      ensures left == Surplus(|batch|, old(|queue|), capacity) && queue == batch[left..] + old(queue)
    {
      left := |batch|;
      while left > 0 && |queue| < capacity
        invariant 0 <= left <= |batch| && queue == batch[left..] + old(queue)
        invariant left < |batch| ==> |queue| <= capacity
      {
        left := left - 1;
        queue := [batch[left]] + queue;
      }
    }

    method Stop()
      requires Valid()
      modifies `running
      ensures Valid() && !running
    {
      running := false;
    }

    /** The first `turns` turns of `upload_loop` after shutdown began, for any batch size: every turn takes
        one batch off the queue and settles it for good. `answers` says which uploads the dashboard
        acknowledges. */
    method Drain(batchSize: nat, capacity: nat, answers: nat -> bool, turns: nat)
      requires Valid() && batch == [] && !running
      modifies this
      ensures Valid() && batch == [] && accepted == old(accepted)
      ensures queue == Rest(old(queue), Taken(turns, batchSize))
      ensures queue == [] ==> |accepted| == |sent| + lost
    {
      hide Valid, Min, Taken, Rest;
      var turn := 0;
      CutNone(queue, batchSize);
      while |queue| > 0 && turn < turns
        invariant turn <= turns && Valid() && batch == [] && !running && accepted == old(accepted)
        invariant queue == Rest(old(queue), Taken(turn, batchSize))
        decreases turns - turn
      {
        CutMore(old(queue), turn, batchSize);
        DrainTurn(batchSize, capacity, answers(turn));
        turn := turn + 1;
      }
      CutAll(old(queue), turn, turns, batchSize);
      AllSettled();
    }

    /** `upload_loop` after shutdown began, with batches that are not empty: every turn shortens the queue, so
        the loop ends, with nothing left behind. */
    method DrainAll(batchSize: nat, capacity: nat, answers: nat -> bool)
      requires Valid() && batch == [] && !running && batchSize > 0
      modifies this
      ensures Valid() && queue == [] && batch == [] && accepted == old(accepted)
      ensures |accepted| == |sent| + lost
    {
      hide Valid;
      var turn := 0;
      while |queue| > 0
        invariant Valid() && batch == [] && !running && accepted == old(accepted)
        decreases |queue|
      {
        DrainTurn(batchSize, capacity, answers(turn));
        turn := turn + 1;
      }
      AllSettled();
    }

    /** One turn of the loop during shutdown. */
    method DrainTurn(batchSize: nat, capacity: nat, acknowledged: bool)
      requires Valid() && batch == [] && !running
      modifies this
      ensures Valid() && batch == [] && !running && accepted == old(accepted) && queue == Rest(old(queue), batchSize)
    {
      hide Valid;
      TakeBatch(batchSize);
      assert queue == (batch + queue)[|batch|..];
      if acknowledged {
        UploadSucceeded();
      } else {
        UploadFailed(capacity);
      }
    }

    lemma AllSettled()
      requires Valid()
      ensures queue == [] && batch == [] ==> |accepted| == |sent| + lost
    {
    }
  }

  /** Records that this many turns can take. */
  function Taken(turns: nat, batchSize: nat): nat {
    turns * batchSize
  }

  /** What is left of a queue after `n` records were taken. */
  function Rest<T>(q: seq<T>, n: nat): seq<T> {
    q[Min(n, |q|)..]
  }

  lemma CutNone<T>(q: seq<T>, batchSize: nat)
    ensures Rest(q, Taken(0, batchSize)) == q
  {
  }

  lemma CutMore<T>(q: seq<T>, turn: nat, batchSize: nat)
    ensures Rest(Rest(q, Taken(turn, batchSize)), batchSize) == Rest(q, Taken(turn + 1, batchSize))
  {
    assert (turn + 1) * batchSize == turn * batchSize + batchSize;
  }

  lemma CutAll<T>(q: seq<T>, turn: nat, turns: nat, batchSize: nat)
    requires turn <= turns && (Rest(q, Taken(turn, batchSize)) == [] || turn == turns)
    ensures Rest(q, Taken(turn, batchSize)) == Rest(q, Taken(turns, batchSize))
  {
    Monotone(turn, turns, batchSize);
  }

  lemma Monotone(a: nat, b: nat, c: nat)
    requires a <= b
    ensures a * c <= b * c
  {
    assert b * c == a * c + (b - a) * c;
  }

  function Min(a: nat, b: nat): nat {
    if a < b then a else b
  }

  /** Hence some number of turns empties the queue if and only if it is empty already or batches are not:
      with a batch size of 0 the shutdown loop never ends. */
  lemma DrainEnds<T>(q: seq<T>, batchSize: nat)
    ensures (exists turns: nat :: Rest(q, Taken(turns, batchSize)) == []) <==> q == [] || batchSize > 0
    ensures batchSize == 0 ==> forall turns: nat :: Rest(q, Taken(turns, batchSize)) == q
  {
    if batchSize > 0 {
      Monotone(1, batchSize, |q|);
      assert Rest(q, Taken(|q|, batchSize)) == [];
    } else {
      assert forall turns: nat :: Taken(turns, batchSize) == 0;
      assert Rest(q, Taken(0, batchSize)) == q;
    }
  }

  /** How many records of a failed batch do not fit back beside the `waiting` ones. */
  function Surplus(failed: nat, waiting: nat, capacity: nat): (n: nat)
    ensures n <= failed
  {
    if waiting + failed <= capacity then 0 else if waiting >= capacity then failed else waiting + failed - capacity
  }

  function Max(a: nat, b: nat): nat {
    if a < b then b else a
  }
}
