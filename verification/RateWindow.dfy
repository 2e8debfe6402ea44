/** Fixed-window rate counting as the gateway does it per client address (gateway/gateway.cpp), and
    what it guarantees over any stretch of time. Times are milliseconds of the steady clock. */
module RateWindow {

  datatype Window = Window(start: nat, count: nat)

  /** A window that is over restarts at the current time. */
  function Roll(w: Window, now: nat, width: nat): Window {
    if now >= w.start + width then Window(now, 0) else w
  }

  /** Count one packet; it passes while the count is within the limit. */
  function Admit(w: Window, now: nat, width: nat, limit: nat): (Window, bool) {
    var r := Roll(w, now, width);
    (Window(r.start, r.count + 1), r.count + 1 <= limit)
  }

  // ---- the history of passed packets -------------------------------------

  /** The packets passed in one window. */
  datatype Span = Span(start: nat, times: seq<nat>)

  ghost predicate SpanOk(s: Span, width: nat, bound: nat) {
    |s.times| <= bound && forall k :: 0 <= k < |s.times| ==> s.start <= s.times[k] < s.start + width
  }

  /** Windows do not overlap and each passed at most `bound` packets. */
  ghost predicate SpansOk(spans: seq<Span>, width: nat, bound: nat) {
    && (forall i :: 0 <= i < |spans| ==> SpanOk(spans[i], width, bound))
    && (forall i, j :: 0 <= i < j < |spans| ==> spans[i].start + width <= spans[j].start)
  }

  ghost function CountIn(times: seq<nat>, low: nat, high: nat): nat {
    if times == [] then 0 else (if low <= times[0] <= high then 1 else 0) + CountIn(times[1..], low, high)
  }

  /** Packets passed between two instants, both included. */
  ghost function Passed(spans: seq<Span>, low: nat, high: nat): nat {
    if spans == [] then 0 else CountIn(spans[0].times, low, high) + Passed(spans[1..], low, high)
  }

  lemma {:induction false} CountBound(times: seq<nat>, low: nat, high: nat)
    ensures CountIn(times, low, high) <= |times|
    ensures CountIn(times, low, high) > 0 ==> exists k :: 0 <= k < |times| && low <= times[k] <= high
  {
    if times != [] {
      CountBound(times[1..], low, high);
      if CountIn(times[1..], low, high) > 0 {
        var k :| 0 <= k < |times[1..]| && low <= times[1..][k] <= high;
        assert times[k + 1] == times[1..][k];
      } else if CountIn(times, low, high) > 0 {
        assert low <= times[0] <= high;
      }
    }
  }

  lemma TailOk(spans: seq<Span>, width: nat, bound: nat)
    requires SpansOk(spans, width, bound) && spans != []
    ensures SpansOk(spans[1..], width, bound)
    ensures forall j :: 0 <= j < |spans[1..]| ==> spans[0].start + width <= spans[1..][j].start
  {
    assert forall j :: 0 <= j < |spans[1..]| ==> spans[1..][j] == spans[j + 1];
  }

  lemma {:induction false} LaterSpansMiss(spans: seq<Span>, width: nat, bound: nat, low: nat, high: nat)
    requires SpansOk(spans, width, bound) && forall i :: 0 <= i < |spans| ==> spans[i].start > high
    ensures Passed(spans, low, high) == 0
  {
    if spans != [] {
      TailOk(spans, width, bound);
      assert forall j :: 0 <= j < |spans[1..]| ==> spans[1..][j] == spans[j + 1];
      LaterSpansMiss(spans[1..], width, bound, low, high);
      CountBound(spans[0].times, low, high);
      assert SpanOk(spans[0], width, bound);
    }
  }

  /** However the windows fall, no stretch of one window's width sees more than twice the bound. */
  lemma {:induction false} TwiceTheBound(spans: seq<Span>, width: nat, bound: nat, low: nat)
    requires SpansOk(spans, width, bound)
    ensures Passed(spans, low, low + width) <= 2 * bound
  {
    var high := low + width;
    if spans != [] {
      var first, rest := spans[0], spans[1..];
      TailOk(spans, width, bound);
      CountBound(first.times, low, high);
      assert SpanOk(first, width, bound);
      if CountIn(first.times, low, high) == 0 || rest == [] {
        TwiceTheBound(rest, width, bound, low);
      } else {
        var k :| 0 <= k < |first.times| && low <= first.times[k] <= high;
        assert low < rest[0].start;
        TailOk(rest, width, bound);
        LaterSpansMiss(rest[1..], width, bound, low, high);
        CountBound(rest[0].times, low, high);
        assert SpanOk(rest[0], width, bound);
      }
    }
  }

  // ---- the live window and its history -----------------------------------

  ghost function LastStart(spans: seq<Span>): nat
    requires spans != []
  {
    spans[|spans| - 1].start
  }

  /** The newest recorded window is over by `now`. */
  ghost predicate Rested(spans: seq<Span>, width: nat, now: nat) {
    spans == [] || LastStart(spans) + width <= now
  }

  /** The history belongs to this window: its newest span is the window itself, or an older one. */
  ghost predicate Tied(spans: seq<Span>, w: Window, width: nat, bound: nat) {
    && SpansOk(spans, width, bound)
    && (Rested(spans, width, w.start)
        || (LastStart(spans) == w.start && |spans[|spans| - 1].times| <= w.count))
  }

  /** Record a passed packet. */
  ghost function Logged(spans: seq<Span>, start: nat, now: nat): seq<Span> {
    var n := |spans|;
    if n > 0 && spans[n - 1].start == start then spans[..n - 1] + [Span(start, spans[n - 1].times + [now])]
    else spans + [Span(start, [now])]
  }

  function Max(a: nat, b: nat): nat {
    if a < b then b else a
  }

  lemma RollTied(spans: seq<Span>, w: Window, now: nat, width: nat, bound: nat)
    requires Tied(spans, w, width, bound) && w.start <= now && width > 0
    ensures var r := Roll(w, now, width);
            Tied(spans, r, width, bound) && r.start <= now < r.start + width && w.start <= r.start
  {
  }

  lemma WiderBound(spans: seq<Span>, width: nat, bound: nat, more: nat)
    requires SpansOk(spans, width, bound) && bound <= more
    ensures SpansOk(spans, width, more)
  {
    forall i | 0 <= i < |spans| ensures SpanOk(spans[i], width, more) {
      assert SpanOk(spans[i], width, bound);
    }
  }

  lemma LoggedOk(spans: seq<Span>, w: Window, now: nat, width: nat, bound: nat)
    requires Tied(spans, w, width, bound) && w.start <= now < w.start + width && w.count + 1 <= bound
    ensures Tied(Logged(spans, w.start, now), Window(w.start, w.count + 1), width, bound)
  {
    var n := |spans|;
    var after := Logged(spans, w.start, now);
    if n > 0 && spans[n - 1].start == w.start {
      assert SpanOk(spans[n - 1], width, bound);
      var last := Span(w.start, spans[n - 1].times + [now]);
      assert SpanOk(last, width, bound);
      assert forall i :: 0 <= i < n - 1 ==> after[i] == spans[i];
    } else {
      assert SpanOk(Span(w.start, [now]), width, bound);
      assert forall i :: 0 <= i < n ==> after[i] == spans[i];
      forall i | 0 <= i < n ensures spans[i].start + width <= w.start {
        if i < n - 1 { assert spans[i].start + width <= spans[n - 1].start; }
      }
    }
  }

  /** One check: the history stays consistent, whatever limit applies this time. */
  lemma AdmitKeeps(spans: seq<Span>, w: Window, now: nat, width: nat, limit: nat, bound: nat)
    requires Tied(spans, w, width, bound) && w.start <= now && width > 0
    ensures var (w1, ok) := Admit(w, now, width, limit);
            && Tied(if ok then Logged(spans, w1.start, now) else spans, w1, width, Max(bound, limit))
            && w.start <= w1.start <= now < w1.start + width
  {
    hide SpansOk, Rested, Logged;
    RollTied(spans, w, now, width, bound);
    var r := Roll(w, now, width);
    var more := Max(bound, limit);
    WiderBound(spans, width, bound, more);
    if r.count + 1 <= limit {
      LoggedOk(spans, r, now, width, more);
    }
  }
}
