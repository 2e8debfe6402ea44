/** The transfer-ticket protocol between two processes: the dashboard writes the ticket file, the
    gateway re-reads it, spends tickets and forgets spent ids that are no longer loaded. A run is any
    interleaving of the steps below; each step is one critical section of one process. */
module TransferProtocol {
  import opened Text
  import opened Tickets

  /** A ticket spent by the gateway: which one, when, and by which gateway process. */
  datatype Routing = Routing(ticket: Ticket, at: int, process: nat)

  datatype World = World(
    clock: int,
    file: seq<Ticket>,            // the ticket file
    issued: set<string>,          // every id ever drawn
    staticPorts: set<int>,        // public ports of the current topology
    cleaned: bool,                // the cleanup for the current topology has run
    view: View,                   // fixed for the life of a gateway process
    process: nat,                 // how many times the gateway was restarted
    table: Table,                 // the gateway's loaded tickets
    spent: set<string>,           // the gateway's memory of spent ids
    routed: seq<Routing>)         // history

  datatype Event =
    | Tick(now: int)
    | Create(id: string, destination: string, sourceIp: string, low: int, high: int, readable: bool, ttl: nat,
        loadedAt: int)
    | List
    | SaveTopology(ports: set<int>)
    | CleanStatic(ports: set<int>)
    | Refresh
    | Cleanup
    | Consume(port: int, matches: bool, available: bool)
    | Restart(view: View)

  function Start(view: View, now: int): World {
    World(now, [], {}, {}, true, view, 0, map[], {}, [])
  }

  /** Steps the environment may take: time does not run backwards, ids are new, a file is read
      before it is written. */
  predicate Enabled(w: World, e: Event) {
    match e
    case Tick(now) => w.clock <= now
    case Create(id, _, _, _, _, _, _, loadedAt) => id !in w.issued && loadedAt <= w.clock
    case _ => true
  }

  function StaticAsRead(w: World, readable: bool): set<int> {
    if readable then w.staticPorts else {}
  }

  function Step(w: World, e: Event): World {
    match e
    case Tick(now) => w.(clock := now)
    case Create(id, destination, sourceIp, low, high, readable, ttl, loadedAt) =>
      var live := Live(w.file, loadedAt);
      (match Allocated(low, high, PortsOf(live) + StaticAsRead(w, readable))
       case None => w.(issued := w.issued + {id})
       case Some(port) =>
         w.(file := live + [Ticket(id, port, destination, sourceIp, w.clock + ttl)],
            issued := w.issued + {id},
            cleaned := w.cleaned && readable))
    case List => w.(file := Live(w.file, w.clock))
    case SaveTopology(ports) => w.(staticPorts := ports, cleaned := false)
    case CleanStatic(ports) =>
      w.(file := if ports == {} then w.file else Outside(Live(w.file, w.clock), ports),
         cleaned := w.cleaned || ports == w.staticPorts)
    case Refresh =>
      var table := LoadTable(w.view, w.file, w.spent, w.clock);
      w.(table := table, spent := Pruned(w.spent, table))
    case Cleanup => w.(table := Unexpired(w.table, w.clock))
    case Consume(port, matches, available) =>
      if Spendable(w.table, port, w.clock, matches, available) then
        w.(table := Spend(w.table, port),
           spent := w.spent + {w.table[port].ticket.id},
           routed := w.routed + [Routing(w.table[port].ticket, w.clock, w.process)])
      else w
    case Restart(view) => w.(view := view, process := w.process + 1, table := map[], spent := {})
  }

  /** A run from a start state. */
  ghost predicate Run(w0: World, es: seq<Event>, w: World)
    decreases |es|
  {
    if es == [] then w == w0
    else Enabled(w0, es[0]) && Run(Step(w0, es[0]), es[1..], w)
  }

  // ---- the invariant -----------------------------------------------------

  ghost predicate FileInv(w: World) {
    && DistinctPorts(w.file) && DistinctIds(w.file)
    && (forall t :: t in w.file ==> t.id in w.issued)
    && (w.cleaned ==> forall t :: t in w.file ==> t.port !in w.staticPorts)
  }

  /** This gateway process has spent the id. */
  ghost predicate SpentHere(w: World, id: string) {
    exists i :: 0 <= i < |w.routed| && w.routed[i].process == w.process && w.routed[i].ticket.id == id
  }

  ghost predicate TableInv(w: World) {
    && (forall p :: p in w.table ==> w.table[p].ticket.port == p && w.table[p].ticket.id in w.issued)
    && (forall p, q :: p in w.table && q in w.table && p != q ==> w.table[p].ticket.id != w.table[q].ticket.id)
  }

  /** A spent id can never become spendable again: where it is loaded it is marked, and where it
      could still be loaded it is remembered. */
  ghost predicate SpentInv(w: World) {
    && (forall p :: p in w.table && SpentHere(w, w.table[p].ticket.id) ==> w.table[p].consumed)
    && (forall t :: t in w.file && SpentHere(w, t.id) && Loadable(w.view, t, w.clock) ==> t.id in w.spent)
    && (forall i :: 0 <= i < |w.routed| ==> w.routed[i].ticket.id in w.issued && w.routed[i].process <= w.process)
  }

  /** What the protocol promises about the history. */
  ghost predicate OneUse(w: World) {
    && (forall i :: 0 <= i < |w.routed| ==> w.routed[i].at < w.routed[i].ticket.expiresAt)
    && (forall i, j :: 0 <= i < j < |w.routed| && w.routed[i].ticket.id == w.routed[j].ticket.id ==>
          w.routed[i].process < w.routed[j].process)
  }

  ghost predicate Inv(w: World) {
    FileInv(w) && TableInv(w) && SpentInv(w) && OneUse(w)
  }

  lemma CreateKeeps(w: World, e: Event)
    requires Inv(w) && Enabled(w, e) && e.Create?
    ensures Inv(Step(w, e))
  {
    var live, w1 := Live(w.file, e.loadedAt), Step(w, e);
    LiveThins(w.file, e.loadedAt);
    var chosen := Allocated(e.low, e.high, PortsOf(live) + StaticAsRead(w, e.readable));
    assert forall id :: SpentHere(w1, id) <==> SpentHere(w, id);
    if chosen.Some? {
      var t := w1.file[|live|];
      assert w1.file == live + [t];
      AppendDistinct(live, t);
      assert !SpentHere(w, t.id);
    }
  }

  lemma FileStepKeeps(w: World, e: Event)
    requires Inv(w) && Enabled(w, e) && (e.List? || e.CleanStatic? || e.SaveTopology? || e.Tick?)
    ensures Inv(Step(w, e))
  {
    var w1 := Step(w, e);
    assert forall id :: SpentHere(w1, id) <==> SpentHere(w, id);
    LiveThins(w.file, w.clock);
    if e.CleanStatic? {
      OutsideThins(Live(w.file, w.clock), e.ports);
    }
  }

  lemma RefreshKeeps(w: World)
    requires Inv(w)
    ensures Inv(Step(w, Refresh))
  {
    var w1 := Step(w, Refresh);
    LoadTableExact(w.view, w.file, w.spent, w.clock);
    assert forall id :: SpentHere(w1, id) <==> SpentHere(w, id);
    forall p, q | p in w1.table && q in w1.table && p != q ensures w1.table[p].ticket.id != w1.table[q].ticket.id {
      var t, u := w1.table[p].ticket, w1.table[q].ticket;
      var i :| 0 <= i < |w.file| && w.file[i] == t;
      var j :| 0 <= j < |w.file| && w.file[j] == u;
      assert i != j;
      if i < j { assert w.file[i].id != w.file[j].id; } else { assert w.file[j].id != w.file[i].id; }
    }
    forall t | t in w.file && SpentHere(w, t.id) && Loadable(w.view, t, w.clock) ensures t.id in w1.spent {
      assert w1.table[t.port].ticket == t;
    }
  }

  lemma ConsumeKeeps(w: World, e: Event)
    requires Inv(w) && e.Consume?
    ensures Inv(Step(w, e))
  {
    var w1 := Step(w, e);
    if Spendable(w.table, e.port, w.clock, e.matches, e.available) {
      var t := w.table[e.port].ticket;
      var n := |w.routed|;
      assert w1.routed[n] == Routing(t, w.clock, w.process);
      assert forall i :: 0 <= i < n ==> w1.routed[i] == w.routed[i];
      forall id ensures SpentHere(w1, id) <==> SpentHere(w, id) || id == t.id {
        if SpentHere(w, id) {
          var i :| 0 <= i < n && w.routed[i].process == w.process && w.routed[i].ticket.id == id;
          assert w1.routed[i].ticket.id == id;
        }
        if SpentHere(w1, id) && id != t.id {
          var i :| 0 <= i < n + 1 && w1.routed[i].process == w.process && w1.routed[i].ticket.id == id;
          assert w.routed[i].ticket.id == id;
        }
      }
      assert !SpentHere(w, t.id);
    }
  }

  lemma ProcessStepKeeps(w: World, e: Event)
    requires Inv(w) && (e.Cleanup? || e.Restart?)
    ensures Inv(Step(w, e))
  {
    var w1 := Step(w, e);
    if e.Restart? {
      forall id ensures !SpentHere(w1, id) {
      }
    } else {
      assert forall id :: SpentHere(w1, id) <==> SpentHere(w, id);
    }
  }

  lemma StepKeeps(w: World, e: Event)
    requires Inv(w) && Enabled(w, e)
    ensures Inv(Step(w, e))
  {
    hide Inv, Step, Enabled;
    match e
    case Create(_, _, _, _, _, _, _, _) => CreateKeeps(w, e);
    case Tick(_) => FileStepKeeps(w, e);
    case List => FileStepKeeps(w, e);
    case SaveTopology(_) => FileStepKeeps(w, e);
    case CleanStatic(_) => FileStepKeeps(w, e);
    case Refresh => RefreshKeeps(w);
    case Consume(_, _, _) => ConsumeKeeps(w, e);
    case Cleanup => ProcessStepKeeps(w, e);
    case Restart(_) => ProcessStepKeeps(w, e);
  }

  lemma {:induction false} RunKeeps(w0: World, es: seq<Event>, w: World)
    requires Inv(w0) && Run(w0, es, w)
    ensures Inv(w)
    decreases |es|
  {
    hide Inv, Step, Enabled;
    if es != [] {
      StepKeeps(w0, es[0]);
      RunKeeps(Step(w0, es[0]), es[1..], w);
    }
  }

  /** What steps of one gateway process, in between others, do to the history: it only grows, by tickets
      routed in this process. */
  ghost predicate Extends(w0: World, w1: World) {
    && w1.process == w0.process && |w0.routed| <= |w1.routed| && w1.routed[..|w0.routed|] == w0.routed
    && forall i :: |w0.routed| <= i < |w1.routed| ==> w1.routed[i].process == w0.process
  }

  /** Steps of the gateway alone: nothing outside changes. */
  ghost predicate Within(w0: World, w1: World) {
    w1.file == w0.file && w1.clock == w0.clock && Extends(w0, w1)
  }

  lemma StepExtends(w: World, e: Event)
    requires !e.Restart?
    ensures Extends(w, Step(w, e))
    ensures e.Refresh? || e.Consume? || e.Cleanup? ==> Within(w, Step(w, e))
  {
    hide LoadTable, Pruned, Live, Outside, Allocated, Unexpired, Spend;
  }

  lemma ExtendsTransitive(a: World, b: World, c: World)
    requires Extends(a, b) && Extends(b, c)
    ensures Extends(a, c)
    ensures Within(a, b) && Within(b, c) ==> Within(a, c)
  {
    forall i | |a.routed| <= i < |c.routed| ensures c.routed[i].process == a.process {
      if i < |b.routed| { assert c.routed[..|b.routed|][i] == b.routed[i]; }
    }
    assert c.routed[..|a.routed|] == c.routed[..|b.routed|][..|a.routed|];
  }

  /** Tickets routed by one process have different ids, and were routed in time. */
  lemma RoutedOnce(w0: World, w: World, i: nat, j: nat)
    requires Inv(w) && Extends(w0, w) && |w0.routed| <= i < j < |w.routed|
    ensures w.routed[i].ticket.id != w.routed[j].ticket.id && w.routed[j].at < w.routed[j].ticket.expiresAt
  {
    assert w.routed[i].process == w.routed[j].process;
  }

  // ---- the results -------------------------------------------------------

  /** The state after a series of steps. */
  function After(w0: World, es: seq<Event>): World {
    if es == [] then w0 else Step(After(w0, es[..|es| - 1]), es[|es| - 1])
  }

  /** The step puts a new ticket into the file. */
  predicate Issues(w: World, e: Event) {
    e.Create? && Allocated(e.low, e.high, PortsOf(Live(w.file, e.loadedAt)) + StaticAsRead(w, e.readable)).Some?
  }

  /** A new topology, or a ticket issued while the topology could not be read. */
  predicate Spoils(w: World, e: Event) {
    e.SaveTopology? || (Issues(w, e) && !e.readable)
  }

  /** The first `k` steps ended with the cleanup for the present topology (or there were none), and
      nothing spoiled it since. */
  ghost predicate CleanSince(w0: World, es: seq<Event>, k: nat) {
    && k <= |es|
    && (k == 0 || (es[k - 1].CleanStatic? && es[k - 1].ports == After(w0, es).staticPorts))
    && forall j :: k <= j < |es| ==> !Spoils(After(w0, es[..j]), es[j])
  }

  lemma CleanedStep(w: World, e: Event)
    ensures Step(w, e).cleaned <==> !Spoils(w, e) && (w.cleaned || (e.CleanStatic? && e.ports == w.staticPorts))
    ensures Step(w, e).staticPorts == if e.SaveTopology? then e.ports else w.staticPorts
  {
  }

  lemma CleanSinceStep(w0: World, es: seq<Event>, e: Event, k: nat)
    requires k <= |es|
    ensures CleanSince(w0, es + [e], k) <==> CleanSince(w0, es, k) && !Spoils(After(w0, es), e)
  {
    hide Step, Spoils;
    var all := es + [e];
    assert all[..|es|] == es;
    assert forall j :: 0 <= j < |es| ==> all[..j] == es[..j] && all[j] == es[j];
    CleanedStep(After(w0, es), e);
    if !Spoils(After(w0, es), e) { NoNewTopology(After(w0, es), e); }
  }

  lemma NoNewTopology(w: World, e: Event)
    requires !Spoils(w, e)
    ensures Step(w, e).staticPorts == w.staticPorts
  {
  }

  /** Exactly when the flag `cleaned` is set, which means that the file is free of static ports by design:
      since the last cleanup for the present topology, no new topology and no ticket issued with the
      topology unreadable. */
  lemma {:induction false} CleanedExactly(w0: World, es: seq<Event>)
    requires w0.cleaned
    ensures After(w0, es).cleaned <==> exists k: nat :: CleanSince(w0, es, k)
  {
    if es == [] {
      assert CleanSince(w0, es, 0);
    } else {
      hide Step, Spoils, CleanSince;
      var n := |es| - 1;
      var front, e := es[..n], es[n];
      assert es == front + [e];
      var w := After(w0, front);
      CleanedExactly(w0, front);
      CleanedStep(w, e);
      forall k: nat | k <= n ensures CleanSince(w0, es, k) <==> CleanSince(w0, front, k) && !Spoils(w, e) {
        CleanSinceStep(w0, front, e, k);
      }
      CleanSinceEnd(w0, front, e);
      CleanSinceBound(w0, front);
      CleanSinceBound(w0, es);
    }
  }

  lemma CleanSinceBound(w0: World, es: seq<Event>)
    ensures forall k: nat :: CleanSince(w0, es, k) ==> k <= |es|
  {
  }

  lemma CleanSinceEnd(w0: World, es: seq<Event>, e: Event)
    ensures CleanSince(w0, es + [e], |es| + 1) <==> e.CleanStatic? && e.ports == After(w0, es).staticPorts
    ensures e.CleanStatic? ==> !Spoils(After(w0, es), e)
  {
    hide Step;
    assert (es + [e])[..|es|] == es;
    CleanedStep(After(w0, es), e);
  }

  /** No ticket of the file sits on one of these ports. */
  ghost predicate FreeOf(file: seq<Ticket>, ports: set<int>) {
    forall t :: t in file ==> t.port !in ports
  }

  /** What creating a ticket does to a file that is free of static ports: it stays so if and only if the
      topology could be read, or no port is free, or the one allocated without it is not static. */
  lemma CreateStaysFree(w: World, e: Event)
    requires e.Create? && FreeOf(w.file, w.staticPorts)
    ensures FreeOf(Step(w, e).file, w.staticPorts) <==>
            || e.readable
            || var port := Allocated(e.low, e.high, PortsOf(Live(w.file, e.loadedAt))); (port.None?
                || port.value !in w.staticPorts)
  {
    var live := Live(w.file, e.loadedAt);
    LiveThins(w.file, e.loadedAt);
    assert PortsOf(live) + {} == PortsOf(live);
    var chosen := Allocated(e.low, e.high, PortsOf(live) + StaticAsRead(w, e.readable));
    if chosen.Some? {
      var file := Step(w, e).file;
      assert file[|live|] in file && file[|live|].port == chosen.value;
    }
  }

  lemma {:induction false} RunIsAfter(w0: World, es: seq<Event>, w: World)
    requires Run(w0, es, w)
    ensures w == After(w0, es)
    decreases |es|
  {
    hide Step, Enabled;
    if es != [] {
      RunIsAfter(Step(w0, es[0]), es[1..], w);
      AfterCons(w0, es);
    }
  }

  lemma {:induction false} AfterCons(w0: World, es: seq<Event>)
    requires es != []
    ensures After(w0, es) == After(Step(w0, es[0]), es[1..])
  {
    hide Step;
    var n := |es| - 1;
    if n > 0 {
      AfterCons(w0, es[..n]);
      assert es[..n][1..] == es[1..][..n - 1];
    }
  }

  /** In every run: a ticket is only routed before its expiry; no gateway process routes the same
      ticket id twice, although it forgets spent ids; live tickets have distinct ports and ids; and
      when the cleanup for the present topology has run and nothing spoiled it since, none sits on a
      static port. */
  lemma TicketsAreOneUse(view: View, now: int, es: seq<Event>, w: World)
    requires Run(Start(view, now), es, w)
    ensures OneUse(w)
    ensures DistinctPorts(w.file) && DistinctIds(w.file)
    ensures (exists k: nat :: CleanSince(Start(view, now), es, k)) ==> forall t :: (t in w.file
        ==> t.port !in w.staticPorts)
  {
    hide CleanSince, Run, After;
    assert Inv(Start(view, now));
    RunKeeps(Start(view, now), es, w);
    RunIsAfter(Start(view, now), es, w);
    CleanedExactly(Start(view, now), es);
  }

  /** A ticket issued while the topology cannot be read may sit on a static port, although the cleanup
      for that topology has run. */
  lemma UnreadableTopology(view: View, now: int, port: int, id: string, ttl: nat)
    requires port != 0 && ttl > 0
    ensures var es := [SaveTopology({port}), CleanStatic({port}), Create(id, "", "", port, port, false, ttl, now)];
            var w := After(Start(view, now), es);
            && Run(Start(view, now), es, w)
            && w.staticPorts == {port} && w.file == [Ticket(id, port, "", "", now + ttl)]
            && Live(w.file, w.clock) == w.file
  {
    var w0 := Start(view, now);
    var e1, e2, e3 := SaveTopology({port}), CleanStatic({port}), Create(id, "", "", port, port, false, ttl, now);
    var w1 := w0.(staticPorts := {port}, cleaned := false);
    var w2 := w1.(cleaned := true);
    assert Step(w0, e1) == w1 && Step(w1, e2) == w2;
    var t := Ticket(id, port, "", "", now + ttl);
    assert PortsOf([]) == {};
    assert Allocated(port, port, {}) == Some(port);
    var w3 := Step(w2, e3);
    assert w3.file == [t];
    assert [e1, e2, e3][..2] == [e1, e2] && [e1, e2][..1] == [e1] && [e1][..0] == [];
    assert After(w0, [e1]) == w1 && After(w0, [e1, e2]) == w2;
    assert [e1, e2, e3][1..] == [e2, e3] && [e2, e3][1..] == [e3] && [e3][1..] == [];
    assert Run(w3, [], w3) && Run(w2, [e3], w3) && Run(w1, [e2, e3], w3);
    assert [t][1..] == [];
  }

  lemma {:induction false} ProcessUnchanged(w0: World, es: seq<Event>, w: World)
    requires Run(w0, es, w) && forall i :: 0 <= i < |es| ==> !es[i].Restart?
    ensures w.process == w0.process
    decreases |es|
  {
    if es != [] {
      ProcessUnchanged(Step(w0, es[0]), es[1..], w);
    }
  }

  /** Without a gateway restart every ticket id is routed at most once. */
  lemma OneUseWithoutRestart(view: View, now: int, es: seq<Event>, w: World, i: nat, j: nat)
    requires Run(Start(view, now), es, w) && forall k :: 0 <= k < |es| ==> !es[k].Restart?
    requires i < j < |w.routed|
    ensures w.routed[i].ticket.id != w.routed[j].ticket.id
  {
    hide Step, Enabled;
    assert Inv(Start(view, now));
    RunKeeps(Start(view, now), es, w);
    ProcessUnchanged(Start(view, now), es, w);
  }

  lemma LoadOne(view: View, t: Ticket, spent: set<string>, now: int)
    requires Loadable(view, t, now)
    ensures LoadTable(view, [t], spent, now) == map[t.port := Loaded(t, view.backendIndex[t.destination],
        t.id in spent)]
  {
    assert [t][..0] == [];
  }

  /** A gateway without memory that reads the file spends the ticket. */
  lemma FreshUse(w: World, t: Ticket)
    requires w.file == [t] && w.spent == {} && Loadable(w.view, t, w.clock)
    ensures var after := Step(Step(w, Refresh), Consume(t.port, true, true));
            after == w.(table := after.table, spent := after.spent,
                routed := w.routed + [Routing(t, w.clock, w.process)])
  {
    LoadOne(w.view, t, {}, w.clock);
  }

  lemma RunFive(w: World, a: Event, b: Event, c: Event, d: Event, e: Event)
    requires !a.Tick? && !a.Create? && !b.Tick? && !b.Create? && !c.Tick? && !c.Create?
    requires !d.Tick? && !d.Create? && !e.Tick? && !e.Create?
    ensures Run(w, [a, b, c, d, e], Step(Step(Step(Step(Step(w, a), b), c), d), e))
  {
    hide Step;
    var w1 := Step(w, a);
    var w2 := Step(w1, b);
    var w3 := Step(w2, c);
    var w4 := Step(w3, d);
    var w5 := Step(w4, e);
    assert Run(w5, [], w5) && [e][1..] == [];
    assert Run(w4, [e], w5) && [d, e][1..] == [e];
    assert Run(w3, [d, e], w5) && [c, d, e][1..] == [d, e];
    assert Run(w2, [c, d, e], w5) && [b, c, d, e][1..] == [c, d, e];
    assert Run(w1, [b, c, d, e], w5) && [a, b, c, d, e][1..] == [b, c, d, e];
  }

  /** A restart between two uses is enough to spend a ticket twice: the new process re-reads the file
      with an empty memory. */
  lemma RestartForgets(view: View, t: Ticket, now: int)
    requires Loadable(view, t, now)
    ensures var w := World(now, [t], {t.id}, {}, true, view, 0, map[], {}, []);
            Inv(w) &&
            exists w1 :: Run(w, [Refresh, Consume(t.port, true, true), Restart(view), Refresh,
                Consume(t.port, true, true)], w1)
                         && |w1.routed| == 2 && w1.routed[0].ticket == t && w1.routed[1].ticket == t
  {
    hide Run, LoadTable, Pruned, Spendable, Spend;
    var w := World(now, [t], {t.id}, {}, true, view, 0, map[], {}, []);
    var e := Consume(t.port, true, true);
    FreshUse(w, t);
    FreshUse(Step(Step(Step(w, Refresh), e), Restart(view)), t);
    RunFive(w, Refresh, e, Restart(view), Refresh, e);
  }

  /** Two tickets on one port would break the promise even within a process: the earlier one is not
      loaded, so its spent id is forgotten, and it comes back unspent when the later one leaves. */
  lemma SharedPortForgets(view: View, t: Ticket, u: Ticket, now: int)
    requires Loadable(view, t, now) && Loadable(view, u, now) && t.port == u.port && t.id != u.id
    ensures var both := LoadTable(view, [t, u], {t.id}, now);
            Pruned({t.id}, both) == {} && !LoadTable(view, [t], Pruned({t.id}, both), now)[t.port].consumed
  {
    assert [t, u][..1] == [t];
    LoadOne(view, t, {t.id}, now);
    LoadOne(view, t, {}, now);
    var both := LoadTable(view, [t, u], {t.id}, now);
    assert both == map[u.port := Loaded(u, view.backendIndex[u.destination], false)];
  }
}
