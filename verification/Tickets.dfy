/** Transfer tickets: how the dashboard issues them (dashboard/main.go, dashboard/backends.go) and
    how the gateway loads and spends them (gateway/gateway.cpp). */
module Tickets {
  import opened Text

  datatype Ticket = Ticket(id: string, port: int, destination: string, sourceIp: string, expiresAt: int)

  // ---- the dashboard side ------------------------------------------------

  /** `loadTransferTickets`: the tickets of the file that have not expired. */
  function Live(file: seq<Ticket>, now: int): seq<Ticket> {
    if file == [] then [] else (if file[0].expiresAt > now then [file[0]] else []) + Live(file[1..], now)
  }

  function PortsOf(file: seq<Ticket>): set<int> {
    set t | t in file :: t.port
  }

  function IdsOf(file: seq<Ticket>): set<string> {
    set t | t in file :: t.id
  }

  /** The tickets outside a set of ports. */
  function Outside(file: seq<Ticket>, ports: set<int>): seq<Ticket> {
    if file == [] then [] else (if file[0].port in ports then [] else [file[0]]) + Outside(file[1..], ports)
  }

  /** The least port of the pool that is not taken. */
  function FirstFree(low: int, high: int, taken: set<int>): (r: Option<int>)
    ensures r.Some? ==> low <= r.value <= high && r.value !in taken && forall p :: low <= p < r.value ==> p in taken
    ensures r.None? ==> forall p :: low <= p <= high ==> p in taken
    decreases high - low
  {
    if low > high then None else if low !in taken then Some(low) else FirstFree(low + 1, high, taken)
  }

  /** The port `createTransferTicket` settles on; 0 doubles as "none found". */
  function Allocated(low: int, high: int, taken: set<int>): Option<int> {
    match FirstFree(low, high, taken)
    case None => None
    case Some(p) => if p == 0 then None else Some(p)
  }

  /** Allocation fails when no port of the pool is free, and besides exactly when 0 belongs to the pool, is
      free, and every lower port of the pool is taken. */
  lemma AllocationFails(low: int, high: int, taken: set<int>)
    ensures Allocated(low, high, taken).None? <==>
            || (forall p :: low <= p <= high ==> p in taken)
            || (low <= 0 <= high && 0 !in taken && forall p :: low <= p < 0 ==> p in taken)
  {
  }

  /** A pool that starts at 0 with nothing taken: every port is free, and allocation fails. */
  lemma PoolFromZero(high: nat)
    ensures FirstFree(0, high, {}) == Some(0) && Allocated(0, high, {}).None?
  {
    AllocationFails(0, high, {});
  }

  class TicketStore {
    var file: seq<Ticket>

    constructor ()
      ensures file == []
    {
      file := [];
    }

    /** The allocation loop of `createTransferTicket`. */
    method SelectPort(low: int, high: int, used: set<int>, fixed: set<int>) returns (selected: Option<int>)
      ensures selected == Allocated(low, high, used + fixed)
    {
      var port := low;
      while port <= high
        invariant low <= port && FirstFree(low, high, used + fixed) == FirstFree(port, high, used + fixed)
        decreases high - port
      {
        if port !in used && port !in fixed {
          return if port == 0 then None else Some(port);
        }
        port := port + 1;
      }
      return None;
    }

    /** `createTransferTicket`, once the request is validated: `loadedAt` and `now` are the clock when
        the file is read and when the ticket is stamped; `fixed` is empty when the topology
        cannot be read; `readable` and `written` say whether the file could be read and the new one put
        in place. */
    method Create(id: string, destination: string, sourceIp: string, low: int, high: int, fixed: set<int>,
                  ttl: nat, loadedAt: int, now: int, readable: bool, written: bool)
      returns (created: Option<Ticket>)
      modifies this
      ensures created.Some? <==> readable && written && Allocated(low, high,
          PortsOf(Live(old(file), loadedAt)) + fixed).Some?
      ensures created.Some? ==>
        && created.value == Ticket(id, Allocated(low, high, PortsOf(Live(old(file), loadedAt)) + fixed).value,
                                   destination, sourceIp, now + ttl)
        && file == Live(old(file), loadedAt) + [created.value]
      ensures created.None? ==> file == old(file)
    {
      hide Live, PortsOf, Allocated;
      if !readable {
        return None;
      }
      var tickets := Live(file, loadedAt);
      var used := UsedPorts(tickets);
      var selected := SelectPort(low, high, used, fixed);
      if selected.None? || !written {
        return None;
      }
      var ticket := Ticket(id, selected.value, destination, sourceIp, now + ttl);
      file := tickets + [ticket];
      return Some(ticket);
    }

    method UsedPorts(tickets: seq<Ticket>) returns (used: set<int>)
      ensures used == PortsOf(tickets)
    {
      used := {};
      var i := 0;
      while i < |tickets|
        invariant 0 <= i <= |tickets| && used == PortsOf(tickets[..i])
      {
        assert tickets[..i + 1] == tickets[..i] + [tickets[i]];
        used := used + {tickets[i].port};
        i := i + 1;
      }
      assert tickets[..i] == tickets;
    }

    /** Listing the tickets rewrites the file without the expired ones. */
    method List(now: int, written: bool) returns (tickets: seq<Ticket>)
      modifies this
      ensures tickets == Live(old(file), now) && file == if written then tickets else old(file)
    {
      tickets := Live(file, now);
      if written {
        file := tickets;
      }
    }

    /** `removeTicketsForStaticPorts`: an in-place filter over the live tickets; without a readable file, or
        when the new one cannot be put in place, it fails and leaves the file alone. */
    method RemoveForStaticPorts(fixed: set<int>, now: int, readable: bool, written: bool) returns (ok: bool)
      modifies this
      ensures ok <==> fixed == {} || (readable && written)
      ensures file == if fixed == {} || !ok then old(file) else Outside(Live(old(file), now), fixed)
    {
      hide Live, Outside;
      if fixed == {} {
        return true;
      }
      if !readable {
        return false;
      }
      var tickets := Live(file, now);
      var kept := KeepOutside(tickets, fixed);
      if written {
        file := kept;
      }
      return written;
    }

    method KeepOutside(tickets: seq<Ticket>, fixed: set<int>) returns (kept: seq<Ticket>)
      ensures kept == Outside(tickets, fixed)
    {
      kept := [];
      var i := 0;
      while i < |tickets|
        invariant 0 <= i <= |tickets|
        invariant kept + Outside(tickets[i..], fixed) == Outside(tickets, fixed)
      {
        assert tickets[i..][1..] == tickets[i + 1..];
        if tickets[i].port !in fixed {
          kept := kept + [tickets[i]];
        }
        i := i + 1;
      }
    }
  }

  // ---- the gateway side --------------------------------------------------

  /** What a gateway process knows for its whole life: its pool, its static routes, its backends. */
  datatype View = View(portStart: int, portEnd: int, staticPorts: set<int>, backendIndex: map<string, nat>)

  datatype Loaded = Loaded(ticket: Ticket, backend: nat, consumed: bool)

  type Table = map<int, Loaded>

  predicate Loadable(v: View, t: Ticket, now: int) {
    && v.portStart <= t.port <= v.portEnd && t.expiresAt > now && t.port !in v.staticPorts
    && t.destination in v.backendIndex && t.id != ""
  }

  /** Reading the file top to bottom; a later ticket on the same port replaces an earlier one. */
  function LoadTable(v: View, file: seq<Ticket>, consumed: set<string>, now: int): Table {
    if file == [] then map[]
    else
      var t, rest := file[|file| - 1], LoadTable(v, file[..|file| - 1], consumed, now);
      if Loadable(v, t, now) then rest[t.port := Loaded(t, v.backendIndex[t.destination], t.id in consumed)] else rest
  }

  function TableIds(table: Table): set<string> {
    set p | p in table :: table[p].ticket.id
  }

  /** Spent ids are remembered only while their ticket is loaded. */
  function Pruned(consumed: set<string>, table: Table): set<string> {
    consumed * TableIds(table)
  }

  /** May the ticket on this port be spent now? `matches` is the source-address test, `available`
      the state of the destination. */
  predicate Spendable(table: Table, port: int, now: int, matches: bool, available: bool) {
    port in table && !table[port].consumed && table[port].ticket.expiresAt > now && matches && available
  }

  function Spend(table: Table, port: int): Table
    requires port in table
  {
    table[port := table[port].(consumed := true)]
  }

  /** Expired tickets are dropped by the cleanup. */
  function Unexpired(table: Table, now: int): Table {
    map p | p in table && table[p].ticket.expiresAt > now :: table[p]
  }

  // ---- files with one ticket per port ------------------------------------

  ghost predicate DistinctPorts(file: seq<Ticket>) {
    forall i, j :: 0 <= i < j < |file| ==> file[i].port != file[j].port
  }

  ghost predicate DistinctIds(file: seq<Ticket>) {
    forall i, j :: 0 <= i < j < |file| ==> file[i].id != file[j].id
  }

  /** `part` is `whole` with some tickets left out. */
  ghost predicate Thinned(part: seq<Ticket>, whole: seq<Ticket>) {
    && (forall t :: t in part ==> t in whole)
    && (DistinctPorts(whole) ==> DistinctPorts(part))
    && (DistinctIds(whole) ==> DistinctIds(part))
  }

  lemma ThinnedCons(t: Ticket, part: seq<Ticket>, whole: seq<Ticket>, keep: bool)
    requires Thinned(part, whole)
    ensures Thinned((if keep then [t] else []) + part, [t] + whole)
  {
    var w, p := [t] + whole, (if keep then [t] else []) + part;
    assert w[1..] == whole;
    if DistinctPorts(w) {
      assert DistinctPorts(whole) by { assert forall i :: 0 <= i < |whole| ==> whole[i] == w[i + 1]; }
      assert DistinctPorts(p) by {
        forall j | 0 <= j < |part| ensures part[j].port != t.port {
          assert part[j] in part;
          var k :| 0 <= k < |whole| && whole[k] == part[j];
          assert w[k + 1] == part[j] && w[0] == t;
        }
      }
    }
    if DistinctIds(w) {
      assert DistinctIds(whole) by { assert forall i :: 0 <= i < |whole| ==> whole[i] == w[i + 1]; }
      assert DistinctIds(p) by {
        forall j | 0 <= j < |part| ensures part[j].id != t.id {
          assert part[j] in part;
          var k :| 0 <= k < |whole| && whole[k] == part[j];
          assert w[k + 1] == part[j] && w[0] == t;
        }
      }
    }
  }

  lemma {:induction false} LiveThins(file: seq<Ticket>, now: int)
    ensures Thinned(Live(file, now), file)
    ensures forall t :: t in Live(file, now) <==> t in file && t.expiresAt > now
  {
    if file != [] {
      LiveThins(file[1..], now);
      ThinnedCons(file[0], Live(file[1..], now), file[1..], file[0].expiresAt > now);
      assert file == [file[0]] + file[1..];
    }
  }

  lemma {:induction false} OutsideThins(file: seq<Ticket>, ports: set<int>)
    ensures Thinned(Outside(file, ports), file)
    ensures forall t :: t in Outside(file, ports) <==> t in file && t.port !in ports
  {
    if file != [] {
      OutsideThins(file[1..], ports);
      ThinnedCons(file[0], Outside(file[1..], ports), file[1..], file[0].port !in ports);
      assert file == [file[0]] + file[1..];
    }
  }

  /** A new ticket on a free port with a new id keeps both apart. */
  lemma AppendDistinct(file: seq<Ticket>, t: Ticket)
    requires DistinctPorts(file) && DistinctIds(file)
    requires t.port !in PortsOf(file) && t.id !in IdsOf(file)
    ensures DistinctPorts(file + [t]) && DistinctIds(file + [t])
  {
    forall i | 0 <= i < |file| ensures file[i].port != t.port && file[i].id != t.id {
      assert file[i] in file;
    }
  }

  /** With one ticket per port, loading shows exactly the loadable tickets of the file. */
  lemma {:induction false} LoadTableExact(v: View, file: seq<Ticket>, consumed: set<string>, now: int)
    ensures forall p :: p in LoadTable(v, file, consumed, now) ==>
              var e := LoadTable(v, file, consumed, now)[p];
              e.ticket in file && e.ticket.port == p && Loadable(v, e.ticket, now)
                  && (e.consumed <==> e.ticket.id in consumed)
              && e.backend == v.backendIndex[e.ticket.destination]
    ensures DistinctPorts(file) ==>
              forall t :: t in file && Loadable(v, t, now) ==>
                t.port in LoadTable(v, file, consumed, now) && LoadTable(v, file, consumed, now)[t.port].ticket == t
  {
    if file != [] {
      var n := |file| - 1;
      var t, front := file[n], file[..n];
      LoadTableExact(v, front, consumed, now);
      assert file == front + [t];
      if DistinctPorts(file) {
        assert DistinctPorts(front);
        forall u | u in file && Loadable(v, u, now)
          ensures u.port in LoadTable(v, file, consumed, now) && LoadTable(v, file, consumed, now)[u.port].ticket == u
        {
          if u != t {
            var k :| 0 <= k < n && front[k] == u;
            assert file[k].port != file[n].port;
          }
        }
      }
    }
  }
}
