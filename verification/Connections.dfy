/** The named connections of a transport, src/transport/connections.rs, and the server tasks that share them. */
module Connections {
  import opened Wire
  import opened Endpoints

  datatype Role = Client | Server

  /** A connection as its transport sees it; objects are compared by identity, as `Arc::ptr_eq` does. */
  class Endpoint {
    const name: string
    const role: Role
    const flags: Flags
    var open: bool

    constructor (name: string, role: Role, flags: Flags)
      ensures this.name == name && this.role == role && this.flags == flags && open
    {
      this.name := name;
      this.role := role;
      this.flags := flags;
      open := true;
    }

    /** The directions as this side sees them: the flags are the client's. */
    function Sends(): bool {
      if role.Client? then flags.egress else flags.ingress
    }

    function Receives(): bool {
      if role.Client? then flags.ingress else flags.egress
    }

    predicate ReadyForSending()
      reads this
    {
      Sends() && open
    }
  }

  /** What one side may send, the other side does not discard. */
  lemma DirectionsAgree(client: Endpoint, server: Endpoint)
    requires client.role.Client? && server.role.Server? && client.flags == server.flags
    ensures client.Sends() == server.Receives() && server.Sends() == client.Receives()
  {
  }

  // ---------------------------------------------------------------- choosing a connection

  /** The bytes that identify a packet's flow: both addresses; None when the packet has no whole IP header. */
  function Flow(packet: Bytes): Option<Bytes>
    requires packet != []
  {
    if packet[0] / 16 == 4 && IPV4_HEADER_SIZE <= |packet| then Some(packet[12..20])
    else if packet[0] / 16 == 6 && IPV6_HEADER_SIZE <= |packet| then Some(packet[8..40])
    else None
  }

  /** The index chosen among `n` ready connections. */
  function Choice(n: nat, packet: Bytes, hash: Bytes -> nat): (i: nat)
    requires 0 < n && (1 < n ==> packet != [])
    ensures i < n
  {
    if n == 1 || Flow(packet).None? then 0 else hash(Flow(packet).value) % n
  }

  /** Two packets with whole IP headers, of one version and with the same addresses. */
  predicate SameAddresses(p: Bytes, q: Bytes)
    requires p != [] && q != []
  {
    || (p[0] / 16 == 4 == q[0] / 16 && 20 <= |p| && 20 <= |q| && p[12..20] == q[12..20])
    || (p[0] / 16 == 6 == q[0] / 16 && 40 <= |p| && 40 <= |q| && p[8..40] == q[8..40])
  }

  predicate HasHeader(p: Bytes) {
    p != [] && ((p[0] / 16 == 4 && 20 <= |p|) || (p[0] / 16 == 6 && 40 <= |p|))
  }

  lemma FlowIsAddresses(p: Bytes, q: Bytes)
    requires HasHeader(p) && HasHeader(q)
    ensures Flow(p).Some? && Flow(q).Some?
    ensures Flow(p) == Flow(q) <==> SameAddresses(p, q)
  {
    assert |Flow(p).value| == if p[0] / 16 == 4 then 8 else 32;
    assert |Flow(q).value| == if q[0] / 16 == 4 then 8 else 32;
  }

  /** Packets are kept together, whatever the hash, exactly when their addresses are the same: of packets that are not,
      some hash sends each to any connection. */
  lemma FlowsAreToldApart(n: nat, p: Bytes, q: Bytes, i: nat, j: nat)
    requires HasHeader(p) && HasHeader(q) && i < n && j < n
    ensures SameAddresses(p, q) ==> forall hash :: Choice(n, p, hash) == Choice(n, q, hash)
    ensures !SameAddresses(p, q) ==> exists hash :: Choice(n, p, hash) == i && Choice(n, q, hash) == j
  {
    FlowIsAddresses(p, q);
    if !SameAddresses(p, q) {
      var flow := Flow(p).value;
      var hash := (b: Bytes) => if b == flow then i else j;
      assert Choice(n, p, hash) == i && Choice(n, q, hash) == j;
    }
  }

  /** A packet without a whole IP header goes to the first ready connection. */
  lemma HeaderlessGoFirst(n: nat, p: Bytes, hash: Bytes -> nat)
    requires 0 < n && p != [] && !HasHeader(p)
    ensures Choice(n, p, hash) == 0
  {
  }

  // ---------------------------------------------------------------- the table

  function AddTo<T>(table: map<string, T>, name: string, connection: T): map<string, T> {
    table[name := connection]
  }

  function RemoveFrom<T(==)>(table: map<string, T>, name: string, connection: T): map<string, T> {
    if name in table && table[name] == connection then table - {name} else table
  }

  /** The ready connections in iteration order. */
  function Ready(all: seq<Endpoint>): seq<Endpoint>
    reads set e | e in all
  {
    if all == [] then []
    else Ready(all[..|all| - 1]) + if all[|all| - 1].ReadyForSending() then [all[|all| - 1]] else []
  }

  lemma {:induction false} ReadyMembers(all: seq<Endpoint>, e: Endpoint)
    ensures e in Ready(all) <==> e in all && e.ReadyForSending()
  {
    if all == [] {
    } else {
      ReadyMembers(all[..|all| - 1], e);
      assert all == all[..|all| - 1] + [all[|all| - 1]];
    }
  }

  function Without(all: seq<Endpoint>, name: string): seq<Endpoint> {
    if all == [] then []
    else Without(all[..|all| - 1], name) + if all[|all| - 1].name == name then [] else [all[|all| - 1]]
  }

  lemma {:induction false} WithoutMembers(all: seq<Endpoint>, name: string, e: Endpoint)
    ensures e in Without(all, name) <==> e in all && e.name != name
  {
    if all == [] {
    } else {
      WithoutMembers(all[..|all| - 1], name, e);
      assert all == all[..|all| - 1] + [all[|all| - 1]];
    }
  }

  ghost predicate DistinctNames(all: seq<Endpoint>) {
    forall i, j :: 0 <= i < j < |all| ==> all[i].name != all[j].name
  }

  lemma {:induction false} WithoutKeepsDistinct(all: seq<Endpoint>, name: string)
    requires DistinctNames(all)
    ensures DistinctNames(Without(all, name))
  {
    if all == [] {
    } else {
      var init, last := all[..|all| - 1], all[|all| - 1];
      WithoutKeepsDistinct(init, name);
      forall e: Endpoint | e in Without(init, name)
        ensures e.name != last.name
      {
        WithoutMembers(init, name, e);
      }
    }
  }

  class TransportConnections {
    var connections: map<string, Endpoint>
    /** The map's values in its current iteration order, which any change of the map may shuffle. */
    var values: seq<Endpoint>
    const hash: Bytes -> nat

    ghost predicate Valid()
      reads this
    {
      && (forall name :: name in connections ==> connections[name].name == name && connections[name] in values)
      && (forall e :: e in values ==> e.name in connections && connections[e.name] == e)
      && DistinctNames(values)
    }

    constructor (hash: Bytes -> nat)
      ensures Valid() && connections == map[] && this.hash == hash
    {
      connections := map[];
      values := [];
      this.hash := hash;
    }

    /** Returns whether the name was new; a connection of the same name is replaced. */
    method Add(connection: Endpoint) returns (added: bool)
      requires Valid()
      modifies this
      ensures Valid() && connections == AddTo(old(connections), connection.name, connection)
      ensures added <==> connection.name !in old(connections)
    {
      added := connection.name !in connections;
      var kept := Without(values, connection.name);
      forall e: Endpoint
        ensures e in kept <==> e in values && e.name != connection.name
      {
        WithoutMembers(values, connection.name, e);
      }
      WithoutKeepsDistinct(values, connection.name);
      connections := connections[connection.name := connection];
      values := kept + [connection];
    }

    /** Removes this very connection; one that has replaced it stays. */
    method Remove(connection: Endpoint)
      requires Valid()
      modifies this
      ensures Valid() && connections == RemoveFrom(old(connections), connection.name, connection)
    {
      if connection.name in connections && connections[connection.name] == connection {
        var kept := Without(values, connection.name);
        forall e: Endpoint
          ensures e in kept <==> e in values && e.name != connection.name
        {
          WithoutMembers(values, connection.name, e);
        }
        WithoutKeepsDistinct(values, connection.name);
        values := kept;
        connections := connections - {connection.name};
      }
    }

    /** The connection for a packet. */
    function Selected(packet: Bytes): Option<Endpoint>
      requires 1 < |Ready(values)| ==> packet != []
      reads this, set e | e in values
    {
      var ready := Ready(values);
      if ready == [] then None else Some(ready[Choice(|ready|, packet, hash)])
    }

    /** While the table and the ready connections stay as they are, packets of one flow take one connection, however
        they differ otherwise. */
    lemma FlowKeepsConnection(p: Bytes, q: Bytes)
      requires p != [] && q != [] && SameAddresses(p, q)
      ensures Selected(p) == Selected(q)
    {
      assert Flow(p) == Flow(q);
    }

    /** Whatever is sent on the selected connection, the other side of it does not discard for its direction. */
    lemma PeerAccepts(packet: Bytes, peer: Endpoint)
      requires 1 < |Ready(values)| ==> packet != []
      requires Selected(packet).Some?
      requires peer.role != Selected(packet).value.role && peer.flags == Selected(packet).value.flags
      ensures Selected(packet).value.Sends() && peer.Receives()
      ensures if peer.role.Server? then peer.flags.egress else peer.flags.ingress
    {
      var chosen := Selected(packet).value;
      ReadyMembers(values, chosen);
      if chosen.role.Client? {
        DirectionsAgree(chosen, peer);
      } else {
        DirectionsAgree(peer, chosen);
      }
    }

    /** None exactly when nothing is ready; otherwise a ready connection of the table. */
    method Select(packet: Bytes) returns (r: Option<Endpoint>)
      requires Valid()
      requires 1 < |Ready(values)| ==> packet != []
      ensures r.None? <==> forall name :: name in connections ==> !connections[name].ReadyForSending()
      ensures r.Some?
        ==> r.value.name in connections && connections[r.value.name] == r.value && r.value.ReadyForSending()
      ensures r == Selected(packet)
    {
      var ready: seq<Endpoint> := [];
      for i := 0 to |values|
        invariant ready == Ready(values[..i])
      {
        assert values[..i + 1][..i] == values[..i];
        if values[i].ReadyForSending() {
          ready := ready + [values[i]];
        }
      }
      assert values[..|values|] == values;
      forall e: Endpoint | e in values
        ensures e in ready <==> e.ReadyForSending()
      {
        ReadyMembers(values, e);
      }
      if ready == [] {
        return None;
      }
      var chosen := ready[Choice(|ready|, packet, hash)];
      ReadyMembers(values, chosen);
      return Some(chosen);
    }

    /** A server transport is connected when its open connections cover both directions. */
    method Connected() returns (r: bool)
      requires Valid()
      ensures r
        <==> (exists e :: e in values && e.open && e.Receives()) && (exists e :: e in values && e.open && e.Sends())
    {
      var ingress, egress := false, false;
      for i := 0 to |values|
        invariant ingress <==> exists j :: 0 <= j < i && values[j].open && values[j].Receives()
        invariant egress <==> exists j :: 0 <= j < i && values[j].open && values[j].Sends()
      {
        if values[i].open {
          ingress := ingress || values[i].Receives();
          egress := egress || values[i].Sends();
        }
      }
      r := ingress && egress;
    }
  }

  // ---------------------------------------------------------------- server tasks sharing the table

  /** What the server's tasks do to the table, in the order of its mutex. Connections are named by a unique id. */
  datatype Event = Added(name: string, id: nat) | Removed(name: string, id: nat)

  function Table(events: seq<Event>): map<string, nat> {
    if events == [] then map[]
    else
      match events[|events| - 1]
      case Added(name, id) => AddTo(Table(events[..|events| - 1]), name, id)
      case Removed(name, id) => RemoveFrom(Table(events[..|events| - 1]), name, id)
  }

  /** Each task adds its connection once and removes it, if ever, afterwards and under the same name. */
  ghost predicate TasksAddThenRemove(events: seq<Event>) {
    && (forall i, j :: 0 <= i < j < |events| && events[i].Added? && events[j].Added? ==> events[i].id != events[j].id)
    && (forall i, j :: 0 <= i < j < |events| && events[i].Removed? && events[j].Added? ==> events[i].id != events[j].id)
  }

  /** The connection added last under a name. */
  function LastAdded(events: seq<Event>, name: string): Option<nat> {
    if events == [] then None
    else
      var last := events[|events| - 1];
      if last.Added? && last.name == name then Some(last.id) else LastAdded(events[..|events| - 1], name)
  }

  function Lookup(table: map<string, nat>, name: string): Option<nat> {
    if name in table then Some(table[name]) else None
  }

  lemma {:induction false} LastAddedWasAdded(events: seq<Event>, name: string)
    requires LastAdded(events, name).Some?
    ensures Added(name, LastAdded(events, name).value) in events
  {
    var last := events[|events| - 1];
    if !(last.Added? && last.name == name) {
      LastAddedWasAdded(events[..|events| - 1], name);
    }
  }

  /** For every interleaving of server tasks: a name stands for the connection added last under it, unless that
      connection itself has been removed. A late finish of a replaced connection never evicts its successor. */
  lemma {:induction false} LastWriterWins(events: seq<Event>, name: string)
    requires TasksAddThenRemove(events)
    ensures Lookup(Table(events), name) ==
            var last := LastAdded(events, name);
            if last.Some? && Removed(name, last.value) !in events then last else None
  {
    if events == [] {
    } else {
      var n := |events| - 1;
      var before, e := events[..n], events[n];
      assert events == before + [e];
      LastWriterWins(before, name);
      if e.Added? && e.name == name {
        assert Removed(name, e.id) !in before;
      }
    }
  }
}
