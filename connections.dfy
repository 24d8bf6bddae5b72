/**
 * Connections: the user circuits as the dashboard sees them. A Connection wraps one user circuit,
 * reads its id, location and opening time through, maps its status to a connection status and
 * forwards its two events; the ConnectionTracker keeps one connection per open user circuit, fed by
 * the circuit tracker's opened and closed events.
 */
module Connections {
  import opened Wrappers
  import opened Circuits
  import opened CircuitTracking
  import Snapshots

  datatype ConnectionStatus = Connected | Reconnecting | Disconnected

  /** A circuit's status as a connection status. */
  function StatusOf(s: CircuitStatus): (r: ConnectionStatus)
    ensures r == Connected <==> s == Open || s == Up
    ensures r == Reconnecting <==> s == Down
    ensures r == Disconnected <==> s == Closed
  {
    match s
    case Open => Connected
    case Up => Connected
    case Down => Reconnecting
    case Closed => Disconnected
  }

  /** The two events a connection raises. */
  datatype ConnectionEvent = UriChanged | ConnectionStatusChanged

  /** The exceptions of this module. */
  datatype ConnectionError =
    | SenderMismatch    // a forwarded event came from another circuit than the wrapped one
    | ConnectionExists  // a connection with this id is already tracked
    | NoSuchConnection  // no connection with this id is tracked

  class Connection {
    const circuit: Circuit
    /** Every event this connection raised, in order. */
    var events: seq<ConnectionEvent>

    /** Wraps a user circuit and subscribes to its UriChanged and CircuitStatusChanged events. */
    constructor(circuit: Circuit)
      requires circuit.IsUser()
      modifies circuit`uriHandlers, circuit`statusHandlers
      ensures this.circuit == circuit && events == []
      ensures circuit.uriHandlers == old(circuit.uriHandlers) + multiset{this}
      ensures circuit.statusHandlers == old(circuit.statusHandlers) + multiset{this}
    {
      this.circuit := circuit;
      events := [];
      new;
      circuit.uriHandlers := circuit.uriHandlers + multiset{this};
      circuit.statusHandlers := circuit.statusHandlers + multiset{this};
    }

    /** Unsubscribes both handlers from the circuit. */
    method Dispose()
      modifies circuit`uriHandlers, circuit`statusHandlers
      ensures circuit.uriHandlers == old(circuit.uriHandlers) - multiset{this}
      ensures circuit.statusHandlers == old(circuit.statusHandlers) - multiset{this}
    {
      circuit.uriHandlers := circuit.uriHandlers - multiset{this};
      circuit.statusHandlers := circuit.statusHandlers - multiset{this};
    }

    // The read-through properties: the connection id is the circuit id.

    function Id(): (r: string)
      ensures r == circuit.id
    {
      circuit.id
    }

    function Status(): (r: ConnectionStatus)
      reads circuit
      ensures r == Connected <==> circuit.status == Open || circuit.status == Up
      ensures r == Reconnecting <==> circuit.status == Down
      ensures r == Disconnected <==> circuit.status == Closed
    {
      StatusOf(circuit.status)
    }

    function Uri(): (r: string)
      reads circuit
      ensures r == circuit.uri
    {
      circuit.uri
    }

    function ConnectedAt(): (r: int)
      reads circuit
      ensures r == circuit.openedAt
    {
      circuit.openedAt
    }

    /** The circuit's UriChanged, forwarded as the connection's UriChanged. */
    method OnCircuitUriChanged(sender: Circuit) returns (err: Option<ConnectionError>)
      modifies this`events
      ensures sender != circuit ==> err == Some(SenderMismatch) && events == old(events)
      ensures sender == circuit ==> err == None && events == old(events) + [UriChanged]
    {
      if sender != circuit {
        return Some(SenderMismatch);
      }
      events := events + [UriChanged];
      err := None;
    }

    /** The circuit's CircuitStatusChanged, forwarded as the connection's ConnectionStatusChanged. */
    method OnCircuitStatusChanged(sender: Circuit) returns (err: Option<ConnectionError>)
      modifies this`events
      ensures sender != circuit ==> err == Some(SenderMismatch) && events == old(events)
      ensures sender == circuit ==> err == None && events == old(events) + [ConnectionStatusChanged]
    {
      if sender != circuit {
        return Some(SenderMismatch);
      }
      events := events + [ConnectionStatusChanged];
      err := None;
    }
  }

  /** The tracker's two events, with the connection they carry. */
  datatype ConnectionTrackerEvent = ConnectionOpened(connection: Connection) | ConnectionClosed(connection: Connection)

  /** The user circuits of the circuit tracker's id index. */
  ghost function UserIds(byId: map<string, Circuit>): set<string>
  {
    set id | id in byId && byId[id].IsUser()
  }

  /** `e` is the ConnectionOpened of a connection tracked under its own id. */
  predicate Announces(e: ConnectionTrackerEvent, connections: map<string, Connection>)
  {
    e.ConnectionOpened? && e.connection.Id() in connections && connections[e.connection.Id()] == e.connection
  }

  class ConnectionTracker {
    const circuitTracker: CircuitTracker
    var connections: map<string, Connection>
    /** Every ConnectionOpened and ConnectionClosed raised, in order. */
    var events: seq<ConnectionTrackerEvent>

    /** Each connection is keyed by its id and wraps a user circuit. */
    ghost predicate Valid()
      reads this
    {
      forall id | id in connections :: connections[id].Id() == id && connections[id].circuit.IsUser()
    }

    /**
     * Subscribes to the circuit tracker's events, then creates one connection for each user circuit
     * tracked now (mirror circuits are skipped), raising ConnectionOpened for each.
     */
    constructor(tracker: CircuitTracker)
      requires tracker.Valid()
      modifies tracker`openedHandlers, tracker`closedHandlers
      modifies tracker.byId.Values`uriHandlers, tracker.byId.Values`statusHandlers
      ensures circuitTracker == tracker
      ensures tracker.openedHandlers == old(tracker.openedHandlers) + multiset{this}
      ensures tracker.closedHandlers == old(tracker.closedHandlers) + multiset{this}
      ensures connections.Keys == UserIds(tracker.byId)
      ensures forall id | id in connections :: fresh(connections[id]) && connections[id].circuit == tracker.byId[id]
      ensures |events| == |connections|
      ensures forall j | 0 <= j < |events| ::
          Announces(events[j], connections)
      ensures forall c | c in old(tracker.byId.Values) && c.IsUser() ::
        && c.uriHandlers == old(c.uriHandlers) + multiset{connections[c.id]}
        && c.statusHandlers == old(c.statusHandlers) + multiset{connections[c.id]}
      ensures forall c | c in old(tracker.byId.Values) && !c.IsUser() ::
        c.uriHandlers == old(c.uriHandlers) && c.statusHandlers == old(c.statusHandlers)
      ensures Valid()
    {
      circuitTracker := tracker;
      connections := map[];
      events := [];
      new;
      tracker.openedHandlers := tracker.openedHandlers + multiset{this};
      tracker.closedHandlers := tracker.closedHandlers + multiset{this};
      Seed();
    }

    /** The constructor's loop over a snapshot of the tracked circuits, from no connection at all. */
    method Seed()
      requires circuitTracker.Valid() && connections == map[] && events == []
      modifies this`connections, this`events
      modifies circuitTracker.byId.Values`uriHandlers, circuitTracker.byId.Values`statusHandlers
      ensures connections.Keys == UserIds(circuitTracker.byId)
      ensures forall id | id in connections ::
        fresh(connections[id]) && connections[id].circuit == circuitTracker.byId[id]
      ensures |events| == |connections|
      ensures forall j | 0 <= j < |events| ::
          Announces(events[j], connections)
      ensures forall c | c in circuitTracker.byId.Values && c.IsUser() ::
        && c.uriHandlers == old(c.uriHandlers) + multiset{connections[c.id]}
        && c.statusHandlers == old(c.statusHandlers) + multiset{connections[c.id]}
      ensures forall c | c in circuitTracker.byId.Values && !c.IsUser() ::
        c.uriHandlers == old(c.uriHandlers) && c.statusHandlers == old(c.statusHandlers)
      ensures Valid()
    {
      var tracker := circuitTracker;
      var circuits := tracker.ListCircuits();
      forall c | c in circuits
        ensures c.id in tracker.byId && tracker.byId[c.id] == c
      {
        var id :| id in tracker.byId && tracker.byId[id] == c;
      }
      AddAll(circuits);
      forall id | id in UserIds(tracker.byId)
        ensures id in connections
      {
        assert tracker.byId[id] in tracker.byId.Values;
      }
    }

    /**
     * The constructor's loop, from the circuit `rest[0]` on: one connection per user circuit, subscribed
     * to it and announced with ConnectionOpened; the connections made before are kept.
     */
    method AddAll(rest: seq<Circuit>)
      requires forall i, j | 0 <= i < j < |rest| :: rest[i].id != rest[j].id
      requires forall c | c in rest :: c.id !in connections
      requires forall c | c in rest :: c.id in circuitTracker.byId && circuitTracker.byId[c.id] == c
      modifies this`connections, this`events
      modifies set c | c in rest`uriHandlers, set c | c in rest`statusHandlers
      decreases |rest|
      ensures forall id | id in old(connections) :: id in connections && connections[id] == old(connections[id])
      ensures forall id | id in connections && id !in old(connections) ::
        && fresh(connections[id]) && id in circuitTracker.byId && connections[id].circuit == circuitTracker.byId[id]
        && connections[id].Id() == id && connections[id].circuit.IsUser()
      ensures |events| == |old(events)| + |connections| - |old(connections)|
      ensures old(events) <= events
      ensures forall j | |old(events)| <= j < |events| :: Announces(events[j], connections)
      ensures forall c | c in rest && c.IsUser() ::
        && c.id in connections
        && c.uriHandlers == old(c.uriHandlers) + multiset{connections[c.id]}
        && c.statusHandlers == old(c.statusHandlers) + multiset{connections[c.id]}
      ensures forall c | c in rest && !c.IsUser() ::
        c.uriHandlers == old(c.uriHandlers) && c.statusHandlers == old(c.statusHandlers)
    {
      if rest == [] {
        return;
      }
      var circuit := rest[0];
      assert forall c | c in rest[1..] :: c != circuit && c.id != circuit.id;
      if circuit.IsUser() {
        Add(circuit);
      }
      AddAll(rest[1..]);
    }

    /** One step of the constructor's loop: a connection for a user circuit not yet connected. */
    method Add(circuit: Circuit)
      requires circuit.IsUser() && circuit.id !in connections
      modifies this`connections, this`events, circuit`uriHandlers, circuit`statusHandlers
      ensures circuit.id in connections
      ensures var connection := connections[circuit.id];
        && fresh(connection) && connection.circuit == circuit
        && connections == old(connections)[circuit.id := connection]
        && events == old(events) + [ConnectionOpened(connection)]
        && circuit.uriHandlers == old(circuit.uriHandlers) + multiset{connection}
        && circuit.statusHandlers == old(circuit.statusHandlers) + multiset{connection}
      ensures |connections| == |old(connections)| + 1
    {
      var connection := new Connection(circuit);
      connections := connections[circuit.id := connection];
      events := events + [ConnectionOpened(connection)];
    }

    /** The connection with this id, or None; nothing changes. */
    method GetConnection(id: string) returns (r: Option<Connection>)
      requires Valid()
      ensures r.Some? <==> id in connections
      ensures r.Some? ==> r.value == connections[id] && r.value.Id() == id
    {
      if id in connections {
        r := Some(connections[id]);
      } else {
        r := None;
      }
    }

    /** A snapshot of the tracked connections: every one exactly once. */
    method ListConnections() returns (r: seq<Connection>)
      requires Valid()
      ensures forall c :: c in r <==> c in connections.Values
      ensures |r| == |connections|
      ensures forall i, j | 0 <= i < j < |r| :: r[i] != r[j]
    {
      r := Snapshots.Values(connections);
    }

    /**
     * A circuit opened: nothing for a mirror circuit; for a user circuit whose id already has a
     * connection, an exception; otherwise one new connection, and ConnectionOpened raised once.
     */
    method OnCircuitOpened(circuit: Circuit) returns (err: Option<ConnectionError>)
      modifies this`connections, this`events, circuit`uriHandlers, circuit`statusHandlers
      ensures !circuit.IsUser() || circuit.id in old(connections) ==>
        && err == (if circuit.IsUser() then Some(ConnectionExists) else None)
        && connections == old(connections) && events == old(events)
        && circuit.uriHandlers == old(circuit.uriHandlers) && circuit.statusHandlers == old(circuit.statusHandlers)
      ensures circuit.IsUser() && circuit.id !in old(connections) ==> circuit.id in connections
      ensures circuit.IsUser() && circuit.id !in old(connections) ==>
        var connection := connections[circuit.id];
        && err == None && fresh(connection) && connection.circuit == circuit
        && connections == old(connections)[circuit.id := connection]
        && events == old(events) + [ConnectionOpened(connection)]
        && circuit.uriHandlers == old(circuit.uriHandlers) + multiset{connection}
        && circuit.statusHandlers == old(circuit.statusHandlers) + multiset{connection}
      ensures old(Valid()) ==> Valid()
    {
      if !circuit.IsUser() {
        return None;
      }
      if circuit.id in connections {
        return Some(ConnectionExists);
      }
      var connection := new Connection(circuit);
      connections := connections[circuit.id := connection];
      events := events + [ConnectionOpened(connection)];
      err := None;
    }

    /**
     * A circuit closed: nothing for a mirror circuit; for a user circuit without a connection, an
     * exception; otherwise its connection is removed and ConnectionClosed raised with it. The removed
     * connection is not disposed: its handlers stay subscribed to the circuit.
     */
    method OnCircuitClosed(circuit: Circuit) returns (err: Option<ConnectionError>)
      modifies this`connections, this`events
      ensures !circuit.IsUser() || circuit.id !in old(connections) ==>
        && err == (if circuit.IsUser() then Some(NoSuchConnection) else None)
        && connections == old(connections) && events == old(events)
      ensures circuit.IsUser() && circuit.id in old(connections) ==>
        && err == None
        && connections == old(connections) - {circuit.id}
        && events == old(events) + [ConnectionClosed(old(connections)[circuit.id])]
      ensures old(Valid()) ==> Valid()
    {
      if !circuit.IsUser() {
        return None;
      }
      if circuit.id !in connections {
        return Some(NoSuchConnection);
      }
      var connection := connections[circuit.id];
      connections := connections - {circuit.id};
      events := events + [ConnectionClosed(connection)];
      err := None;
    }
  }
}
