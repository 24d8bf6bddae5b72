/**
 * CircuitTracker: every open circuit, indexed by id and by renderer, plus the mirror circuits that
 * have been created but not opened yet (pending id to the user circuit they will mirror). Opening a
 * circuit consumes its pending entry, closing one removes it from both indices, and both raise an event.
 *
 * The tracker's lock is left out: its operations are modelled one after another.
 */
module CircuitTracking {
  import opened Wrappers
  import opened Circuits
  import Snapshots

  /** The exceptions the tracker throws. */
  datatype TrackerError =
    | AlreadyTracked  // InvalidOperationException: a circuit with this id is already tracked
    | NotTracked      // InvalidOperationException: no circuit with this id is tracked
    | DuplicateKey    // ArgumentException from Dictionary.Add: the key is already present

  /** The tracker's two events, with the circuit they carry. */
  datatype TrackerEvent = CircuitOpenedEvent(circuit: Circuit) | CircuitClosedEvent(circuit: Circuit)

  /** The tracked circuit with this id, if any, as the set a method may modify. */
  function Tracked(byId: map<string, Circuit>, id: string): set<Circuit>
  {
    if id in byId then {byId[id]} else {}
  }

  class CircuitTracker {
    var byId: map<string, Circuit>
    var byRenderer: map<nat, Circuit>
    /** Mirror circuits created but not opened: the mirror's id to its source user circuit. */
    var pending: map<string, Circuit>
    /** Every CircuitOpenedEvent and CircuitClosedEvent raised, in order. */
    var events: seq<TrackerEvent>
    var openedHandlers: multiset<object>
    var closedHandlers: multiset<object>

    constructor()
      ensures byId == map[] && byRenderer == map[] && pending == map[] && events == []
      ensures openedHandlers == multiset{} && closedHandlers == multiset{}
      ensures Valid()
    {
      byId := map[];
      byRenderer := map[];
      pending := map[];
      events := [];
      openedHandlers := multiset{};
      closedHandlers := multiset{};
    }

    /**
     * Each index maps a key to a circuit with that key, a pending mirror's source is a user circuit,
     * and so is the source of every tracked mirror circuit.
     */
    ghost predicate Valid()
      reads this
    {
      && (forall id | id in byId :: byId[id].id == id)
      && (forall r | r in byRenderer :: byRenderer[r].renderer == r)
      && (forall id | id in pending :: pending[id].IsUser())
      && (forall id | id in byId :: byId[id].source.Some? ==> byId[id].source.value.IsUser())
    }

    /** The circuit with this id, or None; nothing changes. */
    method GetCircuit(id: string) returns (r: Option<Circuit>)
      requires Valid()
      ensures r.Some? <==> id in byId
      ensures r.Some? ==> r.value == byId[id] && r.value.id == id
    {
      if id in byId {
        r := Some(byId[id]);
      } else {
        r := None;
      }
    }

    /** The circuit rendered by this renderer, or None; nothing changes. */
    method GetCircuitByRenderer(renderer: nat) returns (r: Option<Circuit>)
      requires Valid()
      ensures r.Some? <==> renderer in byRenderer
      ensures r.Some? ==> r.value == byRenderer[renderer] && r.value.renderer == renderer
    {
      if renderer in byRenderer {
        r := Some(byRenderer[renderer]);
      } else {
        r := None;
      }
    }

    /** A snapshot of the id index: every tracked circuit exactly once. */
    method ListCircuits() returns (r: seq<Circuit>)
      requires Valid()
      ensures forall c :: c in r <==> c in byId.Values
      ensures |r| == |byId|
      ensures forall i, j | 0 <= i < j < |r| :: r[i] != r[j]
    {
      r := Snapshots.Values(byId);
    }

    /** Records that the circuit with `mirrorId`, once it opens, mirrors `source`. */
    method MirrorCircuitCreated(mirrorId: string, source: Circuit) returns (err: Option<TrackerError>)
      requires source.IsUser()
      modifies this`pending
      ensures mirrorId in old(pending) ==> err == Some(DuplicateKey) && pending == old(pending)
      ensures mirrorId !in old(pending) ==> err == None && pending == old(pending)[mirrorId := source]
      ensures old(Valid()) ==> Valid()
    {
      if mirrorId in pending {
        return Some(DuplicateKey);
      }
      pending := pending[mirrorId := source];
      err := None;
    }

    /**
     * A circuit opened: a mirror circuit if its id was pending (the entry is consumed), else a user
     * circuit; it enters the id index, then the renderer index, and the opened event is raised.
     */
    method CircuitOpened(host: HostCircuit, openedAt: int) returns (err: Option<TrackerError>)
      modifies this`byId, this`byRenderer, this`pending, this`events
      ensures host.id in old(byId) ==>
        && err == Some(AlreadyTracked)
        && byId == old(byId) && byRenderer == old(byRenderer) && pending == old(pending) && events == old(events)
      ensures host.id !in old(byId) ==> host.id in byId
      ensures host.id !in old(byId) ==>
        var c := byId[host.id];
        && byId == old(byId)[host.id := c]
        && fresh(c) && c.id == host.id && c.renderer == host.renderer && c.uri == host.uri
        && c.status == Open && c.statusChanges == [] && c.Valid()
        && c.source == (if host.id in old(pending) then Some(old(pending)[host.id]) else None)
        && pending == old(pending) - {host.id}
        && (host.renderer in old(byRenderer) ==>
              err == Some(DuplicateKey) && byRenderer == old(byRenderer) && events == old(events))
        && (host.renderer !in old(byRenderer) ==>
              && err == None && byRenderer == old(byRenderer)[host.renderer := c]
              && events == old(events) + [CircuitOpenedEvent(c)])
      ensures old(Valid()) ==> Valid()
    {
      if host.id in byId {
        return Some(AlreadyTracked);
      }
      var circuit: Circuit;
      if host.id in pending {
        var source := pending[host.id];
        pending := pending - {host.id};
        circuit := new Circuit(host, Some(source), openedAt);
      } else {
        circuit := new Circuit(host, None, openedAt);
      }
      byId := byId[host.id := circuit];
      if host.renderer in byRenderer {
        return Some(DuplicateKey);
      }
      byRenderer := byRenderer[host.renderer := circuit];
      events := events + [CircuitOpenedEvent(circuit)];
      err := None;
    }

    /** A tracked circuit is up (again): its status becomes Up; the indices do not change. */
    method CircuitUp(host: HostCircuit) returns (err: Option<TrackerError>)
      modifies Tracked(byId, host.id)`status, Tracked(byId, host.id)`statusChanges
      ensures host.id !in byId ==> err == Some(NotTracked)
      ensures host.id in byId ==>
        var c := byId[host.id];
        && err == None && c.status == Up
        && c.statusChanges == old(Logged(c.statusChanges, SetStatus(c.status, Up)))
        && (old(c.Valid()) ==> c.Valid())
    {
      if host.id !in byId {
        return Some(NotTracked);
      }
      byId[host.id].SetUp();
      err := None;
    }

    /** A tracked circuit is down: its status becomes Down; the indices do not change. */
    method CircuitDown(host: HostCircuit) returns (err: Option<TrackerError>)
      modifies Tracked(byId, host.id)`status, Tracked(byId, host.id)`statusChanges
      ensures host.id !in byId ==> err == Some(NotTracked)
      ensures host.id in byId ==>
        var c := byId[host.id];
        && err == None && c.status == Down
        && c.statusChanges == old(Logged(c.statusChanges, SetStatus(c.status, Down)))
        && (old(c.Valid()) ==> c.Valid())
    {
      if host.id !in byId {
        return Some(NotTracked);
      }
      byId[host.id].SetDown();
      err := None;
    }

    /**
     * A tracked circuit closed: it leaves the id index, it is set Closed, the renderer of the closing
     * circuit leaves the renderer index, and the closed event is raised with the circuit.
     */
    method CircuitClosed(host: HostCircuit) returns (err: Option<TrackerError>)
      modifies this`byId, this`byRenderer, this`events
      modifies Tracked(byId, host.id)`status, Tracked(byId, host.id)`statusChanges
      ensures host.id !in old(byId) ==>
        err == Some(NotTracked) && byId == old(byId) && byRenderer == old(byRenderer) && events == old(events)
      ensures host.id in old(byId) ==>
        var c := old(byId[host.id]);
        && err == None
        && byId == old(byId) - {host.id} && byRenderer == old(byRenderer) - {host.renderer}
        && c.status == Closed && c.statusChanges == old(Logged(c.statusChanges, SetStatus(c.status, Closed)))
        && (old(c.Valid()) ==> c.Valid())
        && events == old(events) + [CircuitClosedEvent(c)]
      ensures host.id in old(byId) && old(Valid()) && host.renderer == old(byId[host.id]).renderer ==>
        old(byId[host.id]) !in byId.Values && old(byId[host.id]) !in byRenderer.Values
      ensures old(Valid()) ==> Valid()
    {
      if host.id !in byId {
        return Some(NotTracked);
      }
      var circuit := byId[host.id];
      byId := byId - {host.id};
      circuit.SetClosed();
      byRenderer := byRenderer - {host.renderer};
      events := events + [CircuitClosedEvent(circuit)];
      err := None;
    }
  }
}
