/**
 * A circuit: one SignalR connection with a browser tab (CircuitBase), with its four-state status,
 * the setters that move it and the CircuitStatusChanged event they raise.
 *
 * The renderer-bound parts of a user circuit (its current Uri, its component states, the map from
 * server-rendered component ids to interactive ones) come from Blazor internals; they are fields here
 * that the host sets, read by connections, mirror components and the circuit-factory patch.
 *
 * An event is modelled by its subscribers (a multiset of subscriber objects, as `+=` and `-=` add and
 * remove one delegate) and by a log of the times it was raised; delivering a raised event to its
 * subscribers is not modelled.
 */
module Circuits {
  import opened Wrappers
  import opened Frames

  datatype CircuitStatus =
    | Open    // the SignalR connection has been established
    | Up      // the components have been initialised
    | Down    // the connection has been lost and can still be reconnected
    | Closed  // the connection has been closed for good

  /**
   * A component's state as a mirror reads it: the type of its component and the frames a mirror is
   * handed, which are the whole backing array of its current render tree's frame buffer: the render
   * tree itself, followed by the buffer's unused slots, which hold default (None) frames.
   */
  datatype ComponentState = ComponentState(componentType: ComponentType, frames: seq<Frame>)

  /** The circuit Blazor hands over when a connection opens: its id, its renderer and its location. */
  datatype HostCircuit = HostCircuit(id: string, renderer: nat, uri: string)

  /** What a status setter does: the status it leaves, and whether it raised CircuitStatusChanged. */
  datatype StatusChange = StatusChange(status: CircuitStatus, raised: bool)

  /**
   * Setting the status to `target`: a no-op when the circuit is already there, otherwise the status
   * becomes `target` and the change event fires once. There is no ordering between statuses.
   */
  function SetStatus(current: CircuitStatus, target: CircuitStatus): (r: StatusChange)
    ensures r.status == target
    ensures r.raised <==> current != target
  {
    if current == target then StatusChange(current, false) else StatusChange(target, true)
  }

  /**
   * The change log of a circuit whose status is `status`: one entry per raised event, the status the
   * circuit entered. It starts from Open, so no entry is Open's first; consecutive entries differ
   * (an event marks a real change), and the last entry is the current status.
   */
  predicate ChangeLog(log: seq<CircuitStatus>, status: CircuitStatus)
  {
    && (log == [] ==> status == Open)
    && (log != [] ==> log[0] != Open && log[|log| - 1] == status)
    && (forall i | 0 < i < |log| :: log[i - 1] != log[i])
  }

  /** The change log after a setter: one more entry, the new status, when it raised the event. */
  function Logged(log: seq<CircuitStatus>, change: StatusChange): seq<CircuitStatus>
  {
    if change.raised then log + [change.status] else log
  }

  /** A setter keeps the change log in step with the status. */
  lemma LoggedChange(log: seq<CircuitStatus>, status: CircuitStatus, target: CircuitStatus)
    requires ChangeLog(log, status)
    ensures ChangeLog(Logged(log, SetStatus(status, target)), target)
  {
    var next := Logged(log, SetStatus(status, target));
    if status != target {
      assert next == log + [target];
      forall i | 0 < i < |next|
        ensures next[i - 1] != next[i]
      {
        if i == |log| {
          assert log == [] || next[i - 1] == status;
        } else {
          assert next[i - 1] == log[i - 1] && next[i] == log[i];
        }
      }
    }
  }

  class Circuit {
    /** The circuit's id, fixed at construction. */
    const id: string
    /** The circuit's renderer, as the tracker's second index knows it. */
    const renderer: nat
    /** For a mirror circuit, the user circuit it mirrors; None for a user circuit. */
    const source: Option<Circuit>

    var openedAt: int
    var status: CircuitStatus
    /** One entry per CircuitStatusChanged raised: the status the circuit entered. */
    var statusChanges: seq<CircuitStatus>
    var statusHandlers: multiset<object>

    // What a user circuit reads from its circuit host.
    var uri: string
    var uriHandlers: multiset<object>
    var rerenderHandlers: multiset<object>
    var componentStates: map<int, ComponentState>
    /** Server-rendered root component id to the id of its interactive component. */
    var interactiveIds: map<int, int>

    // What the root mirror component reads from a mirror circuit.
    var blockReason: Option<string>
    var blockedHandlers: multiset<object>

    constructor(host: HostCircuit, source: Option<Circuit>, openedAt: int)
      ensures id == host.id && renderer == host.renderer && uri == host.uri
      ensures this.source == source && this.openedAt == openedAt
      ensures status == Open && statusChanges == []
      ensures statusHandlers == multiset{} && uriHandlers == multiset{} && rerenderHandlers == multiset{}
      ensures blockedHandlers == multiset{} && blockReason == None
      ensures componentStates == map[] && interactiveIds == map[]
      ensures Valid()
    {
      id := host.id;
      renderer := host.renderer;
      this.source := source;
      this.openedAt := openedAt;
      status := Open;
      statusChanges := [];
      statusHandlers := multiset{};
      uri := host.uri;
      uriHandlers := multiset{};
      rerenderHandlers := multiset{};
      componentStates := map[];
      interactiveIds := map[];
      blockReason := None;
      blockedHandlers := multiset{};
    }

    predicate IsUser()
    {
      source.None?
    }

    /** The change log matches the status. */
    predicate Valid()
      reads this
    {
      ChangeLog(statusChanges, status)
    }

    /** Sets the status to Up, raising CircuitStatusChanged unless it already was Up. */
    method SetUp()
      modifies this`status, this`statusChanges
      ensures status == Up
      ensures statusChanges == Logged(old(statusChanges), SetStatus(old(status), Up))
      ensures old(Valid()) ==> Valid()
    {
      Set(Up);
    }

    /** Sets the status to Down, raising CircuitStatusChanged unless it already was Down. */
    method SetDown()
      modifies this`status, this`statusChanges
      ensures status == Down
      ensures statusChanges == Logged(old(statusChanges), SetStatus(old(status), Down))
      ensures old(Valid()) ==> Valid()
    {
      Set(Down);
    }

    /** Sets the status to Closed, raising CircuitStatusChanged unless it already was Closed. */
    method SetClosed()
      modifies this`status, this`statusChanges
      ensures status == Closed
      ensures statusChanges == Logged(old(statusChanges), SetStatus(old(status), Closed))
      ensures old(Valid()) ==> Valid()
    {
      Set(Closed);
    }

    /** The body the three setters share. */
    method Set(target: CircuitStatus)
      modifies this`status, this`statusChanges
      ensures status == target
      ensures statusChanges == Logged(old(statusChanges), SetStatus(old(status), target))
      ensures old(Valid()) ==> Valid()
    {
      if old(Valid()) {
        LoggedChange(statusChanges, status, target);
      }
      if status == target {
        return;
      }
      status := target;
      statusChanges := statusChanges + [target];
    }
  }
}
