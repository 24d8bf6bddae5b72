/**
 * RootMirrorComponent: the root component of a mirror circuit. It renders either a status message
 * or one MirrorComponent for the mirrored root component, with an optional overlay that keeps the
 * viewer from interacting with the mirror.
 *
 * The render handle is modelled by whether it is attached, the renders it was handed (each a frame
 * list) and the number of renders scheduled on its dispatcher. Running a scheduled render is a later
 * call to Render.
 */
module RootMirror {
  import opened Wrappers
  import opened Frames
  import opened TranslatorBase
  import opened Circuits
  import opened Options

  const STARTING_MESSAGE: string := "Target connection is starting..."
  const RECONNECTING_MESSAGE: string := "Target connection is reconnecting..."
  const CLOSED_MESSAGE: string := "Target connection is closed."

  /** The overlay div's style: a fixed box over the whole viewport, above everything else. */
  const OVERLAY_STYLE: string := "position: fixed;\nleft: 0px;\nright: 0px;\ntop: 0px;\nbottom: 0px;\nz-index: 1000000;"

  /** The exceptions the component throws. */
  datatype RootError =
    | AlreadyInitialized     // Initialize called twice
    | NotInitialized         // an event arrived before Initialize
    | CircuitMismatch        // an event arrived from a circuit other than the one subscribed to
    | NoSuchWebRootComponent // the source circuit has no web root component with the server-rendered id

  /** The parameters Initialize stores. */
  datatype Parameters = Parameters(mirrorCircuit: Circuit, ssrComponentId: int, debugView: bool)

  /** What a render shows: a message, or a mirror of the source circuit's component. */
  datatype View =
    | Message(text: string)
    | MirrorView(sourceId: string, componentId: int, debugView: bool)

  /** The message for a source circuit that is not up. */
  function StatusMessage(status: CircuitStatus): (r: string)
    requires status != Up
    ensures r == STARTING_MESSAGE <==> status == Open
    ensures r == RECONNECTING_MESSAGE <==> status == Down
    ensures r == CLOSED_MESSAGE <==> status == Closed
  {
    match status
    case Open => STARTING_MESSAGE
    case Down => RECONNECTING_MESSAGE
    case Closed => CLOSED_MESSAGE
  }

  /**
   * The view Render selects. A blocked mirror circuit shows its block reason whatever the source is
   * doing; otherwise the source's status selects a message, except that an up source is mirrored,
   * its server-rendered root component id resolved to the interactive component's id (an id the
   * source does not know is an error).
   */
  function SelectView(blockReason: Option<string>, sourceStatus: CircuitStatus, sourceId: string,
                      interactiveIds: map<int, int>, ssrComponentId: int, debugView: bool): (r: Result<View, RootError>)
    ensures blockReason.Some? ==> r == Ok(Message(blockReason.value))
    ensures blockReason.None? && sourceStatus != Up ==> r == Ok(Message(StatusMessage(sourceStatus)))
    ensures r.Err? <==> blockReason.None? && sourceStatus == Up && ssrComponentId !in interactiveIds
    ensures r.Err? ==> r.error == NoSuchWebRootComponent
    ensures r.Ok? && r.value.MirrorView? <==> blockReason.None? && sourceStatus == Up && ssrComponentId in interactiveIds
    ensures r.Ok? && r.value.MirrorView? ==> r.value == MirrorView(sourceId, interactiveIds[ssrComponentId], debugView)
  {
    if blockReason.Some? then Ok(Message(blockReason.value))
    else
      match sourceStatus
      case Open => Ok(Message(STARTING_MESSAGE))
      case Up =>
        if ssrComponentId in interactiveIds then Ok(MirrorView(sourceId, interactiveIds[ssrComponentId], debugView))
        else Err(NoSuchWebRootComponent)
      case Down => Ok(Message(RECONNECTING_MESSAGE))
      case Closed => Ok(Message(CLOSED_MESSAGE))
  }

  /** Whether the overlay div is rendered over a mirror. */
  predicate HasOverlay(view: View, useScreenOverlay: bool)
  {
    view.MirrorView? && useScreenOverlay && !view.debugView
  }

  /** The overlay: a div with the overlay style. */
  function Overlay(): seq<Frame>
  {
    [Div(4, 2), Attr(5, "style", Str(OVERLAY_STYLE))]
  }

  /** The frames of a view: one text frame for a message; the mirror block, then the overlay if any. */
  function ViewFrames(view: View, useScreenOverlay: bool): seq<Frame>
  {
    match view
    case Message(text) => [Text(0, Literal(text))]
    case MirrorView(sourceId, componentId, debugView) =>
      MirrorBlock(0, Null, sourceId, componentId, debugView)
        + (if HasOverlay(view, useScreenOverlay) then Overlay() else [])
  }

  /** The three status messages tell the three statuses apart. */
  lemma StatusMessagesDistinct(s1: CircuitStatus, s2: CircuitStatus)
    requires s1 != Up && s2 != Up
    ensures StatusMessage(s1) == StatusMessage(s2) <==> s1 == s2
  {
    assert STARTING_MESSAGE[7] == 'c' && RECONNECTING_MESSAGE[7] == 'c' && CLOSED_MESSAGE[7] == 'c';
    assert STARTING_MESSAGE[|STARTING_MESSAGE| - 1] == '.' && RECONNECTING_MESSAGE[|RECONNECTING_MESSAGE| - 1] == '.';
    assert |STARTING_MESSAGE| == 32 && |RECONNECTING_MESSAGE| == 36 && |CLOSED_MESSAGE| == 28;
  }

  /** A block overrides the source: what a blocked mirror shows depends on nothing else. */
  lemma BlockedOverrides(blockReason: string, status1: CircuitStatus, status2: CircuitStatus,
                         id1: string, id2: string, ids1: map<int, int>, ids2: map<int, int>,
                         ssr1: int, ssr2: int, debug1: bool, debug2: bool)
    ensures SelectView(Some(blockReason), status1, id1, ids1, ssr1, debug1)
         == SelectView(Some(blockReason), status2, id2, ids2, ssr2, debug2)
  {
  }

  /**
   * What a view renders: a list of well-formed sibling subtrees. A message is one text frame with
   * the message; a mirror is first the four-frame MirrorComponent block with the source circuit's id,
   * the component id and the debug flag, then the two-frame overlay exactly when the screen overlay
   * is on and this is not a debug view.
   */
  lemma {:induction false} ViewFramesShape(view: View, useScreenOverlay: bool)
    ensures Siblings(ViewFrames(view, useScreenOverlay))
    ensures view.Message? ==> ViewFrames(view, useScreenOverlay) == [Text(0, Literal(view.text))]
    ensures view.MirrorView? ==>
      var fs := ViewFrames(view, useScreenOverlay);
      && |fs| >= 4
      && fs[..4] == MirrorBlock(0, Null, view.sourceId, view.componentId, view.debugView)
      && (|fs| == 6 <==> HasOverlay(view, useScreenOverlay))
      && (|fs| == 4 <==> !HasOverlay(view, useScreenOverlay))
      && (HasOverlay(view, useScreenOverlay) ==> fs[4..] == Overlay())
  {
    var fs := ViewFrames(view, useScreenOverlay);
    match view
    case Message(text) =>
      assert fs[..1] == fs && fs[1..] == [];
    case MirrorView(sourceId, componentId, debugView) =>
      var block := MirrorBlock(0, Null, sourceId, componentId, debugView);
      MirrorBlockShape(0, Null, sourceId, componentId, debugView);
      if HasOverlay(view, useScreenOverlay) {
        var attributes := [Attr(5, "style", Str(OVERLAY_STYLE))];
        ElementItem(Div(4, 2), attributes, []);
        assert [Div(4, 2)] + attributes + [] == Overlay();
        SiblingsCons(Overlay(), []);
        assert Overlay() + [] == Overlay();
        SiblingsAppend(block, Overlay());
        assert fs[..4] == block;
      } else {
        assert fs == block;
      }
  }

  /** The mirror circuit Initialize subscribed to, as the set a method may modify. */
  function MirrorOf(parameters: Option<Parameters>): set<Circuit>
  {
    if parameters.Some? then {parameters.value.mirrorCircuit} else {}
  }

  /** The source circuit Initialize subscribed to, as the set a method may modify. */
  function SourceOf(parameters: Option<Parameters>): set<Circuit>
  {
    if parameters.Some? && parameters.value.mirrorCircuit.source.Some? then {parameters.value.mirrorCircuit.source.value} else {}
  }

  class RootMirrorComponent {
    const options: LiveViewOptions
    /** Whether the render handle has been attached (RenderHandle.IsInitialized). */
    var attached: bool
    var parameters: Option<Parameters>
    /** Every frame list handed to the render handle, in order. */
    var renders: seq<seq<Frame>>
    /** The number of renders scheduled on the render handle's dispatcher. */
    var dispatched: nat

    constructor(options: LiveViewOptions)
      ensures this.options == options
      ensures !attached && parameters == None && renders == [] && dispatched == 0
      ensures Valid()
    {
      this.options := options;
      attached := false;
      parameters := None;
      renders := [];
      dispatched := 0;
    }

    /** The stored mirror circuit is a mirror circuit: it has a source. */
    predicate Valid()
      reads this
    {
      parameters.Some? ==> parameters.value.mirrorCircuit.source.Some?
    }

    method Attach()
      modifies this`attached
      ensures attached
    {
      attached := true;
    }

    /**
     * Stores the parameters and subscribes to the mirror circuit's block event and to the source
     * circuit's status event; a second call throws and changes nothing.
     */
    method Initialize(mirrorCircuit: Circuit, ssrComponentId: int, debugView: bool) returns (err: Option<RootError>)
      requires mirrorCircuit.source.Some?
      modifies this`parameters, mirrorCircuit`blockedHandlers, mirrorCircuit.source.value`statusHandlers
      ensures old(parameters).Some? ==>
        && err == Some(AlreadyInitialized) && parameters == old(parameters)
        && mirrorCircuit.blockedHandlers == old(mirrorCircuit.blockedHandlers)
        && mirrorCircuit.source.value.statusHandlers == old(mirrorCircuit.source.value.statusHandlers)
      ensures old(parameters).None? ==>
        && err == None && parameters == Some(Parameters(mirrorCircuit, ssrComponentId, debugView))
        && mirrorCircuit.blockedHandlers == old(mirrorCircuit.blockedHandlers) + multiset{this}
        && mirrorCircuit.source.value.statusHandlers == old(mirrorCircuit.source.value.statusHandlers) + multiset{this}
      ensures old(Valid()) ==> Valid()
    {
      if parameters.Some? {
        return Some(AlreadyInitialized);
      }
      parameters := Some(Parameters(mirrorCircuit, ssrComponentId, debugView));
      mirrorCircuit.blockedHandlers := mirrorCircuit.blockedHandlers + multiset{this};
      var source := mirrorCircuit.source.value;
      source.statusHandlers := source.statusHandlers + multiset{this};
      err := None;
    }

    /** Unsubscribes both handlers and forgets the parameters; disposing again does nothing. */
    method Dispose()
      requires Valid()
      modifies this`parameters, MirrorOf(parameters)`blockedHandlers, SourceOf(parameters)`statusHandlers
      ensures parameters == None && Valid()
      ensures old(parameters).Some? ==>
        var mirror := old(parameters).value.mirrorCircuit;
        && mirror.blockedHandlers == old(mirror.blockedHandlers) - multiset{this}
        && mirror.source.value.statusHandlers == old(mirror.source.value.statusHandlers) - multiset{this}
    {
      if parameters.Some? {
        var mirror := parameters.value.mirrorCircuit;
        mirror.blockedHandlers := mirror.blockedHandlers - multiset{this};
        var source := mirror.source.value;
        source.statusHandlers := source.statusHandlers - multiset{this};
        parameters := None;
      }
    }

    /** The mirror circuit was blocked: schedules a render, after checking it is the subscribed circuit. */
    method OnMirrorCircuitBlocked(circuit: Circuit) returns (err: Option<RootError>)
      modifies this`dispatched
      ensures parameters.None? ==> err == Some(NotInitialized) && dispatched == old(dispatched)
      ensures parameters.Some? && parameters.value.mirrorCircuit.id != circuit.id ==>
        err == Some(CircuitMismatch) && dispatched == old(dispatched)
      ensures parameters.Some? && parameters.value.mirrorCircuit.id == circuit.id ==>
        err == None && dispatched == old(dispatched) + 1
    {
      if parameters.None? {
        return Some(NotInitialized);
      }
      if parameters.value.mirrorCircuit.id != circuit.id {
        return Some(CircuitMismatch);
      }
      dispatched := dispatched + 1;
      err := None;
    }

    /** The source circuit's status changed: schedules a render, after checking it is the source. */
    method OnSourceCircuitStatusChanged(circuit: Circuit) returns (err: Option<RootError>)
      requires Valid()
      modifies this`dispatched
      ensures parameters.None? ==> err == Some(NotInitialized) && dispatched == old(dispatched)
      ensures parameters.Some? && parameters.value.mirrorCircuit.source.value.id != circuit.id ==>
        err == Some(CircuitMismatch) && dispatched == old(dispatched)
      ensures parameters.Some? && parameters.value.mirrorCircuit.source.value.id == circuit.id ==>
        err == None && dispatched == old(dispatched) + 1
    {
      if parameters.None? {
        return Some(NotInitialized);
      }
      if parameters.value.mirrorCircuit.source.value.id != circuit.id {
        return Some(CircuitMismatch);
      }
      dispatched := dispatched + 1;
      err := None;
    }

    /** The view for the current state of the mirror circuit and its source. */
    function CurrentView(): Result<View, RootError>
      requires Valid() && parameters.Some?
      reads this, MirrorOf(parameters), SourceOf(parameters)
    {
      var p := parameters.value;
      var source := p.mirrorCircuit.source.value;
      SelectView(p.mirrorCircuit.blockReason, source.status, source.id, source.interactiveIds, p.ssrComponentId, p.debugView)
    }

    /** Blazor's SetParametersAsync: the parameters come from Initialize, so it only renders. */
    method SetParametersAsync() returns (err: Option<RootError>)
      requires Valid()
      modifies this`renders
      ensures !attached || parameters.None? ==> err == None && renders == old(renders)
      ensures attached && parameters.Some? && CurrentView().Ok? ==>
        err == None && renders == old(renders) + [ViewFrames(CurrentView().value, options.useScreenOverlay)]
      ensures attached && parameters.Some? && CurrentView().Err? ==>
        err == Some(CurrentView().error) && renders == old(renders)
    {
      err := Render();
    }

    /**
     * Renders nothing while unattached or uninitialised; otherwise hands the render handle the frames
     * of the selected view, or throws when the source does not know the root component.
     */
    method Render() returns (err: Option<RootError>)
      requires Valid()
      modifies this`renders
      ensures !attached || parameters.None? ==> err == None && renders == old(renders)
      ensures attached && parameters.Some? && CurrentView().Ok? ==>
        err == None && renders == old(renders) + [ViewFrames(CurrentView().value, options.useScreenOverlay)]
      ensures attached && parameters.Some? && CurrentView().Err? ==>
        err == Some(CurrentView().error) && renders == old(renders)
    {
      if !attached || parameters.None? {
        return None;
      }
      var p := parameters.value;
      if p.mirrorCircuit.blockReason.Some? {
        RenderMessage(p.mirrorCircuit.blockReason.value);
        return None;
      }
      var source := p.mirrorCircuit.source.value;
      err := None;
      match source.status
      case Open =>
        RenderMessage(STARTING_MESSAGE);
      case Up =>
        if p.ssrComponentId !in source.interactiveIds {
          return Some(NoSuchWebRootComponent);
        }
        RenderMirrorComponent(source.id, source.interactiveIds[p.ssrComponentId], p.debugView);
      case Down =>
        RenderMessage(RECONNECTING_MESSAGE);
      case Closed =>
        RenderMessage(CLOSED_MESSAGE);
    }

    /** Renders the MirrorComponent, then the overlay div when the screen overlay is on and this is not a debug view. */
    method RenderMirrorComponent(sourceId: string, sourceComponentId: int, debugView: bool)
      modifies this`renders
      ensures renders == old(renders) + [ViewFrames(MirrorView(sourceId, sourceComponentId, debugView), options.useScreenOverlay)]
    {
      var builder := new FrameList();
      AddMirrorComponent(builder, 0, Null, sourceId, sourceComponentId, debugView);
      var block := MirrorBlock(0, Null, sourceId, sourceComponentId, debugView);
      assert builder.frames == block;
      if options.useScreenOverlay && !debugView {
        var overlay := SubtreeLengthCapture.Open(builder, ElementHeader(4, "div", Null));
        builder.Add(Attr(5, "style", Str(OVERLAY_STYLE)));
        var e := overlay.Dispose();
        assert e == None;
        BackFilled(block, [Attr(5, "style", Str(OVERLAY_STYLE))], Div(4, 2));
        assert builder.frames == block + Overlay();
      } else {
        assert block + [] == block;
      }
      assert builder.frames == ViewFrames(MirrorView(sourceId, sourceComponentId, debugView), options.useScreenOverlay);
      renders := renders + [builder.frames];
    }

    /** Renders one text frame with the message. */
    method RenderMessage(message: string)
      modifies this`renders
      ensures renders == old(renders) + [ViewFrames(Message(message), options.useScreenOverlay)]
    {
      var builder := new FrameList();
      builder.Add(Text(0, Literal(message)));
      assert builder.frames == [Text(0, Literal(message))];
      renders := renders + [builder.frames];
    }
  }
}
