/**
 * MirrorComponent: clones the current render tree of one component of a user circuit, translated
 * by the live translator (or listed by the debug translator), and re-renders whenever the user
 * circuit reports that component rerendered.
 *
 * The render handle is modelled by the frame lists it was handed and the number of renders scheduled
 * on its dispatcher; trace logging is left out.
 */
module MirrorComponents {
  import opened Wrappers
  import opened Frames
  import opened TranslatorBase
  import opened Circuits
  import opened CircuitTracking
  import opened MirrorTranslation
  import opened DebugTranslation
  import MirrorTranslationProperties
  import DebugTranslationProperties

  /** ComponentId's default, which marks it as not given. */
  const NO_COMPONENT_ID: int := -1

  /** The exceptions the component throws. */
  datatype MirrorError =
    | MissingCircuitId             // CircuitId is empty
    | MissingComponentId           // ComponentId is still -1
    | CircuitNotFound              // no tracked circuit has CircuitId
    | NotAUserCircuit              // the circuit is a mirror circuit
    | CircuitIdMismatch            // a rerender arrived from another circuit
    | TranslationFailed(error: TranslationError)

  /** The parameters a parent passes: each of the three may be absent. */
  datatype ParameterView = ParameterView(circuitId: Option<string>, componentId: Option<int>, debugView: Option<bool>)

  /**
   * SetParametersAsync's checks, in order: a circuit id and a component id are given, and the
   * circuit is tracked and is a user circuit; the result is that circuit.
   */
  function Validate(byId: map<string, Circuit>, circuitId: string, componentId: int): (r: Result<Circuit, MirrorError>)
    ensures r.Ok? <==>
      circuitId != "" && componentId != NO_COMPONENT_ID && circuitId in byId && byId[circuitId].IsUser()
    ensures r.Ok? ==> r.value == byId[circuitId]
    ensures circuitId == "" ==> r == Err(MissingCircuitId)
    ensures circuitId != "" && componentId == NO_COMPONENT_ID ==> r == Err(MissingComponentId)
    ensures r.Err? ==> r.error != CircuitIdMismatch && !r.error.TranslationFailed?
  {
    if circuitId == "" then Err(MissingCircuitId)
    else if componentId == NO_COMPONENT_ID then Err(MissingComponentId)
    else if circuitId !in byId then Err(CircuitNotFound)
    else if !byId[circuitId].IsUser() then Err(NotAUserCircuit)
    else Ok(byId[circuitId])
  }

  /** The translation BuildView makes: the debug listing for a debug view, the live mirror otherwise. */
  function Translated(state: ComponentState, circuitId: string, componentId: int, debugView: bool): Result<seq<Frame>, TranslationError>
  {
    if debugView then DebugTranslate(state.frames, circuitId, state.componentType, componentId)
    else Translate(state.frames, circuitId)
  }

  /**
   * What Render hands the render handle: the circuit must still be tracked and be a user circuit;
   * a component it does not know renders an empty tree, any other its translated render tree.
   */
  function ExpectedRender(byId: map<string, Circuit>, circuitId: string, componentId: int, debugView: bool): Result<seq<Frame>, MirrorError>
    reads byId.Values
  {
    if circuitId !in byId then Err(CircuitNotFound)
    else
      var circuit := byId[circuitId];
      if !circuit.IsUser() then Err(NotAUserCircuit)
      else if componentId !in circuit.componentStates then Ok([])
      else
        match Translated(circuit.componentStates[componentId], circuitId, componentId, debugView)
        case Ok(view) => Ok(view)
        case Err(e) => Err(TranslationFailed(e))
  }

  /**
   * After the parameters passed validation, a render can fail only in translation, and not at all
   * when the component's render tree is well formed; what it renders is a well-formed list of
   * sibling subtrees, and a live mirror holds no component but MirrorComponents.
   */
  lemma RenderedWellFormed(byId: map<string, Circuit>, circuitId: string, componentId: int, debugView: bool)
    ensures var r := ExpectedRender(byId, circuitId, componentId, debugView);
      && (r.Ok? ==> Siblings(r.value))
      && (r.Ok? && !debugView ==> MirrorTranslationProperties.MirrorsOnly(r.value))
      && (Validate(byId, circuitId, componentId).Ok? && r.Err? ==> r.error.TranslationFailed?)
      && ((Validate(byId, circuitId, componentId).Ok? && componentId in byId[circuitId].componentStates
            && Siblings(byId[circuitId].componentStates[componentId].frames)) ==> r.Ok?)
  {
    if circuitId in byId && byId[circuitId].IsUser() && componentId in byId[circuitId].componentStates {
      var state := byId[circuitId].componentStates[componentId];
      if debugView {
        DebugTranslationProperties.DebugRootShape(state.frames, circuitId, state.componentType, componentId, 0, Counters(0, []));
        if Siblings(state.frames) {
          DebugTranslationProperties.DebugTranslateTotal(state.frames, circuitId, state.componentType, componentId);
        }
      } else {
        MirrorTranslationProperties.TranslateWellFormed(state.frames, circuitId);
        if Siblings(state.frames) {
          MirrorTranslationProperties.TranslateTotal(state.frames, circuitId);
        }
      }
    }
  }

  /**
   * The frames a mirror is handed are the whole backing array of the render tree's buffer. When the
   * render tree itself is well formed and the rest of the array is unused, the render succeeds and
   * is exactly the translation of the render tree alone, so the unused slots never show.
   */
  lemma RenderedBackingArray(byId: map<string, Circuit>, circuitId: string, componentId: int, debugView: bool,
                             tree: seq<Frame>, tail: seq<Frame>)
    requires Validate(byId, circuitId, componentId).Ok? && componentId in byId[circuitId].componentStates
    requires byId[circuitId].componentStates[componentId].frames == tree + tail
    requires Siblings(tree) && Unused(tail)
    ensures var state := byId[circuitId].componentStates[componentId];
      var r := ExpectedRender(byId, circuitId, componentId, debugView);
      && r.Ok?
      && Translated(ComponentState(state.componentType, tree), circuitId, componentId, debugView) == Ok(r.value)
      && Siblings(r.value)
      && (!debugView ==> MirrorTranslationProperties.MirrorsOnly(r.value))
  {
    var state := byId[circuitId].componentStates[componentId];
    if debugView {
      DebugTranslationProperties.DebugTranslateBackingArray(tree, tail, circuitId, state.componentType, componentId);
      DebugTranslationProperties.DebugTranslateTotal(tree, circuitId, state.componentType, componentId);
    } else {
      MirrorTranslationProperties.TranslateBackingArray(tree, tail, circuitId);
      MirrorTranslationProperties.TranslateTotal(tree, circuitId);
    }
    RenderedWellFormed(byId, circuitId, componentId, debugView);
  }

  class MirrorComponent {
    const circuitTracker: CircuitTracker
    /** The scratch buffer the translators append to, reused across renders. */
    const builder: FrameList

    var circuitId: string
    var componentId: int
    var debugView: bool

    /** Whether the render handle has been attached. */
    var attached: bool
    /** Every frame list handed to the render handle, in order. */
    var renders: seq<seq<Frame>>
    /** The number of renders scheduled on the render handle's dispatcher. */
    var dispatched: nat

    /** The parameters start at their defaults: no circuit id, component id -1, live view. */
    constructor(circuitTracker: CircuitTracker)
      ensures this.circuitTracker == circuitTracker && fresh(builder) && builder.frames == []
      ensures circuitId == "" && componentId == NO_COMPONENT_ID && !debugView
      ensures !attached && renders == [] && dispatched == 0
    {
      this.circuitTracker := circuitTracker;
      builder := new FrameList();
      circuitId := "";
      componentId := NO_COMPONENT_ID;
      debugView := false;
      attached := false;
      renders := [];
      dispatched := 0;
    }

    method Attach()
      modifies this`attached
      ensures attached
    {
      attached := true;
    }

    /** ParameterView.SetParameterProperties: each parameter given is assigned, the others are kept. */
    method SetParameterProperties(parameters: ParameterView)
      modifies this`circuitId, this`componentId, this`debugView
      ensures circuitId == (if parameters.circuitId.Some? then parameters.circuitId.value else old(circuitId))
      ensures componentId == (if parameters.componentId.Some? then parameters.componentId.value else old(componentId))
      ensures debugView == (if parameters.debugView.Some? then parameters.debugView.value else old(debugView))
    {
      if parameters.circuitId.Some? {
        circuitId := parameters.circuitId.value;
      }
      if parameters.componentId.Some? {
        componentId := parameters.componentId.value;
      }
      if parameters.debugView.Some? {
        debugView := parameters.debugView.value;
      }
    }

    /**
     * Assigns the parameters, validates them, subscribes to the user circuit's rerenders and renders.
     * A failed check throws before anything is subscribed or rendered.
     */
    method SetParametersAsync(parameters: ParameterView) returns (err: Option<MirrorError>)
      requires circuitTracker.Valid()
      modifies this`circuitId, this`componentId, this`debugView, this`renders, builder
      modifies Tracked(circuitTracker.byId, if parameters.circuitId.Some? then parameters.circuitId.value else circuitId)`rerenderHandlers
      ensures circuitId == (if parameters.circuitId.Some? then parameters.circuitId.value else old(circuitId))
      ensures componentId == (if parameters.componentId.Some? then parameters.componentId.value else old(componentId))
      ensures debugView == (if parameters.debugView.Some? then parameters.debugView.value else old(debugView))
      ensures var v := Validate(circuitTracker.byId, circuitId, componentId);
        v.Err? ==> err == Some(v.error) && renders == old(renders)
      ensures circuitId in circuitTracker.byId && Validate(circuitTracker.byId, circuitId, componentId).Err? ==>
        var circuit := circuitTracker.byId[circuitId];
        circuit.rerenderHandlers == old(circuit.rerenderHandlers)
      ensures var v := Validate(circuitTracker.byId, circuitId, componentId);
        v.Ok? ==> v.value.rerenderHandlers == old(v.value.rerenderHandlers) + multiset{this}
      ensures var v := Validate(circuitTracker.byId, circuitId, componentId);
        var r := ExpectedRender(circuitTracker.byId, circuitId, componentId, debugView);
        v.Ok? ==>
          && (r.Ok? ==> err == None && renders == old(renders) + [r.value])
          && (r.Err? ==> err == Some(r.error) && renders == old(renders))
    {
      SetParameterProperties(parameters);
      if circuitId == "" {
        return Some(MissingCircuitId);
      }
      if componentId == NO_COMPONENT_ID {
        return Some(MissingComponentId);
      }
      var circuit := circuitTracker.GetCircuit(circuitId);
      if circuit.None? {
        return Some(CircuitNotFound);
      }
      var userCircuit := circuit.value;
      if !userCircuit.IsUser() {
        return Some(NotAUserCircuit);
      }
      userCircuit.rerenderHandlers := userCircuit.rerenderHandlers + multiset{this};
      err := Render();
    }

    /**
     * The user circuit reports a rerendered component: an event from another circuit throws; a
     * render is scheduled exactly when it is the mirrored component.
     */
    method OriginalComponentRerendered(circuit: Circuit, rerenderedId: int) returns (err: Option<MirrorError>)
      modifies this`dispatched
      ensures circuit.id != circuitId ==> err == Some(CircuitIdMismatch) && dispatched == old(dispatched)
      ensures circuit.id == circuitId ==>
        err == None && dispatched == old(dispatched) + (if rerenderedId == componentId then 1 else 0)
    {
      if circuit.id != circuitId {
        return Some(CircuitIdMismatch);
      }
      if rerenderedId == componentId {
        dispatched := dispatched + 1;
      }
      err := None;
    }

    /**
     * Looks the circuit up again and renders the component's translated render tree, or an empty
     * tree when the circuit has no such component.
     */
    method Render() returns (err: Option<MirrorError>)
      requires circuitTracker.Valid()
      modifies this`renders, builder
      ensures var r := ExpectedRender(circuitTracker.byId, circuitId, componentId, debugView);
        && (r.Ok? ==> err == None && renders == old(renders) + [r.value])
        && (r.Err? ==> err == Some(r.error) && renders == old(renders))
    {
      var circuit := circuitTracker.GetCircuit(circuitId);
      if circuit.None? {
        return Some(CircuitNotFound);
      }
      var userCircuit := circuit.value;
      if !userCircuit.IsUser() {
        return Some(NotAUserCircuit);
      }
      if componentId !in userCircuit.componentStates {
        renders := renders + [[]];
        return None;
      }
      var view, e := BuildView(userCircuit.componentStates[componentId]);
      if e.Some? {
        return Some(TranslationFailed(e.value));
      }
      renders := renders + [view];
      err := None;
    }

    /**
     * Clears the scratch buffer, lets the debug or the live translator append the translation to
     * it, and returns a copy of what it holds, clearing it again. A translation that throws leaves
     * what it appended in the buffer.
     */
    method BuildView(state: ComponentState) returns (view: seq<Frame>, err: Option<TranslationError>)
      modifies builder
      ensures err.None? ==> Ok(view) == Translated(state, circuitId, componentId, debugView) && builder.frames == []
      ensures err.Some? ==> Err(err.value) == Translated(state, circuitId, componentId, debugView)
    {
      builder.Clear();
      if debugView {
        var translator := new DebugTranslator(builder, circuitId, state.componentType, componentId);
        err := translator.TranslateRoot(state.frames);
      } else {
        var translator := new MirrorTranslator(builder, circuitId);
        err := translator.TranslateRoot(state.frames);
      }
      if err.Some? {
        return [], err;
      }
      assert builder.frames[0..] == builder.frames;
      view := builder.frames;
      builder.Clear();
    }
  }
}
