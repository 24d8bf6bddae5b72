/**
 * The live-mode translator (RenderTreeMirrorTranslator): copies a component's render tree for a
 * mirror circuit. Nested components become MirrorComponent blocks, sequence numbers are multiplied
 * by SEQ_MUL, Element and Region lengths are recomputed, and anchors lose their `href` unless they
 * open in a new tab.
 *
 * `Translate` is the specification; `MirrorTranslator` is the imperative translator proved against it.
 */
module MirrorTranslation {
  import opened Wrappers
  import opened Frames
  import opened TranslatorBase

  /** What an anchor's `href` becomes in a mirror, so that clicking it does not navigate. */
  const VOID_HREF: string := "javascript:void(0)"

  predicate IsTargetBlank(a: Frame)
  {
    a.Attribute? && a.name == "target" && a.value == Str("_blank")
  }

  predicate HasTargetBlank(attributes: seq<Frame>)
  {
    exists j | 0 <= j < |attributes| :: IsTargetBlank(attributes[j])
  }

  /** The attribute as the mirror shows it; `neutralise` is "an anchor without target=_blank". */
  function MirrorAttribute(neutralise: bool, a: Frame): Frame
    requires a.Attribute?
  {
    var value := if neutralise && a.name == "href" then Str(VOID_HREF) else a.value;
    Attribute(Scaled(a.sequence), a.name, value, a.eventHandlerId, a.updatesAttributeName)
  }

  function MirrorAttributes(neutralise: bool, attributes: seq<Frame>): (r: seq<Frame>)
    requires AllAttributes(attributes)
    ensures |r| == |attributes|
  {
    if attributes == [] then []
    else
      var last := |attributes| - 1;
      MirrorAttributes(neutralise, attributes[..last]) + [MirrorAttribute(neutralise, attributes[last])]
  }

  /** Whether an element's `href` values are replaced: it is an anchor and has no target=_blank. */
  predicate Neutralises(element: Frame, attributes: seq<Frame>)
    requires element.Element?
  {
    element.name == "a" && !HasTargetBlank(attributes)
  }

  /** The frames one Element becomes, given its attributes and its translated children. */
  function ElementOut(element: Frame, attributes: seq<Frame>, children: seq<Frame>): seq<Frame>
    requires element.Element? && AllAttributes(attributes)
  {
    [Element(Scaled(element.sequence), 1 + |attributes| + |children|, element.name, element.key)]
      + MirrorAttributes(Neutralises(element, attributes), attributes)
      + children
  }

  /** The frames one Component becomes: nothing when its type is unknown or hidden, else a block. */
  function ComponentOut(component: Frame, circuitId: string): seq<Frame>
    requires component.Component?
  {
    match component.componentType
    case None => []
    case Some(t) =>
      if HiddenInMirror(t) then []
      else MirrorBlock(Scaled(component.sequence), component.key, circuitId, component.componentId, false)
  }

  function ElementResult(element: Frame, attributes: seq<Frame>, children: Result<seq<Frame>, TranslationError>): Result<seq<Frame>, TranslationError>
    requires element.Element? && AllAttributes(attributes)
  {
    match children
    case Ok(c) => Ok(ElementOut(element, attributes, c))
    case Err(e) => Err(e)
  }

  function RegionResult(region: Frame, children: Result<seq<Frame>, TranslationError>): Result<seq<Frame>, TranslationError>
    requires region.Region?
  {
    match children
    case Ok(c) => Ok([Region(Scaled(region.sequence), 1 + |c|)] + c)
    case Err(e) => Err(e)
  }

  /** An element's translation: its header, attributes and translated children. */
  function ElementLive(element: Frame, attributes: seq<Frame>, children: seq<Frame>, circuitId: string): Result<seq<Frame>, TranslationError>
    requires element.Element? && AllAttributes(attributes)
    decreases |children|, 2, 0
  {
    ElementResult(element, attributes, LiveFrom(children, 0, circuitId))
  }

  /** A region's translation: its header and translated children. */
  function RegionLive(region: Frame, children: seq<Frame>, circuitId: string): Result<seq<Frame>, TranslationError>
    requires region.Region?
    decreases |children|, 2, 0
  {
    RegionResult(region, LiveFrom(children, 0, circuitId))
  }

  /** What one step of the dispatch loop yields: its output, and the index the loop resumes at. */
  datatype Step = Step(out: Result<seq<Frame>, TranslationError>, next: nat)

  /**
   * One step of the dispatch loop at `fs[i]`: a frame with subtree length L is handled together
   * with the L - 1 frames after it. After an error the walk does not continue (`next` is the end).
   */
  function LiveItem(fs: seq<Frame>, i: nat, circuitId: string): (step: Step)
    requires i < |fs|
    ensures i < step.next <= |fs|
    decreases |fs|, 0, 0
  {
    match fs[i]
    case NoneFrame => Step(Ok([]), i + 1)
    case Element(_, length, _, _) =>
      if length < 1 || i + length > |fs| then Step(Err(OutOfRange), |fs|)
      else
        var subtree := fs[i + 1 .. i + length];
        var k := AttributePrefix(subtree);
        Step(ElementLive(fs[i], subtree[..k], subtree[k..], circuitId), i + length)
    case Text(s, content) => Step(Ok([Text(Scaled(s), content)]), i + 1)
    case Markup(s, markup) => Step(Ok([Markup(Scaled(s), markup)]), i + 1)
    case Attribute(_, _, _, _, _) => Step(Err(AttributeWithoutParent), |fs|)
    case Component(_, length, _, _, _) =>
      if length < 1 || i + length > |fs| then Step(Err(OutOfRange), |fs|)
      else if !AllAttributes(fs[i + 1 .. i + length]) then Step(Err(ComponentContainsNonAttribute), |fs|)
      else Step(Ok(ComponentOut(fs[i], circuitId)), i + length)
    case Region(_, length) =>
      if length < 1 || i + length > |fs| then Step(Err(OutOfRange), |fs|)
      else Step(RegionLive(fs[i], fs[i + 1 .. i + length], circuitId), i + length)
    case _ => Step(Err(NotImplemented), |fs|)
  }

  /** The translation of the sibling frames `fs[i..]`, step by step; the first error wins. */
  function LiveFrom(fs: seq<Frame>, i: nat, circuitId: string): Result<seq<Frame>, TranslationError>
    requires i <= |fs|
    decreases |fs|, 1, |fs| - i
  {
    if i == |fs| then Ok([])
    else
      var step := LiveItem(fs, i, circuitId);
      Then(step.out, LiveFrom(fs, step.next, circuitId))
  }

  /** The live translation of a whole render tree. */
  function Translate(fs: seq<Frame>, circuitId: string): Result<seq<Frame>, TranslationError>
  {
    LiveFrom(fs, 0, circuitId)
  }

  /** The buffer after an element's capture closed holds exactly the element's translation. */
  lemma ElementClosed(element: Frame, attributes: seq<Frame>, children: seq<Frame>, start: seq<Frame>, open: seq<Frame>, final: seq<Frame>)
    requires element.Element? && AllAttributes(attributes)
    requires open == start + [NoneFrame] + MirrorAttributes(Neutralises(element, attributes), attributes) + children
    requires final == open[|start| := Build(ElementHeader(Scaled(element.sequence), element.name, element.key), |open| - |start|)]
    ensures Appended(start, final)
    ensures final[|start|..] == ElementOut(element, attributes, children)
  {
    var body := MirrorAttributes(Neutralises(element, attributes), attributes) + children;
    var header := Element(Scaled(element.sequence), 1 + |body|, element.name, element.key);
    assert open == start + [NoneFrame] + body;
    BackFilled(start, body, header);
    assert final[..|start|] == start;
  }

  class MirrorTranslator {
    const result: FrameList
    const circuitId: string

    constructor(result: FrameList, circuitId: string)
      ensures this.result == result && this.circuitId == circuitId
    {
      this.result := result;
      this.circuitId := circuitId;
    }

    method TranslateRoot(frames: seq<Frame>) returns (err: Option<TranslationError>)
      modifies result
      ensures Appended(old(result.frames), result.frames)
      ensures Outcome(old(result.frames), result.frames, err) == Translate(frames, circuitId)
    {
      err := TranslateAll(frames);
    }

    /** The dispatch loop: one sibling subtree per step, resuming after its last frame. */
    method TranslateAll(frames: seq<Frame>) returns (err: Option<TranslationError>)
      modifies result
      decreases |frames|, 1, 0
      ensures Appended(old(result.frames), result.frames)
      ensures Outcome(old(result.frames), result.frames, err) == LiveFrom(frames, 0, circuitId)
    {
      ghost var start := result.frames;
      var i := 0;
      PrependNothing(LiveFrom(frames, 0, circuitId));
      assert result.frames[|start|..] == [];
      while i < |frames|
        invariant 0 <= i <= |frames|
        invariant Appended(start, result.frames)
        invariant LiveFrom(frames, 0, circuitId) == Prepend(result.frames[|start|..], LiveFrom(frames, i, circuitId))
        decreases |frames| - i
      {
        ghost var before := result.frames;
        ghost var step := LiveItem(frames, i, circuitId);
        var last;
        last, err := TranslateFrame(frames, i);
        if err.Some? {
          LoopStop(before[|start|..], LiveFrom(frames, 0, circuitId), LiveFrom(frames, i, circuitId), step.out, LiveFrom(frames, step.next, circuitId));
          return;
        }
        LoopStep(start, before, result.frames, LiveFrom(frames, 0, circuitId), LiveFrom(frames, i, circuitId), LiveFrom(frames, step.next, circuitId));
        i := last + 1;
      }
      assert result.frames[|start|..] + [] == result.frames[|start|..];
      err := None;
    }

    /**
     * One step of the dispatch loop: the frame at `i` together with its subtree. Returns the index
     * of the last frame handled (`i + subtreeLength - 1`), where the loop resumes after.
     */
    method TranslateFrame(frames: seq<Frame>, i: nat) returns (last: nat, err: Option<TranslationError>)
      requires i < |frames|
      modifies result
      decreases |frames|, 0, 1
      ensures i <= last < |frames|
      ensures Appended(old(result.frames), result.frames)
      ensures Outcome(old(result.frames), result.frames, err) == LiveItem(frames, i, circuitId).out
      ensures err.None? ==> last + 1 == LiveItem(frames, i, circuitId).next
    {
      ghost var before := result.frames;
      last, err := i, None;
      var frame := frames[i];
      match frame {
        case NoneFrame =>
          TranslateNone(frame);
          assert result.frames[|before|..] == [];
        case Element(_, _, _, _) =>
          last, err := TranslateElementFrame(frames, i);
        case Text(_, _) =>
          TranslateText(frame);
        case Attribute(_, _, _, _, _) =>
          return i, Some(AttributeWithoutParent);
        case Component(_, _, _, _, _) =>
          last, err := TranslateComponentFrame(frames, i);
        case Region(_, _) =>
          last, err := TranslateRegionFrame(frames, i);
        case Markup(_, _) =>
          TranslateMarkup(frame);
        case _ =>
          return i, Some(NotImplemented);
      }
    }

    /** The Element case of the dispatch loop: its subtree split into attributes and children. */
    method TranslateElementFrame(frames: seq<Frame>, i: nat) returns (last: nat, err: Option<TranslationError>)
      requires i < |frames| && frames[i].Element?
      modifies result
      decreases |frames|, 0, 0
      ensures i <= last < |frames|
      ensures Appended(old(result.frames), result.frames)
      ensures Outcome(old(result.frames), result.frames, err) == LiveItem(frames, i, circuitId).out
      ensures err.None? ==> last + 1 == LiveItem(frames, i, circuitId).next
    {
      var subtreeLength := frames[i].subtreeLength;
      if subtreeLength < 1 || i + subtreeLength > |frames| {
        return i, Some(OutOfRange);
      }
      var subtreeFrames := frames[i + 1 .. i + subtreeLength];
      var attributes := TakeAttributes(subtreeFrames);
      var childFrames := subtreeFrames[|attributes|..];
      err := TranslateElement(frames[i], attributes, childFrames);
      last := i + subtreeLength - 1;
    }

    /** The Component case of the dispatch loop: its subtree must hold attributes only. */
    method TranslateComponentFrame(frames: seq<Frame>, i: nat) returns (last: nat, err: Option<TranslationError>)
      requires i < |frames| && frames[i].Component?
      modifies result
      ensures i <= last < |frames|
      ensures Appended(old(result.frames), result.frames)
      ensures Outcome(old(result.frames), result.frames, err) == LiveItem(frames, i, circuitId).out
      ensures err.None? ==> last + 1 == LiveItem(frames, i, circuitId).next
    {
      var subtreeLength := frames[i].subtreeLength;
      if subtreeLength < 1 || i + subtreeLength > |frames| {
        return i, Some(OutOfRange);
      }
      var subtreeFrames := frames[i + 1 .. i + subtreeLength];
      var j := 0;
      while j < |subtreeFrames|
        invariant 0 <= j <= |subtreeFrames|
        invariant AllAttributes(subtreeFrames[..j])
      {
        if !subtreeFrames[j].Attribute? {
          assert !AllAttributes(frames[i + 1 .. i + subtreeLength]) by {
            assert frames[i + 1 .. i + subtreeLength][j] == subtreeFrames[j];
          }
          return i, Some(ComponentContainsNonAttribute);
        }
        assert subtreeFrames[..j + 1] == subtreeFrames[..j] + [subtreeFrames[j]];
        j := j + 1;
      }
      assert subtreeFrames[..j] == subtreeFrames;
      ghost var before := result.frames;
      TranslateComponent(frames[i], subtreeFrames);
      AppendedSplit(before, result.frames);
      last, err := i + subtreeLength - 1, None;
    }

    /** The Region case of the dispatch loop: its whole subtree is its children. */
    method TranslateRegionFrame(frames: seq<Frame>, i: nat) returns (last: nat, err: Option<TranslationError>)
      requires i < |frames| && frames[i].Region?
      modifies result
      decreases |frames|, 0, 0
      ensures i <= last < |frames|
      ensures Appended(old(result.frames), result.frames)
      ensures Outcome(old(result.frames), result.frames, err) == LiveItem(frames, i, circuitId).out
      ensures err.None? ==> last + 1 == LiveItem(frames, i, circuitId).next
    {
      var subtreeLength := frames[i].subtreeLength;
      if subtreeLength < 1 || i + subtreeLength > |frames| {
        return i, Some(OutOfRange);
      }
      err := TranslateRegion(frames[i], frames[i + 1 .. i + subtreeLength]);
      last := i + subtreeLength - 1;
    }

    /** A None frame is skipped: nothing is added to the output. */
    method TranslateNone(none: Frame)
      requires none.NoneFrame?
      ensures unchanged(result)
    {
    }

    method TranslateText(text: Frame)
      requires text.Text?
      modifies result
      ensures result.frames == old(result.frames) + [Text(Scaled(text.sequence), text.content)]
    {
      result.Add(Text(Scaled(text.sequence), text.content));
    }

    method TranslateMarkup(markup: Frame)
      requires markup.Markup?
      modifies result
      ensures result.frames == old(result.frames) + [Markup(Scaled(markup.sequence), markup.markup)]
    {
      result.Add(Markup(Scaled(markup.sequence), markup.markup));
    }

    /** An element re-emitted around its attributes and translated children, its length back-filled. */
    method TranslateElement(element: Frame, attributes: seq<Frame>, childFrames: seq<Frame>) returns (err: Option<TranslationError>)
      requires element.Element? && AllAttributes(attributes)
      modifies result
      decreases |childFrames|, 2, 0
      ensures Appended(old(result.frames), result.frames)
      ensures Outcome(old(result.frames), result.frames, err) == ElementLive(element, attributes, childFrames, circuitId)
    {
      ghost var start := result.frames;
      var newElement := OpenElement(element, attributes);
      ghost var inner := result.frames;
      err := TranslateAll(childFrames);
      OutcomeAfter(start, inner, result.frames, err);
      if err.Some? {
        return;
      }
      ghost var children := result.frames[|inner|..];
      AppendedSplit(inner, result.frames);
      ghost var open := result.frames;
      var disposed := newElement.Dispose();
      ElementClosed(element, attributes, children, start, open, result.frames);
    }

    /** The element's header placeholder and its translated attributes. */
    method OpenElement(element: Frame, attributes: seq<Frame>) returns (newElement: SubtreeLengthCapture)
      requires element.Element? && AllAttributes(attributes)
      modifies result
      ensures newElement.result == result && newElement.rootIndex == |old(result.frames)|
      ensures newElement.build == ElementHeader(Scaled(element.sequence), element.name, element.key)
      ensures result.frames == old(result.frames) + [NoneFrame] + MirrorAttributes(Neutralises(element, attributes), attributes)
    {
      newElement := SubtreeLengthCapture.Open(result, ElementHeader(Scaled(element.sequence), element.name, element.key));
      var isAnchor := element.name == "a";
      var hasTargetBlank := false;
      if isAnchor {
        hasTargetBlank := FindTargetBlank(attributes);
      }
      assert (isAnchor && !hasTargetBlank) == Neutralises(element, attributes);
      TranslateAttributes(attributes, isAnchor && !hasTargetBlank);
    }

    /** The search for an attribute target="_blank", stopping at the first one. */
    static method FindTargetBlank(attributes: seq<Frame>) returns (hasTargetBlank: bool)
      ensures hasTargetBlank == HasTargetBlank(attributes)
    {
      hasTargetBlank := false;
      var i := 0;
      while i < |attributes|
        invariant 0 <= i <= |attributes|
        invariant forall j | 0 <= j < i :: !IsTargetBlank(attributes[j])
      {
        var attribute := attributes[i];
        if attribute.Attribute? && attribute.name == "target" && attribute.value.Str? && attribute.value.s == "_blank" {
          hasTargetBlank := true;
          break;
        }
        i := i + 1;
      }
    }

    /** The attribute loop: each attribute appended in order, `href` replaced when `neutralise`. */
    method TranslateAttributes(attributes: seq<Frame>, neutralise: bool)
      requires AllAttributes(attributes)
      modifies result
      ensures result.frames == old(result.frames) + MirrorAttributes(neutralise, attributes)
    {
      ghost var start := result.frames;
      var i := 0;
      while i < |attributes|
        invariant 0 <= i <= |attributes|
        invariant result.frames == start + MirrorAttributes(neutralise, attributes[..i])
      {
        var attribute := attributes[i];
        var attributeValue := attribute.value;
        if neutralise && attribute.name == "href" {
          attributeValue := Str(VOID_HREF);
        }
        result.Add(Attribute(Scaled(attribute.sequence), attribute.name, attributeValue,
                             attribute.eventHandlerId, attribute.updatesAttributeName));
        assert attributes[..i + 1][..i] == attributes[..i];
        i := i + 1;
      }
      assert attributes[..i] == attributes;
    }

    /** A component replaced by a mirror block, unless its type is unknown or hidden in mirrors. */
    method TranslateComponent(component: Frame, attributes: seq<Frame>)
      requires component.Component?
      modifies result
      ensures result.frames == old(result.frames) + ComponentOut(component, circuitId)
    {
      if component.componentType.None? {
        return;
      }
      if HiddenInMirror(component.componentType.value) {
        return;
      }
      AddMirrorComponent(result, Scaled(component.sequence), component.key, circuitId, component.componentId, false);
    }

    /** A region re-emitted around its translated children, its length back-filled. */
    method TranslateRegion(region: Frame, childFrames: seq<Frame>) returns (err: Option<TranslationError>)
      requires region.Region?
      modifies result
      decreases |childFrames|, 2, 0
      ensures Appended(old(result.frames), result.frames)
      ensures Outcome(old(result.frames), result.frames, err) == RegionLive(region, childFrames, circuitId)
    {
      ghost var start := result.frames;
      var newRegion := SubtreeLengthCapture.Open(result, RegionHeader(Scaled(region.sequence)));
      ghost var inner := result.frames;
      err := TranslateAll(childFrames);
      if err.Some? {
        return;
      }
      ghost var children := result.frames[|inner|..];
      assert result.frames == start + [NoneFrame] + children;
      var disposed := newRegion.Dispose();
      BackFilled(start, children, Build(newRegion.build, 1 + |children|));
    }
  }
}
