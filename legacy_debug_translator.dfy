/**
 * The older debug translator (RenderTreeDebugMirrorTranslator): a bordered root div holding a title
 * and a flat listing, one Text row and one `br` per frame, of every frame in the render tree, then,
 * after the root div, one drill-down MirrorComponent block per component id met in the listing.
 *
 * `LegacyView` is the specification; `DebugMirrorTranslator` is the imperative translator, with the
 * older base's dispatch loop (`TranslateFrames`), proved against it. The loop rejects a subtree
 * length below 1, which the code as written does not do for a length of 0 (see `AsWrittenStep`).
 */
module LegacyDebugTranslation {
  import opened Wrappers
  import opened Frames
  import opened TranslatorBase
  import opened LegacyTranslatorBase

  const LEGACY_ROOT_STYLE: string := "border: 1px solid black; padding: 4px; margin: 4px; "
  const LEGACY_NAME_STYLE: string := "font-weight: bold; padding-left: 8px; "

  /** The line listing one frame: its text at `seq * 10` and a `br` at `seq * 10 + 1`; nothing for None. */
  function Line(f: Frame, index: int): seq<Frame>
  {
    if f.NoneFrame? then []
    else
      var s := LegacyScaled(f.sequence);
      [Text(s, RowText(f, index)), Element(Offset(s, 1), 1, "br", Null)]
  }

  /** One line per frame of `fs`, in order, the running index starting at `index`. */
  function Lines(fs: seq<Frame>, index: int): seq<Frame>
  {
    if fs == [] then [] else Line(fs[0], index) + Lines(fs[1..], index + Advance(fs[0]))
  }

  /** The ids of the Component frames among `fs` other than the root component, in order. */
  function ChildIds(fs: seq<Frame>, componentId: int): seq<int>
  {
    if fs == [] then []
    else
      var own := if fs[0].Component? && fs[0].componentId != componentId then [fs[0].componentId] else [];
      own + ChildIds(fs[1..], componentId)
  }

  /** What a part of the listing yields: its frames (or the error), the running index and the ids. */
  datatype Listing = Listing(out: Result<seq<Frame>, TranslationError>, index: int, ids: seq<int>)

  function Resumed(prefix: seq<Frame>, l: Listing): Listing
  {
    Listing(Prepend(prefix, l.out), l.index, l.ids)
  }

  /** One turn of the dispatch loop: what it lists (or its error), where it resumes, and the counters after it. */
  datatype Step = Step(out: Result<seq<Frame>, TranslationError>, next: nat, index: int, ids: seq<int>)

  /**
   * The dispatch loop's turn at `fs[i]`: None frames are skipped; Text and Markup are listed; an
   * Element, Component or Region is listed flat together with its whole subtree, the header
   * included, and the loop resumes after it; a lone Attribute and the other frame types are errors.
   */
  function LegacyStep(fs: seq<Frame>, i: nat, index: int, ids: seq<int>, componentId: int): (r: Step)
    requires i < |fs|
    ensures i < r.next <= |fs|
  {
    var f := fs[i];
    if f.NoneFrame? then Step(Ok([]), i + 1, index, ids)
    else if f.Text? || f.Markup? then Step(Ok(Line(f, index)), i + 1, index + 1, ids)
    else if f.Attribute? then Step(Err(AttributeWithoutParent), i + 1, index, ids)
    else if f.Element? || f.Component? || f.Region? then
      var length := Span(f);
      if length < 1 || i + length > |fs| then Step(Err(OutOfRange), i + 1, index, ids)
      else
        var subtree := fs[i .. i + length];
        Step(Ok(Lines(subtree, index)), i + length, index + Listed(subtree), ids + ChildIds(subtree, componentId))
    else Step(Err(NotImplemented), i + 1, index, ids)
  }

  /** The dispatch loop from `fs[i]` on, turn after turn; the first error wins. */
  function LegacyFrom(fs: seq<Frame>, i: nat, index: int, ids: seq<int>, componentId: int): Listing
    requires i <= |fs|
    decreases |fs| - i
  {
    if i == |fs| then Listing(Ok([]), index, ids)
    else
      var step := LegacyStep(fs, i, index, ids, componentId);
      match step.out
      case Err(e) => Listing(Err(e), index, ids)
      case Ok(listed) => Resumed(listed, LegacyFrom(fs, step.next, step.index, step.ids, componentId))
  }

  /** The root div's style and its title div: the div, its style and the title text. */
  function LegacyTitle(componentType: ComponentType, componentId: int): seq<Frame>
  {
    [ Attr(1, "style", Str(LEGACY_ROOT_STYLE)),
      Div(2, 3),
      Attr(3, "style", Str(LEGACY_NAME_STYLE)),
      Text(4, DebugViewTitle(componentType, componentId)) ]
  }

  /** The root div and its title div; the root spans the five heading frames and `listed` more. */
  function LegacyHead(componentType: ComponentType, componentId: int, listed: nat): seq<Frame>
  {
    [Div(0, 5 + listed)] + LegacyTitle(componentType, componentId)
  }

  /** One debug block per id, each at `firstSeq`. */
  function LegacyBlocks(ids: seq<int>, firstSeq: int, circuitId: string): seq<Frame>
  {
    if ids == [] then []
    else
      var last := |ids| - 1;
      LegacyBlocks(ids[..last], firstSeq, circuitId) + LegacyMirrorBlock(firstSeq, Null, circuitId, ids[last], true)
  }

  /**
   * The older debug view: the root div around the heading and the listing, then, as its siblings,
   * the drill-down blocks for the collected ids at `index * 10`.
   */
  function LegacyView(fs: seq<Frame>, circuitId: string, componentType: ComponentType, componentId: int,
                      index: int, ids: seq<int>): Result<seq<Frame>, TranslationError>
  {
    Viewed(LegacyFrom(fs, 0, index, ids, componentId), circuitId, componentType, componentId)
  }

  /** The view around a finished listing `l`. */
  function Viewed(l: Listing, circuitId: string, componentType: ComponentType, componentId: int): Result<seq<Frame>, TranslationError>
  {
    match l.out
    case Err(e) => Err(e)
    case Ok(rows) => Ok(LegacyHead(componentType, componentId, |rows|) + rows + LegacyBlocks(l.ids, LegacyScaled(l.index), circuitId))
  }

  /** A buffer that grew by the view's frames around the listing `l`, seen as the view. */
  lemma ViewedFrames(l: Listing, start: seq<Frame>, final: seq<Frame>, rows: seq<Frame>,
                     circuitId: string, componentType: ComponentType, componentId: int)
    requires l.out == Ok(rows)
    requires var body := LegacyTitle(componentType, componentId) + rows;
      final == start + [Div(0, 1 + |body|)] + body + LegacyBlocks(l.ids, LegacyScaled(l.index), circuitId)
    ensures Appended(start, final)
    ensures Ok(final[|start|..]) == Viewed(l, circuitId, componentType, componentId)
  {
    assert [Div(0, 1 + |LegacyTitle(componentType, componentId) + rows|)] + (LegacyTitle(componentType, componentId) + rows)
        == LegacyHead(componentType, componentId, |rows|) + rows;
    assert final == start + (LegacyHead(componentType, componentId, |rows|) + rows + LegacyBlocks(l.ids, LegacyScaled(l.index), circuitId));
  }

  /** What is left to list, after `line` went out: the total splits the same way. */
  lemma Shifted<T>(total: seq<T>, before: seq<T>, line: seq<T>, lines: seq<T>)
    requires total == before + (line + lines)
    ensures total == (before + line) + lines
  {
  }

  class DebugMirrorTranslator {
    const result: FrameList
    const circuitId: string
    const componentType: ComponentType
    const componentId: int

    var index: int
    var childComponentIds: seq<int>

    constructor(result: FrameList, circuitId: string, componentType: ComponentType, componentId: int)
      ensures this.result == result && this.circuitId == circuitId
      ensures this.componentType == componentType && this.componentId == componentId
      ensures index == 0 && childComponentIds == []
    {
      this.result := result;
      this.circuitId := circuitId;
      this.componentType := componentType;
      this.componentId := componentId;
      index := 0;
      childComponentIds := [];
    }

    /**
     * The whole view. When the listing throws, the root div stays an open placeholder (no scope
     * closes it) and no blocks are written.
     */
    method TranslateAll(frames: seq<Frame>) returns (err: Option<TranslationError>)
      modifies this, result
      ensures Appended(old(result.frames), result.frames)
      ensures Outcome(old(result.frames), result.frames, err)
        == LegacyView(frames, circuitId, componentType, componentId, old(index), old(childComponentIds))
    {
      ghost var start := result.frames;
      ghost var l := LegacyFrom(frames, 0, index, childComponentIds, componentId);
      var rootIndex := AddHeading();
      ghost var head := result.frames;
      err := TranslateFrames(frames);
      OutcomeAfter(start, head, result.frames, err);
      if err.Some? {
        return;
      }
      ghost var rows := result.frames[|head|..];
      AppendedSplit(head, result.frames);
      CloseView(start, LegacyTitle(componentType, componentId) + rows, rootIndex);
      ViewedFrames(l, start, result.frames, rows, circuitId, componentType, componentId);
    }

    /**
     * The end of the view: the root div's placeholder becomes its header, spanning `body`, and the
     * blocks for the collected ids follow it.
     */
    method CloseView(ghost start: seq<Frame>, ghost body: seq<Frame>, rootIndex: nat)
      requires result.frames == start + [NoneFrame] + body && rootIndex == |start|
      modifies result
      ensures result.frames == start + [Div(0, 1 + |body|)] + body + LegacyBlocks(childComponentIds, LegacyScaled(index), circuitId)
    {
      var stopped := StopCaptureSubtreeLength(result, rootIndex, ElementHeader(0, "div", Null));
      CaptureSpansBody(start, body, ElementHeader(0, "div", Null));
      assert stopped.None?;
      AddBlocks();
    }

    /**
     * The opening of the view: the root div's placeholder, its style, and the title div, closed
     * around its style and the title text. Returns the root placeholder's index.
     */
    method AddHeading() returns (rootIndex: nat)
      modifies result
      ensures rootIndex == |old(result.frames)|
      ensures result.frames == old(result.frames) + [NoneFrame] + LegacyTitle(componentType, componentId)
    {
      ghost var start := result.frames;
      var nextSeq := 0;
      rootIndex := StartCaptureSubtreeLength(result);
      nextSeq := nextSeq + 1;
      result.Add(Attr(nextSeq, "style", Str(LEGACY_ROOT_STYLE)));
      nextSeq := nextSeq + 1;
      var nameDivIndex := StartCaptureSubtreeLength(result);
      var nameDivSeq := nextSeq;
      nextSeq := nextSeq + 1;
      result.Add(Attr(nextSeq, "style", Str(LEGACY_NAME_STYLE)));
      nextSeq := nextSeq + 1;
      result.Add(Text(nextSeq, DebugViewTitle(componentType, componentId)));
      nextSeq := nextSeq + 1;
      var stopped := StopCaptureSubtreeLength(result, nameDivIndex, ElementHeader(nameDivSeq, "div", Null));
      assert stopped.None?;
    }

    /** The loop over the collected ids: one debug block each, all at `index * 10`. */
    method AddBlocks()
      modifies result
      ensures result.frames == old(result.frames) + LegacyBlocks(childComponentIds, LegacyScaled(index), circuitId)
    {
      ghost var start := result.frames;
      for k := 0 to |childComponentIds|
        invariant result.frames == start + LegacyBlocks(childComponentIds[..k], LegacyScaled(index), circuitId)
      {
        LegacyTranslatorBase.AddMirrorComponent(result, LegacyScaled(index), Null, circuitId, childComponentIds[k], true);
        assert childComponentIds[..k + 1][..k] == childComponentIds[..k];
      }
      assert childComponentIds[..|childComponentIds|] == childComponentIds;
    }

    /** The base class's dispatch loop, `i` resuming after each subtree. */
    method TranslateFrames(frames: seq<Frame>) returns (err: Option<TranslationError>)
      modifies this, result
      ensures Appended(old(result.frames), result.frames)
      ensures var l := LegacyFrom(frames, 0, old(index), old(childComponentIds), componentId);
        && Outcome(old(result.frames), result.frames, err) == l.out
        && (err.None? ==> index == l.index && childComponentIds == l.ids)
    {
      ghost var start := result.frames;
      ghost var whole := LegacyFrom(frames, 0, index, childComponentIds, componentId);
      PrependNothing(whole.out);
      assert result.frames[|start|..] == [];
      var i := 0;
      while i < |frames|
        invariant 0 <= i <= |frames|
        invariant Appended(start, result.frames)
        invariant whole.out == Prepend(result.frames[|start|..], LegacyFrom(frames, i, index, childComponentIds, componentId).out)
        invariant whole.index == LegacyFrom(frames, i, index, childComponentIds, componentId).index
        invariant whole.ids == LegacyFrom(frames, i, index, childComponentIds, componentId).ids
        decreases |frames| - i
      {
        ghost var before := result.frames;
        var next;
        next, err := TranslateFrame(frames, i);
        if err.Some? {
          return;
        }
        ghost var rest := LegacyFrom(frames, next, index, childComponentIds, componentId);
        AppendedStep(start, before, result.frames, rest.out);
        i := next;
      }
      assert result.frames[|start|..] + [] == result.frames[|start|..];
      err := None;
    }

    /**
     * One turn of the dispatch loop: None is skipped, Text and Markup are listed, a subtree is
     * listed whole and `i` moves to its last frame (`i += length - 1`) before the loop's `i++`;
     * a lone Attribute and the frame types without a case are errors. Returns where the loop resumes.
     */
    method TranslateFrame(frames: seq<Frame>, i: nat) returns (next: nat, err: Option<TranslationError>)
      requires i < |frames|
      modifies this, result
      ensures Appended(old(result.frames), result.frames)
      ensures var step := LegacyStep(frames, i, old(index), old(childComponentIds), componentId);
        && (err.Some? ==> step.out == Err(err.value))
        && (err.None? ==>
              && step.out == Ok(result.frames[|old(result.frames)|..])
              && next == step.next && index == step.index && childComponentIds == step.ids)
    {
      ghost var before := result.frames;
      var frame := frames[i];
      next := i;
      match frame {
        case NoneFrame =>
        case Text(_, _) =>
          AddFrameAsText(frame);
        case Markup(_, _) =>
          AddFrameAsText(frame);
        case Attribute(_, _, _, _, _) =>
          return 0, Some(AttributeWithoutParent);
        case Element(_, subtreeLength, _, _) =>
          err := TranslateSubtree(frames, i, subtreeLength);
          if err.Some? {
            return;
          }
          next := next + subtreeLength - 1;
        case Component(_, subtreeLength, _, _, _) =>
          err := TranslateSubtree(frames, i, subtreeLength);
          if err.Some? {
            return;
          }
          next := next + subtreeLength - 1;
        case Region(_, subtreeLength) =>
          err := TranslateSubtree(frames, i, subtreeLength);
          if err.Some? {
            return;
          }
          next := next + subtreeLength - 1;
        case _ =>
          return 0, Some(NotImplemented);
      }
      next := next + 1;
      err := None;
      assert result.frames == before + result.frames[|before|..];
    }

    /**
     * The Element, Component and Region cases: the slice `[i, i + length)` is listed flat. A length
     * below 1 is rejected (the code as written slices and loops on a length of 0).
     */
    method TranslateSubtree(frames: seq<Frame>, i: nat, subtreeLength: int) returns (err: Option<TranslationError>)
      requires i < |frames| && subtreeLength == Span(frames[i])
      requires frames[i].Element? || frames[i].Component? || frames[i].Region?
      modifies this, result
      ensures Appended(old(result.frames), result.frames)
      ensures var step := LegacyStep(frames, i, old(index), old(childComponentIds), componentId);
        && (err.None? <==> step.out.Ok?)
        && (err.Some? ==> step.out == Err(err.value))
        && (err.None? ==>
              && step.out == Ok(result.frames[|old(result.frames)|..])
              && step.next == i + subtreeLength && index == step.index && childComponentIds == step.ids)
    {
      if subtreeLength < 1 {
        return Some(OutOfRange);
      }
      var sliced := Slice(frames, i, subtreeLength);
      if sliced.Err? {
        return Some(sliced.error);
      }
      assert sliced.value == frames[i .. i + subtreeLength];
      ghost var before := result.frames;
      AddFramesAsText(sliced.value);
      assert result.frames[|before|..] == Lines(sliced.value, old(index));
      err := None;
    }

    /** The listed frames, each in turn; a component other than the root component is collected. */
    method AddFramesAsText(frames: seq<Frame>)
      modifies this, result
      ensures result.frames == old(result.frames) + Lines(frames, old(index))
      ensures index == old(index) + Listed(frames)
      ensures childComponentIds == old(childComponentIds) + ChildIds(frames, componentId)
    {
      ghost var start := result.frames;
      ghost var index0 := index;
      ghost var ids0 := childComponentIds;
      var rest := frames;
      while rest != []
        invariant start + Lines(frames, index0) == result.frames + Lines(rest, index)
        invariant index0 + Listed(frames) == index + Listed(rest)
        invariant ids0 + ChildIds(frames, componentId) == childComponentIds + ChildIds(rest, componentId)
        decreases |rest|
      {
        var frame := rest[0];
        ghost var idsBefore := childComponentIds;
        if frame.Component? && frame.componentId != componentId {
          childComponentIds := childComponentIds + [frame.componentId];
        }
        assert childComponentIds == idsBefore + childComponentIds[|idsBefore|..];
        ghost var before := result.frames;
        ghost var line := Line(frame, index);
        ghost var lines := Lines(rest[1..], index + Advance(frame));
        AddFrameAsText(frame);
        Shifted(start + Lines(frames, index0), before, line, lines);
        Shifted(ids0 + ChildIds(frames, componentId), idsBefore, childComponentIds[|idsBefore|..], ChildIds(rest[1..], componentId));
        rest := rest[1..];
      }
    }

    /** One line: the frame's text (with the component id for a component) and a `br`; None is skipped. */
    method AddFrameAsText(frame: Frame)
      modifies this, result
      ensures result.frames == old(result.frames) + Line(frame, old(index))
      ensures index == old(index) + Advance(frame)
      ensures childComponentIds == old(childComponentIds)
    {
      if frame.NoneFrame? {
        return;
      }
      var s := LegacyScaled(frame.sequence);
      if frame.Component? {
        result.Add(Text(s, ComponentRow(index, frame, frame.componentId)));
      } else {
        result.Add(Text(s, FrameRow(index, frame)));
      }
      result.Add(Element(Offset(s, 1), 1, "br", Null));
      index := index + 1;
    }
  }
}
