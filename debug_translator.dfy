/**
 * The debug-view translator (RenderTreeDebugTranslator): instead of copying a component's render
 * tree, it lists every frame as an indented text row inside one bordered root `div`, and appends a
 * drill-down MirrorComponent block (DebugView = true) for every nested component it met.
 *
 * `DebugRoot` is the specification; `DebugTranslator` is the imperative translator proved against it.
 * The translator's bookkeeping (`index`, `indent`, `childComponentIds`) is threaded through the
 * specification as `Counters` and an `indent` parameter.
 */
module DebugTranslation {
  import opened Wrappers
  import opened Frames
  import opened TranslatorBase

  const ROOT_STYLE: string := "border: 1px solid black; padding: 4px; margin: 4px; "
  const NAME_STYLE: string := "font-weight: bold; padding-left: 8px; "

  /** The root div's sequence number: its builder runs last, after `seq` reached 4. */
  const ROOT_DIV_SEQUENCE: int := 4

  /**
   * The row listing one frame: a div with sequence `seq * SEQ_MUL`, a padding style at
   * `seq * SEQ_MUL + 1` and, except for a None frame, the text at `seq * SEQ_MUL + 2`.
   */
  function Row(f: Frame, index: int, indent: int): seq<Frame>
  {
    var s := Scaled(SequenceOf(f));
    var style := Attr(Offset(s, 1), "style", PaddingLeft(indent));
    if f.NoneFrame? then [Div(Offset(s, 0), 2), style]
    else [Div(Offset(s, 0), 3), style, Text(Offset(s, 2), RowText(f, index))]
  }

  /** One row per frame of `fs`, in order, the running index starting at `index`. */
  function Rows(fs: seq<Frame>, index: int, indent: int): seq<Frame>
  {
    if fs == [] then [] else Row(fs[0], index, indent) + Rows(fs[1..], index + Advance(fs[0]), indent)
  }

  /** The rows from `fs[i]` on: the row of `fs[i]`, then the rows after it. */
  lemma RowsFrom(fs: seq<Frame>, i: nat, index: int, indent: int)
    requires i < |fs|
    ensures Rows(fs[i..], index, indent) == Row(fs[i], index, indent) + Rows(fs[i + 1..], index + Advance(fs[i]), indent)
    ensures Listed(fs[i..]) == Advance(fs[i]) + Listed(fs[i + 1..])
  {
    assert fs[i..][0] == fs[i] && fs[i..][1..] == fs[i + 1..];
  }

  lemma ConcatAssoc(a: seq<Frame>, b: seq<Frame>, c: seq<Frame>)
    ensures a + (b + c) == a + b + c
  {
  }

  /** One debug mirror block per collected component id, in collection order, all at `firstSeq`. */
  function Blocks(ids: seq<int>, firstSeq: int, circuitId: string): seq<Frame>
  {
    if ids == [] then []
    else
      var last := |ids| - 1;
      Blocks(ids[..last], firstSeq, circuitId) + MirrorBlock(firstSeq, Null, circuitId, ids[last], true)
  }

  /** The translator's bookkeeping: the running row index and the child component ids collected. */
  datatype Counters = Counters(index: int, ids: seq<int>)

  /** What a part of the listing yields: its frames (or the error it stopped with) and the counters after. */
  datatype Walk = Walk(out: Result<seq<Frame>, TranslationError>, after: Counters)

  /** One step of the dispatch loop, as `Walk` plus the index the loop resumes at. */
  datatype DebugStep = DebugStep(out: Result<seq<Frame>, TranslationError>, next: nat, after: Counters)

  /** A component: nothing for an unknown type; its own row only when hidden; else row and attribute rows. */
  function ComponentWalk(component: Frame, attributes: seq<Frame>, indent: int, c: Counters, componentId: int): Walk
    requires component.Component?
  {
    match component.componentType
    case None => Walk(Ok([]), c)
    case Some(t) =>
      if HiddenInMirror(t) then Walk(Ok(Row(component, c.index, indent)), Counters(c.index + 1, c.ids))
      else
        var ids := if componentId != component.componentId then c.ids + [component.componentId] else c.ids;
        Walk(Ok(Row(component, c.index, indent) + Rows(attributes, c.index + 1, indent + 1)),
             Counters(c.index + 1 + Listed(attributes), ids))
  }

  /** An element: its row, then one level deeper its attribute rows and the listing of its children. */
  function ElementWalk(element: Frame, attributes: seq<Frame>, children: seq<Frame>, indent: int, c: Counters, componentId: int): Walk
    decreases |children|, 2, 0
  {
    var head := Row(element, c.index, indent) + Rows(attributes, c.index + 1, indent + 1);
    var inner := DebugFrom(children, 0, indent + 1, Counters(c.index + 1 + Listed(attributes), c.ids), componentId);
    Resume(head, inner)
  }

  /** A region: its row, then one level deeper the listing of its children. */
  function RegionWalk(region: Frame, children: seq<Frame>, indent: int, c: Counters, componentId: int): Walk
    decreases |children|, 2, 0
  {
    Resume(Row(region, c.index, indent), DebugFrom(children, 0, indent + 1, Counters(c.index + 1, c.ids), componentId))
  }

  /** One step of the dispatch loop at `fs[i]`; after an error `next` is the end. */
  function DebugItem(fs: seq<Frame>, i: nat, indent: int, c: Counters, componentId: int): (step: DebugStep)
    requires i < |fs|
    ensures i < step.next <= |fs|
    decreases |fs|, 0, 0
  {
    match fs[i]
    case NoneFrame => DebugStep(Ok([]), i + 1, c)
    case Element(_, length, _, _) =>
      if length < 1 || i + length > |fs| then DebugStep(Err(OutOfRange), |fs|, c)
      else
        var subtree := fs[i + 1 .. i + length];
        var k := AttributePrefix(subtree);
        var walk := ElementWalk(fs[i], subtree[..k], subtree[k..], indent, c, componentId);
        DebugStep(walk.out, i + length, walk.after)
    case Text(_, _) => DebugStep(Ok(Row(fs[i], c.index, indent)), i + 1, Counters(c.index + 1, c.ids))
    case Markup(_, _) => DebugStep(Ok(Row(fs[i], c.index, indent)), i + 1, Counters(c.index + 1, c.ids))
    case Attribute(_, _, _, _, _) => DebugStep(Err(AttributeWithoutParent), |fs|, c)
    case Component(_, length, _, _, _) =>
      if length < 1 || i + length > |fs| then DebugStep(Err(OutOfRange), |fs|, c)
      else if !AllAttributes(fs[i + 1 .. i + length]) then DebugStep(Err(ComponentContainsNonAttribute), |fs|, c)
      else
        var walk := ComponentWalk(fs[i], fs[i + 1 .. i + length], indent, c, componentId);
        DebugStep(walk.out, i + length, walk.after)
    case Region(_, length) =>
      if length < 1 || i + length > |fs| then DebugStep(Err(OutOfRange), |fs|, c)
      else
        var walk := RegionWalk(fs[i], fs[i + 1 .. i + length], indent, c, componentId);
        DebugStep(walk.out, i + length, walk.after)
    case _ => DebugStep(Err(NotImplemented), |fs|, c)
  }

  /** The listing of the sibling frames `fs[i..]`, step by step; the first error wins. */
  function DebugFrom(fs: seq<Frame>, i: nat, indent: int, c: Counters, componentId: int): Walk
    requires i <= |fs|
    decreases |fs|, 1, |fs| - i
  {
    if i == |fs| then Walk(Ok([]), c)
    else
      var step := DebugItem(fs, i, indent, c, componentId);
      var rest := DebugFrom(fs, step.next, indent, step.after, componentId);
      Walk(Then(step.out, rest.out), rest.after)
  }

  /** `prefix` put in front of a walk's frames. */
  function Resume(prefix: seq<Frame>, w: Walk): Walk
  {
    Walk(Prepend(prefix, w.out), w.after)
  }

  /** The heading frames inside the root div: its style, then the name div with its style and text. */
  function Header(componentId: int, componentType: ComponentType): seq<Frame>
  {
    [ Attr(0, "style", Str(ROOT_STYLE)),
      Div(3, 3),
      Attr(1, "style", Str(NAME_STYLE)),
      Text(2, Heading(componentId, componentType)) ]
  }

  /**
   * The debug view of a component's render tree: one root div holding the heading, the listing and
   * the drill-down blocks for the collected child components, at sequence `index * SEQ_MUL`.
   */
  function DebugRoot(fs: seq<Frame>, circuitId: string, componentType: ComponentType, componentId: int,
                     indent: int, c: Counters): Result<seq<Frame>, TranslationError>
  {
    Root(Listing(DebugFrom(fs, 0, indent, c, componentId), circuitId), componentType, componentId)
  }

  /** The root div around the heading and a listing (or the error the listing stopped with). */
  function Root(listing: Result<seq<Frame>, TranslationError>, componentType: ComponentType, componentId: int): Result<seq<Frame>, TranslationError>
  {
    match listing
    case Err(e) => Err(e)
    case Ok(frames) =>
      var body := Header(componentId, componentType) + frames;
      Ok([Div(ROOT_DIV_SEQUENCE, 1 + |body|)] + body)
  }

  /** The rows of a walk, then one drill-down block per id it collected, at `index * SEQ_MUL`. */
  function Listing(walk: Walk, circuitId: string): Result<seq<Frame>, TranslationError>
  {
    match walk.out
    case Err(e) => Err(e)
    case Ok(rows) => Ok(rows + Blocks(walk.after.ids, Scaled(walk.after.index), circuitId))
  }

  /** The debug view built by a fresh translator (index 0, indent 0, no ids collected). */
  function DebugTranslate(fs: seq<Frame>, circuitId: string, componentType: ComponentType, componentId: int): Result<seq<Frame>, TranslationError>
  {
    DebugRoot(fs, circuitId, componentType, componentId, 0, Counters(0, []))
  }

  class DebugTranslator {
    const result: FrameList
    const circuitId: string
    const componentType: ComponentType
    const componentId: int

    var index: int
    var indent: int
    var childComponentIds: seq<int>

    constructor(result: FrameList, circuitId: string, componentType: ComponentType, componentId: int)
      ensures this.result == result && this.circuitId == circuitId
      ensures this.componentType == componentType && this.componentId == componentId
      ensures index == 0 && indent == 0 && childComponentIds == []
    {
      this.result := result;
      this.circuitId := circuitId;
      this.componentType := componentType;
      this.componentId := componentId;
      index := 0;
      indent := 0;
      childComponentIds := [];
    }

    function Counts(): Counters
      reads this
    {
      Counters(index, childComponentIds)
    }

    /**
     * The whole debug view; the root div is closed (its length back-filled) even when the listing
     * stops with an error.
     */
    method TranslateRoot(frames: seq<Frame>) returns (err: Option<TranslationError>)
      modifies this, result
      ensures Appended(old(result.frames), result.frames)
      ensures Outcome(old(result.frames), result.frames, err)
        == DebugRoot(frames, circuitId, componentType, componentId, old(indent), old(Counts()))
      ensures var start := old(result.frames);
        |result.frames| > |start| && result.frames[|start|] == Div(ROOT_DIV_SEQUENCE, |result.frames| - |start|)
    {
      ghost var start := result.frames;
      // The root div's builder reads `seq` when it runs, at the end of the scope.
      var rootDiv := SubtreeLengthCapture.Open(result, ElementHeader(0, "div", Null));
      ghost var withRoot := result.frames;
      var nextSeq := AddHeading();
      ghost var header := result.frames;
      err := AddListing(frames);
      OutcomeAfter(withRoot, header, result.frames, err);
      ghost var body := result.frames[|withRoot|..];
      AppendedSplit(withRoot, result.frames);
      rootDiv := rootDiv.(build := ElementHeader(nextSeq, "div", Null));
      var disposed := rootDiv.Dispose();
      BackFilled(start, body, Div(ROOT_DIV_SEQUENCE, 1 + |body|));
    }

    /** The listing of the frames, then the drill-down blocks (skipped when the listing throws). */
    method AddListing(frames: seq<Frame>) returns (err: Option<TranslationError>)
      modifies this, result
      ensures Appended(old(result.frames), result.frames)
      ensures Outcome(old(result.frames), result.frames, err)
        == Listing(DebugFrom(frames, 0, old(indent), old(Counts()), componentId), circuitId)
    {
      ghost var start := result.frames;
      err := TranslateAll(frames);
      if err.None? {
        ghost var rows := result.frames;
        AddBlocks(Scaled(index));
        AppendedSplit(start, rows);
        AppendedStep(start, rows, result.frames, Ok([]));
      }
    }

    /**
     * The heading inside the root div: its style, then the name div (its length back-filled) with
     * its style and text. Returns the sequence number the root div's builder will use.
     */
    method AddHeading() returns (nextSeq: int)
      modifies result
      ensures result.frames == old(result.frames) + Header(componentId, componentType)
      ensures nextSeq == ROOT_DIV_SEQUENCE
    {
      ghost var start := result.frames;
      nextSeq := 0;
      result.Add(Attr(nextSeq, "style", Str(ROOT_STYLE)));
      nextSeq := nextSeq + 1;
      var nameDiv := SubtreeLengthCapture.Open(result, ElementHeader(0, "div", Null));
      var style := Attr(nextSeq, "style", Str(NAME_STYLE));
      result.Add(style);
      nextSeq := nextSeq + 1;
      var text := Text(nextSeq, Heading(componentId, componentType));
      result.Add(text);
      nextSeq := nextSeq + 1;
      // The name div's builder reads `seq` when the inner scope ends.
      nameDiv := nameDiv.(build := ElementHeader(nextSeq, "div", Null));
      nextSeq := nextSeq + 1;
      var disposed := nameDiv.Dispose();
      BackFilled(start + [Attr(0, "style", Str(ROOT_STYLE))], [style, text], Div(3, 3));
    }

    /** The loop over the collected child component ids, one debug mirror block each. */
    method AddBlocks(firstSeq: int)
      modifies result
      ensures result.frames == old(result.frames) + Blocks(childComponentIds, firstSeq, circuitId)
    {
      ghost var start := result.frames;
      for k := 0 to |childComponentIds|
        invariant result.frames == start + Blocks(childComponentIds[..k], firstSeq, circuitId)
      {
        AddMirrorComponent(result, firstSeq, Null, circuitId, childComponentIds[k], true);
        assert childComponentIds[..k + 1][..k] == childComponentIds[..k];
      }
      assert childComponentIds[..|childComponentIds|] == childComponentIds;
    }

    /** One row: a div whose length is back-filled, its padding style and, except for None, its text. */
    method AddFrameAsText(frame: Frame)
      modifies this, result
      ensures result.frames == old(result.frames) + Row(frame, old(index), indent)
      ensures index == old(index) + Advance(frame)
      ensures indent == old(indent) && childComponentIds == old(childComponentIds)
    {
      ghost var start := result.frames;
      var s := Scaled(SequenceOf(frame));
      var div := SubtreeLengthCapture.Open(result, ElementHeader(Offset(s, 0), "div", Null));
      var style := Attr(Offset(s, 1), "style", PaddingLeft(indent));
      result.Add(style);
      if frame.NoneFrame? {
        var disposed := div.Dispose();
        BackFilled(start, [style], Div(Offset(s, 0), 2));
        return;
      }
      var text := Text(Offset(s, 2), RowText(frame, index));
      result.Add(text);
      var disposed := div.Dispose();
      BackFilled(start, [style, text], Div(Offset(s, 0), 3));
      index := index + 1;
    }

    /** A row for each frame, in order. */
    method AddFramesAsText(frames: seq<Frame>)
      modifies this, result
      ensures result.frames == old(result.frames) + Rows(frames, old(index), indent)
      ensures index == old(index) + Listed(frames)
      ensures indent == old(indent) && childComponentIds == old(childComponentIds)
    {
      ghost var start := result.frames;
      ghost var index0 := index;
      ghost var indent0 := indent;
      for i := 0 to |frames|
        invariant indent == indent0 && childComponentIds == old(childComponentIds)
        invariant start + Rows(frames, index0, indent0) == result.frames + Rows(frames[i..], index, indent0)
        invariant index0 + Listed(frames) == index + Listed(frames[i..])
      {
        ghost var before := result.frames;
        ghost var row := Row(frames[i], index, indent0);
        ghost var rest := Rows(frames[i + 1..], index + Advance(frames[i]), indent0);
        RowsFrom(frames, i, index, indent0);
        AddFrameAsText(frames[i]);
        ConcatAssoc(before, row, rest);
      }
      assert frames[|frames|..] == [];
    }

    /** The dispatch loop: one sibling subtree per step, resuming after its last frame. */
    method TranslateAll(frames: seq<Frame>) returns (err: Option<TranslationError>)
      modifies this, result
      decreases |frames|, 1, 0
      ensures Appended(old(result.frames), result.frames)
      ensures var walk := DebugFrom(frames, 0, old(indent), old(Counts()), componentId);
        && Outcome(old(result.frames), result.frames, err) == walk.out
        && (err.None? ==> indent == old(indent) && Counts() == walk.after)
    {
      ghost var start := result.frames;
      ghost var indent0 := indent;
      ghost var whole := DebugFrom(frames, 0, indent, Counts(), componentId);
      var i := 0;
      PrependNothing(whole.out);
      assert result.frames[|start|..] == [];
      while i < |frames|
        invariant 0 <= i <= |frames|
        invariant Appended(start, result.frames)
        invariant indent == indent0
        invariant whole.out == Prepend(result.frames[|start|..], DebugFrom(frames, i, indent0, Counts(), componentId).out)
        invariant whole.after == DebugFrom(frames, i, indent0, Counts(), componentId).after
        decreases |frames| - i
      {
        ghost var before := result.frames;
        ghost var counts := Counts();
        ghost var step := DebugItem(frames, i, indent, counts, componentId);
        ghost var rest := DebugFrom(frames, step.next, indent0, step.after, componentId);
        var last;
        last, err := TranslateFrame(frames, i);
        if err.Some? {
          LoopStop(before[|start|..], whole.out, DebugFrom(frames, i, indent0, counts, componentId).out, step.out, rest.out);
          return;
        }
        LoopStep(start, before, result.frames, whole.out, DebugFrom(frames, i, indent0, counts, componentId).out, rest.out);
        i := last + 1;
      }
      assert result.frames[|start|..] + [] == result.frames[|start|..];
      err := None;
    }

    /**
     * One step of the dispatch loop: the frame at `i` together with its subtree. Returns the index
     * of the last frame handled, where the loop resumes after.
     */
    method TranslateFrame(frames: seq<Frame>, i: nat) returns (last: nat, err: Option<TranslationError>)
      requires i < |frames|
      modifies this, result
      decreases |frames|, 0, 1
      ensures i <= last < |frames|
      ensures Appended(old(result.frames), result.frames)
      ensures var step := DebugItem(frames, i, old(indent), old(Counts()), componentId);
        && Outcome(old(result.frames), result.frames, err) == step.out
        && (err.None? ==> last + 1 == step.next && indent == old(indent) && Counts() == step.after)
    {
      ghost var before := result.frames;
      last, err := i, None;
      var frame := frames[i];
      match frame {
        case NoneFrame =>
          assert result.frames[|before|..] == [];
        case Element(_, _, _, _) =>
          last, err := TranslateElementFrame(frames, i);
        case Text(_, _) =>
          AddFrameAsText(frame);
          AppendedSplit(before, result.frames);
        case Attribute(_, _, _, _, _) =>
          return i, Some(AttributeWithoutParent);
        case Component(_, _, _, _, _) =>
          last, err := TranslateComponentFrame(frames, i);
        case Region(_, _) =>
          last, err := TranslateRegionFrame(frames, i);
        case Markup(_, _) =>
          AddFrameAsText(frame);
          AppendedSplit(before, result.frames);
        case _ =>
          return i, Some(NotImplemented);
      }
    }

    /** The Element case of the dispatch loop: its subtree split into attributes and children. */
    method TranslateElementFrame(frames: seq<Frame>, i: nat) returns (last: nat, err: Option<TranslationError>)
      requires i < |frames| && frames[i].Element?
      modifies this, result
      decreases |frames|, 0, 0
      ensures i <= last < |frames|
      ensures Appended(old(result.frames), result.frames)
      ensures var step := DebugItem(frames, i, old(indent), old(Counts()), componentId);
        && Outcome(old(result.frames), result.frames, err) == step.out
        && (err.None? ==> last + 1 == step.next && indent == old(indent) && Counts() == step.after)
    {
      var subtreeLength := frames[i].subtreeLength;
      if subtreeLength < 1 || i + subtreeLength > |frames| {
        return i, Some(OutOfRange);
      }
      var subtreeFrames := frames[i + 1 .. i + subtreeLength];
      var attributes := TakeAttributes(subtreeFrames);
      var childFrames := subtreeFrames[|attributes|..];
      err := TranslateElement(frames[i], attributes, childFrames);
      last := i + subtreeLength - 1;
    }

    /** The Component case of the dispatch loop: its subtree must hold attributes only. */
    method TranslateComponentFrame(frames: seq<Frame>, i: nat) returns (last: nat, err: Option<TranslationError>)
      requires i < |frames| && frames[i].Component?
      modifies this, result
      ensures i <= last < |frames|
      ensures Appended(old(result.frames), result.frames)
      ensures var step := DebugItem(frames, i, old(indent), old(Counts()), componentId);
        && Outcome(old(result.frames), result.frames, err) == step.out
        && (err.None? ==> last + 1 == step.next && indent == old(indent) && Counts() == step.after)
    {
      var subtreeLength := frames[i].subtreeLength;
      if subtreeLength < 1 || i + subtreeLength > |frames| {
        return i, Some(OutOfRange);
      }
      var subtreeFrames := frames[i + 1 .. i + subtreeLength];
      var j := 0;
      while j < |subtreeFrames|
        invariant 0 <= j <= |subtreeFrames|
        invariant AllAttributes(subtreeFrames[..j])
      {
        if !subtreeFrames[j].Attribute? {
          assert !AllAttributes(frames[i + 1 .. i + subtreeLength]) by {
            assert frames[i + 1 .. i + subtreeLength][j] == subtreeFrames[j];
          }
          return i, Some(ComponentContainsNonAttribute);
        }
        assert subtreeFrames[..j + 1] == subtreeFrames[..j] + [subtreeFrames[j]];
        j := j + 1;
      }
      assert subtreeFrames[..j] == subtreeFrames;
      ghost var before := result.frames;
      TranslateComponent(frames[i], subtreeFrames);
      AppendedSplit(before, result.frames);
      last, err := i + subtreeLength - 1, None;
    }

    /** The Region case of the dispatch loop: its whole subtree is its children. */
    method TranslateRegionFrame(frames: seq<Frame>, i: nat) returns (last: nat, err: Option<TranslationError>)
      requires i < |frames| && frames[i].Region?
      modifies this, result
      decreases |frames|, 0, 0
      ensures i <= last < |frames|
      ensures Appended(old(result.frames), result.frames)
      ensures var step := DebugItem(frames, i, old(indent), old(Counts()), componentId);
        && Outcome(old(result.frames), result.frames, err) == step.out
        && (err.None? ==> last + 1 == step.next && indent == old(indent) && Counts() == step.after)
    {
      var subtreeLength := frames[i].subtreeLength;
      if subtreeLength < 1 || i + subtreeLength > |frames| {
        return i, Some(OutOfRange);
      }
      err := TranslateRegion(frames[i], frames[i + 1 .. i + subtreeLength]);
      last := i + subtreeLength - 1;
    }

    /** An element's row, then one level deeper its attribute rows and the listing of its children. */
    method TranslateElement(element: Frame, attributes: seq<Frame>, childFrames: seq<Frame>) returns (err: Option<TranslationError>)
      requires element.Element?
      modifies this, result
      decreases |childFrames|, 2, 0
      ensures Appended(old(result.frames), result.frames)
      ensures var walk := ElementWalk(element, attributes, childFrames, old(indent), old(Counts()), componentId);
        && Outcome(old(result.frames), result.frames, err) == walk.out
        && (err.None? ==> indent == old(indent) && Counts() == walk.after)
    {
      ghost var start := result.frames;
      AddRowAndNested(element, attributes);
      ghost var head := result.frames;
      AppendedSplit(start, head);
      err := TranslateAll(childFrames);
      OutcomeAfter(start, head, result.frames, err);
      if err.Some? {
        return;
      }
      indent := indent - 1;
    }

    /** A component's row and attribute rows, collecting its id when it is not the root component. */
    method TranslateComponent(component: Frame, attributes: seq<Frame>)
      requires component.Component?
      modifies this, result
      ensures var walk := ComponentWalk(component, attributes, old(indent), old(Counts()), componentId);
        && walk.out.Ok?
        && result.frames == old(result.frames) + walk.out.value
        && indent == old(indent) && Counts() == walk.after
    {
      if component.componentType.None? {
        return;
      }
      if HiddenInMirror(component.componentType.value) {
        AddFrameAsText(component);
        return;
      }
      var id := component.componentId;
      if componentId != id {
        childComponentIds := childComponentIds + [id];
      }
      AddRowAndNested(component, attributes);
      indent := indent - 1;
    }

    /**
     * A frame's row, then one level deeper the rows of its attributes; `indent` is left one deeper
     * (the caller lists children there, then restores it).
     */
    method AddRowAndNested(frame: Frame, attributes: seq<Frame>)
      requires !frame.NoneFrame?
      modifies this, result
      ensures result.frames == old(result.frames) + (Row(frame, old(index), old(indent)) + Rows(attributes, old(index) + 1, old(indent) + 1))
      ensures index == old(index) + 1 + Listed(attributes)
      ensures indent == old(indent) + 1 && childComponentIds == old(childComponentIds)
    {
      ghost var start := result.frames;
      AddFrameAsText(frame);
      ghost var row := result.frames;
      indent := indent + 1;
      AddFramesAsText(attributes);
      assert result.frames == row + Rows(attributes, old(index) + 1, old(indent) + 1);
      assert row == start + Row(frame, old(index), old(indent));
    }

    /** A region's row, then one level deeper the listing of its children. */
    method TranslateRegion(region: Frame, childFrames: seq<Frame>) returns (err: Option<TranslationError>)
      requires region.Region?
      modifies this, result
      decreases |childFrames|, 2, 0
      ensures Appended(old(result.frames), result.frames)
      ensures var walk := RegionWalk(region, childFrames, old(indent), old(Counts()), componentId);
        && Outcome(old(result.frames), result.frames, err) == walk.out
        && (err.None? ==> indent == old(indent) && Counts() == walk.after)
    {
      ghost var start := result.frames;
      ghost var indent0 := indent;
      AddFrameAsText(region);
      indent := indent + 1;
      ghost var head := result.frames;
      AppendedSplit(start, head);
      err := TranslateAll(childFrames);
      OutcomeAfter(start, head, result.frames, err);
      if err.Some? {
        return;
      }
      indent := indent - 1;
    }
  }
}
