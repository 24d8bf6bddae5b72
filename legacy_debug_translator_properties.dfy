/** What the older debug translator guarantees about its flat listing and its whole view. */
module LegacyDebugTranslationProperties {
  import opened Wrappers
  import opened Frames
  import opened TranslatorBase
  import opened LegacyTranslatorBase
  import opened MirrorTranslationProperties
  import opened DebugTranslation
  import opened DebugTranslationProperties
  import opened LegacyDebugTranslation

  // ---------------------------------------------------------------------------------------------
  // Lines

  /** A line is a Text item and a `br` element item, or nothing for a None frame. */
  lemma LineShape(f: Frame, index: int)
    ensures var line := Line(f, index);
      |line| == 2 * Advance(f) && Siblings(line)
  {
    var line := Line(f, index);
    if !f.NoneFrame? {
      var br := line[1];
      ElementItem(br, [], []);
      assert [br] + [] + [] == [br];
      SiblingsCons([br], []);
      assert [br] + [] == [br];
      SingleFrame(line[0]);
      SiblingsAppend([line[0]], [br]);
      assert [line[0]] + [br] == line;
    }
  }

  /** The lines of a list of frames form a sibling list of two frames per counted frame. */
  lemma {:induction false} LinesShape(fs: seq<Frame>, index: int)
    ensures var lines := Lines(fs, index);
      |lines| == 2 * Listed(fs) && Siblings(lines)
  {
    if fs != [] {
      LinesShape(fs[1..], index + Advance(fs[0]));
      LineShape(fs[0], index);
      SiblingsAppend(Line(fs[0], index), Lines(fs[1..], index + Advance(fs[0])));
    }
  }

  /** Listing two runs of frames one after the other is listing them together. */
  lemma {:induction false} LinesAppend(a: seq<Frame>, b: seq<Frame>, index: int)
    ensures Lines(a + b, index) == Lines(a, index) + Lines(b, index + Listed(a))
    decreases |a|
  {
    if a == [] {
      assert a + b == b;
    } else {
      var next := index + Advance(a[0]);
      assert (a + b)[0] == a[0] && (a + b)[1..] == a[1..] + b;
      LinesAppend(a[1..], b, next);
      var line := Line(a[0], index);
      assert Lines(a + b, index) == line + Lines(a[1..] + b, next);
      assert Lines(a, index) == line + Lines(a[1..], next);
      Shifted(Lines(a + b, index), line, Lines(a[1..], next), Lines(b, next + Listed(a[1..])));
    }
  }

  /** The counted frames of two runs add up. */
  lemma {:induction false} ListedAppend(a: seq<Frame>, b: seq<Frame>)
    ensures Listed(a + b) == Listed(a) + Listed(b)
    decreases |a|
  {
    if a == [] {
      assert a + b == b;
    } else {
      assert (a + b)[0] == a[0] && (a + b)[1..] == a[1..] + b;
      ListedAppend(a[1..], b);
    }
  }

  /** The ids collected from two runs are those of the first, then those of the second. */
  lemma {:induction false} ChildIdsAppend(a: seq<Frame>, b: seq<Frame>, componentId: int)
    ensures ChildIds(a + b, componentId) == ChildIds(a, componentId) + ChildIds(b, componentId)
    decreases |a|
  {
    if a == [] {
      assert a + b == b;
    } else {
      assert (a + b)[0] == a[0] && (a + b)[1..] == a[1..] + b;
      ChildIdsAppend(a[1..], b, componentId);
      var own := if a[0].Component? && a[0].componentId != componentId then [a[0].componentId] else [];
      Shifted(ChildIds(a + b, componentId), own, ChildIds(a[1..], componentId), ChildIds(b, componentId));
    }
  }

  /**
   * Every counted frame has its line, in order: the frame at `j` is listed with the running index
   * that counts the frames before it, at twice that count into the lines, followed by its `br`.
   */
  lemma LineAt(fs: seq<Frame>, index: int, j: nat)
    requires j < |fs| && !fs[j].NoneFrame?
    ensures var before := Listed(fs[..j]);
      var lines := Lines(fs, index);
      var s := LegacyScaled(fs[j].sequence);
      && 2 * before + 2 <= |lines|
      && lines[2 * before] == Text(s, RowText(fs[j], index + before))
      && lines[2 * before + 1] == Element(Offset(s, 1), 1, "br", Null)
  {
    var before := Listed(fs[..j]);
    assert fs == fs[..j] + fs[j..];
    LinesAppend(fs[..j], fs[j..], index);
    LinesShape(fs[..j], index);
    assert fs[j..][0] == fs[j];
    assert Lines(fs[j..], index + before)[..2] == Line(fs[j], index + before);
  }

  /** The collected ids are exactly the ids of the components met, other than the root component. */
  lemma {:induction false} ChildIdsMember(fs: seq<Frame>, componentId: int, id: int)
    ensures id in ChildIds(fs, componentId)
        <==> id != componentId && exists j :: 0 <= j < |fs| && fs[j].Component? && fs[j].componentId == id
  {
    if fs != [] {
      ChildIdsMember(fs[1..], componentId, id);
      if exists j :: 0 <= j < |fs| && fs[j].Component? && fs[j].componentId == id {
        var j :| 0 <= j < |fs| && fs[j].Component? && fs[j].componentId == id;
        if j > 0 {
          assert fs[1..][j - 1] == fs[j];
        }
      }
      if exists j :: 0 <= j < |fs[1..]| && fs[1..][j].Component? && fs[1..][j].componentId == id {
        var j :| 0 <= j < |fs[1..]| && fs[1..][j].Component? && fs[1..][j].componentId == id;
        assert fs[j + 1] == fs[1..][j];
      }
    }
  }

  // ---------------------------------------------------------------------------------------------
  // The dispatch loop

  /**
   * The loop lists every frame once, flat, whatever the tree: when it succeeds, it has emitted the
   * lines of all frames from `i` on, counted them, and collected every child component id.
   */
  lemma {:induction false} LegacyFromFlat(fs: seq<Frame>, i: nat, index: int, ids: seq<int>, componentId: int)
    requires i <= |fs|
    ensures var l := LegacyFrom(fs, i, index, ids, componentId);
      l.out.Ok? ==>
        && l.out.value == Lines(fs[i..], index)
        && l.index == index + Listed(fs[i..])
        && l.ids == ids + ChildIds(fs[i..], componentId)
    decreases |fs| - i
  {
    if i == |fs| {
      assert fs[i..] == [];
    } else {
      var step := LegacyStep(fs, i, index, ids, componentId);
      if step.out.Ok? {
        LegacyFromFlat(fs, step.next, step.index, step.ids, componentId);
        FlatTurn(fs, i, index, ids, componentId, LegacyFrom(fs, step.next, step.index, step.ids, componentId));
      }
    }
  }

  /** A successful turn in front of the flat listing of what follows it is the flat listing from `i`. */
  lemma FlatTurn(fs: seq<Frame>, i: nat, index: int, ids: seq<int>, componentId: int, rest: Listing)
    requires i < |fs|
    requires var step := LegacyStep(fs, i, index, ids, componentId);
      var b := fs[step.next..];
      && step.out.Ok?
      && (rest.out.Ok? ==>
            && rest.out.value == Lines(b, step.index)
            && rest.index == step.index + Listed(b)
            && rest.ids == step.ids + ChildIds(b, componentId))
    ensures var step := LegacyStep(fs, i, index, ids, componentId);
      var l := Resumed(step.out.value, rest);
      l.out.Ok? ==>
        && l.out.value == Lines(fs[i..], index)
        && l.index == index + Listed(fs[i..])
        && l.ids == ids + ChildIds(fs[i..], componentId)
  {
    var step := LegacyStep(fs, i, index, ids, componentId);
    var next := step.next;
    StepFlat(fs, i, index, ids, componentId);
    var a, b := fs[i .. next], fs[next..];
    assert fs[i..] == a + b;
    LinesAppend(a, b, index);
    ListedAppend(a, b);
    ChildIdsAppend(a, b, componentId);
    FlatJoin(Resumed(step.out.value, rest), rest,
             Lines(a, index), Lines(b, step.index), Lines(a + b, index), index + Listed(a + b),
             ids, ChildIds(a, componentId), ChildIds(b, componentId), ChildIds(a + b, componentId));
  }

  /** A successful turn lists the frames it passes over, and counts and collects them. */
  lemma StepFlat(fs: seq<Frame>, i: nat, index: int, ids: seq<int>, componentId: int)
    requires i < |fs|
    ensures var step := LegacyStep(fs, i, index, ids, componentId);
      step.out.Ok? ==>
        && step.out.value == Lines(fs[i .. step.next], index)
        && step.index == index + Listed(fs[i .. step.next])
        && step.ids == ids + ChildIds(fs[i .. step.next], componentId)
  {
    var step := LegacyStep(fs, i, index, ids, componentId);
    if step.out.Ok? && !(fs[i].Element? || fs[i].Component? || fs[i].Region?) {
      var one := fs[i .. i + 1];
      assert one == [fs[i]] && one[1..] == [];
      assert ids + [] == ids;
    }
  }

  /**
   * A listing that emitted `first` in front of a listing `rest` of what follows: joined, they are
   * the listing of both runs (`lines`, `listed` and `collected` being those of the two runs together).
   */
  lemma FlatJoin(l: Listing, rest: Listing, first: seq<Frame>, second: seq<Frame>, lines: seq<Frame>,
                 listed: int, ids: seq<int>, firstIds: seq<int>, secondIds: seq<int>, collected: seq<int>)
    requires l == Resumed(first, rest)
    requires rest.out.Ok? ==> rest.out.value == second && rest.index == listed && rest.ids == ids + firstIds + secondIds
    requires lines == first + second && collected == firstIds + secondIds
    ensures l.out.Ok? ==> l.out.value == lines && l.index == listed && l.ids == ids + collected
  {
  }

  /** A well-formed render tree is always listed: no turn of the loop fails on it. */
  lemma {:induction false} LegacyFromTotal(fs: seq<Frame>, i: nat, index: int, ids: seq<int>, componentId: int)
    requires i <= |fs| && Siblings(fs[i..])
    ensures LegacyFrom(fs, i, index, ids, componentId).out.Ok?
    decreases |fs| - i
  {
    if i < |fs| {
      var step := LegacyStep(fs, i, index, ids, componentId);
      StepTotal(fs, i, index, ids, componentId);
      LegacyFromTotal(fs, step.next, step.index, step.ids, componentId);
    }
  }

  /** On a sibling list, a turn of the loop succeeds and resumes on the sibling list after the item. */
  lemma StepTotal(fs: seq<Frame>, i: nat, index: int, ids: seq<int>, componentId: int)
    requires i < |fs| && Siblings(fs[i..])
    ensures var step := LegacyStep(fs, i, index, ids, componentId);
      step.out.Ok? && Siblings(fs[step.next..])
  {
    var rest := fs[i..];
    FirstItem(rest);
    var length := Span(rest[0]);
    assert rest[0] == fs[i] && rest[length..] == fs[i + length..];
  }

  /** A sibling list starts with a subtree header, or a Text or Markup frame, and its item. */
  lemma FirstItem(fs: seq<Frame>)
    requires fs != [] && Siblings(fs)
    ensures var length := Span(fs[0]);
      && 1 <= length <= |fs| && Siblings(fs[length..])
      && (fs[0].Element? || fs[0].Component? || fs[0].Region? || fs[0].Text? || fs[0].Markup?)
  {
    var length := Span(fs[0]);
    assert fs[..length][0] == fs[0];
  }

  // ---------------------------------------------------------------------------------------------
  // The whole view

  /** The older base writes the same drill-down blocks as the newer one. */
  lemma {:induction false} LegacyBlocksAreBlocks(ids: seq<int>, firstSeq: int, circuitId: string)
    requires INT32_MIN <= firstSeq <= INT32_MAX
    ensures LegacyBlocks(ids, firstSeq, circuitId) == Blocks(ids, firstSeq, circuitId)
  {
    if ids != [] {
      var last := |ids| - 1;
      LegacyBlocksAreBlocks(ids[..last], firstSeq, circuitId);
      LegacyMirrorBlockShape(firstSeq, Null, circuitId, ids[last], true);
    }
  }

  /**
   * The older view is a root div (sequence 0) that spans only the five heading frames and the
   * listing, two frames per listed frame, followed, outside it, by one drill-down block per
   * collected id, each a debug MirrorComponent at `index * 10`; the whole is a sibling list of items.
   * (`ListingFlat` says what the listing and the collected ids are.)
   */
  lemma LegacyViewShape(fs: seq<Frame>, circuitId: string, componentType: ComponentType, componentId: int,
                        index: int, ids: seq<int>)
    ensures var r := LegacyView(fs, circuitId, componentType, componentId, index, ids);
      var l := LegacyFrom(fs, 0, index, ids, componentId);
      r.Ok? ==>
        && l.out.Ok?
        && r.value == LegacyHead(componentType, componentId, |l.out.value|) + l.out.value + Blocks(l.ids, LegacyScaled(l.index), circuitId)
        && |r.value| == 5 + 2 * Listed(fs) + 4 * |l.ids|
        && r.value[0] == Div(0, 5 + 2 * Listed(fs))
        && Siblings(r.value)
  {
    var l := LegacyFrom(fs, 0, index, ids, componentId);
    ListingShape(fs, index, ids, componentId);
    if l.out.Ok? {
      ViewOf(l, l.out.value, Listed(fs), circuitId, componentType, componentId);
    }
  }

  /** The listing of a whole render tree is a sibling list of two frames per listed frame. */
  lemma ListingShape(fs: seq<Frame>, index: int, ids: seq<int>, componentId: int)
    ensures var l := LegacyFrom(fs, 0, index, ids, componentId);
      l.out.Ok? ==> |l.out.value| == 2 * Listed(fs) && Siblings(l.out.value)
  {
    ListingFlat(fs, index, ids, componentId);
    LinesShape(fs, index);
  }

  /** The whole render tree, listed flat. */
  lemma ListingFlat(fs: seq<Frame>, index: int, ids: seq<int>, componentId: int)
    ensures var l := LegacyFrom(fs, 0, index, ids, componentId);
      l.out.Ok? ==>
        && l.out.value == Lines(fs, index)
        && l.index == index + Listed(fs)
        && l.ids == ids + ChildIds(fs, componentId)
  {
    LegacyFromFlat(fs, 0, index, ids, componentId);
    assert fs[0..] == fs;
  }

  /** The view around a finished listing whose rows are a sibling list of `2 * n` frames. */
  lemma ViewOf(l: Listing, rows: seq<Frame>, n: nat, circuitId: string, componentType: ComponentType, componentId: int)
    requires l.out == Ok(rows) && Siblings(rows) && |rows| == 2 * n
    ensures var r := Viewed(l, circuitId, componentType, componentId);
      && r.Ok?
      && r.value == LegacyHead(componentType, componentId, |rows|) + rows + Blocks(l.ids, LegacyScaled(l.index), circuitId)
      && |r.value| == 5 + 2 * n + 4 * |l.ids|
      && r.value[0] == Div(0, 5 + 2 * n)
      && Siblings(r.value)
  {
    var firstSeq := LegacyScaled(l.index);
    var blocks := Blocks(l.ids, firstSeq, circuitId);
    LegacyBlocksAreBlocks(l.ids, firstSeq, circuitId);
    BlocksShape(l.ids, firstSeq, circuitId);
    var head := LegacyHead(componentType, componentId, |rows|);
    LegacyRootItem(componentType, componentId, rows);
    SiblingsAppend(head + rows, blocks);
    ViewFrames(head, rows, blocks);
  }

  /** Where the parts of the view's frames sit. */
  lemma ViewFrames(head: seq<Frame>, rows: seq<Frame>, blocks: seq<Frame>)
    requires |head| == 5
    ensures var v := head + rows + blocks;
      && |v| == 5 + |rows| + |blocks| && v[0] == head[0]
      && v[5 .. 5 + |rows|] == rows && v[5 + |rows| ..] == blocks
  {
  }

  /** The root div is one element item spanning its style, the title div and the rows. */
  lemma LegacyRootItem(componentType: ComponentType, componentId: int, rows: seq<Frame>)
    requires Siblings(rows)
    ensures Siblings(LegacyHead(componentType, componentId, |rows|) + rows)
  {
    HeadShape(componentType, componentId, |rows|);
    RootOver(LegacyHead(componentType, componentId, |rows|), rows);
  }

  /** The heading: the root div, its style attribute, and the title div, one item of three frames. */
  lemma HeadShape(componentType: ComponentType, componentId: int, n: nat)
    ensures var head := LegacyHead(componentType, componentId, n);
      && |head| == 5 && head[0] == Div(0, 5 + n) && head[1].Attribute? && Siblings(head[2..])
  {
    var head := LegacyHead(componentType, componentId, n);
    var nameDiv := head[2..];
    ElementItem(nameDiv[0], [nameDiv[1]], [nameDiv[2]]);
    SingleFrame(nameDiv[2]);
    assert [nameDiv[0]] + [nameDiv[1]] + [nameDiv[2]] == nameDiv;
    SiblingsCons(nameDiv, []);
    assert nameDiv + [] == nameDiv;
  }

  /** A five-frame heading whose root div spans it and `rows` is, with the rows, one item. */
  lemma RootOver(head: seq<Frame>, rows: seq<Frame>)
    requires |head| == 5 && head[0] == Div(0, 5 + |rows|) && head[1].Attribute?
    requires Siblings(head[2..]) && Siblings(rows)
    ensures Siblings(head + rows)
  {
    var children := head[2..] + rows;
    SiblingsAppend(head[2..], rows);
    ElementItem(head[0], [head[1]], children);
    assert [head[0]] + [head[1]] + children == head + rows;
    SiblingsCons(head + rows, []);
    assert head + rows + [] == head + rows;
  }

  /** A well-formed render tree always has an older debug view. */
  lemma LegacyViewTotal(fs: seq<Frame>, circuitId: string, componentType: ComponentType, componentId: int,
                        index: int, ids: seq<int>)
    requires Siblings(fs)
    ensures LegacyView(fs, circuitId, componentType, componentId, index, ids).Ok?
  {
    assert fs[0..] == fs;
    LegacyFromTotal(fs, 0, index, ids, componentId);
  }

  // ---------------------------------------------------------------------------------------------
  // The zero-length subtree

  /**
   * The loop's turn as the code is written: the subtree is sliced with `Slice(i, length)`, which
   * accepts a length of 0, and `i` moves by `length - 1` before the loop's `i++`.
   */
  function AsWrittenStep(fs: seq<Frame>, i: nat, index: int, ids: seq<int>, componentId: int): (r: Step)
    requires i < |fs|
    ensures r.next <= |fs|
  {
    var f := fs[i];
    if f.Element? || f.Component? || f.Region? then
      var length := Span(f);
      match Slice(fs, i, length)
      case Err(e) => Step(Err(e), i + 1, index, ids)
      case Ok(subtree) =>
        Step(Ok(Lines(subtree, index)), i + (length - 1) + 1, index + Listed(subtree), ids + ChildIds(subtree, componentId))
    else LegacyStep(fs, i, index, ids, componentId)
  }

  /**
   * On a header whose subtree length is 0 the written loop lists nothing and comes back to the same
   * frame with the same counters, so it never ends; the corrected turn rejects the frame.
   */
  lemma ZeroLengthStalls(fs: seq<Frame>, i: nat, index: int, ids: seq<int>, componentId: int)
    requires i < |fs| && (fs[i].Element? || fs[i].Component? || fs[i].Region?) && Span(fs[i]) == 0
    ensures AsWrittenStep(fs, i, index, ids, componentId) == Step(Ok([]), i, index, ids)
    ensures LegacyStep(fs, i, index, ids, componentId).out == Err(OutOfRange)
  {
    assert fs[i .. i] == [];
    assert ids + [] == ids;
  }

  /** Everywhere else the correction changes nothing. */
  lemma AsWrittenAgrees(fs: seq<Frame>, i: nat, index: int, ids: seq<int>, componentId: int)
    requires i < |fs| && !((fs[i].Element? || fs[i].Component? || fs[i].Region?) && Span(fs[i]) == 0)
    ensures AsWrittenStep(fs, i, index, ids, componentId) == LegacyStep(fs, i, index, ids, componentId)
  {
  }

  /** A one-frame tree whose div claims no frames at all: the written loop stays at frame 0. */
  lemma ZeroLengthExample()
    ensures AsWrittenStep([Div(0, 0)], 0, 0, [], 1) == Step(Ok([]), 0, 0, [])
    ensures LegacyView([Div(0, 0)], "c", MirrorComponentType, 1, 0, []) == Err(OutOfRange)
  {
    ZeroLengthStalls([Div(0, 0)], 0, 0, [], 1);
  }
}
