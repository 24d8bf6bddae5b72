/** What the debug translator guarantees about its listing and its whole view. */
module DebugTranslationProperties {
  import opened Wrappers
  import opened Frames
  import opened TranslatorBase
  import opened MirrorTranslation
  import opened MirrorTranslationProperties
  import opened DebugTranslation

  // ---------------------------------------------------------------------------------------------
  // Rows and blocks

  /** A row is one well-formed item: a div spanning its style and, except for None, its text. */
  lemma RowShape(f: Frame, index: int, indent: int)
    ensures var row := Row(f, index, indent);
      && |row| == 2 + Advance(f) && Span(row[0]) == |row| && Siblings(row)
  {
    var row := Row(f, index, indent);
    ElementItem(row[0], [row[1]], row[2..]);
    assert [row[0]] + [row[1]] + row[2..] == row;
    if f.NoneFrame? {
      assert Siblings(row[2..]);
    } else {
      SingleFrame(row[2]);
      assert row[2..] == [row[2]];
    }
    SiblingsCons(row, []);
    assert row + [] == row;
  }

  /** The rows of a list of frames form a sibling list with two or three frames per row. */
  lemma {:induction false} RowsShape(fs: seq<Frame>, index: int, indent: int)
    ensures var rows := Rows(fs, index, indent);
      |rows| == 2 * |fs| + Listed(fs) && Siblings(rows)
  {
    if fs != [] {
      var next := index + Advance(fs[0]);
      var row := Row(fs[0], index, indent);
      var rest := Rows(fs[1..], next, indent);
      RowsShape(fs[1..], next, indent);
      RowShape(fs[0], index, indent);
      RowsCons(row, rest, Advance(fs[0]), |fs| - 1, Listed(fs[1..]));
    }
  }

  lemma RowsCons(row: seq<Frame>, rest: seq<Frame>, advance: nat, n: nat, listed: nat)
    requires |row| == 2 + advance && Siblings(row)
    requires |rest| == 2 * n + listed && Siblings(rest)
    ensures |row + rest| == 2 * (n + 1) + advance + listed && Siblings(row + rest)
  {
    SiblingsAppend(row, rest);
  }

  /** Every attribute is counted: no attribute row is a None row. */
  lemma {:induction false} ListedAttributes(fs: seq<Frame>)
    requires AllAttributes(fs)
    ensures Listed(fs) == |fs|
  {
    if fs != [] {
      ListedAttributes(fs[1..]);
    }
  }

  /** The drill-down blocks: four frames per collected id, together a sibling list. */
  lemma {:induction false} BlocksShape(ids: seq<int>, firstSeq: int, circuitId: string)
    ensures var blocks := Blocks(ids, firstSeq, circuitId);
      |blocks| == 4 * |ids| && Siblings(blocks)
  {
    if ids != [] {
      var last := |ids| - 1;
      BlocksShape(ids[..last], firstSeq, circuitId);
      MirrorBlockShape(firstSeq, Null, circuitId, ids[last], true);
      SiblingsAppend(Blocks(ids[..last], firstSeq, circuitId), MirrorBlock(firstSeq, Null, circuitId, ids[last], true));
    }
  }

  /** The k-th drill-down block is the debug MirrorComponent for the k-th collected id. */
  lemma {:induction false} BlockAt(ids: seq<int>, firstSeq: int, circuitId: string, k: nat)
    requires k < |ids|
    ensures |Blocks(ids, firstSeq, circuitId)| == 4 * |ids|
    ensures Blocks(ids, firstSeq, circuitId)[4 * k .. 4 * k + 4] == MirrorBlock(firstSeq, Null, circuitId, ids[k], true)
  {
    var last := |ids| - 1;
    var prefix := Blocks(ids[..last], firstSeq, circuitId);
    var block := MirrorBlock(firstSeq, Null, circuitId, ids[last], true);
    BlocksShape(ids[..last], firstSeq, circuitId);
    if k < last {
      BlockAt(ids[..last], firstSeq, circuitId, k);
      SliceOfPrefix(prefix, block, 4 * k, 4 * k + 4);
    } else {
      SliceOfSuffix(prefix, block);
    }
  }

  lemma SliceOfPrefix(a: seq<Frame>, b: seq<Frame>, lo: nat, hi: nat)
    requires lo <= hi <= |a|
    ensures (a + b)[lo..hi] == a[lo..hi]
  {
  }

  lemma SliceOfSuffix(a: seq<Frame>, b: seq<Frame>)
    ensures (a + b)[|a|..|a| + |b|] == b
  {
  }

  // ---------------------------------------------------------------------------------------------
  // The listing

  /** `after` extends `before` with ids that are never the root component's own id. */
  predicate Collected(before: seq<int>, after: seq<int>, componentId: int)
  {
    && |before| <= |after| && after[..|before|] == before
    && forall j | |before| <= j < |after| :: after[j] != componentId
  }

  /**
   * What a part of the listing promises: its frames are a sibling list of three-frame rows, one per
   * step of the running index, and the ids it collected are not the root component's.
   */
  ghost predicate ListingFacts(out: seq<Frame>, before: Counters, after: Counters, componentId: int)
  {
    && Siblings(out)
    && before.index <= after.index
    && |out| == 3 * (after.index - before.index)
    && Collected(before.ids, after.ids, componentId)
  }

  lemma ListingFactsJoin(a: seq<Frame>, b: seq<Frame>, c0: Counters, c1: Counters, c2: Counters, componentId: int)
    requires ListingFacts(a, c0, c1, componentId) && ListingFacts(b, c1, c2, componentId)
    ensures ListingFacts(a + b, c0, c2, componentId)
  {
    SiblingsAppend(a, b);
    assert c2.ids[..|c0.ids|] == c2.ids[..|c1.ids|][..|c0.ids|];
  }

  /** The rows of an element's or a component's attributes. */
  lemma AttributeRows(attributes: seq<Frame>, index: int, indent: int, ids: seq<int>, componentId: int)
    requires AllAttributes(attributes)
    ensures ListingFacts(Rows(attributes, index, indent), Counters(index, ids), Counters(index + Listed(attributes), ids), componentId)
  {
    RowsShape(attributes, index, indent);
    ListedAttributes(attributes);
    assert ids[..|ids|] == ids;
  }

  /** The row of a frame that is not None. */
  lemma OneRow(f: Frame, index: int, indent: int, ids: seq<int>, componentId: int)
    requires !f.NoneFrame?
    ensures ListingFacts(Row(f, index, indent), Counters(index, ids), Counters(index + 1, ids), componentId)
  {
    RowShape(f, index, indent);
    assert ids[..|ids|] == ids;
  }

  lemma {:induction false} DebugFromFacts(fs: seq<Frame>, i: nat, indent: int, c: Counters, componentId: int)
    requires i <= |fs|
    ensures var w := DebugFrom(fs, i, indent, c, componentId);
      w.out.Ok? ==> ListingFacts(w.out.value, c, w.after, componentId)
    decreases |fs|, 1, |fs| - i
  {
    if i == |fs| {
      assert c.ids[..|c.ids|] == c.ids;
    } else {
      var step := DebugItem(fs, i, indent, c, componentId);
      DebugItemFacts(fs, i, indent, c, componentId);
      DebugFromFacts(fs, step.next, indent, step.after, componentId);
      var rest := DebugFrom(fs, step.next, indent, step.after, componentId);
      if step.out.Ok? && rest.out.Ok? {
        ListingFactsJoin(step.out.value, rest.out.value, c, step.after, rest.after, componentId);
      }
    }
  }

  lemma {:induction false} DebugItemFacts(fs: seq<Frame>, i: nat, indent: int, c: Counters, componentId: int)
    requires i < |fs|
    ensures var step := DebugItem(fs, i, indent, c, componentId);
      step.out.Ok? ==> ListingFacts(step.out.value, c, step.after, componentId)
    decreases |fs|, 0, 1
  {
    match fs[i]
    case Element(_, _, _, _) => ElementStepFacts(fs, i, indent, c, componentId);
    case Region(_, _) => RegionStepFacts(fs, i, indent, c, componentId);
    case Component(_, _, _, _, _) => ComponentStepFacts(fs, i, indent, c, componentId);
    case _ => OtherStepFacts(fs, i, indent, c, componentId);
  }

  lemma {:induction false} ElementStepFacts(fs: seq<Frame>, i: nat, indent: int, c: Counters, componentId: int)
    requires i < |fs| && fs[i].Element?
    ensures var step := DebugItem(fs, i, indent, c, componentId);
      step.out.Ok? ==> ListingFacts(step.out.value, c, step.after, componentId)
    decreases |fs|, 0, 0
  {
    var length := fs[i].subtreeLength;
    if 1 <= length && i + length <= |fs| {
      var subtree := fs[i + 1 .. i + length];
      var k := AttributePrefix(subtree);
      ElementWalkFacts(fs[i], subtree[..k], subtree[k..], indent, c, componentId);
    }
  }

  lemma {:induction false} RegionStepFacts(fs: seq<Frame>, i: nat, indent: int, c: Counters, componentId: int)
    requires i < |fs| && fs[i].Region?
    ensures var step := DebugItem(fs, i, indent, c, componentId);
      step.out.Ok? ==> ListingFacts(step.out.value, c, step.after, componentId)
    decreases |fs|, 0, 0
  {
    var length := fs[i].subtreeLength;
    if 1 <= length && i + length <= |fs| {
      RegionWalkFacts(fs[i], fs[i + 1 .. i + length], indent, c, componentId);
    }
  }

  lemma ComponentStepFacts(fs: seq<Frame>, i: nat, indent: int, c: Counters, componentId: int)
    requires i < |fs| && fs[i].Component?
    ensures var step := DebugItem(fs, i, indent, c, componentId);
      step.out.Ok? ==> ListingFacts(step.out.value, c, step.after, componentId)
  {
    var length := fs[i].subtreeLength;
    if 1 <= length && i + length <= |fs| && AllAttributes(fs[i + 1 .. i + length]) {
      ComponentWalkFacts(fs[i], fs[i + 1 .. i + length], indent, c, componentId);
    }
  }

  lemma OtherStepFacts(fs: seq<Frame>, i: nat, indent: int, c: Counters, componentId: int)
    requires i < |fs| && !fs[i].Element? && !fs[i].Region? && !fs[i].Component?
    ensures var step := DebugItem(fs, i, indent, c, componentId);
      step.out.Ok? ==> ListingFacts(step.out.value, c, step.after, componentId)
  {
    if fs[i].Text? || fs[i].Markup? {
      OneRow(fs[i], c.index, indent, c.ids, componentId);
    } else {
      assert c.ids[..|c.ids|] == c.ids;
    }
  }

  lemma CollectedNothing(ids: seq<int>, componentId: int)
    ensures Collected(ids, ids, componentId)
  {
    assert ids[..|ids|] == ids;
  }

  /** A row followed, one level deeper, by the rows of the frame's attributes. */
  lemma HeadFacts(f: Frame, attributes: seq<Frame>, index: int, indent: int, ids: seq<int>, newIds: seq<int>, componentId: int)
    requires !f.NoneFrame? && AllAttributes(attributes) && Collected(ids, newIds, componentId)
    ensures ListingFacts(Row(f, index, indent) + Rows(attributes, index + 1, indent + 1),
                         Counters(index, ids), Counters(index + 1 + Listed(attributes), newIds), componentId)
  {
    RowShape(f, index, indent);
    RowsShape(attributes, index + 1, indent + 1);
    ListedAttributes(attributes);
    SiblingsAppend(Row(f, index, indent), Rows(attributes, index + 1, indent + 1));
  }

  lemma {:induction false} ElementWalkFacts(element: Frame, attributes: seq<Frame>, children: seq<Frame>, indent: int, c: Counters, componentId: int)
    requires element.Element? && AllAttributes(attributes)
    ensures var w := ElementWalk(element, attributes, children, indent, c, componentId);
      w.out.Ok? ==> ListingFacts(w.out.value, c, w.after, componentId)
    decreases |children|, 2, 0
  {
    var c2 := Counters(c.index + 1 + Listed(attributes), c.ids);
    DebugFromFacts(children, 0, indent + 1, c2, componentId);
    CollectedNothing(c.ids, componentId);
    HeadFacts(element, attributes, c.index, indent, c.ids, c.ids, componentId);
    ResumeFacts(Row(element, c.index, indent) + Rows(attributes, c.index + 1, indent + 1),
                DebugFrom(children, 0, indent + 1, c2, componentId), c, c2, componentId);
  }

  lemma {:induction false} RegionWalkFacts(region: Frame, children: seq<Frame>, indent: int, c: Counters, componentId: int)
    requires region.Region?
    ensures var w := RegionWalk(region, children, indent, c, componentId);
      w.out.Ok? ==> ListingFacts(w.out.value, c, w.after, componentId)
    decreases |children|, 2, 0
  {
    var c1 := Counters(c.index + 1, c.ids);
    DebugFromFacts(children, 0, indent + 1, c1, componentId);
    OneRow(region, c.index, indent, c.ids, componentId);
    ResumeFacts(Row(region, c.index, indent), DebugFrom(children, 0, indent + 1, c1, componentId), c, c1, componentId);
  }

  /** A listed head followed by a listed walk is listed. */
  lemma ResumeFacts(head: seq<Frame>, inner: Walk, c0: Counters, c1: Counters, componentId: int)
    requires ListingFacts(head, c0, c1, componentId)
    requires inner.out.Ok? ==> ListingFacts(inner.out.value, c1, inner.after, componentId)
    ensures var w := Resume(head, inner); w.out.Ok? ==> ListingFacts(w.out.value, c0, w.after, componentId)
  {
    if inner.out.Ok? {
      ListingFactsJoin(head, inner.out.value, c0, c1, inner.after, componentId);
    }
  }

  /**
   * A component lists its row and, unless its type is hidden, its attribute rows; it adds its id to
   * the drill-down ids unless it is the root component itself. It never fails.
   */
  lemma ComponentWalkFacts(component: Frame, attributes: seq<Frame>, indent: int, c: Counters, componentId: int)
    requires component.Component? && AllAttributes(attributes)
    ensures var w := ComponentWalk(component, attributes, indent, c, componentId);
      w.out.Ok? && ListingFacts(w.out.value, c, w.after, componentId)
  {
    match component.componentType
    case None => CollectedNothing(c.ids, componentId);
    case Some(t) =>
      if HiddenInMirror(t) {
        OneRow(component, c.index, indent, c.ids, componentId);
      } else {
        var ids := if componentId != component.componentId then c.ids + [component.componentId] else c.ids;
        assert ids[..|c.ids|] == c.ids;
        HeadFacts(component, attributes, c.index, indent, c.ids, ids, componentId);
      }
  }

  // ---------------------------------------------------------------------------------------------
  // The drill-down ids

  /**
   * Whether the listing adds a drill-down block for `f`: a component whose type is known, is not
   * hidden in mirrors, and which is not the root component itself.
   */
  predicate Collects(f: Frame, componentId: int)
  {
    f.Component? && f.componentType.Some? && !HiddenInMirror(f.componentType.value) && f.componentId != componentId
  }

  /** The ids of the frames of `fs` the listing collects, in document order. */
  function CollectedIds(fs: seq<Frame>, componentId: int): seq<int>
  {
    if fs == [] then []
    else (if Collects(fs[0], componentId) then [fs[0].componentId] else []) + CollectedIds(fs[1..], componentId)
  }

  lemma {:induction false} CollectedIdsAppend(a: seq<Frame>, b: seq<Frame>, componentId: int)
    ensures CollectedIds(a + b, componentId) == CollectedIds(a, componentId) + CollectedIds(b, componentId)
    decreases |a|
  {
    if a == [] {
      assert a + b == b;
    } else {
      assert (a + b)[0] == a[0] && (a + b)[1..] == a[1..] + b;
      CollectedIdsAppend(a[1..], b, componentId);
    }
  }

  /** Attributes are never collected. */
  lemma {:induction false} CollectedIdsOfAttributes(fs: seq<Frame>, componentId: int)
    requires AllAttributes(fs)
    ensures CollectedIds(fs, componentId) == []
  {
    if fs != [] {
      CollectedIdsOfAttributes(fs[1..], componentId);
    }
  }

  /**
   * An id is collected if and only if a component of `fs` with a known type that is not hidden carries
   * it, and it is not the root component's own id.
   */
  lemma {:induction false} CollectedIdsMember(fs: seq<Frame>, componentId: int, id: int)
    ensures id in CollectedIds(fs, componentId)
        <==> id != componentId && exists j :: 0 <= j < |fs| && Collects(fs[j], componentId) && fs[j].componentId == id
  {
    if fs != [] {
      CollectedIdsMember(fs[1..], componentId, id);
      if exists j :: 0 <= j < |fs| && Collects(fs[j], componentId) && fs[j].componentId == id {
        var j :| 0 <= j < |fs| && Collects(fs[j], componentId) && fs[j].componentId == id;
        if j > 0 {
          assert fs[1..][j - 1] == fs[j];
        }
      }
      if exists j :: 0 <= j < |fs[1..]| && Collects(fs[1..][j], componentId) && fs[1..][j].componentId == id {
        var j :| 0 <= j < |fs[1..]| && Collects(fs[1..][j], componentId) && fs[1..][j].componentId == id;
        assert fs[j + 1] == fs[1..][j];
      }
    }
  }

  /** A single frame that is not a collected component adds no id. */
  lemma NothingCollected(f: Frame, componentId: int)
    requires !Collects(f, componentId)
    ensures CollectedIds([f], componentId) == []
  {
    assert [f][1..] == [];
  }

  /**
   * When the listing succeeds it has collected, after the ids it started with, exactly the ids of
   * the components of `fs[i..]` with a known type that is not hidden, other than the root component,
   * in document order.
   */
  lemma {:induction false} DebugFromCollects(fs: seq<Frame>, i: nat, indent: int, c: Counters, componentId: int)
    requires i <= |fs|
    ensures var w := DebugFrom(fs, i, indent, c, componentId);
      w.out.Ok? ==> w.after.ids == c.ids + CollectedIds(fs[i..], componentId)
    decreases |fs|, 1, |fs| - i
  {
    if i == |fs| {
      assert fs[i..] == [];
      assert c.ids + [] == c.ids;
    } else {
      var step := DebugItem(fs, i, indent, c, componentId);
      DebugItemCollects(fs, i, indent, c, componentId);
      DebugFromCollects(fs, step.next, indent, step.after, componentId);
      var rest := DebugFrom(fs, step.next, indent, step.after, componentId);
      if step.out.Ok? && rest.out.Ok? {
        assert fs[i..] == fs[i .. step.next] + fs[step.next..];
        CollectedIdsAppend(fs[i .. step.next], fs[step.next..], componentId);
      }
    }
  }

  lemma {:induction false} DebugItemCollects(fs: seq<Frame>, i: nat, indent: int, c: Counters, componentId: int)
    requires i < |fs|
    ensures var step := DebugItem(fs, i, indent, c, componentId);
      step.out.Ok? ==> step.after.ids == c.ids + CollectedIds(fs[i .. step.next], componentId)
    decreases |fs|, 0, 1
  {
    match fs[i]
    case Element(_, _, _, _) => ElementStepCollects(fs, i, indent, c, componentId);
    case Region(_, _) => RegionStepCollects(fs, i, indent, c, componentId);
    case Component(_, _, _, _, _) => ComponentStepCollects(fs, i, indent, c, componentId);
    case _ =>
      assert fs[i .. i + 1] == [fs[i]];
      NothingCollected(fs[i], componentId);
      assert c.ids + [] == c.ids;
  }

  lemma {:induction false} ElementStepCollects(fs: seq<Frame>, i: nat, indent: int, c: Counters, componentId: int)
    requires i < |fs| && fs[i].Element?
    ensures var step := DebugItem(fs, i, indent, c, componentId);
      step.out.Ok? ==> step.after.ids == c.ids + CollectedIds(fs[i .. step.next], componentId)
    decreases |fs|, 0, 0
  {
    var length := fs[i].subtreeLength;
    if 1 <= length && i + length <= |fs| {
      var subtree := fs[i + 1 .. i + length];
      var k := AttributePrefix(subtree);
      ElementWalkCollects(fs[i], subtree[..k], subtree[k..], indent, c, componentId);
      assert fs[i .. i + length] == [fs[i]] + subtree[..k] + subtree[k..];
      HeadCollectsNothing(fs[i], subtree[..k], subtree[k..], componentId);
    }
  }

  /** An element or region header and its attributes add no id ahead of its children. */
  lemma HeadCollectsNothing(f: Frame, attributes: seq<Frame>, children: seq<Frame>, componentId: int)
    requires !f.Component? && AllAttributes(attributes)
    ensures CollectedIds([f] + attributes + children, componentId) == CollectedIds(children, componentId)
  {
    CollectedIdsAppend([f] + attributes, children, componentId);
    CollectedIdsAppend([f], attributes, componentId);
    NothingCollected(f, componentId);
    CollectedIdsOfAttributes(attributes, componentId);
  }

  lemma {:induction false} ElementWalkCollects(element: Frame, attributes: seq<Frame>, children: seq<Frame>, indent: int, c: Counters, componentId: int)
    ensures var w := ElementWalk(element, attributes, children, indent, c, componentId);
      w.out.Ok? ==> w.after.ids == c.ids + CollectedIds(children, componentId)
    decreases |children|, 2, 0
  {
    DebugFromCollects(children, 0, indent + 1, Counters(c.index + 1 + Listed(attributes), c.ids), componentId);
    assert children[0..] == children;
  }

  lemma {:induction false} RegionWalkCollects(region: Frame, children: seq<Frame>, indent: int, c: Counters, componentId: int)
    ensures var w := RegionWalk(region, children, indent, c, componentId);
      w.out.Ok? ==> w.after.ids == c.ids + CollectedIds(children, componentId)
    decreases |children|, 2, 0
  {
    DebugFromCollects(children, 0, indent + 1, Counters(c.index + 1, c.ids), componentId);
    assert children[0..] == children;
  }

  lemma {:induction false} RegionStepCollects(fs: seq<Frame>, i: nat, indent: int, c: Counters, componentId: int)
    requires i < |fs| && fs[i].Region?
    ensures var step := DebugItem(fs, i, indent, c, componentId);
      step.out.Ok? ==> step.after.ids == c.ids + CollectedIds(fs[i .. step.next], componentId)
    decreases |fs|, 0, 0
  {
    var length := fs[i].subtreeLength;
    if 1 <= length && i + length <= |fs| {
      var children := fs[i + 1 .. i + length];
      RegionWalkCollects(fs[i], children, indent, c, componentId);
      assert fs[i .. i + length] == [fs[i]] + [] + children;
      HeadCollectsNothing(fs[i], [], children, componentId);
    }
  }

  lemma ComponentStepCollects(fs: seq<Frame>, i: nat, indent: int, c: Counters, componentId: int)
    requires i < |fs| && fs[i].Component?
    ensures var step := DebugItem(fs, i, indent, c, componentId);
      step.out.Ok? ==> step.after.ids == c.ids + CollectedIds(fs[i .. step.next], componentId)
  {
    var length := fs[i].subtreeLength;
    if 1 <= length && i + length <= |fs| && AllAttributes(fs[i + 1 .. i + length]) {
      var attributes := fs[i + 1 .. i + length];
      assert fs[i .. i + length] == [fs[i]] + attributes;
      CollectedIdsAppend([fs[i]], attributes, componentId);
      CollectedIdsOfAttributes(attributes, componentId);
      assert [fs[i]][1..] == [];
      assert c.ids + [] == c.ids;
    }
  }

  /**
   * The drill-down blocks that end a debug view are one per collected id, and the collected ids are
   * exactly those of the render tree's components with a known type that is not hidden, other than
   * the root component, in document order.
   */
  lemma DebugTranslateBlocks(fs: seq<Frame>, circuitId: string, componentType: ComponentType, componentId: int)
    ensures var r := DebugTranslate(fs, circuitId, componentType, componentId);
      var w := DebugFrom(fs, 0, 0, Counters(0, []), componentId);
      var ids := CollectedIds(fs, componentId);
      r.Ok? ==>
        && w.after.ids == ids
        && 4 * |ids| <= |r.value|
        && r.value[|r.value| - 4 * |ids|..] == Blocks(ids, Scaled(w.after.index), circuitId)
  {
    DebugRootShape(fs, circuitId, componentType, componentId, 0, Counters(0, []));
    DebugFromCollects(fs, 0, 0, Counters(0, []), componentId);
    assert fs[0..] == fs;
  }

  // ---------------------------------------------------------------------------------------------
  // The unused slots of the backing array change nothing

  /** A run of None frames lists nothing and leaves the counters alone. */
  lemma {:induction false} DebugFromUnused(fs: seq<Frame>, i: nat, indent: int, c: Counters, componentId: int)
    requires i <= |fs| && forall j | i <= j < |fs| :: fs[j].NoneFrame?
    ensures DebugFrom(fs, i, indent, c, componentId) == Walk(Ok([]), c)
    decreases |fs| - i
  {
    if i < |fs| {
      DebugFromUnused(fs, i + 1, indent, c, componentId);
    }
  }

  /** A step that succeeds reads only its own subtree, so frames after the end do not change it. */
  lemma DebugItemExtended(tree: seq<Frame>, fs: seq<Frame>, i: nat, indent: int, c: Counters, componentId: int)
    requires tree <= fs && i < |tree| && DebugItem(tree, i, indent, c, componentId).out.Ok?
    ensures DebugItem(fs, i, indent, c, componentId) == DebugItem(tree, i, indent, c, componentId)
  {
    assert fs[i] == tree[i];
    if tree[i].Element? || tree[i].Component? || tree[i].Region? {
      DebugSubtreeExtended(tree, i, indent, c, componentId);
    }
    match tree[i]
    case Element(_, _, _, _) => DebugHeaderExtended(tree, fs, i, indent, c, componentId);
    case Component(_, _, _, _, _) => DebugHeaderExtended(tree, fs, i, indent, c, componentId);
    case Region(_, _) => DebugHeaderExtended(tree, fs, i, indent, c, componentId);
    case _ =>
  }

  /** The subtree of a header whose step succeeds lies within `tree`; a component's holds only attributes. */
  lemma DebugSubtreeExtended(tree: seq<Frame>, i: nat, indent: int, c: Counters, componentId: int)
    requires i < |tree| && DebugItem(tree, i, indent, c, componentId).out.Ok?
    requires tree[i].Element? || tree[i].Component? || tree[i].Region?
    ensures 1 <= Span(tree[i]) && i + Span(tree[i]) <= |tree|
    ensures tree[i].Component? ==> AllAttributes(tree[i + 1 .. i + Span(tree[i])])
  {
  }

  lemma DebugHeaderExtended(tree: seq<Frame>, fs: seq<Frame>, i: nat, indent: int, c: Counters, componentId: int)
    requires tree <= fs && i < |tree| && (tree[i].Element? || tree[i].Component? || tree[i].Region?)
    requires 1 <= Span(tree[i]) && i + Span(tree[i]) <= |tree|
    requires tree[i].Component? ==> AllAttributes(tree[i + 1 .. i + Span(tree[i])])
    ensures DebugItem(fs, i, indent, c, componentId) == DebugItem(tree, i, indent, c, componentId)
  {
    var length := Span(tree[i]);
    assert fs[i] == tree[i];
    assert fs[i + 1 .. i + length] == tree[i + 1 .. i + length];
  }

  /** A listing that succeeds over `tree` is the same over `tree` followed by None frames. */
  lemma {:induction false} DebugFromExtended(tree: seq<Frame>, tail: seq<Frame>, i: nat, indent: int, c: Counters, componentId: int)
    requires i <= |tree| && DebugFrom(tree, i, indent, c, componentId).out.Ok? && Unused(tail)
    ensures DebugFrom(tree + tail, i, indent, c, componentId) == DebugFrom(tree, i, indent, c, componentId)
    decreases |tree| - i
  {
    var fs := tree + tail;
    if i == |tree| {
      DebugFromUnused(fs, i, indent, c, componentId);
    } else {
      var step := DebugItem(tree, i, indent, c, componentId);
      assert fs[..|tree|] == tree;
      DebugItemExtended(tree, fs, i, indent, c, componentId);
      DebugFromExtended(tree, tail, step.next, indent, step.after, componentId);
    }
  }

  /**
   * The backing array of a render tree's buffer, the tree followed by unused None slots, has the
   * debug view of the tree, and so always has one when the tree is well formed.
   */
  lemma DebugTranslateBackingArray(tree: seq<Frame>, tail: seq<Frame>, circuitId: string, componentType: ComponentType, componentId: int)
    requires Unused(tail)
    ensures DebugTranslate(tree, circuitId, componentType, componentId).Ok? ==>
      DebugTranslate(tree + tail, circuitId, componentType, componentId) == DebugTranslate(tree, circuitId, componentType, componentId)
    ensures Siblings(tree) ==> DebugTranslate(tree + tail, circuitId, componentType, componentId).Ok?
  {
    if Siblings(tree) {
      DebugTranslateTotal(tree, circuitId, componentType, componentId);
    }
    if DebugTranslate(tree, circuitId, componentType, componentId).Ok? {
      DebugFromExtended(tree, tail, 0, 0, Counters(0, []), componentId);
    }
  }

  // ---------------------------------------------------------------------------------------------
  // The debug listing fails exactly where the live translation fails

  function ErrorOf(r: Result<seq<Frame>, TranslationError>): Option<TranslationError>
  {
    if r.Ok? then None else Some(r.error)
  }

  lemma {:induction false} DebugFromAgrees(fs: seq<Frame>, i: nat, indent: int, c: Counters, componentId: int, circuitId: string)
    requires i <= |fs|
    ensures ErrorOf(DebugFrom(fs, i, indent, c, componentId).out) == ErrorOf(LiveFrom(fs, i, circuitId))
    decreases |fs|, 1, |fs| - i
  {
    if i < |fs| {
      var step := DebugItem(fs, i, indent, c, componentId);
      DebugItemAgrees(fs, i, indent, c, componentId, circuitId);
      DebugFromAgrees(fs, step.next, indent, step.after, componentId, circuitId);
    }
  }

  /** One step of the debug walk fails where the live step fails, and resumes where it resumes. */
  ghost predicate StepsAgree(fs: seq<Frame>, i: nat, indent: int, c: Counters, componentId: int, circuitId: string)
    requires i < |fs|
  {
    var step := DebugItem(fs, i, indent, c, componentId);
    && ErrorOf(step.out) == ErrorOf(LiveItem(fs, i, circuitId).out)
    && step.next == LiveItem(fs, i, circuitId).next
  }

  lemma {:induction false} DebugItemAgrees(fs: seq<Frame>, i: nat, indent: int, c: Counters, componentId: int, circuitId: string)
    requires i < |fs|
    ensures StepsAgree(fs, i, indent, c, componentId, circuitId)
    decreases |fs|, 0, 1
  {
    match fs[i]
    case Element(_, _, _, _) => ElementStepAgrees(fs, i, indent, c, componentId, circuitId);
    case Region(_, _) => RegionStepAgrees(fs, i, indent, c, componentId, circuitId);
    case _ => OtherStepAgrees(fs, i, indent, c, componentId, circuitId);
  }

  lemma {:induction false} ElementStepAgrees(fs: seq<Frame>, i: nat, indent: int, c: Counters, componentId: int, circuitId: string)
    requires i < |fs| && fs[i].Element?
    ensures StepsAgree(fs, i, indent, c, componentId, circuitId)
    decreases |fs|, 0, 0
  {
    var length := fs[i].subtreeLength;
    if 1 <= length && i + length <= |fs| {
      var subtree := fs[i + 1 .. i + length];
      var k := AttributePrefix(subtree);
      ElementAgrees(fs[i], subtree[..k], subtree[k..], indent, c, componentId, circuitId);
    }
  }

  lemma {:induction false} RegionStepAgrees(fs: seq<Frame>, i: nat, indent: int, c: Counters, componentId: int, circuitId: string)
    requires i < |fs| && fs[i].Region?
    ensures StepsAgree(fs, i, indent, c, componentId, circuitId)
    decreases |fs|, 0, 0
  {
    var length := fs[i].subtreeLength;
    if 1 <= length && i + length <= |fs| {
      RegionAgrees(fs[i], fs[i + 1 .. i + length], indent, c, componentId, circuitId);
    }
  }

  lemma OtherStepAgrees(fs: seq<Frame>, i: nat, indent: int, c: Counters, componentId: int, circuitId: string)
    requires i < |fs| && !fs[i].Element? && !fs[i].Region?
    ensures StepsAgree(fs, i, indent, c, componentId, circuitId)
  {
  }

  /** A prefix in front of a walk does not change whether, or with what error, it fails. */
  lemma ResumeAgrees(prefix: seq<Frame>, w: Walk, live: Result<seq<Frame>, TranslationError>)
    requires ErrorOf(w.out) == ErrorOf(live)
    ensures ErrorOf(Resume(prefix, w).out) == ErrorOf(live)
  {
  }

  lemma {:induction false} ElementAgrees(element: Frame, attributes: seq<Frame>, children: seq<Frame>, indent: int, c: Counters, componentId: int, circuitId: string)
    requires element.Element? && AllAttributes(attributes)
    ensures ErrorOf(ElementWalk(element, attributes, children, indent, c, componentId).out)
         == ErrorOf(ElementLive(element, attributes, children, circuitId))
    decreases |children|, 2, 0
  {
    var c2 := Counters(c.index + 1 + Listed(attributes), c.ids);
    DebugFromAgrees(children, 0, indent + 1, c2, componentId, circuitId);
    ResumeAgrees(Row(element, c.index, indent) + Rows(attributes, c.index + 1, indent + 1),
                 DebugFrom(children, 0, indent + 1, c2, componentId), LiveFrom(children, 0, circuitId));
  }

  lemma {:induction false} RegionAgrees(region: Frame, children: seq<Frame>, indent: int, c: Counters, componentId: int, circuitId: string)
    requires region.Region?
    ensures ErrorOf(RegionWalk(region, children, indent, c, componentId).out) == ErrorOf(RegionLive(region, children, circuitId))
    decreases |children|, 2, 0
  {
    var c1 := Counters(c.index + 1, c.ids);
    DebugFromAgrees(children, 0, indent + 1, c1, componentId, circuitId);
    ResumeAgrees(Row(region, c.index, indent), DebugFrom(children, 0, indent + 1, c1, componentId), LiveFrom(children, 0, circuitId));
  }

  // ---------------------------------------------------------------------------------------------
  // The whole debug view

  /** A well-formed render tree always has a debug view. */
  lemma DebugTranslateTotal(fs: seq<Frame>, circuitId: string, componentType: ComponentType, componentId: int)
    requires Siblings(fs)
    ensures DebugTranslate(fs, circuitId, componentType, componentId).Ok?
  {
    TranslateTotal(fs, circuitId);
    DebugFromAgrees(fs, 0, 0, Counters(0, []), componentId, circuitId);
  }

  /** The name div of the heading: one element item of three frames. */
  lemma NameDivShape(componentId: int, componentType: ComponentType)
    ensures var nameDiv := Header(componentId, componentType)[1..];
      |nameDiv| == 3 && Siblings(nameDiv)
  {
    var nameDiv := Header(componentId, componentType)[1..];
    ElementItem(nameDiv[0], [nameDiv[1]], [nameDiv[2]]);
    SingleFrame(nameDiv[2]);
    assert [nameDiv[0]] + [nameDiv[1]] + [nameDiv[2]] == nameDiv;
    SiblingsCons(nameDiv, []);
    assert nameDiv + [] == nameDiv;
  }

  /** The root div around the heading, `rows` and `blocks` is one item spanning all of them. */
  lemma RootItem(componentId: int, componentType: ComponentType, rows: seq<Frame>, blocks: seq<Frame>)
    requires Siblings(rows) && Siblings(blocks)
    ensures var body := Header(componentId, componentType) + (rows + blocks);
      Siblings([Div(ROOT_DIV_SEQUENCE, 1 + |body|)] + body)
  {
    var header := Header(componentId, componentType);
    var nameDiv := header[1..];
    NameDivShape(componentId, componentType);
    SiblingsAppend(rows, blocks);
    SiblingsAppend(nameDiv, rows + blocks);
    var body := header + (rows + blocks);
    var root := Div(ROOT_DIV_SEQUENCE, 1 + |body|);
    ElementItem(root, [header[0]], nameDiv + (rows + blocks));
    assert [root] + [header[0]] + (nameDiv + (rows + blocks)) == [root] + body;
    SiblingsCons([root] + body, []);
    assert [root] + body + [] == [root] + body;
  }

  /**
   * The debug view is one root div (sequence 4) spanning everything emitted: the four heading
   * frames, three frames per listed frame and four per collected child id, none of which is the root
   * component's own id; the view ends with one debug block per collected id.
   */
  lemma DebugRootShape(fs: seq<Frame>, circuitId: string, componentType: ComponentType, componentId: int, indent: int, c: Counters)
    ensures var r := DebugRoot(fs, circuitId, componentType, componentId, indent, c);
      var w := DebugFrom(fs, 0, indent, c, componentId);
      r.Ok? ==>
        && Siblings(r.value) && r.value[0] == Div(ROOT_DIV_SEQUENCE, |r.value|)
        && c.index <= w.after.index
        && |r.value| == 5 + 3 * (w.after.index - c.index) + 4 * |w.after.ids|
        && Collected(c.ids, w.after.ids, componentId)
        && r.value[|r.value| - 4 * |w.after.ids|..] == Blocks(w.after.ids, Scaled(w.after.index), circuitId)
  {
    DebugFromFacts(fs, 0, indent, c, componentId);
    RootOf(DebugFrom(fs, 0, indent, c, componentId), c, circuitId, componentType, componentId);
  }

  /** The shape of the root div around the listing of a walk that starts from the counters `c`. */
  lemma RootOf(w: Walk, c: Counters, circuitId: string, componentType: ComponentType, componentId: int)
    requires w.out.Ok? ==> ListingFacts(w.out.value, c, w.after, componentId)
    ensures var r := Root(Listing(w, circuitId), componentType, componentId);
      r.Ok? ==>
        && Siblings(r.value) && r.value[0] == Div(ROOT_DIV_SEQUENCE, |r.value|)
        && c.index <= w.after.index
        && |r.value| == 5 + 3 * (w.after.index - c.index) + 4 * |w.after.ids|
        && Collected(c.ids, w.after.ids, componentId)
        && r.value[|r.value| - 4 * |w.after.ids|..] == Blocks(w.after.ids, Scaled(w.after.index), circuitId)
  {
    if w.out.Ok? {
      var rows := w.out.value;
      var blocks := Blocks(w.after.ids, Scaled(w.after.index), circuitId);
      BlocksShape(w.after.ids, Scaled(w.after.index), circuitId);
      RootItem(componentId, componentType, rows, blocks);
      RootFrames(Header(componentId, componentType), rows, blocks);
    }
  }

  /** Where the parts of the root div's frames sit. */
  lemma RootFrames(header: seq<Frame>, rows: seq<Frame>, blocks: seq<Frame>)
    ensures var body := header + (rows + blocks);
      var all := [Div(ROOT_DIV_SEQUENCE, 1 + |body|)] + body;
      && |all| == 1 + |header| + |rows| + |blocks|
      && all[0] == Div(ROOT_DIV_SEQUENCE, |all|)
      && all[|all| - |blocks|..] == blocks
  {
    var body := header + (rows + blocks);
    var all := [Div(ROOT_DIV_SEQUENCE, 1 + |body|)] + body;
    assert all == [all[0]] + header + rows + blocks;
  }
}
