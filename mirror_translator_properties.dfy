/** What the live translation guarantees about its output. */
module MirrorTranslationProperties {
  import opened Wrappers
  import opened Frames
  import opened TranslatorBase
  import opened MirrorTranslation

  /** No component of the application survives: every Component frame is a MirrorComponent. */
  predicate MirrorsOnly(out: seq<Frame>)
  {
    forall j | 0 <= j < |out| :: out[j].Component? ==> out[j].componentType == Some(MirrorComponentType)
  }

  lemma MirrorsOnlyAppend(a: seq<Frame>, b: seq<Frame>)
    requires MirrorsOnly(a) && MirrorsOnly(b)
    ensures MirrorsOnly(a + b)
  {
    forall j | 0 <= j < |a + b|
      ensures (a + b)[j].Component? ==> (a + b)[j].componentType == Some(MirrorComponentType)
    {
      if j >= |a| {
        assert (a + b)[j] == b[j - |a|];
      }
    }
  }

  // ---------------------------------------------------------------------------------------------
  // Attributes of an element

  lemma {:induction false} MirrorAttributeAt(neutralise: bool, attributes: seq<Frame>, j: int)
    requires AllAttributes(attributes) && 0 <= j < |attributes|
    ensures MirrorAttributes(neutralise, attributes)[j] == MirrorAttribute(neutralise, attributes[j])
    decreases |attributes|
  {
    var last := |attributes| - 1;
    if j < last {
      MirrorAttributeAt(neutralise, attributes[..last], j);
    }
  }

  /**
   * Attributes are re-emitted one for one and in order: same name, event handler and
   * updates-attribute name, sequence number times SEQ_MUL.
   */
  lemma MirrorAttributesInOrder(neutralise: bool, attributes: seq<Frame>)
    requires AllAttributes(attributes)
    ensures var out := MirrorAttributes(neutralise, attributes);
      && |out| == |attributes| && AllAttributes(out)
      && forall j | 0 <= j < |out| ::
           && out[j].sequence == Scaled(attributes[j].sequence)
           && out[j].name == attributes[j].name
           && out[j].eventHandlerId == attributes[j].eventHandlerId
           && out[j].updatesAttributeName == attributes[j].updatesAttributeName
  {
    forall j | 0 <= j < |attributes| {
      MirrorAttributeAt(neutralise, attributes, j);
    }
  }

  /** On an anchor with no target="_blank", every `href` the mirror shows is "javascript:void(0)". */
  lemma AnchorHrefNeutralised(element: Frame, attributes: seq<Frame>)
    requires element.Element? && AllAttributes(attributes)
    requires element.name == "a" && !HasTargetBlank(attributes)
    ensures var out := MirrorAttributes(Neutralises(element, attributes), attributes);
      forall j | 0 <= j < |out| :: out[j].Attribute? && (out[j].name == "href" ==> out[j].value == Str(VOID_HREF))
  {
    forall j | 0 <= j < |attributes| {
      MirrorAttributeAt(true, attributes, j);
    }
  }

  /**
   * Every attribute value is kept when the element is not an anchor, or when some attribute is
   * target="_blank" (such a link opens a new tab and does not move the mirror).
   */
  lemma AttributeValuesKept(element: Frame, attributes: seq<Frame>)
    requires element.Element? && AllAttributes(attributes)
    requires element.name != "a" || HasTargetBlank(attributes)
    ensures var out := MirrorAttributes(Neutralises(element, attributes), attributes);
      forall j | 0 <= j < |out| :: out[j].Attribute? && out[j].value == attributes[j].value
  {
    forall j | 0 <= j < |attributes| {
      MirrorAttributeAt(false, attributes, j);
    }
  }

  // ---------------------------------------------------------------------------------------------
  // Well-formed input is translated without error

  /** On a well-formed sibling list the walk never stops with an error. */
  lemma {:induction false} LiveFromTotal(fs: seq<Frame>, i: nat, circuitId: string)
    requires i <= |fs| && Siblings(fs[i..])
    ensures LiveFrom(fs, i, circuitId).Ok?
    decreases |fs|, 1, |fs| - i
  {
    if i < |fs| {
      LiveItemTotal(fs, i, circuitId);
      LiveFromTotal(fs, LiveItem(fs, i, circuitId).next, circuitId);
    }
  }

  /** One step over a well-formed item succeeds and lands on the next sibling. */
  lemma {:induction false} LiveItemTotal(fs: seq<Frame>, i: nat, circuitId: string)
    requires i < |fs| && Siblings(fs[i..])
    ensures var step := LiveItem(fs, i, circuitId);
      && step.out.Ok? && step.next == i + Span(fs[i]) && Siblings(fs[step.next..])
    decreases |fs|, 0, 0
  {
    var rest := fs[i..];
    var length := Span(fs[i]);
    assert rest[0] == fs[i];
    assert rest[..length] == fs[i .. i + length];
    assert rest[length..] == fs[i + length..];
    var item := fs[i .. i + length];
    assert Item(item);
    match fs[i]
    case Element(_, _, _, _) =>
      var subtree := fs[i + 1 .. i + length];
      assert item[1..] == subtree;
      var k := AttributePrefix(subtree);
      assert subtree[k..][0..] == subtree[k..];
      LiveFromTotal(subtree[k..], 0, circuitId);
    case Component(_, _, _, _, _) =>
      assert item[1..] == fs[i + 1 .. i + length];
    case Region(_, _) =>
      var subtree := fs[i + 1 .. i + length];
      assert item[1..] == subtree;
      assert subtree[0..] == subtree;
      LiveFromTotal(subtree, 0, circuitId);
    case Text(_, _) =>
    case Markup(_, _) =>
  }

  /** A well-formed render tree always translates. */
  lemma TranslateTotal(fs: seq<Frame>, circuitId: string)
    requires Siblings(fs)
    ensures Translate(fs, circuitId).Ok?
  {
    assert fs[0..] == fs;
    LiveFromTotal(fs, 0, circuitId);
  }

  // ---------------------------------------------------------------------------------------------
  // The unused slots of the backing array change nothing

  /** A run of None frames translates to nothing: the loop skips them one by one. */
  lemma {:induction false} LiveFromUnused(fs: seq<Frame>, i: nat, circuitId: string)
    requires i <= |fs| && forall j | i <= j < |fs| :: fs[j].NoneFrame?
    ensures LiveFrom(fs, i, circuitId) == Ok([])
    decreases |fs| - i
  {
    if i < |fs| {
      LiveFromUnused(fs, i + 1, circuitId);
    }
  }

  /** A step that succeeds reads only its own subtree, so frames after the end do not change it. */
  lemma LiveItemExtended(tree: seq<Frame>, fs: seq<Frame>, i: nat, circuitId: string)
    requires tree <= fs && i < |tree| && LiveItem(tree, i, circuitId).out.Ok?
    ensures LiveItem(fs, i, circuitId) == LiveItem(tree, i, circuitId)
  {
    assert fs[i] == tree[i];
    if tree[i].Element? || tree[i].Component? || tree[i].Region? {
      SubtreeExtended(tree, fs, i, circuitId);
    }
    match tree[i]
    case Element(_, _, _, _) => ElementExtended(tree, fs, i, circuitId);
    case Component(_, _, _, _, _) => ComponentExtended(tree, fs, i, circuitId);
    case Region(_, _) => RegionExtended(tree, fs, i, circuitId);
    case _ =>
  }

  lemma ElementExtended(tree: seq<Frame>, fs: seq<Frame>, i: nat, circuitId: string)
    requires tree <= fs && i < |tree| && tree[i].Element?
    requires 1 <= tree[i].subtreeLength && i + tree[i].subtreeLength <= |tree|
    ensures LiveItem(fs, i, circuitId) == LiveItem(tree, i, circuitId)
  {
    assert fs[i] == tree[i];
    assert fs[i + 1 .. i + tree[i].subtreeLength] == tree[i + 1 .. i + tree[i].subtreeLength];
  }

  lemma ComponentExtended(tree: seq<Frame>, fs: seq<Frame>, i: nat, circuitId: string)
    requires tree <= fs && i < |tree| && tree[i].Component?
    requires 1 <= tree[i].subtreeLength && i + tree[i].subtreeLength <= |tree|
    requires AllAttributes(tree[i + 1 .. i + tree[i].subtreeLength])
    ensures LiveItem(fs, i, circuitId) == LiveItem(tree, i, circuitId)
  {
    var length := tree[i].subtreeLength;
    assert fs[i] == tree[i];
    assert fs[i + 1 .. i + length] == tree[i + 1 .. i + length];
    assert LiveItem(tree, i, circuitId) == Step(Ok(ComponentOut(tree[i], circuitId)), i + length);
  }

  lemma RegionExtended(tree: seq<Frame>, fs: seq<Frame>, i: nat, circuitId: string)
    requires tree <= fs && i < |tree| && tree[i].Region?
    requires 1 <= tree[i].subtreeLength && i + tree[i].subtreeLength <= |tree|
    ensures LiveItem(fs, i, circuitId) == LiveItem(tree, i, circuitId)
  {
    assert fs[i] == tree[i];
    assert fs[i + 1 .. i + tree[i].subtreeLength] == tree[i + 1 .. i + tree[i].subtreeLength];
  }

  /** The subtree of a header whose step succeeds lies within `tree`, so it is the same in `fs`. */
  lemma SubtreeExtended(tree: seq<Frame>, fs: seq<Frame>, i: nat, circuitId: string)
    requires tree <= fs && i < |tree| && LiveItem(tree, i, circuitId).out.Ok?
    requires tree[i].Element? || tree[i].Component? || tree[i].Region?
    ensures 1 <= Span(tree[i]) && i + Span(tree[i]) <= |tree|
    ensures fs[i + 1 .. i + Span(tree[i])] == tree[i + 1 .. i + Span(tree[i])]
  {
  }

  /** A walk that succeeds over `tree` yields the same over `tree` followed by None frames. */
  lemma {:induction false} LiveFromExtended(tree: seq<Frame>, tail: seq<Frame>, i: nat, circuitId: string)
    requires i <= |tree| && LiveFrom(tree, i, circuitId).Ok? && Unused(tail)
    ensures LiveFrom(tree + tail, i, circuitId) == LiveFrom(tree, i, circuitId)
    decreases |tree| - i
  {
    var fs := tree + tail;
    if i == |tree| {
      LiveFromUnused(fs, i, circuitId);
    } else {
      var step := LiveItem(tree, i, circuitId);
      assert fs[..|tree|] == tree;
      LiveItemExtended(tree, fs, i, circuitId);
      LiveFromExtended(tree, tail, step.next, circuitId);
    }
  }

  /**
   * A mirror is handed the whole backing array of a render tree's buffer: the tree, then unused None
   * slots. Those slots change nothing: the array translates exactly as the tree does, and so always
   * when the tree is well formed.
   */
  lemma TranslateBackingArray(tree: seq<Frame>, tail: seq<Frame>, circuitId: string)
    requires Unused(tail)
    ensures Translate(tree, circuitId).Ok? ==> Translate(tree + tail, circuitId) == Translate(tree, circuitId)
    ensures Siblings(tree) ==> Translate(tree + tail, circuitId).Ok?
  {
    if Siblings(tree) {
      TranslateTotal(tree, circuitId);
    }
    if Translate(tree, circuitId).Ok? {
      LiveFromExtended(tree, tail, 0, circuitId);
    }
  }

  // ---------------------------------------------------------------------------------------------
  // The output is well formed, and its lengths are the lengths of what was emitted

  lemma SingleFrame(f: Frame)
    requires f.Text? || f.Markup?
    ensures Siblings([f])
  {
    assert [f][..1] == [f] && [f][1..] == [];
  }

  /**
   * Whatever the walk emits is a well-formed sibling list — so every Element, Region and Component
   * header it emits spans exactly the frames emitted inside it — and holds only MirrorComponents.
   */
  lemma {:induction false} LiveFromWellFormed(fs: seq<Frame>, i: nat, circuitId: string)
    requires i <= |fs|
    ensures var r := LiveFrom(fs, i, circuitId); r.Ok? ==> Siblings(r.value) && MirrorsOnly(r.value)
    decreases |fs|, 1, |fs| - i
  {
    if i < |fs| {
      var step := LiveItem(fs, i, circuitId);
      LiveItemWellFormed(fs, i, circuitId);
      LiveFromWellFormed(fs, step.next, circuitId);
      var r := LiveFrom(fs, i, circuitId);
      if r.Ok? {
        var rest := LiveFrom(fs, step.next, circuitId);
        SiblingsAppend(step.out.value, rest.value);
        MirrorsOnlyAppend(step.out.value, rest.value);
      }
    }
  }

  lemma {:induction false} LiveItemWellFormed(fs: seq<Frame>, i: nat, circuitId: string)
    requires i < |fs|
    ensures var step := LiveItem(fs, i, circuitId);
      step.out.Ok? ==> Siblings(step.out.value) && MirrorsOnly(step.out.value)
    decreases |fs|, 0, 1
  {
    match fs[i]
    case Element(_, _, _, _) => ElementStepWellFormed(fs, i, circuitId);
    case Component(_, _, _, _, _) => ComponentOutWellFormed(fs[i], circuitId);
    case Region(_, _) => RegionStepWellFormed(fs, i, circuitId);
    case Text(_, _) => SingleFrame(LiveItem(fs, i, circuitId).out.value[0]);
    case Markup(_, _) => SingleFrame(LiveItem(fs, i, circuitId).out.value[0]);
    case _ =>
  }

  lemma {:induction false} ElementStepWellFormed(fs: seq<Frame>, i: nat, circuitId: string)
    requires i < |fs| && fs[i].Element?
    ensures var step := LiveItem(fs, i, circuitId);
      step.out.Ok? ==> Siblings(step.out.value) && MirrorsOnly(step.out.value)
    decreases |fs|, 0, 0
  {
    var length := fs[i].subtreeLength;
    if 1 <= length && i + length <= |fs| {
      var subtree := fs[i + 1 .. i + length];
      var k := AttributePrefix(subtree);
      ElementLiveWellFormed(fs[i], subtree[..k], subtree[k..], circuitId);
    }
  }

  lemma {:induction false} ElementLiveWellFormed(element: Frame, attributes: seq<Frame>, children: seq<Frame>, circuitId: string)
    requires element.Element? && AllAttributes(attributes)
    ensures var r := ElementLive(element, attributes, children, circuitId);
      r.Ok? ==> Siblings(r.value) && MirrorsOnly(r.value)
    decreases |children|, 2, 0
  {
    LiveFromWellFormed(children, 0, circuitId);
    var r := LiveFrom(children, 0, circuitId);
    if r.Ok? {
      ElementOutWellFormed(element, attributes, r.value);
    }
  }

  lemma {:induction false} RegionStepWellFormed(fs: seq<Frame>, i: nat, circuitId: string)
    requires i < |fs| && fs[i].Region?
    ensures var step := LiveItem(fs, i, circuitId);
      step.out.Ok? ==> Siblings(step.out.value) && MirrorsOnly(step.out.value)
    decreases |fs|, 0, 0
  {
    var length := fs[i].subtreeLength;
    if 1 <= length && i + length <= |fs| {
      RegionLiveWellFormed(fs[i], fs[i + 1 .. i + length], circuitId);
    }
  }

  lemma {:induction false} RegionLiveWellFormed(region: Frame, children: seq<Frame>, circuitId: string)
    requires region.Region?
    ensures var r := RegionLive(region, children, circuitId);
      r.Ok? ==> Siblings(r.value) && MirrorsOnly(r.value)
    decreases |children|, 2, 0
  {
    LiveFromWellFormed(children, 0, circuitId);
    var r := LiveFrom(children, 0, circuitId);
    if r.Ok? {
      RegionOutWellFormed(region, r.value);
    }
  }

  /** An element's translation is one item: its header spans its attributes and children. */
  lemma ElementOutWellFormed(element: Frame, attributes: seq<Frame>, children: seq<Frame>)
    requires element.Element? && AllAttributes(attributes)
    requires Siblings(children) && MirrorsOnly(children)
    ensures Siblings(ElementOut(element, attributes, children)) && MirrorsOnly(ElementOut(element, attributes, children))
  {
    var out := MirrorAttributes(Neutralises(element, attributes), attributes);
    MirrorAttributesInOrder(Neutralises(element, attributes), attributes);
    var header := Element(Scaled(element.sequence), 1 + |attributes| + |children|, element.name, element.key);
    ElementItem(header, out, children);
    SiblingsCons([header] + out + children, []);
    assert [header] + out + children + [] == ElementOut(element, attributes, children);
    MirrorsOnlyAppend([header] + out, children);
  }

  lemma RegionOutWellFormed(region: Frame, children: seq<Frame>)
    requires region.Region? && Siblings(children) && MirrorsOnly(children)
    ensures var out := [Region(Scaled(region.sequence), 1 + |children|)] + children;
      Siblings(out) && MirrorsOnly(out)
  {
    var header := Region(Scaled(region.sequence), 1 + |children|);
    RegionItem(header, children);
    SiblingsCons([header] + children, []);
    assert [header] + children + [] == [header] + children;
    MirrorsOnlyAppend([header], children);
  }

  /** A component becomes nothing or one four-frame MirrorComponent item. */
  lemma ComponentOutWellFormed(component: Frame, circuitId: string)
    requires component.Component?
    ensures Siblings(ComponentOut(component, circuitId)) && MirrorsOnly(ComponentOut(component, circuitId))
  {
    MirrorBlockShape(Scaled(component.sequence), component.key, circuitId, component.componentId, false);
  }

  /** The output of a live translation is a well-formed render tree holding only MirrorComponents. */
  lemma TranslateWellFormed(fs: seq<Frame>, circuitId: string)
    ensures var r := Translate(fs, circuitId); r.Ok? ==> Siblings(r.value) && MirrorsOnly(r.value)
  {
    LiveFromWellFormed(fs, 0, circuitId);
  }
}
