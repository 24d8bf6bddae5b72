/**
 * Blazor render-tree frames as values, and the shape the translators expect of a frame list.
 *
 * A render tree is a flat list of frames. Element, Component and Region frames carry the length of
 * their subtree (the frame itself included); the Attribute frames of an Element or Component follow it
 * directly. The translators walk such a list sibling by sibling.
 */
module Frames {
  import opened Wrappers

  /** The value of an attribute or of a key: C# `object?`, restricted to what the translators inspect. */
  datatype Value =
    | Null
    | Str(s: string)
    | Int(i: int)
    | Bool(b: bool)
    | Object(handle: nat)   // any other object (event handler delegates, keys), compared by identity
    | PaddingLeft(em: int)  // the interpolated style string "padding-left: {em}em; " of a debug row

  /**
   * The CLR type of a component, as far as the translators look at it: the simple type name, and
   * whether the type carries the hide-in-mirror marker. `MirrorComponentType` is the library's own
   * mirror component.
   */
  datatype ComponentType =
    | MirrorComponentType
    | AppComponentType(name: string, hiddenInMirror: bool)

  function TypeName(t: ComponentType): string
  {
    match t
    case MirrorComponentType => "MirrorComponent"
    case AppComponentType(name, _) => name
  }

  /** Whether components of this type are hidden in mirror circuits. */
  predicate HiddenInMirror(t: ComponentType)
  {
    t.AppComponentType? && t.hiddenInMirror
  }

  /**
   * Text content. The debug listings build their texts by string interpolation, printing frames with
   * the framework's own formatting; such a text is kept structured, as the values interpolated into
   * it, instead of being rendered to characters.
   */
  datatype Content =
    | Literal(s: string)
    | FrameRow(index: int, frame: Frame)                        // "{index}: {frame}"
    | ComponentRow(index: int, frame: Frame, componentId: int)  // "{index}: {frame}, componentId={id}"
    | Heading(componentId: int, componentType: ComponentType)  // "Component with id={id} type='{type name}': "
    | DebugViewTitle(componentType: ComponentType, componentId: int)  // "DEBUG VIEW OF '{type name}' componentId={id}"

  datatype Frame =
    | NoneFrame
    | Element(sequence: int, subtreeLength: int, name: string, key: Value)
    | Attribute(sequence: int, name: string, value: Value, eventHandlerId: nat, updatesAttributeName: Option<string>)
    | Component(sequence: int, subtreeLength: int, componentType: Option<ComponentType>, componentId: int, key: Value)
    | Region(sequence: int, subtreeLength: int)
    | Text(sequence: int, content: Content)
    | Markup(sequence: int, markup: string)
    | ElementReferenceCapture(sequence: int)
    | ComponentReferenceCapture(sequence: int)
    | ComponentRenderMode(sequence: int)
    | NamedEvent(sequence: int)
    | Unrecognised(sequence: int)   // a frame type this library does not know

  /** The sequence number of any frame; a default (None) frame has sequence 0. */
  function SequenceOf(f: Frame): int
  {
    if f.NoneFrame? then 0 else f.sequence
  }

  /** The frames a frame spans: its subtree length for Element, Component and Region, else 1. */
  function Span(f: Frame): int
  {
    match f
    case Element(_, length, _, _) => length
    case Component(_, length, _, _, _) => length
    case Region(_, length) => length
    case _ => 1
  }

  /** The frame types of the framework's `RenderTreeFrameType`. */
  datatype FrameKind =
    | NoneKind | ElementKind | AttributeKind | ComponentKind | RegionKind | TextKind | MarkupKind
    | ElementReferenceCaptureKind | ComponentReferenceCaptureKind | ComponentRenderModeKind | NamedEventKind
    | UnrecognisedKind

  function KindOf(f: Frame): FrameKind
  {
    match f
    case NoneFrame => NoneKind
    case Element(_, _, _, _) => ElementKind
    case Attribute(_, _, _, _, _) => AttributeKind
    case Component(_, _, _, _, _) => ComponentKind
    case Region(_, _) => RegionKind
    case Text(_, _) => TextKind
    case Markup(_, _) => MarkupKind
    case ElementReferenceCapture(_) => ElementReferenceCaptureKind
    case ComponentReferenceCapture(_) => ComponentReferenceCaptureKind
    case ComponentRenderMode(_) => ComponentRenderModeKind
    case NamedEvent(_) => NamedEventKind
    case Unrecognised(_) => UnrecognisedKind
  }

  /** A simple Element frame with no key, as the translators build their own `div`s. */
  function Div(sequence: int, subtreeLength: int): Frame
  {
    Element(sequence, subtreeLength, "div", Null)
  }

  /** A plain attribute with no event handler. */
  function Attr(sequence: int, name: string, value: Value): Frame
  {
    Attribute(sequence, name, value, 0, None)
  }

  predicate AllAttributes(fs: seq<Frame>)
  {
    forall j | 0 <= j < |fs| :: fs[j].Attribute?
  }

  /** The unused slots of a frame buffer's backing array: default frames, all None. */
  predicate Unused(fs: seq<Frame>)
  {
    forall j | 0 <= j < |fs| :: fs[j].NoneFrame?
  }

  // ---------------------------------------------------------------------------------------------
  // Listing frames as text rows (both debug views)

  /** The text of a listed frame: the running index and the frame, and for a component its id. */
  function RowText(f: Frame, index: int): Content
  {
    if f.Component? then ComponentRow(index, f, f.componentId) else FrameRow(index, f)
  }

  /** How many rows a frame counts for: a None frame is not counted. */
  function Advance(f: Frame): nat
  {
    if f.NoneFrame? then 0 else 1
  }

  /** The number of counted frames among `fs`. */
  function Listed(fs: seq<Frame>): nat
  {
    if fs == [] then 0 else Advance(fs[0]) + Listed(fs[1..])
  }

  // ---------------------------------------------------------------------------------------------
  // C# int arithmetic

  const INT32_MIN: int := -0x8000_0000
  const INT32_MAX: int := 0x7FFF_FFFF

  /** C# unchecked `int` arithmetic: the result reduced into the 32-bit two's-complement range. */
  function Wrap32(x: int): (r: int)
    ensures INT32_MIN <= r <= INT32_MAX
    ensures INT32_MIN <= x <= INT32_MAX ==> r == x
  {
    if INT32_MIN <= x <= INT32_MAX then x else (x - INT32_MIN) % 0x1_0000_0000 + INT32_MIN
  }

  // ---------------------------------------------------------------------------------------------
  // Attribute prefix and well-formed frame lists

  /** The length of the longest prefix of `fs` made of Attribute frames. */
  function AttributePrefix(fs: seq<Frame>): (n: nat)
    ensures n <= |fs|
    ensures AllAttributes(fs[..n])
    ensures n < |fs| ==> !fs[n].Attribute?
  {
    if fs == [] || !fs[0].Attribute? then 0
    else
      var n := 1 + AttributePrefix(fs[1..]);
      assert fs[..n] == [fs[0]] + fs[1..][..n - 1];
      n
  }

  /** The attribute prefix is determined by where the first non-attribute frame sits. */
  lemma AttributePrefixOfConcat(attributes: seq<Frame>, rest: seq<Frame>)
    requires AllAttributes(attributes)
    requires rest == [] || !rest[0].Attribute?
    ensures AttributePrefix(attributes + rest) == |attributes|
  {
    var fs := attributes + rest;
    var n := AttributePrefix(fs);
    assert forall j | 0 <= j < |attributes| :: fs[j] == attributes[j];
    assert rest != [] ==> fs[|attributes|] == rest[0];
  }

  /**
   * `fs` is a list of sibling subtrees: each starts with a frame whose span fits in what is left,
   * and each is a well-formed item. This is the walk the translators make over their input.
   */
  ghost predicate Siblings(fs: seq<Frame>)
    decreases |fs|, 1
  {
    if fs == [] then true
    else
      var length := Span(fs[0]);
      1 <= length <= |fs| && Item(fs[..length]) && Siblings(fs[length..])
  }

  /**
   * `x` is one subtree: an Element followed by its attributes and sibling children, a Component
   * followed by attributes only, a Region followed by sibling children, or a lone Text or Markup frame.
   */
  ghost predicate Item(x: seq<Frame>)
    requires x != []
    decreases |x|, 0
  {
    match x[0]
    case Element(_, _, _, _) =>
      var body := x[1..];
      Siblings(body[AttributePrefix(body)..])
    case Component(_, _, _, _, _) => AllAttributes(x[1..])
    case Region(_, _) => Siblings(x[1..])
    case Text(_, _) => true
    case Markup(_, _) => true
    case _ => false
  }

  /** Sibling lists concatenate. */
  lemma {:induction false} SiblingsAppend(a: seq<Frame>, b: seq<Frame>)
    requires Siblings(a) && Siblings(b)
    ensures Siblings(a + b)
    decreases |a|
  {
    if a != [] {
      var length := Span(a[0]);
      assert (a + b)[0] == a[0];
      assert (a + b)[..length] == a[..length];
      assert (a + b)[length..] == a[length..] + b;
      SiblingsAppend(a[length..], b);
    } else {
      assert a + b == b;
    }
  }

  /** One well-formed item in front of a sibling list is again a sibling list. */
  lemma SiblingsCons(item: seq<Frame>, rest: seq<Frame>)
    requires item != [] && Span(item[0]) == |item| && Item(item)
    requires Siblings(rest)
    ensures Siblings(item + rest)
  {
    var fs := item + rest;
    assert fs[0] == item[0];
    assert fs[..|item|] == item;
    assert fs[|item|..] == rest;
  }

  /** A sibling list never starts with an Attribute frame. */
  lemma SiblingsHead(fs: seq<Frame>)
    requires Siblings(fs) && fs != []
    ensures !fs[0].Attribute?
  {
    assert fs[..Span(fs[0])][0] == fs[0];
  }

  /** The items an Element is made of: header, then attributes, then sibling children. */
  lemma ElementItem(header: Frame, attributes: seq<Frame>, children: seq<Frame>)
    requires header.Element? && header.subtreeLength == 1 + |attributes| + |children|
    requires AllAttributes(attributes) && Siblings(children)
    ensures var x := [header] + attributes + children; Span(x[0]) == |x| && Item(x)
  {
    var x := [header] + attributes + children;
    assert x[1..] == attributes + children;
    if children != [] {
      SiblingsHead(children);
    }
    AttributePrefixOfConcat(attributes, children);
    assert x[1..][|attributes|..] == children;
  }

  /** The items a Region is made of: header, then sibling children. */
  lemma RegionItem(header: Frame, children: seq<Frame>)
    requires header.Region? && header.subtreeLength == 1 + |children|
    requires Siblings(children)
    ensures var x := [header] + children; Span(x[0]) == |x| && Item(x)
  {
    assert ([header] + children)[1..] == children;
  }
}
