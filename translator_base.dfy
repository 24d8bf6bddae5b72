/**
 * What the render-tree translators share (RenderTreeTranslatorBase): the output buffer, the
 * subtree-length capture that back-fills a header once its scope closes, the attribute prefix taken
 * off an element's subtree, and the four-frame MirrorComponent block.
 *
 * The dispatch loop over the input frames calls virtual hooks; each concrete translator
 * (MirrorTranslation, DebugTranslation) carries its own copy of that loop with its hooks inlined.
 */
module TranslatorBase {
  import opened Wrappers
  import opened Frames

  /** MirrorComponent has three parameters (CircuitId, ComponentId, DebugView). */
  const NO_PARAMETERS: int := 3

  /** Every input sequence number is multiplied by this, leaving room for a mirror block's frames. */
  const SEQ_MUL: int := NO_PARAMETERS + 1

  /** Why a translation stopped: the exceptions the translators and the span slicing throw. */
  datatype TranslationError =
    | AttributeWithoutParent          // an Attribute frame at sibling level
    | ComponentContainsNonAttribute   // a Component subtree holding something other than attributes
    | NotImplemented                  // reference captures, render modes, named events, unknown kinds
    | OutOfRange                      // a subtree length that does not fit, or a capture slot past the end
    | InvalidCaptureState             // a capture found its placeholder already overwritten

  /** `s * SEQ_MUL` in C# int arithmetic. */
  function Scaled(s: int): int
  {
    Wrap32(s * SEQ_MUL)
  }

  /** `base + k` in C# int arithmetic. */
  function Offset(base: int, k: int): int
  {
    Wrap32(base + k)
  }

  /** The `List<RenderTreeFrame>` a translator appends to. */
  class FrameList {
    var frames: seq<Frame>

    constructor()
      ensures frames == []
    {
      frames := [];
    }

    method Add(f: Frame)
      modifies this
      ensures frames == old(frames) + [f]
    {
      frames := frames + [f];
    }

    method Clear()
      modifies this
      ensures frames == []
    {
      frames := [];
    }
  }

  /** The frame a capture builds once it knows the subtree length (the capture's builder delegate). */
  datatype HeaderBuilder =
    | ElementHeader(sequence: int, name: string, key: Value)
    | ComponentHeader(sequence: int, componentType: ComponentType, key: Value)
    | RegionHeader(sequence: int)

  function Build(h: HeaderBuilder, subtreeLength: int): (f: Frame)
    ensures Span(f) == subtreeLength
    ensures f.Element? || f.Component? || f.Region?
  {
    match h
    case ElementHeader(s, name, key) => Element(s, subtreeLength, name, key)
    case ComponentHeader(s, t, key) => Component(s, subtreeLength, Some(t), 0, key)
    case RegionHeader(s) => Region(s, subtreeLength)
  }

  /**
   * A subtree-length capture: opening it appends a None placeholder at the end of the buffer;
   * disposing it overwrites that slot with the header, whose length is everything appended since.
   */
  datatype SubtreeLengthCapture = SubtreeLengthCapture(result: FrameList, rootIndex: nat, build: HeaderBuilder)
  {
    static method Open(result: FrameList, build: HeaderBuilder) returns (c: SubtreeLengthCapture)
      modifies result
      ensures c.result == result && c.build == build
      ensures c.rootIndex == |old(result.frames)|
      ensures result.frames == old(result.frames) + [NoneFrame]
    {
      c := SubtreeLengthCapture(result, |result.frames|, build);
      result.Add(NoneFrame);
    }

    method Dispose() returns (err: Option<TranslationError>)
      modifies result
      ensures var before := old(result.frames);
        && (rootIndex >= |before| ==> err == Some(OutOfRange) && result.frames == before)
        && (rootIndex < |before| && !before[rootIndex].NoneFrame? ==>
              err == Some(InvalidCaptureState) && result.frames == before)
        && (rootIndex < |before| && before[rootIndex].NoneFrame? ==>
              err == None && result.frames == before[rootIndex := Build(build, |before| - rootIndex)])
    {
      var subtreeLength := |result.frames| - rootIndex;
      if rootIndex >= |result.frames| {
        return Some(OutOfRange);
      }
      if !result.frames[rootIndex].NoneFrame? {
        return Some(InvalidCaptureState);
      }
      result.frames := result.frames[rootIndex := Build(build, subtreeLength)];
      err := None;
    }
  }

  lemma AppendedSplit(before: seq<Frame>, after: seq<Frame>)
    requires Appended(before, after)
    ensures after == before + after[|before|..]
  {
    assert after == after[..|before|] + after[|before|..];
  }

  /** Closing a capture over `body`: the placeholder in front of it becomes the header. */
  lemma BackFilled(start: seq<Frame>, body: seq<Frame>, header: Frame)
    ensures (start + [NoneFrame] + body)[|start| := header] == start + [header] + body
    ensures (start + [header] + body)[|start|..] == [header] + body
  {
    var all := start + [NoneFrame] + body;
    assert forall j | 0 <= j < |all| :: all[|start| := header][j] == (start + [header] + body)[j];
  }

  /** The attributes at the start of an element's subtree: its longest prefix of Attribute frames. */
  method TakeAttributes(frames: seq<Frame>) returns (attributes: seq<Frame>)
    ensures attributes == frames[..AttributePrefix(frames)]
  {
    var count := 0;
    while count < |frames|
      invariant 0 <= count <= |frames|
      invariant AllAttributes(frames[..count])
    {
      if !frames[count].Attribute? {
        break;
      }
      assert frames[..count + 1] == frames[..count] + [frames[count]];
      count := count + 1;
    }
    AttributePrefixOfConcat(frames[..count], frames[count..]);
    assert frames[..count] + frames[count..] == frames;
    attributes := frames[..count];
  }

  /**
   * The block that stands for one component in a mirror: a MirrorComponent frame spanning four
   * frames, then its CircuitId, ComponentId and DebugView attributes.
   */
  function MirrorBlock(firstSeq: int, key: Value, circuitId: string, componentId: int, debugView: bool): seq<Frame>
  {
    [ Component(firstSeq, 4, Some(MirrorComponentType), 0, key),
      Attr(Offset(firstSeq, 1), "CircuitId", Str(circuitId)),
      Attr(Offset(firstSeq, 2), "ComponentId", Int(componentId)),
      Attr(Offset(firstSeq, 3), "DebugView", Bool(debugView)) ]
  }

  /** Appends a mirror block, its header length back-filled by a capture. */
  method AddMirrorComponent(result: FrameList, firstSeq: int, key: Value, circuitId: string, componentId: int, debugView: bool)
    modifies result
    ensures result.frames == old(result.frames) + MirrorBlock(firstSeq, key, circuitId, componentId, debugView)
  {
    var mirrorComponent := SubtreeLengthCapture.Open(result, ComponentHeader(firstSeq, MirrorComponentType, key));
    result.Add(Attr(Offset(firstSeq, 1), "CircuitId", Str(circuitId)));
    result.Add(Attr(Offset(firstSeq, 2), "ComponentId", Int(componentId)));
    result.Add(Attr(Offset(firstSeq, 3), "DebugView", Bool(debugView)));
    var err := mirrorComponent.Dispose();
    assert err == None;
  }

  /** A mirror block is one well-formed component item of four frames. */
  lemma MirrorBlockShape(firstSeq: int, key: Value, circuitId: string, componentId: int, debugView: bool)
    ensures var b := MirrorBlock(firstSeq, key, circuitId, componentId, debugView);
      && |b| == 4 && Span(b[0]) == 4 && Item(b) && Siblings(b)
  {
    var b := MirrorBlock(firstSeq, key, circuitId, componentId, debugView);
    assert b[..4] == b && b[4..] == [];
  }

  /**
   * The sequence numbers of a block for input sequence `s` are `s * SEQ_MUL + 0..3`; for input
   * sequence numbers below 2^29 these never wrap, so blocks for distinct inputs never share one.
   */
  lemma MirrorBlockSequencesDistinct(s1: int, j1: int, s2: int, j2: int)
    requires 0 <= s1 < 0x2000_0000 && 0 <= s2 < 0x2000_0000
    requires 0 <= j1 < SEQ_MUL && 0 <= j2 < SEQ_MUL
    ensures Offset(Scaled(s1), j1) == s1 * SEQ_MUL + j1
    ensures Offset(Scaled(s1), j1) == Offset(Scaled(s2), j2) <==> s1 == s2 && j1 == j2
  {
    assert Scaled(s1) == s1 * SEQ_MUL;
    assert Scaled(s2) == s2 * SEQ_MUL;
    if s1 < s2 {
      assert s1 * SEQ_MUL + j1 < s2 * SEQ_MUL + j2;
    } else if s2 < s1 {
      assert s2 * SEQ_MUL + j2 < s1 * SEQ_MUL + j1;
    }
  }

  /** `prefix` put in front of a successful result; an error passes through. */
  function Prepend(prefix: seq<Frame>, r: Result<seq<Frame>, TranslationError>): (out: Result<seq<Frame>, TranslationError>)
    ensures out.Ok? == r.Ok?
    ensures out.Ok? ==> out.value == prefix + r.value
    ensures out.Err? ==> out == r
  {
    match r
    case Ok(rest) => Ok(prefix + rest)
    case Err(e) => Err(e)
  }

  lemma PrependNothing(r: Result<seq<Frame>, TranslationError>)
    ensures Prepend([], r) == r
  {
    if r.Ok? {
      assert [] + r.value == r.value;
    }
  }

  /** The first result followed by the second; the first error wins. */
  function Then(first: Result<seq<Frame>, TranslationError>, rest: Result<seq<Frame>, TranslationError>): Result<seq<Frame>, TranslationError>
  {
    match first
    case Ok(p) => Prepend(p, rest)
    case Err(e) => Err(e)
  }

  /** `after` is `before` with frames appended. */
  predicate Appended(before: seq<Frame>, after: seq<Frame>)
  {
    |before| <= |after| && after[..|before|] == before
  }

  /** What a translating method produced: the frames it appended, or the error it stopped with. */
  function Outcome(before: seq<Frame>, after: seq<Frame>, err: Option<TranslationError>): Result<seq<Frame>, TranslationError>
    requires Appended(before, after)
  {
    match err
    case None => Ok(after[|before|..])
    case Some(e) => Err(e)
  }

  /** A translating call that appended `head[|start|..]` first and then the rest, as one outcome. */
  lemma OutcomeAfter(start: seq<Frame>, head: seq<Frame>, final: seq<Frame>, err: Option<TranslationError>)
    requires Appended(start, head) && Appended(head, final)
    ensures Appended(start, final)
    ensures Outcome(start, final, err) == Prepend(head[|start|..], Outcome(head, final, err))
  {
    AppendedStep(start, head, final, Ok([]));
  }

  /**
   * A translating loop's step that succeeded: the whole result, seen as what was appended so far in
   * front of the rest of the walk, is what is appended now in front of the walk after the step.
   */
  lemma LoopStep(start: seq<Frame>, before: seq<Frame>, after: seq<Frame>,
                 whole: Result<seq<Frame>, TranslationError>, current: Result<seq<Frame>, TranslationError>,
                 rest: Result<seq<Frame>, TranslationError>)
    requires Appended(start, before) && Appended(before, after)
    requires whole == Prepend(before[|start|..], current)
    requires current == Then(Outcome(before, after, None), rest)
    ensures Appended(start, after)
    ensures whole == Prepend(after[|start|..], rest)
  {
    AppendedStep(start, before, after, rest);
  }

  /** A translating loop's step that failed: its error is the whole result. */
  lemma LoopStop(done: seq<Frame>, whole: Result<seq<Frame>, TranslationError>, current: Result<seq<Frame>, TranslationError>,
                 step: Result<seq<Frame>, TranslationError>, rest: Result<seq<Frame>, TranslationError>)
    requires whole == Prepend(done, current) && current == Then(step, rest) && step.Err?
    ensures whole == step
  {
  }

  /** One step of a translating loop: what the step appended joins what was appended before it. */
  lemma AppendedStep(start: seq<Frame>, before: seq<Frame>, after: seq<Frame>, rest: Result<seq<Frame>, TranslationError>)
    requires Appended(start, before) && Appended(before, after)
    ensures Appended(start, after)
    ensures after[|start|..] == before[|start|..] + after[|before|..]
    ensures Prepend(before[|start|..], Prepend(after[|before|..], rest)) == Prepend(after[|start|..], rest)
  {
    assert after[..|start|] == after[..|before|][..|start|];
    assert after == before + after[|before|..];
    if rest.Ok? {
      assert before[|start|..] + (after[|before|..] + rest.value) == after[|start|..] + rest.value;
    }
  }
}
