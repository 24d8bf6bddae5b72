/**
 * The older translator base (RenderTreeMirrorTranslatorBase), kept beside the newer one: sequence
 * numbers are multiplied by 10, a MirrorComponent block is written with its length as the constant
 * 4, and subtree lengths are captured by a start/stop pair of calls instead of a disposable scope.
 * Its dispatch loop hands Element, Component and Region frames over together with their whole
 * subtree, header included; it lives with its one concrete translator, LegacyDebugTranslation.
 */
module LegacyTranslatorBase {
  import opened Wrappers
  import opened Frames
  import opened TranslatorBase

  const LEGACY_SEQ_MUL: int := 10

  /** `s * SEQ_MUL` in C# int arithmetic, with this base's multiplier. */
  function LegacyScaled(s: int): int
  {
    Wrap32(s * LEGACY_SEQ_MUL)
  }

  /** The argument checks' exceptions. */
  datatype ArgumentError =
    | NoFrames               // an empty span
    | UnexpectedFirstFrame   // the span does not start with the expected frame type
    | SubtreeLengthMismatch  // the span is not as long as expected

  /**
   * The block this base writes for one component: the MirrorComponent frame with the literal length
   * 4, then its CircuitId, ComponentId and DebugView attributes at `firstSeq + 1..3`.
   */
  function LegacyMirrorBlock(firstSeq: int, key: Value, circuitId: string, componentId: int, debugView: bool): seq<Frame>
  {
    [ Component(Offset(firstSeq, 0), 4, Some(MirrorComponentType), 0, key),
      Attr(Offset(firstSeq, 1), "CircuitId", Str(circuitId)),
      Attr(Offset(firstSeq, 2), "ComponentId", Int(componentId)),
      Attr(Offset(firstSeq, 3), "DebugView", Bool(debugView)) ]
  }

  method AddMirrorComponent(result: FrameList, firstSeq: int, key: Value, circuitId: string, componentId: int, debugView: bool)
    modifies result
    ensures result.frames == old(result.frames) + LegacyMirrorBlock(firstSeq, key, circuitId, componentId, debugView)
  {
    result.Add(Component(Offset(firstSeq, 0), 4, Some(MirrorComponentType), 0, key));
    result.Add(Attr(Offset(firstSeq, 1), "CircuitId", Str(circuitId)));
    result.Add(Attr(Offset(firstSeq, 2), "ComponentId", Int(componentId)));
    result.Add(Attr(Offset(firstSeq, 3), "DebugView", Bool(debugView)));
  }

  /**
   * The hard-coded length 4 is right: for any C# int `firstSeq` the block is the one the newer base
   * builds with a capture, one well-formed component item of exactly four frames.
   */
  lemma LegacyMirrorBlockShape(firstSeq: int, key: Value, circuitId: string, componentId: int, debugView: bool)
    requires INT32_MIN <= firstSeq <= INT32_MAX
    ensures var b := LegacyMirrorBlock(firstSeq, key, circuitId, componentId, debugView);
      && b == MirrorBlock(firstSeq, key, circuitId, componentId, debugView)
      && |b| == 4 && Span(b[0]) == |b| && Siblings(b)
  {
    MirrorBlockShape(firstSeq, key, circuitId, componentId, debugView);
  }

  /** Opens a capture: a None placeholder at the end of the buffer, whose index is returned. */
  method StartCaptureSubtreeLength(result: FrameList) returns (rootIndex: nat)
    modifies result
    ensures rootIndex == |old(result.frames)|
    ensures result.frames == old(result.frames) + [NoneFrame]
  {
    rootIndex := |result.frames|;
    result.Add(NoneFrame);
  }

  /**
   * Closes a capture: the placeholder at `rootIndex` becomes the header, whose length is the number
   * of frames from the placeholder to the end. A slot outside the buffer, or one that no longer
   * holds a None frame, is an error and changes nothing.
   */
  method StopCaptureSubtreeLength(result: FrameList, rootIndex: int, build: HeaderBuilder) returns (err: Option<TranslationError>)
    modifies result
    ensures var before := old(result.frames);
      && (!(0 <= rootIndex < |before|) ==> err == Some(OutOfRange) && result.frames == before)
      && (0 <= rootIndex < |before| && !before[rootIndex].NoneFrame? ==>
            err == Some(InvalidCaptureState) && result.frames == before)
      && (0 <= rootIndex < |before| && before[rootIndex].NoneFrame? ==>
            err == None && result.frames == before[rootIndex := Build(build, |before| - rootIndex)])
  {
    var subtreeLength := |result.frames| - rootIndex;
    if !(0 <= rootIndex < |result.frames|) {
      return Some(OutOfRange);
    }
    if !result.frames[rootIndex].NoneFrame? {
      return Some(InvalidCaptureState);
    }
    result.frames := result.frames[rootIndex := Build(build, subtreeLength)];
    err := None;
  }

  /** A start/stop pair around `body`: the placeholder becomes a header spanning itself and `body`. */
  lemma CaptureSpansBody(start: seq<Frame>, body: seq<Frame>, build: HeaderBuilder)
    ensures var header := Build(build, 1 + |body|);
      && (start + [NoneFrame] + body)[|start| := header] == start + [header] + body
      && Span(header) == |[header] + body|
  {
    BackFilled(start, body, Build(build, 1 + |body|));
  }

  /** The first frame of a span, checked to be of the expected type. */
  function AssertFirstFrame(frames: seq<Frame>, kind: FrameKind): (r: Result<Frame, ArgumentError>)
    ensures r.Ok? <==> frames != [] && KindOf(frames[0]) == kind
    ensures r.Ok? ==> r.value == frames[0]
    ensures frames == [] ==> r == Err(NoFrames)
  {
    if frames == [] then Err(NoFrames)
    else if KindOf(frames[0]) != kind then Err(UnexpectedFirstFrame)
    else Ok(frames[0])
  }

  /** The check that a span is exactly as long as a header says. */
  function AssertEqualSubtreeLength(frames: seq<Frame>, expected: int): (r: Option<ArgumentError>)
    ensures r.Some? <==> |frames| != expected
    ensures r.Some? ==> r.value == SubtreeLengthMismatch
  {
    if |frames| != expected then Some(SubtreeLengthMismatch) else None
  }

  /** `frames.Slice(start, length)`: out of range unless `0 <= length` and the slice fits. */
  function Slice(frames: seq<Frame>, start: nat, length: int): (r: Result<seq<Frame>, TranslationError>)
    requires start <= |frames|
    ensures r.Ok? <==> 0 <= length && start + length <= |frames|
    ensures r.Ok? ==> |r.value| == length && forall j | 0 <= j < length :: r.value[j] == frames[start + j]
    ensures r.Err? ==> r.error == OutOfRange
  {
    if length < 0 || start + length > |frames| then Err(OutOfRange) else Ok(frames[start .. start + length])
  }
}
