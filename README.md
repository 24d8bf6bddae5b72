# BlazorLiveView core, in Dafny

BlazorLiveView lets an administrator watch a user's Blazor Server session live. Every browser tab
that talks to the server is a *circuit*. A *mirror circuit* is opened against the mirror endpoint
for one user circuit. Its root component, `RootMirrorComponent`, shows a status message or one
`MirrorComponent`. That `MirrorComponent` clones the render tree of a component of the user circuit
and rewrites it, so that nothing in the mirror can act on the user's application.

This project models the core of that machinery and proves properties of it:

- **The render-tree translators.** A render tree is a flat list of frames in which Element,
  Component and Region frames carry the length of their subtree.
  - The live translator (`MirrorTranslation`) copies a tree for a mirror:
    - every nested component becomes a four-frame MirrorComponent block;
    - sequence numbers are multiplied by `SEQ_MUL`;
    - subtree lengths are recomputed;
    - links that would navigate are neutralised.
  - The debug translator (`DebugTranslation`) lists every frame as an indented text row and adds
    drill-down blocks.
  - The older translator base and debug translator (`LegacyTranslatorBase`,
    `LegacyDebugTranslation`) are modelled separately.
  - Each translator is an imperative class that appends to a shared frame buffer
    (`TranslatorBase.FrameList`) and back-fills subtree lengths through a placeholder. Each class is
    proved against a recursive specification function (`Translate`, `DebugTranslate`,
    `LegacyView`), and the properties are proved about those functions.
- **Circuit bookkeeping.**
  - A circuit's four-state status (`Circuits`).
  - The circuit tracker's id index, renderer index and table of pending mirror circuits
    (`CircuitTracking`).
  - The connection projection for the dashboard (`Connections`).
  - The tagged union of mirror and regular circuits (`TrackedCircuits`).
- **The decision logic around them.**
  - The root mirror component's view selection (`RootMirror`).
  - The mirror component's parameter validation, rerender filter and buffer discipline
    (`MirrorComponents`).
  - Path-prefix validation (`Options`).
  - The mirror URI's path-and-query building and parsing (`MirrorUris`).
  - The classification step of the circuit-factory patch (`CircuitFactoryPatching`).

How events and handles are modelled:

- **Events.** An event is modelled by its subscribers and by a log of what was raised. The
  subscribers are a multiset of objects: `+=` adds one and `-=` removes one. The subscribers are
  never invoked.
- **A component's render handle.** It is modelled by three things:
  - whether it is attached;
  - the frame lists it was handed;
  - the number of renders scheduled on its dispatcher.
- **Exceptions.** Each thrown exception is an error value: an `Option` or `Result` from module
  `Wrappers`.
- **Integer arithmetic.** C# `int` arithmetic on sequence numbers wraps (`Frames.Wrap32`).
- **Well-formedness.** A render tree is well formed when it is a list of sibling subtrees
  (`Frames.Siblings`): every length is at least 1 and fits, and attributes follow their owner.

`CircuitBase`'s status setters have no ordering guard, so any status can follow any other
(`Circuits.SetStatus`). `MirrorCircuitCreated` does not check the id index, so an id may be both
pending and tracked.

## Model

| member | source | states |
|---|---|---|
| TranslatorBase.FrameList.Add | src/BlazorLiveView.Core/RenderTree/RenderTreeTranslatorBase.cs:12 | the buffer grows by exactly the given frame at its end |
| TranslatorBase.FrameList.Clear | src/BlazorLiveView.Core/Components/MirrorComponent.cs:126 | the reused buffer is left empty |
| TranslatorBase.Build | src/BlazorLiveView.Core/RenderTree/RenderTreeTranslatorBase.cs:203 | the header a capture builds is an Element, Component or Region whose span is the length it is given |
| TranslatorBase.SubtreeLengthCapture.Open | src/BlazorLiveView.Core/RenderTree/RenderTreeTranslatorBase.cs:205-215 | opening a capture appends exactly one None placeholder, and the capture remembers that slot (the old end of the buffer) |
| TranslatorBase.SubtreeLengthCapture.Dispose | src/BlazorLiveView.Core/RenderTree/RenderTreeTranslatorBase.cs:221-230 | closing overwrites only the placeholder slot, with a header whose length runs from the slot to the end of the buffer; a slot past the end, or one no longer None, is an error and changes nothing |
| TranslatorBase.TakeAttributes | src/BlazorLiveView.Core/RenderTree/RenderTreeTranslatorBase.cs:143-155 | the attributes handed on are exactly the longest prefix of Attribute frames of the element's subtree |
| Frames.AttributePrefix | src/BlazorLiveView.Core/RenderTree/RenderTreeTranslatorBase.cs:143-155 | the counted prefix is all attributes and is followed by a non-attribute or by the end |
| TranslatorBase.AddMirrorComponent | src/BlazorLiveView.Core/RenderTree/RenderTreeTranslatorBase.cs:157-199 | appends exactly the four-frame block: a MirrorComponent frame of length 4 with the key, then CircuitId, ComponentId and DebugView at `firstSeq + 1..3` |
| TranslatorBase.MirrorBlockShape | src/BlazorLiveView.Core/RenderTree/RenderTreeTranslatorBase.cs:157-199 | that block is one well-formed component item of four frames |
| TranslatorBase.MirrorBlockSequencesDistinct | src/BlazorLiveView.Core/RenderTree/RenderTreeTranslatorBase.cs:10 | with `SEQ_MUL = NO_PARAMETERS + 1 = 4`, the sequence numbers `s * 4 + j` of blocks for distinct input sequences (below 2^29) never collide, and they do not wrap |
| TranslatorBase.AppendedStep | src/BlazorLiveView.Core/RenderTree/RenderTreeTranslatorBase.cs:19-110 | in the loop over siblings, what one turn appends joins what earlier turns appended, so the buffer holds the turns' outputs in order behind the frames it started with |
| Frames.Wrap32 | src/BlazorLiveView.Core/RenderTree/RenderTreeTranslatorBase.cs:10 | C# unchecked int arithmetic stays within 32 bits and is the identity on values that fit |
| MirrorTranslation.MirrorAttributes | src/BlazorLiveView.Core/RenderTree/RenderTreeMirrorTranslator.cs:59-90 | the mirrored attribute list is one for one with the input |
| MirrorTranslation.LiveItem | src/BlazorLiveView.Core/RenderTree/RenderTreeTranslatorBase.cs:21-108 | one turn of the dispatch loop moves strictly forward and stays within the frames, so the loop ends |
| MirrorTranslation.MirrorTranslator.TranslateRoot | src/BlazorLiveView.Core/RenderTree/RenderTreeTranslatorBase.cs:14-17 | the buffer only grows, and what is appended (or the error) is the specification `Translate` of the frames |
| MirrorTranslation.MirrorTranslator.TranslateAll | src/BlazorLiveView.Core/RenderTree/RenderTreeTranslatorBase.cs:19-110 | the loop over siblings appends the walk `LiveFrom` of the frames and stops at the first error |
| MirrorTranslation.MirrorTranslator.TranslateFrame | src/BlazorLiveView.Core/RenderTree/RenderTreeTranslatorBase.cs:22-108 | one turn appends that item's translation, a top-level Attribute is AttributeWithoutParent, the unsupported kinds are NotImplemented, and the loop resumes after the subtree |
| MirrorTranslation.MirrorTranslator.TranslateElementFrame | src/BlazorLiveView.Core/RenderTree/RenderTreeTranslatorBase.cs:30-46 | a length below 1 or past the end is OutOfRange; otherwise the subtree is split into attributes and children and translated |
| MirrorTranslation.MirrorTranslator.TranslateComponentFrame | src/BlazorLiveView.Core/RenderTree/RenderTreeTranslatorBase.cs:55-75 | a component's subtree holding a non-attribute is ComponentContainsNonAttribute; otherwise the component is translated and the loop resumes after it |
| MirrorTranslation.MirrorTranslator.TranslateRegionFrame | src/BlazorLiveView.Core/RenderTree/RenderTreeTranslatorBase.cs:77-89 | a region's whole subtree is translated as its children |
| MirrorTranslation.MirrorTranslator.TranslateNone | src/BlazorLiveView.Core/RenderTree/RenderTreeMirrorTranslator.cs:18-21 | a None frame is skipped: the output buffer is left as it was |
| MirrorTranslation.MirrorTranslator.TranslateText | src/BlazorLiveView.Core/RenderTree/RenderTreeMirrorTranslator.cs:97-105 | text is copied with its content at sequence `seq * SEQ_MUL` |
| MirrorTranslation.MirrorTranslator.TranslateMarkup | src/BlazorLiveView.Core/RenderTree/RenderTreeMirrorTranslator.cs:153-164 | markup is copied with its content at sequence `seq * SEQ_MUL` |
| MirrorTranslation.MirrorTranslator.TranslateElement | src/BlazorLiveView.Core/RenderTree/RenderTreeMirrorTranslator.cs:23-95 | the element is re-emitted around its mirrored attributes and translated children, and its length is back-filled to what was appended |
| MirrorTranslation.MirrorTranslator.OpenElement | src/BlazorLiveView.Core/RenderTree/RenderTreeMirrorTranslator.cs:33-90 | the placeholder, then the attributes, with `href` neutralised exactly on an anchor without target=_blank |
| MirrorTranslation.MirrorTranslator.FindTargetBlank | src/BlazorLiveView.Core/RenderTree/RenderTreeMirrorTranslator.cs:42-57 | the flag is set if and only if some attribute is `target` with the string value `_blank` |
| MirrorTranslation.MirrorTranslator.TranslateAttributes | src/BlazorLiveView.Core/RenderTree/RenderTreeMirrorTranslator.cs:59-90 | every attribute is appended in order, with `href` replaced when asked |
| MirrorTranslation.MirrorTranslator.TranslateComponent | src/BlazorLiveView.Core/RenderTree/RenderTreeMirrorTranslator.cs:107-132 | a component of unknown or hidden type emits nothing; any other becomes one mirror block with its key, this circuit's id, its component id and DebugView false |
| MirrorTranslation.MirrorTranslator.TranslateRegion | src/BlazorLiveView.Core/RenderTree/RenderTreeMirrorTranslator.cs:134-151 | the region is re-emitted around its translated children, and its length is back-filled |
| MirrorTranslationProperties.MirrorsOnlyAppend | src/BlazorLiveView.Core/RenderTree/RenderTreeMirrorTranslator.cs:107-132 | joining two outputs free of application components keeps them free |
| MirrorTranslationProperties.MirrorAttributeAt | src/BlazorLiveView.Core/RenderTree/RenderTreeMirrorTranslator.cs:60-81 | the j-th output attribute is the mirror of the j-th input attribute |
| MirrorTranslationProperties.MirrorAttributesInOrder | src/BlazorLiveView.Core/RenderTree/RenderTreeMirrorTranslator.cs:59-90 | attributes keep their order, name, event handler id and updates-attribute name; their sequence becomes `seq * SEQ_MUL` |
| MirrorTranslationProperties.AnchorHrefNeutralised | src/BlazorLiveView.Core/RenderTree/RenderTreeMirrorTranslator.cs:42-78 | on an anchor without target=_blank, every `href` shown is `javascript:void(0)` |
| MirrorTranslationProperties.AttributeValuesKept | src/BlazorLiveView.Core/RenderTree/RenderTreeMirrorTranslator.cs:42-78 | on a non-anchor, or an anchor with target=_blank, every attribute value is kept |
| MirrorTranslationProperties.LiveFromTotal | src/BlazorLiveView.Core/RenderTree/RenderTreeTranslatorBase.cs:19-110 | on a well-formed sibling list the loop never throws |
| MirrorTranslationProperties.LiveItemTotal | src/BlazorLiveView.Core/RenderTree/RenderTreeTranslatorBase.cs:21-89 | on a well-formed item a turn succeeds and resumes at `i + L`, on the next sibling |
| MirrorTranslationProperties.TranslateTotal | src/BlazorLiveView.Core/RenderTree/RenderTreeTranslatorBase.cs:14-17 | a well-formed render tree always translates |
| MirrorTranslationProperties.SingleFrame | src/BlazorLiveView.Core/RenderTree/RenderTreeMirrorTranslator.cs:97-105 | a copied text or markup frame is one well-formed item |
| MirrorTranslationProperties.LiveFromWellFormed | src/BlazorLiveView.Core/RenderTree/RenderTreeTranslatorBase.cs:19-110 | everything the walk emits is a well-formed sibling list, so every emitted header spans exactly the frames appended inside it, and it holds only MirrorComponents |
| MirrorTranslationProperties.LiveItemWellFormed | src/BlazorLiveView.Core/RenderTree/RenderTreeTranslatorBase.cs:21-108 | the same for one turn of the loop |
| MirrorTranslationProperties.ElementStepWellFormed | src/BlazorLiveView.Core/RenderTree/RenderTreeTranslatorBase.cs:30-46 | the same for the Element case |
| MirrorTranslationProperties.ElementLiveWellFormed | src/BlazorLiveView.Core/RenderTree/RenderTreeMirrorTranslator.cs:23-95 | a translated element is well formed and free of application components |
| MirrorTranslationProperties.RegionStepWellFormed | src/BlazorLiveView.Core/RenderTree/RenderTreeTranslatorBase.cs:77-89 | the same for the Region case |
| MirrorTranslationProperties.RegionLiveWellFormed | src/BlazorLiveView.Core/RenderTree/RenderTreeMirrorTranslator.cs:134-151 | a translated region is well formed and free of application components |
| MirrorTranslationProperties.ElementOutWellFormed | src/BlazorLiveView.Core/RenderTree/RenderTreeMirrorTranslator.cs:33-40 | an element's header spans its attributes and its children |
| MirrorTranslationProperties.RegionOutWellFormed | src/BlazorLiveView.Core/RenderTree/RenderTreeMirrorTranslator.cs:141-150 | a region's header spans its children |
| MirrorTranslationProperties.ComponentOutWellFormed | src/BlazorLiveView.Core/RenderTree/RenderTreeMirrorTranslator.cs:107-132 | a component becomes nothing, or one four-frame MirrorComponent item |
| MirrorTranslationProperties.LiveFromUnused | src/BlazorLiveView.Core/RenderTree/RenderTreeMirrorTranslator.cs:18-21 | a run of None frames translates to nothing, and never throws |
| MirrorTranslationProperties.LiveFromExtended | src/BlazorLiveView.Core/Components/MirrorComponent.cs:107 | a walk that succeeds over a render tree gives the same output over the tree followed by None slots |
| MirrorTranslationProperties.TranslateBackingArray | src/BlazorLiveView.Core/Components/MirrorComponent.cs:107 | the whole backing array of a buffer (the tree, then unused None slots) translates as the tree alone, and always translates when the tree is well formed |
| MirrorTranslationProperties.TranslateWellFormed | src/BlazorLiveView.Core/RenderTree/RenderTreeMirrorTranslator.cs:107-151 | the output of a live translation is a well-formed render tree whose only components are MirrorComponents |
| MirrorTranslationExamples.TranslatesEmpty | tests/BlazorLiveView.Core.Tests/RenderTree/RenderTreeMirrorTranslatorTests.cs:26-31 | an empty tree translates to an empty tree |
| MirrorTranslationExamples.TranslatesText | tests/BlazorLiveView.Core.Tests/RenderTree/RenderTreeMirrorTranslatorTests.cs:33-43 | one text frame is copied |
| MirrorTranslationExamples.TranslatesElementWithText | tests/BlazorLiveView.Core.Tests/RenderTree/RenderTreeMirrorTranslatorTests.cs:45-68 | a div around a text keeps length 2, and the text moves to sequence 4 |
| MirrorTranslationExamples.TranslatesElementWithAttributeAndText | tests/BlazorLiveView.Core.Tests/RenderTree/RenderTreeMirrorTranslatorTests.cs:69-99 | a div with an attribute and a text has length 3 |
| MirrorTranslationExamples.TranslatesComponentWithAttributes | tests/BlazorLiveView.Core.Tests/RenderTree/RenderTreeMirrorTranslatorTests.cs:101-140 | a component with two parameters becomes one four-frame mirror block |
| MirrorTranslationExamples.TranslatesRegionWithChildren | tests/BlazorLiveView.Core.Tests/RenderTree/RenderTreeMirrorTranslatorTests.cs:142-208 | a region of length 5 that holds one component becomes a region of length 8 |
| DebugTranslation.DebugItem | src/BlazorLiveView.Core/RenderTree/RenderTreeTranslatorBase.cs:21-108 | one turn of the debug translator's loop moves strictly forward and stays within the frames |
| DebugTranslation.DebugTranslator.constructor | src/BlazorLiveView.Core/RenderTree/RenderTreeDebugTranslator.cs:18-22 | a fresh translator starts with index 0, indent 0 and no collected ids |
| DebugTranslation.DebugTranslator.TranslateRoot | src/BlazorLiveView.Core/RenderTree/RenderTreeDebugTranslator.cs:24-75 | appends the specification `DebugRoot`, and the first appended frame is the root div (sequence 4) spanning everything appended, the drill-down blocks included |
| DebugTranslation.DebugTranslator.AddListing | src/BlazorLiveView.Core/RenderTree/RenderTreeDebugTranslator.cs:62-74 | the listing, then the drill-down blocks, which are skipped when the listing throws |
| DebugTranslation.DebugTranslator.AddHeading | src/BlazorLiveView.Core/RenderTree/RenderTreeDebugTranslator.cs:26-59 | the root style, then the name div of length 3 with its style and heading text |
| DebugTranslation.DebugTranslator.AddBlocks | src/BlazorLiveView.Core/RenderTree/RenderTreeDebugTranslator.cs:65-74 | one debug mirror block per collected id, in order |
| DebugTranslation.DebugTranslator.AddFrameAsText | src/BlazorLiveView.Core/RenderTree/RenderTreeDebugTranslator.cs:77-115 | one row for the frame; index grows by one unless it is None; indent and the ids are unchanged |
| DebugTranslation.DebugTranslator.AddFramesAsText | src/BlazorLiveView.Core/RenderTree/RenderTreeDebugTranslator.cs:117-123 | one row per frame, in order |
| DebugTranslation.DebugTranslator.TranslateAll | src/BlazorLiveView.Core/RenderTree/RenderTreeTranslatorBase.cs:19-110 | the loop appends the walk `DebugFrom` and leaves the counters where the walk leaves them |
| DebugTranslation.DebugTranslator.TranslateFrame | src/BlazorLiveView.Core/RenderTree/RenderTreeTranslatorBase.cs:22-108 | one turn appends that item's listing and resumes after its subtree |
| DebugTranslation.DebugTranslator.TranslateElementFrame | src/BlazorLiveView.Core/RenderTree/RenderTreeTranslatorBase.cs:30-46 | the Element case of the debug loop |
| DebugTranslation.DebugTranslator.TranslateComponentFrame | src/BlazorLiveView.Core/RenderTree/RenderTreeTranslatorBase.cs:55-75 | the Component case of the debug loop |
| DebugTranslation.DebugTranslator.TranslateRegionFrame | src/BlazorLiveView.Core/RenderTree/RenderTreeTranslatorBase.cs:77-89 | the Region case of the debug loop |
| DebugTranslation.DebugTranslator.TranslateElement | src/BlazorLiveView.Core/RenderTree/RenderTreeDebugTranslator.cs:130-141 | the element's row, then its attributes and children one level deeper; indent returns to its entry value |
| DebugTranslation.DebugTranslator.TranslateComponent | src/BlazorLiveView.Core/RenderTree/RenderTreeDebugTranslator.cs:148-177 | a component of unknown type lists nothing; a hidden one only its own row; any other its row and attributes, and its id is collected unless it is the root component |
| DebugTranslation.DebugTranslator.AddRowAndNested | src/BlazorLiveView.Core/RenderTree/RenderTreeDebugTranslator.cs:136-139 | a row, then the attribute rows one level deeper, with indent left one deeper |
| DebugTranslation.DebugTranslator.TranslateRegion | src/BlazorLiveView.Core/RenderTree/RenderTreeDebugTranslator.cs:179-188 | the region's row, then its children one level deeper; indent returns to its entry value |
| DebugTranslationProperties.RowShape | src/BlazorLiveView.Core/RenderTree/RenderTreeDebugTranslator.cs:77-115 | a row is a div spanning its padding style and, unless the frame is None, its text |
| DebugTranslationProperties.RowsShape | src/BlazorLiveView.Core/RenderTree/RenderTreeDebugTranslator.cs:117-123 | the rows form a sibling list, two or three frames per frame |
| DebugTranslationProperties.BlocksShape | src/BlazorLiveView.Core/RenderTree/RenderTreeDebugTranslator.cs:65-74 | the drill-down blocks are four frames per id and form a sibling list |
| DebugTranslationProperties.BlockAt | src/BlazorLiveView.Core/RenderTree/RenderTreeDebugTranslator.cs:65-74 | the k-th block is the debug MirrorComponent for the k-th collected id |
| DebugTranslationProperties.DebugFromFacts | src/BlazorLiveView.Core/RenderTree/RenderTreeDebugTranslator.cs:130-188 | a successful listing is a sibling list of three-frame rows, one per step of the index, and it collects no id equal to the root component's |
| DebugTranslationProperties.DebugFromAgrees | src/BlazorLiveView.Core/RenderTree/RenderTreeTranslatorBase.cs:19-110 | the debug walk fails exactly when, and with the same error as, the live walk on the same frames |
| DebugTranslationProperties.DebugTranslateTotal | src/BlazorLiveView.Core/RenderTree/RenderTreeDebugTranslator.cs:24-75 | a well-formed render tree always has a debug view |
| DebugTranslationProperties.NameDivShape | src/BlazorLiveView.Core/RenderTree/RenderTreeDebugTranslator.cs:37-59 | the name div is one item of three frames |
| DebugTranslationProperties.RootItem | src/BlazorLiveView.Core/RenderTree/RenderTreeDebugTranslator.cs:29-35 | the root div around the heading, the rows and the blocks is one item spanning them all |
| DebugTranslationProperties.DebugRootShape | src/BlazorLiveView.Core/RenderTree/RenderTreeDebugTranslator.cs:24-75 | the debug view is one root div spanning 4 heading frames, 3 per listed frame and 4 per collected id; no collected id is the root's own; the view ends with one block per id |
| DebugTranslationProperties.CollectedIdsMember | src/BlazorLiveView.Core/RenderTree/RenderTreeDebugTranslator.cs:148-177 | an id is in the collected list if and only if a component with a known type that is not hidden carries it and it is not the root component's id |
| DebugTranslationProperties.DebugFromCollects | src/BlazorLiveView.Core/RenderTree/RenderTreeDebugTranslator.cs:130-188 | a successful listing adds to the ids it started with exactly the ids of the collected components of the frames it walked, in document order |
| DebugTranslationProperties.DebugTranslateBlocks | src/BlazorLiveView.Core/RenderTree/RenderTreeDebugTranslator.cs:24-75 | the debug view ends with one drill-down block per collected component of the render tree, in document order |
| DebugTranslationProperties.DebugFromUnused | src/BlazorLiveView.Core/RenderTree/RenderTreeDebugTranslator.cs:77-115 | a run of top-level None frames lists nothing and leaves the counters alone |
| DebugTranslationProperties.DebugFromExtended | src/BlazorLiveView.Core/Components/MirrorComponent.cs:107 | a listing that succeeds over a render tree is the same over the tree followed by None slots |
| DebugTranslationProperties.DebugTranslateBackingArray | src/BlazorLiveView.Core/Components/MirrorComponent.cs:107 | the debug view of a buffer's whole backing array is the view of the tree alone, and exists whenever the tree is well formed |
| LegacyTranslatorBase.AddMirrorComponent | src/BlazorLiveView.Core/RenderTree/RenderTreeMirrorTranslatorBase.cs:102-132 | appends exactly four frames, with the hard-coded length 4 and sequences `firstSeq + 0..3` |
| LegacyTranslatorBase.LegacyMirrorBlockShape | src/BlazorLiveView.Core/RenderTree/RenderTreeMirrorTranslatorBase.cs:102-132 | the hard-coded 4 is right: for any int `firstSeq` the block equals the one the newer base builds with a capture |
| LegacyTranslatorBase.StartCaptureSubtreeLength | src/BlazorLiveView.Core/RenderTree/RenderTreeMirrorTranslatorBase.cs:134-139 | appends one None placeholder and returns the old count |
| LegacyTranslatorBase.StopCaptureSubtreeLength | src/BlazorLiveView.Core/RenderTree/RenderTreeMirrorTranslatorBase.cs:141-150 | replaces only that slot with a header of length `Count - rootIndex`; a slot that is not None is an error and changes nothing |
| LegacyTranslatorBase.CaptureSpansBody | src/BlazorLiveView.Core/RenderTree/RenderTreeMirrorTranslatorBase.cs:134-150 | a start/stop pair around a body yields a header spanning itself and the body |
| LegacyTranslatorBase.AssertFirstFrame | src/BlazorLiveView.Core/RenderTree/RenderTreeMirrorTranslatorBase.cs:152-165 | throws on an empty span or a wrong first frame type, and otherwise returns `frames[0]` |
| LegacyTranslatorBase.AssertEqualSubtreeLength | src/BlazorLiveView.Core/RenderTree/RenderTreeMirrorTranslatorBase.cs:167-176 | throws if and only if the span's length differs from the expected one |
| LegacyTranslatorBase.Slice | src/BlazorLiveView.Core/RenderTree/RenderTreeMirrorTranslatorBase.cs:29 | a slice exists exactly when the length is not negative and it fits; it is then those frames |
| LegacyDebugTranslation.LegacyStep | src/BlazorLiveView.Core/RenderTree/RenderTreeMirrorTranslatorBase.cs:18-79 | one turn of the older loop moves strictly forward (the corrected turn; see Findings) |
| LegacyDebugTranslation.ViewedFrames | src/BlazorLiveView.Core/RenderTree/RenderTreeDebugMirrorTranslator.cs:19-75 | the buffer after heading, listing, closing and blocks is the view |
| LegacyDebugTranslation.DebugMirrorTranslator.constructor | src/BlazorLiveView.Core/RenderTree/RenderTreeDebugMirrorTranslator.cs:14-17 | a fresh translator starts with index 0 and no collected ids |
| LegacyDebugTranslation.DebugMirrorTranslator.TranslateAll | src/BlazorLiveView.Core/RenderTree/RenderTreeDebugMirrorTranslator.cs:19-75 | appends the specification `LegacyView`; when the listing throws, the root stays an open placeholder |
| LegacyDebugTranslation.DebugMirrorTranslator.CloseView | src/BlazorLiveView.Core/RenderTree/RenderTreeDebugMirrorTranslator.cs:56-74 | the root placeholder becomes a div spanning the heading and listing, and the blocks follow it as siblings |
| LegacyDebugTranslation.DebugMirrorTranslator.AddHeading | src/BlazorLiveView.Core/RenderTree/RenderTreeDebugMirrorTranslator.cs:21-52 | the root placeholder, its style, and the title div of length 3 |
| LegacyDebugTranslation.DebugMirrorTranslator.AddBlocks | src/BlazorLiveView.Core/RenderTree/RenderTreeDebugMirrorTranslator.cs:65-74 | one debug block per collected id, all at `index * 10` |
| LegacyDebugTranslation.DebugMirrorTranslator.TranslateFrames | src/BlazorLiveView.Core/RenderTree/RenderTreeMirrorTranslatorBase.cs:14-80 | the older loop appends the specification `LegacyFrom`, with the counters it ends with |
| LegacyDebugTranslation.DebugMirrorTranslator.TranslateFrame | src/BlazorLiveView.Core/RenderTree/RenderTreeMirrorTranslatorBase.cs:20-78 | one turn appends `LegacyStep` and resumes where it says |
| LegacyDebugTranslation.DebugMirrorTranslator.TranslateSubtree | src/BlazorLiveView.Core/RenderTree/RenderTreeMirrorTranslatorBase.cs:27-59 | an Element, Component or Region is listed flat, header included, over `[i, i + L)` |
| LegacyDebugTranslation.DebugMirrorTranslator.AddFramesAsText | src/BlazorLiveView.Core/RenderTree/RenderTreeDebugMirrorTranslator.cs:109-120 | the lines of every frame in order; index grows by the frames listed; every child component id is collected |
| LegacyDebugTranslation.DebugMirrorTranslator.AddFrameAsText | src/BlazorLiveView.Core/RenderTree/RenderTreeDebugMirrorTranslator.cs:77-107 | one line per frame; None emits nothing and leaves index as it is |
| LegacyDebugTranslationProperties.LineShape | src/BlazorLiveView.Core/RenderTree/RenderTreeDebugMirrorTranslator.cs:77-107 | a line is two well-formed items (a text and a `br` of length 1), or nothing for None |
| LegacyDebugTranslationProperties.LinesShape | src/BlazorLiveView.Core/RenderTree/RenderTreeDebugMirrorTranslator.cs:109-120 | the lines are a sibling list of two frames per counted frame |
| LegacyDebugTranslationProperties.LineAt | src/BlazorLiveView.Core/RenderTree/RenderTreeDebugMirrorTranslator.cs:77-107 | the j-th counted frame's text sits at `seq * 10` with the running index, and its `br` at `seq * 10 + 1` |
| LegacyDebugTranslationProperties.ChildIdsMember | src/BlazorLiveView.Core/RenderTree/RenderTreeDebugMirrorTranslator.cs:109-120 | an id is collected if and only if some listed Component carries it and it is not the root's |
| LegacyDebugTranslationProperties.LegacyFromFlat | src/BlazorLiveView.Core/RenderTree/RenderTreeDebugMirrorTranslator.cs:122-137 | the loop lists every frame once, flat and in document order, whatever the nesting |
| LegacyDebugTranslationProperties.LegacyFromTotal | src/BlazorLiveView.Core/RenderTree/RenderTreeMirrorTranslatorBase.cs:18-79 | on a well-formed render tree no turn fails |
| LegacyDebugTranslationProperties.LegacyBlocksAreBlocks | src/BlazorLiveView.Core/RenderTree/RenderTreeDebugMirrorTranslator.cs:65-74 | the older blocks are exactly the newer base's blocks |
| LegacyDebugTranslationProperties.LegacyViewShape | src/BlazorLiveView.Core/RenderTree/RenderTreeDebugMirrorTranslator.cs:19-75 | the root div (sequence 0) spans only the heading and the listing; the blocks come after it as siblings; the whole is well formed |
| LegacyDebugTranslationProperties.ListingShape | src/BlazorLiveView.Core/RenderTree/RenderTreeDebugMirrorTranslator.cs:109-120 | the listing is a sibling list of two frames per listed frame |
| LegacyDebugTranslationProperties.ListingFlat | src/BlazorLiveView.Core/RenderTree/RenderTreeDebugMirrorTranslator.cs:122-137 | the listing of a whole tree is the lines of every frame, with every child id collected |
| LegacyDebugTranslationProperties.LegacyViewTotal | src/BlazorLiveView.Core/RenderTree/RenderTreeDebugMirrorTranslator.cs:19-75 | a well-formed render tree always has an older debug view |
| LegacyDebugTranslationProperties.AsWrittenStep | src/BlazorLiveView.Core/RenderTree/RenderTreeMirrorTranslatorBase.cs:27-59 | the turn as written never resumes past the end |
| LegacyDebugTranslationProperties.ZeroLengthStalls | src/BlazorLiveView.Core/RenderTree/RenderTreeMirrorTranslatorBase.cs:27-59 | on a header of length 0 the written turn comes back to the same frame with the same counters; the corrected turn rejects it |
| LegacyDebugTranslationProperties.AsWrittenAgrees | src/BlazorLiveView.Core/RenderTree/RenderTreeMirrorTranslatorBase.cs:18-79 | everywhere else the correction changes nothing |
| LegacyDebugTranslationProperties.ZeroLengthExample | src/BlazorLiveView.Core/RenderTree/RenderTreeMirrorTranslatorBase.cs:27-34 | a one-frame tree `div` of length 0: the written loop stays on frame 0, and the corrected view is OutOfRange |
| Circuits.SetStatus | src/BlazorLiveView.Core/Circuits/CircuitBase.cs:22-44 | a setter always leaves the target status and raises the change event exactly when the status changed; any status can follow any other |
| Circuits.LoggedChange | src/BlazorLiveView.Core/Circuits/CircuitBase.cs:22-44 | a setter keeps the change log consistent: one entry per real change, the last one the current status |
| Circuits.Circuit.constructor | src/BlazorLiveView.Core/Circuits/CircuitBase.cs:14-19 | a new circuit is Open, with its id fixed, no change raised and no subscribers |
| Circuits.Circuit.SetUp | src/BlazorLiveView.Core/Circuits/CircuitBase.cs:22-28 | the status becomes Up; one change event unless it already was Up |
| Circuits.Circuit.SetDown | src/BlazorLiveView.Core/Circuits/CircuitBase.cs:30-36 | the status becomes Down; one change event unless it already was Down |
| Circuits.Circuit.SetClosed | src/BlazorLiveView.Core/Circuits/CircuitBase.cs:38-44 | the status becomes Closed; one change event unless it already was Closed |
| Circuits.Circuit.Set | src/BlazorLiveView.Core/Circuits/CircuitBase.cs:22-44 | the body the three setters share |
| CircuitTracking.CircuitTracker.constructor | src/BlazorLiveView.Core/Circuits/CircuitTracker.cs:18-25 | all three tables start empty |
| CircuitTracking.CircuitTracker.GetCircuit | src/BlazorLiveView.Core/Circuits/CircuitTracker.cs:27-33 | the tracked circuit with that id, or none, if and only if the id is tracked |
| CircuitTracking.CircuitTracker.GetCircuitByRenderer | src/BlazorLiveView.Core/Circuits/CircuitTracker.cs:35-41 | the circuit of that renderer, or none, if and only if the renderer is indexed |
| CircuitTracking.CircuitTracker.ListCircuits | src/BlazorLiveView.Core/Circuits/CircuitTracker.cs:43-49 | a snapshot holding every tracked circuit exactly once |
| Snapshots.Values | src/BlazorLiveView.Core/Circuits/CircuitTracker.cs:47 | the values of a dictionary, one per key: exactly its values, none twice when no two keys share one |
| CircuitTracking.CircuitTracker.MirrorCircuitCreated | src/BlazorLiveView.Core/Circuits/CircuitTracker.cs:51-61 | records the pending id with its source; an id already pending throws and changes nothing |
| CircuitTracking.CircuitTracker.CircuitOpened | src/BlazorLiveView.Core/Circuits/CircuitTracker.cs:63-98 | a tracked id throws and changes nothing; otherwise a new Open circuit is a mirror of the pending source (consuming the entry) or a user circuit, enters both indices, and the opened event is raised once with it |
| CircuitTracking.CircuitTracker.CircuitUp | src/BlazorLiveView.Core/Circuits/CircuitTracker.cs:100-114 | an untracked id throws; otherwise only the circuit's status becomes Up |
| CircuitTracking.CircuitTracker.CircuitDown | src/BlazorLiveView.Core/Circuits/CircuitTracker.cs:116-130 | an untracked id throws; otherwise only the circuit's status becomes Down |
| CircuitTracking.CircuitTracker.CircuitClosed | src/BlazorLiveView.Core/Circuits/CircuitTracker.cs:132-152 | an untracked id throws and changes nothing; otherwise the circuit leaves both indices, is Closed, and the closed event is raised once with it |
| TrackedCircuits.Mirror | src/BlazorLiveView.Core/Circuits/TrackedCircuit.cs:9-14 | built from a mirror circuit: IsMirror, that circuit through MirrorCircuit, and RegularCircuit throws |
| TrackedCircuits.Regular | src/BlazorLiveView.Core/Circuits/TrackedCircuit.cs:16-21 | built from a regular circuit: not IsMirror, that circuit through RegularCircuit, and MirrorCircuit throws |
| TrackedCircuits.MirrorCircuit | src/BlazorLiveView.Core/Circuits/TrackedCircuit.cs:24-25 | the mirror circuit if and only if there is one; otherwise the "Not a mirror circuit" exception |
| TrackedCircuits.RegularCircuit | src/BlazorLiveView.Core/Circuits/TrackedCircuit.cs:26-27 | the regular circuit if and only if there is one; otherwise the "Not a regular circuit" exception |
| Connections.StatusOf | src/BlazorLiveView.Core/Connections/Connection.cs:28-35 | Connected exactly for Open or Up, Reconnecting exactly for Down, Disconnected exactly for Closed |
| Connections.Connection.Id | src/BlazorLiveView.Core/Connections/Connection.cs:27 | the connection id is the wrapped circuit's id |
| Connections.Connection.Status | src/BlazorLiveView.Core/Connections/Connection.cs:28-35 | read through the circuit: Connected exactly while it is Open or Up, Reconnecting exactly while Down, Disconnected exactly once Closed |
| Connections.Connection.Uri | src/BlazorLiveView.Core/Connections/Connection.cs:36 | the circuit's current Uri, read through |
| Connections.Connection.ConnectedAt | src/BlazorLiveView.Core/Connections/Connection.cs:37 | the time the circuit was opened, read through |
| Connections.Connection.constructor | src/BlazorLiveView.Core/Connections/Connection.cs:14-19 | subscribes the connection to the circuit's two events |
| Connections.Connection.Dispose | src/BlazorLiveView.Core/Connections/Connection.cs:21-25 | removes both subscriptions |
| Connections.Connection.OnCircuitUriChanged | src/BlazorLiveView.Core/Connections/Connection.cs:39-43 | a sender other than the wrapped circuit throws; otherwise exactly one UriChanged is raised |
| Connections.Connection.OnCircuitStatusChanged | src/BlazorLiveView.Core/Connections/Connection.cs:45-49 | a sender other than the wrapped circuit throws; otherwise exactly one ConnectionStatusChanged is raised |
| Connections.ConnectionTracker.constructor | src/BlazorLiveView.Core/Connections/ConnectionTracker.cs:18-32 | subscribes to the tracker, and creates one fresh connection per tracked user circuit, keyed by its id, announced once each; mirror circuits are skipped |
| Connections.ConnectionTracker.Seed | src/BlazorLiveView.Core/Connections/ConnectionTracker.cs:23-31 | the loop over the snapshot, from no connection at all |
| Connections.ConnectionTracker.AddAll | src/BlazorLiveView.Core/Connections/ConnectionTracker.cs:25-30 | the loop from one circuit on: a connection per user circuit, earlier connections kept |
| Connections.ConnectionTracker.Add | src/BlazorLiveView.Core/Connections/ConnectionTracker.cs:27-29 | one new connection, subscribed and announced |
| Connections.ConnectionTracker.GetConnection | src/BlazorLiveView.Core/Connections/ConnectionTracker.cs:34-41 | the connection with that id, or none, if and only if one is tracked |
| Connections.ConnectionTracker.ListConnections | src/BlazorLiveView.Core/Connections/ConnectionTracker.cs:43-49 | a snapshot holding every connection exactly once |
| Connections.ConnectionTracker.OnCircuitOpened | src/BlazorLiveView.Core/Connections/ConnectionTracker.cs:51-69 | a mirror circuit is ignored; an id already connected throws and changes nothing; otherwise one connection is added and ConnectionOpened raised once |
| Connections.ConnectionTracker.OnCircuitClosed | src/BlazorLiveView.Core/Connections/ConnectionTracker.cs:71-87 | a mirror circuit is ignored; a missing id throws; otherwise the connection is removed and ConnectionClosed raised with it |
| RootMirror.StatusMessage | src/BlazorLiveView.Core/Components/RootMirrorComponent.cs:105-131 | the starting, reconnecting and closed messages are shown exactly for Open, Down and Closed |
| RootMirror.SelectView | src/BlazorLiveView.Core/Components/RootMirrorComponent.cs:95-131 | a block message overrides everything; otherwise Open, Down and Closed select their messages; Up mirrors the interactive id of the server-rendered component, and an unknown id is an error |
| RootMirror.StatusMessagesDistinct | src/BlazorLiveView.Core/Components/RootMirrorComponent.cs:105-131 | the three status messages tell the three statuses apart |
| RootMirror.BlockedOverrides | src/BlazorLiveView.Core/Components/RootMirrorComponent.cs:95-103 | what a blocked mirror shows depends on nothing else |
| RootMirror.ViewFramesShape | src/BlazorLiveView.Core/Components/RootMirrorComponent.cs:134-167 | a message is one text frame; a mirror is the four-frame block, then the overlay exactly when the screen overlay is on and this is not a debug view; both are well formed |
| RootMirror.RootMirrorComponent.constructor | src/BlazorLiveView.Core/Components/RootMirrorComponent.cs:12-25 | starts detached, uninitialised and with nothing rendered |
| RootMirror.RootMirrorComponent.Attach | src/BlazorLiveView.Core/Components/RootMirrorComponent.cs:77-80 | the render handle is attached |
| RootMirror.RootMirrorComponent.Initialize | src/BlazorLiveView.Core/Components/RootMirrorComponent.cs:31-45 | a second call throws and changes nothing; the first stores the parameters and subscribes to the blocked event and the source's status event |
| RootMirror.RootMirrorComponent.Dispose | src/BlazorLiveView.Core/Components/RootMirrorComponent.cs:47-55 | unsubscribes both and forgets the parameters; a second call does nothing |
| RootMirror.RootMirrorComponent.OnMirrorCircuitBlocked | src/BlazorLiveView.Core/Components/RootMirrorComponent.cs:57-65 | throws when uninitialised or for another circuit; otherwise schedules exactly one render |
| RootMirror.RootMirrorComponent.OnSourceCircuitStatusChanged | src/BlazorLiveView.Core/Components/RootMirrorComponent.cs:67-75 | throws when uninitialised or for a circuit other than the source; otherwise schedules exactly one render |
| RootMirror.RootMirrorComponent.SetParametersAsync | src/BlazorLiveView.Core/Components/RootMirrorComponent.cs:82-86 | renders, as Render does |
| RootMirror.RootMirrorComponent.Render | src/BlazorLiveView.Core/Components/RootMirrorComponent.cs:88-132 | nothing while detached or uninitialised; otherwise the frames of the selected view are handed over, or the error is thrown |
| RootMirror.RootMirrorComponent.RenderMirrorComponent | src/BlazorLiveView.Core/Components/RootMirrorComponent.cs:134-159 | the mirror block, and the overlay div exactly when the screen overlay is on and this is not a debug view |
| RootMirror.RootMirrorComponent.RenderMessage | src/BlazorLiveView.Core/Components/RootMirrorComponent.cs:161-167 | one text frame with the message |
| MirrorComponents.Validate | src/BlazorLiveView.Core/Components/MirrorComponent.cs:46-58 | succeeds exactly for a non-empty circuit id, a component id other than -1 and a tracked user circuit; the checks fail in the source's order |
| MirrorComponents.RenderedWellFormed | src/BlazorLiveView.Core/Components/MirrorComponent.cs:78-157 | after validation a render fails only in translation, and never on a well-formed tree; what is rendered is well formed, and a live mirror holds only MirrorComponents |
| MirrorComponents.RenderedBackingArray | src/BlazorLiveView.Core/Components/MirrorComponent.cs:102-111 | a render is handed the whole backing array; when the tree in it is well formed and the rest is unused, the render succeeds and shows the tree's translation alone, well formed |
| MirrorComponents.MirrorComponent.constructor | src/BlazorLiveView.Core/Components/MirrorComponent.cs:28-35 | the parameters start at their defaults: empty circuit id, component id -1, live view |
| MirrorComponents.MirrorComponent.Attach | src/BlazorLiveView.Core/Components/MirrorComponent.cs:37-40 | the render handle is attached |
| MirrorComponents.MirrorComponent.SetParameterProperties | src/BlazorLiveView.Core/Components/MirrorComponent.cs:44 | each parameter given is assigned, and the others are kept |
| MirrorComponents.MirrorComponent.SetParametersAsync | src/BlazorLiveView.Core/Components/MirrorComponent.cs:42-61 | a failed check throws before subscribing or rendering; otherwise it subscribes to the user circuit's rerenders once and renders |
| MirrorComponents.MirrorComponent.OriginalComponentRerendered | src/BlazorLiveView.Core/Components/MirrorComponent.cs:63-76 | another circuit throws; a render is scheduled exactly when the rerendered id is the mirrored one |
| MirrorComponents.MirrorComponent.Render | src/BlazorLiveView.Core/Components/MirrorComponent.cs:78-100 | the circuit must still be tracked and be a user circuit; a missing component state renders an empty tree, any other its translation |
| MirrorComponents.MirrorComponent.BuildView | src/BlazorLiveView.Core/Components/MirrorComponent.cs:121-157 | the debug translator exactly when DebugView is set; the returned frames are exactly the translation, and the buffer is left empty |
| Options.CheckPrefix | src/BlazorLiveView.Core/Options/LiveViewOptions.cs:18-37 | a value is accepted exactly when it starts with '/', has more after it and does not end with '/'; blank, missing-slash and trailing-slash values get their own exception |
| Options.DerivedPaths | src/BlazorLiveView.Core/Options/LiveViewOptions.cs:43-53 | the three endpoint paths start with the prefix and differ; under a valid prefix each is itself a valid path |
| Options.LiveViewOptions.constructor | src/BlazorLiveView.Core/Options/LiveViewOptions.cs:10 | the prefix starts at its default "/_liveview", which the setter would accept; the screen overlay starts on |
| Options.LiveViewOptions.SetLiveViewPathPrefix | src/BlazorLiveView.Core/Options/LiveViewOptions.cs:15-38 | an accepted value is stored exactly; a rejected one leaves the prefix unchanged |
| Options.LiveViewOptions.MirrorUri | src/BlazorLiveView.Core/Options/LiveViewOptions.cs:43 | the prefix followed by "/mirror"; under a valid prefix it is itself a valid path |
| Options.LiveViewOptions.HubUri | src/BlazorLiveView.Core/Options/LiveViewOptions.cs:48 | the prefix followed by "/hub"; under a valid prefix it is itself a valid path |
| Options.LiveViewOptions.JsUri | src/BlazorLiveView.Core/Options/LiveViewOptions.cs:53 | the prefix followed by "/blazor.web.js"; under a valid prefix it is itself a valid path |
| Options.LiveViewOptions.SetUseScreenOverlay | src/BlazorLiveView.Core/Options/LiveViewOptions.cs:61 | the switch takes the given value |
| MirrorUris.TrimEnd | src/BlazorLiveView.Core/UriHelpers/LiveViewMirrorUriBuilder.cs:26-27 | a prefix of the string that no longer ends with the character, having dropped only that character |
| MirrorUris.TrimStart | src/BlazorLiveView.Core/Patching/CircuitFactoryPatcher.cs:81-82 | a suffix of the string that no longer starts with the character, having dropped only that character |
| MirrorUris.Upper | src/BlazorLiveView.Core/UriHelpers/LiveViewMirrorUriBuilder.cs:28 | an ASCII-only stand-in for OrdinalIgnoreCase folding: each letter a to z becomes upper case, every other character is kept |
| MirrorUris.GetPathAndQuery | src/BlazorLiveView.Core/UriHelpers/LiveViewMirrorUriBuilder.cs:15-22 | the mirror path, '?', then `circuitId=` and the escaped source id |
| MirrorUris.PathPart | src/BlazorLiveView.Core/UriHelpers/LiveViewMirrorUriBuilder.cs:26 | the path of a path-and-query is what comes before the first '?' |
| MirrorUris.TryParse | src/BlazorLiveView.Core/UriHelpers/LiveViewMirrorUriBuilder.cs:24-44 | succeeds exactly when the path matches the mirror path and the circuitId value is present and non-empty; the result carries that id, no parent and no debug view |
| MirrorUris.TrimEndAppend | src/BlazorLiveView.Core/UriHelpers/LiveViewMirrorUriBuilder.cs:26-27 | trimming ignores one more trailing slash |
| MirrorUris.TrimEndUpper | src/BlazorLiveView.Core/UriHelpers/LiveViewMirrorUriBuilder.cs:26-28 | case folding commutes with trimming slashes |
| MirrorUris.UpperIdempotent | src/BlazorLiveView.Core/UriHelpers/LiveViewMirrorUriBuilder.cs:28 | folding twice is folding once |
| MirrorUris.PathMatchesTrailingSlash | src/BlazorLiveView.Core/UriHelpers/LiveViewMirrorUriBuilder.cs:26-28 | path matching ignores a trailing slash |
| MirrorUris.PathMatchesUpper | src/BlazorLiveView.Core/UriHelpers/LiveViewMirrorUriBuilder.cs:26-28 | path matching ignores letter case |
| MirrorUris.TryParseNormalised | src/BlazorLiveView.Core/UriHelpers/LiveViewMirrorUriBuilder.cs:24-44 | TryParse answers the same for a path with a trailing slash, or in upper case |
| MirrorUris.BuiltPathMatches | src/BlazorLiveView.Core/UriHelpers/LiveViewMirrorUriBuilder.cs:15-32 | the path part of a built mirror URI is the mirror path, and TryParse's path test accepts it |
| CircuitFactoryPatching.TryGetUriPath | src/BlazorLiveView.Core/Patching/CircuitFactoryPatcher.cs:123-139 | succeeds exactly when the URI starts, ordinally, with the base less its trailing slashes, and the path is the rest |
| CircuitFactoryPatching.TryGetUriPathTrailingSlash | src/BlazorLiveView.Core/Patching/CircuitFactoryPatcher.cs:129 | a trailing slash on the base changes nothing |
| CircuitFactoryPatching.CreateCircuitHostPrefix | src/BlazorLiveView.Core/Patching/CircuitFactoryPatcher.cs:61-121 | a request is a mirror exactly when every step succeeds: the path is under the base, it targets the mirror path, it parses, and it names a tracked user circuit; then the URI becomes that circuit's URI; otherwise the URI is untouched |
| CircuitFactoryPatching.MirrorRequest | src/BlazorLiveView.Core/Patching/CircuitFactoryPatcher.cs:89-111 | a request classified as a mirror named, through a non-empty circuitId, a user circuit with that id |

## Left out

- Locks in the trackers: the operations are modelled one after another. Concurrent callers are not modelled.
- Event delivery: raising an event appends to a log, and `+=`/`-=` change a multiset of subscribers. The subscribers' handlers are not run by the event. A handler is a method of its own, called separately.
- Logging, and the trace dump of the render tree in MirrorComponent, are not modelled.
- The text of a row is the frame's `ToString()`, which is not modelled. The row keeps the frame and the running index (`Frames.RowText`).
- `Uri.EscapeDataString` is a parameter. `new Uri(uri)`, its AbsolutePath and `HttpUtility.ParseQueryString` are a parameter that yields the path and the `circuitId` value. No build/parse round trip is claimed.
- Case-insensitive comparison folds ASCII letters only.
- Null strings are not modelled. `string.IsNullOrEmpty` and `string.IsNullOrWhiteSpace` are modelled on non-null strings.
- The dictionary's enumeration order is not modelled. The order of `ListCircuits`, `ListConnections` and the constructor's announcements is left open (`Snapshots.Values`).
- Renderer-bound circuit data are fields set by the host. This covers the current Uri, the component states (`GetOptionalComponentState`), the server-rendered-to-interactive id map (`GetRequiredWebRootComponent` throwing is `NoSuchWebRootComponent`) and the block reason. The circuit interface declares no blocked member, so the root mirror component reads the mirror circuit's `blockReason` field.
- Whether a component type is hidden in mirrors is a flag of the type. The attribute check by reflection is not modelled.
- The renderer is identified by a number. The tracker closes a circuit under the renderer it is handed.
- The postfix of the circuit-factory patch, its task continuation and the Harmony patching itself are not modelled.
- The reflection wrappers, the SignalR hub, the HTTP endpoint and DI wiring are not modelled.
- MirrorTranslation.MirrorTranslator.TranslateRoot: when a translation throws, the contract says only that the buffer was appended to and which error was raised. It does not say which frames were appended; every caller discards the buffer.
- DebugTranslation.DebugTranslator.TranslateRoot: the same, except that the root div is still closed.
- LegacyDebugTranslation.DebugMirrorTranslator.TranslateAll: the same.
- MirrorComponents.MirrorComponent.BuildView: a translation that throws leaves the scratch buffer as it was when the exception came, not cleared.
- MirrorComponents.MirrorComponent.Render: does not check that the render handle is attached. The source's Render does not check it either.
- CircuitTracking.CircuitTracker.CircuitClosed: removing the closed circuit from the renderer index is stated only for the renderer the circuit was opened with.
- Connections.ConnectionTracker.constructor: says that each announcement names a tracked connection and that their number is the number of connections. It does not fix their order.
- Connections.ConnectionTracker.OnCircuitClosed: the removed connection is not disposed, as in the source, so its handlers stay subscribed.
- Method splits made for the proofs: `Seed`, `AddAll` and `Add` are the constructor's loop; `Set` is the body of the three setters; `SetParameterProperties` is Blazor's `ParameterView.SetParameterProperties`; `OpenElement`, `FindTargetBlank`, `TranslateAttributes` and the `Translate*Frame` methods are parts of the source's methods; `CloseView` and `TranslateSubtree` are parts of the older translator.
- A mirror is handed the whole backing array of the component's frame buffer (`Circuits.ComponentState.frames`): the render tree, then unused slots. The unused slots are assumed to hold default (None) frames; the model does not fix how many there are.
- The dispatch loop of a base class with virtual hooks is repeated in each concrete translator with the hooks inlined.
- Integers are unbounded except for sequence arithmetic, which wraps to 32 bits (`Frames.Wrap32`).

## Findings

| source | as written | input that shows it | evidently intended | confidence | as-written member | corrected member |
|---|---|---|---|---|---|---|
| src/BlazorLiveView.Core/RenderTree/RenderTreeMirrorTranslatorBase.cs:27-59 | For an Element, Component or Region, the loop slices `Slice(i, length)` and does `i += length - 1` before the loop's `i++`. A length of 0 slices nothing, and `i` comes back to the same frame, so the loop never ends. | a render tree holding one `div` whose subtree length is 0 | reject a subtree length below 1, as the newer base does (OutOfRange) | not executed | LegacyDebugTranslationProperties.ZeroLengthStalls | LegacyDebugTranslation.LegacyStep |
