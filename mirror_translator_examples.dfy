/** The live translator on the render trees of its unit tests. */
module MirrorTranslationExamples {
  import opened Wrappers
  import opened Frames
  import opened TranslatorBase
  import opened MirrorTranslation

  const CIRCUIT_ID: string := "test-circuit-id"
  const TEST_COMPONENT: ComponentType := AppComponentType("TestComponent", false)

  lemma TranslatesEmpty()
    ensures Translate([], CIRCUIT_ID) == Ok([])
  {
  }

  lemma TranslatesText()
    ensures Translate([Text(0, Literal("text"))], CIRCUIT_ID) == Ok([Text(0, Literal("text"))])
  {
    var fs := [Text(0, Literal("text"))];
    assert Scaled(0) == 0;
    assert LiveItem(fs, 0, CIRCUIT_ID) == Step(Ok([Text(0, Literal("text"))]), 1);
    assert LiveFrom(fs, 1, CIRCUIT_ID) == Ok([]);
    assert [Text(0, Literal("text"))] + [] == [Text(0, Literal("text"))];
  }

  lemma TranslatesElementWithText()
    ensures Translate([Div(0, 2), Text(1, Literal("text"))], CIRCUIT_ID)
         == Ok([Div(0, 2), Text(4, Literal("text"))])
  {
    var fs := [Div(0, 2), Text(1, Literal("text"))];
    var subtree := fs[1..2];
    assert subtree == [Text(1, Literal("text"))];
    assert AttributePrefix(subtree) == 0;
    var children := subtree[0..];
    assert children == subtree && subtree[..0] == [];
    assert Scaled(0) == 0 && Scaled(1) == 4;
    assert LiveItem(children, 0, CIRCUIT_ID) == Step(Ok([Text(4, Literal("text"))]), 1);
    assert LiveFrom(children, 1, CIRCUIT_ID) == Ok([]);
    assert LiveFrom(children, 0, CIRCUIT_ID) == Ok([Text(4, Literal("text"))] + []);
    assert [Text(4, Literal("text"))] + [] == [Text(4, Literal("text"))];
    assert MirrorAttributes(false, []) == [];
    assert ElementOut(fs[0], [], [Text(4, Literal("text"))]) == [Div(0, 2), Text(4, Literal("text"))];
    assert fs[0 + 1 .. 0 + 2] == subtree;
    assert ElementResult(fs[0], subtree[..0], LiveFrom(subtree[0..], 0, CIRCUIT_ID)) == Ok([Div(0, 2), Text(4, Literal("text"))]);
    assert LiveItem(fs, 0, CIRCUIT_ID) == Step(Ok([Div(0, 2), Text(4, Literal("text"))]), 2);
    assert LiveFrom(fs, 2, CIRCUIT_ID) == Ok([]);
    assert [Div(0, 2), Text(4, Literal("text"))] + [] == [Div(0, 2), Text(4, Literal("text"))];
  }

  lemma TranslatesElementWithAttributeAndText()
    ensures Translate([Div(0, 3), Attr(1, "id", Str("the-id")), Text(2, Literal("text"))], CIRCUIT_ID)
         == Ok([Div(0, 3), Attr(4, "id", Str("the-id")), Text(8, Literal("text"))])
  {
    var fs := [Div(0, 3), Attr(1, "id", Str("the-id")), Text(2, Literal("text"))];
    var subtree := fs[1..3];
    assert subtree == [Attr(1, "id", Str("the-id")), Text(2, Literal("text"))];
    assert AttributePrefix(subtree[1..]) == 0;
    assert AttributePrefix(subtree) == 1;
    var children := subtree[1..];
    assert children == [Text(2, Literal("text"))];
    assert Scaled(0) == 0 && Scaled(1) == 4 && Scaled(2) == 8;
    assert LiveItem(children, 0, CIRCUIT_ID) == Step(Ok([Text(8, Literal("text"))]), 1);
    assert LiveFrom(children, 1, CIRCUIT_ID) == Ok([]);
    assert LiveFrom(children, 0, CIRCUIT_ID) == Ok([Text(8, Literal("text"))] + []);
    assert [Text(8, Literal("text"))] + [] == [Text(8, Literal("text"))];
    var attributes := subtree[..1];
    assert attributes == [Attr(1, "id", Str("the-id"))] && attributes[..0] == [];
    assert MirrorAttributes(false, attributes) == [] + [Attr(4, "id", Str("the-id"))];
    assert !IsTargetBlank(attributes[0]);
    assert !Neutralises(fs[0], attributes);
    assert ElementOut(fs[0], attributes, [Text(8, Literal("text"))])
        == [Div(0, 3), Attr(4, "id", Str("the-id")), Text(8, Literal("text"))];
    assert fs[0 + 1 .. 0 + 3] == subtree;
    assert ElementResult(fs[0], subtree[..1], LiveFrom(subtree[1..], 0, CIRCUIT_ID))
        == Ok([Div(0, 3), Attr(4, "id", Str("the-id")), Text(8, Literal("text"))]);
    assert LiveItem(fs, 0, CIRCUIT_ID) == Step(Ok([Div(0, 3), Attr(4, "id", Str("the-id")), Text(8, Literal("text"))]), 3);
    assert LiveFrom(fs, 3, CIRCUIT_ID) == Ok([]);
    assert [Div(0, 3), Attr(4, "id", Str("the-id")), Text(8, Literal("text"))] + []
        == [Div(0, 3), Attr(4, "id", Str("the-id")), Text(8, Literal("text"))];
  }

  /** A component with two parameters becomes one mirror block; the component id is unset (0). */
  lemma TranslatesComponentWithAttributes()
    ensures Translate([ Component(0, 3, Some(TEST_COMPONENT), 0, Null),
                        Attr(1, "Param1", Str("value1")),
                        Attr(2, "Param2", Str("value2")) ], CIRCUIT_ID)
         == Ok(MirrorBlock(0, Null, CIRCUIT_ID, 0, false))
  {
    var fs := [ Component(0, 3, Some(TEST_COMPONENT), 0, Null),
                Attr(1, "Param1", Str("value1")),
                Attr(2, "Param2", Str("value2")) ];
    assert AllAttributes(fs[1..3]);
    assert Scaled(0) == 0;
    assert LiveItem(fs, 0, CIRCUIT_ID) == Step(Ok(MirrorBlock(0, Null, CIRCUIT_ID, 0, false)), 3);
    assert LiveFrom(fs, 3, CIRCUIT_ID) == Ok([]);
    assert MirrorBlock(0, Null, CIRCUIT_ID, 0, false) + [] == MirrorBlock(0, Null, CIRCUIT_ID, 0, false);
  }

  /** A region of length 5 holding one component becomes a region of length 8. */
  lemma TranslatesRegionWithChildren()
    ensures Translate([ Region(0, 5), Text(1, Literal("text")), Div(2, 1),
                        Component(3, 1, Some(TEST_COMPONENT), 0, Null), Markup(4, "markup") ], CIRCUIT_ID)
         == Ok([Region(0, 8), Text(4, Literal("text")), Div(8, 1)]
               + MirrorBlock(12, Null, CIRCUIT_ID, 0, false)
               + [Markup(16, "markup")])
  {
    var fs := [ Region(0, 5), Text(1, Literal("text")), Div(2, 1),
                Component(3, 1, Some(TEST_COMPONENT), 0, Null), Markup(4, "markup") ];
    var children := fs[1..5];
    assert children == [Text(1, Literal("text")), Div(2, 1), Component(3, 1, Some(TEST_COMPONENT), 0, Null), Markup(4, "markup")];
    assert Scaled(0) == 0 && Scaled(1) == 4 && Scaled(2) == 8 && Scaled(3) == 12 && Scaled(4) == 16;
    var block := MirrorBlock(12, Null, CIRCUIT_ID, 0, false);
    var markup := [Markup(16, "markup")];
    assert LiveFrom(children, 4, CIRCUIT_ID) == Ok([]);
    assert LiveItem(children, 3, CIRCUIT_ID) == Step(Ok(markup), 4);
    assert LiveFrom(children, 3, CIRCUIT_ID) == Ok(markup + []);
    assert children[3 + 1 .. 3 + 1] == [];
    assert AllAttributes(children[3 .. 3]);
    assert LiveItem(children, 2, CIRCUIT_ID) == Step(Ok(block), 3);
    assert markup + [] == markup;
    assert LiveFrom(children, 2, CIRCUIT_ID) == Ok(block + markup);
    var empty: seq<Frame> := children[1 + 1 .. 1 + 1];
    assert empty == [];
    assert AttributePrefix(empty) == 0;
    assert empty[..0] == [] && empty[0..] == [];
    assert LiveFrom(empty, 0, CIRCUIT_ID) == Ok([]);
    assert MirrorAttributes(false, []) == [];
    assert ElementOut(Div(2, 1), [], []) == [Div(8, 1)];
    assert LiveItem(children, 1, CIRCUIT_ID) == Step(Ok([Div(8, 1)]), 2);
    assert LiveFrom(children, 1, CIRCUIT_ID) == Ok([Div(8, 1)] + (block + markup));
    assert LiveItem(children, 0, CIRCUIT_ID) == Step(Ok([Text(4, Literal("text"))]), 1);
    var translated := [Text(4, Literal("text"))] + ([Div(8, 1)] + (block + markup));
    assert LiveFrom(children, 0, CIRCUIT_ID) == Ok(translated);
    assert |translated| == 7;
    assert fs[0 + 1 .. 0 + 5] == children;
    assert LiveItem(fs, 0, CIRCUIT_ID) == Step(Ok([Region(0, 8)] + translated), 5);
    assert LiveFrom(fs, 5, CIRCUIT_ID) == Ok([]);
    assert [Region(0, 8)] + translated + [] == [Region(0, 8), Text(4, Literal("text")), Div(8, 1)] + block + markup;
  }
}
