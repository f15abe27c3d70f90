/** Jobs on a small document, worked out: any document of three pages, printed twice. */
module WorkedExamples {
  import opened Geometry
  import opened PagedDevice
  import opened PrintPlan
  import opened DrawOrder
  import opened JobResult

  lemma ForwardOrder()
    ensures Traversal(3, true) == [0, 1, 2]
  {
    assert Visited(3, true, 1) == [0];
    assert Visited(3, true, 2) == [0, 1];
  }

  lemma BackwardOrder()
    ensures Traversal(3, false) == [2, 1, 0]
  {
    assert Visited(3, false, 1) == [2];
    assert Visited(3, false, 2) == [2, 1];
  }

  /** Each of three pages twice in a row, in the given order. */
  lemma StutterTwice(a: int, b: int, c: int)
    ensures Stutter([a, b, c], 2) == [a, a, b, b, c, c]
  {
    assert Repeat(a, 2) == [a, a] && Repeat(b, 2) == [b, b] && Repeat(c, 2) == [c, c];
    StutterSnoc([], a, 2);
    assert [] + [a] == [a];
    StutterSnoc([a], b, 2);
    assert [a] + [b] == [a, b];
    StutterSnoc([a, b], c, 2);
    assert [a, b] + [c] == [a, b, c];
  }

  /** Collated, each page comes out twice in a row: 0, 0, 1, 1, 2, 2. */
  lemma CollatedTwice(doc: Document)
    requires |doc.pages| == 3
    ensures Draws(Plan(doc, true, 2, true)) == [0, 0, 1, 1, 2, 2]
  {
    PlanDraws(doc, true, 2, true);
    ForwardOrder();
    StutterTwice(0, 1, 2);
  }

  /** Not collated, the whole document comes out twice: 0, 1, 2, 0, 1, 2. */
  lemma UncollatedTwice(doc: Document)
    requires |doc.pages| == 3
    ensures Draws(Plan(doc, true, 2, false)) == [0, 1, 2, 0, 1, 2]
  {
    PlanDraws(doc, true, 2, false);
    ForwardOrder();
    CycleTwice(Traversal(3, true));
  }

  lemma CycleTwice(order: seq<int>)
    ensures Cycle(order, 2) == order + order
  {
    assert Cycle(order, 1) == [] + order;
  }

  /** Collated and last page first: 2, 2, 1, 1, 0, 0. */
  lemma BackwardCollatedTwice(doc: Document)
    requires |doc.pages| == 3
    ensures Draws(Plan(doc, false, 2, true)) == [2, 2, 1, 1, 0, 0]
  {
    PlanDraws(doc, false, 2, true);
    BackwardOrder();
    StutterTwice(2, 1, 0);
  }

  /** Six images, each after the first on a new sheet: five breaks. */
  lemma SixSheets(doc: Document, collate: bool)
    requires |doc.pages| == 3
    ensures Count(Plan(doc, true, 2, collate), NewPage) == 5
  {
    PlanBreaks(doc, true, 2, collate);
  }

  /** An A4 page on its side is printed in landscape, upright in portrait, and a square
      page in portrait. */
  lemma A4Orientations()
    ensures OrientationOf(SizeF(842.0, 595.0)) == Landscape
    ensures OrientationOf(SizeF(595.0, 842.0)) == Portrait
    ensures OrientationOf(SizeF(595.0, 595.0)) == Portrait
  {
  }

  /** One page that does not rasterise, one copy, a device that opens: the job sets the
      page's geometry, opens the painter, fails at the draw, restores the layout, and the
      painter is released last. */
  lemma RenderFailureReleases(doc: Document, opens: bool, saved: Layout)
    requires |doc.pages| == 1 && !doc.pages[0].renders && opens
    ensures JobLog(doc, true, 1, false, opens, saved)
            == GeometryEvents(doc.pages[0].size) + [Begin] + RestoreEvents(saved) + [End]
  {
    var plan := Plan(doc, true, 1, false);
    var head := GeometryEvents(doc.pages[0].size) + [Begin];
    assert plan == head + [Draw(0), End] by {
      assert Passes(1, false) == 1 && CopyFanOut(1, false).pageCopies == 1;
      assert CopyEvents(0, 1) == [] + [] + [Draw(0)];
      assert PageHead(doc, 0, true, true) == head + [];
      assert PageEvents(doc, 0, true, true, 1) == head + [Draw(0)];
      assert PassEvents(doc, true, 1, 1, true) == [] + PageEvents(doc, 0, true, true, 1);
      assert DocumentEvents(doc, true, 1, 1) == [] + [] + PassEvents(doc, true, 1, 1, true);
    }
    CutAt(plan, head, Draw(0), doc, opens);
  }

  /** Collated with no copies, a one-page job draws no image, yet it sets the page's
      geometry, opens the painter and releases it. */
  lemma CollatedNoCopies(doc: Document)
    requires |doc.pages| == 1
    ensures Plan(doc, true, 0, true) == GeometryEvents(doc.pages[0].size) + [Begin, End]
  {
    var head := GeometryEvents(doc.pages[0].size) + [Begin];
    assert Passes(0, true) == 1 && CopyFanOut(0, true).pageCopies == 0;
    assert PageHead(doc, 0, true, true) == head + [];
    assert PageEvents(doc, 0, true, true, 0) == head;
    assert PassEvents(doc, true, 1, 0, true) == [] + PageEvents(doc, 0, true, true, 0);
    assert DocumentEvents(doc, true, 1, 0) == [] + [] + PassEvents(doc, true, 1, 0, true);
  }
}
