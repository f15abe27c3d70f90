/** The device's page layout while a job runs, the painter's life, and what a failure
    leaves behind. */
module PageSetup {
  import opened Geometry
  import opened PagedDevice
  import opened PrintPlan
  import opened DrawOrder

  /** An event that leaves the page layout as it is. */
  predicate KeepsLayout(e: Event) {
    !e.SetPageSize? && !e.SetOrientation? && !e.SetMargins?
  }

  /** Every image in `events` is drawn of a page of `doc` while the device, which had
      `layout` before them, holds exactly that page's layout. */
  predicate DrawnUnderOwnLayout(doc: Document, layout: Layout, events: seq<Event>) {
    forall j :: 0 <= j < |events| && events[j].Draw? ==>
      0 <= events[j].page < |doc.pages| && LayoutAfter(layout, events[..j]) == PageLayout(doc.pages[events[j].page].size)
  }

  // The layout at each point of a page.

  lemma {:induction false} LayoutKept(layout: Layout, events: seq<Event>)
    requires forall j :: 0 <= j < |events| ==> KeepsLayout(events[j])
    ensures LayoutAfter(layout, events) == layout
    decreases |events|
  {
    if events != [] {
      LayoutKept(layout, events[..|events| - 1]);
    }
  }

  /** Whatever the layout before, a page's geometry leaves exactly that page's layout. */
  lemma GeometryWins(layout: Layout, size: SizeF)
    ensures LayoutAfter(layout, GeometryEvents(size)) == PageLayout(size)
  {
    assert GeometryEvents(size) == [] + RestoreEvents(PageLayout(size));
    RestoreWins(layout, [], PageLayout(size));
  }

  /** The copies of a page are breaks and images of that page only. */
  lemma {:induction false} CopiesShape(page: int, n: int)
    ensures forall j :: 0 <= j < |CopyEvents(page, n)| ==>
      CopyEvents(page, n)[j] == NewPage || CopyEvents(page, n)[j] == Draw(page)
    decreases n
  {
    if n > 0 {
      CopiesShape(page, n - 1);
    }
  }

  lemma HeadLayout(layout: Layout, doc: Document, page: int, opening: bool, firstInPass: bool)
    requires 0 <= page < |doc.pages|
    ensures LayoutAfter(layout, PageHead(doc, page, opening, firstInPass)) == PageLayout(doc.pages[page].size)
    ensures DrawnUnderOwnLayout(doc, layout, PageHead(doc, page, opening, firstInPass))
  {
    var geometry := GeometryEvents(doc.pages[page].size);
    var rest := (if opening then [Begin] else []) + (if firstInPass then [] else [NewPage]);
    assert PageHead(doc, page, opening, firstInPass) == geometry + rest;
    GeometryWins(layout, doc.pages[page].size);
    LayoutAfterConcat(layout, geometry, rest);
    LayoutKept(PageLayout(doc.pages[page].size), rest);
  }

  /** Each image of a page is drawn under that page's layout, and the page leaves the
      device with it. */
  lemma PageLayoutHolds(layout: Layout, doc: Document, page: int, opening: bool, firstInPass: bool, pageCopies: int)
    requires 0 <= page < |doc.pages|
    ensures DrawnUnderOwnLayout(doc, layout, PageEvents(doc, page, opening, firstInPass, pageCopies))
    ensures LayoutAfter(layout, PageEvents(doc, page, opening, firstInPass, pageCopies)) == PageLayout(doc.pages[page].size)
  {
    var head := PageHead(doc, page, opening, firstInPass);
    var copies := CopyEvents(page, pageCopies);
    var own := PageLayout(doc.pages[page].size);
    HeadLayout(layout, doc, page, opening, firstInPass);
    CopiesUnderLayout(doc, page, pageCopies);
    DrawnUnderOwnLayoutConcat(doc, layout, head, copies);
    LayoutAfterConcat(layout, head, copies);
    CopiesShape(page, pageCopies);
    LayoutKept(own, copies);
  }

  /** The copies of a page are drawn under that page's layout. */
  lemma CopiesUnderLayout(doc: Document, page: int, pageCopies: int)
    requires 0 <= page < |doc.pages|
    ensures DrawnUnderOwnLayout(doc, PageLayout(doc.pages[page].size), CopyEvents(page, pageCopies))
  {
    var copies := CopyEvents(page, pageCopies);
    var own := PageLayout(doc.pages[page].size);
    CopiesShape(page, pageCopies);
    forall j | 0 <= j < |copies| && copies[j].Draw?
      ensures 0 <= copies[j].page < |doc.pages| && LayoutAfter(own, copies[..j]) == own
    {
      LayoutKept(own, copies[..j]);
    }
  }

  /** Drawing under the right layout survives putting two runs of events together. */
  lemma DrawnUnderOwnLayoutConcat(doc: Document, layout: Layout, a: seq<Event>, b: seq<Event>)
    requires DrawnUnderOwnLayout(doc, layout, a)
    requires DrawnUnderOwnLayout(doc, LayoutAfter(layout, a), b)
    ensures DrawnUnderOwnLayout(doc, layout, a + b)
  {
    var events := a + b;
    forall j | 0 <= j < |events| && events[j].Draw?
      ensures 0 <= events[j].page < |doc.pages|
              && LayoutAfter(layout, events[..j]) == PageLayout(doc.pages[events[j].page].size)
    {
      if j < |a| {
        assert events[j] == a[j] && events[..j] == a[..j];
      } else {
        var i := j - |a|;
        assert events[j] == b[i] && events[..j] == a + b[..i];
        LayoutAfterConcat(layout, a, b[..i]);
      }
    }
  }

  /** A run of events without setters and without images, such as a sheet break. */
  lemma BreakLayout(doc: Document, layout: Layout, sep: seq<Event>)
    requires sep == [] || sep == [NewPage]
    ensures DrawnUnderOwnLayout(doc, layout, sep) && LayoutAfter(layout, sep) == layout
  {
    LayoutKept(layout, sep);
  }

  // The layout across passes.

  /** Every image of a pass is drawn under its page's layout; after `k > 0` pages the
      device holds the layout of the `k`-th page of the traversal. */
  lemma {:induction false} PassLayout(layout: Layout, doc: Document, firstPageFirst: bool, k: nat, pageCopies: int,
                                      firstPass: bool)
    requires k <= |doc.pages|
    ensures var events := PassEvents(doc, firstPageFirst, k, pageCopies, firstPass);
      && DrawnUnderOwnLayout(doc, layout, events)
      && (k > 0 ==> LayoutAfter(layout, events) == PageLayout(doc.pages[PageAt(|doc.pages|, firstPageFirst, k - 1)].size))
  {
    if k > 0 {
      var done := PassEvents(doc, firstPageFirst, k - 1, pageCopies, firstPass);
      var page := PageAt(|doc.pages|, firstPageFirst, k - 1);
      var events := PageEvents(doc, page, firstPass && k == 1, k == 1, pageCopies);
      PassLayout(layout, doc, firstPageFirst, k - 1, pageCopies, firstPass);
      PageLayoutHolds(LayoutAfter(layout, done), doc, page, firstPass && k == 1, k == 1, pageCopies);
      DrawnUnderOwnLayoutConcat(doc, layout, done, events);
      LayoutAfterConcat(layout, done, events);
    }
  }

  /** The device after `d > 0` whole passes over a document with pages holds the layout
      of the last page of the traversal. */
  lemma {:induction false} DocumentsLayout(layout: Layout, doc: Document, firstPageFirst: bool, d: nat, pageCopies: int)
    ensures var events := DocumentEvents(doc, firstPageFirst, d, pageCopies);
      && DrawnUnderOwnLayout(doc, layout, events)
      && (d > 0 && |doc.pages| > 0 ==>
            LayoutAfter(layout, events) == PageLayout(doc.pages[PageAt(|doc.pages|, firstPageFirst, |doc.pages| - 1)].size))
  {
    if d > 0 {
      var done := DocumentEvents(doc, firstPageFirst, d - 1, pageCopies);
      var sep: seq<Event> := if d > 1 then [NewPage] else [];
      var pass := PassEvents(doc, firstPageFirst, |doc.pages|, pageCopies, d == 1);
      var between := LayoutAfter(layout, done);
      DocumentsLayout(layout, doc, firstPageFirst, d - 1, pageCopies);
      BreakLayout(doc, between, sep);
      PassLayout(LayoutAfter(between, sep), doc, firstPageFirst, |doc.pages|, pageCopies, d == 1);
      DrawnUnderOwnLayoutConcat(doc, layout, done, sep);
      LayoutAfterConcat(layout, done, sep);
      DrawnUnderOwnLayoutConcat(doc, layout, done + sep, pass);
      LayoutAfterConcat(layout, done + sep, pass);
    }
  }

  /** Whatever the device's layout before the job, every image the job draws is drawn
      under the size, orientation and zero margins of its own page. */
  lemma PlanLayout(layout: Layout, doc: Document, firstPageFirst: bool, copies: int, collate: bool)
    ensures DrawnUnderOwnLayout(doc, layout, Plan(doc, firstPageFirst, copies, collate))
  {
    var passes := Passes(copies, collate);
    var done := DocumentEvents(doc, firstPageFirst, passes, CopyFanOut(copies, collate).pageCopies);
    var end: seq<Event> := if passes > 0 && |doc.pages| > 0 then [End] else [];
    DocumentsLayout(layout, doc, firstPageFirst, passes, CopyFanOut(copies, collate).pageCopies);
    LayoutKept(LayoutAfter(layout, done), end);
    DrawnUnderOwnLayoutConcat(doc, layout, done, end);
  }

  /** A job cut short by a failure drew what it drew under the right layout too. */
  lemma PrefixLayout(doc: Document, layout: Layout, events: seq<Event>, cut: nat)
    requires cut <= |events| && DrawnUnderOwnLayout(doc, layout, events)
    ensures DrawnUnderOwnLayout(doc, layout, events[..cut])
  {
    forall j | 0 <= j < cut
      ensures events[..cut][..j] == events[..j]
    {
    }
  }

  /** A job cut short at its first failure drew every image it drew under the layout of
      the page it shows. */
  lemma CutLayout(layout: Layout, doc: Document, firstPageFirst: bool, copies: int, collate: bool, opens: bool)
    ensures var plan := Plan(doc, firstPageFirst, copies, collate);
      DrawnUnderOwnLayout(doc, layout, plan[..FirstFailure(plan, doc, opens)])
  {
    var plan := Plan(doc, firstPageFirst, copies, collate);
    PlanLayout(layout, doc, firstPageFirst, copies, collate);
    PrefixLayout(doc, layout, plan, FirstFailure(plan, doc, opens));
  }

  /** Every break that starts a sheet for an image (lines 88 and 92) is made after the
      geometry of the page it shows was set, so the device already holds that page's
      layout. */
  lemma SheetBreakLayout(layout: Layout, doc: Document, firstPageFirst: bool, copies: int, collate: bool)
    ensures var plan := Plan(doc, firstPageFirst, copies, collate);
      forall j :: 0 <= j < |plan| - 1 && plan[j] == NewPage && plan[j + 1].Draw? ==>
        0 <= plan[j + 1].page < |doc.pages|
        && LayoutAfter(layout, plan[..j]) == PageLayout(doc.pages[plan[j + 1].page].size)
  {
    var plan := Plan(doc, firstPageFirst, copies, collate);
    PlanLayout(layout, doc, firstPageFirst, copies, collate);
    forall j | 0 <= j < |plan| - 1 && plan[j] == NewPage && plan[j + 1].Draw?
      ensures LayoutAfter(layout, plan[..j]) == LayoutAfter(layout, plan[..j + 1])
    {
      assert plan[..j + 1] == plan[..j] + [NewPage];
      LayoutAfterAppend(layout, plan[..j], NewPage);
    }
  }

  /** The break that starts a repeated pass is made while the device still holds the
      layout of the previous pass's last page, before the first page of the new pass
      has set its own. */
  lemma PassBreakLayout(layout: Layout, doc: Document, firstPageFirst: bool, copies: int, collate: bool, d: nat)
    requires 0 < d < Passes(copies, collate) && |doc.pages| > 0
    ensures var plan := Plan(doc, firstPageFirst, copies, collate);
      var at := |DocumentEvents(doc, firstPageFirst, d, CopyFanOut(copies, collate).pageCopies)|;
      && at < |plan| && plan[at] == NewPage
      && LayoutAfter(layout, plan[..at])
         == PageLayout(doc.pages[PageAt(|doc.pages|, firstPageFirst, |doc.pages| - 1)].size)
  {
    var passes := Passes(copies, collate);
    var pageCopies := CopyFanOut(copies, collate).pageCopies;
    var plan := Plan(doc, firstPageFirst, copies, collate);
    var done := DocumentEvents(doc, firstPageFirst, d, pageCopies);
    DocumentIsPlanned(doc, firstPageFirst, passes, pageCopies, d, []);
    assert PassPrefix(doc, firstPageFirst, d, pageCopies) + [] == done + [NewPage];
    PrefixTransitive(done + [NewPage], DocumentEvents(doc, firstPageFirst, passes, pageCopies), plan);
    assert plan[..|done| + 1] == done + [NewPage];
    assert plan[..|done|] == done;
    DocumentsLayout(layout, doc, firstPageFirst, d, pageCopies);
  }
}
