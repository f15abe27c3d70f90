/** The painter's life in a job: it is opened once, on the first page drawn, right after
    that page's geometry, and released once, as the last thing the job does. */
module PainterUse {
  import opened Geometry
  import opened PagedDevice
  import opened PrintPlan
  import opened DrawOrder
  import opened PageSetup

  /** The opens and releases of the painter in `events`. */
  predicate PainterCounts(events: seq<Event>, begins: nat, ends: nat) {
    Count(events, Begin) == begins && Count(events, End) == ends
  }

  lemma CountOne(x: Event, e: Event)
    ensures Count([x], e) == if x == e then 1 else 0
  {
    assert [x][..0] == [];
  }

  lemma {:induction false} CountNone(events: seq<Event>, e: Event)
    requires forall j :: 0 <= j < |events| ==> events[j] != e
    ensures Count(events, e) == 0
    decreases |events|
  {
    if events != [] {
      CountNone(events[..|events| - 1], e);
    }
  }

  /** Counts of the painter's events add up over a concatenation. */
  lemma CountsJoin(a: seq<Event>, b: seq<Event>, begins: nat, ends: nat, moreBegins: nat, moreEnds: nat)
    requires PainterCounts(a, begins, ends) && PainterCounts(b, moreBegins, moreEnds)
    ensures PainterCounts(a + b, begins + moreBegins, ends + moreEnds)
  {
    CountConcat(a, b, Begin);
    CountConcat(a, b, End);
  }

  /** A run of events that neither opens nor releases the painter. */
  lemma NoPainterEvents(events: seq<Event>)
    requires forall j :: 0 <= j < |events| ==> events[j] != Begin && events[j] != End
    ensures PainterCounts(events, 0, 0)
  {
    CountNone(events, Begin);
    CountNone(events, End);
  }

  /** A page opens the painter when it is the job's first page drawn, and never releases
      it. */
  lemma PagePainter(doc: Document, page: int, opening: bool, firstInPass: bool, pageCopies: int)
    requires 0 <= page < |doc.pages|
    ensures PainterCounts(PageEvents(doc, page, opening, firstInPass, pageCopies), if opening then 1 else 0, 0)
  {
    var geometry := GeometryEvents(doc.pages[page].size);
    var open: seq<Event> := if opening then [Begin] else [];
    var rest := (if firstInPass then [] else [NewPage]) + CopyEvents(page, pageCopies);
    assert PageEvents(doc, page, opening, firstInPass, pageCopies) == geometry + open + rest;
    NoPainterEvents(geometry);
    if opening {
      CountOne(Begin, Begin);
      CountOne(Begin, End);
    }
    CountsJoin(geometry, open, 0, 0, if opening then 1 else 0, 0);
    CopiesShape(page, pageCopies);
    NoPainterEvents(rest);
    CountsJoin(geometry + open, rest, if opening then 1 else 0, 0, 0, 0);
  }

  /** The first `k` pages of a pass open the painter once if it is the job's first pass
      and they are not none, and never release it. */
  lemma {:induction false} PassPainter(doc: Document, firstPageFirst: bool, k: nat, pageCopies: int, firstPass: bool)
    requires k <= |doc.pages|
    ensures PainterCounts(PassEvents(doc, firstPageFirst, k, pageCopies, firstPass),
                          if firstPass && k > 0 then 1 else 0, 0)
  {
    if k == 0 {
      NoPainterEvents([]);
    } else {
      var page := PageAt(|doc.pages|, firstPageFirst, k - 1);
      PassPainter(doc, firstPageFirst, k - 1, pageCopies, firstPass);
      PagePainter(doc, page, firstPass && k == 1, k == 1, pageCopies);
      CountsJoin(PassEvents(doc, firstPageFirst, k - 1, pageCopies, firstPass),
        PageEvents(doc, page, firstPass && k == 1, k == 1, pageCopies),
        if firstPass && k > 1 then 1 else 0, 0, if firstPass && k == 1 then 1 else 0, 0);
    }
  }

  /** `d` passes over a document with pages open the painter once, in the first pass;
      over a document without pages they never open it. */
  lemma {:induction false} DocumentsPainter(doc: Document, firstPageFirst: bool, d: nat, pageCopies: int)
    ensures PainterCounts(DocumentEvents(doc, firstPageFirst, d, pageCopies),
                          if d > 0 && |doc.pages| > 0 then 1 else 0, 0)
  {
    if d == 0 {
      NoPainterEvents([]);
    } else {
      var done := DocumentEvents(doc, firstPageFirst, d - 1, pageCopies);
      var sep: seq<Event> := if d > 1 then [NewPage] else [];
      var before := if d > 1 && |doc.pages| > 0 then 1 else 0;
      DocumentsPainter(doc, firstPageFirst, d - 1, pageCopies);
      NoPainterEvents(sep);
      CountsJoin(done, sep, before, 0, 0, 0);
      PassPainter(doc, firstPageFirst, |doc.pages|, pageCopies, d == 1);
      CountsJoin(done + sep, PassEvents(doc, firstPageFirst, |doc.pages|, pageCopies, d == 1), before, 0,
        if d == 1 && |doc.pages| > 0 then 1 else 0, 0);
    }
  }

  /** A job with a pass over a document with pages opens the painter exactly once and
      releases it exactly once, as its very last event, even when that pass draws no image
      (a non-positive copy count with collation); any other job never touches the painter. */
  lemma PlanPainter(doc: Document, firstPageFirst: bool, copies: int, collate: bool)
    ensures var plan := Plan(doc, firstPageFirst, copies, collate);
      var painted := Passes(copies, collate) > 0 && |doc.pages| > 0;
      && PainterCounts(plan, if painted then 1 else 0, if painted then 1 else 0)
      && (painted ==> plan[|plan| - 1] == End)
  {
    var passes := Passes(copies, collate);
    var painted := passes > 0 && |doc.pages| > 0;
    var done := DocumentEvents(doc, firstPageFirst, passes, CopyFanOut(copies, collate).pageCopies);
    var end: seq<Event> := if painted then [End] else [];
    DocumentsPainter(doc, firstPageFirst, passes, CopyFanOut(copies, collate).pageCopies);
    if painted {
      CountOne(End, Begin);
      CountOne(End, End);
    } else {
      NoPainterEvents(end);
    }
    CountsJoin(done, end, if painted then 1 else 0, 0, 0, if painted then 1 else 0);
  }

  /** A job with a pass over a document with pages starts with the geometry of the first
      page of the traversal, then opens the painter. */
  lemma PlanOpensFirst(doc: Document, firstPageFirst: bool, copies: int, collate: bool)
    requires Passes(copies, collate) > 0 && |doc.pages| > 0
    ensures var plan := Plan(doc, firstPageFirst, copies, collate);
      var first := doc.pages[PageAt(|doc.pages|, firstPageFirst, 0)].size;
      |plan| >= 4 && plan[..4] == GeometryEvents(first) + [Begin]
  {
    var passes := Passes(copies, collate);
    var pageCopies := CopyFanOut(copies, collate).pageCopies;
    var page := PageAt(|doc.pages|, firstPageFirst, 0);
    var opening := GeometryEvents(doc.pages[page].size) + [Begin];
    BeginIsPlanned(doc, page, true, pageCopies);
    PassIsPlanned(doc, firstPageFirst, 0, pageCopies, true, opening);
    assert [] + opening == opening;
    DocumentIsPlanned(doc, firstPageFirst, passes, pageCopies, 0, opening);
    assert PassPrefix(doc, firstPageFirst, 0, pageCopies) == [];
    PrefixTransitive(opening, DocumentEvents(doc, firstPageFirst, passes, pageCopies),
      Plan(doc, firstPageFirst, copies, collate));
  }

  /** On a device that refuses a painter, a job with a pass over a document with pages
      stops right after the first page's geometry, before drawing anything. */
  lemma OpenFailure(doc: Document, firstPageFirst: bool, copies: int, collate: bool)
    requires Passes(copies, collate) > 0 && |doc.pages| > 0
    ensures var plan := Plan(doc, firstPageFirst, copies, collate);
      var cut := FirstFailure(plan, doc, false);
      var first := doc.pages[PageAt(|doc.pages|, firstPageFirst, 0)].size;
      && cut == 3 && plan[..cut] == GeometryEvents(first)
      && Draws(plan[..cut]) == []
  {
    var plan := Plan(doc, firstPageFirst, copies, collate);
    var geometry := GeometryEvents(doc.pages[PageAt(|doc.pages|, firstPageFirst, 0)].size);
    PlanOpensFirst(doc, firstPageFirst, copies, collate);
    assert plan[..4] == geometry + [Begin];
    assert geometry + [Begin] <= plan;
    CutAt(plan, geometry, Begin, doc, false);
    NoSheets(geometry);
  }
}
