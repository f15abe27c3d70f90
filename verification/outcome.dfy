/** The result a job reports: exactly when it succeeds, and what a failed job leaves on
    paper. */
module JobResult {
  import opened Geometry
  import opened PagedDevice
  import opened PrintPlan
  import opened DrawOrder
  import opened PageSetup
  import opened PainterUse

  /** Every page in `pages` is a page of `doc` that rasterises. */
  predicate AllRender(doc: Document, pages: seq<int>) {
    forall i :: 0 <= i < |pages| ==> 0 <= pages[i] < |doc.pages| && doc.pages[pages[i]].renders
  }

  /** The pages drawn by `events` are the pages of their draw events. */
  lemma {:induction false} DrawsRender(doc: Document, events: seq<Event>)
    requires forall j :: 0 <= j < |events| && events[j].Draw? ==>
      0 <= events[j].page < |doc.pages| && doc.pages[events[j].page].renders
    ensures AllRender(doc, Draws(events))
    decreases |events|
  {
    if events != [] {
      DrawsRender(doc, events[..|events| - 1]);
    }
  }

  /** Each page drawn comes from a draw event. */
  lemma {:induction false} DrawnAt(events: seq<Event>, i: nat)
    requires i < |Draws(events)|
    ensures exists j :: 0 <= j < |events| && events[j] == Draw(Draws(events)[i])
    decreases |events|
  {
    var init := events[..|events| - 1];
    if i < |Draws(init)| {
      DrawnAt(init, i);
      var j :| 0 <= j < |init| && init[j] == Draw(Draws(init)[i]);
      assert events[j] == init[j];
    } else {
      assert events[|events| - 1] == Draw(Draws(events)[i]);
    }
  }

  /** Each draw event is among the pages drawn. */
  lemma {:induction false} DrawListed(events: seq<Event>, j: nat)
    requires j < |events| && events[j].Draw?
    ensures events[j].page in Draws(events)
    decreases |events|
  {
    if j < |events| - 1 {
      DrawListed(events[..|events| - 1], j);
    }
  }

  /** Every image a job draws is of a page of the document. */
  lemma PlanDrawsInRange(doc: Document, firstPageFirst: bool, copies: int, collate: bool)
    ensures var plan := Plan(doc, firstPageFirst, copies, collate);
      forall j :: 0 <= j < |plan| && plan[j].Draw? ==> 0 <= plan[j].page < |doc.pages|
  {
    PlanLayout(PageLayout(SizeF(0.0, 0.0)), doc, firstPageFirst, copies, collate);
  }

  /** What a job leaves when it stops at its first failure: it succeeds exactly when none
      of its events fails; what it drew is a prefix of what it was to draw, and every page
      of it rasterised; and the event it stopped at is either opening a device that
      refuses a painter or drawing a page that does not rasterise. */
  lemma FailureLeaves(doc: Document, firstPageFirst: bool, copies: int, collate: bool, opens: bool)
    ensures var plan := Plan(doc, firstPageFirst, copies, collate);
      var cut := FirstFailure(plan, doc, opens);
      && (cut == |plan| <==> NoFailure(plan, doc, opens))
      && Draws(plan[..cut]) <= Expected(|doc.pages|, firstPageFirst, copies, collate)
      && AllRender(doc, Draws(plan[..cut]))
      && (cut < |plan| ==>
            (plan[cut] == Begin && !opens)
            || (plan[cut].Draw? && 0 <= plan[cut].page < |doc.pages| && !doc.pages[plan[cut].page].renders))
  {
    var plan := Plan(doc, firstPageFirst, copies, collate);
    var cut := FirstFailure(plan, doc, opens);
    FirstFailureSpec(plan, doc, opens);
    if cut == |plan| {
      assert plan[..cut] == plan;
    }
    PlanDraws(doc, firstPageFirst, copies, collate);
    DrawsPrefix(plan, cut);
    PlanDrawsInRange(doc, firstPageFirst, copies, collate);
    PrefixRenders(doc, plan, cut, opens);
  }

  /** What a prefix of the events draws is a prefix of what they all draw. */
  lemma DrawsPrefix(events: seq<Event>, cut: nat)
    requires cut <= |events|
    ensures Draws(events[..cut]) <= Draws(events)
  {
    assert events == events[..cut] + events[cut..];
    DrawsConcat(events[..cut], events[cut..]);
  }

  /** Events none of which fails before `cut`, drawing pages of the document only, drew
      pages that rasterise before `cut`. */
  lemma PrefixRenders(doc: Document, events: seq<Event>, cut: nat, opens: bool)
    requires cut <= |events| && NoFailure(events[..cut], doc, opens)
    requires forall j :: 0 <= j < |events| && events[j].Draw? ==> 0 <= events[j].page < |doc.pages|
    ensures AllRender(doc, Draws(events[..cut]))
  {
    var done := events[..cut];
    forall j | 0 <= j < |done| && done[j].Draw?
      ensures 0 <= done[j].page < |doc.pages| && doc.pages[done[j].page].renders
    {
      assert done[j] == events[j];
      assert !Fails(done[j], doc, opens);
    }
    DrawsRender(doc, done);
  }

  /** A job fails exactly when it opens the painter on a device that refuses one, or draws
      a page that does not rasterise; so it succeeds exactly when it has no pass over a
      document with pages, or the device opens and, with a positive copy count, every page
      rasterises. */
  lemma JobSucceeds(doc: Document, firstPageFirst: bool, copies: int, collate: bool, opens: bool)
    ensures var plan := Plan(doc, firstPageFirst, copies, collate);
      FirstFailure(plan, doc, opens) == |plan|
      <==> Passes(copies, collate) == 0 || |doc.pages| == 0
           || (opens && (copies > 0 ==> forall p :: 0 <= p < |doc.pages| ==> doc.pages[p].renders))
  {
    var plan := Plan(doc, firstPageFirst, copies, collate);
    FailureLeaves(doc, firstPageFirst, copies, collate, opens);
    if Passes(copies, collate) > 0 && |doc.pages| > 0 {
      if FirstFailure(plan, doc, opens) == |plan| {
        SucceededOpened(doc, firstPageFirst, copies, collate, opens);
      } else {
        FailedBecause(doc, firstPageFirst, copies, collate, opens);
      }
    } else {
      NothingToFail(doc, firstPageFirst, copies, collate, opens);
    }
  }

  /** A job in which nothing fails and that has a pass over a document with pages had a
      device that opens and, with a positive copy count, pages that all rasterise. */
  lemma SucceededOpened(doc: Document, firstPageFirst: bool, copies: int, collate: bool, opens: bool)
    requires Passes(copies, collate) > 0 && |doc.pages| > 0
    requires NoFailure(Plan(doc, firstPageFirst, copies, collate), doc, opens)
    ensures opens && (copies > 0 ==> forall p :: 0 <= p < |doc.pages| ==> doc.pages[p].renders)
  {
    var plan := Plan(doc, firstPageFirst, copies, collate);
    PlanOpensFirst(doc, firstPageFirst, copies, collate);
    assert plan[3] == plan[..4][3] == Begin;
    assert !Fails(plan[3], doc, opens);
    if copies > 0 {
      forall p | 0 <= p < |doc.pages|
        ensures doc.pages[p].renders
      {
        PlanDrawsEachPage(doc, firstPageFirst, copies, collate, p);
        DrawnRenders(doc, plan, opens, p);
      }
    }
  }

  /** A page drawn by events none of which fails rasterises. */
  lemma DrawnRenders(doc: Document, events: seq<Event>, opens: bool, p: int)
    requires NoFailure(events, doc, opens) && 0 <= p < |doc.pages|
    requires multiset(Draws(events))[p] > 0
    ensures doc.pages[p].renders
  {
    var drawn := Draws(events);
    assert p in drawn;
    var i :| 0 <= i < |drawn| && drawn[i] == p;
    DrawnAt(events, i);
    var j :| 0 <= j < |events| && events[j] == Draw(p);
    assert !Fails(events[j], doc, opens);
  }

  /** A job that stops early had a device that refuses a painter, or drew a page that
      does not rasterise. */
  lemma FailedBecause(doc: Document, firstPageFirst: bool, copies: int, collate: bool, opens: bool)
    requires var plan := Plan(doc, firstPageFirst, copies, collate);
      var cut := FirstFailure(plan, doc, opens);
      cut < |plan| && Fails(plan[cut], doc, opens)
    ensures !opens || (copies > 0 && exists p :: 0 <= p < |doc.pages| && !doc.pages[p].renders)
  {
    var plan := Plan(doc, firstPageFirst, copies, collate);
    var cut := FirstFailure(plan, doc, opens);
    if plan[cut].Draw? {
      DrawListed(plan, cut);
      PlanDrawCount(doc, firstPageFirst, copies, collate);
      assert !doc.pages[plan[cut].page].renders;
    }
  }

  /** A job without a pass over a document with pages neither opens the painter nor
      draws, so nothing in it fails. */
  lemma NothingToFail(doc: Document, firstPageFirst: bool, copies: int, collate: bool, opens: bool)
    requires Passes(copies, collate) == 0 || |doc.pages| == 0
    ensures var plan := Plan(doc, firstPageFirst, copies, collate);
      FirstFailure(plan, doc, opens) == |plan|
  {
    var plan := Plan(doc, firstPageFirst, copies, collate);
    PlanPainter(doc, firstPageFirst, copies, collate);
    PlanDrawCount(doc, firstPageFirst, copies, collate);
    forall j | 0 <= j < |plan|
      ensures !Fails(plan[j], doc, opens)
    {
      if plan[j] == Begin {
        CountPositive(plan, j);
      } else if plan[j].Draw? {
        DrawListed(plan, j);
      }
    }
    CutAtEnd(plan, doc, opens);
  }

  /** An event that occurs is counted. */
  lemma {:induction false} CountPositive(events: seq<Event>, j: nat)
    requires j < |events|
    ensures Count(events, events[j]) > 0
    decreases |events|
  {
    if j < |events| - 1 {
      CountPositive(events[..|events| - 1], j);
    }
  }

  /** A job that stops early stops at a draw exactly when the device opens for painting:
      on a device that refuses a painter it stops at the painter's opening. */
  lemma FailedAtDraw(doc: Document, firstPageFirst: bool, copies: int, collate: bool, opens: bool)
    ensures var plan := Plan(doc, firstPageFirst, copies, collate);
      var cut := FirstFailure(plan, doc, opens);
      cut < |plan| ==> (plan[cut].Draw? <==> opens)
  {
    var plan := Plan(doc, firstPageFirst, copies, collate);
    var cut := FirstFailure(plan, doc, opens);
    if cut < |plan| {
      FailureLeaves(doc, firstPageFirst, copies, collate, opens);
      if !opens {
        if Passes(copies, collate) > 0 && |doc.pages| > 0 {
          OpenFailure(doc, firstPageFirst, copies, collate);
          PlanOpensFirst(doc, firstPageFirst, copies, collate);
          assert plan[3] == plan[..4][3];
        } else {
          NothingToFail(doc, firstPageFirst, copies, collate, opens);
        }
      }
    }
  }

  /** Everything a job on non-empty data does to the device: its plan up to the first
      failure, the restore of the saved layout, and, when it stopped at a draw, the
      release of the still active painter as the job's painter goes out of scope. */
  function JobLog(doc: Document, firstPageFirst: bool, copies: int, collate: bool, opens: bool, saved: Layout)
    : (log: seq<Event>)
    ensures forall layout :: LayoutAfter(layout, log) == saved
  {
    var plan := Plan(doc, firstPageFirst, copies, collate);
    var cut := FirstFailure(plan, doc, opens);
    var release := if cut < |plan| && plan[cut].Draw? then [End] else [];
    RestoreOutlasts(plan[..cut], saved, release);
    plan[..cut] + RestoreEvents(saved) + release
  }

  /** The end of a job on non-empty data: after passes that went through, the painter's
      release if it was opened, then the restore; after a failure, the plan up to it, the
      restore, and the painter's release when the device had opened. Either way the
      device got the job's log, and the job went through exactly when nothing failed. */
  lemma JobStep(log0: seq<Event>, log: seq<Event>, doc: Document, firstPageFirst: bool, copies: int,
                collate: bool, opens: bool, saved: Layout, ok: bool)
    requires var done := DocumentEvents(doc, firstPageFirst, Passes(copies, collate), CopyFanOut(copies, collate).pageCopies);
      var painted := Passes(copies, collate) > 0 && |doc.pages| > 0;
      ok ==> log == log0 + done + (if painted then [End] else []) + RestoreEvents(saved)
             && NoFailure(done, doc, opens)
    requires var plan := Plan(doc, firstPageFirst, copies, collate);
      var cut := FirstFailure(plan, doc, opens);
      !ok ==> log == log0 + plan[..cut] + RestoreEvents(saved) + (if opens then [End] else []) && cut < |plan|
    ensures log == log0 + JobLog(doc, firstPageFirst, copies, collate, opens, saved)
    ensures var plan := Plan(doc, firstPageFirst, copies, collate);
      ok <==> FirstFailure(plan, doc, opens) == |plan|
  {
    if ok {
      JobWent(log0, log, doc, firstPageFirst, copies, collate, opens, saved);
    } else {
      JobStopped(log0, log, doc, firstPageFirst, copies, collate, opens, saved);
    }
  }

  lemma JobWent(log0: seq<Event>, log: seq<Event>, doc: Document, firstPageFirst: bool, copies: int,
                collate: bool, opens: bool, saved: Layout)
    requires var done := DocumentEvents(doc, firstPageFirst, Passes(copies, collate), CopyFanOut(copies, collate).pageCopies);
      var painted := Passes(copies, collate) > 0 && |doc.pages| > 0;
      log == log0 + done + (if painted then [End] else []) + RestoreEvents(saved)
      && NoFailure(done, doc, opens)
    ensures log == log0 + JobLog(doc, firstPageFirst, copies, collate, opens, saved)
    ensures var plan := Plan(doc, firstPageFirst, copies, collate);
      FirstFailure(plan, doc, opens) == |plan|
  {
    var passes := Passes(copies, collate);
    var painted := passes > 0 && |doc.pages| > 0;
    JobEnd(log0, doc, firstPageFirst, copies, collate, passes, CopyFanOut(copies, collate).pageCopies, painted, opens);
  }

  lemma JobStopped(log0: seq<Event>, log: seq<Event>, doc: Document, firstPageFirst: bool, copies: int,
                   collate: bool, opens: bool, saved: Layout)
    requires var plan := Plan(doc, firstPageFirst, copies, collate);
      var cut := FirstFailure(plan, doc, opens);
      log == log0 + plan[..cut] + RestoreEvents(saved) + (if opens then [End] else []) && cut < |plan|
    ensures log == log0 + JobLog(doc, firstPageFirst, copies, collate, opens, saved)
  {
    FailedAtDraw(doc, firstPageFirst, copies, collate, opens);
  }

  /** On every path of a job the painter is released exactly as often as it is opened:
      once when the device opens and there is a pass over a document with pages, and
      never otherwise. */
  lemma JobReleasesPainter(doc: Document, firstPageFirst: bool, copies: int, collate: bool, opens: bool,
                           saved: Layout)
    ensures var n := if opens && Passes(copies, collate) > 0 && |doc.pages| > 0 then 1 else 0;
      PainterCounts(JobLog(doc, firstPageFirst, copies, collate, opens, saved), n, n)
  {
    var plan := Plan(doc, firstPageFirst, copies, collate);
    var cut := FirstFailure(plan, doc, opens);
    var n := if opens && Passes(copies, collate) > 0 && |doc.pages| > 0 then 1 else 0;
    CountsAtCut(doc, firstPageFirst, copies, collate, opens);
    RestoreThenRelease(plan[..cut], saved, cut < |plan| && plan[cut].Draw?, n);
  }

  /** Up to its first failure a job has opened the painter once when the device opens
      and there is a pass over a document with pages, and released it as well unless it
      stopped at a draw. */
  lemma CountsAtCut(doc: Document, firstPageFirst: bool, copies: int, collate: bool, opens: bool)
    ensures var plan := Plan(doc, firstPageFirst, copies, collate);
      var cut := FirstFailure(plan, doc, opens);
      var n := if opens && Passes(copies, collate) > 0 && |doc.pages| > 0 then 1 else 0;
      var release := cut < |plan| && plan[cut].Draw?;
      (release ==> n == 1) && PainterCounts(plan[..cut], n, if release then 0 else n)
  {
    var plan := Plan(doc, firstPageFirst, copies, collate);
    var cut := FirstFailure(plan, doc, opens);
    var painted := Passes(copies, collate) > 0 && |doc.pages| > 0;
    FailedAtDraw(doc, firstPageFirst, copies, collate, opens);
    if !painted {
      NothingToFail(doc, firstPageFirst, copies, collate, opens);
      PlanPainter(doc, firstPageFirst, copies, collate);
      assert plan[..cut] == plan;
    } else if cut == |plan| {
      PlanPainter(doc, firstPageFirst, copies, collate);
      RanToEnd(plan, doc, opens);
      SucceededOpened(doc, firstPageFirst, copies, collate, opens);
      assert plan[..cut] == plan;
    } else if !opens {
      OpenFailure(doc, firstPageFirst, copies, collate);
      NoPainterEvents(plan[..cut]);
    } else {
      OpenedBeforeDraw(doc, firstPageFirst, copies, collate, cut);
    }
  }

  /** Restoring the layout touches no painter, and the release after it closes the
      painter's one open. */
  lemma RestoreThenRelease(done: seq<Event>, saved: Layout, release: bool, n: nat)
    requires release ==> n == 1
    requires PainterCounts(done, n, if release then 0 else n)
    ensures PainterCounts(done + RestoreEvents(saved) + (if release then [End] else []), n, n)
  {
    var r := RestoreEvents(saved);
    var tail: seq<Event> := if release then [End] else [];
    NoPainterEvents(r);
    CountsJoin(done, r, n, if release then 0 else n, 0, 0);
    if release {
      CountOne(End, Begin);
      CountOne(End, End);
    } else {
      NoPainterEvents(tail);
    }
    CountsJoin(done + r, tail, n, if release then 0 else n, 0, if release then 1 else 0);
  }

  /** Before any draw of a job that draws, the painter was opened once and not yet
      released. */
  lemma OpenedBeforeDraw(doc: Document, firstPageFirst: bool, copies: int, collate: bool, cut: nat)
    requires Passes(copies, collate) > 0 && |doc.pages| > 0
    requires var plan := Plan(doc, firstPageFirst, copies, collate);
      cut < |plan| && plan[cut].Draw?
    ensures PainterCounts(Plan(doc, firstPageFirst, copies, collate)[..cut], 1, 0)
  {
    var plan := Plan(doc, firstPageFirst, copies, collate);
    PlanOpensFirst(doc, firstPageFirst, copies, collate);
    PlanPainter(doc, firstPageFirst, copies, collate);
    assert plan[3] == plan[..4][3] == Begin;
    assert plan[..4][0].SetPageSize? && plan[..4][1].SetOrientation? && plan[..4][2].SetMargins?;
    assert 4 <= cut;
    var done := plan[..cut];
    assert plan == done + plan[cut..];
    CountConcat(done, plan[cut..], Begin);
    CountConcat(done, plan[cut..], End);
    assert plan[cut..][|plan| - 1 - cut] == End;
    CountPositive(plan[cut..], |plan| - 1 - cut);
    assert done == plan[..4] + done[4..];
    CountConcat(plan[..4], done[4..], Begin);
    CountPositive(plan[..4], 3);
  }
}
