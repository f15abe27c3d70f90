/** The print job: turns a rendered document into drawn pages on a borrowed paged
    device, and hands the device back with its page layout as it found it. */
module Printing {
  import opened Geometry
  import opened PagedDevice
  import opened PrintPlan
  import opened PageSetup
  import opened JobResult

  class PrinterWorker {
    /** The bytes of the rendered document; only their number matters here. */
    const data: seq<bv8>
    /** The device the job prints on; it is borrowed, not owned. */
    const device: Device
    var firstPageFirst: bool
    var documentCopies: int
    var collateCopies: bool
    /** Every `resultReady` the worker has emitted, oldest first. */
    var results: seq<bool>

    constructor (data: seq<bv8>, device: Device, firstPageFirst: bool, documentCopies: int, collateCopies: bool)
      ensures this.data == data && this.device == device
      ensures this.firstPageFirst == firstPageFirst && this.documentCopies == documentCopies
      ensures this.collateCopies == collateCopies && results == []
    {
      this.data := data;
      this.device := device;
      this.firstPageFirst := firstPageFirst;
      this.documentCopies := documentCopies;
      this.collateCopies := collateCopies;
      results := [];
    }

    /** Hands the device back with the saved layout, then reports the outcome. */
    method Finish(ok: bool, saved: Layout)
      requires device.Valid()
      modifies this`results, device
      ensures device.Valid() && device.CurrentLayout() == saved
      ensures device.log == old(device.log) + RestoreEvents(saved)
      ensures results == old(results) + [ok]
    {
      device.SetPageSize(saved.pageSize);
      device.SetPageOrientation(saved.orientation);
      device.SetPageMargins(saved.margins);
      results := results + [ok];
    }

    /** Leaves a job whose passes all went through: the painter is released, then the
        success is reported with the layout restored. */
    method Complete(painter: Painter, saved: Layout)
      requires device.Valid()
      modifies this`results, device, painter
      ensures device.Valid()
      ensures !painter.active && device.CurrentLayout() == saved
      ensures device.log == old(device.log) + (if old(painter.active) then [End] else []) + RestoreEvents(saved)
      ensures results == old(results) + [true]
    {
      painter.End(device);
      Finish(true, saved);
    }

    /** Leaves a job that failed: reports the failure with the layout restored, then the
        job's painter goes out of scope, which releases it if it is still active. */
    method Abandon(painter: Painter, saved: Layout)
      requires device.Valid()
      modifies this`results, device, painter
      ensures device.Valid()
      ensures !painter.active && device.CurrentLayout() == saved
      ensures device.log == old(device.log) + RestoreEvents(saved) + (if old(painter.active) then [End] else [])
      ensures results == old(results) + [false]
    {
      Finish(false, saved);
      painter.End(device);
    }

    /** The copies of one page (the innermost loop): `pageCopies` images of the page,
        each after the first on a sheet of its own, until one fails to render. `ok` says
        whether none did. */
    method PrintCopies(doc: Document, painter: Painter, page: int, pageCopies: int) returns (ok: bool)
      requires 0 <= page < |doc.pages| && painter.active && device.Valid()
      modifies device
      ensures device.Valid() && device.CurrentLayout() == old(device.CurrentLayout())
      ensures var copies := CopyEvents(page, pageCopies);
        var cut := FirstFailure(copies, doc, device.opensForPainting);
        device.log == old(device.log) + copies[..cut] && ok == (cut == |copies|)
    {
      ghost var log0 := device.log;
      ghost var opens := device.opensForPainting;
      ghost var done: seq<Event> := [];
      var printedPages := 0;
      while printedPages < pageCopies
        invariant 0 <= printedPages <= if pageCopies < 0 then 0 else pageCopies
        invariant device.log == log0 + done
        invariant done == CopyEvents(page, printedPages)
        invariant NoFailure(done, doc, opens)
        invariant device.Valid() && device.CurrentLayout() == old(device.CurrentLayout())
      {
        if printedPages > 0 {
          device.NewPage();
          done := done + [NewPage];
        }
        var image := Render(doc, page);
        if image.None? {
          CopyIsPlanned(page, printedPages, pageCopies);
          CutAt(CopyEvents(page, pageCopies), done, Draw(page), doc, opens);
          return false;
        }
        painter.DrawImage(device, image.value);
        done := done + [Draw(page)];
        printedPages := printedPages + 1;
      }
      assert done == CopyEvents(page, pageCopies);
      CutAtEnd(done, doc, opens);
      ok := true;
    }

    /** One page of one pass (the body of the page loop): the device gets the page's
        geometry, the painter is opened unless it already is, a fresh sheet is started
        unless the page begins its pass, then the page's copies are drawn. The device
        performs the page's events up to their first failure, and `ok` says whether
        nothing failed. */
    method PrintPage(doc: Document, painter: Painter, page: int, firstInPass: bool, pageCopies: int)
      returns (ok: bool)
      requires 0 <= page < |doc.pages|
      requires painter.active ==> device.opensForPainting
      requires device.Valid()
      modifies device, painter
      ensures device.Valid() && device.CurrentLayout() == PageLayout(doc.pages[page].size)
      ensures var events := PageEvents(doc, page, !old(painter.active), firstInPass, pageCopies);
        var cut := FirstFailure(events, doc, device.opensForPainting);
        device.log == old(device.log) + events[..cut] && ok == (cut == |events|)
      ensures ok ==> painter.active
      ensures old(painter.active) ==> painter.active
      ensures painter.active <==> device.opensForPainting
    {
      ghost var log0 := device.log;
      ghost var opens := device.opensForPainting;
      ghost var opening := !painter.active;

      var size := doc.pages[page].size;
      device.SetPageSize(PageSize(size));
      var isLandscape := size.width > size.height;
      device.SetPageOrientation(if isLandscape then Landscape else Portrait);
      device.SetPageMargins(NoMargins);
      GeometryAppended(log0, size);
      ghost var geometry := log0 + GeometryEvents(size);
      assert device.log == geometry;

      if !painter.active {
        var begun := painter.Begin(device);
        if !begun {
          PageStep(log0, device.log, doc, page, opening, firstInPass, pageCopies, opens, false);
          return false;
        }
      }
      assert device.log == geometry + (if opening then [Begin] else []);

      if !firstInPass {
        device.NewPage();
      }
      HeadAppended(log0, doc, page, opening, firstInPass);
      assert device.log == log0 + PageHead(doc, page, opening, firstInPass);
      ok := PrintCopies(doc, painter, page, pageCopies);
      PageStep(log0, device.log, doc, page, opening, firstInPass, pageCopies, opens, ok);
    }

    /** The `k`-th page of a pass in the job's page order, printed after the pass's
        earlier pages went through without a failure: either the log holds one more page
        of the pass, or it holds the pass cut at its first failure. */
    method PrintPassPage(doc: Document, painter: Painter, fromPage: int, i: int, pageCopies: int,
                         ghost firstPass: bool, ghost k: nat, ghost log0: seq<Event>)
      returns (ok: bool)
      requires fromPage == if firstPageFirst then 0 else |doc.pages| - 1
      requires k < |doc.pages| && i == PageAt(|doc.pages|, firstPageFirst, k)
      requires device.log == log0 + PassEvents(doc, firstPageFirst, k, pageCopies, firstPass)
      requires NoFailure(PassEvents(doc, firstPageFirst, k, pageCopies, firstPass), doc, device.opensForPainting)
      requires painter.active <==> !firstPass || k > 0
      requires painter.active ==> device.opensForPainting
      requires device.Valid()
      modifies device, painter
      ensures device.Valid() && device.CurrentLayout() == PageLayout(doc.pages[i].size)
      ensures ok ==>
        && device.log == log0 + PassEvents(doc, firstPageFirst, k + 1, pageCopies, firstPass)
        && NoFailure(PassEvents(doc, firstPageFirst, k + 1, pageCopies, firstPass), doc, device.opensForPainting)
        && painter.active
      ensures !ok ==>
        var pass := PassEvents(doc, firstPageFirst, |doc.pages|, pageCopies, firstPass);
        var cut := FirstFailure(pass, doc, device.opensForPainting);
        device.log == log0 + pass[..cut] && cut < |pass|
      ensures painter.active <==> device.opensForPainting
    {
      ok := PrintPage(doc, painter, i, i == fromPage, pageCopies);
      PassStep(log0, device.log, doc, firstPageFirst, k, pageCopies, firstPass, device.opensForPainting, ok);
    }

    /** One pass over the document (the page loop), in the job's page order. The
        painter is still closed exactly on the first pass of a job with pages. The device
        performs the pass's events up to their first failure, and `ok` says whether
        nothing failed. */
    method PrintPass(doc: Document, painter: Painter, fromPage: int, toPage: int, pageCopies: int,
                     ghost firstPass: bool)
      returns (ok: bool)
      requires fromPage == if firstPageFirst then 0 else |doc.pages| - 1
      requires toPage == if firstPageFirst then |doc.pages| else -1
      requires painter.active <==> !firstPass && |doc.pages| > 0
      requires painter.active ==> device.opensForPainting
      requires device.Valid()
      modifies device, painter
      ensures device.Valid()
      ensures var events := PassEvents(doc, firstPageFirst, |doc.pages|, pageCopies, firstPass);
        var cut := FirstFailure(events, doc, device.opensForPainting);
        device.log == old(device.log) + events[..cut] && ok == (cut == |events|)
      ensures ok ==> (painter.active <==> |doc.pages| > 0)
      ensures painter.active ==> device.opensForPainting
      ensures !ok ==> (painter.active <==> device.opensForPainting)
    {
      ghost var log0 := device.log;
      ghost var pageCount := |doc.pages|;

      var i := fromPage;
      ghost var k := 0;
      while i != toPage
        invariant 0 <= k <= pageCount
        invariant i == if firstPageFirst then k else pageCount - 1 - k
        invariant device.log == log0 + PassEvents(doc, firstPageFirst, k, pageCopies, firstPass)
        invariant NoFailure(PassEvents(doc, firstPageFirst, k, pageCopies, firstPass), doc, device.opensForPainting)
        invariant painter.active <==> pageCount > 0 && (!firstPass || k > 0)
        invariant painter.active ==> device.opensForPainting
        invariant device.Valid()
        decreases pageCount - k
      {
        ok := PrintPassPage(doc, painter, fromPage, i, pageCopies, firstPass, k, log0);
        if !ok {
          return;
        }
        i := if firstPageFirst then i + 1 else i - 1;
        k := k + 1;
      }
      CutAtEnd(PassEvents(doc, firstPageFirst, pageCount, pageCopies, firstPass), doc, device.opensForPainting);
      ok := true;
    }

    /** The pass `printedDocuments` of a job (the body of the pass loop), printed after
        the earlier passes went through without a failure: a fresh sheet unless it is the
        first pass, then the pages. Either the log holds one more pass, or it holds the
        plan of the job cut at its first failure. */
    method PrintDocument(doc: Document, painter: Painter, fromPage: int, toPage: int, pageCopies: int,
                         printedDocuments: int, ghost copies: int, ghost log0: seq<Event>)
      returns (ok: bool)
      requires fromPage == if firstPageFirst then 0 else |doc.pages| - 1
      requires toPage == if firstPageFirst then |doc.pages| else -1
      requires 0 <= printedDocuments < Passes(copies, collateCopies)
      requires pageCopies == CopyFanOut(copies, collateCopies).pageCopies
      requires device.log == log0 + DocumentEvents(doc, firstPageFirst, printedDocuments, pageCopies)
      requires NoFailure(DocumentEvents(doc, firstPageFirst, printedDocuments, pageCopies), doc,
                         device.opensForPainting)
      requires painter.active <==> printedDocuments > 0 && |doc.pages| > 0
      requires painter.active ==> device.opensForPainting
      requires device.Valid()
      modifies device, painter
      ensures device.Valid()
      ensures ok ==>
        && device.log == log0 + DocumentEvents(doc, firstPageFirst, printedDocuments + 1, pageCopies)
        && NoFailure(DocumentEvents(doc, firstPageFirst, printedDocuments + 1, pageCopies), doc,
                     device.opensForPainting)
        && (painter.active <==> |doc.pages| > 0)
      ensures !ok ==>
        var plan := Plan(doc, firstPageFirst, copies, collateCopies);
        var cut := FirstFailure(plan, doc, device.opensForPainting);
        device.log == log0 + plan[..cut] && cut < |plan|
      ensures painter.active ==> device.opensForPainting
      ensures !ok ==> (painter.active <==> device.opensForPainting)
    {
      PassBreak(log0, doc, firstPageFirst, printedDocuments, pageCopies, device.opensForPainting);
      if printedDocuments > 0 {
        device.NewPage();
      }
      ok := PrintPass(doc, painter, fromPage, toPage, pageCopies, printedDocuments == 0);
      DocumentStep(log0, device.log, doc, firstPageFirst, copies, collateCopies, printedDocuments,
                   device.opensForPainting, ok);
    }

    /** The passes of a job (the document loop), after the copies were fanned out: the
        painter is opened by the first page drawn and stays open. Either the log holds all
        the passes, or it holds the plan of the job cut at its first failure. */
    method PrintDocumentCopies(doc: Document, painter: Painter, fromPage: int, toPage: int, pageCopies: int,
                               ghost copies: int)
      returns (ok: bool)
      requires fromPage == if firstPageFirst then 0 else |doc.pages| - 1
      requires toPage == if firstPageFirst then |doc.pages| else -1
      requires pageCopies == CopyFanOut(copies, collateCopies).pageCopies
      requires documentCopies == CopyFanOut(copies, collateCopies).documentPasses
      requires !painter.active && device.Valid()
      modifies device, painter
      ensures device.Valid()
      ensures ok ==>
        var done := DocumentEvents(doc, firstPageFirst, Passes(copies, collateCopies), pageCopies);
        && device.log == old(device.log) + done
        && NoFailure(done, doc, device.opensForPainting)
        && (painter.active <==> Passes(copies, collateCopies) > 0 && |doc.pages| > 0)
      ensures !ok ==>
        var plan := Plan(doc, firstPageFirst, copies, collateCopies);
        var cut := FirstFailure(plan, doc, device.opensForPainting);
        device.log == old(device.log) + plan[..cut] && cut < |plan|
      ensures !ok ==> (painter.active <==> device.opensForPainting)
      ensures ok && Passes(copies, collateCopies) > 0 && |doc.pages| > 0 ==>
        device.CurrentLayout() == PageLayout(doc.pages[PageAt(|doc.pages|, firstPageFirst, |doc.pages| - 1)].size)
    {
      ghost var log0 := device.log;
      ghost var passes := Passes(copies, collateCopies);
      var printedDocuments := 0;
      while printedDocuments < documentCopies
        invariant 0 <= printedDocuments <= passes
        invariant device.log == log0 + DocumentEvents(doc, firstPageFirst, printedDocuments, pageCopies)
        invariant NoFailure(DocumentEvents(doc, firstPageFirst, printedDocuments, pageCopies), doc,
                            device.opensForPainting)
        invariant painter.active <==> printedDocuments > 0 && |doc.pages| > 0
        invariant painter.active ==> device.opensForPainting
        invariant device.Valid()
      {
        ok := PrintDocument(doc, painter, fromPage, toPage, pageCopies, printedDocuments, copies, log0);
        if !ok {
          return;
        }
        printedDocuments := printedDocuments + 1;
      }
      ReplaysLog(device, log0, DocumentEvents(doc, firstPageFirst, passes, pageCopies));
      DocumentsLayout(LayoutAfter(device.start, log0), doc, firstPageFirst, passes, pageCopies);
      ok := true;
    }

    /** Prints `doc`, the document pdfium reads from `data`. An empty `data` fails at
        once without touching the device. Otherwise the device performs the plan of the
        job up to its first failure, then gets its layout back, and the single result
        says whether the whole plan was carried out; a painter still active after a
        failure is released as it goes out of scope. Collating leaves one document copy
        behind in `documentCopies`. */
    method Print(doc: Document)
      requires device.Valid()
      modifies this`documentCopies, this`results, device
      ensures device.Valid() && device.CurrentLayout() == old(device.CurrentLayout())
      ensures |data| == 0 ==>
        device.log == old(device.log) && results == old(results) + [false]
        && documentCopies == old(documentCopies)
      ensures |data| > 0 ==>
        var plan := Plan(doc, firstPageFirst, old(documentCopies), collateCopies);
        var cut := FirstFailure(plan, doc, device.opensForPainting);
        && device.log == old(device.log)
             + JobLog(doc, firstPageFirst, old(documentCopies), collateCopies, device.opensForPainting,
                      old(device.CurrentLayout()))
        && results == old(results) + [cut == |plan|]
        && documentCopies == if collateCopies then 1 else old(documentCopies)
    {
      if |data| == 0 {
        results := results + [false];
        return;
      }

      var saved := device.CurrentLayout();

      var pageCount := |doc.pages|;
      var fromPage := if firstPageFirst then 0 else pageCount - 1;
      var toPage := if firstPageFirst then pageCount else -1;

      var pageCopies := 1;
      if collateCopies {
        pageCopies := documentCopies;
        documentCopies := 1;
      }

      assert pageCopies == CopyFanOut(old(documentCopies), collateCopies).pageCopies;
      assert documentCopies == CopyFanOut(old(documentCopies), collateCopies).documentPasses;

      var painter := new Painter();
      var ok := PrintDocumentCopies(doc, painter, fromPage, toPage, pageCopies, old(documentCopies));
      if !ok {
        Abandon(painter, saved);
      } else {
        Complete(painter, saved);
      }
      JobStep(old(device.log), device.log, doc, firstPageFirst, old(documentCopies), collateCopies, device.opensForPainting, saved, ok);
    }
  }
}
