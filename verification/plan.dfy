/** What a print job does to the device when nothing fails, and where a failure cuts it
    short. The nesting of the definitions follows the three loops of the job: document
    passes, pages in traversal order, copies of one page. */
module PrintPlan {
  import opened Geometry
  import opened PagedDevice

  datatype Option<T> = None | Some(value: T)

  /** One page of the document as pdfium reads it: its size in points, and whether
      rasterising it yields an image. */
  datatype Page = Page(size: SizeF, renders: bool)

  datatype Document = Document(pages: seq<Page>)

  /** Rasterises a page; a null image is `None`. */
  function Render(doc: Document, page: int): (image: Option<Image>)
    requires 0 <= page < |doc.pages|
    ensures image.None? <==> !doc.pages[page].renders
    ensures image.Some? ==> image.value.page == page
  {
    if doc.pages[page].renders then Some(Image(page)) else None
  }

  /** The page a pass visits `k`-th: first to last when `firstPageFirst`, last to first
      otherwise. */
  function PageAt(count: nat, firstPageFirst: bool, k: nat): (page: int)
    requires k < count
    ensures 0 <= page < count
  {
    if firstPageFirst then k else count - 1 - k
  }

  /** How the requested copies are split between repeated document passes and
      consecutive repeats of each page. */
  datatype FanOut = FanOut(documentPasses: int, pageCopies: int)

  /** With `collate` set, one pass in which each page is repeated `copies` times;
      otherwise `copies` passes that draw each page once. */
  function CopyFanOut(copies: int, collate: bool): (f: FanOut)
    ensures f.documentPasses * f.pageCopies == copies
    ensures collate ==> f.documentPasses == 1
    ensures !collate ==> f.pageCopies == 1
  {
    if collate then FanOut(1, copies) else FanOut(copies, 1)
  }

  /** The three settings a page gets before it is drawn. */
  function GeometryEvents(size: SizeF): seq<Event> {
    [SetPageSize(PageSize(size)), SetOrientation(OrientationOf(size)), SetMargins(NoMargins)]
  }

  /** The first `n` copies of one page, each after the first on a new sheet. */
  function CopyEvents(page: int, n: int): seq<Event>
    decreases n
  {
    if n <= 0 then []
    else CopyEvents(page, n - 1) + (if n > 1 then [NewPage] else []) + [Draw(page)]
  }

  /** What happens for a page before its copies: its geometry, the painter opened on the
      very first page of the job, and a new sheet for every page but a pass's first. */
  function PageHead(doc: Document, page: int, opening: bool, firstInPass: bool): seq<Event>
    requires 0 <= page < |doc.pages|
  {
    GeometryEvents(doc.pages[page].size)
      + (if opening then [Begin] else [])
      + (if firstInPass then [] else [NewPage])
  }

  function PageEvents(doc: Document, page: int, opening: bool, firstInPass: bool, pageCopies: int): seq<Event>
    requires 0 <= page < |doc.pages|
  {
    PageHead(doc, page, opening, firstInPass) + CopyEvents(page, pageCopies)
  }

  /** The first `k` pages of a pass; the painter is opened in the first pass only. */
  function PassEvents(doc: Document, firstPageFirst: bool, k: nat, pageCopies: int, firstPass: bool): seq<Event>
    requires k <= |doc.pages|
  {
    if k == 0 then []
    else PassEvents(doc, firstPageFirst, k - 1, pageCopies, firstPass)
         + PageEvents(doc, PageAt(|doc.pages|, firstPageFirst, k - 1), firstPass && k == 1, k == 1, pageCopies)
  }

  /** The first `d` document passes, each after the first starting on a new sheet. */
  function DocumentEvents(doc: Document, firstPageFirst: bool, d: nat, pageCopies: int): seq<Event> {
    if d == 0 then []
    else DocumentEvents(doc, firstPageFirst, d - 1, pageCopies) + (if d > 1 then [NewPage] else [])
         + PassEvents(doc, firstPageFirst, |doc.pages|, pageCopies, d == 1)
  }

  /** Everything before the pages of pass `d`: the earlier passes and, from the second
      pass on, the new sheet that starts it. */
  function PassPrefix(doc: Document, firstPageFirst: bool, d: nat, pageCopies: int): seq<Event> {
    DocumentEvents(doc, firstPageFirst, d, pageCopies) + (if d > 0 then [NewPage] else [])
  }

  /** The passes a job makes: a non-positive count makes none. */
  function Passes(copies: int, collate: bool): nat {
    var f := CopyFanOut(copies, collate);
    if f.documentPasses > 0 then f.documentPasses else 0
  }

  /** Every device event of a job on `doc` in which nothing fails, in order; the painter
      is released at the end when it was ever opened. */
  function Plan(doc: Document, firstPageFirst: bool, copies: int, collate: bool): (plan: seq<Event>)
    ensures Passes(copies, collate) == 0 ==> plan == []
    ensures Passes(copies, collate) > 0 && |doc.pages| > 0 ==> |plan| > 0 && plan[|plan| - 1] == End
  {
    var passes := Passes(copies, collate);
    DocumentEvents(doc, firstPageFirst, passes, CopyFanOut(copies, collate).pageCopies)
      + (if passes > 0 && |doc.pages| > 0 then [End] else [])
  }

  /** The events that fail when attempted: opening a device that refuses a painter, and
      drawing a page that does not rasterise. */
  predicate Fails(e: Event, doc: Document, opens: bool) {
    match e
    case Begin => !opens
    case Draw(p) => 0 <= p < |doc.pages| && !doc.pages[p].renders
    case _ => false
  }

  predicate NoFailure(events: seq<Event>, doc: Document, opens: bool) {
    forall j :: 0 <= j < |events| ==> !Fails(events[j], doc, opens)
  }

  /** The position of the first failing event, or the length when none fails: the
      events before it are exactly what a job performs before it gives up. */
  function FirstFailure(events: seq<Event>, doc: Document, opens: bool): (cut: nat)
    ensures cut <= |events|
  {
    if events == [] || Fails(events[0], doc, opens) then 0
    else 1 + FirstFailure(events[1..], doc, opens)
  }

  /** The first failure is within the events, nothing before it fails, and the event at
      it does. */
  lemma {:induction false} FirstFailureSpec(events: seq<Event>, doc: Document, opens: bool)
    ensures var cut := FirstFailure(events, doc, opens);
      && NoFailure(events[..cut], doc, opens)
      && (cut < |events| ==> Fails(events[cut], doc, opens))
    decreases |events|
  {
    if events != [] && !Fails(events[0], doc, opens) {
      FirstFailureSpec(events[1..], doc, opens);
      var rest := FirstFailure(events[1..], doc, opens);
      assert events[..1 + rest] == [events[0]] + events[1..][..rest];
    }
  }

  // Prefixes of the plan: each partial log of the job extends to the full plan.

  lemma PrefixUnderConcat<T>(x: seq<T>, a: seq<T>, b: seq<T>)
    requires a <= b
    ensures x + a <= x + b
  {
    assert (x + b)[..|x + a|] == x + b[..|a|];
  }

  lemma {:induction false} CopyEventsPrefix(page: int, c: int, n: int)
    requires 0 <= c <= n
    ensures CopyEvents(page, c) <= CopyEvents(page, n)
    decreases n - c
  {
    if c < n {
      CopyEventsPrefix(page, c, n - 1);
    }
  }

  lemma {:induction false} PassEventsPrefix(doc: Document, firstPageFirst: bool, k: nat, n: nat, pageCopies: int,
                                            firstPass: bool)
    requires k <= n <= |doc.pages|
    ensures PassEvents(doc, firstPageFirst, k, pageCopies, firstPass)
            <= PassEvents(doc, firstPageFirst, n, pageCopies, firstPass)
    decreases n - k
  {
    if k < n {
      PassEventsPrefix(doc, firstPageFirst, k, n - 1, pageCopies, firstPass);
    }
  }

  lemma {:induction false} DocumentEventsPrefix(doc: Document, firstPageFirst: bool, d: nat, n: nat, pageCopies: int)
    requires d <= n
    ensures DocumentEvents(doc, firstPageFirst, d, pageCopies) <= DocumentEvents(doc, firstPageFirst, n, pageCopies)
    decreases n - d
  {
    if d < n {
      DocumentEventsPrefix(doc, firstPageFirst, d, n - 1, pageCopies);
      Assoc(DocumentEvents(doc, firstPageFirst, n - 1, pageCopies), if n > 1 then [NewPage] else [],
        PassEvents(doc, firstPageFirst, |doc.pages|, pageCopies, n == 1));
    }
  }

  lemma PrefixTransitive<T>(a: seq<T>, b: seq<T>, c: seq<T>)
    requires a <= b && b <= c
    ensures a <= c
  {
    assert c[..|b|][..|a|] == c[..|a|];
  }

  lemma PassIsPlanned(doc: Document, firstPageFirst: bool, k: nat, pageCopies: int, firstPass: bool,
                      partial: seq<Event>)
    requires k < |doc.pages|
    requires partial <= PageEvents(doc, PageAt(|doc.pages|, firstPageFirst, k), firstPass && k == 0, k == 0, pageCopies)
    ensures PassEvents(doc, firstPageFirst, k, pageCopies, firstPass) + partial
            <= PassEvents(doc, firstPageFirst, |doc.pages|, pageCopies, firstPass)
  {
    var next := PassEvents(doc, firstPageFirst, k + 1, pageCopies, firstPass);
    PrefixUnderConcat(PassEvents(doc, firstPageFirst, k, pageCopies, firstPass), partial,
      PageEvents(doc, PageAt(|doc.pages|, firstPageFirst, k), firstPass && k == 0, k == 0, pageCopies));
    PassEventsPrefix(doc, firstPageFirst, k + 1, |doc.pages|, pageCopies, firstPass);
    PrefixTransitive(PassEvents(doc, firstPageFirst, k, pageCopies, firstPass) + partial, next,
      PassEvents(doc, firstPageFirst, |doc.pages|, pageCopies, firstPass));
  }

  lemma DocumentIsPlanned(doc: Document, firstPageFirst: bool, passes: nat, pageCopies: int, d: nat,
                          partial: seq<Event>)
    requires d < passes
    requires partial <= PassEvents(doc, firstPageFirst, |doc.pages|, pageCopies, d == 0)
    ensures PassPrefix(doc, firstPageFirst, d, pageCopies) + partial
            <= DocumentEvents(doc, firstPageFirst, passes, pageCopies)
  {
    var prefix := PassPrefix(doc, firstPageFirst, d, pageCopies);
    var pass := PassEvents(doc, firstPageFirst, |doc.pages|, pageCopies, d == 0);
    var next := DocumentEvents(doc, firstPageFirst, d + 1, pageCopies);
    Assoc(DocumentEvents(doc, firstPageFirst, d, pageCopies), if d > 0 then [NewPage] else [], pass);
    assert next == prefix + pass;
    PrefixUnderConcat(prefix, partial, pass);
    DocumentEventsPrefix(doc, firstPageFirst, d + 1, passes, pageCopies);
    PrefixTransitive(prefix + partial, next, DocumentEvents(doc, firstPageFirst, passes, pageCopies));
  }

  /** Opening the painter comes right after the geometry of the page it opens on. */
  lemma BeginIsPlanned(doc: Document, p: int, firstInPass: bool, pageCopies: int)
    requires 0 <= p < |doc.pages|
    ensures GeometryEvents(doc.pages[p].size) + [Begin] <= PageEvents(doc, p, true, firstInPass, pageCopies)
  {
    var rest := (if firstInPass then [] else [NewPage]) + CopyEvents(p, pageCopies);
    assert PageEvents(doc, p, true, firstInPass, pageCopies)
        == GeometryEvents(doc.pages[p].size) + [Begin] + rest;
  }

  /** A page about to draw copy `c` has so far done what its copies' events say, and
      the next of them is that draw. */
  lemma CopyIsPlanned(page: int, c: nat, pageCopies: int)
    requires c < pageCopies
    ensures CopyEvents(page, c) + (if c > 0 then [NewPage] else []) + [Draw(page)]
            <= CopyEvents(page, pageCopies)
  {
    CopyEventsPrefix(page, c + 1, pageCopies);
  }

  /** After the `k`-th page of a pass, cut at its first failure, on a log that held the
      pass's earlier pages: either the log holds one more page of the pass, or it holds
      the pass cut at its first failure. */
  lemma PassStep(log0: seq<Event>, log: seq<Event>, doc: Document, firstPageFirst: bool, k: nat, pageCopies: int,
                 firstPass: bool, opens: bool, ok: bool)
    requires k < |doc.pages|
    requires NoFailure(PassEvents(doc, firstPageFirst, k, pageCopies, firstPass), doc, opens)
    requires var page := PageEvents(doc, PageAt(|doc.pages|, firstPageFirst, k), firstPass && k == 0, k == 0, pageCopies);
      var cut := FirstFailure(page, doc, opens);
      log == log0 + PassEvents(doc, firstPageFirst, k, pageCopies, firstPass) + page[..cut]
      && ok == (cut == |page|)
    ensures ok ==>
      log == log0 + PassEvents(doc, firstPageFirst, k + 1, pageCopies, firstPass)
      && NoFailure(PassEvents(doc, firstPageFirst, k + 1, pageCopies, firstPass), doc, opens)
    ensures !ok ==>
      var pass := PassEvents(doc, firstPageFirst, |doc.pages|, pageCopies, firstPass);
      log == log0 + pass[..FirstFailure(pass, doc, opens)] && FirstFailure(pass, doc, opens) < |pass|
  {
    if ok {
      PageDone(log0, doc, firstPageFirst, k, pageCopies, firstPass, opens);
    } else {
      PageFailed(log0, doc, firstPageFirst, k, pageCopies, firstPass, opens);
    }
  }

  /** A page that goes through adds its events to the pass. */
  lemma PageDone(log: seq<Event>, doc: Document, firstPageFirst: bool, k: nat, pageCopies: int, firstPass: bool,
                 opens: bool)
    requires k < |doc.pages|
    requires NoFailure(PassEvents(doc, firstPageFirst, k, pageCopies, firstPass), doc, opens)
    requires var page := PageEvents(doc, PageAt(|doc.pages|, firstPageFirst, k), firstPass && k == 0, k == 0, pageCopies);
      FirstFailure(page, doc, opens) == |page|
    ensures var page := PageEvents(doc, PageAt(|doc.pages|, firstPageFirst, k), firstPass && k == 0, k == 0, pageCopies);
      && log + PassEvents(doc, firstPageFirst, k, pageCopies, firstPass) + page[..|page|]
         == log + PassEvents(doc, firstPageFirst, k + 1, pageCopies, firstPass)
      && NoFailure(PassEvents(doc, firstPageFirst, k + 1, pageCopies, firstPass), doc, opens)
  {
    var done := PassEvents(doc, firstPageFirst, k, pageCopies, firstPass);
    var page := PageEvents(doc, PageAt(|doc.pages|, firstPageFirst, k), firstPass && k == 0, k == 0, pageCopies);
    assert page[..|page|] == page;
    Assoc(log, done, page);
    RanToEnd(page, doc, opens);
    NoFailureConcat(done, page, doc, opens);
  }

  /** A page that fails cuts the pass there. */
  lemma PageFailed(log: seq<Event>, doc: Document, firstPageFirst: bool, k: nat, pageCopies: int, firstPass: bool,
                   opens: bool)
    requires k < |doc.pages|
    requires NoFailure(PassEvents(doc, firstPageFirst, k, pageCopies, firstPass), doc, opens)
    requires var page := PageEvents(doc, PageAt(|doc.pages|, firstPageFirst, k), firstPass && k == 0, k == 0, pageCopies);
      FirstFailure(page, doc, opens) < |page|
    ensures var page := PageEvents(doc, PageAt(|doc.pages|, firstPageFirst, k), firstPass && k == 0, k == 0, pageCopies);
      var pass := PassEvents(doc, firstPageFirst, |doc.pages|, pageCopies, firstPass);
      && log + PassEvents(doc, firstPageFirst, k, pageCopies, firstPass) + page[..FirstFailure(page, doc, opens)]
         == log + pass[..FirstFailure(pass, doc, opens)]
      && FirstFailure(pass, doc, opens) < |pass|
  {
    var done := PassEvents(doc, firstPageFirst, k, pageCopies, firstPass);
    var page := PageEvents(doc, PageAt(|doc.pages|, firstPageFirst, k), firstPass && k == 0, k == 0, pageCopies);
    var cut := FirstFailure(page, doc, opens);
    PageFailsInPass(doc, firstPageFirst, k, pageCopies, firstPass, cut, opens);
    Assoc(log, done, page[..cut]);
  }

  /** A page of a pass that fails stops the whole pass at that page's first failure. */
  lemma PageFailsInPass(doc: Document, firstPageFirst: bool, k: nat, pageCopies: int, firstPass: bool, cut: nat,
                        opens: bool)
    requires k < |doc.pages|
    requires NoFailure(PassEvents(doc, firstPageFirst, k, pageCopies, firstPass), doc, opens)
    requires var page := PageEvents(doc, PageAt(|doc.pages|, firstPageFirst, k), firstPass && k == 0, k == 0, pageCopies);
      cut == FirstFailure(page, doc, opens) && cut < |page|
    ensures var pass := PassEvents(doc, firstPageFirst, |doc.pages|, pageCopies, firstPass);
      var done := PassEvents(doc, firstPageFirst, k, pageCopies, firstPass);
      var page := PageEvents(doc, PageAt(|doc.pages|, firstPageFirst, k), firstPass && k == 0, k == 0, pageCopies);
      FirstFailure(pass, doc, opens) == |done| + cut < |pass| && pass[..|done| + cut] == done + page[..cut]
  {
    var page := PageEvents(doc, PageAt(|doc.pages|, firstPageFirst, k), firstPass && k == 0, k == 0, pageCopies);
    PassIsPlanned(doc, firstPageFirst, k, pageCopies, firstPass, page);
    FirstFailureSpec(page, doc, opens);
    CutWithin(PassEvents(doc, firstPageFirst, |doc.pages|, pageCopies, firstPass),
      PassEvents(doc, firstPageFirst, k, pageCopies, firstPass), page, cut, doc, opens);
  }

  /** A pass of the job that fails stops the whole job at that pass's first failure. */
  lemma PassFailsInPlan(doc: Document, firstPageFirst: bool, copies: int, collate: bool, d: nat, cut: nat,
                        opens: bool)
    requires d < Passes(copies, collate)
    requires var pageCopies := CopyFanOut(copies, collate).pageCopies;
      var pass := PassEvents(doc, firstPageFirst, |doc.pages|, pageCopies, d == 0);
      NoFailure(PassPrefix(doc, firstPageFirst, d, pageCopies), doc, opens)
      && cut == FirstFailure(pass, doc, opens) && cut < |pass|
    ensures var pageCopies := CopyFanOut(copies, collate).pageCopies;
      var pass := PassEvents(doc, firstPageFirst, |doc.pages|, pageCopies, d == 0);
      var done := PassPrefix(doc, firstPageFirst, d, pageCopies);
      var plan := Plan(doc, firstPageFirst, copies, collate);
      FirstFailure(plan, doc, opens) == |done| + cut < |plan| && plan[..|done| + cut] == done + pass[..cut]
  {
    var pageCopies := CopyFanOut(copies, collate).pageCopies;
    var passes := Passes(copies, collate);
    var pass := PassEvents(doc, firstPageFirst, |doc.pages|, pageCopies, d == 0);
    var done := PassPrefix(doc, firstPageFirst, d, pageCopies);
    DocumentIsPlanned(doc, firstPageFirst, passes, pageCopies, d, pass);
    FirstFailureSpec(pass, doc, opens);
    PrefixTransitive(done + pass, DocumentEvents(doc, firstPageFirst, passes, pageCopies),
      Plan(doc, firstPageFirst, copies, collate));
    CutWithin(Plan(doc, firstPageFirst, copies, collate), done, pass, cut, doc, opens);
  }

  /** After the break and the pages of pass `d`, cut at their first failure: either the
      log holds one more pass, or it holds the job cut at its first failure. */
  lemma DocumentStep(log0: seq<Event>, log: seq<Event>, doc: Document, firstPageFirst: bool, copies: int,
                     collate: bool, d: nat, opens: bool, ok: bool)
    requires d < Passes(copies, collate)
    requires NoFailure(PassPrefix(doc, firstPageFirst, d, CopyFanOut(copies, collate).pageCopies), doc, opens)
    requires var pass := PassEvents(doc, firstPageFirst, |doc.pages|, CopyFanOut(copies, collate).pageCopies, d == 0);
      var cut := FirstFailure(pass, doc, opens);
      log == log0 + PassPrefix(doc, firstPageFirst, d, CopyFanOut(copies, collate).pageCopies) + pass[..cut]
      && ok == (cut == |pass|)
    ensures ok ==>
      var done := DocumentEvents(doc, firstPageFirst, d + 1, CopyFanOut(copies, collate).pageCopies);
      log == log0 + done && NoFailure(done, doc, opens)
    ensures !ok ==>
      var plan := Plan(doc, firstPageFirst, copies, collate);
      log == log0 + plan[..FirstFailure(plan, doc, opens)] && FirstFailure(plan, doc, opens) < |plan|
  {
    if ok {
      PassDone(log0, doc, firstPageFirst, d, CopyFanOut(copies, collate).pageCopies, opens);
    } else {
      PassFailed(log0, doc, firstPageFirst, copies, collate, d, opens);
    }
  }

  /** The break that starts every pass but the first belongs to the plan and does not fail. */
  lemma PassBreak(log: seq<Event>, doc: Document, firstPageFirst: bool, d: nat, pageCopies: int, opens: bool)
    requires NoFailure(DocumentEvents(doc, firstPageFirst, d, pageCopies), doc, opens)
    ensures log + DocumentEvents(doc, firstPageFirst, d, pageCopies) + (if d > 0 then [NewPage] else [])
            == log + PassPrefix(doc, firstPageFirst, d, pageCopies)
    ensures NoFailure(PassPrefix(doc, firstPageFirst, d, pageCopies), doc, opens)
  {
    var done := DocumentEvents(doc, firstPageFirst, d, pageCopies);
    var sep: seq<Event> := if d > 0 then [NewPage] else [];
    Assoc(log, done, sep);
    NoFailureConcat(done, sep, doc, opens);
  }

  /** A pass that goes through adds its events to the job. */
  lemma PassDone(log: seq<Event>, doc: Document, firstPageFirst: bool, d: nat, pageCopies: int, opens: bool)
    requires NoFailure(PassPrefix(doc, firstPageFirst, d, pageCopies), doc, opens)
    requires var pass := PassEvents(doc, firstPageFirst, |doc.pages|, pageCopies, d == 0);
      FirstFailure(pass, doc, opens) == |pass|
    ensures var pass := PassEvents(doc, firstPageFirst, |doc.pages|, pageCopies, d == 0);
      && log + PassPrefix(doc, firstPageFirst, d, pageCopies) + pass[..|pass|]
         == log + DocumentEvents(doc, firstPageFirst, d + 1, pageCopies)
      && NoFailure(DocumentEvents(doc, firstPageFirst, d + 1, pageCopies), doc, opens)
  {
    var prefix := PassPrefix(doc, firstPageFirst, d, pageCopies);
    var pass := PassEvents(doc, firstPageFirst, |doc.pages|, pageCopies, d == 0);
    assert pass[..|pass|] == pass;
    Assoc(log, prefix, pass);
    RanToEnd(pass, doc, opens);
    NoFailureConcat(prefix, pass, doc, opens);
  }

  /** A pass that fails cuts the job there. */
  lemma PassFailed(log: seq<Event>, doc: Document, firstPageFirst: bool, copies: int, collate: bool, d: nat,
                   opens: bool)
    requires d < Passes(copies, collate)
    requires var pageCopies := CopyFanOut(copies, collate).pageCopies;
      var pass := PassEvents(doc, firstPageFirst, |doc.pages|, pageCopies, d == 0);
      NoFailure(PassPrefix(doc, firstPageFirst, d, pageCopies), doc, opens) && FirstFailure(pass, doc, opens) < |pass|
    ensures var pageCopies := CopyFanOut(copies, collate).pageCopies;
      var pass := PassEvents(doc, firstPageFirst, |doc.pages|, pageCopies, d == 0);
      var plan := Plan(doc, firstPageFirst, copies, collate);
      && log + PassPrefix(doc, firstPageFirst, d, pageCopies) + pass[..FirstFailure(pass, doc, opens)]
         == log + plan[..FirstFailure(plan, doc, opens)]
      && FirstFailure(plan, doc, opens) < |plan|
  {
    var pageCopies := CopyFanOut(copies, collate).pageCopies;
    var prefix := PassPrefix(doc, firstPageFirst, d, pageCopies);
    var pass := PassEvents(doc, firstPageFirst, |doc.pages|, pageCopies, d == 0);
    var cut := FirstFailure(pass, doc, opens);
    PassFailsInPlan(doc, firstPageFirst, copies, collate, d, cut, opens);
    Assoc(log, prefix, pass[..cut]);
  }

  /** A job whose passes all went through ends with the painter released when it was
      opened, and then the whole plan was carried out. */
  lemma JobEnd(log: seq<Event>, doc: Document, firstPageFirst: bool, copies: int, collate: bool, d: int,
               pageCopies: int, painted: bool, opens: bool)
    requires d == Passes(copies, collate) && pageCopies == CopyFanOut(copies, collate).pageCopies
    requires painted <==> d > 0 && |doc.pages| > 0
    requires NoFailure(DocumentEvents(doc, firstPageFirst, d, pageCopies), doc, opens)
    ensures var plan := Plan(doc, firstPageFirst, copies, collate);
      var cut := FirstFailure(plan, doc, opens);
      log + DocumentEvents(doc, firstPageFirst, d, pageCopies) + (if painted then [End] else []) == log + plan[..cut]
      && cut == |plan|
  {
    var done := DocumentEvents(doc, firstPageFirst, d, pageCopies);
    var end: seq<Event> := if painted then [End] else [];
    var plan := Plan(doc, firstPageFirst, copies, collate);
    Assoc(log, done, end);
    NoFailureConcat(done, end, doc, opens);
    CutAtEnd(done + end, doc, opens);
    assert plan[..|plan|] == plan;
  }

  /** Events that do not fail shift the first failure of what follows them. */
  lemma {:induction false} FirstFailureAfter(done: seq<Event>, part: seq<Event>, doc: Document, opens: bool)
    requires NoFailure(done, doc, opens)
    ensures var cut := FirstFailure(part, doc, opens);
      FirstFailure(done + part, doc, opens) == |done| + cut && (done + part)[..|done| + cut] == done + part[..cut]
    decreases |done|
  {
    var cut := FirstFailure(part, doc, opens);
    if done == [] {
      assert done + part == part;
    } else {
      NoFailureTail(done, doc, opens);
      assert (done + part)[0] == done[0];
      assert (done + part)[1..] == done[1..] + part;
      FirstFailureAfter(done[1..], part, doc, opens);
      assert (done + part)[..|done| + cut] == [done[0]] + (done[1..] + part)[..|done| - 1 + cut];
    }
  }

  lemma NoFailureTail(events: seq<Event>, doc: Document, opens: bool)
    requires events != [] && NoFailure(events, doc, opens)
    ensures !Fails(events[0], doc, opens) && NoFailure(events[1..], doc, opens)
  {
    forall j | 0 <= j < |events[1..]|
      ensures !Fails(events[1..][j], doc, opens)
    {
      assert events[1..][j] == events[j + 1];
    }
  }

  /** Where the events of a page first fail: at the opening of the painter if the device
      refuses it, otherwise at the first copy that does not render, if any. */
  lemma PageCut(doc: Document, page: int, opening: bool, firstInPass: bool, pageCopies: int, opens: bool)
    requires 0 <= page < |doc.pages|
    ensures var events := PageEvents(doc, page, opening, firstInPass, pageCopies);
      var head := PageHead(doc, page, opening, firstInPass);
      var copies := CopyEvents(page, pageCopies);
      var cut := FirstFailure(copies, doc, opens);
      && (opening && !opens ==>
            FirstFailure(events, doc, opens) == 3
            && events[..3] == GeometryEvents(doc.pages[page].size))
      && (!(opening && !opens) ==>
            FirstFailure(events, doc, opens) == |head| + cut
            && events[..|head| + cut] == head + copies[..cut])
  {
    var events := PageEvents(doc, page, opening, firstInPass, pageCopies);
    var geometry := GeometryEvents(doc.pages[page].size);
    if opening && !opens {
      BeginIsPlanned(doc, page, firstInPass, pageCopies);
      CutAt(events, geometry, Begin, doc, opens);
    } else {
      var head := PageHead(doc, page, opening, firstInPass);
      assert NoFailure(head, doc, opens);
      FirstFailureAfter(head, CopyEvents(page, pageCopies), doc, opens);
    }
  }
  /** A page's events as far as the device got with them: either the painter could not
      be opened after the geometry was set, or the head went through and the copies ran
      to their first failure. Either way that is the page cut at its first failure. */
  lemma PageStep(log0: seq<Event>, log: seq<Event>, doc: Document, page: int, opening: bool, firstInPass: bool,
                 pageCopies: int, opens: bool, ok: bool)
    requires 0 <= page < |doc.pages|
    requires opening && !opens ==> log == log0 + GeometryEvents(doc.pages[page].size) && !ok
    requires !(opening && !opens) ==>
      var copies := CopyEvents(page, pageCopies);
      var cut := FirstFailure(copies, doc, opens);
      log == log0 + PageHead(doc, page, opening, firstInPass) + copies[..cut] && ok == (cut == |copies|)
    ensures var events := PageEvents(doc, page, opening, firstInPass, pageCopies);
      var cut := FirstFailure(events, doc, opens);
      log == log0 + events[..cut] && ok == (cut == |events|)
  {
    var events := PageEvents(doc, page, opening, firstInPass, pageCopies);
    PageCut(doc, page, opening, firstInPass, pageCopies, opens);
    if !(opening && !opens) {
      var head := PageHead(doc, page, opening, firstInPass);
      var copies := CopyEvents(page, pageCopies);
      Assoc(log0, head, copies[..FirstFailure(copies, doc, opens)]);
    }
  }


  lemma NoFailureConcat(a: seq<Event>, b: seq<Event>, doc: Document, opens: bool)
    requires NoFailure(a, doc, opens) && NoFailure(b, doc, opens)
    ensures NoFailure(a + b, doc, opens)
  {
    forall j | 0 <= j < |a + b|
      ensures !Fails((a + b)[j], doc, opens)
    {
      if j >= |a| {
        assert (a + b)[j] == b[j - |a|];
      }
    }
  }

  /** A run whose log so far has not failed and whose next planned event fails stops
      exactly at the plan's first failure. */
  lemma CutAt(plan: seq<Event>, done: seq<Event>, e: Event, doc: Document, opens: bool)
    requires done + [e] <= plan
    requires NoFailure(done, doc, opens) && Fails(e, doc, opens)
    ensures FirstFailure(plan, doc, opens) == |done| < |plan| && plan[..|done|] == done
  {
    var rest := plan[|done|..];
    assert plan == done + rest && rest[0] == e;
    FirstFailureAfter(done, rest, doc, opens);
  }

  /** A plan in which nothing fails is carried out to its end. */
  lemma CutAtEnd(plan: seq<Event>, doc: Document, opens: bool)
    requires NoFailure(plan, doc, opens)
    ensures FirstFailure(plan, doc, opens) == |plan| && plan[..FirstFailure(plan, doc, opens)] == plan
  {
    assert plan[..|plan|] == plan;
  }

  /** A plan carried out to its end had nothing in it that failed. */
  lemma RanToEnd(plan: seq<Event>, doc: Document, opens: bool)
    requires FirstFailure(plan, doc, opens) == |plan|
    ensures NoFailure(plan, doc, opens)
  {
    FirstFailureSpec(plan, doc, opens);
    assert plan[..|plan|] == plan;
  }

  /** A run that carried out `done` without a failure and then a part of the plan up to
      the part's first failure, at `cut`, has stopped at the plan's first failure. */
  lemma CutWithin(plan: seq<Event>, done: seq<Event>, part: seq<Event>, cut: nat, doc: Document, opens: bool)
    requires done + part <= plan && NoFailure(done, doc, opens)
    requires cut < |part| && NoFailure(part[..cut], doc, opens) && Fails(part[cut], doc, opens)
    ensures FirstFailure(plan, doc, opens) == |done| + cut < |plan| && plan[..|done| + cut] == done + part[..cut]
  {
    NoFailureConcat(done, part[..cut], doc, opens);
    PrefixStep(done, part, cut, plan);
    CutAt(plan, done + part[..cut], part[cut], doc, opens);
  }

  lemma PrefixStep<T>(x: seq<T>, p: seq<T>, i: nat, whole: seq<T>)
    requires i < |p| && x + p <= whole
    ensures x + p[..i] + [p[i]] <= whole && |x + p[..i]| == |x| + i
  {
    assert x + p[..i] + [p[i]] == (x + p)[..|x| + i + 1];
    PrefixTransitive(x + p[..i] + [p[i]], x + p, whole);
  }

  lemma GeometryAppended(log: seq<Event>, size: SizeF)
    ensures log + [SetPageSize(PageSize(size))] + [SetOrientation(OrientationOf(size))] + [SetMargins(NoMargins)]
            == log + GeometryEvents(size)
  {
  }

  lemma HeadAppended(log: seq<Event>, doc: Document, page: int, opening: bool, firstInPass: bool)
    requires 0 <= page < |doc.pages|
    ensures log + GeometryEvents(doc.pages[page].size) + (if opening then [Begin] else [])
              + (if firstInPass then [] else [NewPage])
            == log + PageHead(doc, page, opening, firstInPass)
  {
  }

  lemma Assoc<T>(a: seq<T>, b: seq<T>, c: seq<T>)
    ensures a + b + c == a + (b + c)
  {
  }
}
