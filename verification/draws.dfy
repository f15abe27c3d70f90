/** What a print job that does not fail puts on paper: which pages are drawn, in which
    order, how often, and where the sheet breaks fall between them. */
module DrawOrder {
  import opened Geometry
  import opened PagedDevice
  import opened PrintPlan

  // Projections of an event log.

  /** The pages drawn, in order. */
  function Draws(events: seq<Event>): (pages: seq<int>)
    ensures |pages| <= |events|
    decreases |events|
  {
    if events == [] then []
    else Draws(events[..|events| - 1]) + (if events[|events| - 1].Draw? then [events[|events| - 1].page] else [])
  }

  /** The draws and sheet breaks, in order, without the layout writes and the painter's
      begin and end. */
  function Sheets(events: seq<Event>): (sheets: seq<Event>)
    ensures forall j :: 0 <= j < |sheets| ==> sheets[j].Draw? || sheets[j] == NewPage
    decreases |events|
  {
    if events == [] then []
    else
      var e := events[|events| - 1];
      Sheets(events[..|events| - 1]) + (if e.Draw? || e == NewPage then [e] else [])
  }

  /** How often `e` occurs. */
  function Count(events: seq<Event>, e: Event): nat
    decreases |events|
  {
    if events == [] then 0
    else Count(events[..|events| - 1], e) + (if events[|events| - 1] == e then 1 else 0)
  }

  lemma {:induction false} DrawsConcat(a: seq<Event>, b: seq<Event>)
    ensures Draws(a + b) == Draws(a) + Draws(b)
    decreases |b|
  {
    if b == [] {
      assert a + b == a;
    } else {
      assert (a + b)[..|a + b| - 1] == a + b[..|b| - 1];
      DrawsConcat(a, b[..|b| - 1]);
    }
  }

  lemma {:induction false} SheetsConcat(a: seq<Event>, b: seq<Event>)
    ensures Sheets(a + b) == Sheets(a) + Sheets(b)
    decreases |b|
  {
    if b == [] {
      assert a + b == a;
    } else {
      assert (a + b)[..|a + b| - 1] == a + b[..|b| - 1];
      SheetsConcat(a, b[..|b| - 1]);
    }
  }

  lemma {:induction false} CountConcat(a: seq<Event>, b: seq<Event>, e: Event)
    ensures Count(a + b, e) == Count(a, e) + Count(b, e)
    decreases |b|
  {
    if b == [] {
      assert a + b == a;
    } else {
      assert (a + b)[..|a + b| - 1] == a + b[..|b| - 1];
      CountConcat(a, b[..|b| - 1], e);
    }
  }

  /** Dropping the layout writes and the painter's events keeps the draws and the breaks. */
  lemma {:induction false} SheetsKeepDraws(events: seq<Event>)
    ensures Draws(Sheets(events)) == Draws(events)
    ensures Count(Sheets(events), NewPage) == Count(events, NewPage)
    decreases |events|
  {
    if events != [] {
      var init := events[..|events| - 1];
      var e := events[|events| - 1];
      var kept: seq<Event> := if e.Draw? || e == NewPage then [e] else [];
      SheetsKeepDraws(init);
      DrawsConcat(Sheets(init), kept);
      CountConcat(Sheets(init), kept, NewPage);
      assert kept == [] || kept[..0] == [];
    }
  }

  // The page sequences a job draws.

  function Repeat<T>(x: T, n: int): (r: seq<T>)
    ensures |r| == if n > 0 then n else 0
    ensures forall j :: 0 <= j < |r| ==> r[j] == x
    decreases n
  {
    if n <= 0 then [] else Repeat(x, n - 1) + [x]
  }

  /** Each page of `order` repeated `n` times in place: 0,0,1,1,... */
  function Stutter(order: seq<int>, n: int): seq<int>
    decreases |order|
  {
    if order == [] then [] else Stutter(order[..|order| - 1], n) + Repeat(order[|order| - 1], n)
  }

  /** `pages` over again `d` times: 0,1,...,0,1,... */
  function Cycle(pages: seq<int>, d: nat): seq<int> {
    if d == 0 then [] else Cycle(pages, d - 1) + pages
  }

  /** The first `n` pages a pass over `count` pages visits, in order. */
  function Visited(count: nat, firstPageFirst: bool, n: nat): (order: seq<int>)
    requires n <= count
    ensures |order| == n
  {
    if n == 0 then [] else Visited(count, firstPageFirst, n - 1) + [PageAt(count, firstPageFirst, n - 1)]
  }

  /** The pages in the order a pass visits them. */
  function Traversal(count: nat, firstPageFirst: bool): (order: seq<int>)
    ensures |order| == count
  {
    Visited(count, firstPageFirst, count)
  }

  /** The pages drawn by a job in which nothing fails: with collation each page of the
      traversal `copies` times in a row, otherwise the whole traversal `copies` times. */
  function Expected(count: nat, firstPageFirst: bool, copies: int, collate: bool): seq<int> {
    if collate then Stutter(Traversal(count, firstPageFirst), copies)
    else Cycle(Traversal(count, firstPageFirst), if copies > 0 then copies else 0)
  }

  // The traversal.

  /** The `k`-th page visited is the one `PageAt` names. */
  lemma {:induction false} VisitedAt(count: nat, firstPageFirst: bool, n: nat)
    requires n <= count
    ensures forall k :: 0 <= k < n ==> Visited(count, firstPageFirst, n)[k] == PageAt(count, firstPageFirst, k)
  {
    if n > 0 {
      VisitedAt(count, firstPageFirst, n - 1);
    }
  }

  /** Forward traversal visits 0, 1, ..., count - 1; backward traversal the reverse. */
  lemma TraversalOrder(count: nat, firstPageFirst: bool)
    ensures var order := Traversal(count, firstPageFirst);
      && (firstPageFirst ==> forall k :: 0 <= k < count ==> order[k] == k)
      && (!firstPageFirst ==> forall k :: 0 <= k < count ==> order[k] == count - 1 - k)
  {
    VisitedAt(count, firstPageFirst, count);
  }

  /** Every page of the document is visited, exactly once, and nothing else is. */
  lemma TraversalVisitsEachPageOnce(count: nat, firstPageFirst: bool)
    ensures var order := Traversal(count, firstPageFirst);
      && (forall k :: 0 <= k < count ==> 0 <= order[k] < count)
      && (forall p :: 0 <= p < count ==> p in order)
      && (forall j, k :: 0 <= j < k < count ==> order[j] != order[k])
  {
    var order := Traversal(count, firstPageFirst);
    VisitedAt(count, firstPageFirst, count);
    forall p | 0 <= p < count
      ensures p in order
    {
      assert order[PageAt(count, firstPageFirst, p)] == p;
    }
  }

  // Draws at each level of the plan.

  lemma {:induction false} DrawsOfCopies(page: int, n: int)
    ensures Draws(CopyEvents(page, n)) == Repeat(page, n)
    decreases n
  {
    if n > 0 {
      DrawsOfCopies(page, n - 1);
      DrawsAcross(CopyEvents(page, n - 1), if n > 1 then [NewPage] else [], [Draw(page)]);
      DrawsOne(page);
    }
  }

  lemma DrawsOne(page: int)
    ensures Draws([Draw(page)]) == [page]
  {
    assert [Draw(page)][..0] == [];
  }

  /** Layout writes and the painter's events are neither draws nor sheet breaks. */
  lemma {:induction false} NoSheets(events: seq<Event>)
    requires forall j :: 0 <= j < |events| ==> !events[j].Draw? && events[j] != NewPage
    ensures Draws(events) == [] && Sheets(events) == []
    decreases |events|
  {
    if events != [] {
      NoSheets(events[..|events| - 1]);
    }
  }

  lemma DrawsOfHead(doc: Document, page: int, opening: bool, firstInPass: bool)
    requires 0 <= page < |doc.pages|
    ensures Draws(PageHead(doc, page, opening, firstInPass)) == []
    ensures Sheets(PageHead(doc, page, opening, firstInPass)) == if firstInPass then [] else [NewPage]
  {
    var setup := GeometryEvents(doc.pages[page].size) + (if opening then [Begin] else []);
    var sep: seq<Event> := if firstInPass then [] else [NewPage];
    NoSheets(setup);
    assert sep == [] || sep[..0] == [];
    DrawsConcat(setup, sep);
    SheetsConcat(setup, sep);
  }

  lemma DrawsOfPage(doc: Document, page: int, opening: bool, firstInPass: bool, pageCopies: int)
    requires 0 <= page < |doc.pages|
    ensures Draws(PageEvents(doc, page, opening, firstInPass, pageCopies)) == Repeat(page, pageCopies)
  {
    DrawsOfHead(doc, page, opening, firstInPass);
    DrawsOfCopies(page, pageCopies);
    DrawsConcat(PageHead(doc, page, opening, firstInPass), CopyEvents(page, pageCopies));
  }

  /** The first `k` pages of a pass draw the first `k` pages of the traversal, each
      `pageCopies` times in a row. */
  lemma {:induction false} DrawsOfPass(doc: Document, firstPageFirst: bool, k: nat, pageCopies: int, firstPass: bool)
    requires k <= |doc.pages|
    ensures Draws(PassEvents(doc, firstPageFirst, k, pageCopies, firstPass))
            == Stutter(Visited(|doc.pages|, firstPageFirst, k), pageCopies)
  {
    if k > 0 {
      var page := PageAt(|doc.pages|, firstPageFirst, k - 1);
      DrawsOfPass(doc, firstPageFirst, k - 1, pageCopies, firstPass);
      DrawsOfPage(doc, page, firstPass && k == 1, k == 1, pageCopies);
      DrawsConcat(PassEvents(doc, firstPageFirst, k - 1, pageCopies, firstPass),
        PageEvents(doc, page, firstPass && k == 1, k == 1, pageCopies));
      StutterSnoc(Visited(|doc.pages|, firstPageFirst, k - 1), page, pageCopies);
    }
  }

  /** Stuttering one more page adds that page's copies at the end. */
  lemma StutterSnoc(order: seq<int>, x: int, n: int)
    ensures Stutter(order + [x], n) == Stutter(order, n) + Repeat(x, n)
  {
    assert (order + [x])[..|order|] == order;
  }

  /** A whole pass draws the whole traversal, each page `pageCopies` times in a row. */
  lemma DrawsOfFullPass(doc: Document, firstPageFirst: bool, pageCopies: int, firstPass: bool)
    ensures Draws(PassEvents(doc, firstPageFirst, |doc.pages|, pageCopies, firstPass))
            == Stutter(Traversal(|doc.pages|, firstPageFirst), pageCopies)
  {
    DrawsOfPass(doc, firstPageFirst, |doc.pages|, pageCopies, firstPass);
  }

  /** A sheet break between two runs of events draws nothing. */
  lemma DrawsAcross(a: seq<Event>, sep: seq<Event>, b: seq<Event>)
    requires sep == [] || sep == [NewPage]
    ensures Draws(a + sep + b) == Draws(a) + Draws(b)
  {
    if sep == [] {
      assert a + sep == a;
      DrawsConcat(a, b);
    } else {
      DrawsConcat(a + sep, b);
      DrawsConcat(a, sep);
      assert Draws(sep) == [] by {
        assert sep[..0] == [];
      }
      assert Draws(a) + Draws(sep) == Draws(a);
    }
  }

  lemma {:induction false} DrawsOfDocuments(doc: Document, firstPageFirst: bool, d: nat, pageCopies: int)
    ensures Draws(DocumentEvents(doc, firstPageFirst, d, pageCopies))
            == Cycle(Stutter(Traversal(|doc.pages|, firstPageFirst), pageCopies), d)
  {
    var pass := Stutter(Traversal(|doc.pages|, firstPageFirst), pageCopies);
    DrawsOfFullPass(doc, firstPageFirst, pageCopies, true);
    DrawsOfFullPass(doc, firstPageFirst, pageCopies, false);
    DrawsOfPasses(doc, firstPageFirst, d, pageCopies, pass);
  }

  /** `d` passes that each draw `pass` draw it `d` times over. */
  lemma {:induction false} DrawsOfPasses(doc: Document, firstPageFirst: bool, d: nat, pageCopies: int, pass: seq<int>)
    requires Draws(PassEvents(doc, firstPageFirst, |doc.pages|, pageCopies, true)) == pass
    requires Draws(PassEvents(doc, firstPageFirst, |doc.pages|, pageCopies, false)) == pass
    ensures Draws(DocumentEvents(doc, firstPageFirst, d, pageCopies)) == Cycle(pass, d)
  {
    if d > 0 {
      DrawsOfPasses(doc, firstPageFirst, d - 1, pageCopies, pass);
      DrawsAcross(DocumentEvents(doc, firstPageFirst, d - 1, pageCopies), if d > 1 then [NewPage] else [],
        PassEvents(doc, firstPageFirst, |doc.pages|, pageCopies, d == 1));
    }
  }


  lemma {:induction false} StutterOnce(order: seq<int>)
    ensures Stutter(order, 1) == order
    decreases |order|
  {
    if order != [] {
      StutterOnce(order[..|order| - 1]);
      assert Repeat(order[|order| - 1], 1) == [order[|order| - 1]];
    }
  }

  /** A job in which nothing fails draws exactly the expected pages: with collation each
      page `copies` times in a row (one pass), otherwise the whole traversal `copies`
      times over (one pass per copy). */
  lemma PlanDraws(doc: Document, firstPageFirst: bool, copies: int, collate: bool)
    ensures Draws(Plan(doc, firstPageFirst, copies, collate)) == Expected(|doc.pages|, firstPageFirst, copies, collate)
  {
    var passes := Passes(copies, collate);
    var pageCopies := CopyFanOut(copies, collate).pageCopies;
    var end: seq<Event> := if passes > 0 && |doc.pages| > 0 then [End] else [];
    DrawsOfDocuments(doc, firstPageFirst, passes, pageCopies);
    DrawsConcat(DocumentEvents(doc, firstPageFirst, passes, pageCopies), end);
    assert end == [] || end[..0] == [];
    var order := Traversal(|doc.pages|, firstPageFirst);
    if collate {
      assert Cycle(Stutter(order, pageCopies), 1) == Stutter(order, pageCopies);
    } else {
      StutterOnce(order);
    }
  }

  lemma {:induction false} StutterLength(order: seq<int>, n: int)
    ensures |Stutter(order, n)| == |order| * (if n > 0 then n else 0)
    decreases |order|
  {
    if order != [] {
      var m := if n > 0 then n else 0;
      StutterLength(order[..|order| - 1], n);
      assert |order| * m == (|order| - 1) * m + m;
    }
  }

  lemma {:induction false} CycleLength(pages: seq<int>, d: nat)
    ensures |Cycle(pages, d)| == d * |pages|
  {
    if d > 0 {
      CycleLength(pages, d - 1);
      assert d * |pages| == (d - 1) * |pages| + |pages|;
    }
  }

  /** A job in which nothing fails draws `copies` images of each page, so copies times
      the page count in all; a non-positive copy count draws nothing. */
  lemma PlanDrawCount(doc: Document, firstPageFirst: bool, copies: int, collate: bool)
    ensures |Draws(Plan(doc, firstPageFirst, copies, collate))| == (if copies > 0 then copies else 0) * |doc.pages|
  {
    var m := if copies > 0 then copies else 0;
    var order := Traversal(|doc.pages|, firstPageFirst);
    var drawn := Draws(Plan(doc, firstPageFirst, copies, collate));
    PlanDraws(doc, firstPageFirst, copies, collate);
    if collate {
      assert drawn == Stutter(order, copies);
      StutterLength(order, copies);
      assert |drawn| == |order| * m;
    } else {
      assert drawn == Cycle(order, m);
      CycleLength(order, m);
    }
  }

  lemma MulSucc(c: int, m: int)
    ensures (c + 1) * m == c * m + m
  {
  }

  /** Every page of the document is drawn `copies` times. */
  lemma {:induction false} StutterCounts(order: seq<int>, n: int, p: int)
    ensures multiset(Stutter(order, n))[p] == multiset(order)[p] * (if n > 0 then n else 0)
    decreases |order|
  {
    if order != [] {
      var init := order[..|order| - 1];
      var last := order[|order| - 1];
      var m := if n > 0 then n else 0;
      StutterCounts(init, n, p);
      assert order == init + [last];
      RepeatCounts(last, n, p);
      assert multiset(Stutter(order, n)) == multiset(Stutter(init, n)) + multiset(Repeat(last, n));
      var c := multiset(init)[p];
      if last == p {
        assert multiset(order)[p] == c + 1;
        MulSucc(c, m);
      } else {
        assert multiset(order)[p] == c;
      }
    }
  }

  lemma {:induction false} RepeatCounts(x: int, n: int, p: int)
    ensures multiset(Repeat(x, n))[p] == if x == p && n > 0 then n else 0
    decreases n
  {
    if n > 0 {
      RepeatCounts(x, n - 1, p);
    }
  }

  lemma {:induction false} CycleCounts(pages: seq<int>, d: nat, p: int)
    ensures multiset(Cycle(pages, d))[p] == d * multiset(pages)[p]
  {
    if d > 0 {
      var c := multiset(pages)[p];
      CycleCounts(pages, d - 1, p);
      assert multiset(Cycle(pages, d)) == multiset(Cycle(pages, d - 1)) + multiset(pages);
      assert d * c == (d - 1) * c + c;
    }
  }

  lemma PlanDrawsEachPage(doc: Document, firstPageFirst: bool, copies: int, collate: bool, p: int)
    requires 0 <= p < |doc.pages|
    ensures multiset(Draws(Plan(doc, firstPageFirst, copies, collate)))[p] == if copies > 0 then copies else 0
  {
    PlanDraws(doc, firstPageFirst, copies, collate);
    var order := Traversal(|doc.pages|, firstPageFirst);
    TraversalVisitsEachPageOnce(|doc.pages|, firstPageFirst);
    OnceInOrder(order, p);
    if collate {
      StutterCounts(order, copies, p);
    } else {
      CycleCounts(order, if copies > 0 then copies else 0, p);
    }
  }

  /** A value that occurs at exactly one position occurs once. */
  lemma {:induction false} OnceInOrder(order: seq<int>, p: int)
    requires p in order
    requires forall j, k :: 0 <= j < k < |order| ==> order[j] != order[k]
    ensures multiset(order)[p] == 1
    decreases |order|
  {
    var init := order[..|order| - 1];
    var last := order[|order| - 1];
    assert order == init + [last];
    if last == p {
      assert p !in init by {
        forall j | 0 <= j < |init|
          ensures init[j] != p
        {
          assert init[j] == order[j];
        }
      }
    } else {
      OnceInOrder(init, p);
    }
  }

  // Sheet breaks.

  lemma Snoc<T>(s: seq<T>)
    requires s != []
    ensures s[..|s| - 1] + [s[|s| - 1]] == s
  {
  }

  /** The draws of `pages` as they should reach the paper: each image after the first
      on a sheet of its own, so exactly one break between two consecutive draws. */
  function Interleave(pages: seq<int>): seq<Event>
    decreases |pages|
  {
    if pages == [] then []
    else Interleave(pages[..|pages| - 1]) + (if |pages| > 1 then [NewPage] else []) + [Draw(pages[|pages| - 1])]
  }

  /** One more draw, after an optional break. */
  lemma InterleaveStep(a: seq<Event>, sep: seq<Event>, x: int)
    requires sep == [] || sep == [NewPage]
    ensures Sheets(a + sep + [Draw(x)]) == Sheets(a) + sep + [Draw(x)]
    ensures Draws(a + sep + [Draw(x)]) == Draws(a) + [x]
    ensures Count(a + sep + [Draw(x)], NewPage) == Count(a, NewPage) + |sep|
  {
    var all := a + sep + [Draw(x)];
    assert all[..|all| - 1] == a + sep;
    if sep != [] {
      assert (a + sep)[..|a + sep| - 1] == a;
    } else {
      assert a + sep == a;
    }
  }

  /** The interleaving is made of draws and breaks only; it draws `pages`, with one
      break fewer than draws. */
  lemma {:induction false} InterleaveParts(pages: seq<int>)
    ensures Sheets(Interleave(pages)) == Interleave(pages)
    ensures Draws(Interleave(pages)) == pages
    ensures Count(Interleave(pages), NewPage) == if pages == [] then 0 else |pages| - 1
    decreases |pages|
  {
    if pages != [] {
      var init := pages[..|pages| - 1];
      InterleaveParts(init);
      InterleaveStep(Interleave(init), if |pages| > 1 then [NewPage] else [], pages[|pages| - 1]);
      Snoc(pages);
    }
  }

  /** Two runs of draws placed one after the other are separated by exactly one break. */
  lemma {:induction false} InterleaveConcat(a: seq<int>, b: seq<int>)
    requires a != [] && b != []
    ensures Interleave(a + b) == Interleave(a) + [NewPage] + Interleave(b)
    decreases |b|
  {
    var last := b[|b| - 1];
    var init := b[..|b| - 1];
    assert (a + b)[..|a + b| - 1] == a + init;
    if init == [] {
      assert Interleave(b) == [Draw(last)];
    } else {
      InterleaveConcat(a, init);
    }
  }

  /** The copies of one page are its images, one sheet each. */
  lemma {:induction false} CopiesInterleave(page: int, n: int)
    ensures CopyEvents(page, n) == Interleave(Repeat(page, n))
    decreases n
  {
    if n > 0 {
      CopiesInterleave(page, n - 1);
      assert Repeat(page, n)[..n - 1] == Repeat(page, n - 1);
    }
  }

  lemma SheetsOfPage(doc: Document, page: int, opening: bool, firstInPass: bool, pageCopies: int)
    requires 0 <= page < |doc.pages|
    ensures Sheets(PageEvents(doc, page, opening, firstInPass, pageCopies))
            == (if firstInPass then [] else [NewPage]) + Interleave(Repeat(page, pageCopies))
  {
    DrawsOfHead(doc, page, opening, firstInPass);
    CopiesInterleave(page, pageCopies);
    InterleaveParts(Repeat(page, pageCopies));
    SheetsConcat(PageHead(doc, page, opening, firstInPass), CopyEvents(page, pageCopies));
  }

  /** A page that starts with a break continues the interleaving of the pages before it. */
  lemma SheetsJoin(a: seq<Event>, b: seq<Event>, x: seq<int>, y: seq<int>)
    requires x != [] && y != []
    requires Sheets(a) == Interleave(x) && Sheets(b) == [NewPage] + Interleave(y)
    ensures Sheets(a + b) == Interleave(x + y)
  {
    SheetsConcat(a, b);
    InterleaveConcat(x, y);
  }

  lemma SheetsOfFirstPage(doc: Document, firstPageFirst: bool, pageCopies: int, firstPass: bool)
    requires 0 < |doc.pages|
    ensures Sheets(PassEvents(doc, firstPageFirst, 1, pageCopies, firstPass))
            == Interleave(Stutter(Visited(|doc.pages|, firstPageFirst, 1), pageCopies))
  {
    var page := PageAt(|doc.pages|, firstPageFirst, 0);
    var events := PageEvents(doc, page, firstPass, true, pageCopies);
    var copies := Repeat(page, pageCopies);
    assert PassEvents(doc, firstPageFirst, 1, pageCopies, firstPass) == events by {
      assert [] + events == events;
    }
    assert Stutter(Visited(|doc.pages|, firstPageFirst, 1), pageCopies) == copies by {
      assert Visited(|doc.pages|, firstPageFirst, 1) == [page];
      StutterSnoc([], page, pageCopies);
      assert [] + [page] == [page];
      assert [] + copies == copies;
    }
    SheetsOfPage(doc, page, firstPass, true, pageCopies);
    assert [] + Interleave(copies) == Interleave(copies);
  }

  /** With at least one copy per page, the first `k` pages of a pass put their images on
      consecutive sheets, one break between any two. */
  lemma {:induction false} SheetsOfPass(doc: Document, firstPageFirst: bool, k: nat, pageCopies: int, firstPass: bool)
    requires 0 < k <= |doc.pages| && pageCopies > 0
    ensures Sheets(PassEvents(doc, firstPageFirst, k, pageCopies, firstPass))
            == Interleave(Stutter(Visited(|doc.pages|, firstPageFirst, k), pageCopies))
  {
    if k == 1 {
      SheetsOfFirstPage(doc, firstPageFirst, pageCopies, firstPass);
    } else {
      var before := Visited(|doc.pages|, firstPageFirst, k - 1);
      var page := PageAt(|doc.pages|, firstPageFirst, k - 1);
      SheetsOfPass(doc, firstPageFirst, k - 1, pageCopies, firstPass);
      SheetsOfPage(doc, page, false, false, pageCopies);
      StutterSnoc(before, page, pageCopies);
      StutterLength(before, pageCopies);
      SheetsJoin(PassEvents(doc, firstPageFirst, k - 1, pageCopies, firstPass),
        PageEvents(doc, page, false, false, pageCopies),
        Stutter(before, pageCopies), Repeat(page, pageCopies));
    }
  }

  lemma SheetsOfFullPass(doc: Document, firstPageFirst: bool, pageCopies: int, firstPass: bool)
    requires |doc.pages| > 0 && pageCopies > 0
    ensures Sheets(PassEvents(doc, firstPageFirst, |doc.pages|, pageCopies, firstPass))
            == Interleave(Stutter(Traversal(|doc.pages|, firstPageFirst), pageCopies))
    ensures Stutter(Traversal(|doc.pages|, firstPageFirst), pageCopies) != []
  {
    SheetsOfPass(doc, firstPageFirst, |doc.pages|, pageCopies, firstPass);
    StutterLength(Traversal(|doc.pages|, firstPageFirst), pageCopies);
  }

  /** Two interleaved runs of events with a break between them interleave as one. */
  lemma SheetsAcross(a: seq<Event>, b: seq<Event>, x: seq<int>, y: seq<int>)
    requires x != [] && y != []
    requires Sheets(a) == Interleave(x) && Sheets(b) == Interleave(y)
    ensures Sheets(a + [NewPage] + b) == Interleave(x + y)
  {
    var head := a + [NewPage];
    assert head[..|head| - 1] == a;
    assert Sheets(head) == Sheets(a) + [NewPage];
    SheetsConcat(head, b);
    InterleaveConcat(x, y);
  }

  /** Passes of a non-empty document follow one another with one break between them. */
  lemma {:induction false} SheetsOfDocuments(doc: Document, firstPageFirst: bool, d: nat, pageCopies: int)
    requires d > 0 && |doc.pages| > 0 && pageCopies > 0
    ensures Sheets(DocumentEvents(doc, firstPageFirst, d, pageCopies))
            == Interleave(Cycle(Stutter(Traversal(|doc.pages|, firstPageFirst), pageCopies), d))
  {
    var drawn := Stutter(Traversal(|doc.pages|, firstPageFirst), pageCopies);
    SheetsOfFullPass(doc, firstPageFirst, pageCopies, d == 1);
    if d == 1 {
      var pass := PassEvents(doc, firstPageFirst, |doc.pages|, pageCopies, true);
      assert [] + [] + pass == pass;
      assert [] + drawn == drawn;
    } else {
      var before := DocumentEvents(doc, firstPageFirst, d - 1, pageCopies);
      var pass := PassEvents(doc, firstPageFirst, |doc.pages|, pageCopies, false);
      SheetsOfDocuments(doc, firstPageFirst, d - 1, pageCopies);
      assert Cycle(drawn, d - 1) == Cycle(drawn, d - 2) + drawn;
      SheetsAcross(before, pass, Cycle(drawn, d - 1), drawn);
      assert DocumentEvents(doc, firstPageFirst, d, pageCopies) == before + [NewPage] + pass;
    }
  }

  /** Releasing the painter neither draws nor breaks a sheet. */
  lemma EndKeepsSheets(a: seq<Event>)
    ensures Sheets(a + [End]) == Sheets(a) && Draws(a + [End]) == Draws(a)
    ensures Count(a + [End], NewPage) == Count(a, NewPage)
  {
    assert (a + [End])[..|a|] == a;
  }

  /** With at least one copy of a non-empty document, every image the job draws after
      the first starts a sheet of its own: between two consecutive draws there is exactly
      one break, before the first and after the last there is none. */
  lemma PlanSheets(doc: Document, firstPageFirst: bool, copies: int, collate: bool)
    requires copies > 0 && |doc.pages| > 0
    ensures var plan := Plan(doc, firstPageFirst, copies, collate);
      Sheets(plan) == Interleave(Draws(plan))
  {
    var passes := Passes(copies, collate);
    var pageCopies := CopyFanOut(copies, collate).pageCopies;
    var done := DocumentEvents(doc, firstPageFirst, passes, pageCopies);
    assert Plan(doc, firstPageFirst, copies, collate) == done + [End];
    SheetsOfDocuments(doc, firstPageFirst, passes, pageCopies);
    DrawsOfDocuments(doc, firstPageFirst, passes, pageCopies);
    EndKeepsSheets(done);
  }

  /** With at least one copy of a non-empty document, the job breaks the sheet one time
      fewer than it draws: copies times the page count, less one. */
  lemma PlanBreaks(doc: Document, firstPageFirst: bool, copies: int, collate: bool)
    requires copies > 0 && |doc.pages| > 0
    ensures Count(Plan(doc, firstPageFirst, copies, collate), NewPage) == copies * |doc.pages| - 1
  {
    PlanSheets(doc, firstPageFirst, copies, collate);
    PlanDrawCount(doc, firstPageFirst, copies, collate);
    BreaksBetweenDraws(Plan(doc, firstPageFirst, copies, collate));
  }

  /** Events in which every image after the first starts a sheet break the sheet one
      time fewer than they draw. */
  lemma BreaksBetweenDraws(events: seq<Event>)
    requires Sheets(events) == Interleave(Draws(events))
    ensures Count(events, NewPage) == if Draws(events) == [] then 0 else |Draws(events)| - 1
  {
    SheetsKeepDraws(events);
    InterleaveParts(Draws(events));
  }

  /** A document without pages draws nothing; without collation its passes still break
      the sheet between one another. */
  lemma {:induction false} EmptyDocuments(doc: Document, firstPageFirst: bool, d: nat, pageCopies: int)
    requires |doc.pages| == 0
    ensures DocumentEvents(doc, firstPageFirst, d, pageCopies) == Repeat(NewPage, d - 1)
  {
    if d > 1 {
      EmptyDocuments(doc, firstPageFirst, d - 1, pageCopies);
    }
  }

  lemma EmptyDocumentPlan(doc: Document, firstPageFirst: bool, copies: int, collate: bool)
    requires |doc.pages| == 0
    ensures Plan(doc, firstPageFirst, copies, collate)
            == Repeat(NewPage, if collate then 0 else copies - 1)
  {
    EmptyDocuments(doc, firstPageFirst, Passes(copies, collate), CopyFanOut(copies, collate).pageCopies);
  }
}
