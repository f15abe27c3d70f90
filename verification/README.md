# PrinterWorker::print, modelled in Dafny

`PrinterWorker::print()` prints a document that was already rendered to PDF onto a paged
paint device it does not own. The job works in these steps:

- It refuses empty data.
- It saves the device's page size, orientation and margins.
- It splits the requested copies between repeated document passes and consecutive
  repeats of each page. This depends on `m_collateCopies`.
- It walks the pages first-to-last or last-to-first.
- For every page it sets that page's size, orientation and zero margins. It opens the
  painter on the first page it reaches. It starts a new sheet for every page but a pass's
  first, and draws the page's raster image once per copy, each copy after the first on a
  new sheet.
- It gives up at the first failure: a device that cannot be opened for painting, or a
  page that rasterises to a null image.
- On every exit after the guard it writes the saved layout back and emits one
  `resultReady`.
- The painter is a local of `print()`. After a failure while drawing, the painter is
  still active when `print()` returns, and its destructor releases it after the layout
  has been restored.

## How the model works

The model records everything the job does to the device as a log of events
(`PagedDevice.Event`). The modules divide the work:

- `PrintPlan` gives, as pure functions, the events of a run in which nothing fails. The
  functions nest like the three loops of the source: `DocumentEvents`, `PassEvents`,
  `PageEvents`, `CopyEvents`. The whole job's events are `Plan`. `FirstFailure` is where
  a failing device or page cuts that plan short.
- `Printing.PrinterWorker` is the job itself, a class with the worker's fields. Its
  methods follow the source's loops statement by statement, over a `Device` and a
  `Painter` whose methods append to the device's log. Each loop method is proved to
  append exactly its own part of the plan, cut at its first failure. `Print`, with its
  exits `Abandon` and `Complete`, is proved to append the whole plan cut at its first
  failure, followed by the restore. After a failure at a draw, the painter's release
  comes last.
- The device's size, orientation and margins are fields the setters update in place.
  `Device.Valid` ties them to the log: they always hold what the logged events made of
  the layout the device started with. Every method of the job keeps it, so what
  `PageSetup` proves about the log's layouts holds of the device's fields.
- `DrawOrder`, `PageSetup`, `PainterUse` and `JobResult` prove what that plan means.
  That covers:
  - which pages are drawn, in which order and how often;
  - how many sheets are broken;
  - the layout each page is drawn under;
  - when the painter is opened and released;
  - exactly when the job reports success.

`WorkedExamples` works these out on small cases: a document of three pages printed
twice, A4 and square page orientations, a one-page job whose page does not rasterise,
and a collated one-page job with no copies.

The collate flag is modelled as the code behaves:

- With `m_collateCopies` set, the job makes one pass and repeats each page
  `m_documentCopies` times in a row (0, 0, 1, 1, 2, 2). It also overwrites
  `m_documentCopies` with 1, so the worker keeps that value after the job.
- Without it, the job makes `m_documentCopies` passes over the whole document
  (0, 1, 2, 0, 1, 2).

This is the reverse of the usual meaning of collation, where collated copies repeat the
whole document and uncollated copies repeat each page. The model follows
`src/core/printing/printer_worker.cpp:46-50`.

A copy count of zero or less is handled as the loops handle it, with no precondition:

- no pass at all without collation;
- one pass that draws no image with collation.

## Model

| member | source | states |
|---|---|---|
| `Printing.PrinterWorker.Print` | src/core/printing/printer_worker.cpp:20-105 | Empty data: one `false` result and the device untouched. Otherwise: the device log grows by the job's plan cut at its first failure, then the restore of the saved size, orientation and margins. The device ends with its original layout. Exactly one result, `true` iff the whole plan ran. `documentCopies` becomes 1 when collating. After a failure at a draw, the still-active painter is released last, when it goes out of scope (`JobResult.JobLog`). The device's layout stays the one its log makes of its starting layout (`Device.Valid`). |
| `Printing.PrinterWorker.Abandon` | src/core/printing/printer_worker.cpp:82-97 | The exit on a failure: the restore and a `false` result, then the release of the local painter if it is still active. |
| `Printing.PrinterWorker.Complete` | src/core/printing/printer_worker.cpp:102-104 | The exit after all passes: the painter is released if it was opened, then the restore and a `true` result. |
| `Printing.PrinterWorker.Finish` | src/core/printing/printer_worker.cpp:34-39 | Writes back size, orientation and margins, in that order. The device then holds exactly the saved layout, and one result is appended. |
| `Printing.PrinterWorker.PrintDocumentCopies` | src/core/printing/printer_worker.cpp:56-101 | The document loop: on success the device holds all passes and nothing failed. The device's layout stays the one its log makes of its starting layout, so after passes that all ran over a document with pages it is the layout of the last page visited. The painter is active iff there was a pass over a non-empty document. On failure the log is the plan cut at its first failure, and the painter is active exactly when the device opens. |
| `Printing.PrinterWorker.PrintDocument` | src/core/printing/printer_worker.cpp:57-100 | One pass, preceded by a new sheet from the second pass on. It either extends the log by one more pass, or leaves the plan cut at its first failure. The device's layout stays the one its log makes of its starting layout. |
| `Printing.PrinterWorker.PrintPass` | src/core/printing/printer_worker.cpp:60-100 | The page loop from `fromPage` to `toPage`, stepping up or down. The log grows by the pass's events cut at their first failure, and `ok` iff none failed. The device's layout stays the one its log makes of its starting layout: a pass that ran leaves its last page's layout (`PageSetup.PassLayout`). |
| `Printing.PrinterWorker.PrintPassPage` | src/core/printing/printer_worker.cpp:60-99 | The page at step `k` of a pass either adds its events to the pass, or leaves the pass cut at its first failure. Either way the device then holds that page's layout. |
| `Printing.PrinterWorker.PrintPage` | src/core/printing/printer_worker.cpp:62-99 | A page's geometry, the painter opened on the job's first page only, a new sheet unless first in its pass, then its copies. All are cut at the first failure. Once opened, the painter stays active. After the page the painter is active exactly when the device opens. The device holds the page's size, its orientation and zero margins, whether or not the page failed. |
| `Printing.PrinterWorker.PrintCopies` | src/core/printing/printer_worker.cpp:90-99 | `pageCopies` draws of the page, each after the first on a new sheet, stopping at the first null image. `ok` iff none was null. The device's layout is unchanged. |
| `PagedDevice.Painter.Begin` | src/core/printing/printer_worker.cpp:82-85 | Opening succeeds exactly when the device lets a painter open it. On success the painter becomes active. Only a successful open is logged. |
| `PagedDevice.Painter.End` | src/core/printing/printer_worker.cpp:102 | Releases the painter. It is logged only if the painter was active. |
| `PagedDevice.RestoreWins` | src/core/printing/printer_worker.cpp:34-37 | Whatever the job did before, the three restoring writes leave exactly the saved layout. |
| `PagedDevice.Device.SetPageSize` | src/core/printing/printer_worker.cpp:63-65 | Logs the write and sets the page size, leaving orientation and margins; the device's layout still matches its log. The job calls it per page and again at line 35. |
| `PagedDevice.Device.SetPageOrientation` | src/core/printing/printer_worker.cpp:67-70 | Logs the write and sets the orientation only; the layout still matches the log. Also used by the restore at line 36. |
| `PagedDevice.Device.SetPageMargins` | src/core/printing/printer_worker.cpp:72-73 | Logs the write and sets the margins only; the layout still matches the log. Also used by the restore at line 37. |
| `PagedDevice.Device.NewPage` | src/core/printing/printer_worker.cpp:86-92 | Logs a new sheet and leaves the layout as it is. The same call starts each later pass at line 58. |
| `PagedDevice.Painter.DrawImage` | src/core/printing/printer_worker.cpp:98 | On an active painter, logs a draw of the image's page and leaves the layout as it is. |
| `PagedDevice.ReplaysLog` | src/core/printing/printer_worker.cpp:62-99 | On a device whose layout matches its log, the layout it holds now is what the events appended since an earlier point did to the layout it held then. |
| `PagedDevice.RestoreOutlasts` | src/core/printing/printer_worker.cpp:34-37 | The restore, followed by at most the painter's release, leaves exactly the saved layout whatever came before. |
| `Geometry.OrientationOf` | src/core/printing/printer_worker.cpp:67-70 | A page is Landscape exactly when it is strictly wider than tall; a square page is Portrait. |
| `PrintPlan.Render` | src/core/printing/printer_worker.cpp:94-96 | Rasterising a page gives a null image exactly when the page does not rasterise; otherwise the image shows that page. |
| `PrintPlan.Plan` | src/core/printing/printer_worker.cpp:56-104 | With no pass (copy count ≤ 0 without collation) the job does nothing. With a pass over a document with pages, the painter's release is its last event. |
| `JobResult.JobLog` | src/core/printing/printer_worker.cpp:34-104 | Everything a job on non-empty data does: the plan up to its first failure, the restore (lines 34-39), and the painter's release after a failed draw (line 97) or, after success, before the restore (lines 102-104). Whatever layout the device started with, this log leaves exactly the saved one. |
| `PrintPlan.PageAt` | src/core/printing/printer_worker.cpp:43-44 | Step `k` of a pass visits a page of the document. |
| `PrintPlan.CopyFanOut` | src/core/printing/printer_worker.cpp:46-50 | Passes times page repeats equals the requested copies. Collating gives one pass; not collating gives one repeat per page. |
| `PrintPlan.FirstFailureSpec` | src/core/printing/printer_worker.cpp:82-97 | Nothing before the cut fails, and the event at the cut fails: an open the device refuses, or a page that yields a null image. |
| `PrintPlan.PageCut` | src/core/printing/printer_worker.cpp:82-97 | A page's events stop at the painter's open when the device refuses it. Otherwise they stop at the first copy that does not rasterise. |
| `PrintPlan.PageStep` | src/core/printing/printer_worker.cpp:82-99 | Whether the open failed or a copy failed, the log holds the page's events cut at their first failure. `ok` iff the page ran to its end. |
| `PrintPlan.PassStep` | src/core/printing/printer_worker.cpp:60-100 | A page that ran through extends the pass without a failure. A page that failed leaves the whole pass cut at its first failure. |
| `PrintPlan.DocumentStep` | src/core/printing/printer_worker.cpp:56-101 | A pass that ran through extends the job without a failure. A pass that failed leaves the whole plan cut at its first failure. |
| `PrintPlan.PageFailsInPass` | src/core/printing/printer_worker.cpp:60-100 | A failing page stops the pass exactly at that page's first failure. |
| `PrintPlan.PassFailsInPlan` | src/core/printing/printer_worker.cpp:56-101 | A failing pass stops the job exactly at that pass's first failure. |
| `PrintPlan.JobEnd` | src/core/printing/printer_worker.cpp:102-104 | After all passes, releasing the painter (logged only if it was opened) completes the whole plan, and nothing in it failed. |
| `PrintPlan.PassBreak` | src/core/printing/printer_worker.cpp:57-58 | The new sheet between passes belongs to the plan and cannot fail. |
| `PrintPlan.BeginIsPlanned` | src/core/printing/printer_worker.cpp:62-85 | The painter is opened right after the page's three geometry writes. |
| `PrintPlan.CopyIsPlanned` | src/core/printing/printer_worker.cpp:90-98 | Before copy `c` there are the earlier copies, then a new sheet if `c > 0`, then its draw. All of this is a prefix of the page's copies. |
| `PrintPlan.PassIsPlanned` | src/core/printing/printer_worker.cpp:60-100 | A partly done page after the earlier pages of a pass is a prefix of the whole pass. |
| `PrintPlan.DocumentIsPlanned` | src/core/printing/printer_worker.cpp:56-101 | A partly done pass after the earlier passes and the separating sheet is a prefix of all passes. |
| `PrintPlan.CutAt` | src/core/printing/printer_worker.cpp:82-97 | A run that did a failure-free prefix of the plan and then hit a failing event stopped exactly at the plan's first failure. |
| `PrintPlan.CutWithin` | src/core/printing/printer_worker.cpp:94-97 | A part of the plan cut at its own first failure, after a failure-free prefix, is the plan cut at its first failure. |
| `PrintPlan.CutAtEnd` | src/core/printing/printer_worker.cpp:102-104 | A plan with no failing event runs to its end. |
| `PrintPlan.RanToEnd` | src/core/printing/printer_worker.cpp:102-104 | A plan that ran to its end had no failing event. |
| `PrintPlan.FirstFailureAfter` | src/core/printing/printer_worker.cpp:56-101 | After failure-free events, the first failure of what follows is shifted by their length. |
| `DrawOrder.TraversalOrder` | src/core/printing/printer_worker.cpp:43-44 | Forward traversal visits page `k` at step `k`; backward traversal visits page `count-1-k`. |
| `DrawOrder.TraversalVisitsEachPageOnce` | src/core/printing/printer_worker.cpp:60 | Every page is visited, each exactly once, and only pages of the document are visited. |
| `DrawOrder.DrawsOfCopies` | src/core/printing/printer_worker.cpp:90-99 | The copies of a page draw that page `pageCopies` times. |
| `DrawOrder.DrawsOfPage` | src/core/printing/printer_worker.cpp:62-99 | A page draws itself `pageCopies` times and nothing else. |
| `DrawOrder.DrawsOfPass` | src/core/printing/printer_worker.cpp:60-100 | The first `k` pages of a pass draw the first `k` pages of the traversal, each repeated `pageCopies` times. |
| `DrawOrder.DrawsOfFullPass` | src/core/printing/printer_worker.cpp:60-100 | A whole pass draws the traversal with each page repeated `pageCopies` times. |
| `DrawOrder.DrawsOfDocuments` | src/core/printing/printer_worker.cpp:56-101 | `d` passes draw a pass's pages `d` times over. |
| `DrawOrder.PlanDraws` | src/core/printing/printer_worker.cpp:46-101 | Collated, the job draws each page of the traversal `copies` times in a row. Otherwise it draws the whole traversal `copies` times over. |
| `DrawOrder.PlanDrawCount` | src/core/printing/printer_worker.cpp:46-101 | The job draws copies × page count images, and none for a non-positive copy count. |
| `DrawOrder.PlanDrawsEachPage` | src/core/printing/printer_worker.cpp:46-101 | Every page is drawn exactly `copies` times, whether collated or not. |
| `DrawOrder.SheetsOfPage` | src/core/printing/printer_worker.cpp:87-99 | A page's sheet events are a break unless it is first in its pass, then its copies with one break between two. |
| `DrawOrder.SheetsOfPass` | src/core/printing/printer_worker.cpp:60-100 | With at least one copy, consecutive images of a pass are separated by exactly one new sheet. |
| `DrawOrder.SheetsOfDocuments` | src/core/printing/printer_worker.cpp:56-101 | Consecutive passes are separated by exactly one new sheet. |
| `DrawOrder.PlanSheets` | src/core/printing/printer_worker.cpp:56-104 | With at least one copy of a document with pages, every image of the job is on a sheet of its own: exactly one break between two images, none before the first or after the last. |
| `DrawOrder.PlanBreaks` | src/core/printing/printer_worker.cpp:56-104 | With at least one copy of a document with pages, a job breaks the sheet copies × page count − 1 times. A document without pages is covered by `EmptyDocumentPlan`. |
| `DrawOrder.EmptyDocuments` | src/core/printing/printer_worker.cpp:56-60 | Over a document without pages, `d` passes do nothing but the `d-1` breaks between them. |
| `DrawOrder.EmptyDocumentPlan` | src/core/printing/printer_worker.cpp:56-104 | On a document without pages, the job's plan is `copies - 1` sheet breaks when not collating, and empty when collating. On non-empty data the restore follows it, as always. |
| `PageSetup.GeometryWins` | src/core/printing/printer_worker.cpp:62-73 | Whatever the layout before, a page's three writes leave its size, Landscape iff strictly wider than tall, and zero margins. |
| `PageSetup.HeadLayout` | src/core/printing/printer_worker.cpp:62-88 | After the geometry, opening the painter and the page break leave the page's own layout in place. |
| `PageSetup.PageLayoutHolds` | src/core/printing/printer_worker.cpp:62-99 | Every copy of a page is drawn while the device holds that page's layout, and the page leaves it in place. |
| `PageSetup.CopiesUnderLayout` | src/core/printing/printer_worker.cpp:90-99 | The copy loop changes no geometry, so every copy is drawn under the page's layout. |
| `PageSetup.PassLayout` | src/core/printing/printer_worker.cpp:60-100 | Every image of a pass is drawn under its own page's layout. The pass leaves the layout of its last page. |
| `PageSetup.DocumentsLayout` | src/core/printing/printer_worker.cpp:56-101 | Every image of all passes is drawn under its own page's layout, whatever the device held before. |
| `PageSetup.PlanLayout` | src/core/printing/printer_worker.cpp:56-104 | Every image of the job is drawn under the layout of the page it shows. |
| `PageSetup.PrefixLayout` | src/core/printing/printer_worker.cpp:94-97 | Cutting events short keeps every image they still draw under its page's layout. |
| `PageSetup.CutLayout` | src/core/printing/printer_worker.cpp:94-97 | A job cut short at its first failure drew every image it drew under the layout of the page it shows. |
| `PageSetup.SheetBreakLayout` | src/core/printing/printer_worker.cpp:79-92 | Every break that starts a sheet for an image is made after that page's geometry was set, so the device already holds the page's layout (unlike the break between passes, `PassBreakLayout`). |
| `PageSetup.PassBreakLayout` | src/core/printing/printer_worker.cpp:57-58 | The new sheet that starts each later pass is taken while the device still holds the layout of the previous pass's last page. |
| `PainterUse.PagePainter` | src/core/printing/printer_worker.cpp:79-85 | A page opens the painter once if it is the job's first page, and otherwise never. It never releases it. |
| `PainterUse.PassPainter` | src/core/printing/printer_worker.cpp:60-100 | A pass opens the painter once if it is the job's first pass and has pages. |
| `PainterUse.DocumentsPainter` | src/core/printing/printer_worker.cpp:56-101 | All passes together open the painter at most once, and once exactly when there is a pass over a document with pages. |
| `PainterUse.PlanPainter` | src/core/printing/printer_worker.cpp:54-104 | A job with a pass over a document with pages opens the painter once and releases it once, as its last event. This holds even when that pass draws no image (collated, copy count ≤ 0). Any other job never touches the painter. |
| `PainterUse.PlanOpensFirst` | src/core/printing/printer_worker.cpp:62-85 | A job with a pass over a document with pages starts with the first traversal page's geometry, then the painter's open. |
| `PainterUse.OpenFailure` | src/core/printing/printer_worker.cpp:82-85 | On a device that refuses a painter, a job with a pass over a document with pages stops after the first page's geometry, having drawn nothing. |
| `JobResult.FailureLeaves` | src/core/printing/printer_worker.cpp:82-97 | A job succeeds iff nothing in its plan fails. What a stopped job drew is a prefix of the full draw order, made only of pages that rasterise. It stopped at a refused open or at a page that does not rasterise. |
| `JobResult.JobSucceeds` | src/core/printing/printer_worker.cpp:56-104 | A job reports success iff it has no pass over a document with pages, or the device opens and, with a positive copy count, every page rasterises. |
| `JobResult.FailedAtDraw` | src/core/printing/printer_worker.cpp:82-97 | A job that stops early stops at a draw exactly when the device opens for painting. Otherwise it stops at the painter's open. |
| `JobResult.JobStep` | src/core/printing/printer_worker.cpp:82-104 | Both exits of a job leave the device with the job's log. The job went through iff nothing in its plan failed. |
| `JobResult.JobReleasesPainter` | src/core/printing/printer_worker.cpp:54-104 | On every path of a job, the painter is released exactly as often as it is opened. That is once when the device opens and there is a pass over a document with pages, and never otherwise. |
| `JobResult.CountsAtCut` | src/core/printing/printer_worker.cpp:82-99 | Up to its first failure, a job has opened the painter as above. It has released it too, unless it stopped at a draw. |
| `JobResult.OpenedBeforeDraw` | src/core/printing/printer_worker.cpp:82-98 | Before any draw, the painter has been opened once and not yet released. |
| `JobResult.PlanDrawsInRange` | src/core/printing/printer_worker.cpp:60 | Every image drawn is of a page of the document. |
| `WorkedExamples.ForwardOrder` | src/core/printing/printer_worker.cpp:43-44 | Three pages printed first-to-last are visited 0, 1, 2. |
| `WorkedExamples.BackwardOrder` | src/core/printing/printer_worker.cpp:43-44 | Three pages printed last-to-first are visited 2, 1, 0. |
| `WorkedExamples.CollatedTwice` | src/core/printing/printer_worker.cpp:46-50 | Three pages, two copies, collated: 0, 0, 1, 1, 2, 2. |
| `WorkedExamples.UncollatedTwice` | src/core/printing/printer_worker.cpp:46-50 | Three pages, two copies, not collated: 0, 1, 2, 0, 1, 2. |
| `WorkedExamples.BackwardCollatedTwice` | src/core/printing/printer_worker.cpp:43-50 | Reversed and collated: 2, 2, 1, 1, 0, 0. |
| `WorkedExamples.SixSheets` | src/core/printing/printer_worker.cpp:56-99 | Six images take five breaks, collated or not. |
| `WorkedExamples.A4Orientations` | src/core/printing/printer_worker.cpp:68-70 | An A4 page on its side is Landscape. Upright A4 and square pages are Portrait. |
| `WorkedExamples.RenderFailureReleases` | src/core/printing/printer_worker.cpp:54-104 | One page that does not rasterise, one copy, a device that opens: geometry, painter open, restore, then the painter's release. |
| `WorkedExamples.CollatedNoCopies` | src/core/printing/printer_worker.cpp:46-99 | Collated with no copies, a one-page job draws nothing. It still sets the geometry, opens the painter and releases it. |

## Left out

- The PDF itself is not modelled. A document is its list of pages, each a size in points
  and whether it rasterises. Both are decided by pdfium, which is not part of this model.
  An empty byte buffer is the only property of `m_data` that matters.
- The pixels are not modelled: the raster image records only the page it shows. This
  leaves out the resolution factor (`m_deviceResolution / 72`), the paint rectangle, and
  the aspect-preserving scaling of the target size (lines 52 and 75-77). The scaled size
  is passed to pdfium's rasteriser (lines 94-95), whose null result is the failure branch
  at line 96. The model folds all of this into the page's `renders` flag. A page is thus
  assumed to rasterise the same way on every copy and every pass, whatever target size
  the device's paint rectangle gives it.
- Qt's `QPageSize` fuzzy match against standard paper sizes is not modelled. A page size
  is the point size it was built from.
- Logging (`qWarning`) is not modelled.
- The `resultReady` signal is modelled as the appended list `results`, kept apart from the
  device's log. The order between the signal and the device's events is therefore not
  stated: in particular that, after a failed draw, `resultReady(false)` at line 97 comes
  before the painter's release by its destructor.
- The constructor, the destructor and the thread the worker runs on are not modelled.
  The header `printer_worker.h` and the worker's signal plumbing are not part of this
  model.
- Whether a device can be opened for painting is a fixed property of the device
  (`opensForPainting`), not an I/O outcome that may change between calls.
- `PagedDevice.Device.SetPageSize`, `PagedDevice.Device.SetPageOrientation`,
  `PagedDevice.Device.SetPageMargins` and `PagedDevice.Device.NewPage` assume a device
  that accepts every value exactly. Qt's setters and `newPage()` return whether the
  device accepted the change. A printer with hardware minimum margins, for example, may
  refuse the zero margins of line 73. The source ignores these results, so the job's
  control flow is the same. The exact layout claims depend on this assumption: those of
  `PageSetup.GeometryWins`, `PageSetup.PlanLayout`, `PagedDevice.RestoreWins`, and the
  layout clause of `Printing.PrinterWorker.Print`.
- `PagedDevice.Device.SetPageMargins`: margins carry no unit in the model. At line 37
  the job writes back margins read from the page layout (line 32), which are in that
  layout's own unit. It writes them through `setPageMargins` with its default unit
  (millimetres). The model treats the value read and the value written as the same
  margins; a unit conversion, if Qt applies one, is not modelled.
- `Printing.PrinterWorker.Print` takes the document already parsed. The parse is out of
  scope.
