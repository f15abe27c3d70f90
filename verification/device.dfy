/** Page geometry: the values a print job reads from a paged device, sets per page
    and writes back when it ends. */
module Geometry {
  /** A size in points (1/72 inch), as pdfium reports the size of a document page. */
  datatype SizeF = SizeF(width: real, height: real)

  datatype Orientation = Portrait | Landscape

  /** A device page size. Qt's fuzzy match against the standard sizes (A4, Letter, ...)
      is not modelled: a page size is identified by the point dimensions it is built from. */
  datatype PageSize = PageSize(points: SizeF)

  datatype Margins = Margins(left: real, top: real, right: real, bottom: real)

  /** The default-constructed margins, zero on every side. */
  const NoMargins := Margins(0.0, 0.0, 0.0, 0.0)

  /** The three settings of a device's page layout that a print job changes. */
  datatype Layout = Layout(pageSize: PageSize, orientation: Orientation, margins: Margins)

  /** A page is printed in landscape exactly when it is strictly wider than tall. */
  function OrientationOf(size: SizeF): (o: Orientation)
    ensures o == Landscape <==> size.width > size.height
  {
    if size.width > size.height then Landscape else Portrait
  }

  /** The layout a print job gives the device for a document page of this size. */
  function PageLayout(size: SizeF): Layout {
    Layout(PageSize(size), OrientationOf(size), NoMargins)
  }
}

/** A paged paint device borrowed by a print job, and the painter drawn onto it.
    Everything the job does to the device is recorded, in order, in the device's log. */
module PagedDevice {
  import opened Geometry

  /** A raster image; only the document page it was rendered from is modelled. */
  datatype Image = Image(page: int)

  datatype Event =
    | SetPageSize(size: PageSize)
    | SetOrientation(orientation: Orientation)
    | SetMargins(margins: Margins)
    | Begin            // a painter opened the device
    | NewPage          // the device advanced to a fresh sheet
    | Draw(page: int)  // an image of this document page was drawn at (0, 0)
    | End              // the painter released the device

  /** The effect of one event on the device's page layout. */
  function Apply(layout: Layout, e: Event): Layout {
    match e
    case SetPageSize(s) => layout.(pageSize := s)
    case SetOrientation(o) => layout.(orientation := o)
    case SetMargins(m) => layout.(margins := m)
    case _ => layout
  }

  /** The page layout of a device that started with `layout` once `events` happened to it. */
  function LayoutAfter(layout: Layout, events: seq<Event>): Layout
    decreases |events|
  {
    if events == [] then layout
    else Apply(LayoutAfter(layout, events[..|events| - 1]), events[|events| - 1])
  }

  lemma {:induction false} LayoutAfterConcat(layout: Layout, a: seq<Event>, b: seq<Event>)
    ensures LayoutAfter(layout, a + b) == LayoutAfter(LayoutAfter(layout, a), b)
    decreases |b|
  {
    if b == [] {
      assert a + b == a;
    } else {
      assert (a + b)[..|a + b| - 1] == a + b[..|b| - 1];
      LayoutAfterConcat(layout, a, b[..|b| - 1]);
    }
  }

  /** One more event changes the layout the way that event does. */
  lemma LayoutAfterAppend(layout: Layout, events: seq<Event>, e: Event)
    ensures LayoutAfter(layout, events + [e]) == Apply(LayoutAfter(layout, events), e)
  {
    assert (events + [e])[..|events|] == events;
  }

  /** The writes with which a print job hands the device back: size, orientation, margins. */
  function RestoreEvents(saved: Layout): seq<Event> {
    [SetPageSize(saved.pageSize), SetOrientation(saved.orientation), SetMargins(saved.margins)]
  }

  /** Whatever happened to the device before, restoring leaves exactly the saved layout. */
  lemma RestoreWins(layout: Layout, before: seq<Event>, saved: Layout)
    ensures LayoutAfter(layout, before + RestoreEvents(saved)) == saved
  {
    var r := RestoreEvents(saved);
    LayoutAfterConcat(layout, before, r);
    var l := LayoutAfter(layout, before);
    assert r[..2][..1] == r[..1] && r[..1][..0] == [];
    assert LayoutAfter(l, r[..1]) == Apply(l, r[0]);
    assert LayoutAfter(l, r[..2]) == Apply(Apply(l, r[0]), r[1]);
  }

  /** Restoring, then at most the painter's release, leaves exactly the saved layout,
      whatever the device held before. */
  lemma RestoreOutlasts(before: seq<Event>, saved: Layout, release: seq<Event>)
    requires release == [] || release == [End]
    ensures forall layout :: LayoutAfter(layout, before + RestoreEvents(saved) + release) == saved
  {
    forall layout
      ensures LayoutAfter(layout, before + RestoreEvents(saved) + release) == saved
    {
      RestoreWins(layout, before, saved);
      if release == [] {
        assert before + RestoreEvents(saved) + release == before + RestoreEvents(saved);
      } else {
        LayoutAfterAppend(layout, before + RestoreEvents(saved), End);
      }
    }
  }

  class Device {
    var pageSize: PageSize
    var orientation: Orientation
    var margins: Margins
    /** Whether a painter can open this device; decided by the device's driver. */
    const opensForPainting: bool
    var log: seq<Event>
    /** The layout the device had before anything in its log happened to it. */
    ghost const start: Layout

    function CurrentLayout(): Layout
      reads this
    {
      Layout(pageSize, orientation, margins)
    }

    /** The device holds the layout its log makes of the one it started with. It is
        stated of every sequence equal to the log, so that a proof replays the log only
        where it names `LayoutAfter(start, ...)` itself. */
    ghost predicate Valid()
      reads this
    {
      forall events :: events == log ==> LayoutAfter(start, events) == CurrentLayout()
    }

    constructor (layout: Layout, opens: bool)
      ensures Valid() && start == layout
      ensures CurrentLayout() == layout && opensForPainting == opens && log == []
    {
      pageSize, orientation, margins := layout.pageSize, layout.orientation, layout.margins;
      opensForPainting := opens;
      log := [];
      start := layout;
    }

    method SetPageSize(size: PageSize)
      requires Valid()
      modifies this
      ensures Valid()
      ensures log == old(log) + [Event.SetPageSize(size)]
      ensures CurrentLayout() == Apply(old(CurrentLayout()), Event.SetPageSize(size))
    {
      pageSize := size;
      LayoutAfterAppend(start, log, Event.SetPageSize(size));
      log := log + [Event.SetPageSize(size)];
    }

    method SetPageOrientation(o: Orientation)
      requires Valid()
      modifies this
      ensures Valid()
      ensures log == old(log) + [SetOrientation(o)]
      ensures CurrentLayout() == Apply(old(CurrentLayout()), SetOrientation(o))
    {
      orientation := o;
      LayoutAfterAppend(start, log, SetOrientation(o));
      log := log + [SetOrientation(o)];
    }

    method SetPageMargins(m: Margins)
      requires Valid()
      modifies this
      ensures Valid()
      ensures log == old(log) + [SetMargins(m)]
      ensures CurrentLayout() == Apply(old(CurrentLayout()), SetMargins(m))
    {
      margins := m;
      LayoutAfterAppend(start, log, SetMargins(m));
      log := log + [SetMargins(m)];
    }

    method NewPage()
      requires Valid()
      modifies this
      ensures Valid()
      ensures log == old(log) + [Event.NewPage]
      ensures CurrentLayout() == old(CurrentLayout())
    {
      LayoutAfterAppend(start, log, Event.NewPage);
      log := log + [Event.NewPage];
    }
  }

  /** On a device whose log tells its layout, the layout it holds now is what the events
      appended since `before` did to the layout it held then. */
  lemma ReplaysLog(device: Device, before: seq<Event>, added: seq<Event>)
    requires device.Valid() && device.log == before + added
    ensures device.CurrentLayout() == LayoutAfter(LayoutAfter(device.start, before), added)
  {
    assert LayoutAfter(device.start, device.log) == device.CurrentLayout();
    LayoutAfterConcat(device.start, before, added);
  }

  /** A painter; it is active between a successful Begin and End. */
  class Painter {
    var active: bool

    constructor ()
      ensures !active
    {
      active := false;
    }

    /** Opens `device` for painting; fails, changing nothing, when the device refuses. */
    method Begin(device: Device) returns (ok: bool)
      requires !active && device.Valid()
      modifies this, device
      ensures device.Valid()
      ensures ok == device.opensForPainting && active == ok
      ensures device.log == old(device.log) + (if ok then [Event.Begin] else [])
      ensures device.CurrentLayout() == old(device.CurrentLayout())
    {
      ok := device.opensForPainting;
      if ok {
        active := true;
        LayoutAfterAppend(device.start, device.log, Event.Begin);
        device.log := device.log + [Event.Begin];
      }
    }

    method DrawImage(device: Device, image: Image)
      requires active && device.Valid()
      modifies device
      ensures device.Valid()
      ensures device.log == old(device.log) + [Draw(image.page)]
      ensures device.CurrentLayout() == old(device.CurrentLayout())
    {
      LayoutAfterAppend(device.start, device.log, Draw(image.page));
      device.log := device.log + [Draw(image.page)];
    }

    /** Releases the device; on a painter that is not active it does nothing. */
    method End(device: Device)
      requires device.Valid()
      modifies this, device
      ensures device.Valid()
      ensures !active
      ensures device.log == old(device.log) + (if old(active) then [Event.End] else [])
      ensures device.CurrentLayout() == old(device.CurrentLayout())
    {
      if active {
        LayoutAfterAppend(device.start, device.log, Event.End);
        device.log := device.log + [Event.End];
      }
      active := false;
    }
  }
}
