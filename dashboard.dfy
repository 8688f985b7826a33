/**
 * multiples-commits.js: a dashboard that holds up to ten widgets with
 * distinct ids once it has been initialised, plus a theme, a layout and a
 * refresh interval.
 */
module Dashboard {
  import opened Wrappers

  const MaxWidgets: nat := 10

  /** A widget object; `id` is `None` when the object has no `id` property (it reads as `undefined`). */
  datatype Widget = Widget(id: Option<string>, content: string)

  /** The argument of `addWidget`: an object, or anything else (`null`, a number, a string...). */
  datatype WidgetArg = AnObject(widget: Widget) | NotAnObject

  datatype DashboardError = NotInitialized | LimitReached | InvalidWidget | DuplicateId

  predicate DistinctIds(ws: seq<Widget>)
  {
    forall i, j :: 0 <= i < j < |ws| ==> ws[i].id != ws[j].id
  }

  predicate HasId(ws: seq<Widget>, id: Option<string>)
  {
    exists i :: 0 <= i < |ws| && ws[i].id == id
  }

  /** The first check of `addWidget` that fails, in the source's order; `None` when all pass. */
  function AddError(ws: seq<Widget>, initialized: bool, arg: WidgetArg): Option<DashboardError>
  {
    if !initialized then Some(NotInitialized)
    else if |ws| >= MaxWidgets then Some(LimitReached)
    else if arg.NotAnObject? then Some(InvalidWidget)
    else if HasId(ws, arg.widget.id) then Some(DuplicateId)
    else None
  }

  /** An accepted widget keeps the list within the limit and its ids distinct. */
  lemma {:induction false} AddKeepsInvariant(ws: seq<Widget>, arg: WidgetArg)
    requires |ws| <= MaxWidgets && DistinctIds(ws)
    requires AddError(ws, true, arg).None?
    ensures |ws + [arg.widget]| <= MaxWidgets && DistinctIds(ws + [arg.widget])
  {
    var r := ws + [arg.widget];
    forall i, j | 0 <= i < j < |r| ensures r[i].id != r[j].id {
      assert r[i] == ws[i];
      if j < |ws| {
        assert r[j] == ws[j];
      }
    }
  }

  /** A full dashboard and an uninitialised one refuse every widget. */
  lemma {:induction false} AddRefused(ws: seq<Widget>, initialized: bool, arg: WidgetArg)
    ensures !initialized ==> AddError(ws, initialized, arg) == Some(NotInitialized)
    ensures initialized && |ws| >= MaxWidgets ==> AddError(ws, initialized, arg) == Some(LimitReached)
    ensures AddError(ws, initialized, arg).None? <==>
      initialized && |ws| < MaxWidgets && arg.AnObject? && forall i :: 0 <= i < |ws| ==> ws[i].id != arg.widget.id
  {
  }

  /** Two widgets without an id have the same (`undefined`) id: the second one is refused. */
  lemma {:induction false} SecondIdlessRefused(ws: seq<Widget>, w: Widget, v: Widget)
    requires w.id.None? && v.id.None? && |ws| + 1 < MaxWidgets
    ensures AddError(ws + [w], true, AnObject(v)) == Some(DuplicateId)
  {
    assert (ws + [w])[|ws|].id == v.id;
  }

  class DashboardService {
    var widgets: seq<Widget>
    var layout: string
    var theme: string
    var refreshInterval: int
    var isInitialized: bool

    ghost predicate Valid()
      reads this
    {
      |widgets| <= MaxWidgets && DistinctIds(widgets)
    }

    constructor()
      ensures Valid()
      ensures widgets == [] && layout == "grid" && theme == "light" && refreshInterval == 30000 && !isInitialized
    {
      widgets := [];
      layout := "grid";
      theme := "light";
      refreshInterval := 30000;
      isInitialized := false;
    }

    /** `addWidget`: on success exactly that widget is appended. */
    method AddWidget(arg: WidgetArg) returns (r: Result<Widget, DashboardError>)
      requires Valid()
      modifies this
      ensures Valid()
      ensures r.Err? <==> AddError(old(widgets), isInitialized, arg).Some?
      ensures r.Err? ==> r.error == AddError(old(widgets), isInitialized, arg).value && widgets == old(widgets)
      ensures r.Ok? ==> r == Ok(arg.widget) && widgets == old(widgets) + [arg.widget]
      ensures layout == old(layout) && theme == old(theme) && refreshInterval == old(refreshInterval)
      ensures isInitialized == old(isInitialized)
    {
      if !isInitialized {
        return Err(NotInitialized);
      }
      if |widgets| >= MaxWidgets {
        return Err(LimitReached);
      }
      if arg.NotAnObject? {
        return Err(InvalidWidget);
      }
      var widget := arg.widget;
      var i := 0;
      while i < |widgets|
        invariant 0 <= i <= |widgets|
        invariant forall k :: 0 <= k < i ==> widgets[k].id != widget.id
      {
        if widgets[i].id == widget.id {
          return Err(DuplicateId);
        }
        i := i + 1;
      }
      AddKeepsInvariant(widgets, arg);
      widgets := widgets + [widget];
      return Ok(widget);
    }

    function GetWidgets(): (ws: seq<Widget>)
      reads this
      requires Valid()
      ensures |ws| <= MaxWidgets && DistinctIds(ws)
    {
      widgets
    }

    method SetTheme(t: string) returns (r: string)
      modifies this
      ensures theme == t && r == t
      ensures widgets == old(widgets) && layout == old(layout) && refreshInterval == old(refreshInterval)
      ensures isInitialized == old(isInitialized)
    {
      theme := t;
      return theme;
    }

    function GetTheme(): string
      reads this
    {
      theme
    }

    method SetLayout(l: string) returns (r: string)
      modifies this
      ensures layout == l && r == l
      ensures widgets == old(widgets) && theme == old(theme) && refreshInterval == old(refreshInterval)
      ensures isInitialized == old(isInitialized)
    {
      layout := l;
      return layout;
    }

    method ClearWidgets()
      modifies this
      ensures Valid()
      ensures widgets == []
      ensures layout == old(layout) && theme == old(theme) && refreshInterval == old(refreshInterval)
      ensures isInitialized == old(isInitialized)
    {
      widgets := [];
    }

    method SetRefreshInterval(interval: int) returns (r: int)
      modifies this
      ensures refreshInterval == interval && r == interval
      ensures widgets == old(widgets) && layout == old(layout) && theme == old(theme)
      ensures isInitialized == old(isInitialized)
    {
      refreshInterval := interval;
      return refreshInterval;
    }

    function GetRefreshInterval(): int
      reads this
    {
      refreshInterval
    }

    method Initialize() returns (ok: bool)
      modifies this
      ensures isInitialized && ok
      ensures widgets == old(widgets) && layout == old(layout) && theme == old(theme)
      ensures refreshInterval == old(refreshInterval)
    {
      isInitialized := true;
      return true;
    }

    function IsReady(): bool
      reads this
    {
      isInitialized
    }
  }
}
