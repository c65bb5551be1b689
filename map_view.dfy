/**
 * The map panel: a pin per catalog issue, a popup for the clicked issue,
 * zoom buttons and a heat-map switch.
 *
 * Zoom is kept in integer tenths: the component's factor 1 is 10 here,
 * its step 0.2 is 2 and its bounds 0.6 and 2 are 6 and 20.
 */
module MapView {
  import opened Wrappers
  import opened Issues
  import opened Text

  const ZOOM_MIN := 6
  const ZOOM_MAX := 20
  const ZOOM_STEP := 2
  const ZOOM_RESET := 10

  datatype ZoomButton = ZoomIn | ZoomOut | ZoomReset

  function Min(a: int, b: int): int { if a <= b then a else b }
  function Max(a: int, b: int): int { if a >= b then a else b }

  /** The zoom after pressing one of the three zoom buttons. */
  function Press(zoom: int, button: ZoomButton): (r: int)
    ensures ZOOM_MIN <= zoom <= ZOOM_MAX ==> ZOOM_MIN <= r <= ZOOM_MAX
    ensures button == ZoomIn ==> r >= Min(zoom, ZOOM_MAX)
    ensures button == ZoomOut ==> r <= Max(zoom, ZOOM_MIN)
  {
    match button
    case ZoomIn => Min(zoom + ZOOM_STEP, ZOOM_MAX)
    case ZoomOut => Max(zoom - ZOOM_STEP, ZOOM_MIN)
    case ZoomReset => ZOOM_RESET
  }

  /** A zoom the buttons can produce from the initial one: in range, an even number of tenths. */
  predicate ZoomReachable(zoom: int) {
    ZOOM_MIN <= zoom <= ZOOM_MAX && zoom % 2 == 0
  }

  /** The zoom after a sequence of presses. */
  function PressAll(zoom: int, buttons: seq<ZoomButton>): int
    decreases |buttons|
  {
    if buttons == [] then zoom else PressAll(Press(zoom, buttons[0]), buttons[1..])
  }

  /** From the initial factor, any sequence of presses stays within [0.6, 2] on the 0.2 grid. */
  lemma {:induction false} PressAllStaysReachable(zoom: int, buttons: seq<ZoomButton>)
    requires ZoomReachable(zoom)
    ensures ZoomReachable(PressAll(zoom, buttons))
    decreases |buttons|
  {
    if buttons != [] {
      PressAllStaysReachable(Press(zoom, buttons[0]), buttons[1..]);
    }
  }

  lemma InitialZoomReachable(buttons: seq<ZoomButton>)
    ensures ZOOM_MIN <= PressAll(ZOOM_RESET, buttons) <= ZOOM_MAX
  {
    PressAllStaysReachable(ZOOM_RESET, buttons);
  }

  /** Below the top, zooming out undoes zooming in; above the bottom, the converse. */
  lemma ZoomInOutUndo(zoom: int)
    requires ZoomReachable(zoom)
    ensures zoom < ZOOM_MAX ==> Press(Press(zoom, ZoomIn), ZoomOut) == zoom
    ensures zoom > ZOOM_MIN ==> Press(Press(zoom, ZoomOut), ZoomIn) == zoom
    ensures zoom == ZOOM_MAX <==> Press(zoom, ZoomIn) == zoom
    ensures zoom == ZOOM_MIN <==> Press(zoom, ZoomOut) == zoom
  {
  }

  /** Seven presses of zoom-out from anywhere reach the smallest factor. */
  lemma ZoomOutBottoms(zoom: int)
    requires ZoomReachable(zoom)
    ensures PressAll(zoom, [ZoomOut, ZoomOut, ZoomOut, ZoomOut, ZoomOut, ZoomOut, ZoomOut]) == ZOOM_MIN
  {
  }

  /** `popupIssue?.id`: the id of an optional issue. */
  function IdOf(issue: Option<Issue>): (r: Option<int>)
    ensures r.Some? <==> issue.Some?
    ensures issue.Some? ==> r.value == issue.value.id
  {
    match issue
    case None => None
    case Some(i) => Some(i.id)
  }

  /** What the panel reports to its parent through `onSelectIssue`. */
  datatype Notice = Silent | Notify(selection: Option<Issue>)

  /** A pin click: closes the popup on its own issue, otherwise opens it and selects the issue. */
  function PinClick(popup: Option<Issue>, issue: Issue): (Option<Issue>, Notice) {
    if IdOf(popup) == Some(issue.id) then (None, Silent)
    else (Some(issue), Notify(Some(issue)))
  }

  /**
   * Clicking the popup's own pin closes the popup and selects nothing new;
   * clicking any other pin, or a pin while no popup is open, shows that
   * issue and selects it.
   */
  lemma PinClickCases(popup: Option<Issue>, issue: Issue)
    ensures popup.Some? && popup.value.id == issue.id ==> PinClick(popup, issue) == (None, Silent)
    ensures (popup.None? || popup.value.id != issue.id) ==>
      PinClick(popup, issue).0 == Some(issue) && PinClick(popup, issue).1 == Notify(Some(issue))
  {
  }

  /** Two clicks on one pin, from a closed popup, close it again. */
  lemma TwoClicksClose(issue: Issue)
    ensures PinClick(PinClick(None, issue).0, issue).0 == None
    ensures PinClick(None, issue).1 == Notify(Some(issue))
    ensures PinClick(PinClick(None, issue).0, issue).1 == Silent
  {
    var first := PinClick(None, issue).0;
    assert IdOf(first) == Some(issue.id);
  }

  /** A pin is drawn enlarged when its issue is the selected one or the one in the popup. */
  predicate IsPinSelected(pin: Issue, selected: Option<Issue>, popup: Option<Issue>) {
    IdOf(selected) == Some(pin.id) || IdOf(popup) == Some(pin.id)
  }

  /**
   * With nothing selected and no popup, no pin is enlarged; after a click
   * that opens a popup, and once the parent has taken the notified
   * selection, the clicked pin is enlarged.
   */
  lemma PinSelectedAfterOpen(popup: Option<Issue>, pin: Issue, issue: Issue)
    ensures !IsPinSelected(pin, None, None)
    ensures PinClick(popup, issue).1.Notify? ==>
      IsPinSelected(issue, PinClick(popup, issue).1.selection, PinClick(popup, issue).0)
  {
  }

  /** On the catalog, ids tell pins apart: a chosen issue enlarges exactly its own pin. */
  lemma CatalogOnePinSelected(chosen: Issue)
    requires chosen in ISSUES
    ensures forall pin :: pin in ISSUES ==> (IsPinSelected(pin, Some(chosen), None) <==> pin == chosen)
  {
    CatalogIds();
    forall pin | pin in ISSUES
      ensures IsPinSelected(pin, Some(chosen), None) <==> pin == chosen
    {
      var i :| 0 <= i < |ISSUES| && ISSUES[i] == pin;
      var j :| 0 <= j < |ISSUES| && ISSUES[j] == chosen;
      assert pin.id == chosen.id ==> i == j;
    }
  }

  /** The popup's status text. */
  function StatusLabel(s: Status): string {
    match s
    case Open => "Aberta"
    case InAnalysis => "Em Análise"
    case Forwarded => "Encaminhada"
    case Resolved => "Resolvida"
  }

  /** The popup's urgency badge. */
  function SeverityLabel(s: Severity): string {
    match s
    case Critical => "Crítico"
    case High => "Alto"
    case Medium => "Médio"
    case Low => "Baixo"
  }

  /** Different statuses read differently. */
  lemma StatusLabelsDistinct(s1: Status, s2: Status)
    ensures StatusLabel(s1) == StatusLabel(s2) <==> s1 == s2
  {
  }

  /** Different urgency levels read differently. */
  lemma SeverityLabelsDistinct(v1: Severity, v2: Severity)
    ensures SeverityLabel(v1) == SeverityLabel(v2) <==> v1 == v2
  {
  }

  /** The popup's "days open" cell. */
  function DaysCell(issue: Issue): string {
    if issue.status == Resolved then "Resolvida" else IntText(issue.daysOpen) + "d"
  }

  /**
   * The cell says "Resolvida" exactly for a resolved issue, and then agrees
   * with the status cell; otherwise it is a number followed by "d" that
   * reads back as the day count.
   */
  lemma DaysCellShows(issue: Issue)
    ensures DaysCell(issue) == "Resolvida" <==> issue.status == Resolved
    ensures issue.status == Resolved ==> DaysCell(issue) == StatusLabel(issue.status)
    ensures issue.status != Resolved ==>
      var cell := DaysCell(issue);
      |cell| >= 2 && cell[|cell| - 1] == 'd' && IsIntText(cell[..|cell| - 1])
      && IntValue(cell[..|cell| - 1]) == issue.daysOpen
  {
    if issue.status != Resolved {
      var cell := DaysCell(issue);
      assert cell[..|cell| - 1] == IntText(issue.daysOpen);
      IntTextRoundTrip(issue.daysOpen);
      assert cell[|cell| - 1] == 'd' != "Resolvida"[8];
    }
  }

  /** The map panel's state fields. */
  class MapPanel {
    var showHeatmap: bool
    var zoom: int
    var popupIssue: Option<Issue>

    ghost predicate Valid()
      reads this
    {
      ZoomReachable(zoom)
    }

    constructor ()
      ensures showHeatmap && zoom == ZOOM_RESET && popupIssue == None
      ensures Valid()
    {
      showHeatmap := true;
      zoom := ZOOM_RESET;
      popupIssue := None;
    }

    /** `handlePinClick`; the notice is the call made to `onSelectIssue`, if any. */
    method HandlePinClick(issue: Issue) returns (notice: Notice)
      modifies this
      ensures (popupIssue, notice) == PinClick(old(popupIssue), issue)
      ensures zoom == old(zoom) && showHeatmap == old(showHeatmap)
    {
      if IdOf(popupIssue) == Some(issue.id) {
        popupIssue := None;
        notice := Silent;
      } else {
        popupIssue := Some(issue);
        notice := Notify(Some(issue));
      }
    }

    /** The popup's close button: hides the popup and clears the selection. */
    method ClosePopup() returns (notice: Notice)
      modifies this
      ensures popupIssue == None && notice == Notify(None)
      ensures zoom == old(zoom) && showHeatmap == old(showHeatmap)
    {
      popupIssue := None;
      notice := Notify(None);
    }

    /** One of the three zoom buttons. */
    method PressZoom(button: ZoomButton)
      requires Valid()
      modifies this
      ensures zoom == Press(old(zoom), button)
      ensures popupIssue == old(popupIssue) && showHeatmap == old(showHeatmap)
      ensures Valid()
    {
      match button
      case ZoomIn =>
        zoom := if zoom + ZOOM_STEP <= ZOOM_MAX then zoom + ZOOM_STEP else ZOOM_MAX;
      case ZoomOut =>
        zoom := if zoom - ZOOM_STEP >= ZOOM_MIN then zoom - ZOOM_STEP else ZOOM_MIN;
      case ZoomReset =>
        zoom := ZOOM_RESET;
    }

    /** The heat-map button. */
    method ToggleHeatmap()
      modifies this
      ensures showHeatmap == !old(showHeatmap)
      ensures zoom == old(zoom) && popupIssue == old(popupIssue)
    {
      showHeatmap := !showHeatmap;
    }
  }

  /** Clicking the same pin twice on a fresh panel leaves the popup closed. */
  method ClickTwice(issue: Issue) returns (panel: MapPanel, first: Notice, second: Notice)
    ensures panel.popupIssue == None
    ensures first == Notify(Some(issue)) && second == Silent
  {
    panel := new MapPanel();
    first := panel.HandlePinClick(issue);
    second := panel.HandlePinClick(issue);
    TwoClicksClose(issue);
  }
}
