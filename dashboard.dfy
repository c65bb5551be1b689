/**
 * The dashboard page: which panels a layout shows, the selection shared
 * by the issue list and the map, the dark-mode switch and the report
 * modal's flag.
 */
module Dashboard {
  import opened Wrappers
  import opened Issues
  import MapView

  /** The three layouts: list and map side by side, list alone, map alone. */
  datatype View = Split | ListOnly | MapOnly

  /** The issue list is drawn in the split and list layouts. */
  predicate ShowsList(v: View) {
    v == Split || v == ListOnly
  }

  /** The map is drawn in the split and map layouts. */
  predicate ShowsMap(v: View) {
    v == Split || v == MapOnly
  }

  /** Every layout shows some panel; only the split layout shows both. */
  lemma PanelsShown(v: View)
    ensures ShowsList(v) || ShowsMap(v)
    ensures ShowsList(v) && ShowsMap(v) <==> v == Split
    ensures !ShowsList(v) <==> v == MapOnly
    ensures !ShowsMap(v) <==> v == ListOnly
  {
  }

  /** `selectedIssue?.id ?? null`: the id handed to the issue list. */
  function SelectedIssueId(selected: Option<Issue>): (r: Option<int>)
    ensures r == None <==> selected == None
    ensures selected.Some? ==> r == Some(selected.value.id)
  {
    MapView.IdOf(selected)
  }

  /** A row of the issue list is highlighted when its id is the handed id. */
  predicate IsRowSelected(issue: Issue, selectedIssueId: Option<int>) {
    selectedIssueId == Some(issue.id)
  }

  /**
   * The list and the map agree on the selection: with no popup open, an
   * issue's row is highlighted exactly when its pin is, and an open popup
   * only adds its own pin.
   */
  lemma ListAndMapAgree(selected: Option<Issue>, popup: Option<Issue>, issue: Issue)
    ensures IsRowSelected(issue, SelectedIssueId(selected)) <==> MapView.IsPinSelected(issue, selected, None)
    ensures MapView.IsPinSelected(issue, selected, popup) <==>
      IsRowSelected(issue, SelectedIssueId(selected)) || MapView.IdOf(popup) == Some(issue.id)
  {
  }

  /** The page's state fields. */
  class DashboardPage {
    var darkMode: bool
    var searchQuery: string
    var showReportModal: bool
    var selectedIssue: Option<Issue>
    var view: View

    constructor ()
      ensures !darkMode && searchQuery == "" && !showReportModal
      ensures selectedIssue == None && view == Split
    {
      darkMode := false;
      searchQuery := "";
      showReportModal := false;
      selectedIssue := None;
      view := Split;
    }

    /** The header's dark-mode switch. */
    method ToggleDark()
      modifies this
      ensures darkMode == !old(darkMode)
      ensures searchQuery == old(searchQuery) && showReportModal == old(showReportModal)
      ensures selectedIssue == old(selectedIssue) && view == old(view)
    {
      darkMode := !darkMode;
    }

    /** The header's search box. */
    method SetSearch(query: string)
      modifies this
      ensures searchQuery == query
      ensures darkMode == old(darkMode) && showReportModal == old(showReportModal)
      ensures selectedIssue == old(selectedIssue) && view == old(view)
    {
      searchQuery := query;
    }

    /** One of the three layout buttons. */
    method SetView(v: View)
      modifies this
      ensures view == v
      ensures darkMode == old(darkMode) && searchQuery == old(searchQuery)
      ensures showReportModal == old(showReportModal) && selectedIssue == old(selectedIssue)
    {
      view := v;
    }

    /** The floating "report" button. */
    method OpenReport()
      modifies this
      ensures showReportModal
      ensures darkMode == old(darkMode) && searchQuery == old(searchQuery)
      ensures selectedIssue == old(selectedIssue) && view == old(view)
    {
      showReportModal := true;
    }

    /** The modal's `onClose`. */
    method CloseReport()
      modifies this
      ensures !showReportModal
      ensures darkMode == old(darkMode) && searchQuery == old(searchQuery)
      ensures selectedIssue == old(selectedIssue) && view == old(view)
    {
      showReportModal := false;
    }

    /** The issue list's `onSelectIssue`: a row click selects its issue. */
    method SelectFromList(issue: Issue)
      modifies this
      ensures selectedIssue == Some(issue)
      ensures darkMode == old(darkMode) && searchQuery == old(searchQuery)
      ensures showReportModal == old(showReportModal) && view == old(view)
    {
      selectedIssue := Some(issue);
    }

    /** The map's `onSelectIssue`: a notice replaces the selection, silence keeps it. */
    method TakeMapNotice(notice: MapView.Notice)
      modifies this
      ensures selectedIssue == (if notice.Notify? then notice.selection else old(selectedIssue))
      ensures darkMode == old(darkMode) && searchQuery == old(searchQuery)
      ensures showReportModal == old(showReportModal) && view == old(view)
    {
      if notice.Notify? {
        selectedIssue := notice.selection;
      }
    }

    /**
     * A click on a map pin, through the map panel and back to the page: if
     * the popup opens, the clicked issue becomes the selection and is
     * highlighted in both panels; if it closes, the selection stays.
     */
    method ClickPin(panel: MapView.MapPanel, issue: Issue)
      modifies this, panel
      ensures MapView.IdOf(old(panel.popupIssue)) == Some(issue.id) ==>
        panel.popupIssue == None && selectedIssue == old(selectedIssue)
      ensures MapView.IdOf(old(panel.popupIssue)) != Some(issue.id) ==>
        && panel.popupIssue == Some(issue) && selectedIssue == Some(issue)
        && IsRowSelected(issue, SelectedIssueId(selectedIssue))
        && MapView.IsPinSelected(issue, selectedIssue, panel.popupIssue)
      ensures panel.zoom == old(panel.zoom) && panel.showHeatmap == old(panel.showHeatmap)
      ensures darkMode == old(darkMode) && searchQuery == old(searchQuery)
      ensures showReportModal == old(showReportModal) && view == old(view)
    {
      var notice := panel.HandlePinClick(issue);
      TakeMapNotice(notice);
    }

    /** The popup's close button, through the map panel and back to the page. */
    method ClosePinPopup(panel: MapView.MapPanel)
      modifies this, panel
      ensures panel.popupIssue == None && selectedIssue == None
      ensures forall pin :: !MapView.IsPinSelected(pin, selectedIssue, panel.popupIssue)
      ensures panel.zoom == old(panel.zoom) && panel.showHeatmap == old(panel.showHeatmap)
      ensures darkMode == old(darkMode) && searchQuery == old(searchQuery)
      ensures showReportModal == old(showReportModal) && view == old(view)
    {
      var notice := panel.ClosePopup();
      TakeMapNotice(notice);
    }
  }

  /** Two presses of the dark-mode switch restore the theme and change nothing else. */
  method ToggleDarkTwice(page: DashboardPage)
    modifies page
    ensures page.darkMode == old(page.darkMode)
    ensures page.searchQuery == old(page.searchQuery) && page.showReportModal == old(page.showReportModal)
    ensures page.selectedIssue == old(page.selectedIssue) && page.view == old(page.view)
  {
    page.ToggleDark();
    page.ToggleDark();
  }
}
