# Urban issue dashboard — a Dafny model

This project models the behaviour of a municipal "urban intelligence"
dashboard for Belém. Citizens' reports of urban problems (potholes,
flooding, broken street lights…) are listed, filtered, shown as pins on a
map and supported. New reports go through a three-step wizard, and access
is gated by a passwordless e-mail sign-in.

The modules follow the source files:

| module | source file | what it holds |
|---|---|---|
| `Issues` | `src/app/data/issues.ts` | the issue record, the eight-row mock catalog `ISSUES`, the neighbourhood vocabulary with its "Todos os Bairros" sentinel, and facts about the catalog |
| `IssueList` | `src/app/components/IssueList.tsx` | the three-clause, order-preserving filter; the support toggle; the list panel's state as a class |
| `ReportModal` | `src/app/components/ReportModal.tsx` | the wizard as a state machine on values with its invariant; the component's state fields as a class; the priority-preview band |
| `MapView` | `src/app/components/MapView.tsx` | pin clicks and the popup, the zoom clamp in integer tenths, pin highlighting, the popup's label and days cells; the panel's state as a class |
| `Dashboard` | `src/app/Dashboard.tsx` | which layout shows which panel, the shared selection, the page's state fields, and pin clicks routed through the map panel back to the page |
| `Login` | `src/app/Login.tsx` | `sendMagicLink`, split at its `await` into a submit half and a completion half; the provider's reply is an input |
| `Text`, `Wrappers` | — | lower-casing, substring search, JavaScript whitespace trimming and integer rendering; an `Option` type |

Each stateful component is a class whose fields are the component's
`useState` variables. Each handler is a method that `modifies` the object
and states the new value of every field of the objects it modifies. Where a component's behaviour has an invariant
(the wizard, the zoom), that behaviour is also given as a function on
values, and the invariant and multi-step properties are proved as lemmas
about that function.

## Model

| member | source | states |
|---|---|---|
| `Issues.CatalogIds` | src/app/data/issues.ts:18-155 | the catalog has eight rows with ids 1..8 in order, so ids are pairwise distinct |
| `Issues.CatalogInRange` | src/app/data/issues.ts:18-155 | every row's priority score is in [0,100]; votes, days open and people affected are non-negative |
| `Issues.CatalogNeighborhoods` | src/app/data/issues.ts:157-169 | the vocabulary starts with the "Todos os Bairros" sentinel; every row's neighbourhood is a later entry and never the sentinel |
| `Issues.CatalogResolved` | src/app/data/issues.ts:104-120 | issue 6 is the only resolved row, and a resolved row has 0 days open |
| `Text.LowerIdempotent` | src/app/components/IssueList.tsx:36-38 | lower-casing twice is lower-casing once (lower-casing maps each character, keeping length) |
| `Text.IncludesIff` | src/app/components/IssueList.tsx:36-38 | `includes` holds exactly when the query occurs at some position of the text |
| `Text.TrimBlankIff` | src/app/Login.tsx:14 | `trim()` yields the empty string exactly when the text is all JavaScript whitespace |
| `Text.IntTextRoundTrip` | src/app/components/MapView.tsx:483 | the rendered integer is an optional minus sign and digits that read back as the same integer |
| `IssueList.Filter` | src/app/components/IssueList.tsx:33-50 | an issue is in the result iff it is in the catalog and passes the text, neighbourhood and tab clauses; the result is no longer than the catalog |
| `IssueList.FilterKeepsOrder` | src/app/components/IssueList.tsx:33 | the result is the catalog rows at strictly increasing positions, and exactly the positions whose row matches: no reordering, no duplication |
| `IssueList.FilterKeepsIdsDistinct` | src/app/components/IssueList.tsx:33-50 | filtering a catalog with distinct ids gives rows with distinct ids |
| `IssueList.FilterIdempotent` | src/app/components/IssueList.tsx:33-50 | filtering the filtered rows again with the same selection changes nothing |
| `IssueList.FilterUnrestricted` | src/app/components/IssueList.tsx:33-50 | empty query, "Todos os Bairros" and tab "all" give back the whole catalog |
| `IssueList.FilterNarrowing` | src/app/components/IssueList.tsx:33-50 | when one selection implies another, filtering by the wider then the narrower equals filtering by the narrower, and it is no longer |
| `IssueList.NarrowingExamples` | src/app/components/IssueList.tsx:34-47 | choosing a tab, a neighbourhood or a query never lengthens the list |
| `IssueList.TabGuarantees` | src/app/components/IssueList.tsx:43-47 | "critical" keeps only critical rows, "recurrent" only recurrent ones, "most-voted" only rows with at least 150 votes; "all" imposes nothing |
| `IssueList.SearchIgnoresQueryCase` | src/app/components/IssueList.tsx:34-38 | the text clause gives the same answer for a query and its lower-cased form |
| `IssueList.FilterIgnoresQueryCase` | src/app/components/IssueList.tsx:34-38 | the whole filter gives the same rows for a query and its lower-cased form |
| `IssueList.TabAloneDecides` | src/app/components/IssueList.tsx:33-50 | with no query and every neighbourhood, the result is the catalog filtered by the tab clause alone |
| `IssueList.Ids` | src/app/components/IssueList.tsx:166-170 | the ids of a list of rows, position by position |
| `IssueList.FilterNumbered` | src/app/components/IssueList.tsx:33 | on rows numbered consecutively, a filter keeping exactly the ids of a set yields those ids in ascending order |
| `IssueList.CatalogTabRows` | src/app/components/IssueList.tsx:43-47 | row by row, the critical tab keeps ids {1,2,8}, the recurrent tab {1,2,4,8} and the most-voted tab {1,2,4,7,8} of the shipped catalog |
| `IssueList.CatalogCriticalTab` | src/app/data/issues.ts:18-155 | the "critical" tab shows issues 1, 2, 8 in that order |
| `IssueList.CatalogRecurrentTab` | src/app/data/issues.ts:18-155 | the "recurrent" tab shows issues 1, 2, 4, 8 in that order |
| `IssueList.CatalogMostVotedTab` | src/app/data/issues.ts:18-155 | the "most-voted" tab shows issues 1, 2, 4, 7, 8 in that order |
| `IssueList.Toggle` | src/app/components/IssueList.tsx:52-60 | the toggled id changes membership; every other id keeps its membership |
| `IssueList.ToggleTwice` | src/app/components/IssueList.tsx:52-60 | toggling the same id twice restores the set |
| `IssueList.IssueListView.constructor` | src/app/components/IssueList.tsx:29-31 | starts on tab "all", "Todos os Bairros", nothing supported |
| `IssueList.IssueListView.Visible` | src/app/components/IssueList.tsx:33-50 | the rendered rows: at most the catalog's eight, with distinct ids, and exactly the matching catalog rows |
| `IssueList.IssueListView.SetActiveTab` | src/app/components/IssueList.tsx:103 | a tab button sets the tab and nothing else |
| `IssueList.IssueListView.SetNeighborhood` | src/app/components/IssueList.tsx:141 | the dropdown sets the neighbourhood and nothing else |
| `IssueList.IssueListView.HandleSupport` | src/app/components/IssueList.tsx:52-60 | the support set becomes the toggle of the old one; tab, neighbourhood and every visible row, votes included, are unchanged |
| `ReportModal.Change` | src/app/components/ReportModal.tsx:47-49 | `handleChange` sets the named field to the value and leaves every other field as it was |
| `ReportModal.ChangesCommute` | src/app/components/ReportModal.tsx:47-49 | edits of two different fields commute |
| `ReportModal.ChangeToSameValue` | src/app/components/ReportModal.tsx:47-49 | writing a field's own value back leaves the form unchanged |
| `ReportModal.InitialInv` | src/app/components/ReportModal.tsx:29-39 | the initial wizard (step 1, not submitted, empty texts, urgency high, not anonymous) satisfies the invariant, and its step 1 is not yet valid |
| `ReportModal.NextKeepsInv` | src/app/components/ReportModal.tsx:429-467 | every offered move keeps the step in 1..3, step 1 complete past step 1, the address present on step 3, and a submission only from step 3 |
| `ReportModal.RunKeepsInv` | src/app/components/ReportModal.tsx:429-467 | any sequence of clicks keeps the invariant |
| `ReportModal.SubmittedReportIsComplete` | src/app/components/ReportModal.tsx:51-56 | from the initial state, whatever the clicks, a submitted report is on step 3 with title, category, neighbourhood and address filled in |
| `ReportModal.BackMoves` | src/app/components/ReportModal.tsx:431-439 | Back lowers the step by one above step 1 and does nothing on step 1; the form is kept |
| `ReportModal.ContinueMoves` | src/app/components/ReportModal.tsx:444-446 | Continue advances exactly one step when the current step is valid and changes nothing otherwise |
| `ReportModal.SubmitFinal` | src/app/components/ReportModal.tsx:51-53 | submitting sets only the flag, keeps step and form, and leaves no control offered |
| `ReportModal.ReportWizard.constructor` | src/app/components/ReportModal.tsx:29-39 | the component starts in the initial wizard state, which satisfies the invariant |
| `ReportModal.ReportWizard.HandleChange` | src/app/components/ReportModal.tsx:47-49 | the form becomes the changed form; step and flag are kept; the invariant is kept |
| `ReportModal.ReportWizard.HandleBack` | src/app/components/ReportModal.tsx:431 | the fields move as Back does on values; the invariant is kept |
| `ReportModal.ReportWizard.HandleContinue` | src/app/components/ReportModal.tsx:446 | the fields move as Continue does on values; the invariant is kept |
| `ReportModal.ReportWizard.HandleSubmit` | src/app/components/ReportModal.tsx:51-53 | the fields move as Submit does on values; the invariant is kept |
| `ReportModal.PreviewBand` | src/app/components/ReportModal.tsx:371 | each urgency's band is a non-empty range inside [0,100] |
| `ReportModal.PreviewAgreesWithBand` | src/app/components/ReportModal.tsx:371-383 | the label "85–95" / "65–80" / "40–60" spells the band's bounds, the bar width lies in the band, and more urgent bands lie strictly higher (medium and low share theirs) |
| `ReportModal.CatalogScoresInBand` | src/app/data/issues.ts:18-155 | a catalog row's stored score lies in its urgency's preview band exactly when its urgency is not low |
| `MapView.Press` | src/app/components/MapView.tsx:373-395 | a press keeps the zoom within [0.6, 2]; zoom-in never lowers it below the cap, zoom-out never raises it above the floor |
| `MapView.PressAllStaysReachable` | src/app/components/MapView.tsx:373-395 | any sequence of presses keeps the zoom in range and on the 0.2 grid |
| `MapView.InitialZoomReachable` | src/app/components/MapView.tsx:75 | from the initial factor 1, the zoom always stays within [0.6, 2] |
| `MapView.ZoomInOutUndo` | src/app/components/MapView.tsx:373-384 | away from the bounds, zoom-out undoes zoom-in and conversely; at a bound the button has no effect, and only there |
| `MapView.ZoomOutBottoms` | src/app/components/MapView.tsx:384 | seven zoom-outs from any reachable factor reach 0.6 |
| `MapView.IdOf` | src/app/components/MapView.tsx:79 | `popupIssue?.id`: present exactly when the issue is, and then its id |
| `MapView.PinClickCases` | src/app/components/MapView.tsx:78-85 | clicking the popup's own pin closes it without notifying; any other click opens the popup on that issue and selects it |
| `MapView.TwoClicksClose` | src/app/components/MapView.tsx:78-85 | from no popup, two clicks on one pin open then close it: one selection notice, then silence |
| `MapView.PinSelectedAfterOpen` | src/app/components/MapView.tsx:347 | no pin is enlarged with nothing selected and no popup; a pin whose click opens the popup is enlarged |
| `MapView.CatalogOnePinSelected` | src/app/components/MapView.tsx:340-349 | on the catalog, selecting an issue enlarges exactly its own pin |
| `MapView.StatusLabelsDistinct` | src/app/components/MapView.tsx:28-33 | the status labels Aberta / Em Análise / Encaminhada / Resolvida are pairwise different, so the popup's status names the status |
| `MapView.SeverityLabelsDistinct` | src/app/components/MapView.tsx:465 | the urgency badges Crítico / Alto / Médio / Baixo are pairwise different, so the badge names the urgency |
| `MapView.DaysCellShows` | src/app/components/MapView.tsx:483 | the days cell reads "Resolvida" exactly for resolved issues; otherwise it is the day count followed by "d", and reads back as that count |
| `MapView.MapPanel.constructor` | src/app/components/MapView.tsx:74-76 | heat map on, zoom 1, no popup |
| `MapView.MapPanel.HandlePinClick` | src/app/components/MapView.tsx:78-85 | popup and notice are those of a pin click; zoom and heat map are kept |
| `MapView.MapPanel.ClosePopup` | src/app/components/MapView.tsx:450 | the close button hides the popup and notifies an empty selection |
| `MapView.MapPanel.PressZoom` | src/app/components/MapView.tsx:373-395 | the zoom becomes the pressed value and stays in range |
| `MapView.MapPanel.ToggleHeatmap` | src/app/components/MapView.tsx:127 | the heat-map flag flips; nothing else changes |
| `MapView.ClickTwice` | src/app/components/MapView.tsx:78-85 | on a fresh panel, two clicks on one pin leave the popup closed |
| `Dashboard.PanelsShown` | src/app/Dashboard.tsx:124-148 | the list shows in split and list, the map in split and map; every layout shows a panel and only split shows both |
| `Dashboard.SelectedIssueId` | src/app/Dashboard.tsx:142 | `selectedIssue?.id ?? null`: absent exactly when nothing is selected, else the selected id |
| `Dashboard.ListAndMapAgree` | src/app/Dashboard.tsx:138-159 | with no popup, a row is highlighted iff its pin is; an open popup enlarges only its own pin in addition |
| `Dashboard.DashboardPage.constructor` | src/app/Dashboard.tsx:14-18 | light theme, empty search, modal closed, no selection, split layout |
| `Dashboard.DashboardPage.ToggleDark` | src/app/Dashboard.tsx:43 | the theme flag flips; nothing else changes |
| `Dashboard.DashboardPage.SetSearch` | src/app/Dashboard.tsx:45 | the search text is replaced; nothing else changes |
| `Dashboard.DashboardPage.SetView` | src/app/Dashboard.tsx:89 | the layout is replaced; no other page field changes |
| `Dashboard.DashboardPage.OpenReport` | src/app/Dashboard.tsx:195 | the report modal's flag is set |
| `Dashboard.DashboardPage.CloseReport` | src/app/Dashboard.tsx:212 | the report modal's flag is cleared |
| `Dashboard.DashboardPage.SelectFromList` | src/app/Dashboard.tsx:141 | a row click selects that issue |
| `Dashboard.DashboardPage.TakeMapNotice` | src/app/Dashboard.tsx:158 | a map notice replaces the selection; silence keeps it |
| `Dashboard.DashboardPage.ClickPin` | src/app/Dashboard.tsx:155-159 | a pin click that opens the popup selects the issue and highlights it in both panels; one that closes it keeps the selection; zoom, heat map, theme, search, modal flag and layout are kept |
| `Dashboard.DashboardPage.ClosePinPopup` | src/app/components/MapView.tsx:450 | closing the popup clears both popup and selection, so no pin stays enlarged; zoom, heat map, theme, search, modal flag and layout are kept |
| `Dashboard.ToggleDarkTwice` | src/app/Dashboard.tsx:43 | two presses of the theme switch restore the theme and leave every other page field as it was |
| `Login.SubmitCases` | src/app/Login.tsx:12-24 | a blank e-mail is refused with "Digite seu email." without calling the provider or touching loading and sent; any other e-mail is sent untrimmed with loading set and the error cleared |
| `Login.SendOutcome` | src/app/Login.tsx:10-32 | whatever the reply, loading ends false; acceptance sets sent with no error; a rejection shows its message or "Não foi possível enviar o link." and keeps sent |
| `Login.ErrorShownAfterFailure` | src/app/Login.tsx:14-59 | a refusal always shows the error box; a rejection shows it unless its message is the empty text |
| `Login.LoginForm.constructor` | src/app/Login.tsx:5-8 | empty e-mail, not loading, not sent, no error |
| `Login.LoginForm.SetEmail` | src/app/Login.tsx:50 | the e-mail is replaced; nothing else changes |
| `Login.LoginForm.Submit` | src/app/Login.tsx:10-24 | fields and request are those of the submit half |
| `Login.LoginForm.Complete` | src/app/Login.tsx:25-31 | fields are those of the completion half; the button is enabled again |
| `Login.SignIn` | src/app/Login.tsx:10-32 | on a fresh form, a non-blank e-mail that the provider accepts ends sent, not loading, with no error, the e-mail sent as typed |

## Left out

- Lower-casing covers ASCII letters only. JavaScript's `toLowerCase` also folds accented capitals such as "Á"; the model leaves them unchanged.
- The photo URL of each issue, colours, styles, animations and SVG map geometry are left out. They do not affect behaviour.
- The `METRICS` constant and the Header and MetricsPanel components are left out. They only print fixed numbers, including the float 6.2.
- `App.tsx` (session plumbing around the authentication client) is not part of this model.
- The network calls are left out: the sign-in request and `signOut` on logout. In Login only the provider's reply is modelled, as an input. Logout is not modelled.
- Zoom is kept in integer tenths. The source's floating-point factor drifts slightly (for example 1.4 + 0.2 gives 1.5999999999999999 in IEEE-754 arithmetic); only the clamp bounds and the 0.2 grid are modelled. In the source, five zoom-ins from 1 give 1.9999999999999998, so a sixth press is needed to reach 2, and seven zoom-outs from 2 give 0.6000000000000003 rather than 0.6 (the clamp only catches the eighth). `MapView.ZoomOutBottoms` and `MapView.ZoomInOutUndo` are therefore statements about the tenths model, not about the floating-point factor.
- The random protocol number on the success screen and `toLocaleString` formatting are left out.
- No priority score is computed anywhere in the source; each row stores a constant. The preview band is modelled as displayed.
- Supporting an issue does not change its vote count in the source, and the model follows the code. `HandleSupport` states that every visible row, votes included, is unchanged.
- Status lifecycle ordering: the source enforces no order of status transitions, so none is modelled.
- React semantics are left out: re-rendering, a component's state being discarded when it unmounts (the modal's, and the list's or the map's on a layout change, below), and the asynchronous interleaving of other events with a pending sign-in. `Login.LoginForm.Complete` requires a pending request, because the reply arrives only after a submit.
- Dashboard.DashboardPage.SetView: does not model that a layout hiding the list or the map unmounts that panel, so its own state starts afresh when it is shown again: the list's tab, neighbourhood and supported issues (src/app/components/IssueList.tsx:29-31) and the map's heat map, zoom and popup (src/app/components/MapView.tsx:74-76). The page does not own the panel objects in this model; `SetView` states only the page's own fields.
- The report wizard's select boxes offer fixed category and neighbourhood lists (src/app/components/ReportModal.tsx:9-26). The model lets `handleChange` receive any text, as its signature does.
- The report wizard's handlers are modelled only while their controls are drawn: edits of the current step's fields, and Back, Continue or Submit before submission. A click on a control that is not on screen is modelled as doing nothing (`ReportModal.Run`).
- The issue list's result count text, the row's "d aberta" counter and the "Apoiar"/"Apoiado" button text are not modelled.
- `IssueList.CatalogCriticalTab`, `IssueList.CatalogRecurrentTab` and `IssueList.CatalogMostVotedTab` are stated on the tab clause alone. `IssueList.TabAloneDecides` proves that this equals the full filter with an empty query and "Todos os Bairros".
