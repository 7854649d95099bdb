# hike-spotlight core, modelled in Dafny

This project models the application logic of hike-spotlight, a web app for browsing hiking
routes and organising group events. It covers four parts:

- **The route query engine.** `filterRoutes`, `sortRoutes`, `paginateRoutes`,
  `getCountries`, `getRegionsByCountry` and `formatDuration` over the `Route` and
  `RouteFilters` records. It also covers the routes page that chains filter → sort →
  paginate and shows a window of page numbers.
- **The filter state kept in the URL and the filter editors.**
  - `useRouteFilters` stores every filter, the sort and the page in a string→string
    parameter map, modelled as `map<string, string>`.
  - The editors are the difficulty chips, the multi-select, the duration presets, the range
    slider, the country/region selects and the active-filter chips.
- **The event-creation wizard.** A state machine over steps 1..5 that skips the route step
  for activities without routes. It has a per-step gate on Continue, a display-step
  mapping and a draft kept in local storage. The progress indicator and the cover-photo
  step (file screening, upload naming, storage-key extraction) belong to it.
- **Small index and counter machines.** The hero carousel, the swipeable route stack, the
  grouping of events by date, and the seat and remaining-count arithmetic of the detail
  view.

Code that mutates state in place becomes a Dafny `class` whose methods state the whole new
state. These are the wizard (`CreateEventModal.Wizard`), the cover editor
(`EventDescriptionStep.CoverEditor`), the carousel (`HeroCarousel.Carousel`) and the
swipe stack (`SwipeableRouteStack.Stack`). Code written as loops becomes methods with
loop invariants: the `forEach` of `updateFilters` and the `forEach` of
`groupEventsByDate`. Runs of guarded statements become methods whose intermediate states
are asserted: the ten `if`s of `activeFilterCount` and the ten guarded pushes of the
chip builder. Code written as expressions becomes functions and lemmas.

JavaScript behaviour the components rely on is written out in the module `JsText`:

- `String(n)` and `Number(s)` on integers;
- `split`, `join`, `slice` with negative indices, `indexOf`, `trim` (with the JavaScript
  whitespace set), `pop()` after `split`;
- the default `sort()` string order;
- `[...new Set(xs)]`.

Optional values (`T | undefined`, `T | null`) are `Wrappers.Option`.

## Model

| member | source | states |
|---|---|---|
| RouteTypes.DifficultiesListEveryGradeOnce | src/types/route.ts:56 | `DIFFICULTIES` has six entries. It lists every grade of the union at line 1 once, in order, and entry i has code "T(i+1)". |
| RouteTypes.TagListsListEveryTagOnce | src/types/route.ts:53-55 | `FACILITIES`, `HIGHLIGHTS` and `FEATURES` each hold every member of their union (lines 4-6) exactly once (4, 4 and 3 entries). |
| RouteTypes.RouteTypesListEveryTypeOnce | src/types/route.ts:57-61 | `ROUTE_TYPES` has one entry per route type of line 2, with pairwise distinct values. So the label lookup always finds a label. |
| RouteTypes.DifficultyLabelsTotal | src/types/route.ts:63-70 | Every grade has a label, and each label begins with its grade's code. |
| RouteTypes.SortOptionsEight | src/types/route.ts:43-51 | There are exactly eight sort options, with pairwise distinct codes. |
| RouteTypes.CodesRoundTrip | src/types/route.ts:1-51 | Every enumeration code reads back as its own value. Tag and grade codes are non-empty and comma-free, so they survive a comma-joined URL value. |
| RouteTypes.ParseSortOption | src/hooks/useRouteFilters.ts:24 | Text that is not a sort code reads as relevance. Any other result has exactly that code. |
| RouteUtils.FilterRoutes | src/lib/routeUtils.ts:14-38 | The kept routes are exactly the input routes that pass every defined filter, each kept as many times as it occurs in the input. There are never more of them than of the input. |
| RouteUtils.FilterIsSubsequence | src/lib/routeUtils.ts:14-38 | The filtered list is a subsequence of the input: the order is kept. |
| RouteUtils.FilterInactiveIsIdentity | src/lib/routeUtils.ts:14-38 | With every filter field absent, empty text or an empty list, the input comes back unchanged. |
| RouteUtils.KeptRouteSatisfiesEachFilter | src/lib/routeUtils.ts:16-34 | A kept route:<br>• equals the given country, region and route type;<br>• has its difficulty in a non-empty difficulty list;<br>• lies within every defined bound, inclusively;<br>• shares a tag with each non-empty tag list. |
| RouteUtils.RouteSatisfyingEveryFilterIsKept | src/lib/routeUtils.ts:16-36 | The converse: a route of the input that meets every defined filter is kept. |
| RouteUtils.StableSortCorrect | src/lib/routeUtils.ts:40-65 | The insertion sort on a numeric rank returns a permutation that is ordered by rank. For every rank, the routes with that rank keep their input order (stability). |
| RouteUtils.SortRoutesCorrect | src/lib/routeUtils.ts:40-65 | `sortRoutes` returns a permutation of its argument:<br>• relevance keeps the input order;<br>• `*_asc` gives non-decreasing keys;<br>• `*_desc` and `recent` give non-increasing keys (a missing `created_at` counts as 0);<br>• routes with equal keys keep their input order. |
| RouteUtils.CeilDivBounds | src/lib/routeUtils.ts:78 | `Math.ceil(n / perPage)` is the least page count whose pages hold n routes. It is zero exactly for no routes. |
| RouteUtils.PaginateRoutesCorrect | src/lib/routeUtils.ts:68-81 | For page ≥ 1 and perPage ≥ 1:<br>• the slice is exactly the routes at indices [(page−1)·perPage, page·perPage) that exist, at most perPage of them;<br>• totalCount is the length;<br>• totalPages is ⌈length/perPage⌉;<br>• the slice is empty exactly when page > totalPages. |
| RouteUtils.PagesConcatenate | src/lib/routeUtils.ts:73-74 | The first k pages, concatenated, are the prefix of the list of length min(k·perPage, length). |
| RouteUtils.AllPagesAreTheList | src/lib/routeUtils.ts:68-81 | Pages 1..totalPages, concatenated, give back the whole list. |
| RouteUtils.GetCountriesCorrect | src/lib/routeUtils.ts:6-8 | The countries are strictly ascending in the default string order (so duplicate-free). They are exactly the countries of the routes. |
| RouteUtils.GetRegionsByCountryCorrect | src/lib/routeUtils.ts:10-12 | The regions are strictly ascending. They are exactly the regions of the routes in that country. |
| RouteUtils.JsRem | src/lib/routeUtils.ts:89 | JavaScript's `%` truncates: the remainder takes the sign of the dividend and is smaller than the divisor in size. |
| RouteUtils.FormatDurationShapes | src/lib/routeUtils.ts:87-93 | For minutes ≥ 0, `formatDuration` gives:<br>• "Mmin" below an hour;<br>• "Hh" on a whole hour;<br>• "Hh Mmin" otherwise. |
| RouteUtils.FormatDurationRoundTrip | src/lib/routeUtils.ts:87-93 | For minutes ≥ 0, reading the text back gives the minutes again. So no two durations share a text. |
| UseRouteFilters.ParamKeysCorrect | src/hooks/useRouteFilters.ts:110-121 | `getParamKey`:<br>• renames exactly the six range keys and `route_type`, and is the identity on every other key;<br>• gives distinct filter keys distinct parameter names;<br>• never gives `page` or `sort`. |
| UseRouteFilters.ParamKeyValues | src/hooks/useRouteFilters.ts:111-119 | The parameter name of each filter key (`dist_min` … `type`). |
| UseRouteFilters.ParamKeyInverse | src/hooks/useRouteFilters.ts:110-121 | The parameter a key is written to is the one it is read from at lines 9-21. |
| UseRouteFilters.UpdateFilters | src/hooks/useRouteFilters.ts:27-47 | For each name, the new map holds the last update's effect on that name:<br>• an absent value or an empty list deletes the parameter;<br>• a list stores it comma-joined;<br>• any other value stores `String(value)`.<br>`page` is deleted, and names no update touches keep their value. |
| UseRouteFilters.UpdateKeepsSortResetsPage | src/hooks/useRouteFilters.ts:24-43 | After `updateFilters` the sort reads the same as before and the page reads 1. |
| UseRouteFilters.SetSort | src/hooks/useRouteFilters.ts:49-60 | The sort reads back as the new option. `sort` is stored exactly for a non-relevance option and `page` is deleted. Nothing else changes. |
| UseRouteFilters.SetPage | src/hooks/useRouteFilters.ts:62-72 | `page` is stored exactly for p > 1, and the page reads back as p, or as 1 for p ≤ 1. Nothing else changes. |
| UseRouteFilters.ClearFilters | src/hooks/useRouteFilters.ts:74-76 | The map is empty: no filter, relevance sort, page 1. |
| UseRouteFilters.ClearFilter | src/hooks/useRouteFilters.ts:78-80 | Only the key's parameter and `page` are deleted. The filters read back with exactly that field absent. |
| UseRouteFilters.ParseCodesRoundTrip | src/hooks/useRouteFilters.ts:11-20 | Reading back the codes of a list gives the list. |
| UseRouteFilters.ListRoundTrip | src/hooks/useRouteFilters.ts:11-36 | A list written through `updateFilters` reads back as the same list. An empty list reads back as absent. |
| UseRouteFilters.NumberRoundTrip | src/hooks/useRouteFilters.ts:12-38 | A bound written as `String(n)` reads back as n. |
| UseRouteFilters.RouteTypeRoundTrip | src/hooks/useRouteFilters.ts:21 | A route type written under `type` (lines 38 and 118) reads back as itself. |
| UseRouteFilters.WriteThenRead | src/hooks/useRouteFilters.ts:8-40 | Writing a whole filter record and reading the map back gives the record with empty texts and empty lists made absent. |
| UseRouteFilters.ActiveFilterCount | src/hooks/useRouteFilters.ts:82-95 | The count is the number of active groups, at most 10. It is zero exactly when every filter is absent or empty. |
| UseRouteFilters.ActiveGroupsDistinct | src/hooks/useRouteFilters.ts:84-93 | Each of the ten groups counts at most once. A group counts exactly when it is active (a range group when either bound is defined, a list group when non-empty). |
| UseRouteFilters.NoActiveGroupIffInactive | src/hooks/useRouteFilters.ts:82-95 | No active group exactly when the filter record is inactive, the same notion under which `filterRoutes` keeps everything. |
| ActiveFilterChips.BuildChips | src/components/routes/ActiveFilterChips.tsx:13-51 | The ten guarded pushes build exactly one chip per active group, in the fixed group order. |
| ActiveFilterChips.ChipsMatchActiveGroups | src/components/routes/ActiveFilterChips.tsx:13-53 | There are as many chips as `activeFilterCount`. Chip i carries the key of active group i, and chip keys are pairwise distinct. Something is rendered exactly when some filter is active. |
| ActiveFilterChips.ChipKeyInjective | src/components/routes/ActiveFilterChips.tsx:16-50 | Distinct groups carry distinct chip keys. |
| ActiveFilterChips.RangeLabelDefaults | src/components/routes/ActiveFilterChips.tsx:24-37 | A range chip shows 0 for a missing lower bound and ∞ for a missing upper bound. |
| ActiveFilterChips.RouteTypeChipLabel | src/components/routes/ActiveFilterChips.tsx:48-50 | The route-type chip shows the `ROUTE_TYPES` label of the chosen type. |
| ActiveFilterChips.RangeChipRemovalKeepsUpperBound | src/components/routes/ActiveFilterChips.tsx:24-28 | As written: a distance chip carries the key `distance_min`, which its remove button (line 65) clears. With an upper bound set, clearing that key leaves the distance group active. |
| ActiveFilterChips.RangeChipRemovalCounterexample | src/pages/routes/index.tsx:69 | With the parameters {dist_max: "20"}, the distance chip is shown and its own remove button leaves it active. |
| ActiveFilterChips.WithoutGroupDeactivates | src/components/routes/ActiveFilterChips.tsx:15-51 | Clearing a whole group switches off that group and no other. |
| ActiveFilterChips.ClearChip | src/components/routes/ActiveFilterChips.tsx:65 | Corrected removal: the chip's key and, for a range chip, its upper key are deleted, along with `page`. The active groups afterwards are the old ones with exactly that group taken out. |
| RoutesPage.CountIsFilteredCount | src/pages/routes/index.tsx:33-60 | The count shown is the number of filtered routes, not the page length. totalPages is ⌈count/12⌉ and a page shows at most 12 routes. |
| RoutesPage.ShownRoutesPassFilters | src/pages/routes/index.tsx:38-43 | Every route on the page comes from the data and passes the URL's filters. |
| RoutesPage.FoundTextPlural | src/pages/routes/index.tsx:60 | "1 route found" for one route, "N routes found" otherwise. |
| RoutesPage.EmptyStateExactlyPastTheData | src/pages/routes/index.tsx:74-87 | For a page number ≥ 1, the empty-state panel shows exactly when the page number exceeds the page count, and always when no route matches. |
| RoutesPage.ShowsChipRow | src/pages/routes/index.tsx:67-71 | The chip row shows exactly when `activeFilterCount > 0`, which is exactly when some filter is active. |
| RoutesPage.PageNumbers | src/pages/routes/index.tsx:98 | The list holds n numbers: a number is in it exactly when it is between 1 and n, and the list strictly ascends, so each page appears once and in order. |
| RoutesPage.PageWindowCorrect | src/pages/routes/index.tsx:98 | For 1 ≤ page ≤ totalPages the window is the ascending run max(1, page−2)..min(totalPages, page+2). It has one to five entries and contains the page. |
| RoutesPage.PageWindowInRange | src/pages/routes/index.tsx:98 | Every number in the window is a real page, and the numbers strictly ascend. |
| RoutesPage.GoToNext | src/pages/routes/index.tsx:90-111 | Where the bar shows Next (more than one page, page < totalPages), Next moves to page+1. A URL page of 0 or below reads as 1 afterwards, since `setPage` deletes `page` for values ≤ 1. Filters and sort stay as they were. |
| RoutesPage.GoToPrevious | src/pages/routes/index.tsx:90-97 | Where the bar shows Previous (more than one page, page > 1), Previous moves to page−1. Filters and sort stay as they were. |
| MultiSelect.RemoveCorrect | src/components/routes/MultiSelect.tsx:21 | The filter removes every occurrence and keeps the count and order of every other value. |
| MultiSelect.ToggleFlips | src/components/routes/MultiSelect.tsx:19-25 | Toggling flips the option's membership and no other:<br>• a present option is removed with the rest kept in order;<br>• an absent option is appended at the end. |
| MultiSelect.ToggleTwiceRestores | src/components/routes/MultiSelect.tsx:19-25 | Toggling an absent option twice restores the list. |
| MultiSelect.ToggleKeepsDistinct | src/components/routes/MultiSelect.tsx:19-25 | A duplicate-free selection stays duplicate-free. |
| MultiSelect.ClickFlipsOneButton | src/components/routes/MultiSelect.tsx:31-38 | One button per option, in order, pressed exactly when selected. Clicking one flips that button only. |
| DifficultyChips.ChipsShowEveryGrade | src/components/routes/DifficultyChips.tsx:31-38 | Six chips T1..T6 in order. Every grade appears, pressed exactly when selected. |
| DifficultyChips.ClickFlipsOnlyThatChip | src/components/routes/DifficultyChips.tsx:21-38 | Clicking chip k flips chip k and leaves the other five as they were. |
| DifficultyChips.ToggleDifficultyTwice | src/components/routes/DifficultyChips.tsx:21-27 | Toggling an unselected grade twice restores the list. Toggling keeps a duplicate-free list duplicate-free. |
| DurationChips.OptionsTileTheDurations | src/components/routes/DurationChips.tsx:9-14 | The four presets have distinct bounds, open outer ends and contiguous edges (each min is the previous max), with min < max. |
| DurationChips.AtMostOnePressed | src/components/routes/DurationChips.tsx:9-19 | At most one preset is pressed, and none with no bounds set. |
| DurationChips.ClickFlipsThePressedChip | src/components/routes/DurationChips.tsx:17-27 | A click flips that preset's pressed state:<br>• a pressed preset reports no bounds;<br>• any other reports its own bounds. |
| DurationChips.ClickTwiceFromNoRange | src/components/routes/DurationChips.tsx:21-27 | From no bounds, two clicks on one preset return to no bounds. |
| DurationChips.ClickPressesOnlyThatChip | src/components/routes/DurationChips.tsx:17-38 | Clicking an unpressed preset leaves it the only pressed one. |
| RangeSlider.ChangeThenDisplay | src/components/routes/RangeSlider.tsx:29-38 | Whatever ends the slider reports are the ends it then displays. |
| RangeSlider.DisplayThenChange | src/components/routes/RangeSlider.tsx:29-38 | Feeding the displayed ends back gives the value with a bound-equal end made absent. That normalisation is idempotent and keeps any other defined end. |
| RangeSlider.EndsIndependent | src/components/routes/RangeSlider.tsx:35-36 | The lower end depends only on `min`, and the upper end is absent exactly when it equals `max`. |
| RangeSlider.UnsetShowsFullSpan | src/components/routes/RangeSlider.tsx:29-47 | An unset range displays and captions the full span from min to max. The caption separator is the three characters the file holds, U+00E2 U+20AC U+201C. |
| DependentSelect.CountryChoiceClearsRegion | src/components/routes/DependentSelect.tsx:29-37 | Any country choice clears the region:<br>• `__all__` clears the country too and disables the region select;<br>• a concrete country is kept. |
| DependentSelect.ChoiceIsShown | src/components/routes/DependentSelect.tsx:39-85 | Picking item k of a select makes the select show item k. A region choice keeps the country. |
| DependentSelect.ShownChoiceKeepsValue | src/components/routes/DependentSelect.tsx:29-72 | Re-choosing the shown item changes nothing, up to empty text reading as unset. |
| CreateEventTypes.GetStepsForActivity | src/components/create-event/types.ts:37-40 | The step count is 4 or 5. It is 4 exactly for a chosen activity without routes. |
| CreateEventTypes.GetStepIndex | src/components/create-event/types.ts:42-55 | The step comes back unchanged on both branches, with total = `getStepsForActivity`. |
| CreateEventTypes.RouteActivities | src/components/create-event/types.ts:1-40 | `ACTIVITIES_WITH_ROUTES` holds hiking, cycling and climbing, distinct. Five steps for no activity or those; four for skiing, bouldering and social. |
| CreateEventTypes.ActivityCodesDistinct | src/components/create-event/types.ts:1-7 | Distinct activities have distinct codes. |
| ProgressIndicator.Classify | src/components/create-event/ProgressIndicator.tsx:14-20 | A marker is current iff s = currentStep, complete iff s < currentStep, pending iff s > currentStep. |
| ProgressIndicator.MarkerCounts | src/components/create-event/ProgressIndicator.tsx:11-20 | Counts of each marker class over 1..totalSteps, for any current step. |
| ProgressIndicator.OneCurrentMarker | src/components/create-event/ProgressIndicator.tsx:11-20 | For 1 ≤ current ≤ total:<br>• `total` markers;<br>• exactly one current (at the current step);<br>• current−1 complete;<br>• total−current pending. |
| ProgressIndicator.CaptionReadsBack | src/components/create-event/ProgressIndicator.tsx:26 | The caption "c/t" splits at '/' into the two numbers, which parse back to c and t. |
| CreateEventModal.SaveThenLoad | src/components/create-event/CreateEventModal.tsx:47-76 | A saved draft reads back and rebuilds the same form data, the date included. |
| CreateEventModal.CanContinueCases | src/components/create-event/CreateEventModal.tsx:190-205 | The Continue gate:<br>• step 1 needs an activity;<br>• step 3 needs a date and a non-empty time;<br>• step 4 needs a name that is not blank after `trim()`;<br>• steps 2 and 5 always pass;<br>• any other step never passes. |
| CreateEventModal.ContinueThenBack | src/components/create-event/CreateEventModal.tsx:98-134 | From steps 1–4 with the gate open, Continue moves to the next step on the activity's path. It enters step 2 only for route activities, and Back returns to the starting step. |
| CreateEventModal.BackStaysOnPath | src/components/create-event/CreateEventModal.tsx:103-112 | Back stays on the activity's path:<br>• it is a no-op at step 1;<br>• otherwise it moves to the previous step on the path (3 → 1 without routes). |
| CreateEventModal.DisplayStepIsPosition | src/components/create-event/CreateEventModal.tsx:177-214 | The displayed step is the position of the internal step on the activity's path, so 1 ≤ display ≤ `getStepsForActivity`. |
| CreateEventModal.Wizard.constructor | src/components/create-event/CreateEventModal.tsx:28-62 | Opening starts at step 1, with a stored draft replacing the defaults when one parses. |
| CreateEventModal.Wizard.SaveDraft | src/components/create-event/CreateEventModal.tsx:69-76 | The draft is written exactly while an activity is chosen. Nothing else changes. |
| CreateEventModal.Wizard.LoadDraft | src/components/create-event/CreateEventModal.tsx:47-62 | A stored draft that parses replaces the form data. One that does not leaves it as it was. |
| CreateEventModal.Wizard.Reopen | src/components/create-event/CreateEventModal.tsx:47-62 | Reopening reloads the draft at step 1. |
| CreateEventModal.Wizard.Close | src/components/create-event/CreateEventModal.tsx:78-84 | Close opens the unsaved-changes dialog exactly when an activity is chosen, and otherwise closes. |
| CreateEventModal.Wizard.ContinueEditing | src/components/create-event/CreateEventModal.tsx:94-96 | The dialog hides and nothing else changes. |
| CreateEventModal.Wizard.Discard | src/components/create-event/CreateEventModal.tsx:86-92 | The draft is removed, the form data reset, the step set to 1, the dialog hidden, and the wizard closed. |
| CreateEventModal.Wizard.Back | src/components/create-event/CreateEventModal.tsx:103-112 | The step becomes `BackFrom(step)`. Nothing else changes. |
| CreateEventModal.Wizard.Continue | src/components/create-event/CreateEventModal.tsx:117-134 | With the gate open (the button at line 303):<br>• steps 1–4 move to the next step on the path;<br>• step 5 discards. |
| CreateEventModal.Wizard.SelectActivity | src/components/create-event/CreateEventModal.tsx:137-139 | Only the activity changes, and the draft is written. |
| CreateEventModal.Wizard.SelectRoute | src/components/create-event/CreateEventModal.tsx:141-143 | Only `routeId` changes. The draft follows. |
| CreateEventModal.Wizard.ChangeDate | src/components/create-event/CreateEventModal.tsx:145-147 | Only `date` changes. The draft follows. |
| CreateEventModal.Wizard.ChangeTime | src/components/create-event/CreateEventModal.tsx:149-151 | Only `time` changes. The draft follows. |
| CreateEventModal.Wizard.ChangeEventName | src/components/create-event/CreateEventModal.tsx:153-155 | Only `eventName` changes. The draft follows. |
| CreateEventModal.Wizard.ChangeMaxParticipants | src/components/create-event/CreateEventModal.tsx:157-159 | Only `maxParticipants` changes. The draft follows. |
| CreateEventModal.Wizard.ChangeDescription | src/components/create-event/CreateEventModal.tsx:161-163 | Only `description` changes. The draft follows. |
| CreateEventModal.Wizard.ChangeAddDisclaimer | src/components/create-event/CreateEventModal.tsx:165-167 | Only `addDisclaimer` changes. The draft follows. |
| CreateEventModal.Wizard.ChangeCoverPhoto | src/components/create-event/CreateEventModal.tsx:169-171 | Only `coverPhotoUrl` changes. The draft follows. |
| EventDescriptionStep.ScreenOrder | src/components/create-event/EventDescriptionStep.tsx:41-55 | A non-image type is rejected before the size is looked at. An image passes exactly when it is at most 5 MiB: exactly 5 MiB passes and one byte more does not. |
| EventDescriptionStep.UploadPathShape | src/components/create-event/EventDescriptionStep.tsx:61-63 | The upload path is "covers/" + stem + "." + the text after the name's last '.' (the whole name when it has none). |
| EventDescriptionStep.UploadPathSlash | src/components/create-event/EventDescriptionStep.tsx:61-63 | For a slash-free stem and name, the path's only '/' is the one after "covers". |
| EventDescriptionStep.UploadPathHasNoMarker | src/components/create-event/EventDescriptionStep.tsx:103-106 | For a slash-free stem and name, the upload path built at lines 61-63 does not contain "/event-photos/". |
| EventDescriptionStep.RemoveDeletesUploadedObject | src/components/create-event/EventDescriptionStep.tsx:98-111 | For a URL path of the form prefix + "/event-photos/" + upload path (built at lines 61-63), the key extracted on removal is exactly the uploaded path. |
| EventDescriptionStep.CoverEditor.ClearDescription | src/components/create-event/EventDescriptionStep.tsx:32-34 | The description becomes "". Nothing else changes. |
| EventDescriptionStep.CoverEditor.HandleFileChange | src/components/create-event/EventDescriptionStep.tsx:40-96 | A screened-out file changes nothing. Otherwise one upload of `UploadPath` is attempted, and the cover changes only on success. `isUploading` is false afterwards. |
| EventDescriptionStep.CoverEditor.HandleRemovePhoto | src/components/create-event/EventDescriptionStep.tsx:98-118 | With no cover, nothing happens. Otherwise it deletes the key after "/event-photos/" when that marker is there, and none otherwise, and always ends with the cover null. |
| HeroCarousel.StepsAreRotations | src/components/HeroCarousel.tsx:182-190 | Next and previous stay in [0, n), and equal (current ± 1) mod n. |
| HeroCarousel.NextPreviousInverse | src/components/HeroCarousel.tsx:182-190 | Next and previous undo each other. |
| HeroCarousel.NextTimesAdvances | src/components/HeroCarousel.tsx:187-190 | Below the end, k nexts advance by k. |
| HeroCarousel.FullCircle | src/components/HeroCarousel.tsx:187-190 | n nexts return to the starting slide. |
| HeroCarousel.Carousel.PreviousClick | src/components/HeroCarousel.tsx:182-185 | Moves to the previous slide, wrapping from 0 to the last. |
| HeroCarousel.Carousel.NextClick | src/components/HeroCarousel.tsx:187-190 | Moves to the next slide, wrapping from the last to 0. |
| HeroCarousel.Carousel.SlideClick | src/components/HeroCarousel.tsx:192-196 | Moves to slide i. Nothing changes when i is already current. |
| SwipeableRouteStack.ViewCases | src/components/routes/SwipeableRouteStack.tsx:192-216 | The empty state shows exactly when no route is at the index. Otherwise the front card is that route and a back card shows exactly when a route follows. |
| SwipeableRouteStack.Stack.SetIndex | src/components/routes/SwipeableRouteStack.tsx:185-190 | The index becomes the new one, and the end signal fires exactly when it is ≥ length − 1. |
| SwipeableRouteStack.Stack.DragEnd | src/components/routes/SwipeableRouteStack.tsx:58-69 | A drag:<br>• below −100 advances the index by one and fires swipe-left;<br>• above 100 advances it and fires swipe-right;<br>• otherwise changes nothing.<br>The swipe reports grow by one past the threshold and by none within it. |
| SwipeableRouteStack.OneDragOneSwipe | src/components/routes/SwipeableRouteStack.tsx:58-69 | What a drag past the threshold appends (the end report when the stack runs out, then one swipe) holds exactly one swipe report. `Stack.DragEnd` uses it for its swipe count. |
| UseEvents.FormatEventTimeCuts | src/hooks/useEvents.ts:43-45 | The first five characters, or the whole text when shorter: "06:45:00" gives "06:45". |
| UseEvents.GroupEventsByDate | src/hooks/useEvents.ts:48-60 | The keys are the distinct dates in order of first appearance. The group under a date is the events on that date, in input order. |
| UseEvents.GroupMembers | src/hooks/useEvents.ts:51-57 | A group holds exactly the events with its date, as a subsequence of the input. |
| UseEvents.NoEmptyGroup | src/hooks/useEvents.ts:53-56 | No key maps to an empty group. |
| UseEvents.GroupsPartitionEvents | src/hooks/useEvents.ts:48-60 | The groups together are a permutation of the input, so the sizes sum to its length. Each event is in no group but its date's. |
| ParticipantsSection.SeatArithmetic | src/components/detail-view/ParticipantsSection.tsx:18-44 | Free seats are capacity − sign-ups, negative when overbooked. Placeholders:<br>• there are min(free, 4), never more than 4;<br>• they are shown exactly when seats are free. |
| ParticipantsSection.AvatarRow | src/components/detail-view/ParticipantsSection.tsx:32-53 | At most six avatars, the first six in order. Avatar i falls back to the i-th capital letter. The join button shows exactly when `onJoin` is given. |
| DiscussionSection.MoreButton | src/components/detail-view/DiscussionSection.tsx:21-59 | remaining = total − shown when a non-zero total is given, else 0. The "+N comments" button shows exactly when that is positive. |
| DiscussionSection.RowsFollowComments | src/components/detail-view/DiscussionSection.tsx:28-47 | One row per comment, in order, falling back to the author's first character ("" for an empty name). |
| PastEventsSection.MoreButton | src/components/detail-view/PastEventsSection.tsx:20-47 | The "View N more events" button shows exactly when a given non-zero total exceeds the events listed, and names the difference. |
| PastEventsSection.RowsFollowEvents | src/components/detail-view/PastEventsSection.tsx:27-37 | One row per event, in order, under its title. |
| PastEventsSection.DetailReadsBack | src/components/detail-view/PastEventsSection.tsx:35-37 | A row's line "date · N participants" splits at '·' into two pieces, "date " and " N participants". The text of the second piece between its leading space and " participants" parses back to N. |

## Left out

- Numbers are integers. Fractional distances, `toFixed`, `formatDistance` and `formatElevation` are not modelled.
- `Number(text)` is modelled as `ParseInt` on integer text (an optional minus sign and digits). Text that JavaScript reads as NaN, or accepts in other forms ("1e3", " 7 "), reads as absent here. In the source a NaN bound filters nothing but still counts as an active group.
- Unknown enumeration codes in the URL: the source casts them unchecked, and an unknown `type` then rejects every route. The model drops codes that name no member.
- `getParamKey` is only applied to `RouteFilters` field names. Inherited object property names such as `toString` are not modelled.
- `paginateRoutes` with perPage ≤ 0 or page ≤ 0 is outside the stated contracts. The slice itself is the JavaScript one, with negative starts counting from the end.
- RoutesPage.EmptyStateExactlyPastTheData: stated for a page number ≥ 1 only. A URL page of 0 or below (`Number("-3") || 1` is -3) cuts the JavaScript slice from the end, and the lemma does not describe what that page shows.
- Strings are sequences of Unicode code points, while JavaScript counts UTF-16 code units. So string order is by code point, and there is no locale collation. `charAt(0)` (the discussion author's initial), `slice` (`formatEventTime`'s `slice(0, 5)`, the avatar and page slices) and `length` also count code points. For text with a character outside the Basic Multilingual Plane, such as an emoji, the source can show half of a surrogate pair where the model shows the whole character.
- `created_at` is a number of milliseconds or absent. Date-string parsing is not modelled.
- `getRouteBySlug` and the bundled route data are not part of this model: the routes are a parameter.
- ActiveFilterChips.BuildChips: the ten pushes are split into three helper methods only to keep each proof small. Together they do what the one function does.
- Dates in the wizard are epoch milliseconds, and their ISO text is modelled as the decimal text of that number. `new Date` of unparseable text (Invalid Date) reads as no date.
- Local storage holds either a well-formed JSON draft or other text. A JSON draft of another shape, or with missing fields, is not modelled.
- The clock (`nextSaturday`), the random part and `Date.now` of the upload name, and the URL parser are parameters.
- The storage upload, `getPublicUrl` and remove calls are not modelled; their outcomes are parameters (`uploadOk`, `publicUrl`, `pathname`). The form of the public URL path is a requirement of `RemoveDeletesUploadedObject`, not a proved fact.
- Toasts, console output, animations, the carousel's pointer-tracking parallax and drag physics are not modelled.
- SwipeableRouteStack.Stack.DragEnd: drag offsets are integers, and the exit animation is reduced to the recorded exit direction.
- SwipeableRouteStack.Stack: optional callbacks are logged as if always given.
- RangeSlider: a custom `formatValue` is not modelled. The caption uses the default `String`.
- CreateEventModal.Wizard.LoadDraft: the loaded draft REPLACES the form data, as the code does, and is not merged over the defaults.
- CreateEventModal.Wizard.Continue: the final step only discards, as the code does. No event is submitted.
- CreateEventModal.Wizard: `onClose` is modelled as the parent turning `open` off.
- DependentSelect: a country or region literally named "__all__" cannot be chosen, as in the source.
- DependentSelect: a country choice fires two callbacks (set the country, clear the region), and the model applies them one after the other to one place. On the routes page each becomes its own functional `setSearchParams` call in the same handler. Whether the router applies the second to the result of the first is router behaviour, and the router is not part of this model.
- The Supabase queries in useEvents (`useEvents`, `useUpcomingEvents`) and `formatEventDate`, which depends on the locale, are not modelled.
- The static demo arrays of the other discussion section (src/components/event-details/DiscussionSection.tsx) are not part of this model.

## Findings

| source | as written | input that shows it | evidently intended | confidence | as-written member | corrected member |
|---|---|---|---|---|---|---|
| src/components/routes/ActiveFilterChips.tsx:24-28 | A range chip carries only its lower key (`distance_min`, `duration_min`, `elevation_min`). Its remove button (line 65) hands that key to `clearFilter` (src/pages/routes/index.tsx, line 69). So a range set only by its upper bound keeps its chip. | URL parameters `{dist_max: "20"}`: the "Distance: 0–20 km" chip's remove button deletes `dist_min`, and the chip stays. | Removing a range chip clears both bounds of that range. | not executed | ActiveFilterChips.RangeChipRemovalCounterexample | ActiveFilterChips.ClearChip |
