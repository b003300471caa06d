# Metal-finder field app: a Dafny model of its core logic

The app is a single-page web tool for metal-detecting surveys. A user keeps surveys of recorded finds ("targets"), with one survey Open at a time. A compass screen smooths the device heading and points an arrow at the selected target. It shows an eight-way direction label and the distance, and vibrates near the target. Each target keeps a list of photos, paged through a lightbox, and the data can be replaced by importing a JSON file.

`script.js` holds two almost identical copies of the app (lines 2-838 and 839-1505), and both run. The model describes the logic once, as the first copy writes it. A `Copy` parameter (`copies.dfy`) selects the behaviour where the copies differ:
- only the first copy gates navigation on the compass screen;
- the import check differs: `Array.isArray` in the first copy, truthiness in the second;
- the Next-target guards differ but give the same index (proved as `Targets.NextGuardsAgree`).

Files and modules:

- `js_number.dfy` (`JsNumber`): JavaScript numbers and operators.
  - A finite double is an exact real, kept apart from NaN and the infinities.
  - JavaScript's truncating `%` (`Rem`, `RemInt`) is set beside Euclid's remainder, along with congruence modulo m.
- `heading.dfy` (`Heading`): `getScreenRotationDeg` and `handleOrientation`.
  - How an orientation event becomes a heading sample.
  - The six-sample window, and the circular mean over it.
  - The class `HeadingFilter`, which holds `headingSamples` and `smoothedHeading` and updates them in place.
- `navigation.dfy` (`Navigation`): the readout of `updateNavImmediate`.
  - The relative angle and the direction label.
  - The guards that decide whether an update runs, and the vibration rule.
- `surveys.dfy` (`Surveys`): the survey records and `getOpenSurvey`.
  - `setOnlyOpen`, `createSurvey`, `surveyAction` and the Close Survey button.
  - The target actions (Navigate, Delete) and the First/Prev/Next/Last selector buttons.
  - All of these run on the class `SurveyStore`, which holds `data.surveys` and `selectedTargetId`.
- `survey_list.dfy` (`SurveyList`): the grouping `renderSurveys` draws. Open, Closed and archived surveys, each sorted newest first.
- `targets.dfy` (`Targets`): `findIndex` over a target list, the index arithmetic of the selector buttons, and the target filter used by Delete.
- `lightbox.dfy` (`Lightbox`): a target's photo list (`ImageList`) and the lightbox that pages through it.
  - The lightbox holds the target's own list object, so a photo deleted or replaced through the lightbox leaves the target's list.
- `data_import.dfy` (`DataImport`): the check the Import button applies to a parsed file, in each copy.
- `wrappers.dfy` (`Wrappers`) and `seqs.dfy` (`Seqs`): the `Option` type, and two sequence facts the list filters share.

The trigonometry takes distance, bearing, cos, sin and atan2 as given functions. `atan2` is only known to return a value in [-180,180].

## Model

| member | source | states |
|---|---|---|
| JsNumber.Rem | script.js:614 | JavaScript `%` on finite values: the result keeps the sign of the dividend, lies strictly within one divisor of 0, and is congruent to the dividend |
| JsNumber.RemInt | script.js:526-530 | `%` on integers: for a non-negative dividend it equals Euclid's remainder and lies in [0,n); for a negative one it lies in (-n,0] and is minus Euclid's remainder of the dividend's magnitude, as truncation toward zero gives |
| JsNumber.FloorMod | script.js:614 | Euclid's remainder lies in [0,m) and is congruent to x modulo m |
| Heading.WrapDegrees | script.js:614 | `((a % 360) + 360) % 360` lies in [0,360) and is congruent to a modulo 360, for every finite a |
| Heading.RawScreenAngle | script.js:611-613 | the angle is `screen.orientation.angle` when that is a number, else `window.orientation` when that is, else 0 |
| Heading.ScreenRotationDeg | script.js:610-615 | the screen rotation is finite exactly when the chosen angle is; it then lies in [0,360), is congruent to that angle and equals its wrap; the angle is `screen.orientation.angle`, else `window.orientation`, else 0 |
| Heading.AlphaHeading | script.js:623 | the alpha-path heading lies in [0,360) and is congruent to -(alpha + rot) modulo 360 |
| Heading.AlphaPath | script.js:621-623 | on doubles the alpha-path heading is finite exactly when alpha and the rotation are, and is then the real-valued alpha heading |
| Heading.DeclinationStep | script.js:627 | the declination step stays within (-360,360) and is congruent to h + decl; it lies in [0,360) when h + decl + 360 is not negative, and in (-360,0] when it is |
| Heading.EventHeading | script.js:618-624 | the heading is null exactly when neither field is a number, and a numeric iOS field is taken as it is, whatever alpha is |
| Heading.NormaliseAsWritten | script.js:617-627 | as written, a sample is pushed exactly when the heading is not null and not NaN; the sample is NaN exactly when the heading is infinite, and otherwise lies in (-360,360) |
| Heading.Normalise | script.js:617-627 | an event with neither field numeric gives no sample; any sample lies in (-360,360). This is the corrected guard, which also drops infinite headings |
| Heading.NormaliseCompassPath | script.js:619-627 | a numeric `webkitCompassHeading` decides alone, whatever alpha is: the sample exists exactly when it is finite, is congruent to it plus the declination, and lies in [0,360) when that sum is above -360 |
| Heading.AlphaSample | script.js:621-627 | the alpha-path sample is congruent to decl - alpha - screen angle modulo 360, and lies in [0,360) for any declination from -360 up |
| Heading.NormaliseAlphaPath | script.js:621-625 | without the iOS field, the sample exists exactly when alpha and the screen angle are finite, and is then the alpha-path sample |
| Heading.NormaliseAgreesWhenFinite | script.js:625-627 | the corrected and the as-written guard give the same sample whenever the corrected one accepts; they differ only on an infinite iOS heading, where the code as written pushes NaN |
| Heading.InfiniteCompassHeadingBecomesNaN | script.js:619-627 | an iOS event with heading +Infinity pushes NaN as written; the corrected guard drops it |
| Heading.Slide | script.js:629-630 | push then shift past six: from a window of at most six, the result is the last six of the window followed by the new sample; it ends with the new one and keeps only earlier samples before it |
| Heading.WindowIsLastSix | script.js:629-630 | after any sequence of accepted samples, the window is exactly the last min(n, 6) of them in arrival order, holds at most six, and ends with the newest |
| Heading.SumVectors | script.js:632-637 | the accumulation loop returns the sums of cos and sin over the window, oldest first |
| Heading.CircularMean | script.js:638 | the smoothed heading lies in [0,360) and is congruent to atan2 of the summed vectors, in degrees |
| Heading.HeadingFilter.constructor | script.js:87-88 | the filter starts with an empty window and a smoothed heading of 0 |
| Heading.HeadingFilter.HandleOrientation | script.js:617-641 | an unusable event changes neither the window nor the smoothed heading. A usable one slides its sample into the window and recomputes the circular mean of the new window. The window always equals the last six accepted samples, each within (-360,360), and the smoothed heading stays in [0,360) |
| Navigation.RelativeAngle | script.js:655 | rel is congruent to brg - h modulo 360, and lies in [-180,180) when both inputs lie in [0,360) |
| Navigation.DirectionLabel | script.js:661-669 | the direction chain always yields one of the eight labels: for no angle does it leave `direction` empty |
| Navigation.DirectionMatchesSector | script.js:661-669 | the direction chain gives every real angle a non-empty label, and gives the label of a sector exactly on that sector's span; so the eight sectors cover the line without overlap |
| Navigation.BoundaryLabels | script.js:655-669 | the tie-breaks: ±10 is Straight ahead, 45/90/135 are Slight right/Right/Sharp right, -45/-90/-135 are Slight left/Left/Sharp left, ±180 is Behind you; bearing 100 at heading 90 is Straight ahead and 101 is Slight right |
| Navigation.Proceeds | script.js:645-649 | when the guards pass there is an Open survey, a non-empty selected id, and a target of that survey carrying the id |
| Navigation.NavUpdate | script.js:644-673 | the update runs exactly when an Open survey, a truthy selection, a position fix and the selected target are present (and, in the first copy, the compass screen shows). Its readout then uses that target's distance and bearing, the relative angle, and that angle's label. It vibrates exactly when vibration is available and the distance is under 4 m |
| Navigation.CopiesDifferOnlyInScreenGate | script.js:645 | the first copy's update is the second copy's on the compass screen, and nothing elsewhere |
| Navigation.VibratesOnEveryUpdateNearby | script.js:672 | with vibration available, every update that runs vibrates exactly when the distance is under 4 m: nothing latches after the first alert |
| Targets.IndexOf | script.js:735 | `findIndex` by the selected id: the first position with that id, or -1 when nothing is selected or no target has it |
| Targets.IndexOfUnique | script.js:735 | with unique ids, looking up a target's own id finds its position |
| Targets.PrevIndex | script.js:736 | Prev moves to the previous index, and wraps to the last from the first position or from no match |
| Targets.NextIndex | script.js:743 | Next moves to the next index, and wraps to 0 from the last position or from no match |
| Targets.NextIndexSecondCopy | script.js:1416 | the second copy's Next index always lies within the target list |
| Targets.NextGuardsAgree | script.js:1416 | the second copy's Next guard gives the first copy's index for every result `findIndex` can return |
| Targets.NextAndPrevAreInverse | script.js:733-746 | with unique ids, Next then Prev, and Prev then Next, come back to the selected target |
| Targets.WithoutTarget | script.js:396 | the filter keeps only targets without the id, keeps every such target, and shortens the list exactly when the id is present |
| Targets.WithoutTargetCounts | script.js:396 | each target without the id is kept as often as the list holds it; no target with the id is kept |
| Targets.WithoutTargetAppend | script.js:396 | filtering a concatenation gives the filtered parts concatenated, so kept targets stay in list order |
| Targets.WithoutTargetSingle | script.js:396 | a single target is dropped exactly when it carries the id |
| Surveys.OpenIndex | script.js:117-119 | `getOpenSurvey` finds the first survey that is Open and not archived, or reports that none is |
| Surveys.OpenIndexFindsTheOpenSurvey | script.js:117-119 | when at most one survey is open, `getOpenSurvey` finds that one |
| Surveys.SurveyIndex | script.js:200-201 | `findIndex` by survey id: the first survey with the id, or -1 |
| Surveys.WithOnlyOpen | script.js:120-124 | the updated list has the same length, and a survey's status is Open in it exactly when it carries the id |
| Surveys.SetOnlyOpenEffect | script.js:120-124 | `setOnlyOpen(id)` makes the surveys with the id Open and turns every other Open survey Closed. Other statuses and all other fields are unchanged |
| Surveys.SetOnlyOpenLeavesOneOpen | script.js:120-124 | with unique ids, after `setOnlyOpen(id)` at most one survey is open, and a non-archived survey with the id is the open one |
| Surveys.SetOnlyOpenNullClosesAll | script.js:126 | `setOnlyOpen(null)` leaves no survey with status Open |
| Surveys.ReplacingByNotOpenKeepsAtMostOneOpen | script.js:215-233 | closing, archiving or restoring a survey keeps at most one survey open |
| Surveys.RemovingKeepsAtMostOneOpen | script.js:237 | deleting a survey keeps at most one survey open |
| Surveys.SurveyStore.constructor | script.js:5-6 | the store starts with the loaded surveys and no selected target (`selectedTargetId = null`, script.js:74) |
| Surveys.SurveyStore.SetOnlyOpen | script.js:120-124 | the in-place loop leaves the survey list as `setOnlyOpen` specifies and does not touch the selection |
| Surveys.SurveyStore.CreateSurvey | script.js:125-139 | the list becomes the old list with every Open survey closed, plus the new survey. The new survey is Open, unarchived and empty, named by the given name or else the fallback. Afterwards it is the only open survey, and ids stay unique if the new id is fresh |
| Surveys.SurveyStore.CloseOpenSurvey | script.js:280-288 | without an open survey or without confirmation nothing changes; otherwise the open survey becomes Closed, and no survey is left open when at most one was |
| Surveys.SurveyStore.Act | script.js:196-243 | each survey button acts on the first survey with the id. Open, Close, Archive, Restore and confirmed Delete each give their exact new list; an unknown id, View or an unconfirmed Delete change nothing. Every command keeps at most one survey open (Open needs unique ids) |
| Surveys.SurveyStore.GoToTarget | script.js:384-391 | Navigate selects the id exactly when the open survey holds a target with it |
| Surveys.SurveyStore.DeleteTarget | script.js:382-401 | a confirmed Delete of a target the open survey holds removes every target with that id and clears a selection of it; otherwise nothing changes, and the selection never changes to anything but none |
| Surveys.SurveyStore.SelectFirst | script.js:727-732 | First selects the first target of the open survey, and does nothing when it has none |
| Surveys.SurveyStore.SelectPrev | script.js:733-739 | Prev selects the target before the selected one, wrapping to the last, and does nothing without targets |
| Surveys.SurveyStore.SelectNext | script.js:740-746 | Next selects the target after the selected one, wrapping to the first, and does nothing without targets |
| Surveys.SurveyStore.SelectLast | script.js:747-752 | Last selects the last target of the open survey, and does nothing when it has none |
| SurveyList.GroupOf | script.js:144-146 | a survey passes at most one of the three group filters; GroupOf names it (archived first) and is none exactly for an unlisted survey |
| SurveyList.Members | script.js:144-146 | a group's filter keeps only surveys of that group, and keeps each survey of the group exactly as often as the list holds it |
| SurveyList.Insert | script.js:147 | inserting into a newest-first list keeps it newest first and adds exactly that survey |
| SurveyList.SortByDate | script.js:147 | the sort returns the same surveys, newest first |
| SurveyList.InsertWithDate | script.js:147 | inserting puts the survey ahead of the surveys with the same creation time and leaves their order |
| SurveyList.SortByDateIsStable | script.js:147 | the sort is stable: for every creation time, the surveys with that time appear in the same order before and after |
| SurveyList.RenderGroups | script.js:142-153 | the three drawn lists are each newest first and hold exactly the members of their group |
| SurveyList.MembersPartition | script.js:144-146 | every survey lands in exactly one group or among the unlisted |
| SurveyList.UnlistedOfEmpty | script.js:144-146 | nothing is unlisted exactly when every survey is archived, Open or Closed |
| SurveyList.ListingShowsEverySurvey | script.js:142-153 | the home screen lists every survey exactly once if and only if each is archived, Open or Closed |
| Lightbox.ImageList.constructor | script.js:570 | a target without photos gets an empty list |
| Lightbox.ImageList.Push | script.js:574 | adding a photo appends it |
| Lightbox.ImageList.SetAt | script.js:544 | assigning at an index replaces that photo, or appends at the end |
| Lightbox.ImageList.RemoveAt | script.js:557 | `splice(i, 1)` removes the photo at i, and removes nothing past the end |
| Lightbox.StepForward | script.js:530 | the Next arrow moves to the next index and wraps from the last to 0 |
| Lightbox.StepBack | script.js:526 | the Prev arrow moves to the previous index and wraps from 0 to the last |
| Lightbox.StepsAreInverse | script.js:525-532 | on a valid index the two arrows undo each other |
| Lightbox.ForwardIsModular | script.js:529-532 | k presses of Next from i land on (i + k) mod n |
| Lightbox.Lightbox.constructor | script.js:80-81 | the lightbox starts at index 0 with no target |
| Lightbox.Lightbox.OpenAt | script.js:509-515 | opening shows the clicked photo of the target's own list |
| Lightbox.Lightbox.Next | script.js:529-532 | Next keeps the list and steps the index forward with wrap-around |
| Lightbox.Lightbox.Prev | script.js:525-528 | Prev keeps the list and steps the index back with wrap-around |
| Lightbox.Lightbox.DeleteCurrent | script.js:554-562 | a confirmed Delete removes the shown photo from the target's list; without a target or confirmation nothing changes |
| Lightbox.Lightbox.ReplaceCurrent | script.js:543-548 | the read file replaces the shown photo in the target's list |
| DataImport.Property | script.js:805 | reading a property of a parsed value finds exactly the own members of an object |
| DataImport.AcceptsFirstCopy | script.js:805 | the first copy accepts exactly an object with an own `surveys` member that is an array |
| DataImport.AcceptsSecondCopy | script.js:1473 | the second copy accepts exactly an object with an own `surveys` member that is truthy |
| DataImport.FirstCopyIsStricter | script.js:1473 | whatever the first copy imports, the second copy imports too |
| DataImport.SecondCopyAcceptsNonArray | script.js:1473 | the second copy also imports a file whose `surveys` is `true`, which the first copy rejects |
| DataImport.Import | script.js:800-817 | a parse failure, an invalid format, a declined dialog and an import are told apart. Data is replaced exactly when the value parses, is accepted and the dialog is confirmed, and then by that value; in the first copy it then holds a `surveys` array |

## Left out

- The spherical trigonometry is not modelled: `haversineMeters`, `bearingTo` and the cos/sin/atan2 of the circular mean (script.js:589-608, 632-638). They are given functions; only the range of atan2 is assumed.
- Floating point is not modelled. Finite doubles are exact reals, so rounding and overflow (for example of a huge angle) are not captured.
- DOM rendering, toasts, modals, HTML escaping and the lightbox display are user interface and are not modelled.
- `localStorage` load and save, JSON export and file reading are I/O and are not modelled.
  - The load-time repair of `data.surveys` (script.js:6 in the first copy, script.js:901 in the second) is not modelled; the store starts from already loaded surveys.
  - The import takes the already parsed value (or a parse failure) as input.
- The geolocation watch, the orientation permission flow and the timers are platform plumbing and are not modelled. `updateNavImmediate` is modelled as a function of the state it reads.
- `uid` and `Date.now` are randomness and a clock; they are parameters of `CreateSurvey`. The date-stamped fallback name is a parameter too.
- `sw.js` is service-worker cache plumbing and is not modelled.
- Editing, adding and batch-adding targets, Mark Found, the Clear button and the settings are not modelled.
- Survey records, once imported, are not derived from the JSON value. Targets hold no photo lists; a photo list is an `ImageList` object of its own, which the lightbox shares in place.
- The heading window is never reset when the target changes, and there is no distance-based re-arm of the proximity alert. The model does the same, as the code does.
- Heading.HeadingFilter.HandleOrientation: it uses the corrected guard, which drops infinite headings; the as-written behaviour is `Heading.NormaliseAsWritten` (see Findings).
- Navigation.RelativeAngle: the formula reaches -180 and never 180, so the range is [-180,180), not (-180,180].
- Lightbox.Lightbox.Next and Lightbox.Lightbox.Prev require a non-empty photo list. The page shows the arrows only for an open lightbox; on an empty list the code would compute `% 0`, which is NaN.
- Lightbox.Lightbox.ReplaceCurrent and Lightbox.ImageList.SetAt require the index to be inside the list or just past its end. JavaScript would also allow a sparse array; these requires exclude that case.
- Lightbox.Lightbox.DeleteCurrent: the first copy keeps `currentLightboxImages` as a separate variable that starts as an empty array. In the model the lightbox shows the target's list or none, so the two are one.
- Surveys.SurveyStore.Act: the invariant for SetOpen is stated only with unique survey ids, and either a match for the id or at most one open survey beforehand. With duplicate ids, `setOnlyOpen` opens every survey with the id.

## Findings

| source | as written | input that shows it | evidently intended | confidence | as-written member | corrected member |
|---|---|---|---|---|---|---|
| script.js:625-627 | the guard `heading == null \|\| isNaN(heading)` lets an infinite `webkitCompassHeading` through, and `(Infinity + 0 + 360) % 360` is NaN, which enters `headingSamples` and keeps the smoothed heading NaN until six more samples have pushed it out | an iOS event with `webkitCompassHeading = Infinity` | only finite headings enter the window (`Number.isFinite`) | not executed | Heading.NormaliseAsWritten, Heading.InfiniteCompassHeadingBecomesNaN | Heading.Normalise |
