# WeekView core in Dafny

A model of the logic of the `WeekView` component of react-native-week-view,
a horizontally paged, endlessly scrollable week/day calendar grid. Dates are
integer day numbers and moments are whole minutes since the start of day 0
(`StartOfDay(d) = 1440 * d`, `EndOfDay(d) = 1440 * d + 1439`).

Modules, following the component's pieces:

- `Calendar` — day/minute arithmetic (`DayOf`, `StartOfDay`, `EndOfDay`).
- `PageWindow` — the seeded window of page keys (`calculatePagesDates`),
  with `PageOffset = 2` and `WindowSize = 5`.
- `Pager` — the pager state (`keys`, `currentPageIndex`, `currentMoment`, a
  log of requested silent jumps, a log of swipe callbacks) and its single
  transition `ScrollEnded` for the end of a scroll on page `newPage`.
- `Events`, `StartSort`, `Partition` — events, their per-day clipped
  occurrences, the stable sort by start minute, and `sortEventsByDate`.
- `Decimal`, `TimeAxis` — decimal rendering and the time-axis labels
  (`calculateTimes`, `formatTime`).
- `Layout` — `horizontalInverted` and `getListItemLayout`.
- `Arith` — multiplication/division facts used by the proofs.
- `Scenarios` — worked examples: a seeded week window, a change of page
  length after construction, a scroll to the first page, an overnight event,
  some labels.

The forward growth rule is modelled as written: the window grows at the back
only when `newPage > |keys| - PageOffset`, that is only on the last page,
while it grows at the front on either of the first `PageOffset` pages.
`ForwardGrowth` and `BackwardGrowth` state both rules as if-and-only-if.

The pager invariant `Pager.Valid` ties the anchor moment to the keys: the key
of the visible page always equals `currentMoment`. The source computes the
new moment and the new index separately (lines 123-125 and 132-135); the
model proves they stay in step.

## Model

| member | source | states |
|---|---|---|
| PageWindow.CalculatePagesDates | src/WeekView/WeekView.js:192-199 | the seeded window has `2*pageOffset+1 = 5` keys, the selected date at index `pageOffset` in both orders, consecutive keys `numberOfDays` apart (negated when the most recent page comes first) |
| PageWindow.PagesFrom | src/WeekView/WeekView.js:193-197 | the seeding loop for offsets `lo..hi` yields one key per offset, the key of offset `i` being the moment plus `numberOfDays * i` days |
| PageWindow.SeedReversal | src/WeekView/WeekView.js:198 | the most-recent-first window is the ascending one reversed, and reversing it back gives the ascending window |
| PageWindow.SeedDescendingIsNegatedStep | src/WeekView/WeekView.js:192-199 | the most-recent-first window equals the ascending window seeded with the negated page length |
| PageWindow.ProgressionDistinct | src/WeekView/WeekView.js:192-199 | keys spaced by a non-zero step are pairwise distinct (they serve as list item keys) |
| Pager.Init | src/WeekView/WeekView.js:38-48 | the constructed pager satisfies the pager invariant, starts on page `pageOffset` with the selected date as anchor and has requested no jump and fired no callback |
| Pager.ScrollEnded | src/WeekView/WeekView.js:109-174 | a scroll end grows the window by at most one key, only at the front or the back, keeps the old keys, logs at most one jump (to the new index) and exactly one callback iff the page changed |
| Pager.NoMoveIsNoOp | src/WeekView/WeekView.js:123-129 | ending a scroll on the current page leaves keys, index, anchor and logs unchanged |
| Pager.BackwardGrowth | src/WeekView/WeekView.js:141-153 | a key is prepended iff the move was backward and ended before page `pageOffset`; then the index becomes `newPage + 1`, the visible key is preserved, the new first key is one step before the old one and a jump to the new index is requested |
| Pager.ForwardGrowth | src/WeekView/WeekView.js:154-164 | a key is appended iff the move was forward and `newPage > |keys| - pageOffset`; the new key is one step after the last; otherwise the index becomes `newPage` with no jump |
| Pager.MomentAndSwipe | src/WeekView/WeekView.js:131-173 | on a real move the anchor advances by `movedPages * numberOfDays * sign` and exactly one callback is logged with it: previous iff the move was backward, next iff forward |
| Pager.VisiblePagePreserved | src/WeekView/WeekView.js:125-153 | after any scroll end landing in the window the visible index is in range and shows the key of the page the scroll landed on |
| Pager.ScrollEndedKeepsValid | src/WeekView/WeekView.js:109-174 | the pager invariant (window at least 5 keys, arithmetic progression with the configured step, index in range, visible key equals anchor) is preserved by every scroll end landing in the window |
| Pager.KeysDistinct | src/WeekView/WeekView.js:141-164 | the keys of a valid pager are pairwise distinct |
| Pager.ScrollEndedEmbeds | src/WeekView/WeekView.js:141-164 | the old window appears contiguously in the new one, shifted by the key that may have been prepended |
| Pager.Run | src/WeekView/WeekView.js:109-174 | a sequence of scroll ends never shrinks the window and grows it by at most one key per scroll end |
| Pager.RunKeepsValid | src/WeekView/WeekView.js:109-174 | over any sequence of scroll ends landing in the window the invariant holds, the old keys stay a contiguous run, and no key appears twice |
| Events.Clip | src/WeekView/WeekView.js:215-230 | an occurrence keeps the event's id and other fields and, on a day the event overlaps, lies within that day and within the event, not inverted when the event is not |
| Partition.SortEventsByDate | src/WeekView/WeekView.js:201-240 | a day is a key exactly when some event overlaps it, and its list is the clipped copies of those events in list order, sorted stably by start minute (sorted and a permutation) |
| Partition.PushOccurrences | src/WeekView/WeekView.js:206-231 | adding one event pushes its clipped copy onto the bucket of every day from its start day to its end day, creating buckets on first use |
| Partition.BucketMembers | src/WeekView/WeekView.js:206-231 | an occurrence is in the bucket of day `d` iff it is the copy of some event overlapping `d` clipped to `d`: nothing dropped, nothing invented |
| Partition.BucketWithinDay | src/WeekView/WeekView.js:215-230 | every occurrence in a day's bucket lies within that day and within an event of the list whose id and fields it carries |
| Partition.SingleEventSpan | src/WeekView/WeekView.js:210-231 | one event yields exactly one occurrence in each day from its start day to its end day, `end day - start day + 1` of them, and none if it ends on an earlier day |
| Partition.OccurrencesTile | src/WeekView/WeekView.js:215-219 | the occurrences of an event start at its start, end at its end and abut minute to minute across midnights |
| StartSort.SortByStart | src/WeekView/WeekView.js:233-238 | the sorted bucket is non-decreasing by start, a permutation of the bucket, and keeps equal starts in their original order |
| StartSort.Insert | src/WeekView/WeekView.js:235-237 | inserting into a sorted list after all elements starting no later keeps it sorted, adds exactly the element, and appends it to its start's class |
| TimeAxis.CalculateTimes | src/WeekView/WeekView.js:74-86 | with a whole-minute step the day gets `ceil(1440 / minutesStep)` labels, label `k` being the label of minute `k * minutesStep` and reading back to that minute, all distinct |
| TimeAxis.StepLabels | src/WeekView/WeekView.js:78-85 | the loop stops at the first step at or past midnight, the last label's step lying before it, and pushes the label of minute `k * step` as its `k`-th label |
| TimeAxis.LabelsEvery | src/WeekView/WeekView.js:78-85 | walking the day in steps yields `ceil(1440 / step)` labels, the last step before midnight, label `k` being the label of minute `k * step` and reading back to it, no two alike |
| TimeAxis.MinutesStep | src/WeekView/WeekView.js:76-77 | the exact step between labels is positive and `labelsInDisplay` steps span exactly `hoursInDisplay` hours (the component's floating-point step can differ by a rounding error, see Left out) |
| TimeAxis.ClockHour | src/WeekView/WeekView.js:93 | the 12-hour clock hour is in 1..12 and congruent to the 24-hour hour modulo 12 |
| TimeAxis.LabelShape | src/WeekView/WeekView.js:79-82 | a label on the hour is `formatTime` of the hour; any other label is the 24-hour hour in decimal, a colon and two digits, which read back to the hour and to the minute past it; the character before the last two is a space exactly on the hour and a colon otherwise |
| TimeAxis.FormatTime | src/WeekView/WeekView.js:93 | an on-the-hour label is the decimal 12-hour clock hour (reading back to it), a space and `am` or `pm`, `am` iff the hour is before noon |
| TimeAxis.TwoDigits | src/WeekView/WeekView.js:79-80 | minutes are printed as exactly two decimal digits that read back to the minutes, the first being a zero pad exactly below ten |
| TimeAxis.HourLabelRoundTrip | src/WeekView/WeekView.js:93 | an on-the-hour label of hour 0..23 reads back to that hour |
| TimeAxis.LabelRoundTrip | src/WeekView/WeekView.js:79-82 | every label of a minute of the day reads back to that minute |
| TimeAxis.LabelInjective | src/WeekView/WeekView.js:79-82 | two different minutes of the day never share a label |
| Decimal.NatToString | src/WeekView/WeekView.js:82 | a number prints as at least one decimal digit, one digit exactly below ten, with no leading zero |
| Decimal.ParseNatToString | src/WeekView/WeekView.js:82 | printing a number in decimal and reading it back gives the number |
| Layout.HorizontalInverted | src/WeekView/WeekView.js:272-273 | the lists are inverted iff exactly one of most-recent-first and right-to-left is set |
| Layout.InvertedFlips | src/WeekView/WeekView.js:272-273 | flipping either flag flips the inversion; equal flags never invert |
| Layout.GetListItemLayout | src/WeekView/WeekView.js:242-246 | page `index` is one container wide, its offset is `index` page lengths, and for a positive width the offset in page lengths is the index |
| Layout.LayoutContiguous | src/WeekView/WeekView.js:242-246 | pages are one container wide, the first at offset zero, each starting where the previous ends, and a page's offset divided by the width is its index |
| Calendar.DayOf | src/WeekView/WeekView.js:207-217 | the day of a moment is the day whose start and end bound it |
| Scenarios.WeekWindow | src/WeekView/WeekView.js:192-199 | a seven-day view around day `d` is seeded with `d-14, d-7, d, d+7, d+14` (reversed when most recent first) on page 2 |
| Scenarios.PageLengthChangeBreaksWindow | src/WeekView/WeekView.js:43-47 | a week-spaced window whose scroll end is read with a one-day page length gets a key one day after the last, so it is no progression for either page length |
| Scenarios.ScrollToFirstPage | src/WeekView/WeekView.js:141-172 | scrolling from page 2 to page 0 prepends `d-21`, moves the index to 1, requests a jump to 1 and reports one previous-swipe with `d-14` |
| Scenarios.OvernightEvent | src/WeekView/WeekView.js:210-231 | a 22:00 to 02:00 event yields `[22:00, 23:59]` on its first day and `[00:00, 02:00]` on the next, nothing elsewhere |
| Scenarios.HourLabels | src/WeekView/WeekView.js:93 | hour 0 is `12 am`, hour 12 is `12 pm`, hour 13 is `1 pm` |
| Scenarios.HalfPastOne | src/WeekView/WeekView.js:79-82 | minute 90 is labelled `1:30` |
| Scenarios.FivePastTen | src/WeekView/WeekView.js:79-82 | minute 605 is labelled `10:05` |

## Left out

- Rendering (`render`, the header, title and event widgets, styles): user interface only.
- The moment library: calendar arithmetic, daylight-saving shifts, locales and the `DATE_STR_FORMAT` key strings. Keys are day numbers, moments whole minutes; the anchor moment is modelled as its day.
- Sub-minute times: the minute-difference comparator truncates, which is not a consistent order below a minute; with whole minutes it is a plain comparison of starts. `endOf('day')` is 23:59:59.999, modelled as minute 1439.
- The page index computation `Math.round(position / innerWidth * length)` (floating point): `newPage` is an input; the lemmas about the resulting state assume it lies in the window.
- The `InteractionManager.runAfterInteractions` deferral: the deferred block runs immediately after the index update; interleavings of several pending blocks are not modelled.
- The scroll listener fan-out to the header and all-day lists, its removal at unmount, `scrollToVerticalStart` (floating-point heights), and the actual `scrollToIndex` call, of which only the requested index is recorded.
- `memoizeOne` caching (a cached result equals the recomputed one) and `setLocale`.
- Pager.MomentAndSwipe: the source calls a callback only when the caller supplied one (`onSwipePrev && ...`); the model logs which callback is due regardless.
- Pager.Config: the page length and order are fixed for the life of the pager. The component seeds the window once, in its constructor, and its update hook reacts only to a new locale, yet every scroll end re-reads `numberOfDays` and `prependMostRecent` from the current properties (`src/WeekView/WeekView.js:115-120`). A change of either after construction extends the old window with the new step, and the window stops being a progression (`Scenarios.PageLengthChangeBreaksWindow`); the invariant lemmas assume no such change.
- Pager.Valid requires a positive `numberOfDays`; the source restricts it to the values of `availableNumberOfDays`, a module that is not part of this model.
- TimeAxis.CalculateTimes: `TIME_LABELS_IN_DISPLAY` is a parameter because its module is not part of this model. The model takes whole-number `hoursInDisplay` and the exact step `60 * hoursInDisplay / labelsInDisplay`, only where that quotient is a whole number. The source computes the step as `60 / (TIME_LABELS_IN_DISPLAY / hoursInDisplay)` in floating point (`src/WeekView/WeekView.js:76-77`), and its property type also admits fractional hours such as 0.5; fractional hours and fractional steps are not modelled. The contract describes the source only where the floating-point step is exact, as for 12 labels over 5 hours (step 25) or 96 over 24 (step 15). On some inputs whose exact quotient is whole, the floating-point one is not, and the source's labels carry the rounding error. For 12 labels over 11 hours the source's step is 55.00000000000001: it pushes `0:55.00000000000001` as label 1 and `11:01.1368683772161603e-13` as label 12, where the model gives `0:55` and `11 am`. Pairs of this kind include (12, 11), (12, 22), (6, 11) and (15, 13).
- TimeAxis.MinutesStep: the exact quotient, not the floating-point `60 / (labels / hours)` of the component; the two differ on inputs such as 12 labels over 11 hours (55 against 55.00000000000001), as the `TimeAxis.CalculateTimes` line above describes.
- TimeAxis.WholeStep: requires `hoursInDisplay > 0`. For `hoursInDisplay = 0` the source's labels per hour are infinite and its step 0; for a negative value the step is negative. Either way the loop at `src/WeekView/WeekView.js:78` never reaches 1440 and does not terminate, so these inputs have no result to model.
- TimeAxis.FormatTime: modelled for non-negative hours only, where JavaScript's remainder agrees with Dafny's.
- Layout.GetListItemLayout: `CONTAINER_WIDTH` is a parameter because its module is not part of this model.
