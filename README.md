# Homepage dashboard layout engine, modelled in Dafny

The Homepage of this console is a dashboard of widget cards on a four-column
grid. Each card covers 1..4 columns and 1..6 rows. Users can resize a card by
its handles, reorder cards by dragging, send a card to a "bank" of removed
widgets, and drag a banked widget back onto the dashboard. A reset button
restores the sixteen-widget default layout.

This project models the state engine behind that page and proves its
properties:

- **Grid geometry** (`geometry.dfy`, module `GridGeometry`). The pixel width and
  height of a span, and the nearest-span search that turns a live pixel size
  into spans. Pixels are exact `real`s. The two searches are methods with the
  source's loop. Each is proved equal to a recursive left-fold specification
  `Closest`, which is characterised by the predicate `IsNearest`: minimal
  distance, and ties go to the lower span.
- **Widgets** (`widgets.dfy`, module `Widgets`). The widget record, the
  sixteen-entry seed catalogue, and the `bank-` prefix that marks a drag out
  of the bank.
- **List operations** (`widget_lists.dfy`, module `WidgetLists`). `findIndex`,
  `find`, `filter` by id, the resize `map`, `splice` and dnd-kit's
  `arrayMove` as functions on sequences, with their contracts.
- **The dashboard** (`dashboard.dfy`, module `Dashboard`). Four handlers
  exist twice: drag end, size change, remove and reset. A function on a
  `Layout` value (dashboard list and bank) is what the lemmas speak about:
  `DragEnd`, `SizeChange`, `RemoveWidget` and `DefaultLayout`. A method of
  class `Homepage` reassigns the fields `widgets`, `removedWidgets` and
  `activeId` as the handler does, and is proved to produce exactly the
  function's result. Drag start is only a method, because it touches only
  `activeId`. The invariant "every
  seed id is in exactly one of the two collections, once" is the predicate
  `Consistent`. Class `Homepage` keeps it as `Valid()`.
- **The resize session of one card** (`resize.dfy`, module
  `WidgetCardResize`). Class `SortableWidgetCard` holds `isResizing` and the
  two preview spans. Releasing a resize commits through the dashboard's
  `HandleSizeChange`.
- **Worked examples** (`scenarios.dfy`, module `Scenarios`). Concrete
  layouts: a 1200 px grid, removing and restoring seed widgets, resizing one
  card.

Inputs that the browser provides become parameters: the grid width, the live
pixel size of a card being resized, and the drag's `active` and `over` ids.

## Model

| member | source | states |
|---|---|---|
| GridGeometry.Diff | src/app/Homepage/Homepage.tsx:206 | `Math.abs(x - e)` (also used by the row search at line 224): non-negative and equal to one of `x - e`, `e - x` |
| GridGeometry.ColumnWidth | src/app/Homepage/Homepage.tsx:186 | the column width: four columns and three 16 px gaps add up to the grid width |
| GridGeometry.WidthForSpan | src/app/Homepage/Homepage.tsx:189-191 | `span` columns and the `span - 1` gaps between them (no contract; its properties are the `Width*` lemmas) |
| GridGeometry.HeightForSpan | src/app/Homepage/Homepage.tsx:194-196 | `span` rows of 80 px and the `span - 1` gaps between them (no contract; its properties are the `Height*` lemmas) |
| GridGeometry.ColumnExtents | src/app/Homepage/Homepage.tsx:186-191 | four candidate widths; entry `s - 1` is the width of span `s` |
| GridGeometry.RowExtents | src/app/Homepage/Homepage.tsx:194-196 | six candidate heights; entry `s - 1` is the height of span `s` |
| GridGeometry.Closest | src/app/Homepage/Homepage.tsx:199-214 | the left-to-right scan's answer is a nearest candidate, earliest among ties (`IsNearest`) |
| GridGeometry.ClosestStep | src/app/Homepage/Homepage.tsx:204-211 | one more loop step: the answer switches to the new candidate only if it is strictly closer |
| GridGeometry.ScanState | src/app/Homepage/Homepage.tsx:201-204 | the loop state after `i` candidates: no best yet (`minDiff` still `Infinity`) exactly when `i == 0`, otherwise the scan's answer so far and its distance (no contract; a predicate) |
| GridGeometry.ScanStep | src/app/Homepage/Homepage.tsx:204-211 | one loop iteration: the `if (diff < minDiff)` update takes the state over `i` candidates to the state over `i + 1` |
| GridGeometry.NearestUnique | src/app/Homepage/Homepage.tsx:207 | only one index satisfies `IsNearest`, because of the strict `<` tie-break |
| GridGeometry.ClosestIff | src/app/Homepage/Homepage.tsx:199-214 | the scan returns `k` exactly when `k` is nearest and earliest among ties (both directions) |
| GridGeometry.NearestColSpan | src/app/Homepage/Homepage.tsx:199-214 | the span whose width is nearest to the given width, lowest among ties |
| GridGeometry.NearestRowSpan | src/app/Homepage/Homepage.tsx:217-232 | the span whose height is nearest to the given height, lowest among ties |
| GridGeometry.ColSpanFromWidth | src/app/Homepage/Homepage.tsx:199-214 | the loop with its `Infinity` start returns a span whose width difference is minimal over 1..4; every lower span is strictly worse; equals `NearestColSpan` |
| GridGeometry.RowSpanFromHeight | src/app/Homepage/Homepage.tsx:217-232 | the same for the six row spans, starting from the default 2; equals `NearestRowSpan` |
| GridGeometry.FullSpanIsGridWidth | src/app/Homepage/Homepage.tsx:186-191 | four columns are exactly the grid width |
| GridGeometry.WidthsIncreasingIff | src/app/Homepage/Homepage.tsx:186-191 | span widths strictly increase exactly when the grid is wider than -16 px (both directions) |
| GridGeometry.WidthStep | src/app/Homepage/Homepage.tsx:186-191 | going from span `a` to span `b` adds `(b - a)` times a column plus a gap |
| GridGeometry.HeightsIncreasing | src/app/Homepage/Homepage.tsx:194-196 | a higher row span is strictly taller |
| GridGeometry.HeightOfThreeRows | src/app/Homepage/Homepage.tsx:84-85 | three rows are 272 px high (80 px rows, 16 px gaps) |
| GridGeometry.WidthsDistinct | src/app/Homepage/Homepage.tsx:186-191 | distinct spans have distinct widths unless the grid is -16 px wide |
| GridGeometry.ColumnRoundTrip | src/app/Homepage/Homepage.tsx:199-214 | the width of span `k` snaps back to `k` |
| GridGeometry.ColumnsCollapse | src/app/Homepage/Homepage.tsx:199-214 | on a -16 px grid all widths coincide and every width snaps to span 1 |
| GridGeometry.RowRoundTrip | src/app/Homepage/Homepage.tsx:217-232 | the height of span `k` snaps back to `k` |
| GridGeometry.ColumnTieGoesLow | src/app/Homepage/Homepage.tsx:207 | on every grid width except -16 px, a width exactly halfway between spans `k` and `k + 1` snaps to `k` |
| GridGeometry.RowTieGoesLow | src/app/Homepage/Homepage.tsx:225 | a height exactly halfway between spans `k` and `k + 1` snaps to `k` |
| GridGeometry.HalfStepOffset | src/app/Homepage/Homepage.tsx:207 | proof step of `ColumnTieGoesLow`: a point half a step past a grid point is at least half a step from the others, strictly from those behind it |
| GridGeometry.StrictPreferenceKept | src/app/Homepage/Homepage.tsx:207 | if `x` is strictly closer to the higher of two candidates, so is every larger value |
| GridGeometry.ClosestMonotone | src/app/Homepage/Homepage.tsx:199-214 | over increasing candidates, a larger value never snaps to a lower index |
| GridGeometry.NearestColSpanMonotone | src/app/Homepage/Homepage.tsx:199-214 | dragging a card wider never lowers its column span |
| GridGeometry.NearestRowSpanMonotone | src/app/Homepage/Homepage.tsx:217-232 | dragging a card taller never lowers its row span |
| Widgets.InitialWidgets | src/app/Homepage/Homepage.tsx:461-585 | the seed catalogue, in display order, has sixteen entries (their ids are distinct by `InitialIdsDistinct`) |
| Widgets.InitialIdLengths | src/app/Homepage/Homepage.tsx:461-585 | proof step of `InitialIdsDistinct`: the lengths of the sixteen seed ids |
| Widgets.InitialIdsOfEqualLength | src/app/Homepage/Homepage.tsx:461-585 | proof step of `InitialIdsDistinct`: the seed ids of equal length differ |
| Widgets.DistinctBySeedLengths | src/app/Homepage/Homepage.tsx:461-585 | proof step of `InitialIdsDistinct`: sixteen strings with those lengths, whose equally long pairs differ, are pairwise distinct |
| Widgets.InitialIdsDistinct | src/app/Homepage/Homepage.tsx:461-585 | no two seed widgets share an id |
| Widgets.BankId | src/app/Homepage/Homepage.tsx:108 | `` `bank-${id}` ``: the prefix followed by exactly the widget id |
| Widgets.IsBankId | src/app/Homepage/Homepage.tsx:618 | `startsWith('bank-')`, as at lines 618, 630, 652 and 689: the first five characters are the prefix (no contract; a predicate) |
| Widgets.StripBank | src/app/Homepage/Homepage.tsx:618-619 | removing the `bank-` prefix from a drag id that has it: putting the prefix back gives the drag id |
| Widgets.BankIdRoundTrip | src/app/Homepage/Homepage.tsx:108 | the drag id of a banked widget carries the prefix, and stripping it gives the widget id back |
| WidgetLists.FindIndex | src/app/Homepage/Homepage.tsx:631 | `findIndex` by id: -1 exactly when the id is absent, otherwise the first index holding it |
| WidgetLists.FindIndexOfEntry | src/app/Homepage/Homepage.tsx:654-655 | with distinct ids, the index found for an entry's id is that entry's index |
| WidgetLists.Find | src/app/Homepage/Homepage.tsx:620 | `find` by id: nothing exactly when the id is absent, otherwise the entry at `FindIndex` |
| WidgetLists.RemoveId | src/app/Homepage/Homepage.tsx:624 | `filter` by id: keeps exactly the entries with other ids; the id's count drops to zero and no other count changes |
| WidgetLists.RemoveIdConcat | src/app/Homepage/Homepage.tsx:624 | `filter` keeps order: filtering a concatenation is the concatenation of the filtered parts, for every list |
| WidgetLists.RemoveIdSingle | src/app/Homepage/Homepage.tsx:624 | a single entry survives the filter exactly when its id differs |
| WidgetLists.RemoveIdAbsent | src/app/Homepage/Homepage.tsx:680 | filtering out an absent id changes nothing |
| WidgetLists.RemoveIdUnique | src/app/Homepage/Homepage.tsx:680 | with distinct ids, the filter removes exactly the entry at the id's index and keeps the order of the rest |
| WidgetLists.SizeChanged | src/app/Homepage/Homepage.tsx:662-670 | same length and ids; every entry with the id gets the new spans and keeps its other fields; all other entries unchanged |
| WidgetLists.SizeChangedAbsent | src/app/Homepage/Homepage.tsx:662-670 | resizing an id that is not on the dashboard changes nothing |
| WidgetLists.SizeChangedLastWins | src/app/Homepage/Homepage.tsx:662-670 | two resizes of the same widget leave what the second alone leaves |
| WidgetLists.InsertAt | src/app/Homepage/Homepage.tsx:634-636 | `splice(i, 0, x)`: one longer, `x` at `i`, entries before `i` kept, entries from `i` shifted one place later |
| WidgetLists.InsertAtMultiset | src/app/Homepage/Homepage.tsx:634-636 | the splice adds exactly the inserted entry |
| WidgetLists.RemoveAt | src/app/Homepage/Homepage.tsx:656 | taking out the entry at `i`: entries before kept, entries after shifted one place earlier |
| WidgetLists.RemoveAtMultiset | src/app/Homepage/Homepage.tsx:656 | taking out the entry at `i` removes exactly one copy of it |
| WidgetLists.RemoveInserted | src/app/Homepage/Homepage.tsx:634-636 | removing what was just inserted gives the list back |
| WidgetLists.InsertRemoved | src/app/Homepage/Homepage.tsx:656 | re-inserting what was just removed, at the same place, gives the list back |
| WidgetLists.ArrayMove | src/app/Homepage/Homepage.tsx:656 | same length and elements, the moved entry at the target index, all others in their old relative order |
| WidgetLists.ArrayMoveSame | src/app/Homepage/Homepage.tsx:656 | moving an entry onto its own index changes nothing |
| WidgetLists.IdsInsertAt | src/app/Homepage/Homepage.tsx:634-636 | the ids after a splice are the ids spliced the same way |
| WidgetLists.IdsRemoveAt | src/app/Homepage/Homepage.tsx:656 | the ids after taking out an entry are the ids with the same entry taken out |
| WidgetLists.IdsArrayMove | src/app/Homepage/Homepage.tsx:656 | the ids after an array move are the ids moved the same way |
| WidgetLists.IdsConcat | src/app/Homepage/Homepage.tsx:643 | the ids of an appended list are the appended ids |
| WidgetLists.CountedOnce | src/app/Homepage/Homepage.tsx:587-590 | in a duplicate-free list every element is counted once |
| WidgetLists.DistinctSplit | src/app/Homepage/Homepage.tsx:587-590 | when dashboard and bank ids together have no duplicate, each has none and they share no id |
| WidgetLists.DistinctIffSingleCounts | src/app/Homepage/Homepage.tsx:587-590 | a list has no duplicate exactly when no element is counted twice (both directions) |
| WidgetLists.DistinctPermutation | src/app/Homepage/Homepage.tsx:587-590 | having no duplicate depends only on the multiset of elements |
| Dashboard.DefaultLayout | src/app/Homepage/Homepage.tsx:587-590 | the initial state, sixteen seed widgets and an empty bank, satisfies the invariant |
| Dashboard.SizeChange | src/app/Homepage/Homepage.tsx:662-670 | the resize transition: the dashboard list mapped by `SizeChanged`, the bank kept (no contract; its properties are `SizeChangeConsistent` and the `SizeChanged` lemmas) |
| Dashboard.RemoveWidget | src/app/Homepage/Homepage.tsx:677-683 | the remove transition: nothing when `find` fails, otherwise the filtered dashboard and the found widget appended to the bank (no contract; its properties are the `RemoveWidget*` lemmas) |
| Dashboard.DragEnd | src/app/Homepage/Homepage.tsx:611-660 | the drag-end transition with the source's branches: bank drag (insert before the target, or append), reorder by array move, otherwise no change (no contract; its properties are the `Bank*`, `Dashboard*` and `DragEnd*` lemmas) |
| Dashboard.SameIdsConsistent | src/app/Homepage/Homepage.tsx:587-590 | a state with the same multiset of ids as a consistent state is consistent |
| Dashboard.SizeChangeConsistent | src/app/Homepage/Homepage.tsx:662-670 | a resize changes no id and keeps the invariant |
| Dashboard.RemoveWidgetMoves | src/app/Homepage/Homepage.tsx:677-683 | removing an id not on the dashboard changes nothing; otherwise exactly that entry leaves the dashboard, the rest keep their order, and it is appended to the bank |
| Dashboard.MoveOne | src/app/Homepage/Homepage.tsx:677-683 | moving the single copy of an id from one collection to the other keeps the total |
| Dashboard.RemoveWidgetFiltersOut | src/app/Homepage/Homepage.tsx:677-683 | the dashboard becomes the filtered list without the id, and the bank's ids gain exactly that id at the end |
| Dashboard.RemoveWidgetConserves | src/app/Homepage/Homepage.tsx:677-683 | removing a widget keeps the multiset of all ids |
| Dashboard.RemoveWidgetConsistent | src/app/Homepage/Homepage.tsx:677-683 | removing a widget keeps the invariant |
| Dashboard.BankDragMissing | src/app/Homepage/Homepage.tsx:618-622 | a bank drag whose widget is not in the bank changes nothing |
| Dashboard.BankDropBefore | src/app/Homepage/Homepage.tsx:618-639 | a banked widget dropped over a dashboard widget at index `i` is inserted at `i`; the old occupant moves to `i + 1`; exactly that entry leaves the bank |
| Dashboard.BankDropAppend | src/app/Homepage/Homepage.tsx:618-643 | dropped over nothing, over a bank id or over an unknown id, the banked widget is appended and exactly that entry leaves the bank |
| Dashboard.DashboardDragNoOp | src/app/Homepage/Homepage.tsx:646-652 | a dashboard drag dropped over nothing, over itself or over a bank id changes nothing |
| Dashboard.DashboardReorder | src/app/Homepage/Homepage.tsx:646-659 | a reorder keeps the bank, length and elements, puts the dragged widget at the target's index and keeps the others' relative order |
| Dashboard.BankTransferIds | src/app/Homepage/Homepage.tsx:618-643 | a bank drag that finds its widget adds its id to the dashboard once and drops it from the bank |
| Dashboard.BankTransferConserves | src/app/Homepage/Homepage.tsx:618-643 | a bank drag keeps the multiset of all ids |
| Dashboard.DragEndConserves | src/app/Homepage/Homepage.tsx:611-660 | every drag end keeps the multiset of all ids |
| Dashboard.DragEndConsistent | src/app/Homepage/Homepage.tsx:611-660 | every drag end keeps the invariant |
| Dashboard.Homepage.constructor | src/app/Homepage/Homepage.tsx:587-590 | the page starts with the seed widgets, an empty bank and no drag, satisfying the invariant |
| Dashboard.Homepage.HandleDragStart | src/app/Homepage/Homepage.tsx:607-609 | records the dragged id and changes neither collection |
| Dashboard.Homepage.HandleDragEnd | src/app/Homepage/Homepage.tsx:611-660 | clears the drag, keeps the invariant, and leaves the collections as `DragEnd` of the old state |
| Dashboard.Homepage.HandleSizeChange | src/app/Homepage/Homepage.tsx:662-670 | keeps the invariant and the drag; the collections become `SizeChange` of the old state |
| Dashboard.Homepage.HandleResetToDefault | src/app/Homepage/Homepage.tsx:672-675 | from any state: the default layout, the invariant restored, the drag untouched |
| Dashboard.Homepage.HandleRemoveWidget | src/app/Homepage/Homepage.tsx:677-683 | keeps the invariant and the drag; the collections become `RemoveWidget` of the old state |
| Dashboard.Homepage.ActiveWidget | src/app/Homepage/Homepage.tsx:685-697 | for a bank drag (`isFromBank`) the banked widget with the stripped id, otherwise the dashboard widget with the drag id; nothing exactly when there is no drag, the id is empty, or the widget is not in that collection |
| Dashboard.Homepage.IsFromBank | src/app/Homepage/Homepage.tsx:697 | a drag is in progress and its id has the bank prefix (no contract; a predicate) |
| WidgetCardResize.SortableWidgetCard.constructor | src/app/Homepage/Homepage.tsx:181-183 | a card mounts idle, its preview showing the widget's own spans |
| WidgetCardResize.SortableWidgetCard.HandleResizeStart | src/app/Homepage/Homepage.tsx:234-238 | the session starts, its preview reset to the widget's committed spans |
| WidgetCardResize.SortableWidgetCard.HandleResize | src/app/Homepage/Homepage.tsx:240-245 | only the preview changes, to the spans nearest to the live size |
| WidgetCardResize.SortableWidgetCard.HandleResizeStop | src/app/Homepage/Homepage.tsx:247-254 | commits the nearest spans for this card's widget through the dashboard's resize handler and ends the session; the preview is left as it was |
| WidgetCardResize.UnmovedResizeIsNoOp | src/app/Homepage/Homepage.tsx:265-266 | releasing a resize at the card's current pixel size leaves the dashboard unchanged |
| Scenarios.WideGridWidths | src/app/Homepage/Homepage.tsx:186-191 | on a 1200 px grid a column is 288 px; the four spans are 288, 592, 896 and 1200 px |
| Scenarios.SnapThreeByThree | src/app/Homepage/Homepage.tsx:199-232 | 896 x 272 px on a 1200 px grid snaps to three columns by three rows |
| Scenarios.AcsIsEntrySeven | src/app/Homepage/Homepage.tsx:461-585 | "acs" is the eighth seed widget (index 7) |
| Scenarios.RemoveAcs | src/app/Homepage/Homepage.tsx:677-683 | removing "acs" from the default layout leaves 15 widgets and a bank holding only "acs" |
| Scenarios.EventsIsEntryTwelve | src/app/Homepage/Homepage.tsx:461-585 | "events" is at index 12 of the seed |
| Scenarios.EventsInBank | src/app/Homepage/Homepage.tsx:677-683 | removing "events" from the default layout takes out index 12 and banks "events" |
| Scenarios.AnsibleStaysThird | src/app/Homepage/Homepage.tsx:677-683 | after that removal "ansible" is still at index 2 |
| Scenarios.DropBeforeThird | src/app/Homepage/Homepage.tsx:618-639 | a bank holding one widget, dropped over the third dashboard widget, puts it at index 2 and empties the bank |
| Scenarios.EventsBackBeforeAnsible | src/app/Homepage/Homepage.tsx:618-639 | dragging "events" back from the bank onto "ansible" gives 16 widgets with "events" at index 2, "ansible" at 3 and an empty bank |
| Scenarios.ResizeImageBuilder | src/app/Homepage/Homepage.tsx:662-670 | committing 3 x 3 for "image-builder" changes its entry (index 5) and no other |
| Scenarios.RemoveThenReset | src/app/Homepage/Homepage.tsx:672-683 | driving the handlers: after removing "acs" the bank holds exactly "acs", and reset restores the default layout with an empty bank |
| Scenarios.ResizeByHandles | src/app/Homepage/Homepage.tsx:234-254 | driving a card: 896 x 272 px on a 1200 px grid previews 3 x 3 and commits 3 x 3 for "image-builder" |

## Left out

- Rendering: JSX, cards, the drawer, icons, the drawer toggle, navigation, and the user name. They do not touch the layout state.
- The `content`, `footerLink` and `footerIcon` widget fields. They are React nodes or unused by the handlers. The record keeps `id`, `title`, `type`, the two spans, `navigateTo` and `footerText`.
- The drag-and-drop library's sensors and collision detection. The drag's `active` and `over` ids are parameters.
- The resize library's snapping to the grid and its minimum and maximum size. The live pixel size is a parameter.
- Measuring the grid element and the window resize listener. The grid width is a parameter of each resize event.
- React's batching of state updates and the stale `widgets` closures in the drag and remove handlers. Each handler is modelled as one atomic transition on the current state.
- JavaScript floating point and NaN. Pixels are exact reals, so the row search's default of 2 survives only for a NaN height and is never returned in the model.
- Dashboard.DragEnd: on the reorder path the model requires both ids to be on the dashboard (`MoveTargetsFound`). `arrayMove` with an index of -1 is library behaviour and is not modelled.
- Dashboard.Homepage.HandleDragEnd: it has the same requirement, and also requires the invariant to hold on entry.
- WidgetLists.ArrayMove: modelled as taking the entry out and inserting it at the target index, which is what the drag-and-drop library's `arrayMove` does. That library is not part of this model.
- WidgetCardResize.SortableWidgetCard.HandleResizeStop: the preview spans are not recomputed on release. A variant that recomputes the preview on release is not what the code does: the code only commits the spans and clears `isResizing`.
- Dashboard.SizeChange: the handler does not clamp spans. The model's span types (1..4 columns, 1..6 rows) express the type the handler is declared with.
- Scenarios.EventsBackBeforeAnsible: a count of seventeen widgets after dragging "events" back from the bank is not reachable. "events" is a seed widget and has to be removed first, so the dashboard returns to sixteen.
