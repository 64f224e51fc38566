# Estrelaa crafting canvas, modelled in Dafny

Estrelaa is an "infinite craft" browser game about stars and galaxies. The player drags element
cards from a sidebar palette onto an infinite canvas. Two instances dropped onto each other combine
through a recipe. The recipe can produce a new element, which may be a first discovery, or it can
explode. This project models the core of the game:

- the canvas state machine of `App.tsx`: placing, duplicating, moving, removing and combining
  instances, the undo history, the id counter, the discovered-elements store and the keyboard
  shortcuts;
- its variant in `src/App.tsx`, where a recipe cache and a generative service stand in for the
  static table;
- the drag gesture of one instance (`components/DraggableElement.tsx`);
- panning, box selection, wheel zoom and drops on the canvas surface (`components/Canvas.tsx`);
- the palette's filter and sort (`components/Sidebar.tsx`);
- the undo, redo and clear buttons (`components/Controls.tsx`);
- tooltip placement (`components/Tooltip.tsx`);
- the persistence hook with its Map-aware encoding (`hooks/useLocalStorage.ts`);
- the static recipe table (`recipes.ts`).

Modules, one file each:

| module | file | what it holds |
|---|---|---|
| `Types` | types.dfy | the records of `types.ts` and `INITIAL_ELEMENTS` |
| `Ordered` | ordered.dfy | JavaScript `Map` and `Set` with their insertion order |
| `Text` | text.dfy | UTF-16 code units, the default string sort, the recipe key, `includes`, capitalisation |
| `Recipes` | recipes.dfy | the recipe table row by row, and what can and cannot be looked up |
| `History` | history.dfy | the linear undo log |
| `Geometry` | geometry.dfy | rectangles, overlap, the view transform, zoom and pan |
| `Ids` | ids.dfy | `el-N` ids and the counter recomputed from the live ids |
| `Game` | game.dfy | the `App` class: committed state and every handler of both variants |
| `Drag` | drag.dfy | the `Gesture` class: press, moves and release of one instance |
| `CanvasView` | canvas_view.dfy | the `Surface` class: pan, box selection, wheel, drop |
| `Sidebar` | sidebar.dfy | the palette (filter, stable sort, reverse), sort buttons, resize, columns |
| `Controls` | controls.dfy | the `ClearButton` class and the undo and redo buttons |
| `Tooltip` | tooltip.dfy | tooltip placement |
| `Storage` | storage.dfy | the replacer and reviver on JavaScript values, and the hook's `Slot` class |

How React is modelled. The fields of `Game.App` are the committed state. A handler runs on the
`Game.Render` value it was created in, so it sees that render's canvas, history, discovered map,
selection and cache. The `useLocalStorage` setters apply a function update to the state of the
render they belong to, not to a value written earlier in the same handler. Plain setters overwrite
each other, so the last write wins. Refs (the id counter, the explosion and notification counters,
the highlighted target) change at once. Canvas maps are objects of class `Game.CanvasMap`, so the
source's `!==` between two maps compares objects, not contents. The id-counter effect is the
method `Game.App.Commit`, which the caller runs after a handler.

Several behaviours follow from the source and differ from a plain reading of its design:

- The drag's mouse-up handler is created at the press and keeps that render (`r0`).
  - The history entry written at the end of a drag is `r0`'s canvas, the canvas from before the
    drag. Nothing is written when `r0`'s history already shows that very canvas.
  - Trashing a selection calls `removeElement` once per id, and each call starts from `r0`'s
    canvas, so only the last id's removal survives (`Drag.TrashKeepsAllButLast`).
  - A combine starts from `r0`'s canvas too, and overrides a trash in the same release.
- A drag starts once the pointer has moved more than 5 pixels along either axis, not both.
- The recipe key sorts names by their UTF-16 code units, as JavaScript's default sort does, not by
  code points (`Text.BeforeIsUnitOrder`, `Text.UnitOrderIsNotCodePointOrder`).
- An id's number is read with `parseInt`, which skips leading white space and one '+' sign
  (`Ids.ParseIntNumeral`).
- Box selection counts a rectangle that only touches the box as caught (`Geometry.Touches`,
  `Geometry.TouchesIffCommonPoint`).
- In the cached variant both source instances are deleted even when there is no result (the
  service is missing or fails). The "processing" flags of the first phase are lost, because the
  second phase starts from the render the combine began in.
- The row `Ferro+Estrela Massiva` of `recipes.ts` lists its names out of sort order, so no pair
  of names ever finds it (`Recipes.OutOfOrderUnreachable`). As a result the core collapse is never
  produced, and the row keyed by it is unreachable as well (`Recipes.CollapseRecipeUnreachable`).
- The Map encoding is not one-to-one. A plain object `{dataType: "Map", value: []}` is written
  exactly as an empty Map is written, and it reads back as a Map
  (`Storage.TaggedObjectComesBackAsMap`).

## Model

| member | source | states |
|---|---|---|
| Ordered.Add | components/DraggableElement.tsx:153 | `set.add`: the members are the old ones plus the new one |
| Ordered.Delete | components/DraggableElement.tsx:151 | `set.delete`: the members are the old ones minus the deleted one |
| Ordered.Get | App.tsx:120 | `map.get` finds a value exactly when the key is present, and it is the stored value |
| Ordered.Put | App.tsx:116 | `map.set` on a copy: the value is stored; a present key keeps its place, a new key goes last |
| Ordered.Remove | App.tsx:150-156 | `map.delete` on a copy: the key is gone and the other keys keep their order |
| Ordered.Without | App.tsx:152-153 | dropping a key from the key order keeps exactly the other keys, still distinct |
| Ordered.Values | components/Sidebar.tsx:98 | `Array.from(map.values())` lists the values in key order |
| Text.CharUnits | App.tsx:180 | two different characters compare by their UTF-16 code units exactly as the character order used by the sort says, and neither's units are a prefix of the other's |
| Text.BeforeIsUnitOrder | App.tsx:180 | the default sort's order on two strings is exactly the lexicographic order of their UTF-16 code units |
| Text.UnitOrderIsNotCodePointOrder | App.tsx:180 | a character outside the Basic Multilingual Plane sorts before one near the top of that plane, though its code point is larger |
| Text.BeforeIrreflexive | App.tsx:180 | no string sorts strictly before itself |
| Text.BeforeTrichotomy | App.tsx:180 | two different strings are ordered one way and not both |
| Text.JoinUnique | App.tsx:181 | two names without '+' joined with '+' can be split back in only one way |
| Text.KeySymmetric | App.tsx:180-181 | the recipe key of two names does not depend on their order |
| Text.KeyIsSorted | App.tsx:180-181 | the key lists the two given names, in code-unit sort order: the second never sorts before the first |
| Text.IncludesAt | components/Sidebar.tsx:102 | `includes` holds exactly when the term occurs at some index |
| Text.Capitalise | src/App.tsx:207 | a first character inside the Basic Multilingual Plane is replaced by its upper-case form and the rest of the name is kept; a name starting outside that plane comes back unchanged |
| Recipes.BuildHas | recipes.ts:3-53 | the object literal has a key exactly when some row sets it, and holds that row's outcome |
| Recipes.BuildAppend | recipes.ts:3-53 | a later row overrides an earlier row with the same key |
| Recipes.LookupSymmetric | App.tsx:179-183 | combining two names gives the same result in either order |
| Recipes.RowsSound | recipes.ts:4-52 | every name is free of '+'; all rows but one list their names in sort order; rows 5-42 produce elements, rows 45-52 explode |
| Recipes.KeySplitsUniquely | recipes.ts:3-53 | a row's key splits back only into that row's two names |
| Recipes.FindableIffSorted | App.tsx:180-183 | a row can be looked up by some pair of names exactly when its names are in sort order |
| Recipes.OthersFindable | recipes.ts:5-52 | every row except `Ferro+Estrela Massiva` is found by its own names |
| Recipes.OutOfOrderUnreachable | recipes.ts:25 | the row is in the table, but no pair of names looks it up |
| Recipes.CollapseNeverProduced | recipes.ts:25-26 | no lookup ever produces `Colapso do Núcleo` |
| Recipes.CollapseRecipeUnreachable | recipes.ts:26 | in any play from the seeds the collapse never appears, so its row's key is never formed |
| Recipes.EntryKinds | recipes.ts:44-52 | a key holds an explosion exactly when one of rows 45-52 sets it; element templates carry no discovery time |
| Recipes.TableAgrees | recipes.ts:3-53 | when every row for a pair agrees on an outcome, the table holds that outcome |
| Recipes.SupernovaTwice | recipes.ts:26-27 | two different keys produce the same Supernova |
| Recipes.HydrogenMakesHelium | recipes.ts:7 | two hydrogens make helium |
| Recipes.SeedsInKeys | recipes.ts:7-13 | each seed element occurs as a name in some key |
| History.Record | App.tsx:59-67 | the redo tail is cut, the new snapshot becomes the present, undo becomes possible and redo impossible, and earlier snapshots stay |
| History.Undo | App.tsx:70-76 | the index steps back exactly when `canUndo`; the snapshots are unchanged |
| History.Redo | App.tsx:78-84 | the index steps forward exactly when `canRedo`; the snapshots are unchanged |
| History.UndoRedoInverse | App.tsx:70-84 | an undo that acts is undone by a redo, and the other way round |
| History.UndoAfterRecord | App.tsx:59-84 | after recording, undo shows the previous present and redo brings the recorded one back |
| History.RecordKeepsPast | App.tsx:62-64 | recording keeps the snapshots up to the index and drops the ones after it |
| Geometry.Shared | components/DraggableElement.tsx:25-26 | the shared length of two intervals is never negative, and positive exactly when they overlap |
| Geometry.OverlapArea | components/DraggableElement.tsx:24-28 | the overlap area is never negative |
| Geometry.OverlapFacts | components/DraggableElement.tsx:24-28 | the area is the same either way round, and positive exactly when the open interiors meet, so rectangles sharing only an edge overlap by 0 |
| Geometry.Normalise | components/Canvas.tsx:85-90 | the selection box has the two corners' coordinates as its edges, in min/max order |
| Geometry.TouchesIffCommonPoint | components/Canvas.tsx:92-95 | the box test catches an element exactly when the two closed rectangles share a point |
| Geometry.WheelZoom | components/Canvas.tsx:120-121 | the new zoom is the old one minus a thousandth of the delta, clamped to [0.2, 3] |
| Geometry.WheelDirection | components/Canvas.tsx:120-121 | scrolling down never zooms in and scrolling up never zooms out |
| Geometry.ScreenWorldInverse | components/Canvas.tsx:141-142 | converting to world coordinates and drawing them again are inverse |
| Geometry.ZoomKeepsPointUnderPointer | components/Canvas.tsx:125-131 | zooming about the pointer keeps the world point under it |
| Geometry.Pan | components/Canvas.tsx:109-111 | panning moves the drawing of every world point by the raw delta and keeps the zoom |
| Geometry.DropPoint | components/Canvas.tsx:140-142 | the dropped instance is drawn exactly under the drop point |
| Ids.Decimal | App.tsx:107 | a counter prints as a non-empty string of digits |
| Ids.LeadingDigits | App.tsx:44 | `parseInt` reads the longest digit prefix left after the white space and the sign |
| Ids.ParseIntNumeral | App.tsx:44 | `parseInt` reads a numeral after any ECMAScript white space and line terminators, with or without one '+' |
| Ids.TrimSpace | App.tsx:44 | the leading white space is skipped up to the first other character |
| Ids.UpToDash | App.tsx:44 | the piece before a '-' holds no '-' |
| Ids.DecimalValue | App.tsx:44 | reading a printed counter gives the counter back |
| Ids.FormatRoundTrip | App.tsx:44 | the number read from an issued `el-N` id is N |
| Ids.FormatInjective | App.tsx:106-110 | different counter values issue different ids |
| Ids.MaxNumber | App.tsx:44 | `Math.max(0, ...)` is NaN exactly when some id does not parse; otherwise it bounds every id number and is one of them when positive |
| Ids.IdsOf | App.tsx:44 | the ids of the canvas instances, in order |
| Ids.IssuedIdIsFresh | App.tsx:43-45 | the id issued after the counter effect is not live on that canvas |
| Ids.CounterAfterPlacing | App.tsx:106-117 | placing the issued instance moves the recomputed counter exactly where `getNewId` moved it |
| Ids.CounterAboveLiveIds | App.tsx:44-45 | when the counter is a number, every live id parses and is below it |
| Game.ByNameKeys | App.tsx:17 | `new Map(list.map(el => [el.text, el]))` has exactly the names as keys, each holding an element of that name |
| Game.SeedsByName | App.tsx:263 | the seed discoveries are the initial elements under their names, in declared order |
| Game.Midpoint | App.tsx:193-196 | the result appears halfway between the two sources |
| Game.Removed | App.tsx:208-213 | both sources are deleted and every other instance stays unchanged |
| Game.Merge | App.tsx:236-253 | both sources are deleted, the new instance is added under its id and goes last, and the rest stay |
| Game.Instance | App.tsx:246-251 | a new instance carries the element data, position and first-discovery flag, and is not processing |
| Game.Discover | App.tsx:215-226 | a first discovery happens exactly when the name is new; it is stamped with the current time, and a known name keeps its first time |
| Game.DiscoverOnce | App.tsx:219-226 | once discovered, producing the same element later is no first discovery and yields the same data |
| Game.Description | App.tsx:190 | a description is reported exactly when the key has a non-empty one |
| Game.Generated | src/App.tsx:205-210 | an answer becomes an element exactly when name and glyph are non-empty: the capitalised name, the glyph and the time |
| Game.CacheOutcome | src/App.tsx:176-218 | a cache hit gives the cached element and is never a first discovery; a miss gives the generated element, a first discovery exactly when its name is new |
| Game.CombineSymmetric | App.tsx:179-255 | which instance is dropped onto which does not change the resulting canvas; an explosion adds no key and a product adds only its own |
| Game.Flag | src/App.tsx:165-174 | only the named instance, if present, is marked processing; keys and order stay |
| Game.Reposition | App.tsx:128-139 | every listed instance on the canvas gets its new position; unknown ids, other instances and the order stay |
| Game.KeyCommand | App.tsx:86-101 | Ctrl/Cmd with 'z' or 'y' is a command; it is a redo exactly for 'y' or Shift+'z' |
| Game.App.constructor | App.tsx:14-53 | the stored canvas, discoveries and cache are loaded, the history is that canvas alone, and the counter is computed from it |
| Game.App.Commit | App.tsx:43-53 | after a render with a different canvas object, the counter is one past the largest live id number |
| Game.App.IssueId | App.tsx:106-110 | the id is the counter's and the counter moves on |
| Game.App.UpdateCanvas | App.tsx:59-67 | the new canvas becomes live and is recorded after the handler's render's present snapshot |
| Game.App.Undo | App.tsx:70-76 | the log steps back as `History.Undo` does, and the live canvas is the snapshot it then shows |
| Game.App.Redo | App.tsx:78-84 | the log steps forward as `History.Redo` does, and the live canvas is the snapshot it then shows |
| Game.App.KeyDown | App.tsx:86-104 | the key command undoes, redoes or changes nothing |
| Game.App.SavePositionToHistory | App.tsx:141-148 | the render's canvas is recorded unless it is the very object its history shows; the live canvas is untouched |
| Game.FreshPut | App.tsx:106-117 | putting the issued instance on a well-keyed canvas whose counter the effect computed: the id was on no instance, the canvas stays well keyed, and the counter then agrees with the new canvas |
| Game.FreshMerge | App.tsx:236-253 | the same for a merge: the issued id was on no instance and the merged canvas keeps every instance under its own id |
| Game.App.AddElement | App.tsx:112-117 | the selection is cleared and a new instance is put at the position or a third of the window, with one history entry; its id was on no instance of the render's well-keyed canvas, and the counter then agrees with the new canvas |
| Game.App.Duplicate | App.tsx:119-126 | a present instance is copied 20 right and 20 down under an id that was on no instance, with one history entry and the selection cleared; an unknown id changes nothing; stores, events, trash flag and highlight are kept |
| Game.App.UpdateMultiplePositions | App.tsx:128-139 | the listed instances move, with no history entry |
| Game.App.RemoveElement | App.tsx:150-156 | the instance is removed, with one history entry |
| Game.App.ResetCanvas | App.tsx:257-259 | the canvas is emptied, with one history entry |
| Game.App.ResetAll | App.tsx:261-264 | the canvas is emptied and the discoveries are back to the seeds |
| Game.App.ResetAllWithCache | src/App.tsx:253-257 | as `ResetAll`, and the recipe cache is emptied |
| Game.App.Notify | App.tsx:170-173 | the notification is appended with the next number |
| Game.App.Detonate | App.tsx:192-213 | an explosion at the midpoint under the next explosion number, the description announced if there is one, both sources deleted, one history entry; discoveries, cache, ids and pointer state untouched |
| Game.App.Announce | App.tsx:215-234 | the first-discovery bookkeeping: a new name is stored and, with a description, announced under the next notification number; nothing else changes |
| Game.App.Materialise | App.tsx:214-254 | the discovery bookkeeping, then the sources give way to the new instance at their midpoint under the issued id, which was on no instance; one history entry; the counter moves on and nothing else of the tallies changes |
| Game.App.Combine | App.tsx:179-255 | no recipe changes nothing; an explosion or a product changes the canvas, the history and every counter and store exactly as `Detonate` and `Materialise` state, and leaves the pointer state |
| Game.App.MarkProcessing | src/App.tsx:164-174 | both sources on the render's canvas are marked processing, with no history entry |
| Game.App.Resolve | src/App.tsx:160-247 | the cache and discoveries are updated for a new answer; the sources are deleted and the result, if any, appears at the midpoint under an id that was on no instance, with one history entry |
| Drag.Promotes | components/DraggableElement.tsx:68 | a drag starts exactly when the pointer has moved more than 5 pixels along either axis |
| Drag.Affected | components/DraggableElement.tsx:72-78 | the gesture acts on the selection when it holds the pressed instance, otherwise on that instance alone |
| Drag.Toggle | components/DraggableElement.tsx:148-156 | Shift-click removes a selected instance and adds an unselected one |
| Drag.ToggleTwice | components/DraggableElement.tsx:148-156 | two Shift-clicks restore the members, though not always their order |
| Drag.StartPositions | components/DraggableElement.tsx:80-86 | the start position of every selected instance on the canvas is recorded |
| Drag.StartPositionsOnCanvas | components/DraggableElement.tsx:80-86 | the recorded ids are exactly the selected live ones, at their positions |
| Drag.MoveAll | components/DraggableElement.tsx:103-113 | every recorded instance goes to its start plus the pointer delta divided by the zoom |
| Drag.FollowsPointer | components/DraggableElement.tsx:106-112 | a dragged instance is drawn exactly as far from its start as the pointer has moved |
| Drag.BestTarget | components/DraggableElement.tsx:118-132 | the target is the first other instance with the largest overlap above 2500, or none |
| Drag.BestIsUnique | components/DraggableElement.tsx:118-132 | at most one instance is that target |
| Drag.Gesture.constructor | components/DraggableElement.tsx:53-61 | a gesture starts unpromoted, with no start positions and no target |
| Drag.Gesture.Promote | components/DraggableElement.tsx:68-87 | promotion selects an unselected pressed instance alone and records the start positions |
| Drag.Gesture.Follow | components/DraggableElement.tsx:102-113 | the press-time canvas is dragged by the pointer delta, with no history entry |
| Drag.Gesture.Hover | components/DraggableElement.tsx:89-100 | over the sidebar the trash flag goes up and the target is dropped |
| Drag.Gesture.Aim | components/DraggableElement.tsx:115-135 | with the instance mounted, the target and highlight become the scan's answer |
| Drag.Gesture.Track | components/DraggableElement.tsx:89-135 | after promotion: the trash flag, the drag of the press-time canvas and the aim, with selection, history, stores, ids and events kept |
| Drag.Gesture.Move | components/DraggableElement.tsx:63-137 | the drag starts exactly when promoted, selecting the pressed instance alone if unselected and recording the start positions; once started, the trash flag, target, highlight and dragged canvas are as stated, and nothing moves before that |
| Drag.Gesture.Trash | components/DraggableElement.tsx:167-168 | only the last id's removal from the press-time canvas survives |
| Drag.Gesture.Click | components/DraggableElement.tsx:146-160 | a click toggles with Shift and selects the instance alone without; a drag leaves the selection |
| Drag.Gesture.Settle | components/DraggableElement.tsx:143-160 | a finished drag records the press-time canvas unless the press-time history already shows it |
| Drag.Gesture.Discard | components/DraggableElement.tsx:162-170 | past the sidebar's edge the last affected instance is removed from the press-time canvas |
| Drag.Gesture.Merge | components/DraggableElement.tsx:172-178 | a non-empty target on the press-time canvas is combined with the pressed instance, with the full bookkeeping of `Game.App.Combine`; otherwise nothing changes |
| Drag.Gesture.Land | components/DraggableElement.tsx:143-170 | the selection change, the history entry of a finished drag and the trash, with the tallies, trash flag and highlight kept |
| Drag.Gesture.Finish | components/DraggableElement.tsx:172-183 | the merge with the target, then no trash flag, highlight or target; without a target canvas, history and tallies are kept |
| Drag.Gesture.Release | components/DraggableElement.tsx:139-183 | the selection, trash, combine and flags end as the steps state, a combine overrides a trash, and without a combine the tallies are kept |
| Drag.Gesture.ClearFlags | components/DraggableElement.tsx:180-182 | no trash flag, no highlight, no target |
| Drag.TrashKeepsAllButLast | components/DraggableElement.tsx:167-168 | trashing several instances leaves all but the last on the canvas |
| Drag.Press | components/DraggableElement.tsx:53-61 | only a left press starts a gesture, bound to the current render |
| Drag.ContextMenu | components/DraggableElement.tsx:189-193 | the context menu removes the instance, with one history entry; stores, ids, events and pointer state are kept |
| Drag.DoubleClick | components/DraggableElement.tsx:195-197 | a double click duplicates a present instance 20 right and 20 down under an id that was on no instance, clears the selection and moves the counter on; stores, events and the other pointer state are kept |
| CanvasView.BoxSelect | components/Canvas.tsx:78-100 | the selected ids are exactly the non-empty ids of rendered instances touching the box |
| CanvasView.Surface.constructor | components/Canvas.tsx:43-48 | the view starts at the origin with zoom 1, not panning and with no box |
| CanvasView.Surface.MouseDown | components/Canvas.tsx:51-69 | the middle or right button starts panning; a left press on the background clears the selection and starts a box |
| CanvasView.Surface.MouseMove | components/Canvas.tsx:107-116 | panning moves the view by the raw delta; otherwise a box gets the pointer as its second corner |
| CanvasView.Surface.MouseUp | components/Canvas.tsx:71-105 | panning stops; a box selects exactly the instances it touches; the box is cleared |
| CanvasView.Surface.Wheel | components/Canvas.tsx:118-132 | the zoom follows the wheel within [0.2, 3] and the world point under the pointer stays put |
| CanvasView.Surface.Drop | components/Canvas.tsx:134-146 | a dropped element is added at the world point drawn under the drop, under an id that was on no instance, with one history entry and the selection cleared; the counter moves on and agrees with the new canvas; stores, events, trash flag and highlight are kept |
| Sidebar.InsertPermutes | components/Sidebar.tsx:106-117 | one insertion step adds exactly the inserted element |
| Sidebar.SortByFacts | components/Sidebar.tsx:106-117 | the sort is ordered by the key, a permutation, and stable |
| Sidebar.SortedUnique | components/Sidebar.tsx:106-117 | a sorted order that keeps each key's elements in order is unique |
| Sidebar.StableSortIsDetermined | components/Sidebar.tsx:106-117 | any stable sort gives the model's order |
| Sidebar.Reversed | components/Sidebar.tsx:119 | `reverse` puts the elements in the opposite order |
| Sidebar.ReversedMultiset | components/Sidebar.tsx:119 | reversing keeps the elements |
| Sidebar.Shown | components/Sidebar.tsx:101-103 | the filter keeps exactly the elements whose lower-cased name contains the lower-cased term, each as often as it occurs |
| Sidebar.PaletteFacts | components/Sidebar.tsx:97-120 | the palette shows exactly the matching discoveries; ascending, ordered by the sort key with ties in map order; descending, that list reversed, so ties come out in reverse map order |
| Sidebar.PaletteDescending | components/Sidebar.tsx:119 | the descending palette is the ascending one reversed: keys never rise and ties are in reverse map order |
| Sidebar.MatchingReversed | components/Sidebar.tsx:119 | reversing a list reverses the order of the elements sharing any one key |
| Sidebar.Panel.constructor | App.tsx:19-21 | sorting starts by time, ascending, with no search term |
| Sidebar.Panel.SortTypeChange | components/Sidebar.tsx:122-129 | the current type flips the direction; another type is chosen ascending |
| Sidebar.FlipTwice | components/Sidebar.tsx:122-129 | clicking the same sort button twice restores the direction |
| Sidebar.Panel.ResizeMove | components/Sidebar.tsx:77-84 | a width is accepted only within [280, 800], so a width in range stays in range |
| Sidebar.NumColumns | components/Sidebar.tsx:131-138 | at least two columns; one more 130-pixel item with its 8-pixel gap never fits, and above two exactly as many as fit |
| Controls.ClearButton.constructor | components/Controls.tsx:15 | the clear button starts unarmed |
| Controls.ClearButton.Click | components/Controls.tsx:23-30 | the first click arms; a click on an armed button clears the canvas, with one history entry, and disarms, keeping stores, ids, events, pointer state and the arming time |
| Controls.ClearButton.Leave | components/Controls.tsx:65 | leaving the button disarms it |
| Controls.ClearButton.Tick | components/Controls.tsx:17-21 | the button stays armed only for 3000 ms |
| Controls.PressUndo | components/Controls.tsx:47-54 | a disabled undo button does nothing; an enabled one steps back; stores, ids, events and pointer state are kept |
| Controls.PressRedo | components/Controls.tsx:55-62 | a disabled redo button does nothing; an enabled one steps forward; stores, ids, events and pointer state are kept |
| Controls.DisabledMeansNoOp | components/Controls.tsx:47-62 | undo and redo change nothing exactly when their button is disabled |
| Tooltip.Axis | components/Tooltip.tsx:23-39 | 15 pixels after the pointer, flipped before it when it would overflow, and 15 whenever the chosen side is negative; never negative |
| Tooltip.Place | components/Tooltip.tsx:19-40 | left and top are placed each along its own axis |
| Storage.Lookup | hooks/useLocalStorage.ts:16 | a property is found exactly when some field has that name, and it holds a value written under it |
| Storage.Present | hooks/useLocalStorage.ts:42 | `JSON.stringify` drops exactly the undefined properties |
| Storage.Encode | hooks/useLocalStorage.ts:3-12 | a defined value is never written as undefined |
| Storage.KeyIndex | hooks/useLocalStorage.ts:17 | where a Map key first occurs, or that it does not occur |
| Storage.MapFromDistinct | hooks/useLocalStorage.ts:17 | `new Map(entries)` with distinct primitive keys keeps the entries and their order |
| Storage.RoundTrip | hooks/useLocalStorage.ts:3-21 | a value with no undefined, no Map-tagged plain object and distinct Map keys reads back as written |
| Storage.RoundTripArr | hooks/useLocalStorage.ts:3-21 | an array reads back as written once its items do |
| Storage.RoundTripObj | hooks/useLocalStorage.ts:3-21 | an object not tagged as a Map reads back as written once its property values do |
| Storage.RoundTripMap | hooks/useLocalStorage.ts:3-21 | a Map reads back with its entries in order once its keys and values do |
| Storage.TaggedObjectComesBackAsMap | hooks/useLocalStorage.ts:14-21 | a plain object tagged like a Map is written as an empty Map is, and reads back as a Map |
| Storage.ReloadAfterWrite | hooks/useLocalStorage.ts:25-46 | a value that is written is the value the next load gives |
| Storage.Slot.constructor | hooks/useLocalStorage.ts:25-36 | the state is the stored value when it parses, otherwise the initial value |
| Storage.Slot.Set | hooks/useLocalStorage.ts:38-46 | a function update applies to the render's state; storage holds the encoded state unless the write fails |
| Storage.Slot.OnStorage | hooks/useLocalStorage.ts:48-59 | storage under this key holds the new value; only a non-empty change to this key that parses replaces the state |

## Left out

- Rendering: JSX, styling, dark mode, icons, and the Explosion, Notification and Icons components.
  The removal of explosions and notifications by their timers is not modelled.
- DOM queries become parameters: client rectangles, the sidebar's left edge, the canvas origin,
  whether a press hit the background, and the window size.
- Time: `Date.now()` is the parameter `now`. The clear button's `setTimeout` becomes `Tick(now)`.
  The 200 ms delay of the cached combine is not modelled.
- The generative service is the argument `answer` of `Game.App.Resolve`; None means no client or a
  failed call. The prompt and the response schema are not modelled. The `await` between
  `MarkProcessing` and `Resolve`, and events that interleave with it, are not modelled.
- `localeCompare` is the ranking function `rank`. `toLowerCase` and `toUpperCase` are the
  function parameters `lower` and `upper`.
- Numbers are reals. IEEE rounding, NaN positions and infinite widths are not modelled; NaN is
  kept only for id numbers, where `Math.max` produces it.
- The JSON text layer is not modelled. `Storage` works on the tree the text stands for, and the
  `Garbage` item stands for text that does not parse. Cyclic values and BigInt are not modelled.
  A failing storage write is the flag `writeFails`. Cross-tab delivery of the storage event is
  a call of `Storage.Slot.OnStorage`.
- Storage.Slot: models the hook on generic JavaScript values. The encoding of the game's own
  records into those values is not modelled, and `Game.App` holds its persisted slots directly.
- Game.App.Commit: the id-counter effect is not run by the handlers; the caller runs it after a
  render. The `historyInitialized` ref is folded into the constructor.
- Tooltip show and hide, the tooltip's content and description lookup, and `isDragging` are
  not modelled; they only affect the display.
- The highlighted-target ref of a gesture starts as None at each press.
- Sidebar: the search term is a field of `Sidebar.Panel` and the palette is a function of it;
  typing into the search box is a plain assignment and has no method.
- The comparator's `return 0` branch for an unknown sort type cannot be reached, because
  `SortType` has only three values.
- The drag-and-drop payload of a palette card is the parsed element itself.
- The updater passed to `updateCanvas` calls `getNewId` from inside; the model issues the id once,
  as a single run of the updater does. A second run of an updater (React's strict mode) is not
  modelled.
