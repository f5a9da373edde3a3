# beaujson view-model engine, in Dafny

beaujson is a terminal JSON viewer. This project models its core and proves
properties of that model:

- **`json.hpp` view model.** It flattens a JSON document into a doubly linked
  list of display rows between a dummy head and a dummy tail. Each object or
  array row gets a forward skip link. Each node has a `collapsed` flag and a
  map, keyed by indent, of the collapsed containers whose skip lands on it.
  The model is an arena: rows `0..n-1` with indices as pointers, and
  `-1`, `-2`, `-3` for null, the dummy head and the dummy tail (`ViewModel`).
  - `Navigation` states what `forward()` and `backward()` do on a
    consistent model.
  - `Flattener` states the pre-order walk of `doc_to_view_model`.
  - `Landing` defines where a skip lands.
- **`json.cpp`.** An earlier version of the same engine, with one `skip`
  pointer per node (`EarlyViewModel`). It is compared with the later one.
- **`util::trim_space`** (`Util`).
- **The navigation layer of `main_handler` in `main.cpp`.**
  - Pure specifications are in `Handler` and `Display`.
  - The class `Session.MainHandler` holds the cursor, the hovered row and
    the key and mouse handlers.
- **`script/genwidths.py`.** The East Asian Width table generator
  (`GenWidths`). It reads the lines of Unicode's `EastAsianWidth.txt`
  (Unicode Standard Annex #11), keeps the `W` and `F` ranges, sorts them,
  builds and checks the bit list, and emits it reversed in chunks of 100
  characters.

Stateful code is modelled as classes and methods:

- `append`, `set_collapse`, `set_expand`, `add_skips` and the flattener;
- the cursor, the bulk keys and the mouse handler;
- the generator's loops, its in-place sort and its in-place reverse.

Each method is proved against a function on values, and the lemmas state
what the source promises about those functions.

Where the documentation and the code disagree, the model follows the code.
`backward()` takes `cbegin()` of an ascending map, so it returns the
registered container with the **smallest** indent, the outermost one
(json.hpp:73-81). The model states that (`Navigation.Outermost`, `Navigation.BackwardTarget`),
not "the deepest".

## Model

| member | source | states |
|---|---|---|
| Util.FindLastNotSpace | util.cpp:7 | `find_last_not_of(" \t\r\n")`: the index of a non-whitespace character with only whitespace after it, or none when the input is all whitespace |
| Util.FindFirstNotSpace | util.cpp:16 | `find_first_not_of`: the index of a non-whitespace character with only whitespace before it, or none |
| Util.TrimSpace | util.cpp:5-22 | the result is a slice `s[i..j]` whose prefix and suffix are made only of space, tab, CR and LF, and it neither starts nor ends with one of them |
| Util.TrimSpaceEmpty | util.cpp:12-15 | the result is empty exactly when the input is empty or all whitespace |
| Util.TrimSpaceKeeps | util.cpp:7-20 | an input with non-whitespace at both ends comes back unchanged, interior whitespace included |
| Util.TrimSpaceIdempotent | util.cpp:5-22 | trimming twice is trimming once |
| Util.Reverse | main.cpp:401 | element `i` of the result is element `n-1-i` of the input, and the length is kept |
| Landing.Land | json.hpp:264-289 | the landing row of row `i` is the first later row whose indent is not deeper, or the end; every row strictly between is deeper |
| Landing.LandUnique | json.hpp:264-289 | any row with those two properties is the landing row |
| Landing.LandDistinct | json.hpp:258-294 | two rows of equal indent do not share a landing row: the first lands no later than the second row, which lands after itself |
| Landing.LandNested | json.hpp:264-289 | a row inside another's span is deeper and lands no later than it |
| Landing.LandPrefix | json.hpp:264-289 | appending rows does not move a landing already found |
| Landing.LandSuffix | json.hpp:264-289 | the landing rows of a trailing part are those of the part, shifted |
| ViewModel.SetAt | json.hpp:51-108 | writing one node changes that node and no other |
| ViewModel.MinKey | json.hpp:75 | `cbegin()` of a non-empty ascending map: a key of the map no larger than any other |
| ViewModel.CollapsedRows | json.hpp:57 | the collapsed rows are empty exactly when no row is collapsed |
| ViewModel.AppendRow | json.hpp:164-171 | appending keeps the list linked from head to tail |
| ViewModel.AppendRowAdds | json.hpp:164-171 | appending adds the entry at the end of the rows and collapses nothing |
| ViewModel.AppendRowsAdds | json.hpp:164-171 | appending entries one by one adds exactly them, in order, after the existing rows, and leaves the dummies' entries and flags alone |
| ViewModel.AppendRowsConcat | json.hpp:164-171 | appending `a` then `b` is appending `a + b` |
| ViewModel.Model.constructor | json.hpp:121-131 | a fresh model is the empty list: head and tail linked to each other, with null outer links |
| ViewModel.Model.Head | json.hpp:161 | `head()` is the first row, and it is the tail exactly when there are no rows |
| ViewModel.Model.Tail | json.hpp:162 | `tail()` is the dummy tail, whose `next` is null, at position `n` |
| ViewModel.Model.Append | json.hpp:164-171 | `append` relinks the dummy tail's `prev` and the last row's `next` to the new node and keeps the model consistent |
| ViewModel.Model.SetCollapse | json.hpp:83-94 | `set_collapse` is the pure `Collapse`: a no-op on a collapsed node; otherwise it sets the flag and inserts (indent → node) into the skip target's map without overwriting |
| ViewModel.Model.SetExpand | json.hpp:96-107 | `set_expand` is the pure `Expand`: a no-op on an expanded node; otherwise it clears the flag and erases the indent key at the skip target |
| ViewModel.CollapseEffect | json.hpp:83-94 | collapsing a node sets only its own flag, keeps all links, and changes only the target's map, by the key `indent → node` |
| ViewModel.ExpandEffect | json.hpp:96-107 | expanding a collapsed node clears only its flag, keeps all links, and removes only its indent key from the target's map |
| ViewModel.CollapseKeepsConsistent | json.hpp:83-94 | collapse keeps the model consistent: links, skip targets and backward maps agree |
| ViewModel.ExpandKeepsConsistent | json.hpp:96-107 | expand keeps the model consistent |
| ViewModel.CollapseSound | json.hpp:83-94 | after a collapse every registered entry of every map names a collapsed container of that indent whose skip lands there |
| ViewModel.CollapseComplete | json.hpp:83-94 | after a collapse every collapsed container is registered at its target |
| ViewModel.ExpandSound | json.hpp:96-107 | after an expand every registered entry is still a collapsed container landing there |
| ViewModel.ExpandComplete | json.hpp:96-107 | after an expand every collapsed container is still registered |
| ViewModel.NotYetRegistered | json.hpp:83-94 | on a consistent model an expanded container's indent is not yet a key at its target, so `insert` really inserts |
| ViewModel.Model.DocToViewModel | json.hpp:212-250 | the recursive flattener appends exactly the rows of `Flatten` and reports the same failure |
| ViewModel.Model.FieldsToViewModel | json.hpp:217-223 | the object loop appends the rows of its fields in order, each child one level deeper and keyed |
| ViewModel.Model.ItemsToViewModel | json.hpp:224-230 | the array loop appends the rows of its items in order, without keys |
| ViewModel.Model.AddSkips | json.hpp:258-294 | `add_skips` changes only skip links; on shaped rows every container's skip is its landing row, or the tail |
| ViewModel.Model.ScanRows | json.hpp:262-289 | the main loop walks every row and keeps the stack and the running indent invariant |
| ViewModel.Model.ScanRow | json.hpp:266-288 | one row: pop and link the containers not shallower than it, reset the indent, push it if it is a container |
| ViewModel.Model.PopSkips | json.hpp:268-277 | the inner loop links the popped containers to the current row and stops at the first shallower one |
| ViewModel.Model.SkipToTail | json.hpp:290-293 | containers still on the stack get the tail as their skip, and nothing else changes |
| ViewModel.ScanFinish | json.hpp:258-294 | at the end of the pass the skips of shaped rows are their landing rows, and with nothing collapsed the model is consistent |
| ViewModel.FinishOk | json.hpp:264-293 | every container's skip is the row it lands on, the tail for containers open at the end |
| ViewModel.PoppedLands | json.hpp:268-277 | a container popped by row `k` lands on row `k` |
| ViewModel.SkippedNoBackward | json.hpp:258-294 | right after the skips are built, with nothing collapsed, the backward maps are sound and complete |
| ViewModel.Load | json.hpp:299-307 | `load` fails exactly on a document with an unknown value; otherwise the rows are the flattened document, the skips are set, and nothing is collapsed |
| Flattener.FlattenIsPreorder | json.hpp:212-256 | the flattener emits one row per JSON value in pre-order: containers as `{`/`[`, children one level deeper, fields keyed, items unkeyed, primitives as trimmed tokens, and each container's span ends at its landing row |
| Flattener.FieldsArePreorder | json.hpp:217-223 | the same for the fields of an object |
| Flattener.ItemsArePreorder | json.hpp:224-230 | the same for the items of an array |
| Flattener.FlattenThrows | json.hpp:247-248 | flattening succeeds exactly when the document has no value of unknown type |
| Flattener.FlattenDepth | json.hpp:212-256 | every row is at least as deep as the level the walk started at |
| Flattener.FieldsAppend | json.hpp:219-222 | flattening `a + b` fields is flattening `a`, then `b` unless `a` threw |
| Flattener.ItemsAppend | json.hpp:226-229 | flattening `a + b` items is flattening `a`, then `b` unless `a` threw |
| Flattener.PrimitiveMatches | json.hpp:231-246 | a primitive yields one row with its trimmed token at the given level and key |
| Navigation.ForwardNextVisible | json.hpp:72 | from a visible row, `forward()` goes to the next visible row (or the tail), past only hidden rows |
| Navigation.ForwardCollapsed | json.hpp:72 | from a collapsed container, `forward()` follows `forward_skip` past its hidden span |
| Navigation.ForwardExpanded | json.hpp:72 | from an expanded row, `forward()` is `next` |
| Navigation.ForwardAdvances | json.hpp:72 | `forward()` of a row is a later row or the tail |
| Navigation.BackwardNoSkip | json.hpp:75-79 | with an empty map, `backward()` is `prev` |
| Navigation.BackwardPrevVisible | json.hpp:73-81 | from a visible row, `backward()` goes to the previous visible row (or the head), past only hidden rows |
| Navigation.BackwardSkip | json.hpp:73-81 | with a non-empty map, `backward()` goes to a visible container that lands here, past only hidden rows |
| Navigation.BackwardTarget | json.hpp:73-81 | the registered container that `backward()` returns is collapsed and lands here |
| Navigation.BackwardRetreats | json.hpp:73-81 | `backward()` of a row after the first is an earlier row |
| Navigation.FirstGoesToHead | json.hpp:73-81 | `backward()` of the first row is the dummy head |
| Navigation.ForwardThenBackward | json.hpp:72-81 | `backward(forward(p)) == p` for a visible row |
| Navigation.BackwardThenForward | json.hpp:72-81 | `forward(backward(t)) == t` for a visible row or the tail |
| Navigation.ExpandUndoesCollapse | json.hpp:83-107 | expand after collapse restores the model exactly, flags, maps and hence `forward()`/`backward()` |
| Navigation.CollapseUndoesExpand | json.hpp:83-107 | collapse after expand restores the model exactly |
| Navigation.CollapseKeepsNav | json.hpp:83-94 | collapsing a container keeps the model navigable |
| Navigation.ExpandKeepsNav | json.hpp:96-107 | expanding a row keeps the model navigable |
| Navigation.CollapsePrimitiveLosesForward | json.hpp:83-94 | `set_collapse` has no kind check: a collapsed primitive's `forward()` is its null `forward_skip` |
| Navigation.FreshWalkFromHead | json.hpp:299-307 | with nothing collapsed, `k + 1` steps of `forward()` from the dummy head reach row `k`: every row once, in order, then the tail |
| Handler.AtTopMeans | main.cpp:524 | `at_top()` holds exactly when `backward()` is the dummy head, that is when every earlier row is hidden |
| Handler.AtBottomMeans | main.cpp:526 | `at_bottom()` holds exactly when every later row is hidden |
| Handler.ScrollDown | main.cpp:504-510 | scrolling forward never moves back and stays on a real row |
| Handler.ScrollUp | main.cpp:512-518 | scrolling backward never moves forward and stays on a real row |
| Handler.ScrollDownWalk | main.cpp:504-510 | `scroll_forward(n)` takes at most `n` `forward()` steps, and fewer only when the cursor is at the bottom |
| Handler.ScrollUpWalk | main.cpp:512-518 | `scroll_backward(n)` takes at most `n` `backward()` steps, and fewer only when the cursor is at the top |
| Handler.ScrollVisible | main.cpp:504-518 | scrolling from a visible row ends on a visible row |
| Handler.ScrollDownSplit | main.cpp:504-510 | scrolling by `a + b` is scrolling by `a`, then by `b` |
| Handler.ScrollUpSplit | main.cpp:512-518 | the same backward |
| Handler.ScrollsUndo | main.cpp:504-518 | the steps scrolling down took, taken back up, return to the start, and the same the other way |
| Handler.BottomIsLastVisible | main.cpp:522 | `scroll_to_bottom()` puts the cursor on the last visible row, which is at the bottom |
| Handler.TopIsFirstVisible | main.cpp:520 | `scroll_to_top()` puts the cursor on the first row, which is visible and at the top |
| Handler.CollapseEvery | main.cpp:590-601 | the `'-'` loop as written: every row, primitives included, ends collapsed |
| Handler.CollapseFrom | main.cpp:590-601 | the `'-'` loop restricted to containers: exactly the containers from row `k` on become collapsed, links kept, still navigable |
| Handler.ExpandFrom | main.cpp:602-613 | the `'+'` loop: every row from `k` on ends expanded, links kept, still navigable |
| Handler.CollapseEveryLosesForward | main.cpp:590-601 | after the as-written `'-'`, a primitive row's `forward()` is null |
| Handler.CollapseFromKeepsForward | main.cpp:590-601 | after `'-'` on containers only, `forward()` of every row is a later row or the tail |
| Handler.ExpandAllRestores | main.cpp:602-613 | `'+'` restores the model as it was loaded, with nothing collapsed |
| Handler.NoBackwardSkips | json.hpp:73-81 | with nothing collapsed every backward map is empty |
| Handler.Reach | main.cpp:545-550 | the click walk ends on a row or the tail, never before the cursor |
| Handler.Toggle | main.cpp:551-560 | a click on a container flips its flag and changes `forward()` of no other row |
| Handler.ToggleTwice | main.cpp:551-560 | toggling twice restores the model |
| Handler.ClickEffect | main.cpp:543-562 | a left click keeps the model navigable and its links unchanged |
| Handler.ClickTwice | main.cpp:543-562 | two clicks at the same place restore the model |
| Session.ActionKinds | main.cpp:586-696 | which keys collapse, expand, scroll down, scroll up and quit, and that `j`/`k` move by one row |
| Session.Apply | main.cpp:586-696 | every key leaves the handler on a real row of a navigable model; `'-'` runs the corrected collapse of every container (see Findings) |
| Session.ApplyEffects | main.cpp:614-693 | an action beeps exactly when it scrolls toward the bound the cursor is at; a beep changes nothing; only the bulk keys change the model; only `q` stops |
| Session.KeyEffects | main.cpp:586-696 | the same, stated for the key pressed |
| Session.KeyKeepsVisible | main.cpp:614-691 | every key but `'-'` leaves the cursor on a visible row |
| Session.DownUpReturns | main.cpp:614-638 | one row down then one up, away from the bound, returns to the same row, and the same the other way |
| Session.JThenK | main.cpp:614-638 | `j` then `k`, away from the bottom, returns the cursor; `k` then `j` likewise |
| Session.MinusThenPlus | main.cpp:590-613 | on a freshly loaded model `'-'` then `'+'` gives back the model |
| Session.CollapseNext | main.cpp:593-598 | one step of the `'-'` loop leaves the rest of the loop doing the same |
| Session.ExpandNext | main.cpp:605-610 | one step of the `'+'` loop leaves the rest of the loop doing the same |
| Session.Screen | main.cpp:265-341 | the drawn rows: at most `rows - 2` of them, all real rows at or after the cursor |
| Session.ScreenShowsVisible | main.cpp:265-341 | the drawn rows start at the cursor, go strictly down, are all visible, and skip no visible row before the last one drawn |
| Session.ScreenLines | main.cpp:256-348 | a screen narrower than 16 columns draws nothing; otherwise `rows - 2` lines: one per row of `Screen`, each no wider than the screen when its own indent leaves room, then tildes; text is cut with the corrected ellipsis (see Findings) |
| Session.ParentOf | main.cpp:399 | a row's parent is null or an earlier row |
| Session.Chain | main.cpp:378-400 | the chain starts at the hovered node, follows `parent` one link at a time, and ends at a node without a parent |
| Session.CrumbsPath | main.cpp:360-401 | the breadcrumb exists exactly when the walk to the hovered row meets no null; it is the labels of a path from a root down parent links to the hovered row |
| Session.ChainPath | main.cpp:377-401 | the reversed labels of the parent chain are the labels of a root-first path of parent links ending at the node |
| Session.MainHandler.constructor | main.cpp:534-538 | `start()`: the cursor on `head()`, no row hovered |
| Session.MainHandler.ScrollForward | main.cpp:504-510 | the loop moves the cursor to `ScrollDown` of where it was |
| Session.MainHandler.ScrollBackward | main.cpp:512-518 | the loop moves the cursor to `ScrollUp` of where it was |
| Session.MainHandler.AtTopNow | main.cpp:524 | `at_top()` of the current cursor |
| Session.MainHandler.AtBottomNow | main.cpp:526 | `at_bottom()` of the current cursor |
| Session.MainHandler.CollapseAll | main.cpp:590-601 | `'-'` collapses every container and leaves the handler valid |
| Session.MainHandler.CollapseAllAsWritten | main.cpp:590-601 | `'-'` as written calls `set_collapse` on every row, primitives included |
| Session.MainHandler.ExpandAll | main.cpp:602-613 | `'+'` expands every row and leaves the handler valid |
| Session.MainHandler.Click | main.cpp:543-562 | a left click changes the model as `ClickEffect` says |
| Session.MainHandler.ClickTarget | main.cpp:545-550 | the click loop walks `forward()` at most `min(y, rows - 1)` times, stopping at the tail |
| Session.MainHandler.Mouse | main.cpp:541-578 | a click toggles the reached container; a move sets the hovered row; the cursor does not move |
| Session.MainHandler.Key | main.cpp:586-696 | the key handler leaves the model, cursor, beep and control that `KeyEffect` says; `'-'` runs the corrected collapse of every container (see Findings) |
| Session.MainHandler.PrintJson | main.cpp:256-348 | the lines drawn are `ScreenText` of the model and cursor, with text cut by the corrected ellipsis (see Findings) |
| Session.MainHandler.DrawRows | main.cpp:265-347 | the row loop draws the text of each row of `Screen`, then tildes, with text cut by the corrected ellipsis (see Findings) |
| Session.MainHandler.Breadcrumb | main.cpp:360-401 | the labels are `Crumbs` of the hovered row |
| Session.MainHandler.Hover | main.cpp:367-375 | the hover walk of `_row_highlight` `forward()` steps, giving up on a null pointer |
| Session.MainHandler.CollectLabels | main.cpp:377-400 | the label loop collects the labels of the parent chain, hovered node first |
| Session.ReverseLabels | main.cpp:401 | `std::reverse` of the labels |
| Session.Open | main.cpp:529-538 | opening fails exactly on an unknown value; otherwise the handler is valid on the flattened document, nothing collapsed |
| Display.CDiv | main.cpp:669-680 | C++ `int` division, truncating toward zero |
| Display.ColumnsAppend | main.cpp:286 | the columns of two texts add up |
| Display.FitIsLongest | main.cpp:282-295 | the number of characters kept is the longest prefix that fits in the limit |
| Display.ClippedMeans | main.cpp:282-300 | text is cut exactly when it does not fit; then it is the longest fitting prefix followed by `…` |
| Display.ClippedWithin | main.cpp:282-300 | the clipped text ends at most one column past the limit |
| Display.CounterAhead | main.cpp:296-302 | the column counter is never behind what was drawn |
| Display.AsWrittenDropsLastSilently | main.cpp:282-300 | as written, `"ab"` under a limit of 1 prints `"a"` without `…` |
| Display.Clip | main.cpp:282-295 | the loop keeps exactly the fitting prefix and counts one character more |
| Display.Truncate | main.cpp:280-300 | the truncation loop yields `Clipped` and the column after it |
| Display.TruncateAsWritten | main.cpp:280-300 | the truncation as written, ellipsis only when the loop stopped before the last character |
| Display.NarrowColumns | main.cpp:286 | text with no full-width character takes one column per character |
| Display.MarkerColumns | main.cpp:327-338 | the collapse marker takes at most four columns |
| Display.KeyPartWithin | main.cpp:278-303 | the key part ends by the value's column and at most three past the key limit |
| Display.RowFits | main.cpp:256-341 | on a screen at least 16 wide, a row indented at most `cols - 8` fits in `cols` columns |
| Display.RenderRow | main.cpp:272-338 | the row loop builds `RowText`, whose key and value are cut by the corrected ellipsis (see Findings) |
| EarlyViewModel.Model.constructor | json.cpp:61-67 | a fresh model has the dummies linked to each other with null outer links |
| EarlyViewModel.Model.Head | json.cpp:81 | `head()` is the first row, or the dummy tail |
| EarlyViewModel.Model.Tail | json.cpp:82 | `tail()` is the last real row (`_tail->prev`), the dummy head when empty |
| EarlyViewModel.Model.Append | json.cpp:84-92 | the new node goes before the dummy tail with a null skip |
| EarlyViewModel.AppendRowsAdds | json.cpp:84-92 | appending adds the entries in order with null skips |
| EarlyViewModel.Model.DocToViewModel | json.cpp:203-237 | the earlier flattener appends the same rows as the later one and throws on the same documents |
| EarlyViewModel.Model.FieldsToViewModel | json.cpp:208-214 | the object loop appends its fields' rows |
| EarlyViewModel.Model.ItemsToViewModel | json.cpp:215-221 | the array loop appends its items' rows |
| EarlyViewModel.Model.AddSkips | json.cpp:239-276 | the earlier pass changes only skips; on shaped rows a container's skip is its landing row, null when it lands at the end |
| EarlyViewModel.Model.ScanNodes | json.cpp:244-269 | the loop goes on through the dummy tail (`while (cur)`) |
| EarlyViewModel.Model.ScanNode | json.cpp:246-268 | one node of the loop, the dummy tail included |
| EarlyViewModel.Model.PopSkips | json.cpp:248-257 | popped containers skip to the current node |
| EarlyViewModel.Model.ClearSkips | json.cpp:270-275 | containers left on the stack get a null skip |
| EarlyViewModel.Load | json.cpp:278-286 | loading fails exactly on an unknown value; otherwise the rows are the flattened document with the earlier skips |
| EarlyViewModel.EarlyAgainstLater | json.cpp:239-276 | a container's earlier skip equals the later `forward_skip`, except null where the later one is the tail and the uninitialised tail entry is deeper |
| EarlyViewModel.EarlyRootSkip | json.cpp:270-275 | a root container gets a null skip unless the tail entry's indent is at most 0 |
| EarlyViewModel.LaterRootSkip | json.hpp:290-293 | in the later version a root container skips to the tail |
| EarlyViewModel.RootLandsAtEnd | json.hpp:255 | the root row is at level 0 without a key and lands at the end |
| GenWidths.StripEmpty | script/genwidths.py:16-18 | a stripped line is blank exactly when it is all whitespace |
| GenWidths.CutComment | script/genwidths.py:13-15 | the line up to its first `#`, which contains no `#` |
| GenWidths.Find | script/genwidths.py:13 | `str.find`: the first occurrence, or -1 when there is none |
| GenWidths.SplitPieces | script/genwidths.py:19-20 | no piece of `str.split(sep)` contains the separator |
| GenWidths.SplitJoin | script/genwidths.py:19-20 | joining the pieces with the separator gives back the text |
| GenWidths.ToHexParseHex | script/genwidths.py:20 | `int("0x" + x, 16)` reads back the hex text of a number |
| GenWidths.ParseLine | script/genwidths.py:13-25 | a line is blank exactly when it has only whitespace before its `#` |
| GenWidths.ParseContent | script/genwidths.py:19-25 | a line fails when a point is not hex or there is no second field; it is wide exactly when the class is `W` or `F`; a single point is a one-point range |
| GenWidths.RangeEntryParses | script/genwidths.py:19-26 | `A..B;W` reads as the range [A, B], and another class is skipped |
| GenWidths.PointEntryParses | script/genwidths.py:19-26 | `A;W` reads as the range [A, A], and another class is skipped |
| GenWidths.CommentIgnored | script/genwidths.py:13-15 | text after `#` does not change how a line reads |
| GenWidths.WideRangesFromLines | script/genwidths.py:23-26 | a range is kept exactly when some line reads as that wide range |
| GenWidths.ReadRanges | script/genwidths.py:11-26 | the reading loop fails exactly when a line is malformed; otherwise it keeps the wide ranges in file order |
| GenWidths.SortByStart | script/genwidths.py:28 | the sort leaves the ranges ordered by start and a permutation of what they were |
| GenWidths.Width | script/genwidths.py:30-34 | the bit list is one longer than the largest range end |
| GenWidths.CoversStep | script/genwidths.py:30-34 | in start order, the next range changes no bit below the current length |
| GenWidths.BuildBits | script/genwidths.py:30-34 | the bit list has length largest end plus one, only `0`/`1`, and for sorted ranges bit `c` is `1` exactly when a range covers `c` |
| GenWidths.ExtendTo | script/genwidths.py:32-34 | the inner loop appends bits up to the range's end, `1` exactly inside it |
| GenWidths.CheckOnes | script/genwidths.py:38-41 | the first check passes exactly when every point of every range is `1` |
| GenWidths.CheckBefore | script/genwidths.py:42-44 | the second passes exactly when there is a range and every point before the first is `0` |
| GenWidths.CheckBetween | script/genwidths.py:45-50 | the third passes exactly when every gap between consecutive ranges is `0` |
| GenWidths.CheckTable | script/genwidths.py:38-50 | the three checks in order pass exactly when all three hold |
| GenWidths.TableHolds | script/genwidths.py:30-50 | the bit list of sorted, proper, non-overlapping ranges passes all three checks |
| GenWidths.GapHolds | script/genwidths.py:45-50 | no range covers a point in a gap between consecutive sorted ranges |
| GenWidths.SortedConsecutive | script/genwidths.py:45-50 | sorting proper, non-overlapping ranges leaves gaps between neighbours |
| GenWidths.ReorderedCover | script/genwidths.py:28 | sorting keeps the ranges and what they cover |
| GenWidths.ReverseInPlace | script/genwidths.py:53 | `bits.reverse()` leaves the reverse of the list in place |
| GenWidths.ChunksConcat | script/genwidths.py:54-55 | the chunks put together are the text |
| GenWidths.ChunksSizes | script/genwidths.py:53-55 | there are `ceil(n / 100)` chunks, all of 100 characters except a non-empty last one |
| GenWidths.ChunkLines | script/genwidths.py:54-55 | the output lines are the chunks, each quoted and indented by eight spaces |
| GenWidths.Tabulate | script/genwidths.py:28-55 | no ranges fail; proper non-overlapping ranges give a table; a table's text, reversed, has `1` exactly at covered code points, and its rows are the chunks |
| GenWidths.Generate | script/genwidths.py:9-55 | a malformed line or no wide line fails; proper, non-overlapping wide ranges give a table describing them |

## Left out

- Drawing and the terminal are not modelled: ncurses, the event loop, the highlight and the status bar (main.cpp:343-358, 438-458). What `print_json` draws is modelled as lines of text.
- UTF-8 decoding and `util::is_full_width` are not modelled. A character stands for one code point, and whether it is full-width is the parameter `wide`, because the width table is external.
- The cut of the breadcrumb at the screen width (main.cpp:403-430) is not modelled, only its labels.
- `parent`, `entry.flags` and `model_line_num` come from a newer header. `parent` is a parameter sequence of earlier rows. The flags are derived from the kind and the key. `model_line_num` is used only by the status bar.
- Session.KeyKeepsVisible: says nothing about `'-'`. After it the cursor can sit inside a collapsed container, as in the source.
- ViewModel.Model.AddSkips: the skip targets are stated only for shaped rows, where the first indent is at most 0 and a row is at most one level deeper than the one before, and only after a container. The flattener's output is shaped, so `Load` states them unconditionally.
- EarlyViewModel.Model.AddSkips: the same restriction to shaped rows, and only after a container, as for `ViewModel.Model.AddSkips`.
- ViewModel.DummyEntry: the dummy head and tail entries get indent 0 and kind `null`. json.hpp:37 leaves both uninitialised, so the model fixes one value where the source has none.
- Session.Apply: `'-'` runs the corrected loop `Handler.CollapseFrom`, which collapses only objects and arrays. The loop as written at main.cpp:590-601 is `Session.MainHandler.CollapseAllAsWritten`, and `Handler.CollapseEveryLosesForward` shows how it loses `forward()` (see Findings).
- Session.MainHandler.Key: the same as `Session.Apply`. `'-'` runs the corrected `Handler.CollapseFrom`, not the as-written `Session.MainHandler.CollapseAllAsWritten` (see Findings).
- Display.RowText: cuts keys and values with the corrected `Clipped`, which always prints `…` when text was left out. The loop as written at main.cpp:282-300 is `Display.ClippedAsWritten`, and it drops the last character silently (`Display.AsWrittenDropsLastSilently`).
- Display.RenderRow: builds the corrected `RowText`, not the as-written cut (see `Display.RowText`).
- Session.ScreenLines: states the corrected drawing of `Display.RowText`, not the as-written cut.
- Session.MainHandler.DrawRows: draws the corrected `Display.RowText`, not the as-written cut.
- Session.MainHandler.PrintJson: draws the corrected `Display.RowText`, not the as-written cut.
- EarlyViewModel.Load: the dummy entries of `json.cpp` are never initialised, so they are parameters. The earlier skips of containers open at the end depend on that uninitialised tail entry.
- JSON parsing, simdjson, unescaping and number parsing are left out. A document is a `Json` value with raw tokens; `Unknown` stands for the type the switch does not know.
- Memory management, destructors, move operators and `debug_print` are left out.
- The indent is an unbounded integer, so C++ `int` overflow is not modelled.
- `genwidths.py`'s argument parsing, file reading and the printing of the C++ header (script/genwidths.py:1-7, 56-70) are left out. The lines of the file are the input, and the table is the output.
- GenWidths.ParseHex: reads only ASCII hex digits with Python's underscore rules. `int()` also accepts other Unicode decimal digits, which `EastAsianWidth.txt` does not use.
- GenWidths.Generate: the failure conditions are sufficient, not exact. Overlapping or reversed ranges may fail or not, depending on whether the checks catch them.
- GenWidths.SortByStart: does not state that the sort is stable. The order of equal starts does not change the bit list.

## Findings

| source | as written | input that shows it | evidently intended | confidence | as-written member | corrected member |
|---|---|---|---|---|---|---|
| main.cpp:590-601 | `'-'` calls `set_collapse` on every row, and `set_collapse` has no kind check, so a primitive row is collapsed with a null `forward_skip` | the document `[1]`: after `'-'`, `forward()` of the row `1` is null, so the next walk from it follows a null pointer | collapse every object and array only | medium, not executed | Handler.CollapseEveryLosesForward | Handler.CollapseFromKeepsForward |
| main.cpp:282-300 | `utf8::next` has already advanced the iterator when the width test breaks, so when the first character that does not fit is the last one, the loop ends at `end` and no `…` is printed | the text `"ab"` at column 0 under a limit of 1 prints `"a"`, silently dropping `b` | print `…` whenever a character was left out | medium, not executed | Display.AsWrittenDropsLastSilently | Display.ClippedMeans |
