# Verified models of nsst

nsst is a terminal emulator built on a number of hand-written data structures. Each keeps a fast,
in-place representation of something simple. This project models these structures in Dafny, branch by
branch, and proves that each of them is what it stands for: in every reachable state, for every input.

| part | what it stands for | modules |
|---|---|---|
| lines with their attribute tables | text: characters with attributes | `Cells`, `AttrTable`, `Lines` |
| list of lines, order labels, screen spans, weak handles | a document, and rows of it | `Handles`, `Stores`, `Concats`, `Ranges`, `Rotation` |
| wrapping, scrolling, history and resizing | the same document, shown differently | `Reflow`, `Positions`, `ScreenRows`, `Scrolling`, `History`, `Wrapping`, `Resize`, `MainScreen` |
| pool allocator | disjoint blocks that keep their bytes and their room to grow | `MultiPools` |
| timer queue | a table of timers, fired in the order of their deadlines | `Timers` |
| tree of protocol names | a set of names, letter case aside | `ProtoTrees` |
| hash table and glyph cache | a finite map; what rendering gives, the latest glyphs first | `Powers`, `HashTables`, `Rings`, `GlyphCaches` |
| merge sort and rectangle fill | the one stable-in-reverse ordering; a scalar double loop | `MergeSort`, `RectFill` |
| control sequence parser, SGR printer and decoder | sequences as they are spelled; attributes | `ControlSequences`, `Spelling`, `Sgr`, `SgrCodes`, `SgrLengths` |

`Sequences` and `Sets` hold what the models share. What the source updates in place is a class where that
was workable (`Lines.Line`, `MainScreen.Screen`, `HashTables.Table`, `GlyphCaches.GlyphCache`, the arrays of
`MergeSort` and `RectFill`); elsewhere memory is a value that methods take and return, with addresses as
numbers, so that links, back-pointers and moved blocks are still those of the source.

How the pieces of the paragraph store fit: `Lines` shows that the cells of a line and its table, whatever is
done to them, are a paragraph (`Line.Value`). `Stores` to `MainScreen` work on lines that hold paragraphs:
`Stores.Valid` is the invariant of list, labels, spans and handles, and `Scrolling.ScreenOk` adds what
`validate_main_screen` (`screen.c:606-646`) asserts. `MainScreen.Screen.Valid` holds from its constructor on
and after every operation.

## Model

| member | source | states |
|---|---|---|
| `AttrTable.InsertAttr` | line.c:48-64 | the probe loop fails exactly if the table is full and lacks the attribute; otherwise the id's slot held the attribute or was free, nothing else changes, and no slot becomes unreachable for a later search |
| `AttrTable.FreeSlotFound` | line.c:48-64 | the first free slot on the probe path proves that the attribute is stored nowhere, and taking it keeps the table searchable |
| `AttrTable.MoveOneAttr` | line.c:124-132 | a slot is copied on its first visit only; the forwarding mark left in it leads every later visit to the same copy, and marks of other slots stay |
| `AttrTable.NoneLost` | line.c:134-152 | if every forwarded attribute has an id in the new table, there were no more of them than slots |
| `AttrTable.OneLost` | line.c:134-152 | if one was lost, there were more than slots: the two together say exactly when a move loses an attribute |
| `AttrTable.GrowFits` | line.c:171-179 | below the ceiling of ids, the table after growing has room for everything stored and used |
| `Lines.Line.constructor` | line.c:203-205 | a new line is empty, readable, and pads with the requested attribute |
| `Lines.Line.AttrAt` | line.h:269-272 | reads what the cell shows, or the padding behind the last cell |
| `Lines.Line.MoveAttrtab` | line.c:134-152 | the renumbered line reads as before exactly if the new table has a slot for each id in use |
| `Lines.Line.AllocAttr` | line.c:154-182 | no cell and not the padding changes its attribute, even when the full table is moved slot by slot; the id resolves to the requested attribute; nothing else enters the table, which doubles exactly if it is full without the attribute |
| `Lines.Line.OptimizeAttributes` | line.c:252-287 | the line reads as before if and only if the ids in use are not undercounted |
| `Lines.Line.OptimizeLine` | line.c:357-372 | the same for the whole line, which gives up its spare capacity |
| `Lines.CountedIds` | line.c:256-275 | the bit count misses one id in use exactly if it equals a capacity of 64 or more |
| `Lines.MovedText` | line.c:134-152 | forwarding marks and renumbered ids give back every cell's attribute exactly if all used attributes fit |
| `Lines.TextLost` | line.c:252-287 | any line with a table of 64, of which it uses the first and the last id, does not read as before after optimize_attributes |
| `Lines.TwoOf64` | line.c:154-182 | there are such lines: this one reads A and B in two attributes, its table is well formed, and ids 1 and 64 are the ones in use |
| `Lines.CopyLine` | line.c:432-464 | cells copied between two lines show the same characters and attributes there, within one line too where source and target overlap; the rest of the target and its padding stay |
| `Lines.CutTail` | line.c:289-355 | cutting a line gives two lines that hold the two parts of its text, attribute by attribute; the wrap mark goes to the second, the padding to both |
| `Lines.Append` | line.c:374-430 | the joined line holds both texts, with padding and wrap mark of the second, although all ids of the second were translated |
| `Lines.CutAndAppend` | line.c:289-430 | appending the tail that was cut off gives back each character, attribute, the padding and the wrap mark, for every offset |
| `Lines.CutJoin` | line.c:289-430 | the other round trip: cutting where two lines were joined gives the second back, and the text of the first |
| `Handles.Add` | line.h:305-322 | the handle is first in its line's list, all lists stay linked both ways, no handle changes its cell |
| `Handles.Remove` | line.h:328-358 | just this handle leaves its list, the others keep order and cells; removing an unregistered handle does nothing |
| `Handles.Rehome` | line.c:326-336 | while it unlinks and relinks, the loop visits every handle of the line once: exactly those behind the cut change to the other line |
| `Handles.Readdress` | line.c:207-233 | a line that moves in memory takes its handles along, each at its cell and in the same order |
| `Handles.Release` | line.c:86-108 | handles of a freed line point nowhere, all others stay registered at their cells |
| `Handles.Replace` | line.h:390-414 | only the replaced handle changes its cell; it is registered there, and all others still are |
| `Stores.FixupLinesSeqno` | line.h:370-375 | labels increase again along the whole list and stay below the counter; the text stays |
| `Stores.TailLabel` | line.c:295-297 | a label between its neighbours, or at the end of the list, or else the lines behind it are the only ones out of order |
| `Stores.LabelOrder` | line.h:381-388 | labels order lines as the list does |
| `Stores.NoSpanOutside` | line.c:75-79 | if the labels of the first and last span rule a line out, no span refers to it |
| `Stores.FixSpans` | line.c:75-84 | visiting the one run of spans of a line adjusts every span of the screen that needs it |
| `Stores.SplitLine` | line.c:289-355 | the document is the old one with one paragraph in two; each span and each handle names the cell it named; list, labels, spans and handles are in order again |
| `Stores.SplitDocAt` | line.c:306-313 | in the place of the paragraph there are its two parts, and only the last one keeps the wrap mark |
| `Concats.ReallocLine` | line.c:207-247 | only address and capacity of one line change, with what no longer fits; links, spans and handles follow it |
| `Concats.ConcatLine` | line.c:374-430 | two neighbouring paragraphs become one; each span and each handle of either names its old cell; the invariant of the store holds |
| `Concats.JoinDocAt` | line.c:374-430 | in the place of the two paragraphs there is one with both texts, and padding and wrap mark of the second |
| `Concats.ConcatUndoesSplit` | line.c:289-430 | the document and the rows are back after a split and a concatenation |
| `Concats.SplitUndoesConcat` | line.c:289-430 | and after a concatenation and a split, but for padding and wrap mark of the first line |
| `Concats.SplitAndConcat` | line.c:289-430 | the two operations in a row: document, rows of the screen and cells named by handles are back |
| `Concats.HandlesComeBack` | line.c:289-430 | every handle of a line that is split and joined names its cell |
| `Ranges.CreateLinesRange` | screen.c:451-483 | at a place where the list is open, a run of blank lines with increasing labels closes it, shown from slot y on |
| `Ranges.FreeTail` | screen.c:31-40 | the document ends in front of the first freed line; handles of freed lines point nowhere, the others keep their cells |
| `Rotation.Reordered` | screen.c:1340-1353 | three cuts leave a list that is as well the cut list in the exchanged order |
| `Rotation.Swap3` | screen.c:1340-1353 | six pointer updates exchange two neighbouring runs of lines: links, text and labels are those of the rotated list |
| `Reflow.LineSegments` | line.h:237-249 | the loop counts the rows of the one layout of the paragraph in which every row is filled |
| `Reflow.RowEnd` | line.h:230-235 | a row ends at a place exactly if it takes as many cells as it can there: it stops short of the width only at the end of the text, or by one cell in front of a wide character, and it cuts no wide character |
| `Reflow.LayoutCounted` | line.h:237-249 | every layout of filled rows has as many rows as are counted |
| `Reflow.HasLayout` | line.h:237-249 | there is such a layout from every offset |
| `Reflow.LayoutStarts` | line.h:237-249 | row i starts where it does in the layout |
| `Reflow.IndexOrders` | line.h:237-249 | row indices number the rows of the document without gaps, in document order |
| `Reflow.ShiftsCompose` | line.h:434-462 | shifts that are not clamped add up |
| `Reflow.ShiftBack` | line.h:434-462 | shifting by n and by -n comes back exactly if the first shift was not clamped or started at that end |
| `Reflow.ShiftDetermined` | line.h:434-462 | row and rest are determined by start and amount |
| `Reflow.RoundOffset` | screen.c:668-681 | the offset found starts the row that holds the cell |
| `Reflow.RowHoldsOnce` | line.h:230-235 | no cell is in two rows |
| `Reflow.RowHoldsSome` | line.h:230-235 | every cell is in a row |
| `Reflow.CutRow` | screen.c:788-793 | a paragraph cut off behind a row keeps the rows up to it |
| `Positions.SpanShift` | line.h:416-432 | goes to the next row of the document, and says so exactly if there is none |
| `Positions.ShiftN` | line.h:434-462 | adds the amount to the global row index, clamped at both ends of the document, and returns what was not moved |
| `Positions.SpanCmpIsDocumentOrder` | line.h:381-388 | comparing labels and offsets compares places in the document, all three ways |
| `Positions.Translate` | screen.c:569-603 | the cursor gets the row, counted from the top of the screen, and the column of its cell; a cell above leaves it within bounds, one behind the text is not found |
| `ScreenRows.SplitKeepsRows` | screen.c:153-180 | splitting a line where a row starts changes nothing that is seen |
| `ScreenRows.ClearKeepsRows` | screen.c:1187-1205 | clearing a line that is one row leaves every other row and the text above the screen alone |
| `ScreenRows.RotateKeepsRows` | screen.c:1394-1428 | exchanging runs of lines and of spans alike moves rows, each with what it shows, and keeps the screen in order |
| `ScreenRows.EraseAndRotate` | screen.c:1355-1452 | blanking the leaving rows and rotating is scrolling |
| `Scrolling.SplitBefore` | screen.c:165-172 | row y starts a line afterwards; the screen shows what it did and is in order |
| `Scrolling.SplitAfter` | screen.c:175-180 | the same for the row behind |
| `Scrolling.EraseFast` | screen.c:1187-1205 | exactly the rows in the range become blank, as lines of their own; the others and the text above stay |
| `Scrolling.ScrollRegion` | screen.c:1355-1452 | rows of the region move by the clamped amount with what they show, exposed rows are blank, rows outside the region and the text above the screen stay, and the screen's invariant holds |
| `History.PushHistory` | screen.c:423-439 | counts the lines between the old and the new top of the screen; when the top moves up it counts nothing, as its second loop is never entered |
| `History.ScrollIntoHistory` | screen.c:1370-1392 | rows leave at the top, the text of the whole document stays the same, blank lines come in at the bottom of the region, and the lines that left are counted |
| `Wrapping.WrappedChained` | screen.c:606-646 | rows made by wrapping lie in their lines and follow each other, which is what the screen's own validator asserts of them |
| `Wrapping.WrappedFilled` | screen.c:777-786 | each wrapped row is filled, and one in front of another line's row ends its own line: no text is skipped |
| `Wrapping.WrappedCut` | screen.c:788-793 | cutting the document behind its last row on the screen leaves the rows as they are |
| `Resize.AdjustLine` | screen.c:204-233 | the row's line gets blank cells up to the cursor, in the attribute of its padding; spans and handles follow if it moves |
| `Resize.Prepare` | screen.c:691-711 | three handles on the stack name the cells of both cursors and of the first row, and these cells exist |
| `Resize.FindTop` | screen.c:712-747 | the screen starts as many rows above the cursor's new row as the cursor is below the top; only missing rows are added, as blank lines in front |
| `Resize.Layout` | screen.c:777-786 | slots get consecutive rows of the re-wrapped document until the screen is full or the document ends |
| `Resize.CutOff` | screen.c:788-795 | a full screen ends the document behind its last row; the rows stay as they are, the handle of the top of the history stays, and handles on the stack stay registered or point nowhere |
| `Resize.FillScreen` | screen.c:812-813 | a screen that is not full is filled with blank lines, which continue the wrapping |
| `Resize.ResizeMainScreen` | screen.c:683-819 | all text from the history through the last visible row is kept cell for cell; each row takes as many cells of its line as fit the new width, without cutting a wide character, and no text is skipped between rows; the cursor is on its cell, the saved cursor is if its cell is shown; list, labels, spans and handles are in order; and how far `sb_limit` goes up |
| `Resize.FirstScreen` | screen.c:805-813 | the branch for a screen without lines: blank lines, one row each, and the invariant |
| `MainScreen.Screen.constructor` | screen.c:805-813 | a new screen is valid, blank, and has its cursors in the first cell |
| `MainScreen.Screen.EraseFast` | screen.c:1187-1205 | the invariant and which rows are blank afterwards, for the screen as an object |
| `MainScreen.Screen.ScrollFast` | screen.c:1355-1452 | scrolling with and without history, chosen by the source's condition; what each of them moves, keeps and counts |
| `MainScreen.Screen.Resize` | screen.c:683-819 | the same for the screen as an object: filled rows, both cursors, and the document after a resize |
| `MultiPools.Init` | multipool.c:113-118 | a valid state without blocks |
| `MultiPools.GetFittingPool` | multipool.c:77-99 | the first pool of the unsealed list with the room, and a new one only if there is none |
| `MultiPools.Alloc` | multipool.c:168-184 | a block that overlaps no other, with room for growing to the padding in force; all other blocks keep bytes and room |
| `MultiPools.Free` | multipool.c:120-144 | the block is gone, all others keep place, bytes and room, and no other pool changes; the room of a last block is free again and its pool on the list, all room of an emptied pool is, and that pool is freed exactly if there are enough on the list |
| `MultiPools.FreeAndAlloc` | multipool.c:120-184 | the next block that fits is put where the freed last block of a sealed pool was, or at the start of the pool if it was emptied and kept |
| `MultiPools.SetSealMaxPad` | multipool.c:152-166 | exactly the pools on the list without room for the new padding are sealed, or freed if they are empty; all others are as they were, and no block loses its room |
| `MultiPools.CheckUnseal` | multipool.c:191-194 | the pool is opened exactly if the padding in force fits behind its used part; no block is lost |
| `MultiPools.Pin` | multipool.c:223-227 | after it, a block can grow in place exactly if it could before and it is in another pool, or its pool is too full to be opened |
| `MultiPools.Realloc` | multipool.c:196-221 | the first bytes are kept; the block stays exactly if it does not grow or is last in a pool with the room; what room every other block has afterwards, pinned or not |
| `MultiPools.LiveBlocks` | multipool.c:168-184 | in every valid state live blocks are aligned, inside their pools and apart from each other |
| `MultiPools.SealedHoldsBlock` | multipool.c:120-144 | every sealed pool holds a live block |
| `MultiPools.ReleaseAssertion` | multipool.c:101-111 | the assertion in mpa_release holds exactly if no pool is sealed, so it does when all blocks are freed |
| `MultiPools.NeighbourPinned` | multipool.h:28-34 | a run of calls from mpa_init after which a block that was never pinned moves while it grows to the padding in force at its allocation |
| `Timers.TsLeqIsOrder` | util.h:133-135 | ts_leq orders times |
| `Timers.TsAddNormal` | util.h:151-158 | exactly when the sum is a normal timespec; always if the increment is not negative |
| `Timers.Init` | poller.c:91-119 | the queue starts in order and empty |
| `Timers.SiftUp` | poller.c:256-266 | from a heap with one slot out of order, order with the parent; every index is the event's slot |
| `Timers.SiftDown` | poller.c:244-254 | and then order with all children, so the heap is ordered |
| `Timers.RootLeast` | poller.c:239-242 | in an ordered heap nothing is due before the first event |
| `Timers.Insert` | poller.c:283-296 | the heap is ordered, each event's index is its slot, and the queue has changed by just this event, due one period from now |
| `Timers.Remove` | poller.c:268-281 | the same for taking any event out of any slot; one that is not queued changes nothing |
| `Timers.Add` | poller.c:298-314 | there is one more timer, due one period from now, and every other one is as it was |
| `Timers.RemoveTimer` | poller.c:332-367 | the timer is gone, and every other one is as it was |
| `Timers.Toggle` | poller.c:384-401 | the timer is switched on, due one period from now, or off; if it was so already nothing happens; every other timer is as it was |
| `Timers.PerformAll` | poller.c:298-401 | the timers after all calls of a callback are those that the calls make of them one by one, heap aside; it is known whether one of them removes the event itself; nothing new is due |
| `Timers.Dispose` | poller.c:468-479 | a timer that is requeued is due one period from now, any other one is gone; the rest is as it was |
| `Timers.Fire` | poller.c:452-480 | the event that fires is due before all others, and is not due again; its callback's calls are carried out; then it is due one period from now if its callback says so and has not removed it, and gone otherwise |
| `Timers.TimerPass` | poller.c:452-480 | the loop terminates whatever the callbacks do; events fire in the order of deadlines, at most once, only if due within 10 microseconds at the start; nothing is due at the end; the timers are what these events and their callbacks make of them one after the other |
| `Timers.LastWord` | poller.c:452-480 | what becomes of each timer that fires, whatever fires later: it is gone for good unless its callback lets it go on; if that does and no later callback names it, it is due one period from now |
| `Timers.OthersStay` | poller.c:298-401 | calls leave every timer alone that they do not name, and numbers of timers that are gone do not come back |
| `ProtoTrees.SameIndex` | uri.c:80-101 | a character has the index of one that can be in names exactly if it is the same but for letter case |
| `ProtoTrees.CharToIndex` | uri.c:80-101 | a character has an index exactly if it is a letter in either case, a digit, or one of six marks |
| `ProtoTrees.ChildPlus` | uri.c:114-138 | shifting the shared array and all later ranges leaves every child of every node where prefix sum and popcount look for it |
| `ProtoTrees.ChildIndexAdd` | uri.c:114-138 | the child spells its parent's path and the character; nodes keep their paths and leaf marks; a character outside the alphabet changes nothing |
| `ProtoTrees.AddProto` | uri.c:154-167 | the set of names in the tree grows by the name, if all its characters can be in names, and by nothing otherwise |
| `ProtoTrees.SameCode` | uri.c:154-167 | names share a path exactly if they are equal, letter case aside |
| `ProtoTrees.CaseAside` | uri.c:80-167 | strings that differ in letter case only are names or not together, and the same name |
| `ProtoTrees.Match` | uri.c:213-237 | the longest name that ends the text within the length limit, none of the longer ends being a name, and whether it is the one of the given leaf |
| `ProtoTrees.LongestLower` | uri.c:213-237 | the text in lower case has the same longest name at its end |
| `ProtoTrees.Init` | uri.c:169-211 | the tree holds `file` and the listed protocols that are names, and the saved leaf is that of `file` |
| `ProtoTrees.NamesAreStrings` | uri.c:169-237 | in terms of strings, for any text: an end of it is matched exactly if it is one of these protocols, letter case aside |
| `Powers.CeilPowerOfTwo` | hashtable.h:45-48 | the least power of two that is not below a positive number |
| `Powers.CeilIsExact` | hashtable.h:45-48 | it is the number itself exactly for powers of two |
| `HashTables.Table.constructor` | hashtable.h:109-116 | an empty map with the rounded number of buckets |
| `HashTables.Table.Find` | hashtable.h:118-165 | what the map has under the key |
| `HashTables.Table.Insert` | hashtable.h:129-175 | the map with the element, unless its key was there; buckets double exactly if they get too full |
| `HashTables.Table.Replace` | hashtable.h:139-170 | the map with the element; what was there comes back |
| `HashTables.Table.Erase` | hashtable.h:153-180 | the map without the key; what was there comes back |
| `HashTables.Table.EraseCurrent` | hashtable.h:83-99 | the element under the cursor goes, and the cursor stands on the next one in iteration order |
| `HashTables.Table.MoveAll` | util.c:520-558 | draining one table into another moves each element once, and never makes the other one grow |
| `HashTables.Table.Adjust` | util.c:520-536 | the same map, in twice the buckets exactly if it was too full |
| `HashTables.Table.Shrink` | util.c:538-558 | the same map, in so few buckets that half of them would be too few for twice the elements |
| `Rings.InsertFirst` | list.h:44-55 | the ring of the list with the element in front |
| `Rings.Remove` | list.h:29-34 | the ring of the list without the element, for any place in it |
| `GlyphCaches.GlyphCache.Fetch` | font.c:793-844 | what comes back is what rendering gives, whether it was cached or not; it is new exactly if it is a plain character (below 128) that was never rendered before or another glyph that is not in the list; list and index are those that the history of fetches determines |
| `GlyphCaches.RecentOrder` | font.c:793-844 | the list is in the order of the latest fetches |
| `GlyphCaches.OldestGoes` | font.c:827-838 | a glyph pushed out was the last one of a full list, and was fetched before all that stay |
| `GlyphCaches.IndexIs` | font.c:793-844 | the index holds exactly the plain characters ever fetched, those below 128, and the glyphs of the list, each as rendered |
| `MergeSort.MergeSorts` | render-xrender-x11.c:541-555 | merging two sorted neighbours, the right one first among equals, sorts them together |
| `MergeSort.MergeTwo` | render-xrender-x11.c:541-555 | one merge inside the buffer, which writes nowhere else |
| `MergeSort.SortByColor` | render-xrender-x11.c:541-555 | the returned half is in ascending colour, with equal colours in reverse; what is behind both halves stays |
| `MergeSort.SortsOnce` | render-xrender-x11.c:541-555 | there is one such result only |
| `MergeSort.SortsPermutes` | render-xrender-x11.c:541-555 | and it is a permutation |
| `RectFill.Intersect` | util.h:116-131 | a point is in the result exactly if it is in both rectangles |
| `RectFill.DrawMask` | image.c:116-119 | a block changes in the masked lanes only |
| `RectFill.DrawBulk` | image.c:121-129 | entered at any of its four cases, the unrolled loop stores each block of the range and no other |
| `RectFill.DrawRect` | image.c:131-208 | prefix mask, unrolled body and suffix mask together do what the scalar double loop does |
| `RectFill.PixelRule` | image.c:131-208 | which pixels that is: those of the image inside the rectangle, and padding only of rows that are sent with it |
| `ControlSequences.Initial` | term.c:332-334 | the parser starts with all parameters unset |
| `ControlSequences.FeedSplit` | term.c:3251-3450 | where an input is split into buffers makes no difference |
| `ControlSequences.FeedOk` | term.c:218-224 | after every input, parameters behind the current one are unset |
| `ControlSequences.ReadParams` | term.c:3315-3342 | the tight loop, with the current parameter held back in a variable, does what the automaton does byte by byte |
| `ControlSequences.ReadBuffer` | term.c:3251-3450 | a whole buffer read with it gives the automaton's state and its sequences, which the rows below tell from the bytes |
| `ControlSequences.NothingLeaks` | term.c:2234-2236 | in every sequence that is carried out all parameters behind the last one are unset and none is a leftover, after any input and whatever the other states do |
| `Spelling.CsiSpelled` | term.c:3308-3361 | a control sequence of any marker, up to 32 numbers, any of which may be left out, up to two intermediate bytes and any final byte is handed on with exactly these, whatever came before |
| `Spelling.DcsSpelled` | term.c:3305-3359 | a device control string starts with exactly what is spelled |
| `Spelling.DcsEnds` | term.c:710-714 | and is handed on with it, its last number counted, when it ends |
| `Spelling.CupSpelled` | term.c:3433-3444 | a VT52 cursor position is row and column, each less 32 |
| `Spelling.SeparatorIgnored` | term.c:3324-3328 | a separator behind the 32nd number is as good as not there |
| `Spelling.CsiSpoiled` | term.c:3364-3375 | a control sequence with a byte out of place is skipped up to its final byte |
| `Spelling.DcsSpoiled` | term.c:3370-3371 | and a device control string is skipped as a whole |
| `Spelling.Transparent` | term.c:3365-3369 | DEL inside a sequence, and a C0 control inside a device control sequence, make no difference |
| `Spelling.ControlInside` | term.c:3365-3367 | a C0 control inside a control sequence is handed on, and the sequence goes on |
| `Spelling.C1Anywhere` | term.c:3260-3268 | a C1 control leaves the sequence in every state, if such controls are recognized |
| `Spelling.EighthBit` | term.c:3270-3272 | any other byte above 127 is read as the one 128 below it |
| `Sgr.EncodeSgr` | screen.c:1693-1733 | the bytes spell the items that the attribute needs, one after the other |
| `Sgr.DecodeSgr` | term.c:2126-2202 | the loop applies one parameter after the other, with those that colours and underlining take; the rows of SgrCodes tell what each does |
| `Sgr.ReadSequence` | term.c:3315-3362 | any list of up to 32 numbers, printed with its separators, is parsed to just these parameters and subparameters, whatever came before |
| `Sgr.ItemsMean` | term.c:2126-2202 | decoding the printed items sets flags and colours as said by Restored, over any attribute |
| `Sgr.RoundTrip` | screen.c:1693-1733 | printed, parsed and decoded, an attribute comes back as Restored says, whatever was set and read before |
| `Sgr.RestoredExactly` | term.c:2088-2202 | it comes back unchanged exactly if it is not protected and its colours are default, direct, or palette entries other than 8 to 15 |
| `Sgr.BrightLost` | term.c:2187-2192 | palette entry 8 comes back as entry 0 |
| `SgrCodes.CodeForm` | term.c:2132-2196 | a code in any place of a sequence is carried out, and decoding goes on behind it |
| `SgrCodes.SetsFlag` | term.c:2143-2160 | codes 1, 2, 3, 6 to 9 set their flag and nothing else; 5 is 6 |
| `SgrCodes.ResetsFlag` | term.c:2161-2168 | codes 22, 23, 26 to 29 clear their flag, 22 bold and faint, and nothing else; 25 is 26 |
| `SgrCodes.ColorCodes` | term.c:2169-2193 | 30 to 37 and 90 to 97 set the foreground to the same palette colours, 40 to 47 and 100 to 107 the background; 39, 49 and 59 restore the default |
| `SgrCodes.OtherCodes` | term.c:2136-2196 | 0 resets everything, 21 and 24 set the underline style; unknown codes do nothing |
| `SgrCodes.UnderlineForm` | term.c:2150-2155 | 4 underlines |
| `SgrCodes.StyleForm` | term.c:2150-2155 | 4 with a subparameter sets the style |
| `SgrCodes.PaletteForm` | term.c:2088-2124 | a palette colour in any place: behind semicolons and behind colons it is the same, and decoding goes on behind it; an index above 255 sets nothing, and swallows the rest behind semicolons |
| `SgrCodes.DirectForm` | term.c:2088-2124 | a direct colour in any place, in the same two forms, with channels cut to 255 |
| `SgrCodes.SpaceForm` | term.c:2088-2124 | and with a colour space in front of the channels |
| `SgrCodes.ShortForm` | term.c:2088-2124 | too few channels behind colons set nothing, and decoding goes on behind them |
| `SgrCodes.UnknownType` | term.c:2088-2124 | so does an unknown type of colour |
| `SgrCodes.Omitted` | term.c:2132-2141 | a number left out resets everything, as does a sequence without numbers; a subparameter out of place ends the decoding |
| `SgrLengths.PrintedLength` | screen.c:1693-1733 | the number of bytes printed, at most 76 |
| `SgrLengths.LongestPrinted` | screen.c:1695-1696 | which is reached, and above MAX_SGR_LEN |

## Findings

What the proofs show the code not to do:

- `optimize_attributes` (`line.c:252-287`) counts the bits of whole words. An id equal to a capacity of 64 or
  more lies behind them and is not counted. The line changes what it shows if and only if such an id is in use
  and the number of the other ids in use is zero or a power of two (`Lines.Undercounted`); otherwise rounding
  up makes room for it. `Lines.TextLost` shows it for the line of `Lines.TwoOf64`.
- `multipool.h:28-34` guarantees that an object that is not pinned can grow to the padding without being moved.
  Pinning opens the pool of the pinned block (`multipool.c:191-227`) for all its neighbours, one of which may
  be its last block. `MultiPools.Pin` and `Realloc` say exactly which blocks keep their room, and
  `MultiPools.NeighbourPinned` is a run in which a block loses it.
- `term_decode_sgr` reads 90 to 97 and 100 to 107 as palette entries 0 to 7 (`term.c:2187-2192`), while
  `encode_sgr` prints entries 8 to 15 that way: `Sgr.RestoredExactly`, `Sgr.BrightLost`.
- `push_history_until` (`screen.c:430-433`) has a loop for lines that come back from the history. Its guard is
  the negation of what led there, so `sb_limit` is not lowered; it is not the number of lines above the screen.
- MAX_SGR_LEN and the sequence that the comment names as the longest (`screen.c:1695-1696`) are not the limit:
  flags, three direct colours and a styled underline take 76 bytes, more than the 64 of the buffers at
  `term.c:750` and `term.c:2590`.
- `init_proto_tree` means to skip protocol names that are too long, but its test (`uri.c:201`) compares a
  difference that is never positive. All names are added.
- `encode_sgr` tests the background against SPECIAL_FG (`screen.c:1723`), not SPECIAL_BG. Both print nothing.
- `ts_add` (`util.h:151-158`) gives a normal time for every increment that is not negative; for a negative one
  not if the nanoseconds come out at a whole number of seconds or one more. Its callers add only.

## Left out

Conditions that results carry:

- Lines.Line.AllocAttr: fewer than 2049 distinct attributes in a line, so that the table stays below the 4096 ids of a cell (`line.h:49`); stored attributes have a foreground, as a zero there marks a free slot. `Lines.CopyLine` and `Lines.Append` carry the same bound.
- Resize.ResizeMainScreen: the cursors are not pending, the width is at least 2 (`window-impl.h:334`), and the history is below its limit, so that `free_extra_lines` frees nothing. The saved cursor is only within bounds if its cell is not on the screen.
- Positions.Translate: the pending flag of a cursor.
- History.ScrollIntoHistory: the history is below its limit (`screen_drain_scrolled` frees nothing), and no line that is pushed is undercounted; what optimizing does to a line is `Lines.Line.OptimizeLine`, lines of the store hold paragraphs.
- MainScreen.Screen.ScrollFast: the same two conditions; view, selection and redraw flags are not part of it.
- History.PushHistory: `sb_limit` is what the source counts, not the number of lines above the screen.
- Ranges.FreeTail: spans that refer to a freed line are not reset; when a resize frees lines no span refers to them, which is proved there.
- Timers.PerformAll: a callback that toggles its own event, or names one that does not exist, makes a call that the model skips. A callback sees the timers, not the heap, which is static in `poller.c`.
- ControlSequences.NothingLeaks: what control characters, strings and other states do is an environment that may change the parser's state, selector and parameters in the five ways listed as `Change`, which are those of the source.
- Sgr.RoundTrip: underline styles are those below 4; a URI is not part of an attribute.
- GlyphCaches.GlyphCache.Fetch: rendering is a function of the glyph, and the cache size is constant and positive.
- Timers.TimerPass: periods are at least 10 microseconds, so that a requeued event is not due again in the same pass.

What the model does not have:

- Attribute tables, the paragraph store, pools, the timer heap, the tree of names and the rings are values that methods take and return, not arrays and structures updated in place: what is stored is the same, aliasing beyond the modelled addresses is not captured.
- Whether a pool moves a line is a parameter (`moved`) of the operations on lines; addresses are not used again after they were freed.
- Which characters are wide, the hash functions, rendering and the clock are parameters.
- Buckets of the hash table are sequences; the pointers between their elements are left out.
- Integers are unbounded: the 64-bit labels, the 16-bit sides of a rectangle and the parameters of a control sequence never overflow here, and the printer's output buffer has no end.
- The vector instructions of the rectangle fill are four lanes with a mask.
- `heap_remove` of the last slot runs both sifts on a slot with nothing to do; the model does not call them.
- Freeing lines at the far end of the history, selection, the view position, redraw and damage flags, and the drawn flag of a cell beyond its being cleared in copies.
- The alternate screen, which has no history and no wrapping (`screen.c:648-665`).
- Poll descriptors of the event loop and their list of free slots, and calls between passes.
- URI storage and reference counts, selection segments, configuration, fonts, windows, sockets, and all input and output.
