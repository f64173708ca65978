# Yate shared vectors, tables and flows, and the helpline ExtModule client: a Dafny model

This project models five parts of the repository that carry state, loops or a
round trip, and proves what holds of them for every input and every run.

- **Shared vectors** (`Slices.dfy`, `Elementwise.dfy`): `RefStorage` and
  `SliceVector` of `yate/yatemath.h` as classes over arrays. Several vectors can
  be windows of one storage. A ghost registry knows the live vectors, so that
  each reference count can be compared with the number of its holders.
- **Line wrapping** (`LineWrap.dfy`): the line-splitting `dump` of `SliceVector`,
  against an independent notion of a split into lines.
- **Tables** (`Table.dfy`, `Array.dfy`): `Array` as a list of column lists that is
  changed in place, against a table seen as a list of rows, with books on every
  object that is handed over.
- **The ExtModule protocol of the checker**: the wire format (`Escape.dfy`,
  `Fields.dfy`, `Wire.dfy`, `WireRoundTrips.dfy`, `YateMessage.dfy`), the DTMF codec
  (`Dtmf.dfy`), and the client whose waits all drain one queue (`Connection.dfy`,
  `ConnectionRuns.dfy`, `ToneStrings.dfy`, and, from the lines to the client and back,
  `ClientLines.dfy`).
- **Flows** (`Flow.dfy`): the generator trampoline of yaypm as a state machine with
  an invariant, and a class that takes its steps in place.

`Wrappers.dfy` holds `Option` and `Result`, `Sequences.dfy` a few laws of sequences.

## How the source is read

- A Python text is a sequence of code points 0..0x10FFFF; `chr` outside that range,
  indexing past the end and unpacking a wrong number of values are error results.
- The clock, random suffixes of ids and the pauses of `sleep` are parameters: `Env`
  holds the clock text and the suffix; `sleep` consumes any number of messages.
- Everything that will ever arrive is the initial queue of the client, in any order;
  a wait on a drained queue reports `Blocked` where the original blocks.
- Lengths and offsets of vectors are counted in elements; sums are taken modulo 2^32.
- `T` with an abstract operation stands for the element types and for `+=`, `-=`, `*=`.
- A deferred holds a queue of handlers and a result that is passed down the queue. The
  step of a flow adds its pair (callback, errback) first and `unhandled_exception`
  after it; a fired deferred at rest runs what is added at once, so that then the
  second is added only after everything the first has set going. `logFailure`, added
  between the two, hands on what it is given and has no entry of its own. Twisted
  itself is not part of this model. Between two yields a generator may do anything
  the machine allows: make and fire deferreds, start flows, return, raise.

## What turned out differently from the documentation

The code is followed in each case.

- `SliceVector(other, offs, 0)` and `setSlice` are documented to take all that is
  available from the offset; `initSlice` asks for the whole length whatever the offset.
  For a positive offset within the vector that is too much: the result is empty, or not
  inside the storage when offset plus length comes around 2^32. What is available comes
  out exactly when the offset is 0, or when nothing is left and the sum does not come
  around (`SliceRest`).
- `tail(len)` by value is empty for `len == length()`, `tail(dest,len)` is not
  (`SliceVector.Tail`, `SliceVector.TailInto`).
- `steal` forgets what the vector held instead of releasing it. The counts stay right
  exactly when it held nothing (`SliceVector.Steal`).
- `data(offs,len)` compares a sum that can wrap around. It answers correctly exactly
  when the sum does not wrap into the window again (`RangeCheckExactly`); a slice lies
  inside its storage exactly then (`SliceVector.InitSlice`), and `tail(0)` does so
  exactly for fewer than 2^31 elements (`SliceVector.Tail`).
- The line-splitting `dump` counts in 32 bits. It is documented to put nothing on the
  first line when the offset is greater than the line length; with an offset close to
  2^32 it does (`CountingCanOverrun`). The lines keep the limit, and are those of exact
  counting, if and only if the count never comes around to a number within the limit
  (`CountingIsExact`); offset, line length and elements below 2^31 ensure that
  (`ShortNeverAround`).
- The unwrapped `dump` drops the separators before the first visible character
  (`PlainIsJoinedExactly`).
- `ObjList::remove` cannot unlink the last holder of a list, it only empties it. After
  `delRow` of the last row each column has a holder too many, for as long as the column
  is there (`RunTightExactly`), and the next row that is appended is not seen
  (`AppendAfterLastDeleteIsLost`, `AppendRowAppendsExactly`).
- `addColumn` at the end calls a method on a null pointer, or, when a deleted last
  column left a holder behind, stores the list where no column looks
  (`Array.AddColumn`).
- An array with no rows but some columns has no column lists, and one with a negative
  number of rows has one holder in each (`Array.constructor`).
- A request that arrives under an id that `msg` awaits ends the wait and is never
  answered (`ClashLosesRequest`, `ReplyWaitAnswersExactly`).
- The names and return values of responses are not unescaped, ids and attribute keys
  are not escaped, and `rstrip` takes the blanks at the end of the last value
  (`RequestRoundTripExactly`, `ResponseRoundTripExactly`).
- An extra character that the escaper itself writes is not hidden by escaping
  (`ExtraIsSeparatorExactly`).
- `Result.getResult` assigns a local and does not empty the global slot (`Flow.Slot`).
- An exception of a flow can end up in another flow. A flow that yields a deferred
  which has been fired and is at rest is resumed before its `unhandled_exception` is
  added; if another flow yields the same deferred meanwhile and the first then raises,
  the other one is given the exception, and the first never fires `return_with`
  (`ExceptionGoesAstray`). This is the only way (`FiredOnceExactly`, `ExposedMeans`).

## Model

| member | source | states |
|---|---|---|
| Slices.RefStorage.constructor | yate/yatemath.h:291-293 | a storage begins with one reference and a copy of the data, or zeros |
| Slices.RefStorage.Ref | yate/engine/TelEngine.cpp:986-1006 | fails exactly on an object whose count has come down to zero |
| Slices.RefStorage.Deref | yate/engine/TelEngine.cpp:1008-1032 | gives one reference back; true exactly when that was the last |
| Slices.RefStorage.Set | yate/yatemath.h:308-346 | writes exactly the given range, or nothing when it is not available |
| Slices.SliceVector.Data | yate/yatemath.h:501-505 | a pointer exactly when the range check, with its wrap-around, passes |
| Slices.RangeCheckExactly | yate/yatemath.h:501-505 | the check means what it is documented to mean exactly when the sum does not wrap into the window |
| Slices.SliceRest | yate/yatemath.h:476-486 | a slice of length 0 from an offset is inside the storage and shows the rest from there if and only if the offset is 0, or nothing is left and the sum does not come around |
| Slices.SliceVector.Available | yate/yatemath.h:596-602 | the most elements there are from an offset, up to what is asked for |
| Slices.SliceVector.SetData | yate/yatemath.h:1220-1231 | without data the storage is let go and the vector is empty; every count still equals its holders |
| Slices.SliceVector.NewStorage | yate/yatemath.h:1240-1245 | a storage with the data in front and zeros behind it, for either way of making it |
| Slices.SliceVector.InitStorage | yate/yatemath.h:1234-1247 | a fresh storage with exactly one holder, or none at all for a zero size |
| Slices.SliceVector.InitSlice | yate/yatemath.h:1250-1270 | becomes exactly the requested window, or empty; it lies inside the storage if and only if the sum of offset and length does not come around into the window; only the two storages' counts change, by one each |
| Slices.SliceVector.ShareStorage | yate/yatemath.h:1260-1269 | taking a reference to another vector's storage never fails, so the branch that reports a failed ref() is unreachable |
| Slices.SliceVector.Nothing | yate/yatemath.h:418-420 | an empty vector, entered into the registry |
| Slices.SliceVector.Sized | yate/yatemath.h:439-442 | a vector over a storage of its own holding the buffer or zeros |
| Slices.SliceVector.Slice | yate/yatemath.h:483-486 | a window of the parent with maxLen equal to its length, showing the parent's elements, or empty when it would reach beyond the parent; for sums that come around, exactly that it is not inside |
| Slices.SliceVector.Concat | yate/yatemath.h:450-456 | fresh storage holding the two vectors one after the other; all others unchanged |
| Slices.SliceVector.Concat3 | yate/yatemath.h:465-474 | the same for three, aliased and empty ones included |
| Slices.SliceVector.Resize | yate/yatemath.h:631-637 | succeeds exactly within maxLen, so a slice never grows past its window |
| Slices.SliceVector.ResizeMax | yate/yatemath.h:642-643 | the length becomes maxLen |
| Slices.SliceVector.Destroy | yate/yatemath.h:491-492 | the count falls by one and is zero exactly when no live vector points at the storage; the others keep their contents |
| Slices.SliceVector.ResetStorage | yate/yatemath.h:665-668 | the count of the old storage falls by one, and the vector is the only holder of a fresh one holding zeros, the only storage that is made |
| Slices.SliceVector.SetSlice | yate/yatemath.h:677-679 | assignment of a window, also of a vector to itself; all others keep their contents; the registry stays valid if and only if the sum does not come around |
| Slices.SliceVector.Head | yate/yatemath.h:686-687 | the first elements; all of them for length 0; nothing beyond the length |
| Slices.SliceVector.Tail | yate/yatemath.h:703-707 | the last elements, but nothing when all are asked for; asking for none is safe if and only if twice the length is in range |
| Slices.SliceVector.TailInto | yate/yatemath.h:715-720 | the last elements, all of them included; empties the destination on failure; the same about asking for none |
| Slices.SliceVector.Steal | yate/yatemath.h:649-657 | takes everything and leaves the other empty; reference counts stay right if and only if the vector held nothing before |
| Slices.SliceVector.Copy | yate/yatemath.h:754-756 | overwrites exactly the range, from the source as it was, when both ranges are available, and does nothing otherwise or for the same range; nothing outside the window changes |
| Slices.SliceVector.Combine | yate/yatemath.h:835-843 | fails exactly on different lengths; otherwise the result is the chain of the old contents for however the two windows overlap |
| Slices.SliceVector.Fill | yate/yatemath.h:776-780 | every element gets the value, nothing outside the window changes |
| Slices.SliceVector.Sum | yate/yatemath.h:796-802 | every element of the window is added once, from the left; of numbers, that is their total (`SumOfParts`) |
| Slices.CountIsNumberOfHolders | yate/yatemath.h:1220-1270 | in every reachable state a count is the number of live vectors pointing at the storage, zero exactly when there is none, and no live vector holds released storage |
| Slices.HeadTailConcat | yate/yatemath.h:686-707 | for 0 < n < length, head(n) and tail(length-n) put together are the vector again, in fresh memory |
| Slices.ConcatAgrees | yate/yatemath.h:450-474 | the three-way constructor gives what nesting the two-way one gives |
| Elementwise.CombineWindows | yate/yatemath.h:838-841 | the loop over two windows of possibly one array computes the chain for their distance, and changes only its window |
| Elementwise.ChainRecurrence | yate/yatemath.h:838-841 | when the other window starts k cells earlier, r[i] = old(this)[i] op (i < k ? old(other)[i] : r[i-k]) |
| Elementwise.ChainIsPointwise | yate/yatemath.h:860-868 | when the windows do not reach into each other that way, r[i] = old(this)[i] op old(other)[i] |
| Elementwise.ChainIgnoresFarLag | yate/yatemath.h:885-893 | a distance of at least the length makes no difference |
| Elementwise.LagOneSumsUp | yate/yatemath.h:835-843 | adding a window to itself one cell on runs up the prefix sums |
| Elementwise.MapWindow | yate/yatemath.h:849-853 | each cell of the window is changed by itself, no other cell |
| Elementwise.FoldWindow | yate/yatemath.h:798-801 | the loop adds up the window, cell by cell |
| Elementwise.FoldNext | yate/yatemath.h:796-800 | nothing adds up to the starting value, and one element more adds that element last |
| Elementwise.FoldAppend | yate/yatemath.h:796-801 | the sum of a vector goes on from the sum of its front |
| Elementwise.SumOfParts | yate/yatemath.h:796-801 | the sum of two vectors put together is the sum of their totals |
| Elementwise.CopyWindow | yate/yatemath.h:340-346 | the destination range becomes the old source range, also when they are the same |
| LineWrap.Dump | yate/yatemath.h:1107-1132 | for every call: the buffer, the dumped text and the suffix, in this order; the text is nothing, the unwrapped elements, or the elements wrapped with 32-bit counting |
| LineWrap.DumpedOnOneLine | yate/yatemath.h:1112-1117 | for every call that splits no lines: between buffer and suffix stands nothing, without data or function, else the elements from the first that is not empty on, joined by the separator |
| LineWrap.DumpWrapped | yate/yatemath.h:1118-1131 | the loop renders the greedy wrap of the tokens, counted in 32 bits |
| LineWrap.DumpedLines | yate/yatemath.h:1107-1132 | for every call that splits lines, with the suffix for a prefix that is not given: the wrapped text reads as the joined elements without its prefixes, keeps the limit if and only if the count never comes around, and then has the fewest lines possible when every token fits |
| LineWrap.CountingIsExact | yate/yatemath.h:1124-1128 | the lines counted in 32 bits keep the limit, and are those of exact counting, each if and only if the count never comes around to a number within the limit |
| LineWrap.ShortNeverAround | yate/yatemath.h:1124-1128 | it never does when offset, line length and elements are below 2^31 |
| LineWrap.CountingKeepsTokens | yate/yatemath.h:1119-1130 | even when it does, no element is lost, added or moved |
| LineWrap.CountingCanOverrun | yate/yatemath.h:1099-1127 | with offset 2^32 - 3 and line length 10 an element of five characters goes on the first line, where exact counting puts none |
| LineWrap.WrapKeepsTokens | yate/yatemath.h:1119-1130 | no element is lost, added or moved |
| LineWrap.WrapKeepsLimit | yate/yatemath.h:1124-1129 | every line is within the limit, the first counting its offset, unless it holds a single over-long token |
| LineWrap.GreedyIsMinimal | yate/yatemath.h:1124-1129 | no order-preserving split within the limit has fewer breaks |
| LineWrap.GreedyIsOptimal | yate/yatemath.h:1119-1130 | if all tokens fit, the wrap is itself such a split and no other has fewer lines |
| LineWrap.SplitExistsExactly | yate/yatemath.h:1124-1129 | there is a split within the limit if and only if every token fits on a line |
| LineWrap.TokensAreJoined | yate/yatemath.h:1120-1123 | the tokens in a row are the elements joined by the separator |
| LineWrap.JoinedInTwo | yate/yatemath.h:1120-1122 | joined elements have one separator between any two, and nothing else |
| LineWrap.RenderInTwo | yate/yatemath.h:1125-1126 | the text of lines has one prefix between any two |
| LineWrap.PlainSkipsBlanks | yate/engine/String.cpp:966-974 | the unwrapped text is that of the elements from the first that is not empty on |
| LineWrap.DumpPlain | yate/yatemath.h:1083-1089 | the unwrapped loop appends element by element |
| LineWrap.PlainIsJoinedExactly | yate/engine/String.cpp:966-974 | that is the separator-joined text if and only if there is nothing to separate, no separator, or a first element that is not empty |
| Array.ObjList.Append | yate/engine/ObjList.cpp:197-211 | one more holder at the end |
| Array.ObjList.InsertAt | yate/engine/ObjList.cpp:178-195 | the object stands at the index, all later holders one further |
| Array.ObjList.RemoveAt | yate/engine/ObjList.cpp:238-262 | the holder is gone, but the last holder of a list is only emptied |
| Array.ObjList.SetAt | yate/engine/ObjList.cpp:165-176 | the object is replaced; the old one is given back unless it is the same |
| Array.Array.constructor | yate/engine/Array.cpp:25-42 | for all dimensions, negative ones included: how many lists of how many empty holders there are, and that every column is covered if and only if neither dimension is negative and there are rows or no columns |
| Array.Array.AddRow | yate/engine/Array.cpp:58-79 | succeeds exactly up to the row count; each column gets the object of its place in the row, or nothing where the row has none, at the row or at its end; objects stay accounted for |
| Array.Array.AddColumn | yate/engine/Array.cpp:81-93 | inserting shows the list as a column; appending calls null exactly when no holder follows, and never keeps the shape |
| Array.Array.DelRow | yate/engine/Array.cpp:95-103 | removes the row from every column and destroys exactly its objects |
| Array.Array.DelColumn | yate/engine/Array.cpp:105-112 | removes the column and destroys exactly its objects |
| Array.Array.Get | yate/engine/Array.cpp:114-125 | the holder of that row in the list of that column, which is the cell of the table, or null out of bounds |
| Array.Array.Take | yate/engine/Array.cpp:127-138 | empties the cell and hands its object out, which then counts as taken once |
| Array.Array.Set | yate/engine/Array.cpp:140-155 | replaces the object of one cell; the old one is destroyed unless it is the same |
| Array.Array.Holder | yate/engine/Array.cpp:118-123 | within bounds the holder always exists, so the branch that reports a missing one is unreachable |
| Table.RowIsHandedOver | yate/engine/Array.cpp:68-68 | a row with an object for each column is taken as it is, a longer one is cut, a shorter one or none is filled up with nothing |
| Table.RowsShow | yate/engine/Array.cpp:114-125 | the list of rows shows each cell at its row and column |
| Table.InsertRowInserts | yate/engine/Array.cpp:64-77 | addRow before a row inserts the row into the list of rows |
| Table.AppendRowShows | yate/engine/Array.cpp:69-70 | addRow at the end shows, column by column, the new item or the holder left below the last row |
| Table.AppendRowAppendsExactly | yate/engine/Array.cpp:58-79 | appending appends the row, for every row, if and only if no column has a holder below its last row |
| Table.AddRowCovers | yate/engine/Array.cpp:58-79 | each column keeps a holder a row, exactly one if and only if it had exactly one before |
| Table.DeleteRowDeletes | yate/engine/Array.cpp:95-103 | delRow deletes the row from the list of rows |
| Table.DeleteRowTightExactly | yate/engine/ObjList.cpp:242-252 | after delRow there is exactly one holder a row if and only if there was before and it was not the last row |
| Table.ColumnTightExactly | yate/engine/Array.cpp:58-155 | the same for one column at every time of the run |
| Table.BirthsAreTrue | yate/engine/Array.cpp:81-93 | the recorded time and size of a column are those of the act that brought it, or of the start |
| Table.DoneCovers | yate/engine/Array.cpp:58-155 | no act leaves a column with fewer holders than rows |
| Table.RunTightExactly | yate/engine/Array.cpp:58-155 | after any run of addRow, delRow, inserting addColumn, delColumn, set and take every column covers the rows, and has exactly one holder a row if and only if each column that is left had so when it came and no act since deleted the then last row |
| Table.DeleteUndoesAddRow | yate/engine/Array.cpp:58-103 | delRow(i) after addRow(r,i) gives the old table back, and the old storage if and only if the row was not appended |
| Table.AppendAfterLastDeleteIsLost | yate/engine/ObjList.cpp:238-262 | after delRow of the last row the next appended row shows empty cells, whatever was handed over |
| Table.InsertColumnInserts | yate/engine/Array.cpp:87-92 | an inserted list shows its first `rows` holders as the column at the index |
| Table.DeleteColumnDeletes | yate/engine/Array.cpp:105-112 | delColumn deletes the column from the table |
| Table.DeleteUndoesInsertColumn | yate/engine/Array.cpp:81-112 | delColumn(j) undoes an inserting addColumn(c,j) |
| Table.HeldAddRow | yate/engine/Array.cpp:64-76 | a new row adds to the array exactly the objects of its cells |
| Table.HeldDelRow | yate/engine/Array.cpp:99-100 | a deleted row takes exactly its objects away |
| Table.HeldWithCell | yate/engine/Array.cpp:140-155 | changing a cell changes what is held by that cell only |
| Table.HeldInCounts | yate/engine/Array.cpp:58-155 | the books hold an object as often as there are cells with it |
| Table.ExactlyOnePlace | yate/engine/Array.cpp:58-155 | an object handed over once is in exactly one cell if and only if it was neither taken out nor destroyed, and never in two places: cells, takings and destructions count to one |
| Escape.Escape | checker/helpline/message.py:5-22 | the loop computes the escaped text, and fails exactly when a moved character would leave the code range |
| Escape.Unescape | checker/helpline/message.py:25-41 | the loop computes the unescaped text or the error of the original |
| Escape.WrittenAs | checker/helpline/message.py:13-21 | each character is escaped by itself: a code below 32 and the extra character as "%" and the code 64 above, "%" twice, any other as it is |
| Escape.ReadAs | checker/helpline/message.py:32-40 | what is read off the front of any text: "%%" as "%", "%" and another character as the code 64 below it, a plain character as it is; the errors of a "%" at the end and of a code below 64 |
| Escape.UnescapeUndoesEscape | checker/helpline/message.py:5-41 | unescape(escape(s,e)) == s for every text and every extra character |
| Escape.EscapeUndoesUnescapeExactly | checker/helpline/message.py:5-41 | escape(unescape(s)) == s if and only if s is canonical |
| Escape.EscaperRange | checker/helpline/message.py:5-22 | the canonical texts are exactly those the escaper can write |
| Escape.EscapedHasNoControls | checker/helpline/message.py:15-17 | no code below 32 is written |
| Escape.ExtraIsSeparatorExactly | checker/helpline/message.py:12-22 | the extra character never appears in any escaped text if and only if it is neither '%' nor in codes 64..95 |
| Fields.JoinedEscapedFieldsRecovered | checker/helpline/message.py:165-173 | escaped fields joined by the extra character are told apart again by splitting |
| Fields.SplitUndoesJoin | checker/helpline/message.py:165-176 | splitting recovers joined fields that do not hold the separator |
| Fields.JoinUndoesSplit | checker/helpline/message.py:165-176 | joining what was split gives the text back, for any limit |
| Fields.RStripIsLongest | checker/helpline/message.py:263-263 | rstrip leaves the longest prefix that does not end in white space |
| YateMessage.YATEMessage.constructor | checker/helpline/message.py:51-77 | an empty id or timestamp is replaced, everything else is stored |
| YateMessage.YATEMessage.FormatAttrs | checker/helpline/message.py:85-98 | the loop prints the attributes in order; fails without a dictionary |
| YateMessage.YATEMessage.FormatMessageText | checker/helpline/message.py:120-130 | prints the request line (field by field in `RequestFields`), exactly when there are a name and attributes |
| YateMessage.YATEMessage.FormatMessageResponse | checker/helpline/message.py:100-111 | prints the response line (field by field in `ResponseFields`), exactly when there are a name and attributes |
| YateMessage.YATEMessage.FormatResponse | checker/helpline/message.py:113-118 | a given return value replaces the stored one and nothing else changes but the mark of having answered; the line is the response that says whether the message was handled (`ResponseReplies`) |
| YateMessage.ParseAttributes | checker/helpline/message.py:165-173 | the loop builds the dictionary of the pieces, in which the last piece of a key counts (`LastPieceCounts`), or raises what the original raises |
| Wire.GetAfterPut | checker/helpline/message.py:135-139 | what is entered under a key is found under it, whether or not the key was there before; every other key keeps its value; nothing is found in an empty dictionary |
| Wire.GetExactly | checker/helpline/message.py:135-136 | `m[key]` gives a value if and only if it stands under the key, and None if and only if the key is not there |
| Wire.LastPieceCounts | checker/helpline/message.py:168-171 | of pieces with the same key the last counts; a piece without "=" raises |
| WireRoundTrips.RequestFields | checker/helpline/message.py:120-130 | a printed request whose id, time and keys can be told apart, cut at each ":", is the tag, the id, the time, the escaped name, the escaped return value, and one escaped key=value for each attribute, in order |
| WireRoundTrips.ResponseFields | checker/helpline/message.py:100-111 | a printed response whose id and keys can be told apart is, cut at each ":", the tag, the id, the word true for a handled message and the word false for any other, the escaped name and return value, and the attributes |
| WireRoundTrips.ResponseReplies | checker/helpline/message.py:100-101 | whatever its id, a response begins with the tag, the id and the word that says whether it was handled, and with no other word |
| WireRoundTrips.HandledArrivesExactly | checker/helpline/message.py:203-210 | the test values[1] in ("true", "ok") of the reader of a response succeeds if and only if the message was handled |
| WireRoundTrips.RequestAcceptedExactly | checker/helpline/message.py:175-190 | a request line is accepted if and only if it has an id, a time and a name, its escapes can be read, and each attribute has a "="; return value and attributes are there exactly when their fields are |
| WireRoundTrips.ResponseAcceptedExactly | checker/helpline/message.py:158-219 | a `%%<message` line is accepted if and only if it has five fields and good attributes, and, as a notice, which is one with an empty id, readable escapes |
| WireRoundTrips.AcknowledgedExactly | checker/helpline/message.py:247-257 | an install is accepted if and only if it has a third field that unescapes to "ok" or "true", a watch if and only if its second does |
| WireRoundTrips.OtherLinesRefused | checker/helpline/message.py:259-273 | an empty line, one that begins with "Error in:" and one with any other tag raise |
| WireRoundTrips.RequestArrives | checker/helpline/message.py:120-190 | printing then parsing a request gives it back, but for the blanks at the end of the last value |
| WireRoundTrips.RequestRoundTripExactly | checker/helpline/message.py:120-190 | it comes back equal if and only if the id has no ':' or '%', the timestamp no ':', there are attributes, no key has ':' or '=', and the last value does not end in a bare blank |
| WireRoundTrips.ResponseArrives | checker/helpline/message.py:100-118 | a response arrives with its id, attributes and still escaped name and return value |
| WireRoundTrips.ResponseRoundTripExactly | checker/helpline/message.py:203-219 | a response comes back as that answer if and only if its id has no ':', it has attributes with plain keys, and the last value does not end in a bare blank |
| WireRoundTrips.IncomingRequestIsAnswered | checker/helpline/message.py:175-219 | any incoming request line with attributes and a non-empty id free of '%' is answered under the same id field, and the answer brings back attributes, name and return value |
| WireRoundTrips.WatchNoticeArrives | checker/helpline/message.py:192-201 | a watch notice arrives with name, return value and attributes unescaped |
| WireRoundTrips.InstallAccepted | checker/helpline/message.py:253-257 | an install is accepted exactly when its third field unescapes to "ok" or "true", trailing blanks aside |
| WireRoundTrips.WatchAccepted | checker/helpline/message.py:247-251 | a watch is accepted exactly when its second field unescapes to "ok" or "true", trailing blanks aside |
| WireRoundTrips.ParsedAttrsArePlain | checker/helpline/message.py:165-173 | parsing never builds an empty dictionary nor a key with ':' or '=' |
| WireRoundTrips.PrintedOnOneLine | checker/helpline/helplinechecker_manual.py:354-357 | a printed message holds no line end (codes 10 and 13) if and only if id, timestamp and keys hold none |
| Dtmf.Encode | checker/helpline/helplinechecker_manual.py:61-67 | encodes exactly the texts with codes below 225 |
| Dtmf.Decode | checker/helpline/helplinechecker_manual.py:70-76 | decodes pair by pair, or fails on a character outside the alphabet |
| Dtmf.EncodedAt | checker/helpline/helplinechecker_manual.py:39-67 | the tones of each character are its two digits in base 15, in the alphabet 0-9, A-D, *, the higher digit first |
| Dtmf.DecodeFailsExactly | checker/helpline/helplinechecker_manual.py:70-76 | decoding fails if and only if a character outside the alphabet stands in one of the pairs; else it gives one character a pair |
| Dtmf.DecodeUndoesEncode | checker/helpline/helplinechecker_manual.py:61-76 | decoding undoes encoding on every text with codes below 225 |
| Dtmf.EncodeUndoesDecodeExactly | checker/helpline/helplinechecker_manual.py:61-76 | encoding undoes decoding if and only if no tone was left over |
| Dtmf.EncodedHasNoHash | checker/helpline/helplinechecker_manual.py:39-39 | no encoded text holds a '#' |
| Dtmf.PayloadUpToHash | checker/helpline/helplinechecker_manual.py:295-303 | whatever follows, the tones up to the first '#' are the payload and decode to what was sent |
| Connection.YATEConnection.constructor | checker/helpline/helplinechecker_manual.py:338-338 | nothing has been consumed or written |
| Connection.YATEConnection.HandleMessage | checker/helpline/helplinechecker_manual.py:376-397 | answers a request, true exactly for a tone of this call; raises exactly on a request that cannot be answered |
| Connection.YATEConnection.AwaitDtmf | checker/helpline/helplinechecker_manual.py:518-529 | exactly the events of a wait for a tone happen, and exactly their messages leave the queue |
| Connection.YATEConnection.AwaitDisconnect | checker/helpline/helplinechecker_manual.py:412-423 | the same for a wait for the hangup notice |
| Connection.YATEConnection.AwaitNotice | checker/helpline/helplinechecker_manual.py:466-470 | the same for the loop that waits for a notice about a channel |
| Connection.YATEConnection.AwaitReply | checker/helpline/helplinechecker_manual.py:405-410 | the same for the loop that waits for a reply |
| Connection.YATEConnection.Msg | checker/helpline/helplinechecker_manual.py:399-410 | sends one line, and drains the queue up to the message with the same id if asked to wait |
| Connection.YATEConnection.Sleep | checker/helpline/helplinechecker_manual.py:363-374 | serves any number of messages and waits for none |
| Connection.YATEConnection.RecvDtmfStr | checker/helpline/helplinechecker_manual.py:539-550 | the events and the result of n waits for a tone in a row |
| Connection.YATEConnection.Call | checker/helpline/helplinechecker_manual.py:437-478 | the three waits of a call one after the other, under the old id up to the reply and under the new one after it; nothing more happens after a wait that failed |
| Connection.YATEConnection.Hangup | checker/helpline/helplinechecker_manual.py:480-482 | asks to drop the target channel and waits for the reply |
| Connection.YATEConnection.SendDtmf | checker/helpline/helplinechecker_manual.py:510-516 | exactly these events happen: the request for each character, in order, and after each the messages that its pause serves; it succeeds exactly when no pause raises |
| ToneStrings.SendServesExactly | checker/helpline/helplinechecker_manual.py:510-516 | send_dtmf comes through if and only if every message that arrives in its pauses can be answered; then each line was sent, in order, and exactly these messages were taken from the queue |
| ToneStrings.SentAfter | checker/helpline/helplinechecker_manual.py:511-516 | each line is sent after what the pauses before it serve, and before what its own pause serves |
| ClientLines.ToneLineExactly | checker/helpline/helplinechecker_manual.py:386-386 | a request line that arrives whole is a tone of the call on a channel if and only if it is a "chan.dtmf" with the channel under "targetid"; its text is what stands under "text" |
| ClientLines.ToneLineIsServed | checker/helpline/helplinechecker_manual.py:518-529 | await_dtmf gives the first line of the queue, if it is a request, to its caller if and only if it is such a tone; it is answered under its own id, true for the tone and false for any other |
| ClientLines.NoticeLineExactly | checker/helpline/helplinechecker_manual.py:412-470 | a notice line ends the wait for the answer if and only if it is a "call.answered" with the channel under "id", and that for the hangup if and only if it is such a "chan.hangup" |
| ClientLines.BareRequestRaises | checker/helpline/helplinechecker_manual.py:376-397 | a request line without attributes is accepted by the parser, but every wait raises over it, unless its id is the one that is awaited |
| ClientLines.RingSays | checker/helpline/helplinechecker_manual.py:457-461 | what the receiver of our "call.execute" finds under each key |
| ClientLines.AttachSays | checker/helpline/helplinechecker_manual.py:474-478 | the same for the "chan.masquerade" that attaches the recorder |
| ClientLines.ToneSays | checker/helpline/helplinechecker_manual.py:510-515 | the line for each character of send_dtmf arrives as a "chan.dtmf" for the target channel with that character under "text" |
| ClientLines.DropSays | checker/helpline/helplinechecker_manual.py:480-482 | hangup arrives as a "call.drop" of the target channel |
| ToneStrings.WaitEndsAtFirstMatch | checker/helpline/helplinechecker_manual.py:405-421 | every wait ends at the first message it is for, or raises over the first that upsets it, whichever comes first, and blocks if and only if there is neither, having served everything |
| ToneStrings.WaitRepliesInOrder | checker/helpline/helplinechecker_manual.py:376-410 | during any wait exactly the consumed requests are answered, in arrival order, each by one line under its id that says true for a tone of the call and false for any other |
| ToneStrings.WaitTakesFirstTone | checker/helpline/helplinechecker_manual.py:521-529 | a wait for a tone takes exactly the first tone of the call if every message before it can be answered, and raises otherwise |
| ToneStrings.ReachHolds | checker/helpline/helplinechecker_manual.py:542-548 | the prefix that has to be read for n tones holds exactly the first n |
| ToneStrings.StringIsFirstTones | checker/helpline/helplinechecker_manual.py:539-550 | recv_dtmf_str(n) returns a string if and only if there are n tones with a text and every message up to the n-th can be answered; it is their texts in arrival order, and reading stops at the n-th |
| ToneStrings.StringRepliesInOrder | checker/helpline/helplinechecker_manual.py:518-550 | meanwhile every consumed request is answered exactly once, in order, by such a line |
| ToneStrings.StringStarvesExactly | checker/helpline/helplinechecker_manual.py:539-550 | it waits for ever if and only if fewer than n tones are to come, all with a text, and everything can be answered; then it has served the whole queue |
| ToneStrings.StringTimesOutExactly | checker/helpline/helplinechecker_manual.py:544-547 | it returns TIMEOUT if and only if one of the first n tones has no text and every message up to the first such tone can be answered; it raises in all other cases |
| ToneStrings.ReadFramed | checker/helpline/helplinechecker_manual.py:295-303 | the loop that reads up to '#' has the events and the result of its waits |
| ToneStrings.FramedReadExactly | checker/helpline/helplinechecker_manual.py:295-303 | for every interleaving the framed read ends if and only if some tone says '#', those before it have texts and every message up to it can be answered; it returns those texts and has read up to that tone |
| ToneStrings.FramedStarvesExactly | checker/helpline/helplinechecker_manual.py:295-303 | it waits for ever if and only if no tone says '#', all tones have texts and everything can be answered |
| ToneStrings.FramedTimesOutExactly | checker/helpline/helplinechecker_manual.py:295-303 | it ends in TIMEOUT if and only if the first tone has no text and every message before it can be answered; a later tone without one raises |
| ToneStrings.FramedRepliesInOrder | checker/helpline/helplinechecker_manual.py:295-303 | meanwhile every consumed request is answered, in order, true for the tones and false for all others |
| ToneStrings.FramedReadRecovers | checker/helpline/helplinechecker_manual.py:295-303 | when the tones of the call spell a text and then '#', that text is read, whatever arrives in between and after |
| ToneStrings.FlagCheckExactly | checker/helpline/helplinechecker_manual.py:254-261 | the comparison of the tones read with the encoded flag succeeds if and only if what was read decodes to the flag with no tone left over |
| ToneStrings.SpelledFlagPasses | checker/helpline/helplinechecker_manual.py:254-261 | it succeeds when the first tones of the call spell the encoded flag, whatever arrives in between and after |
| ConnectionRuns.RepliesInOrder | checker/helpline/helplinechecker_manual.py:363-422 | in every run the reply lines on the socket are those of the answered requests, one each, in the order of consumption |
| ConnectionRuns.EveryRequestAnsweredExactly | checker/helpline/helplinechecker_manual.py:376-410 | over every run, each consumed request is either answered or lost, never both, and the answered ones are the consumed ones in order when none is lost |
| ConnectionRuns.WaitAnswersExactly | checker/helpline/helplinechecker_manual.py:376-421 | a wait answers every request it consumes if and only if the message it ends at is no request, or a tone that was waited for |
| ConnectionRuns.ReplyWaitAnswersExactly | checker/helpline/helplinechecker_manual.py:405-410 | a wait for a reply answers every request it consumes if and only if the first message that carries the awaited id is no request and every message before it can be answered |
| ConnectionRuns.ClientAnswersEveryRequest | checker/helpline/helplinechecker_manual.py:363-550 | after any calls on the client, if no request clashes with an awaited id and all carry a name and attributes, there is one reply for each consumed request, in arrival order, under its id, which says true exactly for the tones of the call |
| ConnectionRuns.ClashLosesRequest | checker/helpline/helplinechecker_manual.py:408-409 | a request under the awaited id ends the wait and gets no reply |
| ConnectionRuns.TonesPartitioned | checker/helpline/helplinechecker_manual.py:386-529 | the acknowledged tones are an order-preserving partition into those handed to the caller and those dropped by other waits; each answer is one line under the id of its message, with the word true for a tone and the word false for anything else |
| ConnectionRuns.EveryToneAcknowledgedExactly | checker/helpline/helplinechecker_manual.py:386-394 | over every run, the consumed tones of the call, under the id that was current, are the acknowledged ones, each once and in order, if and only if none was taken for an awaited reply |
| ConnectionRuns.ClientAcknowledgesEveryTone | checker/helpline/helplinechecker_manual.py:363-550 | after any calls on the client, without a clash, every consumed tone of the call is acknowledged true exactly once, in order, and handed over or dropped |
| Flow.StepKeeps | checker/yaypm/flow.py:46-80 | every act of a generator, a deferred or the reactor keeps the invariant |
| Flow.RunKeeps | checker/yaypm/flow.py:46-80 | so every state of every run has it |
| Flow.SlotIsOwnResult | checker/yaypm/flow.py:38-77 | a resumed generator finds in the global slot what its deferred gave it when it entered it, until it starts a flow or fires a deferred; one in its first step finds None |
| Flow.EnteredFinds | checker/yaypm/flow.py:69-77 | what that is: what the deferred was fired with for the first flow; for a later one the exception of the flow before it if that was raised in the act just before, else None |
| Flow.SlotIsLastEntry | checker/yaypm/flow.py:38-77 | at every moment of every run the slot belongs to the flow that was entered last, also for the one that started or woke it |
| Flow.ExposedMeans | checker/yaypm/flow.py:50-54 | a generator whose exception would go to another flow was resumed straight from its own yield of a fired deferred at rest, and the other flow has yielded that deferred meanwhile |
| Flow.OwnExceptionArrives | checker/yaypm/flow.py:52-80 | any other exception after the first step is what its own return_with is fired with, in the next act or the third |
| Flow.ExceptionGoesAstray | checker/yaypm/flow.py:50-80 | a run of two flows that ends with nothing running, every yielded deferred fired, the first flow's return_with never fired, and its exception in the slot of the second |
| Flow.ResumesOnlySuspended | checker/yaypm/flow.py:46-77 | a deferred resumes only a flow that is suspended on it, so no generator is entered twice |
| Flow.FiredAtMostOnce | checker/yaypm/flow.py:46-80 | return_with fires at most once, and never after a first step that raised |
| Flow.FiredOnceExactly | checker/yaypm/flow.py:46-89 | when nothing is running, a flow whose first step did not raise has fired exactly once if and only if it is not suspended on a deferred that was never fired and did not raise while exposed in that way |
| Flow.ReturnedExactly | checker/yaypm/flow.py:50-80 | at every moment of every run, return_with was fired with an outcome if and only if it was fired and the flow ended with it: the value of its plain yield, None at its end, or its own unexposed exception |
| Flow.ReturnsAtOnce | checker/yaypm/flow.py:55-60 | a value, or None, is handed over in the act that ends the flow |
| Flow.ReturnedAtRestExactly | checker/yaypm/flow.py:46-89 | when nothing is running, return_with was fired with an outcome if and only if the flow ended with it |
| Flow.WaiterFindsReturn | checker/yaypm/flow.py:38-80 | the first flow that is entered from the return_with of another one finds in the slot what that one ended with |
| Flow.FiredExactly | checker/yaypm/flow.py:50-56 | a deferred of the application holds an outcome if and only if it was fired with it |
| Flow.WaiterFindsFired | checker/yaypm/flow.py:38-77 | the first flow that is entered from it finds that in the slot |
| Flow.Reactor.Go | checker/yaypm/flow.py:62-67 | takes the step of starting a flow |
| Flow.Reactor.StepYieldedDeferred | checker/yaypm/flow.py:50-52 | takes the step of yielding a deferred, up to the first handler added, which runs at once on a fired deferred at rest |
| Flow.Reactor.StepAddsErrback | checker/yaypm/flow.py:53-54 | takes the rest of that step, after whatever the first handler has set going |
| Flow.Reactor.StepYieldedPlain | checker/yaypm/flow.py:55-56 | takes the step of ending with a plain value, which return_with is fired with at once (`ReturnsAtOnce`) |
| Flow.Reactor.StepStopped | checker/yaypm/flow.py:57-60 | takes the step of ending with None |
| Flow.Reactor.StepRaised | checker/yaypm/flow.py:69-77 | takes the step of raising: out of the first step, or into the deferred that resumed the flow |
| Flow.Reactor.NextHandler | checker/yaypm/flow.py:69-80 | takes the step of a fired deferred to its next handler: entering a flow with the result so far, or handing a failure to return_with |

## Left out

- Slices.SliceVector.Copy: not for different ranges that overlap in memory, nor for a sum of offset and length that comes around into the window, because the copy is then undefined.
- Slices.RefStorage.Set: not for a sum that comes around into the storage, for the same reason.
- Slices.SliceVector.Concat: the summed lengths must not wrap around 2^32, because the copy would then leave the storage.
- Slices.SliceVector.Concat3: the same.
- Slices.SliceVector.InitSlice: what is read or written through a vector whose window came around is not modelled, only that it is not inside.
- LineWrap.Dump: the texts of the elements are parameters, their number formats are not modelled.
- Array.ObjList.InsertAt: a list is the sequence of its holders from a holder on; the linked cells and pointers into the middle of a list that survive an insertion or removal are not modelled, nor is the automatic deletion flag of a holder.
- Array.Array.AddColumn: the list that is handed over must not be a column already.
- Connection.YATEConnection.Sleep: how many messages arrive in the interval is a parameter; the clock is not modelled.
- Byte sizes: lengths are counted in elements, so `len * objSize` is assumed not to wrap.
- `apply`, `sumApply`, `equals`, `bzero`, `hexify`, `unHexify`, `dumpHex`, `dumpSplit` and `BitVector`: one-line loops or uses of what is modelled.
- `sub`, `mul` and their forms with a value have no methods of their own: they are `Combine` and `MapWindow` with another operation.
- Rounding of float and complex arithmetic.
- The race between threads on a reference count: `ref` and `deref` are taken as atomic.
- The clean-up of an `Array` in its destructor.
- The parser reads the word of a response into a local that it drops; `HandledArrivesExactly` is about that test.
- `format_response` stores no reply in the queue's message: the client treats messages as values.
- The socket, the reader thread and the `install` and `watch` lines of the constructor of `YATEConnection`; `_id` is taken to be set.
- Logging, the audio fingerprint, `sox`, and the scenario scripts of `HelplineChecker` other than the framed read.
- `helplinechecker.py` and `helplinechecker_old.py`, which repeat the codec and the scenarios over other libraries.
- Freshness of generated ids: that no incoming request carries one is a hypothesis of `ConnectionRuns.ClientAnswersEveryRequest`.
- Flow: callbacks of the application on deferreds other than flows, cancelling, and the `callLater` branch of `go` for an argument that is no generator.
- Everything declared in headers without a body in the repository.
