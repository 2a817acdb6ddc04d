# xlrd-parser streaming core in Dafny

This project models the JavaScript side of `xlrd-parser` and proves properties of the model. That side is `lib/xlrd.js`. It reads a child process that prints one JSON record per line. The records describe an Excel workbook: a workbook record, then per sheet a sheet record followed by its cells, and error records. The code turns them into events (`open`, `data`, `error`, `close`). `parse` builds a workbook / sheet / row tree from those events.

Modules:

- **Records** (`records.dfy`): a decoded feed line. The `[kind, payload]` array is a datatype with cases for workbook, sheet, cell, error and "any other kind".
- **Values** (`values.dfy`): the pure parts of the record switch.
  - The cell address: the column letters, then the decimal one-based row.
  - The type-code switch that picks a cell's value: a date with zero-based month, an error, `undefined`, or the raw value.
  - The visibility switch.
  - The workbook and sheet objects.
  - The error objects that the parser and `parse` create.
- **Reassembly** (`reassembly.dfy`): the stdout chunk handler's line splitting. `Split` behaves like JavaScript's `split(/\n/g)`. `Reassemble` is one chunk: it takes the last piece *before* the old fragment is prepended, exactly as the code does.
- **Session** (`session.dfy`): the parser's closure variables as a value, and each handler as a function of them.
  - Handlers: `Flush`, `Dispatch`, `OnChunk`, `OnExit`, `Run`.
  - Row arrays are shared between the parser, every batch it emitted, and `parse`'s tree. They are modelled by identity: `store[id]` is the current content of row array `id`, and `rows`, batches and sheets hold ids. So a cell appended to an already-emitted row stays visible in every place that row was handed to.
- **Streaming** (`parser.dfy`): class `Parser`. Its fields are the closure variables, and its methods (`FlushRows`, `HandleRecord`, `OnData`, `OnExit`) update them in place. Each method is proved to equal the matching Session function.
- **Aggregate** (`aggregate.dfy`): `parse`, with two parts.
  - The listener functions fold the events into workbooks keyed by file and sheets keyed by index. Rows are appended in arrival order, sheets are also stored under their names, and errors nest. At `close`, `file_not_found` is supplied when nothing was read, and the workbooks are passed as `null`, the single workbook, or the list.
  - Class `Aggregator`: the same listeners as in-place updates.

Behaviours of the code that the model keeps as written, each shown by a lemma:

- A chunk without a newline discards the previous fragment (`Reassembly.FragmentDropped`).
- `rowindex` is never reset (`Session.RowIndexFollowsCells`).
- A row that continues past a flush grows a row array that was already emitted (`Session.ContinuedRowIsShared`).
- A new sheet whose first row has the previous row's index appends to the previous sheet's row (`Session.SheetSwitchSameRowIndex`).
- A workbook whose sheets have no cells is reported as `file_not_found`, because `open` events never reach the tree (`Aggregate.EmptyWorkbookNotFound`).
- Rows still pending when the next file's workbook and first sheet records arrive in the same chunk are flushed under the new workbook: the workbook record does not flush, and the sheet record flushes after `workbook` was replaced (`Session.PendingRowsTakeNextWorkbook`). `parse` then files those rows under the second file.

The tests (tests/test.js:19-26) read `rowcount`, `colcount` and `col` properties. The code never sets them, and the model follows the code.

The error handler builds `new Error(type + ': ' + message)` and then copies the record's fields over it. That copy replaces `message` with the record's own message. The model keeps both texts: `constructed` and `message`.

## Model

| member | source | states |
|---|---|---|
| `Reassembly.Split` | lib/xlrd.js:39 | at least one piece, and no piece contains a newline |
| `Reassembly.SplitJoin` | lib/xlrd.js:39 | joining the pieces with newlines gives back the chunk |
| `Reassembly.JoinSplit` | lib/xlrd.js:39 | splitting newline-free pieces joined by newlines gives back the pieces |
| `Reassembly.SplitCount` | lib/xlrd.js:39 | a chunk with k newlines splits into k + 1 pieces |
| `Reassembly.ChunkSplitting` | lib/xlrd.js:39-51 | a chunk with k >= 1 newlines yields exactly k lines: the old fragment plus the first piece, then the middle pieces. The new fragment is the last piece, empty exactly when the chunk ends in a newline. The terminated lines plus the fragment rebuild fragment + chunk |
| `Reassembly.NoNewline` | lib/xlrd.js:40-49 | a chunk without a newline yields no line, and the fragment becomes that chunk alone |
| `Reassembly.ReassembleNewlineFree` | lib/xlrd.js:39-51 | lines handed on never contain a newline |
| `Reassembly.FeedRoundTrip` | lib/xlrd.js:37-51 | when every chunk holds a newline, the processed lines, each followed by a newline, and then the fragment equal the first fragment followed by all chunks |
| `Reassembly.FeedMatchesUnpartitioned` | lib/xlrd.js:37-51 | when every chunk holds a newline, the lines are exactly the complete lines of the unsplit feed, whatever the chunk boundaries |
| `Reassembly.FragmentDropped` | lib/xlrd.js:40-49 | the chunks `"x\nab"`, `"c"`, `"\n"` yield the lines `x`, `c`, whereas the whole feed holds `x`, `abc` |
| `Values.DecimalCanonical` | lib/xlrd.js:100 | the decimal numeral of n has no leading zero and reads back as n |
| `Values.CanonicalDecimal` | lib/xlrd.js:100 | a canonical numeral is the decimal numeral of its value, so numerals and numbers correspond one to one |
| `Values.AddressParts` | lib/xlrd.js:100 | an address starts with the column letters, and the rest is a canonical numeral whose value is the row plus one |
| `Values.SampleAddresses` | tests/test.js:41-46 | rows 0, 5 and 50 in columns A and E are addressed A1, E1, A6, E6, A51, E51 |
| `Values.CellValueRoundTrip` | lib/xlrd.js:101-114 | the type-code switch inverts the encoding the reader uses for dates (month one-based on the wire), errors, blanks and plain values |
| `Values.DateFromTuple` | lib/xlrd.js:102-106 | a six-number tuple becomes a date with the month decreased by one |
| `Values.CellContents` | lib/xlrd.js:97-115 | a cell keeps row and column, its address reads back to row + 1 after the column letters (`rows[50][4]` is E51), and blank, error and other codes give undefined, an error of `v`, and `v` |
| `Values.VisibilityRoundTrip` | lib/xlrd.js:80-86 | codes 1 and 2 are hidden and very hidden, anything else is visible, and the mapping inverts the reader's codes |
| `Values.MakeSheet` | lib/xlrd.js:73-87 | index and name are copied, bounds are rows/cols, hidden iff code 1, very hidden iff code 2 |
| `Values.SourceFailureOf` | lib/xlrd.js:118 | the constructed text is `type: message`, `type` and `exception` are copied, and the visible message is the record's own |
| `Values.NotFound` | lib/xlrd.js:191-192 | a `file_not_found` error whose message is `file not found: ` + the path |
| `Session.Dispatch` | lib/xlrd.js:52-120 | every record keeps the parser's shape: `row` is the newest row array, and `rowindex` is -1 exactly until one exists |
| `Session.OnChunk` | lib/xlrd.js:37-124 | after every chunk nothing is pending |
| `Session.FlushMovesRows` | lib/xlrd.js:21-32 | a flush moves all pending rows and nothing else into one new batch with the current workbook and sheet, emits nothing when none is pending, and leaves everything else as it was |
| `Session.InitInv` | lib/xlrd.js:10-15 | the initial state satisfies the parser invariant |
| `Session.DispatchInv` | lib/xlrd.js:52-120 | every record preserves the invariant: each row array appears once, in creation order, in exactly one emitted batch or among the pending rows; no batch holds rows of another sheet; no batch is empty |
| `Session.OnChunkInv` | lib/xlrd.js:37-124 | a whole chunk preserves the invariant |
| `Session.OnExitInv` | lib/xlrd.js:126-133 | exit preserves the invariant |
| `Session.RunInv` | lib/xlrd.js:10-133 | after any session the emitted batches list every row array exactly once, in creation order |
| `Session.WorkbookOpens` | lib/xlrd.js:55-67 | a workbook record emits exactly one `open` with file, user, sheet count and names, and changes nothing else but `workbook` |
| `Session.SheetSwitches` | lib/xlrd.js:68-88 | a sheet record flushes first, only when a sheet was set, then replaces the sheet; `rowindex`, `row` and the row arrays are unchanged |
| `Session.ErrorReported` | lib/xlrd.js:54-120 | an error record appends one error event built from the record and changes nothing else; a record of another kind changes nothing |
| `Session.CellGrouping` | lib/xlrd.js:89-97 | a cell starts a new row array, pushed onto the pending rows, exactly when its row differs from `rowindex`; otherwise it extends the current row array; events, workbook and sheet are untouched |
| `Session.ContinuedRowIsShared` | lib/xlrd.js:89-97 | with nothing pending, a cell of the current row extends a row array an earlier batch already holds |
| `Session.SheetSwitchSameRowIndex` | lib/xlrd.js:68-97 | after a sheet change, a first cell with the old row index goes into the previous sheet's emitted row array |
| `Session.ExitSignals` | lib/xlrd.js:126-133 | exit appends an error then `close` when the code is not 0 and `close` alone when it is 0, and changes nothing else |
| `Session.CloseIsLast` | lib/xlrd.js:126-133 | a session's events end with its only `close`, preceded by the exit error exactly when the code is not 0 |
| `Session.NewlineFreeChunk` | lib/xlrd.js:37-124 | a chunk without a newline dispatches and emits nothing; only the fragment changes |
| `Session.RowIndexFollowsCells` | lib/xlrd.js:13-95 | after any lines, `rowindex` is the row of the last cell record among them, or what it was; flushes leave it alone |
| `Session.ChunkRowIndex` | lib/xlrd.js:37-124 | after a chunk, `rowindex` is the row of the chunk's last cell record, or unchanged |
| `Session.RunsFlatten` | lib/xlrd.js:89-97 | concatenating the runs of a cell sequence gives back the sequence |
| `Session.RunsMaximal` | lib/xlrd.js:89-97 | runs are non-empty, each holds one row index, and neighbouring runs differ |
| `Session.StoreIsRuns` | lib/xlrd.js:89-97 | over a whole session the row arrays are exactly the maximal equal-row runs of all cells, whatever the chunk, flush and sheet boundaries |
| `Session.RunChunksQuiet` | lib/xlrd.js:117-119 | input without error records yields no error event before exit |
| `Session.NoCellsNoData` | lib/xlrd.js:21-32 | input without cell records creates no row array and emits no batch |
| `Streaming.Parser.constructor` | lib/xlrd.js:10-15 | the fields start as the initial state |
| `Streaming.Parser.FlushRows` | lib/xlrd.js:21-32 | the new state is `Flush` of the old one |
| `Streaming.Parser.HandleRecord` | lib/xlrd.js:52-120 | the new state is `Dispatch` of the old one, and the invariant is kept |
| `Streaming.Parser.OnData` | lib/xlrd.js:37-124 | the loop over the lines leaves the state `OnChunk` describes, and the invariant is kept |
| `Streaming.Parser.OnExit` | lib/xlrd.js:126-133 | the new state is `OnExit` of the old one |
| `Aggregate.FindBook` | lib/xlrd.js:152-154 | the first workbook with that file, or none has it |
| `Aggregate.FindSheet` | lib/xlrd.js:161-163 | the first sheet with that index, or none has it |
| `Aggregate.EnsureBook` | lib/xlrd.js:152-159 | the workbook for the file is found, or appended when missing, and the lookup then finds it |
| `Aggregate.EnsureSheet` | lib/xlrd.js:161-169 | the sheet for the index is found, or appended and stored under its name when missing |
| `Aggregate.AddBatchAt` | lib/xlrd.js:150-175 | a batch appends its rows to those of its own (file, index) key only, creates that key's entry, and keeps every entry |
| `Aggregate.AddBatchKeyed` | lib/xlrd.js:152-169 | keys stay distinct, and `sheets[name]` stays the latest sheet of that name |
| `Aggregate.CollectFacts` | lib/xlrd.js:150-184 | after any events: keys are distinct; every batch has its sheet; each key holds exactly its batches' rows in order; the errors are the error events' failures in order |
| `Aggregate.SheetRows` | lib/xlrd.js:150-175 | every sheet of the tree holds exactly the rows of its workbook file's and index's batches, in emission order |
| `Aggregate.NothingCollected` | lib/xlrd.js:150-184 | no workbook exactly when no batch was emitted, and no error exactly when no error was emitted |
| `Aggregate.ErrorListFromList` | lib/xlrd.js:177-184 | the nested errors value holds the failures in order |
| `Aggregate.FromListErrorList` | lib/xlrd.js:177-184 | a well-nested errors value is rebuilt from its failures |
| `Aggregate.CollectErrors` | lib/xlrd.js:177-184 | the listener's errors are built from the error events' failures alone |
| `Aggregate.ThreeErrors` | lib/xlrd.js:177-184 | three errors nest as `[[e1, e2], e3]` |
| `Aggregate.FinishRows` | lib/xlrd.js:186-202 | each sheet passed to the callback resolves exactly its batches' row arrays, all of which exist |
| `Aggregate.FinishErrors` | lib/xlrd.js:186-202 | `null` for no workbook, the workbook for one, the list otherwise; the errors, or `file_not_found` when there is neither an error nor a workbook |
| `Aggregate.ParseTree` | lib/xlrd.js:142-204 | when every batch names a workbook and sheet, the callback is called, each sheet holds its batches' current row contents, and the errors are as `FinishErrors` says |
| `Aggregate.EmptyWorkbookNotFound` | tests/test.js:136-142 | input without cells and errors, exit code 0, gives `file_not_found` and no workbook |
| `Reassembly.Reassemble` | lib/xlrd.js:39-51 | one chunk of the stdout handler: the last piece is taken before the old fragment is glued on; `ChunkSplitting`, `NoNewline` and `ReassembleNewlineFree` state its lines and fragment |
| `Reassembly.FeedAll` | lib/xlrd.js:37-51 | the handler over a sequence of chunks; `FeedRoundTrip` and `FeedMatchesUnpartitioned` relate its lines to the whole feed, `FragmentDropped` shows where they differ |
| `Values.Address` | lib/xlrd.js:100 | `cn + (r + 1)`; `AddressParts`, `DecimalCanonical` and `SampleAddresses` prove it is the column letters followed by the canonical numeral of the one-based row |
| `Values.DateOf` | lib/xlrd.js:102-106 | the `Date` arguments with the month decreased by one; `DateFromTuple` proves this for every six-number tuple |
| `Values.CellValueOf` | lib/xlrd.js:101-114 | the type-code switch; `CellValueRoundTrip` proves it inverts the reader's encoding of dates, errors, blanks and plain values |
| `Values.MakeCell` | lib/xlrd.js:97-115 | the cell object; `CellContents` proves its row, column, address read-back and value for every code |
| `Values.VisibilityOf` | lib/xlrd.js:80-86 | the visibility switch; `VisibilityRoundTrip` proves 1 is hidden, 2 very hidden, anything else visible |
| `Values.MakeWorkbook` | lib/xlrd.js:56-65 | the workbook object; `Session.WorkbookOpens` proves the `open` event carries file, user, sheet count and names |
| `Values.ExitMessage` | lib/xlrd.js:129 | the exit error's text, `null` for a signal; `Session.ExitSignals` and `Session.CloseIsLast` prove when it is emitted |
| `Session.Flush` | lib/xlrd.js:21-32 | `flushRows`; `FlushMovesRows` proves it moves all pending rows into one batch or emits nothing |
| `Session.OnExit` | lib/xlrd.js:126-133 | the exit handler; `ExitSignals` proves it appends an error and `close` for a non-zero code and `close` alone for 0 |
| `Session.Run` | lib/xlrd.js:10-133 | a whole session: all chunks, then exit; `RunInv`, `StoreIsRuns` and `CloseIsLast` state what it emits |
| `Session.PendingRowsTakeNextWorkbook` | lib/xlrd.js:55-72 | with rows pending, a workbook record then a sheet record emit `open` and then one batch of those rows under the new workbook |
| `Aggregate.AddBatch` | lib/xlrd.js:150-175 | the `data` listener; `AddBatchAt` proves only the batch's own key grows, by its rows |
| `Aggregate.AddError` | lib/xlrd.js:177-184 | the `error` listener; `ErrorListFromList` and `ThreeErrors` prove how errors nest |
| `Aggregate.Collect` | lib/xlrd.js:150-184 | the listeners over all events; `CollectFacts` proves each key holds exactly its batches' rows and the errors are the failures in order |
| `Aggregate.Finish` | lib/xlrd.js:186-202 | the `close` listener; `FinishRows` and `FinishErrors` prove what the callback receives |
| `Aggregate.Parse` | lib/xlrd.js:142-204 | `parse` over one session; `ParseTree` and `EmptyWorkbookNotFound` prove its callback arguments |
| `Aggregate.Aggregator.constructor` | lib/xlrd.js:146-148 | no workbooks and no errors |
| `Aggregate.Aggregator.OnData` | lib/xlrd.js:150-175 | the new workbooks are `AddBatch` of the old ones, built by the lookups, creation and the row-by-row push loop; keys stay distinct |
| `Aggregate.Aggregator.OnError` | lib/xlrd.js:177-184 | the first error is stored alone, and a later one pairs the existing value with it |
| `Aggregate.Aggregator.OnClose` | lib/xlrd.js:186-202 | the callback's arguments are `Finish` of the collected state, and `errors` is left holding what was passed |

## Left out

- Spawning `python` and setting the stdout encoding (lib/xlrd.js:9, 36) are I/O. A session is a sequence of chunk strings and one exit code. `None` stands for the `null` code of a process killed by a signal.
- Node may deliver `exit` before the last stdout chunk. The model assumes every chunk arrives before exit.
- The `debug` echo to the console (lib/xlrd.js:42-44) is I/O.
- `JSON.parse` (lib/xlrd.js:52) is the parameter `decode`, a total function from a line to a record. A line that fails to parse throws in the code, and that path is not modelled. Payload fields are assumed to have the producer's types: `r`, `c`, `index`, `rows`, `cols`, `count` are non-negative integers.
- JavaScript `Date` and `Error` objects are kept as their constructor arguments, with no calendar arithmetic. Numeric cell values are opaque reals passed through.
- EventEmitter throws on an `error` event that has no listener. That concerns `stream` users only: `parse` always listens, and the model keeps the event log instead.
- `exports.stream` (lib/xlrd.js:138-140) only constructs a parser: it is `Streaming.Parser.constructor`.
- Aggregate.Aggregator.OnData: batches that name no workbook or no sheet are excluded by the precondition, and `Aggregate.Parse` gives `None` for a session that emits one. The reader never causes such a batch: it prints the workbook record (runxlrd-json.py:232) and a sheet record (runxlrd-json.py:104) before any cell (runxlrd-json.py:63). In JavaScript such a batch throws a `TypeError` only once a lookup compares it with an existing workbook or sheet. The very first batch would instead create a workbook and a sheet with no fields, because `_.find` over an empty list runs no comparison and `_.extend` of `undefined` copies nothing. That behaviour is not modelled.
- Values.DateFromTuple: a date-coded `v` is assumed to be the reader's six-number `xldate_as_tuple` result (runxlrd-json.py:77-83). JavaScript's conversion of other arguments to numbers, which can still give a valid `Date`, and the `TypeError` for `v = null` are not modelled; such values are mapped to `InvalidDate`.
- `workbook.sheets[name] = sheet` sets a property on an array. It is modelled as a separate name-to-position map. A sheet named like an array index or `length` would alter the array itself in JavaScript; that is not modelled.
- `callback || function () {}` makes a missing callback do nothing. The model returns the arguments instead of calling a function.
- `runxlrd-json.py` only defines the record shapes here (runxlrd-json.py:63, 104-110, 232-242). Cells arriving row by row, in column order, is that program's behaviour; the grouping lemmas hold for any order.
- tests/test.js and sample.js need a real workbook and a Python process. They serve only as statements of expected behaviour.
