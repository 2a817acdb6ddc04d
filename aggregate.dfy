/**
 * `parse`: listeners on a streaming parser that assemble every `data` batch
 * into a workbook / sheet / row tree, collect the `error` events, and on
 * `close` hand both to the callback.
 *
 * Workbooks are matched by file name and sheets, within a workbook, by sheet
 * index, first match wins. The tree holds row identities while it is being
 * built, exactly as the source holds references to the parser's row arrays;
 * they are resolved against the row arrays' contents at `close`.
 */
module Aggregate {
  import opened Records
  import opened Values
  import opened Reassembly
  import opened Session

  /** A sheet of the tree: the sheet of the batch that created it, and the
      rows pushed to it so far. */
  datatype SheetEntry = SheetEntry(sheet: Sheet, rows: seq<RowId>)

  /** A workbook of the tree: the workbook of the batch that created it, its
      sheets in creation order, and the sheets array's name-keyed properties
      (`sheets[name]`) as positions in that order. */
  datatype BookEntry = BookEntry(workbook: Workbook, sheets: seq<SheetEntry>, byName: map<string, nat>)

  /** The `errors` variable: unset, one error, or the two-element array
      `[earlier, err]` that a further error turns it into. */
  datatype Errors =
    | NoErrors
    | One(err: Failure)
    | Pair(earlier: Errors, err: Failure)

  /** The listeners' variables. */
  datatype Agg = Agg(books: seq<BookEntry>, errors: Errors)

  // ---------------------------------------------------------------------------
  // Lookups
  // ---------------------------------------------------------------------------

  /** `_.find` over the workbooks by file name. */
  function FindBook(books: seq<BookEntry>, file: string): (r: Option<nat>)
    ensures r.Some? ==> r.value < |books| && books[r.value].workbook.file == file
    ensures r.Some? ==> forall i :: 0 <= i < r.value ==> books[i].workbook.file != file
    ensures r.None? ==> forall i :: 0 <= i < |books| ==> books[i].workbook.file != file
  {
    if books == [] then None
    else if books[0].workbook.file == file then Some(0)
    else
      match FindBook(books[1..], file)
      case None => None
      case Some(i) => Some(i + 1)
  }

  /** `_.find` over a workbook's sheets by sheet index. */
  function FindSheet(sheets: seq<SheetEntry>, index: nat): (r: Option<nat>)
    ensures r.Some? ==> r.value < |sheets| && sheets[r.value].sheet.index == index
    ensures r.Some? ==> forall j :: 0 <= j < r.value ==> sheets[j].sheet.index != index
    ensures r.None? ==> forall j :: 0 <= j < |sheets| ==> sheets[j].sheet.index != index
  {
    if sheets == [] then None
    else if sheets[0].sheet.index == index then Some(0)
    else
      match FindSheet(sheets[1..], index)
      case None => None
      case Some(j) => Some(j + 1)
  }

  // ---------------------------------------------------------------------------
  // The listeners
  // ---------------------------------------------------------------------------

  /** A batch that names both a workbook and a sheet. The reader prints a
      workbook record and then a sheet record before any cell, so every batch
      it causes is addressed. The listeners are modelled for such batches
      only. */
  predicate Addressed(b: Batch) {
    b.workbook.Some? && b.sheet.Some?
  }

  function NewBook(wb: Workbook): BookEntry {
    BookEntry(wb, [], map[])
  }

  /** The workbook with this file name, created at the end when missing; the
      result is the new workbook list and the workbook's position. */
  function EnsureBook(books: seq<BookEntry>, wb: Workbook): (r: (seq<BookEntry>, nat))
    ensures r.1 < |r.0| && r.0[r.1].workbook.file == wb.file
    ensures FindBook(r.0, wb.file) == Some(r.1)
    ensures FindBook(books, wb.file).Some? ==> r.0 == books
    ensures FindBook(books, wb.file).None? ==> r.0 == books + [NewBook(wb)]
  {
    match FindBook(books, wb.file)
    case Some(i) => (books, i)
    case None => (books + [NewBook(wb)], |books|)
  }

  /** The sheet with this index, created at the end of the workbook's sheets
      when missing, when it is also stored under its name. */
  function EnsureSheet(book: BookEntry, sh: Sheet): (r: (BookEntry, nat))
    ensures r.1 < |r.0.sheets| && r.0.sheets[r.1].sheet.index == sh.index
    ensures FindSheet(r.0.sheets, sh.index) == Some(r.1)
    ensures r.0.workbook == book.workbook
    ensures FindSheet(book.sheets, sh.index).Some? ==> r.0 == book
    ensures FindSheet(book.sheets, sh.index).None? ==>
              r.0 == book.(sheets := book.sheets + [SheetEntry(sh, [])],
                           byName := book.byName[sh.name := |book.sheets|])
  {
    match FindSheet(book.sheets, sh.index)
    case Some(j) => (book, j)
    case None =>
      (book.(sheets := book.sheets + [SheetEntry(sh, [])], byName := book.byName[sh.name := |book.sheets|]),
       |book.sheets|)
  }

  /** The `data` listener. */
  function AddBatch(books: seq<BookEntry>, b: Batch): seq<BookEntry>
    requires Addressed(b)
  {
    var (bs, i) := EnsureBook(books, b.workbook.value);
    var (book, j) := EnsureSheet(bs[i], b.sheet.value);
    var entry := book.sheets[j];
    bs[i := book.(sheets := book.sheets[j := entry.(rows := entry.rows + b.rows)])]
  }

  /** The `error` listener. */
  function AddError(errors: Errors, f: Failure): Errors {
    if errors.NoErrors? then One(f) else Pair(errors, f)
  }

  predicate AllAddressed(events: seq<Event>) {
    forall k :: 0 <= k < |events| && events[k].Data? ==> Addressed(events[k].batch)
  }

  /** The listeners' variables after the events, in order; `open` and `close`
      leave them as they are. */
  function Collect(events: seq<Event>): Agg
    requires AllAddressed(events)
  {
    if events == [] then Agg([], NoErrors)
    else
      var a := Collect(events[..|events| - 1]);
      match events[|events| - 1]
      case Data(b) => a.(books := AddBatch(a.books, b))
      case Error(f) => a.(errors := AddError(a.errors, f))
      case Open(_) => a
      case Close => a
  }

  // ---------------------------------------------------------------------------
  // The close listener
  // ---------------------------------------------------------------------------

  datatype SheetTree = SheetTree(sheet: Sheet, rows: seq<seq<Cell>>)
  datatype BookTree = BookTree(workbook: Workbook, sheets: seq<SheetTree>, byName: map<string, nat>)

  /** The callback's second argument: `null`, the only workbook, or all of
      them. */
  datatype Outcome = NoWorkbook | OneWorkbook(book: BookTree) | Workbooks(books: seq<BookTree>)

  /** The callback's two arguments. */
  datatype Callback = Callback(errors: Errors, result: Outcome)

  /** The current contents of the row arrays with these identities. */
  function Resolve(store: seq<seq<Cell>>, ids: seq<RowId>): (rows: seq<seq<Cell>>)
    ensures |rows| == |ids|
    ensures forall k :: 0 <= k < |ids| && ids[k] < |store| ==> rows[k] == store[ids[k]]
  {
    seq(|ids|, k requires 0 <= k < |ids| => if ids[k] < |store| then store[ids[k]] else [])
  }

  function TreeOf(store: seq<seq<Cell>>, book: BookEntry): BookTree {
    BookTree(book.workbook,
             seq(|book.sheets|, j requires 0 <= j < |book.sheets| =>
               SheetTree(book.sheets[j].sheet, Resolve(store, book.sheets[j].rows))),
             book.byName)
  }

  /** Every workbook of the tree with its row identities resolved. */
  function Trees(store: seq<seq<Cell>>, books: seq<BookEntry>): (trees: seq<BookTree>)
    ensures |trees| == |books|
    ensures forall i :: 0 <= i < |books| ==> trees[i] == TreeOf(store, books[i])
  {
    seq(|books|, i requires 0 <= i < |books| => TreeOf(store, books[i]))
  }

  /** The `close` listener: when nothing at all was collected, a
      `file_not_found` error for the path; then one of three shapes. */
  function Finish(a: Agg, path: string, store: seq<seq<Cell>>): Callback {
    var errors := if a.errors.NoErrors? && |a.books| == 0 then One(NotFound(path)) else a.errors;
    var trees := Trees(store, a.books);
    Callback(errors,
             if |trees| == 0 then NoWorkbook
             else if |trees| == 1 then OneWorkbook(trees[0])
             else Workbooks(trees))
  }

  /** `parse` over one session of the reader: the callback's arguments, or
      `None` for a session with a batch that names no workbook or no sheet,
      which this model does not follow. */
  function Parse(path: string, chunks: seq<string>, code: Option<int>, decode: string -> Record): Option<Callback> {
    var final := Run(chunks, code, decode);
    if AllAddressed(final.events) then Some(Finish(Collect(final.events), path, final.store)) else None
  }

  // ---------------------------------------------------------------------------
  // What the tree holds
  // ---------------------------------------------------------------------------

  function KeyRows(e: Event, file: string, index: nat): seq<RowId> {
    if e.Data? && Addressed(e.batch) && e.batch.workbook.value.file == file && e.batch.sheet.value.index == index
    then e.batch.rows
    else []
  }

  /** The rows of every batch for this workbook file and sheet index, in
      emission order: what the sheet of that key should hold. */
  function BatchRows(events: seq<Event>, file: string, index: nat): seq<RowId> {
    if events == [] then []
    else BatchRows(events[..|events| - 1], file, index) + KeyRows(events[|events| - 1], file, index)
  }

  /** The failures of the error events, in order. */
  function FailuresOf(events: seq<Event>): seq<Failure> {
    if events == [] then []
    else
      var e := events[|events| - 1];
      FailuresOf(events[..|events| - 1]) + (if e.Error? then [e.failure] else [])
  }

  /** The errors, oldest first, that a value of `errors` holds. */
  function ErrorList(e: Errors): seq<Failure> {
    match e
    case NoErrors => []
    case One(f) => [f]
    case Pair(earlier, f) => ErrorList(earlier) + [f]
  }

  predicate HasEntry(books: seq<BookEntry>, file: string, index: nat) {
    var i := FindBook(books, file);
    i.Some? && FindSheet(books[i.value].sheets, index).Some?
  }

  /** The rows of the sheet that the listener finds for this key, or none. */
  function RowsAt(books: seq<BookEntry>, file: string, index: nat): seq<RowId> {
    var i := FindBook(books, file);
    if i.Some? then
      var j := FindSheet(books[i.value].sheets, index);
      if j.Some? then books[i.value].sheets[j.value].rows else []
    else []
  }

  predicate DistinctFiles(books: seq<BookEntry>) {
    forall i, k :: 0 <= i < k < |books| ==> books[i].workbook.file != books[k].workbook.file
  }

  predicate DistinctIndices(sheets: seq<SheetEntry>) {
    forall j, k :: 0 <= j < k < |sheets| ==> sheets[j].sheet.index != sheets[k].sheet.index
  }

  /** `sheets[name]` is the most recently created sheet of that name. */
  predicate NamesIndexed(book: BookEntry) {
    && (forall n :: n in book.byName ==>
          book.byName[n] < |book.sheets| && book.sheets[book.byName[n]].sheet.name == n)
    && (forall j :: 0 <= j < |book.sheets| ==>
          book.sheets[j].sheet.name in book.byName && j <= book.byName[book.sheets[j].sheet.name])
  }

  predicate Keyed(books: seq<BookEntry>) {
    && DistinctFiles(books)
    && forall i :: 0 <= i < |books| ==> DistinctIndices(books[i].sheets) && NamesIndexed(books[i])
  }

  // ---------------------------------------------------------------------------
  // Lookups depend on the keys only
  // ---------------------------------------------------------------------------

  predicate SameFiles(a: seq<BookEntry>, b: seq<BookEntry>) {
    |a| == |b| && forall k :: 0 <= k < |a| ==> a[k].workbook.file == b[k].workbook.file
  }

  predicate SameIndices(a: seq<SheetEntry>, b: seq<SheetEntry>) {
    |a| == |b| && forall k :: 0 <= k < |a| ==> a[k].sheet.index == b[k].sheet.index
  }

  lemma {:induction false} FindBookByFiles(a: seq<BookEntry>, b: seq<BookEntry>, file: string)
    requires SameFiles(a, b)
    ensures FindBook(a, file) == FindBook(b, file)
  {
  }

  lemma {:induction false} FindBookAppend(a: seq<BookEntry>, e: BookEntry, file: string)
    ensures e.workbook.file != file ==> FindBook(a + [e], file) == FindBook(a, file)
    ensures e.workbook.file == file && FindBook(a, file).None? ==> FindBook(a + [e], file) == Some(|a|)
  {
    assert forall k :: 0 <= k < |a| ==> (a + [e])[k] == a[k];
    assert (a + [e])[|a|] == e;
  }

  lemma {:induction false} FindSheetByIndices(a: seq<SheetEntry>, b: seq<SheetEntry>, index: nat)
    requires SameIndices(a, b)
    ensures FindSheet(a, index) == FindSheet(b, index)
  {
  }

  lemma {:induction false} FindSheetAppend(a: seq<SheetEntry>, e: SheetEntry, index: nat)
    ensures e.sheet.index != index ==> FindSheet(a + [e], index) == FindSheet(a, index)
    ensures e.sheet.index == index && FindSheet(a, index).None? ==> FindSheet(a + [e], index) == Some(|a|)
  {
    assert forall k :: 0 <= k < |a| ==> (a + [e])[k] == a[k];
    assert (a + [e])[|a|] == e;
  }

  /** With distinct keys, the lookup finds every entry at its own place. */
  lemma {:induction false} FindDistinct(books: seq<BookEntry>, i: nat, j: nat)
    requires Keyed(books) && i < |books| && j < |books[i].sheets|
    ensures FindBook(books, books[i].workbook.file) == Some(i)
    ensures FindSheet(books[i].sheets, books[i].sheets[j].sheet.index) == Some(j)
  {
    var r := FindBook(books, books[i].workbook.file);
    var q := FindSheet(books[i].sheets, books[i].sheets[j].sheet.index);
  }

  // ---------------------------------------------------------------------------
  // The data listener
  // ---------------------------------------------------------------------------

  /** What the `data` listener does for one key: an entry, once there, stays;
      the batch's own key ends up with an entry; and the rows held for a key
      grow by the batch's rows exactly when it is the batch's key. */
  lemma {:induction false} AddBatchAt(books: seq<BookEntry>, b: Batch, f: string, x: nat)
    requires Keyed(books) && Addressed(b)
    ensures HasEntry(books, f, x) ==> HasEntry(AddBatch(books, b), f, x)
    ensures f == b.workbook.value.file && x == b.sheet.value.index ==> HasEntry(AddBatch(books, b), f, x)
    ensures RowsAt(AddBatch(books, b), f, x) == RowsAt(books, f, x) + KeyRows(Data(b), f, x)
  {
    if f == b.workbook.value.file && x == b.sheet.value.index {
      AddBatchOwnKey(books, b, f, x);
    } else {
      AddBatchOtherKey(books, b, f, x);
      assert KeyRows(Data(b), f, x) == [];
      assert RowsAt(books, f, x) + [] == RowsAt(books, f, x);
    }
  }

  /** The batch's own key has an entry afterwards, holding the batch's rows
      after those it held before. */
  lemma {:induction false} AddBatchOwnKey(books: seq<BookEntry>, b: Batch, f: string, x: nat)
    requires Addressed(b) && f == b.workbook.value.file && x == b.sheet.value.index
    ensures HasEntry(AddBatch(books, b), f, x)
    ensures RowsAt(AddBatch(books, b), f, x) == RowsAt(books, f, x) + b.rows
  {
    var wb := b.workbook.value;
    var sh := b.sheet.value;
    var r := EnsureBook(books, wb);
    var bs := r.0;
    var i := r.1;
    var q := EnsureSheet(bs[i], sh);
    var book := q.0;
    var j := q.1;
    var entry := book.sheets[j];
    var sheets' := book.sheets[j := entry.(rows := entry.rows + b.rows)];
    var after := bs[i := book.(sheets := sheets')];
    assert after == AddBatch(books, b);
    assert SameFiles(after, bs);
    FindBookByFiles(after, bs, f);
    assert SameIndices(sheets', book.sheets);
    FindSheetByIndices(sheets', book.sheets, x);
    assert FindBook(after, f) == Some(i);
    assert FindSheet(sheets', x) == Some(j);
    if FindBook(books, f).Some? {
      assert bs == books;
      if FindSheet(books[i].sheets, x).None? {
        assert entry.rows == [];
      }
    } else {
      assert bs[i] == NewBook(wb);
      assert entry.rows == [];
    }
    assert RowsAt(after, f, x) == entry.rows + b.rows;
  }

  /** Any other key keeps its entry, if it had one, and its rows. */
  lemma {:induction false} AddBatchOtherKey(books: seq<BookEntry>, b: Batch, f: string, x: nat)
    requires Addressed(b) && !(f == b.workbook.value.file && x == b.sheet.value.index)
    ensures HasEntry(books, f, x) ==> HasEntry(AddBatch(books, b), f, x)
    ensures RowsAt(AddBatch(books, b), f, x) == RowsAt(books, f, x)
  {
    var wb := b.workbook.value;
    var sh := b.sheet.value;
    var r := EnsureBook(books, wb);
    var bs := r.0;
    var i := r.1;
    var q := EnsureSheet(bs[i], sh);
    var book := q.0;
    var j := q.1;
    var entry := book.sheets[j];
    var sheets' := book.sheets[j := entry.(rows := entry.rows + b.rows)];
    var after := bs[i := book.(sheets := sheets')];
    assert after == AddBatch(books, b);
    assert SameFiles(after, bs);
    FindBookByFiles(after, bs, f);
    assert SameIndices(sheets', book.sheets);
    FindSheetByIndices(sheets', book.sheets, x);
    if f == wb.file {
      assert FindBook(after, f) == Some(i);
      FindSheetAppend(bs[i].sheets, SheetEntry(sh, []), x);
      assert FindSheet(book.sheets, x) == FindSheet(bs[i].sheets, x);
      if FindBook(books, f).Some? {
        assert bs == books;
      } else {
        assert bs[i] == NewBook(wb);
      }
    } else {
      FindBookAppend(books, NewBook(wb), f);
      assert FindBook(bs, f) == FindBook(books, f);
    }
  }

  lemma {:induction false} EnsureSheetKeyed(book: BookEntry, sh: Sheet)
    requires DistinctIndices(book.sheets) && NamesIndexed(book)
    ensures DistinctIndices(EnsureSheet(book, sh).0.sheets) && NamesIndexed(EnsureSheet(book, sh).0)
  {
    if FindSheet(book.sheets, sh.index).None? {
      var book' := EnsureSheet(book, sh).0;
      var n := |book.sheets|;
      assert forall k :: 0 <= k < n ==> book'.sheets[k] == book.sheets[k];
      assert book'.sheets[n] == SheetEntry(sh, []);
    }
  }

  lemma {:induction false} EnsureBookKeyed(books: seq<BookEntry>, wb: Workbook)
    requires Keyed(books)
    ensures Keyed(EnsureBook(books, wb).0)
  {
    if FindBook(books, wb.file).None? {
      var bs := EnsureBook(books, wb).0;
      assert forall k :: 0 <= k < |books| ==> bs[k] == books[k];
      assert bs[|books|] == NewBook(wb);
    }
  }

  lemma {:induction false} SetRowsKeyed(book: BookEntry, j: nat, rows: seq<RowId>)
    requires DistinctIndices(book.sheets) && NamesIndexed(book) && j < |book.sheets|
    ensures var book' := book.(sheets := book.sheets[j := book.sheets[j].(rows := rows)]);
            DistinctIndices(book'.sheets) && NamesIndexed(book')
  {
    var sheets' := book.sheets[j := book.sheets[j].(rows := rows)];
    assert forall k :: 0 <= k < |sheets'| ==> sheets'[k].sheet == book.sheets[k].sheet;
  }

  lemma {:induction false} ReplaceBookKeyed(bs: seq<BookEntry>, i: nat, book: BookEntry)
    requires Keyed(bs) && i < |bs| && book.workbook.file == bs[i].workbook.file
    requires DistinctIndices(book.sheets) && NamesIndexed(book)
    ensures Keyed(bs[i := book])
  {
    assert SameFiles(bs[i := book], bs);
  }

  /** The `data` listener keeps the keys distinct and `sheets[name]` pointing
      at the latest sheet of each name. */
  lemma {:induction false} AddBatchKeyed(books: seq<BookEntry>, b: Batch)
    requires Keyed(books) && Addressed(b)
    ensures Keyed(AddBatch(books, b))
  {
    var r := EnsureBook(books, b.workbook.value);
    EnsureBookKeyed(books, b.workbook.value);
    var q := EnsureSheet(r.0[r.1], b.sheet.value);
    EnsureSheetKeyed(r.0[r.1], b.sheet.value);
    var entry := q.0.sheets[q.1];
    SetRowsKeyed(q.0, q.1, entry.rows + b.rows);
    ReplaceBookKeyed(r.0, r.1, q.0.(sheets := q.0.sheets[q.1 := entry.(rows := entry.rows + b.rows)]));
  }

  // ---------------------------------------------------------------------------
  // All the events
  // ---------------------------------------------------------------------------

  predicate Covered(books: seq<BookEntry>, events: seq<Event>)
    requires AllAddressed(events)
  {
    forall k :: 0 <= k < |events| && events[k].Data? ==>
      HasEntry(books, events[k].batch.workbook.value.file, events[k].batch.sheet.value.index)
  }

  lemma {:induction false} CollectDataStep(events: seq<Event>, b: Batch)
    requires AllAddressed(events) && Addressed(b)
    requires Keyed(Collect(events).books) && Covered(Collect(events).books, events)
    requires forall f, x :: RowsAt(Collect(events).books, f, x) == BatchRows(events, f, x)
    ensures var after := AddBatch(Collect(events).books, b);
            && Keyed(after)
            && Covered(after, events + [Data(b)])
            && forall f, x :: RowsAt(after, f, x) == BatchRows(events + [Data(b)], f, x)
  {
    var books := Collect(events).books;
    var after := AddBatch(books, b);
    var all := events + [Data(b)];
    assert all[..|all| - 1] == events;
    AddBatchKeyed(books, b);
    forall f, x
      ensures RowsAt(after, f, x) == BatchRows(all, f, x)
      ensures HasEntry(books, f, x) ==> HasEntry(after, f, x)
    {
      AddBatchAt(books, b, f, x);
    }
    AddBatchAt(books, b, b.workbook.value.file, b.sheet.value.index);
    forall k | 0 <= k < |all| && all[k].Data?
      ensures HasEntry(after, all[k].batch.workbook.value.file, all[k].batch.sheet.value.index)
    {
      if k < |events| {
        assert all[k] == events[k];
      }
    }
  }

  lemma {:induction false} CollectOtherStep(events: seq<Event>, e: Event)
    requires AllAddressed(events) && !e.Data?
    requires Covered(Collect(events).books, events)
    requires forall f, x :: RowsAt(Collect(events).books, f, x) == BatchRows(events, f, x)
    ensures var books := Collect(events).books;
            && Covered(books, events + [e])
            && forall f, x :: RowsAt(books, f, x) == BatchRows(events + [e], f, x)
  {
    var all := events + [e];
    assert all[..|all| - 1] == events;
    forall f, x
      ensures BatchRows(all, f, x) == BatchRows(events, f, x)
    {
      assert BatchRows(events, f, x) + [] == BatchRows(events, f, x);
    }
    forall k | 0 <= k < |all| && all[k].Data?
      ensures HasEntry(Collect(events).books, all[k].batch.workbook.value.file, all[k].batch.sheet.value.index)
    {
      assert k < |events| && all[k] == events[k];
    }
  }

  /** After any sequence of events: keys are distinct and `sheets[name]` is
      up to date; every data batch has a sheet in the tree; the sheet of each
      (file, index) key holds exactly the rows of that key's batches, in
      emission order; and `errors` holds the error events' failures, oldest
      first. */
  lemma {:induction false} CollectFacts(events: seq<Event>)
    requires AllAddressed(events)
    ensures Keyed(Collect(events).books)
    ensures Covered(Collect(events).books, events)
    ensures forall f, x :: RowsAt(Collect(events).books, f, x) == BatchRows(events, f, x)
    ensures ErrorList(Collect(events).errors) == FailuresOf(events)
    decreases |events|
  {
    if events != [] {
      var init := events[..|events| - 1];
      var e := events[|events| - 1];
      assert events == init + [e];
      assert AllAddressed(init) by {
        forall k | 0 <= k < |init| && init[k].Data? ensures Addressed(init[k].batch) {
          assert init[k] == events[k];
        }
      }
      CollectFacts(init);
      if e.Data? {
        CollectDataStep(init, e.batch);
      } else {
        CollectOtherStep(init, e);
      }
    }
  }

  /** Every sheet of the tree holds exactly the rows of the batches for its
      workbook's file and its own index, in emission order. */
  lemma {:induction false} SheetRows(events: seq<Event>)
    requires AllAddressed(events)
    ensures forall i, j :: 0 <= i < |Collect(events).books| && 0 <= j < |Collect(events).books[i].sheets| ==>
              Collect(events).books[i].sheets[j].rows
              == BatchRows(events, Collect(events).books[i].workbook.file, Collect(events).books[i].sheets[j].sheet.index)
  {
    var books := Collect(events).books;
    CollectFacts(events);
    forall i, j | 0 <= i < |books| && 0 <= j < |books[i].sheets|
      ensures books[i].sheets[j].rows == BatchRows(events, books[i].workbook.file, books[i].sheets[j].sheet.index)
    {
      FindDistinct(books, i, j);
    }
  }

  lemma {:induction false} NoDataNoBooks(events: seq<Event>)
    requires AllAddressed(events)
    requires forall k :: 0 <= k < |events| ==> !events[k].Data?
    ensures Collect(events).books == []
    decreases |events|
  {
    if events != [] {
      var init := events[..|events| - 1];
      assert forall k :: 0 <= k < |init| ==> init[k] == events[k];
      NoDataNoBooks(init);
    }
  }

  lemma {:induction false} FailuresEmpty(events: seq<Event>)
    ensures FailuresOf(events) == [] <==> forall k :: 0 <= k < |events| ==> !events[k].Error?
    decreases |events|
  {
    if events != [] {
      var init := events[..|events| - 1];
      assert forall k :: 0 <= k < |init| ==> init[k] == events[k];
      FailuresEmpty(init);
    }
  }

  /** The tree is empty exactly when no batch was emitted, and `errors` is
      unset exactly when no error was emitted; `open` events count for
      neither. */
  lemma {:induction false} NothingCollected(events: seq<Event>)
    requires AllAddressed(events)
    ensures Collect(events).books == [] <==> forall k :: 0 <= k < |events| ==> !events[k].Data?
    ensures Collect(events).errors == NoErrors <==> forall k :: 0 <= k < |events| ==> !events[k].Error?
  {
    CollectFacts(events);
    FailuresEmpty(events);
    if forall k :: 0 <= k < |events| ==> !events[k].Data? {
      NoDataNoBooks(events);
    }
    var e := Collect(events).errors;
    if e.Pair? {
      assert ErrorList(e) == ErrorList(e.earlier) + [e.err];
    }
  }

  // ---------------------------------------------------------------------------
  // The errors variable
  // ---------------------------------------------------------------------------

  /** The `errors` value that these failures, reported in order, leave. */
  function FromList(fs: seq<Failure>): Errors {
    if fs == [] then NoErrors else AddError(FromList(fs[..|fs| - 1]), fs[|fs| - 1])
  }

  /** A value the error listener can build: the earlier part of a pair is
      never unset. */
  predicate WellNested(e: Errors) {
    match e
    case NoErrors => true
    case One(_) => true
    case Pair(earlier, _) => !earlier.NoErrors? && WellNested(earlier)
  }

  lemma {:induction false} ErrorListFromList(fs: seq<Failure>)
    ensures ErrorList(FromList(fs)) == fs
    ensures WellNested(FromList(fs))
    decreases |fs|
  {
    if fs != [] {
      ErrorListFromList(fs[..|fs| - 1]);
      assert fs == fs[..|fs| - 1] + [fs[|fs| - 1]];
    }
  }

  lemma {:induction false} FromListErrorList(e: Errors)
    requires WellNested(e)
    ensures FromList(ErrorList(e)) == e
  {
    match e
    case NoErrors =>
    case One(f) =>
      assert [f][..0] == [];
    case Pair(earlier, f) =>
      FromListErrorList(earlier);
      var fs := ErrorList(earlier) + [f];
      assert fs[..|fs| - 1] == ErrorList(earlier);
  }

  /** The listener's `errors` is built from the failures alone, so three
      errors nest as `[[e1, e2], e3]`. */
  lemma {:induction false} CollectErrors(events: seq<Event>)
    requires AllAddressed(events)
    ensures Collect(events).errors == FromList(FailuresOf(events))
  {
    CollectFacts(events);
    ErrorListFromList(FailuresOf(events));
    CollectWellNested(events);
    FromListErrorList(Collect(events).errors);
  }

  lemma {:induction false} CollectWellNested(events: seq<Event>)
    requires AllAddressed(events)
    ensures WellNested(Collect(events).errors)
    decreases |events|
  {
    if events != [] {
      var init := events[..|events| - 1];
      assert forall k :: 0 <= k < |init| ==> init[k] == events[k];
      CollectWellNested(init);
    }
  }

  lemma {:induction false} ThreeErrors(e1: Failure, e2: Failure, e3: Failure)
    ensures FromList([e1, e2, e3]) == Pair(Pair(One(e1), e2), e3)
  {
    assert [e1][..0] == [];
    assert FromList([e1]) == One(e1);
    assert [e1, e2][..1] == [e1];
    assert FromList([e1, e2]) == Pair(One(e1), e2);
    assert [e1, e2, e3][..2] == [e1, e2];
  }

  // ---------------------------------------------------------------------------
  // parse, end to end
  // ---------------------------------------------------------------------------

  /** The workbooks the callback receives, whatever its shape. */
  function BooksOf(o: Outcome): seq<BookTree> {
    match o
    case NoWorkbook => []
    case OneWorkbook(b) => [b]
    case Workbooks(bs) => bs
  }

  lemma {:induction false} BatchRowsEmitted(events: seq<Event>, file: string, index: nat)
    ensures forall k :: 0 <= k < |BatchRows(events, file, index)| ==> BatchRows(events, file, index)[k] in Emitted(events)
    decreases |events|
  {
    if events != [] {
      var init := events[..|events| - 1];
      BatchRowsEmitted(init, file, index);
      EmittedSnoc(init, events[|events| - 1]);
      assert events == init + [events[|events| - 1]];
    }
  }

  /** The `close` listener over the collected tree: each sheet resolves the
      rows of its own batches against the row arrays. */
  lemma {:induction false} FinishRows(events: seq<Event>, path: string, store: seq<seq<Cell>>)
    requires AllAddressed(events)
    requires forall id :: id in Emitted(events) ==> id < |store|
    ensures var trees := BooksOf(Finish(Collect(events), path, store).result);
            && |trees| == |Collect(events).books|
            && forall i, j :: 0 <= i < |trees| && 0 <= j < |trees[i].sheets| ==>
                 var ids := BatchRows(events, trees[i].workbook.file, trees[i].sheets[j].sheet.index);
                 && (forall k :: 0 <= k < |ids| ==> ids[k] < |store|)
                 && trees[i].sheets[j].rows == Resolve(store, ids)
  {
    var a := Collect(events);
    var trees := BooksOf(Finish(a, path, store).result);
    SheetRows(events);
    assert |trees| == |a.books|;
    forall i, j | 0 <= i < |trees| && 0 <= j < |trees[i].sheets|
      ensures var ids := BatchRows(events, trees[i].workbook.file, trees[i].sheets[j].sheet.index);
              && (forall k :: 0 <= k < |ids| ==> ids[k] < |store|)
              && trees[i].sheets[j].rows == Resolve(store, ids)
    {
      assert trees[i] == TreeOf(store, a.books[i]);
      assert i < |a.books| && j < |a.books[i].sheets|;
      assert trees[i].sheets[j] == SheetTree(a.books[i].sheets[j].sheet, Resolve(store, a.books[i].sheets[j].rows));
      assert a.books[i].sheets[j].rows
          == BatchRows(events, a.books[i].workbook.file, a.books[i].sheets[j].sheet.index);
      BatchRowsEmitted(events, trees[i].workbook.file, trees[i].sheets[j].sheet.index);
    }
  }

  /** The callback's first argument: every error emitted, in order, or
      `file_not_found` for the path when neither an error nor a batch was
      emitted. The second is `null`, the only workbook, or the list. */
  lemma {:induction false} FinishErrors(events: seq<Event>, path: string, store: seq<seq<Cell>>)
    requires AllAddressed(events)
    ensures var cb := Finish(Collect(events), path, store);
            var n := |Collect(events).books|;
            && (n == 0 <==> cb.result.NoWorkbook?)
            && (n == 1 <==> cb.result.OneWorkbook?)
            && ErrorList(cb.errors) == (if n == 0 && FailuresOf(events) == [] then [NotFound(path)] else FailuresOf(events))
  {
    var a := Collect(events);
    CollectFacts(events);
    if a.errors.Pair? {
      assert ErrorList(a.errors) == ErrorList(a.errors.earlier) + [a.errors.err];
    }
  }

  /** With every batch addressed, `parse` calls back, and its arguments are
      what `FinishRows` and `FinishErrors` describe; all row identities in the
      tree name row arrays that exist. */
  lemma {:induction false} ParseTree(path: string, chunks: seq<string>, code: Option<int>, decode: string -> Record)
    requires AllAddressed(Run(chunks, code, decode).events)
    ensures Parse(path, chunks, code, decode).Some?
    ensures var final := Run(chunks, code, decode);
            var cb := Parse(path, chunks, code, decode).value;
            var trees := BooksOf(cb.result);
            && |trees| == |Collect(final.events).books|
            && (|trees| == 1 <==> cb.result.OneWorkbook?)
            && (forall i, j :: 0 <= i < |trees| && 0 <= j < |trees[i].sheets| ==>
                  var ids := BatchRows(final.events, trees[i].workbook.file, trees[i].sheets[j].sheet.index);
                  && (forall k :: 0 <= k < |ids| ==> ids[k] < |final.store|)
                  && trees[i].sheets[j].rows == Resolve(final.store, ids))
            && ErrorList(cb.errors) == (if |trees| == 0 && FailuresOf(final.events) == [] then [NotFound(path)] else FailuresOf(final.events))
  {
    var final := Run(chunks, code, decode);
    RunInv(chunks, code, decode);
    assert forall id :: id in Emitted(final.events) ==> id < |final.store|;
    FinishRows(final.events, path, final.store);
    FinishErrors(final.events, path, final.store);
  }

  /** Events with neither a batch nor an error lead to `file_not_found` and
      no workbook. */
  lemma {:induction false} QuietFinish(events: seq<Event>, path: string, store: seq<seq<Cell>>)
    requires forall k :: 0 <= k < |events| ==> !events[k].Data? && !events[k].Error?
    ensures AllAddressed(events)
    ensures Finish(Collect(events), path, store) == Callback(One(NotFound(path)), NoWorkbook)
  {
    NothingCollected(events);
    var a := Collect(events);
    assert Trees(store, a.books) == [];
  }

  /** A workbook whose sheets hold no cells, read without any error, is
      reported as `file_not_found` with no workbook: `open` events do not
      reach the tree. */
  lemma {:induction false} EmptyWorkbookNotFound(path: string, chunks: seq<string>, decode: string -> Record)
    requires NoCellRecords(FeedAll("", chunks).lines, decode)
    requires NoErrorRecords(FeedAll("", chunks).lines, decode)
    ensures Parse(path, chunks, Some(0), decode) == Some(Callback(One(NotFound(path)), NoWorkbook))
  {
    var final := Run(chunks, Some(0), decode);
    NoCellsNoData(chunks, Some(0), decode);
    RunChunksQuiet(chunks, decode);
    var before := RunChunks(Init(), chunks, decode);
    ExitSignals(before, Some(0));
    assert final.events == before.events + [Close];
    forall k | 0 <= k < |final.events| ensures !final.events[k].Error? {
      if k < |before.events| {
        assert final.events[k] == before.events[k];
      }
    }
    QuietFinish(final.events, path, final.store);
  }

  // ---------------------------------------------------------------------------
  // The listeners as an object
  // ---------------------------------------------------------------------------

  /** The variables `parse` closes over, updated in place by its listeners. */
  class Aggregator {
    var workbooks: seq<BookEntry>
    var errors: Errors

    ghost function Collected(): Agg
      reads this
    {
      Agg(workbooks, errors)
    }

    constructor ()
      ensures Collected() == Agg([], NoErrors)
    {
      workbooks := [];
      errors := NoErrors;
    }

    /** The `data` listener. The precondition leaves out batches that name no
        workbook or no sheet; the reader never causes one. */
    method OnData(data: Batch)
      requires Addressed(data)
      modifies this
      ensures Collected() == old(Collected()).(books := AddBatch(old(workbooks), data))
      ensures Keyed(old(workbooks)) ==> Keyed(workbooks)
    {
      if Keyed(workbooks) {
        AddBatchKeyed(workbooks, data);
      }
      var wb := data.workbook.value;
      var sh := data.sheet.value;
      var i: nat;
      var found := FindBook(workbooks, wb.file);
      if found.None? {
        workbooks := workbooks + [NewBook(wb)];
        i := |workbooks| - 1;
      } else {
        i := found.value;
      }
      assert EnsureBook(old(workbooks), wb) == (workbooks, i);
      var book := workbooks[i];
      ghost var book0 := book;
      var j: nat;
      var at := FindSheet(book.sheets, sh.index);
      if at.None? {
        j := |book.sheets|;
        book := book.(sheets := book.sheets + [SheetEntry(sh, [])]);
        book := book.(byName := book.byName[sh.name := j]);
      } else {
        j := at.value;
      }
      assert EnsureSheet(book0, sh) == (book, j);
      var rows := book.sheets[j].rows;
      ghost var before := rows;
      var k := 0;
      while k < |data.rows|
        invariant 0 <= k <= |data.rows|
        invariant rows == before + data.rows[..k]
      {
        rows := rows + [data.rows[k]];
        k := k + 1;
      }
      assert data.rows[..k] == data.rows;
      book := book.(sheets := book.sheets[j := book.sheets[j].(rows := rows)]);
      workbooks := workbooks[i := book];
    }

    /** The `error` listener. */
    method OnError(err: Failure)
      modifies this
      ensures Collected() == old(Collected()).(errors := AddError(old(errors), err))
    {
      if errors.NoErrors? {
        errors := One(err);
      } else {
        errors := Pair(errors, err);
      }
    }

    /** The `close` listener: it sets `errors` to `file_not_found` when nothing
        was collected, then returns the callback's arguments. */
    method OnClose(path: string, store: seq<seq<Cell>>) returns (cb: Callback)
      modifies this
      ensures cb == Finish(old(Collected()), path, store)
      ensures workbooks == old(workbooks) && errors == cb.errors
    {
      if errors.NoErrors? && |workbooks| == 0 {
        errors := One(NotFound(path));
      }
      var trees := Trees(store, workbooks);
      if |workbooks| == 0 {
        cb := Callback(errors, NoWorkbook);
      } else if |workbooks| == 1 {
        cb := Callback(errors, OneWorkbook(trees[0]));
      } else {
        cb := Callback(errors, Workbooks(trees));
      }
    }
  }
}
