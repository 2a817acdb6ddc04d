/**
 * The state of one streaming parser (the closure variables of `XlrdParser`)
 * and what each of its handlers does to it, as functions. The class
 * `Streaming.Parser` is proved to follow these functions step by step; the
 * lemmas here state what the handlers promise.
 *
 * Row arrays are shared between the parser and every batch it has emitted, so
 * they are modelled by identity: `store[id]` is the current content of the row
 * array `id`, and `rows`, the batches and the aggregated sheets hold ids.
 */
module Session {
  import opened Records
  import opened Values
  import opened Reassembly

  /** The identity of a row array: its position in `store`. */
  type RowId = nat

  /** The payload of a `data` event: the workbook and sheet current at flush
      time and a shallow copy of the pending rows. */
  datatype Batch = Batch(workbook: Option<Workbook>, sheet: Option<Sheet>, rows: seq<RowId>)

  /** The events the parser emits, in emission order. */
  datatype Event =
    | Open(workbook: Workbook)
    | Data(batch: Batch)
    | Error(failure: Failure)
    | Close

  /** The parser's variables. `origin[id]` records the sheet that was current
      when row array `id` was created; the source keeps no such record, it is
      there to state which sheet a row belongs to. */
  datatype State = State(
    workbook: Option<Workbook>,
    sheet: Option<Sheet>,
    row: Option<RowId>,
    rowindex: int,
    rows: seq<RowId>,
    remaining: string,
    store: seq<seq<Cell>>,
    origin: seq<Option<Sheet>>,
    events: seq<Event>)

  /** The state right after construction: no workbook, sheet or row,
      `rowindex` -1, nothing pending, an empty fragment, no events. */
  function Init(): State {
    State(None, None, None, -1, [], "", [], [], [])
  }

  /** The shape every handler relies on: `row` is the most recently created
      row array, and `rowindex` is -1 exactly until the first one exists. */
  predicate Wf(s: State) {
    && |s.origin| == |s.store|
    && s.row == (if s.store == [] then None else Some(|s.store| - 1))
    && (s.store == [] <==> s.rowindex == -1)
  }

  // ---------------------------------------------------------------------------
  // The handlers
  // ---------------------------------------------------------------------------

  /** `flushRows`: emit the pending rows, if any, as one batch and clear them. */
  function Flush(s: State): State {
    if |s.rows| > 0 then
      s.(events := s.events + [Data(Batch(s.workbook, s.sheet, s.rows))], rows := [])
    else
      s
  }

  /** One decoded line, as the record switch handles it. */
  function Dispatch(s: State, rec: Record): (t: State)
    requires Wf(s)
    ensures Wf(t)
  {
    match rec
    case WorkbookRecord(_, _, _, _) =>
      var wb := MakeWorkbook(rec);
      s.(workbook := Some(wb), events := s.events + [Open(wb)])
    case SheetRecord(_, _, _, _, _) =>
      var flushed := if s.sheet.Some? then Flush(s) else s;
      flushed.(sheet := Some(MakeSheet(rec)))
    case CellRecord(r, c, cn, t, v) =>
      var cell := MakeCell(r, c, cn, t, v);
      if r != s.rowindex then
        var id := |s.store|;
        s.(row := Some(id), rowindex := r, rows := s.rows + [id],
           store := s.store + [[cell]], origin := s.origin + [s.sheet])
      else
        var id := s.row.value;
        s.(store := s.store[id := s.store[id] + [cell]])
    case ErrorRecord(_, _, _) =>
      s.(events := s.events + [Error(SourceFailureOf(rec))])
    case OtherRecord(_) =>
      s
  }

  /** The `forEach` over the complete lines of a chunk; `decode` stands for
      `JSON.parse`. */
  function DispatchLines(s: State, lines: seq<string>, decode: string -> Record): (t: State)
    requires Wf(s)
    ensures Wf(t)
  {
    if lines == [] then s
    else Dispatch(DispatchLines(s, lines[..|lines| - 1], decode), decode(lines[|lines| - 1]))
  }

  /** The stdout `data` handler: reassemble, dispatch every complete line,
      flush. */
  function OnChunk(s: State, chunk: string, decode: string -> Record): (t: State)
    requires Wf(s)
    ensures Wf(t)
    ensures t.rows == []
  {
    var step := Reassemble(s.remaining, chunk);
    Flush(DispatchLines(s.(remaining := step.remaining), step.lines, decode))
  }

  /** The process `exit` handler: an error event unless the code is 0, then
      `close`. */
  function OnExit(s: State, code: Option<int>): State {
    var failed := if code != Some(0) then [Error(ExitFailure(ExitMessage(code)))] else [];
    s.(events := s.events + failed + [Close])
  }

  function RunChunks(s: State, chunks: seq<string>, decode: string -> Record): (t: State)
    requires Wf(s)
    ensures Wf(t)
    ensures chunks != [] ==> t.rows == []
  {
    if chunks == [] then s
    else OnChunk(RunChunks(s, chunks[..|chunks| - 1], decode), chunks[|chunks| - 1], decode)
  }

  /** A whole session: the chunks the reader prints, then its exit. */
  function Run(chunks: seq<string>, code: Option<int>, decode: string -> Record): State {
    OnExit(RunChunks(Init(), chunks, decode), code)
  }

  // ---------------------------------------------------------------------------
  // Row accounting: every row array is emitted exactly once, in creation order
  // ---------------------------------------------------------------------------

  /** The row ids of all `data` events, concatenated in emission order. */
  function Emitted(events: seq<Event>): seq<RowId> {
    if events == [] then []
    else
      var e := events[|events| - 1];
      Emitted(events[..|events| - 1]) + (if e.Data? then e.batch.rows else [])
  }

  function Range(n: nat): (r: seq<RowId>)
    ensures |r| == n && forall i :: 0 <= i < n ==> r[i] == i
  {
    if n == 0 then [] else Range(n - 1) + [n - 1]
  }

  /** Whether row array `id` may sit in a batch or in the pending rows under
      `sheet`: it was created while `sheet` was current, or before any sheet
      record. */
  predicate FromSheet(origin: seq<Option<Sheet>>, id: RowId, sheet: Option<Sheet>) {
    id < |origin| && (origin[id] == sheet || origin[id] == None)
  }

  predicate BatchScoped(origin: seq<Option<Sheet>>, b: Batch) {
    forall k :: 0 <= k < |b.rows| ==> FromSheet(origin, b.rows[k], b.sheet)
  }

  predicate Scoped(events: seq<Event>, rows: seq<RowId>, sheet: Option<Sheet>, origin: seq<Option<Sheet>>) {
    && (forall i :: 0 <= i < |events| && events[i].Data? ==> BatchScoped(origin, events[i].batch))
    && (forall k :: 0 <= k < |rows| ==> FromSheet(origin, rows[k], sheet))
  }

  predicate BatchesNonEmpty(events: seq<Event>) {
    forall i :: 0 <= i < |events| && events[i].Data? ==> events[i].batch.rows != []
  }

  /** The invariant of the parser: well-formed; the emitted batches followed
      by the pending rows list every row array once, in creation order; no
      batch and no pending row belongs to a sheet other than its own; no batch
      is empty. */
  predicate Inv(s: State) {
    && Wf(s)
    && Emitted(s.events) + s.rows == Range(|s.store|)
    && Scoped(s.events, s.rows, s.sheet, s.origin)
    && BatchesNonEmpty(s.events)
  }

  lemma {:induction false} EmittedSnoc(events: seq<Event>, e: Event)
    ensures Emitted(events + [e]) == Emitted(events) + (if e.Data? then e.batch.rows else [])
  {
    assert (events + [e])[..|events|] == events;
  }

  /** A flush moves the pending rows, all of them and nothing else, into one
      new batch carrying the current workbook and sheet, and emits nothing
      when there is nothing pending. */
  lemma {:induction false} FlushMovesRows(s: State)
    ensures Flush(s).rows == []
    ensures Emitted(Flush(s).events) == Emitted(s.events) + s.rows
    ensures |Flush(s).events| == |s.events| + (if s.rows == [] then 0 else 1)
    ensures s.rows != [] ==> Flush(s).events[|s.events|] == Data(Batch(s.workbook, s.sheet, s.rows))
    ensures Flush(s).events[..|s.events|] == s.events
    ensures Flush(s).(events := s.events, rows := s.rows) == s
  {
    if s.rows != [] {
      EmittedSnoc(s.events, Data(Batch(s.workbook, s.sheet, s.rows)));
    } else {
      assert s.events[..|s.events|] == s.events;
    }
  }

  lemma {:induction false} InitInv()
    ensures Inv(Init())
  {
  }

  lemma {:induction false} FlushInv(s: State)
    requires Inv(s)
    ensures Inv(Flush(s))
  {
    FlushMovesRows(s);
    var t := Flush(s);
    if s.rows != [] {
      assert forall i :: 0 <= i < |s.events| ==> t.events[i] == s.events[i];
      assert t.events[|s.events|].batch == Batch(s.workbook, s.sheet, s.rows);
    }
  }

  lemma {:induction false} AppendEventInv(s: State, e: Event)
    requires Inv(s) && !e.Data?
    ensures Inv(s.(events := s.events + [e]))
  {
    EmittedSnoc(s.events, e);
    ScopedSnoc(s.events, e, s.rows, s.sheet, s.origin);
  }

  lemma {:induction false} ScopedSnoc(events: seq<Event>, e: Event, rows: seq<RowId>, sheet: Option<Sheet>, origin: seq<Option<Sheet>>)
    requires Scoped(events, rows, sheet, origin) && BatchesNonEmpty(events) && !e.Data?
    ensures Scoped(events + [e], rows, sheet, origin) && BatchesNonEmpty(events + [e])
  {
    var evs := events + [e];
    assert forall i :: 0 <= i < |events| ==> evs[i] == events[i];
  }

  lemma {:induction false} NewRowInv(s: State, cell: Cell, r: nat)
    requires Inv(s)
    ensures var id := |s.store|;
            Inv(s.(row := Some(id), rowindex := r, rows := s.rows + [id],
                   store := s.store + [[cell]], origin := s.origin + [s.sheet]))
  {
    var id := |s.store|;
    var t := s.(row := Some(id), rowindex := r, rows := s.rows + [id],
                store := s.store + [[cell]], origin := s.origin + [s.sheet]);
    assert Emitted(t.events) + t.rows == (Emitted(s.events) + s.rows) + [id];
    assert Range(id + 1) == Range(id) + [id];
    assert forall k :: 0 <= k < id ==> t.origin[k] == s.origin[k];
    assert forall k :: 0 <= k < |s.rows| ==> t.rows[k] == s.rows[k];
  }

  lemma {:induction false} SheetInv(s: State, rec: Record)
    requires Inv(s) && rec.SheetRecord?
    ensures Inv(Dispatch(s, rec))
  {
    if s.sheet.Some? {
      FlushInv(s);
    } else {
      assert forall k :: 0 <= k < |s.rows| ==> s.origin[s.rows[k]] == None;
    }
  }

  lemma {:induction false} DispatchInv(s: State, rec: Record)
    requires Inv(s)
    ensures Inv(Dispatch(s, rec))
  {
    match rec
    case WorkbookRecord(_, _, _, _) =>
      AppendEventInv(s.(workbook := Some(MakeWorkbook(rec))), Open(MakeWorkbook(rec)));
    case SheetRecord(_, _, _, _, _) =>
      SheetInv(s, rec);
    case CellRecord(r, c, cn, t, v) =>
      if r != s.rowindex {
        NewRowInv(s, MakeCell(r, c, cn, t, v), r);
      }
    case ErrorRecord(_, _, _) =>
      AppendEventInv(s, Error(SourceFailureOf(rec)));
    case OtherRecord(_) =>
  }

  lemma {:induction false} DispatchLinesInv(s: State, lines: seq<string>, decode: string -> Record)
    requires Inv(s)
    ensures Inv(DispatchLines(s, lines, decode))
    decreases |lines|
  {
    if lines != [] {
      DispatchLinesInv(s, lines[..|lines| - 1], decode);
      DispatchInv(DispatchLines(s, lines[..|lines| - 1], decode), decode(lines[|lines| - 1]));
    }
  }

  lemma {:induction false} OnChunkInv(s: State, chunk: string, decode: string -> Record)
    requires Inv(s)
    ensures Inv(OnChunk(s, chunk, decode))
  {
    var step := Reassemble(s.remaining, chunk);
    DispatchLinesInv(s.(remaining := step.remaining), step.lines, decode);
    FlushInv(DispatchLines(s.(remaining := step.remaining), step.lines, decode));
  }

  lemma {:induction false} RunChunksInv(s: State, chunks: seq<string>, decode: string -> Record)
    requires Inv(s)
    ensures Inv(RunChunks(s, chunks, decode))
    decreases |chunks|
  {
    if chunks != [] {
      RunChunksInv(s, chunks[..|chunks| - 1], decode);
      OnChunkInv(RunChunks(s, chunks[..|chunks| - 1], decode), chunks[|chunks| - 1], decode);
    }
  }

  lemma {:induction false} OnExitInv(s: State, code: Option<int>)
    requires Inv(s)
    ensures Inv(OnExit(s, code))
  {
    if code != Some(0) {
      var e := Error(ExitFailure(ExitMessage(code)));
      AppendEventInv(s, e);
      AppendEventInv(s.(events := s.events + [e]), Close);
      assert s.events + [e] + [Close] == (s.events + [e]) + [Close];
    } else {
      AppendEventInv(s, Close);
      assert s.events + [] + [Close] == s.events + [Close];
    }
  }

  /** Over a whole session, every row array ends up in exactly one batch, the
      batches list them in creation order, none belongs to a sheet other than
      the batch's own, and none is empty. */
  lemma {:induction false} RunInv(chunks: seq<string>, code: Option<int>, decode: string -> Record)
    ensures Inv(Run(chunks, code, decode))
    ensures Emitted(Run(chunks, code, decode).events) == Range(|Run(chunks, code, decode).store|)
  {
    InitInv();
    RunChunksInv(Init(), chunks, decode);
    OnExitInv(RunChunks(Init(), chunks, decode), code);
    assert Run(chunks, code, decode).rows == [];
    assert Emitted(Run(chunks, code, decode).events) + [] == Emitted(Run(chunks, code, decode).events);
  }

  // ---------------------------------------------------------------------------
  // What each record does
  // ---------------------------------------------------------------------------

  /** A workbook record emits exactly one `open` event with the new workbook
      and touches no sheet or row state. */
  lemma {:induction false} WorkbookOpens(s: State, rec: Record)
    requires Wf(s) && rec.WorkbookRecord?
    ensures var wb := Workbook(rec.file, Meta(rec.user, SheetSummary(rec.count, rec.names)));
            Dispatch(s, rec) == s.(workbook := Some(wb), events := s.events + [Open(wb)])
  {
  }

  /** A sheet record flushes the pending rows first, but only when a sheet was
      already set; it replaces the sheet and leaves `rowindex`, `row` and the
      row arrays as they were. */
  lemma {:induction false} SheetSwitches(s: State, rec: Record)
    requires Inv(s) && rec.SheetRecord?
    ensures var t := Dispatch(s, rec);
            && t.sheet == Some(Sheet(rec.index, rec.name, Bounds(rec.rows, rec.cols), VisibilityOf(rec.visibility)))
            && t.rowindex == s.rowindex && t.row == s.row && t.store == s.store && t.workbook == s.workbook
            && (s.sheet.Some? ==> t.rows == [] && t.events == Flush(s).events)
            && (s.sheet.None? ==> t.rows == s.rows && t.events == s.events)
            && (s.sheet.Some? && s.rows != [] ==> t.events == s.events + [Data(Batch(s.workbook, s.sheet, s.rows))])
  {
  }

  /** An error record emits one error event built from the record and leaves
      every other variable untouched; a record of any other kind changes
      nothing. */
  lemma {:induction false} ErrorReported(s: State, rec: Record)
    requires Wf(s) && (rec.ErrorRecord? || rec.OtherRecord?)
    ensures rec.OtherRecord? ==> Dispatch(s, rec) == s
    ensures rec.ErrorRecord? ==>
              var t := Dispatch(s, rec);
              && t.(events := s.events) == s
              && |t.events| == |s.events| + 1 && t.events[..|s.events|] == s.events
              && t.events[|s.events|].Error?
              && t.events[|s.events|].failure.constructed == rec.errorType + ": " + rec.message
              && t.events[|s.events|].failure.message == rec.message
  {
    if rec.ErrorRecord? {
      assert (s.events + [Error(SourceFailureOf(rec))])[..|s.events|] == s.events;
    }
  }

  /** A cell starts a new row array, appended to the pending rows, exactly when
      its row index differs from `rowindex`; otherwise it is appended to the
      current row array, even if that was already emitted. Events, workbook
      and sheet are untouched. */
  lemma {:induction false} CellGrouping(s: State, rec: Record)
    requires Inv(s) && rec.CellRecord?
    ensures var t := Dispatch(s, rec);
            var cell := MakeCell(rec.r, rec.c, rec.cn, rec.t, rec.v);
            var n := |s.store|;
            && t.events == s.events && t.workbook == s.workbook && t.sheet == s.sheet
            && t.rowindex == rec.r
            && (rec.r != s.rowindex ==> t.rows == s.rows + [n] && t.store == s.store + [[cell]])
            && (rec.r == s.rowindex ==>
                  && n > 0 && t.rows == s.rows && |t.store| == n
                  && t.store[..n - 1] == s.store[..n - 1]
                  && t.store[n - 1] == s.store[n - 1] + [cell])
  {
  }

  /** A row that continues past a flush (the next chunk, or a sheet record)
      gets its later cells appended to a row array that an earlier batch
      already holds. */
  lemma {:induction false} ContinuedRowIsShared(s: State, rec: Record)
    requires Inv(s) && s.rows == [] && rec.CellRecord? && rec.r == s.rowindex
    ensures var t := Dispatch(s, rec);
            var n := |s.store|;
            && n > 0 && (n - 1) in Emitted(s.events)
            && t.rows == [] && t.events == s.events
            && t.store[n - 1] == s.store[n - 1] + [MakeCell(rec.r, rec.c, rec.cn, rec.t, rec.v)]
  {
    var n := |s.store|;
    assert Emitted(s.events) + [] == Emitted(s.events);
    assert Range(n)[n - 1] == n - 1;
  }

  /** A new sheet whose first row index equals the last one seen does not
      start a row of its own: its first cell goes into the previous sheet's
      last row array, which was created under that sheet and already emitted. */
  lemma {:induction false} SheetSwitchSameRowIndex(s: State, sheetRec: Record, cellRec: Record)
    requires Inv(s) && s.sheet.Some? && sheetRec.SheetRecord?
    requires cellRec.CellRecord? && cellRec.r == s.rowindex
    ensures var t := Dispatch(Dispatch(s, sheetRec), cellRec);
            var n := |s.store|;
            && n > 0 && t.sheet == Some(MakeSheet(sheetRec))
            && t.rows == [] && |t.store| == n
            && t.store[n - 1] == s.store[n - 1] + [MakeCell(cellRec.r, cellRec.c, cellRec.cn, cellRec.t, cellRec.v)]
            && t.origin[n - 1] == s.origin[n - 1]
            && (n - 1) in Emitted(t.events)
  {
    var u := Dispatch(s, sheetRec);
    SheetInv(s, sheetRec);
    SheetSwitches(s, sheetRec);
    assert u.origin == s.origin;
    ContinuedRowIsShared(u, cellRec);
    CellGrouping(u, cellRec);
    var t := Dispatch(u, cellRec);
    assert t.origin == u.origin;
  }

  /** Rows still pending when the next file's workbook record and first sheet
      record arrive are flushed by the sheet record, after the workbook record
      has replaced `workbook`: their batch names the new workbook. */
  lemma {:induction false} PendingRowsTakeNextWorkbook(s: State, bookRec: Record, sheetRec: Record)
    requires Wf(s) && s.sheet.Some? && s.rows != []
    requires bookRec.WorkbookRecord? && sheetRec.SheetRecord?
    ensures var t := Dispatch(Dispatch(s, bookRec), sheetRec);
            var wb := MakeWorkbook(bookRec);
            && t.events == s.events + [Open(wb), Data(Batch(Some(wb), s.sheet, s.rows))]
            && t.rows == [] && t.workbook == Some(wb) && t.sheet == Some(MakeSheet(sheetRec))
  {
    var wb := MakeWorkbook(bookRec);
    var u := Dispatch(s, bookRec);
    assert u == s.(workbook := Some(wb), events := s.events + [Open(wb)]);
    assert u.events + [Data(Batch(Some(wb), s.sheet, s.rows))]
        == s.events + [Open(wb), Data(Batch(Some(wb), s.sheet, s.rows))];
  }

  /** The `exit` handler only appends events: an error event exactly when the
      code is not 0, then `close`. It flushes nothing and never processes the
      leftover fragment. */
  lemma {:induction false} ExitSignals(s: State, code: Option<int>)
    ensures var t := OnExit(s, code);
            && t.(events := s.events) == s
            && t.events[..|s.events|] == s.events
            && t.events[|t.events| - 1] == Close
            && (code == Some(0) ==> t.events == s.events + [Close])
            && (code != Some(0) ==> t.events == s.events + [Error(ExitFailure(ExitMessage(code))), Close])
  {
    var t := OnExit(s, code);
    if code == Some(0) {
      assert t.events == s.events + [Close];
    } else {
      assert t.events == s.events + [Error(ExitFailure(ExitMessage(code))), Close];
    }
  }

  /** A chunk without a newline dispatches nothing and emits nothing; the
      fragment becomes that chunk, whatever it was before. */
  lemma {:induction false} NewlineFreeChunk(s: State, chunk: string, decode: string -> Record)
    requires Wf(s) && s.rows == [] && NL !in chunk
    ensures OnChunk(s, chunk, decode) == s.(remaining := chunk)
  {
    NoNewline(s.remaining, chunk);
  }

  // ---------------------------------------------------------------------------
  // rowindex is changed by cell records only
  // ---------------------------------------------------------------------------

  /** The row index of the last cell record among `lines`, or `dflt` when
      there is none. */
  function LastCellRow(lines: seq<string>, decode: string -> Record, dflt: int): int {
    if lines == [] then dflt
    else
      var rec := decode(lines[|lines| - 1]);
      if rec.CellRecord? then rec.r else LastCellRow(lines[..|lines| - 1], decode, dflt)
  }

  /** `rowindex` after a chunk is the row of the chunk's last cell record, or
      what it was before: flushes, sheet records and all other records leave
      it alone, so it is never reset. */
  lemma {:induction false} RowIndexFollowsCells(s: State, lines: seq<string>, decode: string -> Record)
    requires Wf(s)
    ensures DispatchLines(s, lines, decode).rowindex == LastCellRow(lines, decode, s.rowindex)
    ensures Flush(s).rowindex == s.rowindex
    decreases |lines|
  {
    if lines != [] {
      RowIndexFollowsCells(s, lines[..|lines| - 1], decode);
    }
  }

  lemma {:induction false} ChunkRowIndex(s: State, chunk: string, decode: string -> Record)
    requires Wf(s)
    ensures OnChunk(s, chunk, decode).rowindex
            == LastCellRow(Reassemble(s.remaining, chunk).lines, decode, s.rowindex)
  {
    var step := Reassemble(s.remaining, chunk);
    var u := s.(remaining := step.remaining);
    RowIndexFollowsCells(u, step.lines, decode);
    RowIndexFollowsCells(DispatchLines(u, step.lines, decode), [], decode);
  }

  // ---------------------------------------------------------------------------
  // Row grouping: the row arrays are the runs of equal row index
  // ---------------------------------------------------------------------------

  function CellOfRecord(rec: Record): seq<Cell> {
    if rec.CellRecord? then [MakeCell(rec.r, rec.c, rec.cn, rec.t, rec.v)] else []
  }

  /** The cells the cell records among `lines` make, in order. */
  function CellsOf(lines: seq<string>, decode: string -> Record): seq<Cell> {
    if lines == [] then []
    else CellsOf(lines[..|lines| - 1], decode) + CellOfRecord(decode(lines[|lines| - 1]))
  }

  /** The cells split into maximal runs of consecutive cells with the same
      row index. */
  function Runs(cells: seq<Cell>): seq<seq<Cell>> {
    if cells == [] then []
    else
      var prev := Runs(cells[..|cells| - 1]);
      var c := cells[|cells| - 1];
      if prev != [] && prev[|prev| - 1] != [] && prev[|prev| - 1][|prev[|prev| - 1]| - 1].row == c.row then
        prev[..|prev| - 1] + [prev[|prev| - 1] + [c]]
      else
        prev + [[c]]
  }

  function Flatten(rs: seq<seq<Cell>>): seq<Cell> {
    if rs == [] then [] else Flatten(rs[..|rs| - 1]) + rs[|rs| - 1]
  }

  lemma {:induction false} RunsLast(cells: seq<Cell>)
    ensures cells == [] <==> Runs(cells) == []
    ensures cells != [] ==>
              var rs := Runs(cells);
              rs[|rs| - 1] != [] && rs[|rs| - 1][|rs[|rs| - 1]| - 1] == cells[|cells| - 1]
  {
  }

  /** Flattening the runs gives back the cells: nothing lost, duplicated or
      reordered. */
  lemma {:induction false} RunsFlatten(cells: seq<Cell>)
    ensures Flatten(Runs(cells)) == cells
    decreases |cells|
  {
    if cells != [] {
      var init := cells[..|cells| - 1];
      RunsFlatten(init);
      var prev: seq<seq<Cell>> := Runs(init);
      var c: Cell := cells[|cells| - 1];
      if prev != [] && prev[|prev| - 1] != [] && prev[|prev| - 1][|prev[|prev| - 1]| - 1].row == c.row {
        var rs := prev[..|prev| - 1] + [prev[|prev| - 1] + [c]];
        assert rs[..|rs| - 1] == prev[..|prev| - 1];
        assert Flatten(prev) == Flatten(prev[..|prev| - 1]) + prev[|prev| - 1];
      } else {
        var rs := prev + [[c]];
        assert rs[..|rs| - 1] == prev;
      }
      assert cells == init + [c];
    }
  }

  /** Every run is non-empty and holds one row index, and neighbouring runs
      hold different ones. */
  predicate Maximal(rs: seq<seq<Cell>>) {
    && (forall i :: 0 <= i < |rs| ==> rs[i] != [])
    && (forall i, j :: 0 <= i < |rs| && 0 <= j < |rs[i]| ==> rs[i][j].row == rs[i][0].row)
    && (forall i :: 0 < i < |rs| ==> rs[i][0].row != rs[i - 1][0].row)
  }

  lemma {:induction false} MaximalNewRun(prev: seq<seq<Cell>>, c: Cell)
    requires Maximal(prev)
    requires prev != [] ==> prev[|prev| - 1][0].row != c.row
    ensures Maximal(prev + [[c]])
  {
    var rs := prev + [[c]];
    assert forall i :: 0 <= i < |prev| ==> rs[i] == prev[i];
  }

  lemma {:induction false} MaximalExtendRun(prev: seq<seq<Cell>>, c: Cell)
    requires Maximal(prev) && prev != [] && prev[|prev| - 1][0].row == c.row
    ensures Maximal(prev[..|prev| - 1] + [prev[|prev| - 1] + [c]])
  {
    var last := prev[|prev| - 1];
    var rs := prev[..|prev| - 1] + [last + [c]];
    assert forall i :: 0 <= i < |prev| - 1 ==> rs[i] == prev[i];
    assert rs[|rs| - 1] == last + [c];
    assert forall j :: 0 <= j < |last + [c]| ==> (last + [c])[j].row == last[0].row;
  }

  lemma {:induction false} RunsMaximal(cells: seq<Cell>)
    ensures Maximal(Runs(cells))
    decreases |cells|
  {
    if cells != [] {
      var init := cells[..|cells| - 1];
      RunsMaximal(init);
      var prev: seq<seq<Cell>> := Runs(init);
      var c: Cell := cells[|cells| - 1];
      if prev != [] && prev[|prev| - 1] != [] && prev[|prev| - 1][|prev[|prev| - 1]| - 1].row == c.row {
        MaximalExtendRun(prev, c);
      } else {
        MaximalNewRun(prev, c);
      }
    }
  }

  /** The row arrays of `s` are the runs of `cells`, and `rowindex` is the row
      of its last cell. */
  predicate Grouped(s: State, cells: seq<Cell>) {
    && s.store == Runs(cells)
    && s.rowindex == (if cells == [] then -1 else cells[|cells| - 1].row)
  }

  /** One more cell extends the last run when it has that run's row index,
      and starts a run of its own otherwise. */
  lemma {:induction false} RunsSnoc(cells: seq<Cell>, c: Cell)
    ensures var rs := Runs(cells);
            if cells != [] && cells[|cells| - 1].row == c.row
            then rs != [] && Runs(cells + [c]) == rs[..|rs| - 1] + [rs[|rs| - 1] + [c]]
            else Runs(cells + [c]) == rs + [[c]]
  {
    var all := cells + [c];
    assert all[..|all| - 1] == cells && all[|all| - 1] == c;
    RunsLast(cells);
  }

  /** What a record does to the row arrays and `rowindex`. */
  lemma {:induction false} DispatchRows(s: State, rec: Record)
    requires Wf(s)
    ensures var t := Dispatch(s, rec);
            var n := |s.store|;
            && t.rowindex == (if rec.CellRecord? then rec.r else s.rowindex)
            && (!rec.CellRecord? ==> t.store == s.store)
            && (rec.CellRecord? && rec.r != s.rowindex ==>
                  t.store == s.store + [[MakeCell(rec.r, rec.c, rec.cn, rec.t, rec.v)]])
            && (rec.CellRecord? && rec.r == s.rowindex ==>
                  n > 0 && t.store == s.store[n - 1 := s.store[n - 1] + [MakeCell(rec.r, rec.c, rec.cn, rec.t, rec.v)]])
  {
    if rec.SheetRecord? && s.sheet.Some? {
      assert Flush(s).store == s.store && Flush(s).rowindex == s.rowindex;
    }
  }

  lemma {:induction false} DispatchGrouped(s: State, cells: seq<Cell>, rec: Record)
    requires Wf(s) && Grouped(s, cells)
    ensures Grouped(Dispatch(s, rec), cells + CellOfRecord(rec))
  {
    DispatchRows(s, rec);
    if rec.CellRecord? {
      var c := MakeCell(rec.r, rec.c, rec.cn, rec.t, rec.v);
      assert c.row == rec.r;
      assert CellOfRecord(rec) == [c];
      RunsSnoc(cells, c);
      var all := cells + [c];
      assert all[|all| - 1] == c;
    } else {
      assert CellOfRecord(rec) == [];
      assert cells + [] == cells;
    }
  }

  lemma {:induction false} AppendAssoc(a: seq<Cell>, b: seq<Cell>, c: seq<Cell>)
    ensures a + b + c == a + (b + c)
  {
  }

  lemma {:induction false} DispatchLinesGrouped(s: State, cells: seq<Cell>, lines: seq<string>, decode: string -> Record)
    requires Wf(s) && Grouped(s, cells)
    ensures Grouped(DispatchLines(s, lines, decode), cells + CellsOf(lines, decode))
    decreases |lines|
  {
    if lines == [] {
      assert cells + [] == cells;
    } else {
      var init := lines[..|lines| - 1];
      DispatchLinesGrouped(s, cells, init, decode);
      var prev := DispatchLines(s, init, decode);
      var rec := decode(lines[|lines| - 1]);
      assert DispatchLines(s, lines, decode) == Dispatch(prev, rec);
      DispatchGrouped(prev, cells + CellsOf(init, decode), rec);
      assert CellsOf(lines, decode) == CellsOf(init, decode) + CellOfRecord(rec);
      AppendAssoc(cells, CellsOf(init, decode), CellOfRecord(rec));
    }
  }

  lemma {:induction false} CellsOfAppend(a: seq<string>, b: seq<string>, decode: string -> Record)
    ensures CellsOf(a + b, decode) == CellsOf(a, decode) + CellsOf(b, decode)
    decreases |b|
  {
    if b == [] {
      assert a + b == a;
    } else {
      var b' := b[..|b| - 1];
      CellsOfAppend(a, b', decode);
      var ab := a + b;
      assert ab[..|ab| - 1] == a + b' && ab[|ab| - 1] == b[|b| - 1];
      var last := CellOfRecord(decode(b[|b| - 1]));
      assert CellsOf(ab, decode) == CellsOf(a + b', decode) + last;
      assert CellsOf(b, decode) == CellsOf(b', decode) + last;
      AppendAssoc(CellsOf(a, decode), CellsOf(b', decode), last);
    }
  }

  lemma {:induction false} OnChunkGrouped(s: State, cells: seq<Cell>, chunk: string, decode: string -> Record)
    requires Wf(s) && Grouped(s, cells)
    ensures Grouped(OnChunk(s, chunk, decode), cells + CellsOf(Reassemble(s.remaining, chunk).lines, decode))
  {
    var step := Reassemble(s.remaining, chunk);
    var u := s.(remaining := step.remaining);
    DispatchLinesGrouped(u, cells, step.lines, decode);
    var d := DispatchLines(u, step.lines, decode);
    assert OnChunk(s, chunk, decode) == Flush(d);
    assert Flush(d).store == d.store && Flush(d).rowindex == d.rowindex;
  }

  lemma {:induction false} FeedStepGrouped(prev: State, cells: seq<Cell>, fed: Step, chunk: string, decode: string -> Record)
    requires Wf(prev) && prev.remaining == fed.remaining
    requires Grouped(prev, cells + CellsOf(fed.lines, decode))
    ensures Grouped(OnChunk(prev, chunk, decode), cells + CellsOf(fed.lines + Reassemble(fed.remaining, chunk).lines, decode))
  {
    var step := Reassemble(fed.remaining, chunk);
    OnChunkGrouped(prev, cells + CellsOf(fed.lines, decode), chunk, decode);
    CellsOfAppend(fed.lines, step.lines, decode);
    AppendAssoc(cells, CellsOf(fed.lines, decode), CellsOf(step.lines, decode));
  }

  lemma {:induction false} RunChunksGrouped(s: State, cells: seq<Cell>, chunks: seq<string>, decode: string -> Record)
    requires Wf(s) && Grouped(s, cells)
    ensures Grouped(RunChunks(s, chunks, decode), cells + CellsOf(FeedAll(s.remaining, chunks).lines, decode))
    decreases |chunks|
  {
    if chunks == [] {
      assert cells + [] == cells;
    } else {
      var init := chunks[..|chunks| - 1];
      var last := chunks[|chunks| - 1];
      RunChunksGrouped(s, cells, init, decode);
      RunChunksRemaining(s, init, decode);
      var fed := FeedAll(s.remaining, init);
      FeedStepGrouped(RunChunks(s, init, decode), cells, fed, last, decode);
      assert FeedAll(s.remaining, chunks).lines == fed.lines + Reassemble(fed.remaining, last).lines;
      assert RunChunks(s, chunks, decode) == OnChunk(RunChunks(s, init, decode), last, decode);
    }
  }

  /** Row grouping over a whole session: the row arrays are exactly the
      maximal runs of equal row index of all cells dispatched, in order,
      regardless of where chunks, flushes and sheet records fall; flattened,
      they are those cells. */
  lemma {:induction false} StoreIsRuns(chunks: seq<string>, code: Option<int>, decode: string -> Record)
    ensures var cells := CellsOf(FeedAll("", chunks).lines, decode);
            var store := Run(chunks, code, decode).store;
            && store == Runs(cells)
            && Maximal(store)
            && Flatten(store) == cells
  {
    var cells := CellsOf(FeedAll("", chunks).lines, decode);
    RunChunksGrouped(Init(), [], chunks, decode);
    assert [] + cells == cells;
    RunsMaximal(cells);
    RunsFlatten(cells);
  }

  // ---------------------------------------------------------------------------
  // close comes once, last
  // ---------------------------------------------------------------------------

  /** What the data handler can emit: never `close`, never an exit error. */
  predicate NoClose(events: seq<Event>) {
    forall i :: 0 <= i < |events| ==> !events[i].Close? && !(events[i].Error? && events[i].failure.ExitFailure?)
  }

  lemma {:induction false} RunChunksNoClose(s: State, chunks: seq<string>, decode: string -> Record)
    requires Wf(s) && NoClose(s.events)
    ensures NoClose(RunChunks(s, chunks, decode).events)
    decreases |chunks|
  {
    if chunks != [] {
      RunChunksNoClose(s, chunks[..|chunks| - 1], decode);
      var prev := RunChunks(s, chunks[..|chunks| - 1], decode);
      var step := Reassemble(prev.remaining, chunks[|chunks| - 1]);
      DispatchLinesNoClose(prev.(remaining := step.remaining), step.lines, decode);
    }
  }

  lemma {:induction false} DispatchLinesNoClose(s: State, lines: seq<string>, decode: string -> Record)
    requires Wf(s) && NoClose(s.events)
    ensures NoClose(DispatchLines(s, lines, decode).events)
    ensures NoClose(Flush(DispatchLines(s, lines, decode)).events)
    decreases |lines|
  {
    if lines != [] {
      DispatchLinesNoClose(s, lines[..|lines| - 1], decode);
    }
  }

  /** A session's events end with its only `close`; right before it comes an
      exit error exactly when the exit code is not 0, and the exit handler is
      the only source of such errors. */
  lemma {:induction false} CloseIsLast(chunks: seq<string>, code: Option<int>, decode: string -> Record)
    ensures var events := Run(chunks, code, decode).events;
            && |events| > 0 && events[|events| - 1] == Close
            && (forall i :: 0 <= i < |events| - 1 ==> !events[i].Close?)
            && (code != Some(0) <==> |events| > 1 && events[|events| - 2] == Error(ExitFailure(ExitMessage(code))))
  {
    var before := RunChunks(Init(), chunks, decode);
    RunChunksNoClose(Init(), chunks, decode);
    ExitSignals(before, code);
    var events := Run(chunks, code, decode).events;
    if code == Some(0) {
      assert events[..|events| - 1] == before.events;
      if |events| > 1 {
        assert events[|events| - 2] == before.events[|before.events| - 1];
      }
    } else {
      assert events[..|events| - 1] == before.events + [Error(ExitFailure(ExitMessage(code)))];
    }
  }

  // ---------------------------------------------------------------------------
  // Input without cells or errors
  // ---------------------------------------------------------------------------

  predicate ErrorFree(events: seq<Event>) {
    forall i :: 0 <= i < |events| ==> !events[i].Error?
  }

  predicate NoErrorRecords(lines: seq<string>, decode: string -> Record) {
    forall i :: 0 <= i < |lines| ==> !decode(lines[i]).ErrorRecord?
  }

  predicate NoCellRecords(lines: seq<string>, decode: string -> Record) {
    forall i :: 0 <= i < |lines| ==> !decode(lines[i]).CellRecord?
  }

  lemma {:induction false} DispatchLinesQuiet(s: State, lines: seq<string>, decode: string -> Record)
    requires Wf(s) && ErrorFree(s.events) && NoErrorRecords(lines, decode)
    ensures ErrorFree(DispatchLines(s, lines, decode).events)
    ensures ErrorFree(Flush(DispatchLines(s, lines, decode)).events)
    decreases |lines|
  {
    if lines != [] {
      var init := lines[..|lines| - 1];
      assert NoErrorRecords(init, decode) by {
        forall i | 0 <= i < |init| ensures !decode(init[i]).ErrorRecord? {
          assert init[i] == lines[i];
        }
      }
      DispatchLinesQuiet(s, init, decode);
    }
  }

  lemma {:induction false} NoErrorRecordsSplit(a: seq<string>, b: seq<string>, decode: string -> Record)
    requires NoErrorRecords(a + b, decode)
    ensures NoErrorRecords(a, decode) && NoErrorRecords(b, decode)
  {
    forall i | 0 <= i < |a| ensures !decode(a[i]).ErrorRecord? {
      assert a[i] == (a + b)[i];
    }
    forall i | 0 <= i < |b| ensures !decode(b[i]).ErrorRecord? {
      assert b[i] == (a + b)[|a| + i];
    }
  }

  /** The fragment the parser keeps is the one the reassembly of all chunks
      leaves. */
  lemma {:induction false} RunChunksRemaining(s: State, chunks: seq<string>, decode: string -> Record)
    requires Wf(s)
    ensures RunChunks(s, chunks, decode).remaining == FeedAll(s.remaining, chunks).remaining
    decreases |chunks|
  {
    if chunks != [] {
      var init := chunks[..|chunks| - 1];
      var last := chunks[|chunks| - 1];
      RunChunksRemaining(s, init, decode);
      var prev := RunChunks(s, init, decode);
      OnChunkRemaining(prev, last, decode);
      assert RunChunks(s, chunks, decode) == OnChunk(prev, last, decode);
      assert FeedAll(s.remaining, chunks).remaining == Reassemble(FeedAll(s.remaining, init).remaining, last).remaining;
    }
  }

  lemma {:induction false} OnChunkRemaining(s: State, chunk: string, decode: string -> Record)
    requires Wf(s)
    ensures OnChunk(s, chunk, decode).remaining == Reassemble(s.remaining, chunk).remaining
  {
    var step := Reassemble(s.remaining, chunk);
    DispatchLinesRemaining(s.(remaining := step.remaining), step.lines, decode);
  }

  lemma {:induction false} DispatchLinesRemaining(s: State, lines: seq<string>, decode: string -> Record)
    requires Wf(s)
    ensures DispatchLines(s, lines, decode).remaining == s.remaining
    ensures Flush(DispatchLines(s, lines, decode)).remaining == s.remaining
    decreases |lines|
  {
    if lines != [] {
      DispatchLinesRemaining(s, lines[..|lines| - 1], decode);
    }
  }

  /** Input in which no complete line is an error record yields no error
      event before exit. */
  lemma {:induction false} RunChunksQuiet(chunks: seq<string>, decode: string -> Record)
    requires NoErrorRecords(FeedAll("", chunks).lines, decode)
    ensures ErrorFree(RunChunks(Init(), chunks, decode).events)
    decreases |chunks|
  {
    if chunks != [] {
      var init := chunks[..|chunks| - 1];
      var fed := FeedAll("", init);
      var step := Reassemble(fed.remaining, chunks[|chunks| - 1]);
      assert FeedAll("", chunks).lines == fed.lines + step.lines;
      NoErrorRecordsSplit(fed.lines, step.lines, decode);
      RunChunksQuiet(init, decode);
      var prev := RunChunks(Init(), init, decode);
      RunChunksRemaining(Init(), init, decode);
      DispatchLinesQuiet(prev.(remaining := step.remaining), step.lines, decode);
    }
  }

  lemma {:induction false} CellsOfNone(lines: seq<string>, decode: string -> Record)
    requires NoCellRecords(lines, decode)
    ensures CellsOf(lines, decode) == []
    decreases |lines|
  {
    if lines != [] {
      var init := lines[..|lines| - 1];
      assert NoCellRecords(init, decode) by {
        forall i | 0 <= i < |init| ensures !decode(init[i]).CellRecord? {
          assert init[i] == lines[i];
        }
      }
      CellsOfNone(init, decode);
    }
  }

  lemma {:induction false} EmittedHoldsBatches(events: seq<Event>)
    ensures forall k :: 0 <= k < |events| && events[k].Data? ==> |events[k].batch.rows| <= |Emitted(events)|
    decreases |events|
  {
    if events != [] {
      var init := events[..|events| - 1];
      EmittedHoldsBatches(init);
      forall k | 0 <= k < |events| && events[k].Data?
        ensures |events[k].batch.rows| <= |Emitted(events)|
      {
        if k < |init| {
          assert events[k] == init[k];
        }
      }
    }
  }

  /** Input in which no complete line is a cell record creates no row array
      and emits no batch, whatever workbook and sheet records it holds. */
  lemma {:induction false} NoCellsNoData(chunks: seq<string>, code: Option<int>, decode: string -> Record)
    requires NoCellRecords(FeedAll("", chunks).lines, decode)
    ensures Run(chunks, code, decode).store == []
    ensures forall k :: 0 <= k < |Run(chunks, code, decode).events| ==> !Run(chunks, code, decode).events[k].Data?
  {
    var final := Run(chunks, code, decode);
    CellsOfNone(FeedAll("", chunks).lines, decode);
    StoreIsRuns(chunks, code, decode);
    RunInv(chunks, code, decode);
    EmittedHoldsBatches(final.events);
  }
}
