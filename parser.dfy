/**
 * The streaming parser as an object: its closure variables are fields, and
 * each handler is a method that updates them in place. Every method is proved
 * to do exactly what the matching function of `Session` says, so the lemmas
 * proved there (row accounting, grouping, flushing, exit signalling) hold of
 * this object.
 */
module Streaming {
  import opened Records
  import opened Values
  import opened Reassembly
  import opened Session

  class Parser {
    var workbook: Option<Workbook>
    var sheet: Option<Sheet>
    var row: Option<RowId>
    var rowindex: int
    var rows: seq<RowId>
    var remaining: string
    /** The contents of every row array created so far, by identity. */
    var store: seq<seq<Cell>>
    /** The sheet current when each row array was created. */
    ghost var origin: seq<Option<Sheet>>
    /** The events emitted so far, in order. */
    var events: seq<Event>

    ghost function Snapshot(): Session.State
      reads this
    {
      Session.State(workbook, sheet, row, rowindex, rows, remaining, store, origin, events)
    }

    /** The fields the handlers rely on, and the row accounting they keep. */
    ghost predicate Valid()
      reads this
    {
      Inv(Snapshot())
    }

    constructor ()
      ensures Snapshot() == Init()
      ensures Valid()
    {
      workbook := None;
      sheet := None;
      row := None;
      rowindex := -1;
      rows := [];
      remaining := "";
      store := [];
      origin := [];
      events := [];
      InitInv();
    }

    /** `flushRows` */
    method FlushRows()
      modifies this
      ensures Snapshot() == Flush(old(Snapshot()))
    {
      if |rows| > 0 {
        events := events + [Data(Batch(workbook, sheet, rows))];
        rows := [];
      }
    }

    /** One iteration of the record switch. */
    method HandleRecord(rec: Record)
      requires Wf(Snapshot())
      modifies this
      ensures Snapshot() == Dispatch(old(Snapshot()), rec)
      ensures Valid() <== old(Valid())
    {
      ghost var s0 := Snapshot();
      match rec {
        case WorkbookRecord(_, _, _, _) =>
          var wb := MakeWorkbook(rec);
          workbook := Some(wb);
          events := events + [Open(wb)];
        case SheetRecord(_, _, _, _, _) =>
          if sheet.Some? {
            FlushRows();
          }
          sheet := Some(MakeSheet(rec));
        case CellRecord(r, c, cn, t, v) =>
          var cell := MakeCell(r, c, cn, t, v);
          if r != rowindex {
            row := Some(|store|);
            rowindex := r;
            rows := rows + [|store|];
            store := store + [[]];
            origin := origin + [sheet];
          }
          var id := row.value;
          store := store[id := store[id] + [cell]];
          assert r != s0.rowindex ==> store == s0.store + [[cell]] by {
            if r != s0.rowindex {
              assert id == |s0.store| && store[id] == [cell];
              assert forall k :: 0 <= k < |s0.store| ==> store[k] == s0.store[k];
            }
          }
        case ErrorRecord(_, _, _) =>
          events := events + [Error(SourceFailureOf(rec))];
        case OtherRecord(_) =>
      }
      if Inv(s0) {
        DispatchInv(s0, rec);
      }
    }

    /** The stdout `data` handler. `decode` stands for `JSON.parse`. */
    method OnData(chunk: string, decode: string -> Record)
      requires Wf(Snapshot())
      modifies this
      ensures Snapshot() == OnChunk(old(Snapshot()), chunk, decode)
      ensures Valid() <== old(Valid())
    {
      ghost var s0 := Snapshot();
      var lines := Split(chunk);
      var lastLine := lines[|lines| - 1];
      lines := lines[0 := remaining + lines[0]];
      remaining := lastLine;
      ghost var start := Snapshot();
      assert start == s0.(remaining := lastLine);
      var i := 0;
      while i < |lines| - 1
        invariant 0 <= i <= |lines| - 1
        invariant Wf(Snapshot())
        invariant Snapshot() == DispatchLines(start, lines[..i], decode)
      {
        assert lines[..i + 1][..i] == lines[..i];
        HandleRecord(decode(lines[i]));
        i := i + 1;
      }
      assert lines[..i] == Reassemble(s0.remaining, chunk).lines;
      FlushRows();
      if Inv(s0) {
        OnChunkInv(s0, chunk, decode);
      }
    }

    /** The process `exit` handler; `None` is the `null` code of a process
        ended by a signal. */
    method OnExit(code: Option<int>)
      modifies this
      ensures Snapshot() == Session.OnExit(old(Snapshot()), code)
      ensures Valid() <== old(Valid())
    {
      ghost var s0 := Snapshot();
      if code != Some(0) {
        events := events + [Error(ExitFailure(ExitMessage(code)))];
      }
      events := events + [Close];
      if Inv(s0) {
        OnExitInv(s0, code);
      }
    }
  }
}
