/**
 * The line-delimited record feed that the spreadsheet reader process prints,
 * one JSON array `[kind, payload]` per line, as the parser sees it once a line
 * has been decoded.
 */
module Records {

  datatype Option<+T> = None | Some(value: T)

  /** A decoded JSON value. Numbers are kept as opaque reals: the parser passes
      them through and only subtracts one from a date's month. */
  datatype Json =
    | JNull
    | JBool(b: bool)
    | JNum(n: real)
    | JStr(s: string)
    | JArr(items: seq<Json>)

  /** One decoded feed line. `OtherRecord` stands for any kind the parser's
      switch does not name; such records are ignored. */
  datatype Record =
      /** `["workbook", {file, user, sheets: {count, names}}]` */
    | WorkbookRecord(file: string, user: string, count: nat, names: seq<string>)
      /** `["sheet", {index, name, rows, cols, visibility}]` */
    | SheetRecord(index: nat, name: string, rows: nat, cols: nat, visibility: int)
      /** `["cell", {r, c, cn, t, v}]`: zero-based row and column, the column's
          letters, the reader's cell type code and the raw value */
    | CellRecord(r: nat, c: nat, cn: string, t: int, v: Json)
      /** `["error", {type, exception?, message}]` */
    | ErrorRecord(errorType: string, exception: Option<string>, message: string)
    | OtherRecord(kind: string)
}
