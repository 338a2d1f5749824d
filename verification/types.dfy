/**
 * The records the ingestion and storage code exchange, after src/types/index.ts, plus the
 * JavaScript values they are built from (Date, Number) and the engine behaviour the model
 * takes as given.
 */
module Types {
  import opened Wrappers

  /** The range of `Date.prototype.getMonth()`. */
  type MonthIndex = m: int | 0 <= m < 12

  /**
   * A JavaScript `Date`. An invalid date (`getTime()` is NaN) is `InvalidDate`; a valid one
   * records what the engine reports for it: `time` for `getTime()`, `fullYear` and `month`
   * for the local-time `getFullYear()` and `getMonth()`, and `iso` for `toISOString()`.
   */
  datatype Date = InvalidDate | Date(time: int, fullYear: int, month: MonthIndex, iso: string)

  /** A JavaScript number where NaN matters; infinities are not modelled. */
  datatype Number = Finite(value: real) | NaN

  /** `ParsedCSVRow`: column name to cell text; an absent key reads as `undefined`. */
  type Row = map<string, string>

  /** `CSVMapping`: the column that holds each role; the raw-description column is optional. */
  datatype CsvMapping = CsvMapping(
    dateColumn: string,
    descriptionColumn: string,
    amountColumn: string,
    rawDescriptionColumn: Option<string>)

  /** A parsed row: `Omit<Transaction, 'id' | 'categoryId' | 'createdAt' | 'updatedAt'>`. */
  datatype Candidate = Candidate(
    date: Date,
    description: string,
    amount: real,
    rawDescription: Option<string>,
    originalData: Row)

  /** A stored `Transaction` as read back from its partition; the timestamps are not modelled. */
  datatype Transaction = Transaction(
    id: string,
    date: Date,
    description: string,
    amount: real,
    categoryId: Option<string>,
    rawDescription: Option<string>)

  /** The input of `createTransaction`: a candidate with its chosen category. */
  datatype Draft = Draft(
    date: Date,
    description: string,
    amount: Number,
    categoryId: Option<string>,
    rawDescription: Option<string>)

  /**
   * Engine-defined behaviour the model does not reconstruct: `new Date(text)`,
   * `new Date(year, monthIndex, day)`, `parseFloat` (`None` for NaN) and the
   * `Number`-to-string conversion of a finite amount.
   */
  datatype Engine = Engine(
    newDate: string -> Date,
    dateFromParts: (int, int, int) -> Date,
    parseFloat: string -> Option<real>,
    numberToString: real -> string)
}
