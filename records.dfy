/** Records as the CSV reader hands them over: a mapping from column name to
    string value, plus the two ways looking at a record can fail. */
module Records {

  /** One ticket row: column name to cell text. */
  type Record = map<string, string>

  /** The exceptions the core can raise: a missing column (`KeyError`) and a
      string that does not match its date format (`ValueError`). */
  datatype Error = KeyError(key: string) | ValueError(text: string)

  datatype Option<T> = None | Some(value: T)

  /** Either a value or the exception that aborted the computation. */
  datatype Result<T> = Ok(value: T) | Err(error: Error)

  /** Every record of `rows` has the column `key`. */
  predicate HasColumn(rows: seq<Record>, key: string)
  {
    forall i :: 0 <= i < |rows| ==> key in rows[i]
  }
}
