/** Optional values and error results, the two shapes Go expresses with
  * `(value, ok)` pairs, nil pointers and `(value, error)` returns. */
module Wrappers {
  datatype Option<T> = None | Some(value: T)
  {
    function GetOr(default: T): T
    {
      if Some? then value else default
    }
  }

  datatype Result<T> = Ok(value: T) | Err(msg: string)

  /** The `error` of a Go function that returns nothing else. */
  datatype Outcome = Success | Failure(msg: string)

  /** The rows a `for rows.Next()` loop gets past its `rows.Scan`: a row
    * whose scan fails (`None`, such as a NULL read into a plain Go string)
    * is dropped by the loop's `continue`, the others are kept in order. */
  function Scanned<T(!new)>(rows: seq<Option<T>>): (r: seq<T>)
    ensures |r| <= |rows|
    ensures forall x :: x in r <==> Some(x) in rows
  {
    if |rows| == 0 then []
    else Scanned(rows[..|rows| - 1]) + (if rows[|rows| - 1].Some? then [rows[|rows| - 1].value] else [])
  }

  /** One row more: it is kept exactly when it scans. */
  lemma ScannedStep<T(!new)>(rows: seq<Option<T>>, i: nat)
    requires i < |rows|
    ensures rows[i].Some? ==> Scanned(rows[..i + 1]) == Scanned(rows[..i]) + [rows[i].value]
    ensures rows[i].None? ==> Scanned(rows[..i + 1]) == Scanned(rows[..i])
  {
    assert rows[..i + 1][..i] == rows[..i];
  }
}
