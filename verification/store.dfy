/** The backing store as the exporter sees it: every query either yields a
    value or fails, and the rows of a multi-row query are decoded one by one. */
module Store {

  /** Outcome of one database query. */
  datatype QueryResult<+T> = Success(value: T) | Failure

  /** One result row of the resolution-time query: its duration in seconds
      decoded, or a row that could not be scanned into a number. */
  datatype Row = Scanned(seconds: real) | Unscannable

  /** Collects the decoded rows of a query: every row decodes, and the values
      are returned in row order, or one bad row fails the whole collection. */
  function CollectRows(rows: seq<Row>): (r: QueryResult<seq<real>>)
    ensures r.Success? <==> forall i :: 0 <= i < |rows| ==> rows[i].Scanned?
    ensures r.Success? ==>
      |r.value| == |rows| && forall i :: 0 <= i < |rows| ==> r.value[i] == rows[i].seconds
  {
    if rows == [] then Success([])
    else if rows[0].Unscannable? then Failure
    else match CollectRows(rows[1..])
      case Failure => Failure
      case Success(rest) => Success([rows[0].seconds] + rest)
  }
}
