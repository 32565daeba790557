/** What the five statement adapters share: rows as already-split fields,
    the reasons a data row is skipped, field cleaning, and the filter that
    keeps the rows that parse, in file order. */
module Rows {
  import opened Wrappers
  import opened Text
  import opened Transactions

  /** One line of the export after CSV splitting. */
  type Row = seq<string>

  /** Why a data row produced no transaction. Every one of these is logged
      and the row skipped; none aborts the file. */
  datatype Skip =
    | Malformed            // empty, or fewer fields than the adapter needs
    | MissingDateOrAmount  // blank date or blank amount
    | BadDate              // strptime raised
    | BadAmount            // Decimal raised

  type Outcome = Result<Txn, Skip>

  /** `row[i].strip().strip('"') if len(row) > i else ""` */
  function FieldOr(row: Row, i: nat): string {
    if |row| > i then Clean(row[i]) else ""
  }

  /** `s if s else None` */
  function NoneIfEmpty(s: string): (r: Option<string>)
    ensures r.None? <==> s == ""
    ensures r.Some? ==> r.value == s
  {
    if s == "" then None else Some(s)
  }

  /** The transactions of the rows that parse, in the order of the rows:
      what each adapter's loop appends to its result list. */
  function KeepParsed(parse: Row -> Outcome, rows: seq<Row>): seq<Txn> {
    if rows == [] then []
    else
      var last := parse(rows[|rows| - 1]);
      KeepParsed(parse, rows[..|rows| - 1]) + (if last.Ok? then [last.value] else [])
  }

  /** One more row processed by an adapter loop. */
  lemma KeepParsedStep(parse: Row -> Outcome, rows: seq<Row>, lo: nat, i: nat)
    requires lo <= i < |rows|
    ensures KeepParsed(parse, rows[lo..i + 1])
         == KeepParsed(parse, rows[lo..i]) + (if parse(rows[i]).Ok? then [parse(rows[i]).value] else [])
  {
    assert rows[lo..i + 1][..i - lo] == rows[lo..i];
  }

  /** Rows of a file processed one after another: the transactions of
      `a + b` are those of `a` followed by those of `b`. Output order is
      input order. */
  lemma {:induction false} KeepParsedAppend(parse: Row -> Outcome, a: seq<Row>, b: seq<Row>)
    ensures KeepParsed(parse, a + b) == KeepParsed(parse, a) + KeepParsed(parse, b)
  {
    if b != [] {
      KeepParsedAppend(parse, a, b[..|b| - 1]);
      assert (a + b)[..|a + b| - 1] == a + b[..|b| - 1];
    } else {
      assert a + b == a;
    }
  }

  /** A transaction is in the result exactly when some row parsed to it. */
  lemma {:induction false} KeepParsedMember(parse: Row -> Outcome, rows: seq<Row>, t: Txn)
    ensures t in KeepParsed(parse, rows) <==> exists i :: 0 <= i < |rows| && parse(rows[i]) == Ok(t)
  {
    if rows != [] {
      var init := rows[..|rows| - 1];
      KeepParsedMember(parse, init, t);
      if exists i :: 0 <= i < |init| && parse(init[i]) == Ok(t) {
        var i :| 0 <= i < |init| && parse(init[i]) == Ok(t);
        assert parse(rows[i]) == Ok(t);
      }
    }
  }

  /** At most one transaction per row, and exactly one per row that parses. */
  lemma {:induction false} KeepParsedLength(parse: Row -> Outcome, rows: seq<Row>)
    ensures |KeepParsed(parse, rows)| <= |rows|
    ensures (forall i :: 0 <= i < |rows| ==> parse(rows[i]).Ok?) ==> |KeepParsed(parse, rows)| == |rows|
  {
    if rows != [] {
      KeepParsedLength(parse, rows[..|rows| - 1]);
    }
  }

  /** The data rows from index `lo` on, as the adapters see them after the
      header: the same membership statement on the original indexes. */
  lemma KeepParsedFrom(parse: Row -> Outcome, rows: seq<Row>, lo: nat, t: Txn)
    requires lo <= |rows|
    ensures t in KeepParsed(parse, rows[lo..]) <==> exists i :: lo <= i < |rows| && parse(rows[i]) == Ok(t)
  {
    KeepParsedMember(parse, rows[lo..], t);
    if exists j :: 0 <= j < |rows[lo..]| && parse(rows[lo..][j]) == Ok(t) {
      var j :| 0 <= j < |rows[lo..]| && parse(rows[lo..][j]) == Ok(t);
      assert parse(rows[lo + j]) == Ok(t);
    }
    if exists i :: lo <= i < |rows| && parse(rows[i]) == Ok(t) {
      var i :| lo <= i < |rows| && parse(rows[i]) == Ok(t);
      assert parse(rows[lo..][i - lo]) == Ok(t);
    }
  }

  /** The row a transaction of the data rows from `lo` on came from. */
  lemma KeepParsedOrigin(parse: Row -> Outcome, rows: seq<Row>, lo: nat, t: Txn) returns (i: nat)
    requires lo <= |rows| && t in KeepParsed(parse, rows[lo..])
    ensures lo <= i < |rows| && parse(rows[i]) == Ok(t)
  {
    KeepParsedFrom(parse, rows, lo, t);
    i :| lo <= i < |rows| && parse(rows[i]) == Ok(t);
  }

  /** A data row from `lo` on that parses contributes its transaction. */
  lemma KeepParsedHit(parse: Row -> Outcome, rows: seq<Row>, lo: nat, i: nat)
    requires lo <= i < |rows| && parse(rows[i]).Ok?
    ensures parse(rows[i]).value in KeepParsed(parse, rows[lo..])
  {
    KeepParsedFrom(parse, rows, lo, parse(rows[i]).value);
  }
}
