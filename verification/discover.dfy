/** Discover card export: header `Trans. Date,Post Date,Description,
    Amount,Category`. Charges are positive, payments and credits negative;
    every row carries a post date and no metadata. A bad header yields no
    transactions rather than an error. */
module Discover {
  import opened Wrappers
  import opened Text
  import opened Dates
  import opened Decimals
  import opened Transactions
  import opened Rows

  predicate HeaderOk(header: Row) {
    |header| >= 5 && header[0] == "Trans. Date"
  }

  /** The signed amount of a row: the stripped amount text without commas. */
  function AmountValue(row: Row): Option<real>
    requires |row| >= 5
  {
    ParseDecimal(RemoveAll(Strip(row[3]), ','))
  }

  /** A full-balance automatic payment filed under "Payments and Credits"
      moves money between the owner's accounts; otherwise credits are
      income and charges (zero included) expenses. */
  function TypeOf(category: string, description: string, value: real): (k: TxnType)
    ensures k == Transfer <==> category == "Payments and Credits" && StartsWith(description, "DIRECTPAY FULL BALANCE")
    ensures k == Income <==> !(category == "Payments and Credits" && StartsWith(description, "DIRECTPAY FULL BALANCE")) && value < 0.0
    ensures k == Expense <==> !(category == "Payments and Credits" && StartsWith(description, "DIRECTPAY FULL BALANCE")) && value >= 0.0
  {
    if category == "Payments and Credits" && StartsWith(description, "DIRECTPAY FULL BALANCE") then Transfer
    else if value < 0.0 then Income
    else Expense
  }

  /** One data row. It is kept exactly when it has at least five fields, a
      non-blank transaction date and amount, and both dates and the amount
      parse; a blank post date is a parse failure. The amount is the
      magnitude of the signed value; an empty category is no category. */
  function ParseRow(row: Row, accountId: int, hash: string -> Digest): (r: Outcome)
    ensures |row| < 5 ==> r == Err(Malformed)
    ensures |row| >= 5 && (Strip(row[0]) == "" || Strip(row[3]) == "") ==> r == Err(MissingDateOrAmount)
    ensures r.Ok? <==> |row| >= 5 && Strip(row[0]) != "" && Strip(row[3]) != ""
                       && ParseMonthDayYear(Strip(row[0])).Some?
                       && ParseMonthDayYear(Strip(row[1])).Some? && AmountValue(row).Some?
    ensures r.Ok? ==>
      && r.value.id == hash(Join(",", row))
      && r.value.accountId == accountId
      && r.value.transactionDate == ParseMonthDayYear(Strip(row[0])).value
      && r.value.postDate == ParseMonthDayYear(Strip(row[1]))
      && r.value.description == Clean(row[2])
      && r.value.category == NoneIfEmpty(Clean(row[4]))
      && r.value.amount == Abs(AmountValue(row).value) && r.value.amount >= 0.0
      && r.value.txnType == TypeOf(Clean(row[4]), Clean(row[2]), AmountValue(row).value)
      && r.value.additionalMetadata == None
  {
    if |row| < 5 then Err(Malformed)
    else
      var transText := Strip(row[0]);
      var postText := Strip(row[1]);
      var description := Clean(row[2]);
      var amountText := Strip(row[3]);
      var category := Clean(row[4]);
      if transText == "" || amountText == "" then Err(MissingDateOrAmount)
      else match ParseMonthDayYear(transText)
        case None => Err(BadDate)
        case Some(date) =>
          match ParseMonthDayYear(postText)
          case None => Err(BadDate)
          case Some(postDate) =>
            match AmountValue(row)
            case None => Err(BadAmount)
            case Some(value) =>
              Ok(CreateWithChecksum(
                hash, Join(",", row), accountId, date, Some(postDate), description,
                NoneIfEmpty(category), Abs(value), TypeOf(category, description, value), None))
  }

  function Parser(accountId: int, hash: string -> Digest): Row -> Outcome {
    row => ParseRow(row, accountId, hash)
  }

  /** The transactions `ingest` returns for a file of rows. */
  function Ingested(rows: seq<Row>, accountId: int, hash: string -> Digest): seq<Txn> {
    if rows == [] || !HeaderOk(rows[0]) then []
    else KeepParsed(Parser(accountId, hash), rows[1..])
  }

  /** `ingest`: checks the header, then walks the data rows, appending the
      transaction of every row that parses. */
  method Ingest(rows: seq<Row>, accountId: int, hash: string -> Digest) returns (txns: seq<Txn>)
    ensures txns == Ingested(rows, accountId, hash)
  {
    txns := [];
    if |rows| == 0 {
      return;  // empty file
    }
    var header := rows[0];
    if |header| < 5 || header[0] != "Trans. Date" {
      return;  // invalid header
    }
    var i := 1;
    while i < |rows|
      invariant 1 <= i <= |rows|
      invariant txns == KeepParsed(Parser(accountId, hash), rows[1..i])
    {
      KeepParsedStep(Parser(accountId, hash), rows, 1, i);
      var outcome := ParseRow(rows[i], accountId, hash);
      if outcome.Ok? {
        txns := txns + [outcome.value];
      }
      i := i + 1;
    }
    assert rows[1..i] == rows[1..];
  }

  /** An empty file, a header with fewer than five fields or a first header
      field other than "Trans. Date" give no transactions and no error. */
  lemma RejectedHeaderGivesNothing(rows: seq<Row>, accountId: int, hash: string -> Digest)
    requires rows == [] || |rows[0]| < 5 || rows[0][0] != "Trans. Date"
    ensures Ingested(rows, accountId, hash) == []
  {
  }

  /** Every ingested transaction comes from a data row, carries the digest
      of that row's text as id, a post date, a non-negative amount and no
      metadata. */
  lemma IngestedFromRows(rows: seq<Row>, accountId: int, hash: string -> Digest, t: Txn)
    requires t in Ingested(rows, accountId, hash)
    ensures t.postDate.Some? && t.amount >= 0.0 && t.accountId == accountId && t.additionalMetadata == None
    ensures exists i :: 1 <= i < |rows| && ParseRow(rows[i], accountId, hash) == Ok(t)
                        && t.id == hash(Join(",", rows[i]))
  {
    var i := KeepParsedOrigin(Parser(accountId, hash), rows, 1, t);
    assert ParseRow(rows[i], accountId, hash) == Ok(t);
  }

  /** Under an accepted header, every data row that parses is ingested. */
  lemma ParsedRowsIngested(rows: seq<Row>, accountId: int, hash: string -> Digest, i: nat)
    requires rows != [] && HeaderOk(rows[0])
    requires 1 <= i < |rows| && ParseRow(rows[i], accountId, hash).Ok?
    ensures ParseRow(rows[i], accountId, hash).value in Ingested(rows, accountId, hash)
  {
    assert Parser(accountId, hash)(rows[i]) == ParseRow(rows[i], accountId, hash);
    KeepParsedHit(Parser(accountId, hash), rows, 1, i);
  }
}
