/** Bank of America credit card export: the header must be exactly
    `Posted Date,Reference Number,Payee,Address,Amount`, charges are
    negative and payments positive. Unlike the other adapters, a missing or
    different header is an error. */
module Bofacc {
  import opened Wrappers
  import opened Text
  import opened Dates
  import opened Decimals
  import opened Transactions
  import opened Rows

  const CsvHeaders: seq<string> := ["Posted Date", "Reference Number", "Payee", "Address", "Amount"]

  /** The two ways `ingest` fails instead of returning transactions. */
  datatype IngestError =
    | EmptyCsvFile          // no header row at all
    | HeaderMismatch(got: Row)

  /** The signed amount of a row: the stripped amount text without commas. */
  function AmountValue(row: Row): Option<real>
    requires |row| >= 5
  {
    ParseDecimal(RemoveAll(Strip(row[4]), ','))
  }

  /** Positive amounts are payments to the card, a transfer; charges and
      zero are expenses. */
  function TypeOf(value: real): (k: TxnType)
    ensures k == Transfer <==> value > 0.0
    ensures k == Expense <==> value <= 0.0
  {
    if value > 0.0 then Transfer else Expense
  }

  /** `row_to_transaction`: the error cases are those where the source
      raises (too few fields, blank date or amount, unparsable date or
      amount). The record has no post date and no category, the magnitude
      of the amount, and always both the reference number and the address
      as metadata, even when blank. */
  function RowToTransaction(row: Row, accountId: int, hash: string -> Digest): (r: Outcome)
    ensures |row| < 5 ==> r == Err(Malformed)
    ensures |row| >= 5 && (Strip(row[0]) == "" || Strip(row[4]) == "") ==> r == Err(MissingDateOrAmount)
    ensures r.Ok? <==> |row| >= 5 && Strip(row[0]) != "" && Strip(row[4]) != ""
                       && ParseMonthDayYear(Strip(row[0])).Some? && AmountValue(row).Some?
    ensures r.Ok? ==>
      && r.value.id == hash(Join(",", row))
      && r.value.accountId == accountId
      && r.value.transactionDate == ParseMonthDayYear(Strip(row[0])).value
      && r.value.postDate == None
      && r.value.description == Clean(row[2])
      && r.value.category == None
      && r.value.amount == Abs(AmountValue(row).value) && r.value.amount >= 0.0
      && r.value.txnType == TypeOf(AmountValue(row).value)
      && r.value.additionalMetadata == Some(map[ReferenceNumber := Strip(row[1]), Address := Clean(row[3])])
  {
    if |row| < 5 then Err(Malformed)
    else
      var postedText := Strip(row[0]);
      var reference := Strip(row[1]);
      var payee := Clean(row[2]);
      var address := Clean(row[3]);
      var amountText := Strip(row[4]);
      if postedText == "" || amountText == "" then Err(MissingDateOrAmount)
      else match ParseMonthDayYear(postedText)
        case None => Err(BadDate)
        case Some(date) =>
          match AmountValue(row)
          case None => Err(BadAmount)
          case Some(value) =>
            Ok(CreateWithChecksum(
              hash, Join(",", row), accountId, date, None, payee, None, Abs(value), TypeOf(value),
              Some(map[ReferenceNumber := reference, Address := address])))
  }

  function Parser(accountId: int, hash: string -> Digest): Row -> Outcome {
    row => RowToTransaction(row, accountId, hash)
  }

  /** What `ingest` returns for a file of rows. */
  function Ingested(rows: seq<Row>, accountId: int, hash: string -> Digest): Result<seq<Txn>, IngestError> {
    if rows == [] then Err(EmptyCsvFile)
    else if rows[0] != CsvHeaders then Err(HeaderMismatch(rows[0]))
    else Ok(KeepParsed(Parser(accountId, hash), rows[1..]))
  }

  /** `ingest`: validates the header, then walks the data rows, appending
      the transaction of every row that converts. */
  method Ingest(rows: seq<Row>, accountId: int, hash: string -> Digest)
    returns (result: Result<seq<Txn>, IngestError>)
    ensures result == Ingested(rows, accountId, hash)
  {
    if |rows| == 0 {
      return Err(EmptyCsvFile);
    }
    var header := rows[0];
    if header != CsvHeaders {
      return Err(HeaderMismatch(header));
    }
    var txns := [];
    var i := 1;
    while i < |rows|
      invariant 1 <= i <= |rows|
      invariant txns == KeepParsed(Parser(accountId, hash), rows[1..i])
    {
      KeepParsedStep(Parser(accountId, hash), rows, 1, i);
      var row := rows[i];
      if |row| >= 5 {
        var outcome := RowToTransaction(row, accountId, hash);
        if outcome.Ok? {
          txns := txns + [outcome.value];
        }
      }
      i := i + 1;
    }
    assert rows[1..i] == rows[1..];
    return Ok(txns);
  }

  /** The file is accepted exactly when its first row is the expected
      header, field for field; an empty file is its own error. */
  lemma AcceptedIffExactHeader(rows: seq<Row>, accountId: int, hash: string -> Digest)
    ensures Ingested(rows, accountId, hash).Ok? <==> rows != [] && rows[0] == CsvHeaders
    ensures rows == [] ==> Ingested(rows, accountId, hash) == Err(EmptyCsvFile)
    ensures rows != [] && rows[0] != CsvHeaders ==> Ingested(rows, accountId, hash) == Err(HeaderMismatch(rows[0]))
  {
  }

  /** Every ingested transaction comes from a data row, carries the digest
      of that row's text as id, no post date and a non-negative amount. */
  lemma IngestedFromRows(rows: seq<Row>, accountId: int, hash: string -> Digest, t: Txn)
    requires Ingested(rows, accountId, hash).Ok? && t in Ingested(rows, accountId, hash).value
    ensures t.postDate == None && t.amount >= 0.0 && t.accountId == accountId
    ensures exists i :: 1 <= i < |rows| && RowToTransaction(rows[i], accountId, hash) == Ok(t)
                        && t.id == hash(Join(",", rows[i]))
  {
    var i := KeepParsedOrigin(Parser(accountId, hash), rows, 1, t);
    assert RowToTransaction(rows[i], accountId, hash) == Ok(t);
  }

  /** Under the expected header, every data row that converts is ingested. */
  lemma ParsedRowsIngested(rows: seq<Row>, accountId: int, hash: string -> Digest, i: nat)
    requires rows != [] && rows[0] == CsvHeaders
    requires 1 <= i < |rows| && RowToTransaction(rows[i], accountId, hash).Ok?
    ensures Ingested(rows, accountId, hash).Ok?
    ensures RowToTransaction(rows[i], accountId, hash).value in Ingested(rows, accountId, hash).value
  {
    assert Parser(accountId, hash)(rows[i]) == RowToTransaction(rows[i], accountId, hash);
    KeepParsedHit(Parser(accountId, hash), rows, 1, i);
  }
}
