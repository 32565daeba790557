/** American Express export: header `Date,Description,Amount,Extended
    Details,Appears On Your Statement As,Address,City/State,Zip Code,
    Country,Reference,Category`, one date per row, positive amounts are
    charges. A bad header yields no transactions rather than an error. */
module Amex {
  import opened Wrappers
  import opened Text
  import opened Dates
  import opened Decimals
  import opened Transactions
  import opened Rows

  predicate HeaderOk(header: Row) {
    |header| >= 11 && header[0] == "Date"
  }

  /** The signed amount of a row: the stripped amount text without commas. */
  function AmountValue(row: Row): Option<real>
    requires |row| >= 3
  {
    ParseDecimal(RemoveAll(Strip(row[2]), ','))
  }

  /** A payment with "AUTOPAY PAYMENT" in its description moves money
      between the owner's accounts; other payments are income; charges
      (zero included) are expenses. */
  function TypeOf(value: real, description: string): (k: TxnType)
    ensures k == Transfer <==> value < 0.0 && Contains(Upper(description), "AUTOPAY PAYMENT")
    ensures k == Income <==> value < 0.0 && !Contains(Upper(description), "AUTOPAY PAYMENT")
    ensures k == Expense <==> value >= 0.0
  {
    if value < 0.0 && Contains(Upper(description), "AUTOPAY PAYMENT") then Transfer
    else if value < 0.0 then Income
    else Expense
  }

  /** The metadata keys `ingest` may write, one per side column. */
  const SideKeys: set<MetaKey> := {ExtendedDetails, AppearsAs, Address, CityState, ZipCode, Country, Reference}

  /** The side field each of those keys is filled from. */
  function SideField(fields: seq<string>, k: MetaKey): string
    requires |fields| == 7
  {
    match k
    case ExtendedDetails => fields[0]
    case AppearsAs => fields[1]
    case Address => fields[2]
    case CityState => fields[3]
    case ZipCode => fields[4]
    case Country => fields[5]
    case Reference => fields[6]
    case _ => ""
  }

  /** Whether `ingest` writes the key: its field is non-empty, and for
      `appears_as` also differs from the description. */
  predicate Kept(fields: seq<string>, description: string, k: MetaKey)
    requires |fields| == 7
  {
    SideField(fields, k) != "" && (k == AppearsAs ==> fields[1] != description)
  }

  /** The dictionary the seven `if field: d[key] = field` steps build, in
      the order of the columns (extended details, appears-as, address,
      city/state, zip code, country, reference). */
  function MetadataOf(fields: seq<string>, description: string): (m: Metadata)
    requires |fields| == 7
    ensures ExtendedDetails in m <==> fields[0] != ""
    ensures AppearsAs in m <==> fields[1] != "" && fields[1] != description
    ensures Address in m <==> fields[2] != ""
    ensures CityState in m <==> fields[3] != ""
    ensures ZipCode in m <==> fields[4] != ""
    ensures Country in m <==> fields[5] != ""
    ensures Reference in m <==> fields[6] != ""
    ensures m.Keys <= {ExtendedDetails, AppearsAs, Address, CityState, ZipCode, Country, Reference}
    ensures ExtendedDetails in m ==> m[ExtendedDetails] == fields[0]
    ensures AppearsAs in m ==> m[AppearsAs] == fields[1]
    ensures Address in m ==> m[Address] == fields[2]
    ensures CityState in m ==> m[CityState] == fields[3]
    ensures ZipCode in m ==> m[ZipCode] == fields[4]
    ensures Country in m ==> m[Country] == fields[5]
    ensures Reference in m ==> m[Reference] == fields[6]
  {
    map k | k in SideKeys && Kept(fields, description, k) :: SideField(fields, k)
  }

  /** The cleaned side fields of a row; missing columns read as "". The
      reference also loses surrounding single quotes. */
  function SideFields(row: Row): (fields: seq<string>)
    ensures |fields| == 7
    ensures fields[..6] == [FieldOr(row, 3), FieldOr(row, 4), FieldOr(row, 5), FieldOr(row, 6), FieldOr(row, 7), FieldOr(row, 8)]
    ensures fields[6] == if |row| > 9 then StripChar(Clean(row[9]), '\'') else ""
  {
    [FieldOr(row, 3), FieldOr(row, 4), FieldOr(row, 5), FieldOr(row, 6),
     FieldOr(row, 7), FieldOr(row, 8), ReferenceOf(row)]
  }

  /** `row[9].strip().strip('"').strip("'")` */
  function ReferenceOf(row: Row): string {
    if |row| > 9 then StripChar(Clean(row[9]), '\'') else ""
  }

  /** One data row. It is kept exactly when it has at least three fields, a
      non-blank date and amount, and both parse. The record's id is the
      digest of the fields re-joined with ",", its amount is the magnitude
      of the signed amount, and there is never a post date. */
  function ParseRow(row: Row, accountId: int, hash: string -> Digest): (r: Outcome)
    ensures |row| < 3 ==> r == Err(Malformed)
    ensures |row| >= 3 && (Strip(row[0]) == "" || Strip(row[2]) == "") ==> r == Err(MissingDateOrAmount)
    ensures r.Ok? <==> |row| >= 3 && Strip(row[0]) != "" && Strip(row[2]) != ""
                       && ParseMonthDayYear(Strip(row[0])).Some? && AmountValue(row).Some?
    ensures r.Ok? ==>
      && r.value.id == hash(Join(",", row))
      && r.value.accountId == accountId
      && r.value.transactionDate == ParseMonthDayYear(Strip(row[0])).value
      && r.value.postDate == None
      && r.value.description == Clean(row[1])
      && r.value.amount == Abs(AmountValue(row).value) && r.value.amount >= 0.0
      && r.value.txnType == TypeOf(AmountValue(row).value, Clean(row[1]))
      && r.value.category == NoneIfEmpty(FieldOr(row, 10))
      && r.value.additionalMetadata == NonEmpty(Some(MetadataOf(SideFields(row), Clean(row[1]))))
  {
    if |row| < 3 then Err(Malformed)
    else
      var dateText := Strip(row[0]);
      var description := Clean(row[1]);
      var amountText := Strip(row[2]);
      if dateText == "" || amountText == "" then Err(MissingDateOrAmount)
      else match ParseMonthDayYear(dateText)
        case None => Err(BadDate)
        case Some(date) =>
          match AmountValue(row)
          case None => Err(BadAmount)
          case Some(value) =>
            Ok(CreateWithChecksum(
              hash, Join(",", row), accountId, date, None, description,
              NoneIfEmpty(FieldOr(row, 10)), Abs(value), TypeOf(value, description),
              NonEmpty(Some(MetadataOf(SideFields(row), description)))))
  }

  function Parser(accountId: int, hash: string -> Digest): Row -> Outcome {
    row => ParseRow(row, accountId, hash)
  }

  /** The transactions `ingest` returns for a file of rows. */
  function Ingested(rows: seq<Row>, accountId: int, hash: string -> Digest): seq<Txn> {
    if rows == [] || !HeaderOk(rows[0]) then []
    else KeepParsed(Parser(accountId, hash), rows[1..])
  }

  /** `ingest`: checks the header, then walks the data rows, appending the
      transaction of every row that parses. */
  method Ingest(rows: seq<Row>, accountId: int, hash: string -> Digest) returns (txns: seq<Txn>)
    ensures txns == Ingested(rows, accountId, hash)
  {
    txns := [];
    if |rows| == 0 {
      return;  // empty file
    }
    var header := rows[0];
    if |header| < 11 || header[0] != "Date" {
      return;  // invalid header
    }
    var i := 1;
    while i < |rows|
      invariant 1 <= i <= |rows|
      invariant txns == KeepParsed(Parser(accountId, hash), rows[1..i])
    {
      KeepParsedStep(Parser(accountId, hash), rows, 1, i);
      var outcome := ParseRow(rows[i], accountId, hash);
      if outcome.Ok? {
        txns := txns + [outcome.value];
      }
      i := i + 1;
    }
    assert rows[1..i] == rows[1..];
  }

  /** An empty file, a header with fewer than 11 fields or a first header
      field other than "Date" give no transactions and no error. */
  lemma RejectedHeaderGivesNothing(rows: seq<Row>, accountId: int, hash: string -> Digest)
    requires rows == [] || |rows[0]| < 11 || rows[0][0] != "Date"
    ensures Ingested(rows, accountId, hash) == []
  {
  }

  /** Every ingested transaction comes from a data row, carries the digest
      of that row's text as id, no post date and a non-negative amount. */
  lemma IngestedFromRows(rows: seq<Row>, accountId: int, hash: string -> Digest, t: Txn)
    requires t in Ingested(rows, accountId, hash)
    ensures t.postDate == None && t.amount >= 0.0 && t.accountId == accountId
    ensures exists i :: 1 <= i < |rows| && ParseRow(rows[i], accountId, hash) == Ok(t)
                        && t.id == hash(Join(",", rows[i]))
  {
    var i := KeepParsedOrigin(Parser(accountId, hash), rows, 1, t);
    assert ParseRow(rows[i], accountId, hash) == Ok(t);
  }

  /** Under an accepted header, every data row that parses is ingested. */
  lemma ParsedRowsIngested(rows: seq<Row>, accountId: int, hash: string -> Digest, i: nat)
    requires rows != [] && HeaderOk(rows[0])
    requires 1 <= i < |rows| && ParseRow(rows[i], accountId, hash).Ok?
    ensures ParseRow(rows[i], accountId, hash).value in Ingested(rows, accountId, hash)
  {
    assert Parser(accountId, hash)(rows[i]) == ParseRow(rows[i], accountId, hash);
    KeepParsedHit(Parser(accountId, hash), rows, 1, i);
  }

  /** Appending data rows to a file appends their transactions, in order. */
  lemma IngestedAppend(rows: seq<Row>, more: seq<Row>, accountId: int, hash: string -> Digest)
    requires rows != []
    ensures Ingested(rows + more, accountId, hash)
         == Ingested(rows, accountId, hash) + (if HeaderOk(rows[0]) then KeepParsed(Parser(accountId, hash), more) else [])
  {
    assert (rows + more)[0] == rows[0];
    assert (rows + more)[1..] == rows[1..] + more;
    KeepParsedAppend(Parser(accountId, hash), rows[1..], more);
  }
}
