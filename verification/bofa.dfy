/** Bank of America checking export: a summary block, then the header
    `Date,Description,Amount,Running Bal.`, then one row per transaction.
    The sign is a leading '-' on the amount text; a missing header yields no
    transactions. */
module Bofa {
  import opened Wrappers
  import opened Text
  import opened Dates
  import opened Decimals
  import opened Transactions
  import opened Rows

  /** The row that ends the summary block. */
  predicate IsHeader(row: Row) {
    |row| >= 4 && row[0] == "Date" && row[1] == "Description"
  }

  /** The index of the first header row, or `|rows|` when there is none. */
  function FirstHeader(rows: seq<Row>): (h: nat)
    ensures h <= |rows|
    ensures h < |rows| ==> IsHeader(rows[h])
    ensures forall j :: 0 <= j < h ==> !IsHeader(rows[j])
  {
    if rows == [] then 0
    else if IsHeader(rows[0]) then 0
    else
      var h := FirstHeader(rows[1..]);
      assert forall j :: 1 <= j < h + 1 ==> rows[j] == rows[1..][j - 1];
      h + 1
  }

  /** A leading '-' marks money leaving the account. */
  predicate IsOutgoing(amountText: string) {
    StartsWith(amountText, "-")
  }

  /** The amount: the text after one leading '-', if any, without commas. */
  function AmountValue(amountText: string): Option<real> {
    if IsOutgoing(amountText) then ParseDecimal(RemoveAll(amountText[1..], ','))
    else ParseDecimal(RemoveAll(amountText, ','))
  }

  /** Descriptions of payments to the owner's credit cards. */
  const CardPaymentPrefixes: seq<string> :=
    ["DISCOVER DES:E-PAYMENT", "CHASE CREDIT CRD DES:AUTOPAY", "AMERICAN EXPRESS DES:ACH PMT"]

  predicate IsCardPayment(description: string) {
    exists p :: p in CardPaymentPrefixes && StartsWith(description, p)
  }

  /** A card payment is a transfer whatever its sign; otherwise outgoing
      money is an expense and incoming money income. */
  function TypeOf(description: string, outgoing: bool): (k: TxnType)
    ensures k == Transfer <==> IsCardPayment(description)
    ensures k == Expense <==> !IsCardPayment(description) && outgoing
    ensures k == Income <==> !IsCardPayment(description) && !outgoing
  {
    if IsCardPayment(description) then Transfer
    else if outgoing then Expense
    else Income
  }

  /** One data row. It is kept exactly when it has at least four fields, a
      non-blank date and amount, and both parse. The running balance is
      always kept as metadata, even when blank; there is no post date and
      no category. */
  function ParseRow(row: Row, accountId: int, hash: string -> Digest): (r: Outcome)
    ensures |row| < 4 ==> r == Err(Malformed)
    ensures |row| >= 4 && (Strip(row[0]) == "" || Clean(row[2]) == "") ==> r == Err(MissingDateOrAmount)
    ensures r.Ok? <==> |row| >= 4 && Strip(row[0]) != "" && Clean(row[2]) != ""
                       && ParseMonthDayYear(Strip(row[0])).Some? && AmountValue(Clean(row[2])).Some?
    ensures r.Ok? ==>
      && r.value.id == hash(Join(",", row))
      && r.value.accountId == accountId
      && r.value.transactionDate == ParseMonthDayYear(Strip(row[0])).value
      && r.value.postDate == None
      && r.value.description == Clean(row[1])
      && r.value.category == None
      && r.value.amount == AmountValue(Clean(row[2])).value
      && r.value.txnType == TypeOf(Clean(row[1]), IsOutgoing(Clean(row[2])))
      && r.value.additionalMetadata == Some(map[RunningBalance := Clean(row[3])])
  {
    if |row| < 4 then Err(Malformed)
    else
      var dateText := Strip(row[0]);
      var description := Clean(row[1]);
      var amountText := Clean(row[2]);
      var runningBalance := Clean(row[3]);
      if dateText == "" || amountText == "" then Err(MissingDateOrAmount)
      else match ParseMonthDayYear(dateText)
        case None => Err(BadDate)
        case Some(date) =>
          match AmountValue(amountText)
          case None => Err(BadAmount)
          case Some(amount) =>
            Ok(CreateWithChecksum(
              hash, Join(",", row), accountId, date, None, description, None, amount,
              TypeOf(description, IsOutgoing(amountText)),
              Some(map[RunningBalance := runningBalance])))
  }

  function Parser(accountId: int, hash: string -> Digest): Row -> Outcome {
    row => ParseRow(row, accountId, hash)
  }

  /** The transactions `ingest` returns: those of the rows after the first
      header; none when there is no header. */
  function Ingested(rows: seq<Row>, accountId: int, hash: string -> Digest): seq<Txn> {
    if FirstHeader(rows) < |rows| then KeepParsed(Parser(accountId, hash), rows[FirstHeader(rows) + 1..])
    else []
  }

  /** The first loop of `ingest`: reads rows up to and including the
      first header, leaving the reader just past it. */
  method SkipToHeader(rows: seq<Row>) returns (i: nat)
    ensures i == FirstHeader(rows)
  {
    i := 0;
    while i < |rows| && !IsHeader(rows[i])
      invariant i <= |rows|
      invariant forall j :: 0 <= j < i ==> !IsHeader(rows[j])
    {
      i := i + 1;
    }
  }

  /** `ingest`: skips rows up to and including the first header, then walks
      the rest, appending the transaction of every row that parses. */
  method Ingest(rows: seq<Row>, accountId: int, hash: string -> Digest) returns (txns: seq<Txn>)
    ensures txns == Ingested(rows, accountId, hash)
  {
    var header := SkipToHeader(rows);
    txns := [];
    if header == |rows| {
      return;  // the header loop consumed every row
    }
    var parse := Parser(accountId, hash);
    var start := header + 1;
    var i := start;
    while i < |rows|
      invariant start <= i <= |rows|
      invariant txns == KeepParsed(parse, rows[start..i])
    {
      KeepParsedStep(parse, rows, start, i);
      var outcome := parse(rows[i]);
      if outcome.Ok? {
        txns := txns + [outcome.value];
      }
      i := i + 1;
    }
    assert rows[start..i] == rows[start..];
  }

  /** Rows before the header, summary lines included, never produce
      transactions: prepending non-header rows changes nothing. */
  lemma SummaryIgnored(summary: seq<Row>, rows: seq<Row>, accountId: int, hash: string -> Digest)
    requires forall j :: 0 <= j < |summary| ==> !IsHeader(summary[j])
    ensures Ingested(summary + rows, accountId, hash) == Ingested(rows, accountId, hash)
  {
    var all := summary + rows;
    var h := FirstHeader(rows);
    forall j | 0 <= j < |summary| + h
      ensures !IsHeader(all[j])
    {
      if j < |summary| {
        assert all[j] == summary[j];
      } else {
        assert all[j] == rows[j - |summary|];
      }
    }
    if h < |rows| {
      assert all[|summary| + h] == rows[h];
    }
    FirstHeaderAt(all, |summary| + h);
    if h < |rows| {
      assert all[|summary| + h + 1..] == rows[h + 1..];
    }
  }

  /** The first header is the one every earlier row is not. */
  lemma FirstHeaderAt(rows: seq<Row>, h: nat)
    requires h <= |rows| && (h < |rows| ==> IsHeader(rows[h]))
    requires forall j :: 0 <= j < h ==> !IsHeader(rows[j])
    ensures FirstHeader(rows) == h
  {
    if FirstHeader(rows) < h {
      assert false;
    }
  }

  /** Without a header row nothing is ingested. */
  lemma NoHeaderGivesNothing(rows: seq<Row>, accountId: int, hash: string -> Digest)
    requires forall j :: 0 <= j < |rows| ==> !IsHeader(rows[j])
    ensures Ingested(rows, accountId, hash) == []
  {
  }

  /** Every ingested transaction comes from a row after the first header
      and carries the digest of that row's text as id, no post date and no
      category. */
  lemma IngestedFromRows(rows: seq<Row>, accountId: int, hash: string -> Digest, t: Txn)
    requires t in Ingested(rows, accountId, hash)
    ensures t.postDate == None && t.category == None && t.accountId == accountId
    ensures exists i :: FirstHeader(rows) < i < |rows| && ParseRow(rows[i], accountId, hash) == Ok(t)
                        && t.id == hash(Join(",", rows[i]))
  {
    var i := KeepParsedOrigin(Parser(accountId, hash), rows, FirstHeader(rows) + 1, t);
    assert ParseRow(rows[i], accountId, hash) == Ok(t);
  }

  /** Every row after the first header that parses is ingested. */
  lemma ParsedRowsIngested(rows: seq<Row>, accountId: int, hash: string -> Digest, i: nat)
    requires FirstHeader(rows) < i < |rows| && ParseRow(rows[i], accountId, hash).Ok?
    ensures ParseRow(rows[i], accountId, hash).value in Ingested(rows, accountId, hash)
  {
    assert Parser(accountId, hash)(rows[i]) == ParseRow(rows[i], accountId, hash);
    KeepParsedHit(Parser(accountId, hash), rows, FirstHeader(rows) + 1, i);
  }

  /** The amount is never negative when no '-' follows the first character
      of the amount text. */
  lemma AmountNonNegative(amountText: string)
    requires AmountValue(amountText).Some?
    requires forall k :: 1 <= k < |amountText| ==> amountText[k] != '-'
    ensures AmountValue(amountText).value >= 0.0
  {
    var body := if IsOutgoing(amountText) then amountText[1..] else amountText;
    assert '-' !in body by {
      if !IsOutgoing(amountText) && amountText != [] {
        assert amountText[..1] != "-";
      }
    }
    NegativeNeedsMinus(RemoveAll(body, ','));
  }

  /** Only one leading '-' is removed: the amount text "--5" gives the
      negative amount -5 and the type expense. */
  lemma DoubleMinusGivesNegativeAmount()
    ensures AmountValue("--5") == Some(-5.0)
    ensures IsOutgoing("--5")
  {
    assert NatToString(5) == "5";
    ParseNegatedNaturalText(5);
    assert "--5"[1..] == "-" + NatToString(5);
    assert RemoveAll("-5", ',') == "-5";
  }
}
