/** The `transactions` table and the service that reads and writes it. The
    table is keyed by transaction id; a stored row keeps dates as ISO text
    and the type as its name, as the SQL columns do. */
module Store {
  import opened Wrappers
  import opened Text
  import opened Dates
  import opened Transactions

  /** One row of the table, column for column. */
  datatype StoredRow = StoredRow(
    id: string,
    accountId: int,
    dataImportId: Option<int>,
    transactionDate: string,
    postDate: Option<string>,
    description: string,
    category: Option<string>,
    amount: real,
    transactionType: string,
    additionalMetadata: Option<Metadata>)

  /** The column values `create` and `bulk_create` bind for a transaction:
      ISO dates, the type's name, and no metadata when it is empty. */
  function ToStoredRow(t: Txn): StoredRow {
    StoredRow(
      t.id, t.accountId, t.dataImportId, IsoFormat(t.transactionDate),
      if t.postDate.Some? then Some(IsoFormat(t.postDate.value)) else None,
      t.description, t.category, t.amount, TypeName(t.txnType), NonEmpty(t.additionalMetadata))
  }

  /** The row keeps the id, account and import, its date columns read back
      as the dates, its type column as the type, and empty metadata is
      stored as none. */
  lemma StoredRowFacts(t: Txn)
    ensures ToStoredRow(t).id == t.id && ToStoredRow(t).accountId == t.accountId
    ensures ToStoredRow(t).dataImportId == t.dataImportId
    ensures ParseIso(ToStoredRow(t).transactionDate) == Some(t.transactionDate)
    ensures ToStoredRow(t).postDate.None? <==> t.postDate.None?
    ensures t.postDate.Some? ==> ParseIso(ToStoredRow(t).postDate.value) == t.postDate
    ensures ParseTxnType(ToStoredRow(t).transactionType) == Some(t.txnType)
    ensures ToStoredRow(t).additionalMetadata.None? <==> t.additionalMetadata.None? || t.additionalMetadata.value == map[]
  {
    ParseIsoFormat(t.transactionDate);
    if t.postDate.Some? {
      ParseIsoFormat(t.postDate.value);
    }
    ParseTypeName(t.txnType);
  }

  /** `_row_to_transaction`: parses the ISO dates back (an empty post date
      reads as none) and the type name; `None` for a row the store never
      writes (such as an unknown type name, which the source would keep as
      raw text), or where the source would raise. The category id is not among the columns read. */
  function FromStoredRow(row: StoredRow): (r: Option<Txn>)
    ensures r.Some? ==> r.value.id == row.id && r.value.accountId == row.accountId
  {
    match ParseIso(row.transactionDate)
    case None => None
    case Some(date) =>
      var post := if row.postDate.Some? && row.postDate.value != "" then ParseIso(row.postDate.value) else None;
      if row.postDate.Some? && row.postDate.value != "" && post.None? then None
      else match ParseTxnType(row.transactionType)
        case None => None
        case Some(kind) =>
          Some(Txn(row.id, row.accountId, date, post, row.description, row.category,
                   row.amount, kind, row.additionalMetadata, None, row.dataImportId))
  }

  /** What reading back a written transaction gives: the same record, with
      empty metadata as none and no category id. */
  function Normalized(t: Txn): Txn {
    t.(additionalMetadata := NonEmpty(t.additionalMetadata), categoryId := None)
  }

  /** Writing a transaction and reading the row back gives the record back. */
  lemma ReadBackWritten(t: Txn)
    ensures FromStoredRow(ToStoredRow(t)) == Some(Normalized(t))
  {
    StoredRowFacts(t);
    if t.postDate.Some? {
      assert ToStoredRow(t).postDate.value != "";
    }
  }

  /** The table: each record under its id, as `_row_to_transaction` reads
      its row back (see `ReadBackWritten`). */
  type Table = map<string, Txn>

  /** The primary key: every record sits under its own id. */
  predicate KeyedById(table: Table) {
    forall id :: id in table ==> table[id].id == id
  }

  // -------------------------------------------------------------------------
  // bulk_create: INSERT OR IGNORE, one row after another

  /** The table after `INSERT OR IGNORE` of `ts`, in order: a record whose
      id is already present is dropped. */
  function InsertOrIgnore(table: Table, ts: seq<Txn>): Table {
    if ts == [] then table
    else
      var before := InsertOrIgnore(table, ts[..|ts| - 1]);
      var t := ts[|ts| - 1];
      if t.id in before then before else before[t.id := Normalized(t)]
  }

  function Ids(ts: seq<Txn>): set<string> {
    set t | t in ts :: t.id
  }

  /** The ids present afterwards are the old ones plus the batch's. */
  lemma {:induction false} InsertOrIgnoreKeys(table: Table, ts: seq<Txn>)
    ensures InsertOrIgnore(table, ts).Keys == table.Keys + Ids(ts)
  {
    if ts != [] {
      var init := ts[..|ts| - 1];
      InsertOrIgnoreKeys(table, init);
      assert ts == init + [ts[|ts| - 1]];
      assert Ids(ts) == Ids(init) + {ts[|ts| - 1].id};
    }
  }

  /** Records already stored are never replaced. */
  lemma {:induction false} InsertOrIgnoreKeepsExisting(table: Table, ts: seq<Txn>, id: string)
    requires id in table
    ensures id in InsertOrIgnore(table, ts) && InsertOrIgnore(table, ts)[id] == table[id]
  {
    if ts != [] {
      InsertOrIgnoreKeepsExisting(table, ts[..|ts| - 1], id);
    }
  }

  /** A new id gets the record of its first occurrence in the batch. */
  lemma {:induction false} InsertOrIgnoreFirstWins(table: Table, ts: seq<Txn>, i: nat)
    requires i < |ts| && ts[i].id !in table
    requires forall j :: 0 <= j < i ==> ts[j].id != ts[i].id
    ensures ts[i].id in InsertOrIgnore(table, ts)
    ensures InsertOrIgnore(table, ts)[ts[i].id] == Normalized(ts[i])
  {
    var init := ts[..|ts| - 1];
    if i == |ts| - 1 {
      InsertOrIgnoreKeys(table, init);
      assert ts[i].id !in Ids(init);
    } else {
      InsertOrIgnoreFirstWins(table, init, i);
    }
  }

  /** A batch whose ids are all present changes nothing. */
  lemma {:induction false} InsertOrIgnorePresent(table: Table, ts: seq<Txn>)
    requires Ids(ts) <= table.Keys
    ensures InsertOrIgnore(table, ts) == table
  {
    if ts != [] {
      var init := ts[..|ts| - 1];
      assert Ids(init) <= Ids(ts);
      InsertOrIgnorePresent(table, init);
      assert ts[|ts| - 1].id in Ids(ts);
    }
  }

  /** Re-ingesting the same batch leaves the table as one ingestion did. */
  lemma InsertOrIgnoreIdempotent(table: Table, ts: seq<Txn>)
    ensures InsertOrIgnore(InsertOrIgnore(table, ts), ts) == InsertOrIgnore(table, ts)
  {
    InsertOrIgnoreKeys(table, ts);
    InsertOrIgnorePresent(InsertOrIgnore(table, ts), ts);
  }

  /** The batch adds at most one record per transaction and removes none. */
  lemma {:induction false} InsertOrIgnoreGrowth(table: Table, ts: seq<Txn>)
    ensures |table| <= |InsertOrIgnore(table, ts)| <= |table| + |ts|
  {
    if ts != [] {
      InsertOrIgnoreGrowth(table, ts[..|ts| - 1]);
    }
  }

  /** The primary key holds after the batch. */
  lemma {:induction false} InsertOrIgnoreKeyed(table: Table, ts: seq<Txn>)
    requires KeyedById(table)
    ensures KeyedById(InsertOrIgnore(table, ts))
  {
    if ts != [] {
      InsertOrIgnoreKeyed(table, ts[..|ts| - 1]);
    }
  }

  // -------------------------------------------------------------------------
  // find and find_by_account: read-only queries

  /** `find`: the record stored under `id`, or none. */
  function Find(table: Table, id: string): (r: Option<Txn>)
    requires KeyedById(table)
    ensures r.Some? <==> id in table
    ensures r.Some? ==> r.value.id == id
  {
    if id in table then Some(table[id]) else None
  }

  /** A transaction just inserted is found under its id, as its row reads
      back. */
  lemma FindWritten(table: Table, ts: seq<Txn>, i: nat)
    requires KeyedById(table)
    requires i < |ts| && ts[i].id !in table
    requires forall j :: 0 <= j < i ==> ts[j].id != ts[i].id
    ensures KeyedById(InsertOrIgnore(table, ts))
    ensures Find(InsertOrIgnore(table, ts), ts[i].id) == FromStoredRow(ToStoredRow(ts[i]))
  {
    InsertOrIgnoreKeyed(table, ts);
    InsertOrIgnoreFirstWins(table, ts, i);
    ReadBackWritten(ts[i]);
  }

  /** `ORDER BY transaction_date DESC, id`: later date first, ties by
      ascending id, comparing ids the way SQLite compares text. The column
      holds ISO text, whose text order is the calendar order
      (`Dates.IsoOrderIsDateOrder`). */
  predicate Precedes(table: Table, a: string, b: string)
    requires a in table && b in table
  {
    var da, db := table[a].transactionDate, table[b].transactionDate;
    (da != db && DateLe(db, da)) || (da == db && LexLe(a, b))
  }

  lemma PrecedesTotal(table: Table, a: string, b: string)
    requires a in table && b in table
    ensures Precedes(table, a, b) || Precedes(table, b, a)
  {
    LexLeTotal(a, b);
  }

  lemma PrecedesAntisymmetric(table: Table, a: string, b: string)
    requires a in table && b in table
    requires Precedes(table, a, b) && Precedes(table, b, a)
    ensures a == b
  {
    if table[a].transactionDate == table[b].transactionDate {
      LexLeAntisymmetric(a, b);
    }
  }

  lemma PrecedesTransitive(table: Table, a: string, b: string, c: string)
    requires a in table && b in table && c in table
    requires Precedes(table, a, b) && Precedes(table, b, c)
    ensures Precedes(table, a, c)
  {
    if table[a].transactionDate == table[b].transactionDate == table[c].transactionDate {
      LexLeTransitive(a, b, c);
    }
  }

  /** `x` is an id of `ids` that precedes all of them. */
  predicate IsFirst(table: Table, ids: set<string>, x: string)
    requires ids <= table.Keys
  {
    x in ids && forall y :: y in ids ==> Precedes(table, x, y)
  }

  /** `a` comes strictly before `b`: it precedes `b` and `b` does not
      precede it. */
  predicate Before(table: Table, a: string, b: string)
    requires a in table && b in table
  {
    Precedes(table, a, b) && !Precedes(table, b, a)
  }

  /** An id is never strictly before itself. */
  lemma BeforeDistinct(table: Table, a: string, b: string)
    requires a in table && b in table && Before(table, a, b)
    ensures a != b
  {
  }

  /** Helper for `FindByAccountOrder`: strict precedence carries over to
      equal ids. */
  lemma BeforeSame(table: Table, a: string, b: string, c: string, d: string)
    requires a in table && b in table && Before(table, a, b)
    requires c == a && d == b
    ensures c in table && d in table && Before(table, c, d)
  {
  }

  /** Every non-empty set of ids has one that precedes all the others. */
  lemma {:induction false} FirstExists(table: Table, ids: set<string>)
    requires ids != {} && ids <= table.Keys
    ensures exists x :: IsFirst(table, ids, x)
  {
    var z :| z in ids;
    var rest := ids - {z};
    if rest == {} {
      assert ids == {z};
      PrecedesTotal(table, z, z);
      assert IsFirst(table, ids, z);
    } else {
      FirstExists(table, rest);
      var x :| IsFirst(table, rest, x);
      PrecedesTotal(table, x, z);
      if Precedes(table, x, z) {
        assert IsFirst(table, ids, x);
      } else {
        forall y | y in ids
          ensures Precedes(table, z, y)
        {
          if y == z {
            PrecedesTotal(table, z, z);
          } else {
            PrecedesTransitive(table, z, x, y);
          }
        }
        assert IsFirst(table, ids, z);
      }
    }
  }

  /** Only one id of a set comes first. */
  lemma FirstUnique(table: Table, ids: set<string>, x: string)
    requires ids <= table.Keys && IsFirst(table, ids, x)
    ensures forall z :: IsFirst(table, ids, z) ==> z == x
  {
    forall z | IsFirst(table, ids, z)
      ensures z == x
    {
      PrecedesAntisymmetric(table, x, z);
    }
  }

  /** Every id of the listing comes strictly before every later one. */
  predicate InQueryOrder(table: Table, r: seq<string>)
    requires forall k :: 0 <= k < |r| ==> r[k] in table
  {
    forall i, j :: 0 <= i < j < |r| ==> Before(table, r[i], r[j])
  }

  /** An id strictly before every id of a listing in query order can be
      listed in front of it. */
  lemma PrependFirst(table: Table, x: string, rest: seq<string>)
    requires x in table && forall k :: 0 <= k < |rest| ==> rest[k] in table
    requires forall k :: 0 <= k < |rest| ==> Before(table, x, rest[k])
    requires InQueryOrder(table, rest)
    ensures forall k :: 0 <= k < |[x] + rest| ==> ([x] + rest)[k] in table
    ensures InQueryOrder(table, [x] + rest)
  {
    var r := [x] + rest;
    forall i, j | 0 <= i < j < |r|
      ensures Before(table, r[i], r[j])
    {
      assert r[j] == rest[j - 1];
      if i > 0 {
        assert r[i] == rest[i - 1];
      }
    }
  }

  /** The first id of a set comes strictly before each of the others. */
  lemma FirstBeforeOthers(table: Table, ids: set<string>, x: string, rest: seq<string>)
    requires ids <= table.Keys && IsFirst(table, ids, x)
    requires forall k :: 0 <= k < |rest| ==> rest[k] in ids - {x}
    ensures forall k :: 0 <= k < |rest| ==> Before(table, x, rest[k])
  {
    forall k | 0 <= k < |rest|
      ensures Before(table, x, rest[k])
    {
      if Precedes(table, rest[k], x) {
        PrecedesAntisymmetric(table, x, rest[k]);
      }
    }
  }

  /** The ids in the query's order: each once, nothing else, and each
      strictly before every later one. */
  function Ordered(table: Table, ids: set<string>): (r: seq<string>)
    requires ids <= table.Keys
    ensures |r| == |ids|
    ensures forall id :: id in r <==> id in ids
    ensures forall k :: 0 <= k < |r| ==> r[k] in table
    ensures InQueryOrder(table, r)
    decreases ids
  {
    if ids == {} then []
    else
      FirstExists(table, ids);
      var x :| IsFirst(table, ids, x);
      FirstUnique(table, ids, x);
      var rest := Ordered(table, ids - {x});
      FirstBeforeOthers(table, ids, x, rest);
      PrependFirst(table, x, rest);
      [x] + rest
  }

  /** The ids of the records that belong to an account. */
  function AccountIds(table: Table, accountId: int): (ids: set<string>)
    ensures ids <= table.Keys
    ensures forall id :: id in ids <==> id in table && table[id].accountId == accountId
  {
    set id | id in table && table[id].accountId == accountId
  }

  /** The records stored under `ids`, in that order. */
  function ReadRows(table: Table, ids: seq<string>): (r: seq<Txn>)
    requires forall i :: 0 <= i < |ids| ==> ids[i] in table
    ensures |r| == |ids|
    ensures forall i :: 0 <= i < |ids| ==> r[i] == table[ids[i]]
  {
    if ids == [] then [] else [table[ids[0]]] + ReadRows(table, ids[1..])
  }

  /** `find_by_account`: the account's records in the query's order, one
      per id. */
  function FindByAccount(table: Table, accountId: int): (r: seq<Txn>)
    requires KeyedById(table)
    ensures |r| == |AccountIds(table, accountId)|
  {
    ReadRows(table, Ordered(table, AccountIds(table, accountId)))
  }

  /** The listed records are exactly those stored for the account. */
  lemma FindByAccountIds(table: Table, accountId: int)
    requires KeyedById(table)
    ensures Ids(FindByAccount(table, accountId)) == AccountIds(table, accountId)
  {
    AccountIdsListed(table, accountId);
    ListedIdsOfAccount(table, accountId);
  }

  lemma AccountIdsListed(table: Table, accountId: int)
    requires KeyedById(table)
    ensures AccountIds(table, accountId) <= Ids(FindByAccount(table, accountId))
  {
    var ids := Ordered(table, AccountIds(table, accountId));
    var r := FindByAccount(table, accountId);
    assert r == ReadRows(table, ids);
    forall id | id in AccountIds(table, accountId)
      ensures id in Ids(r)
    {
      var i :| 0 <= i < |ids| && ids[i] == id;
      assert r[i] in r;
    }
  }

  lemma ListedIdsOfAccount(table: Table, accountId: int)
    requires KeyedById(table)
    ensures Ids(FindByAccount(table, accountId)) <= AccountIds(table, accountId)
  {
    var ids := Ordered(table, AccountIds(table, accountId));
    var r := FindByAccount(table, accountId);
    assert r == ReadRows(table, ids);
    forall id | id in Ids(r)
      ensures id in AccountIds(table, accountId)
    {
      var t :| t in r && t.id == id;
      var i :| 0 <= i < |r| && r[i] == t;
    }
  }

  /** Each listed record belongs to the account and is what `find`
      returns for its id. */
  lemma FindByAccountRecords(table: Table, accountId: int)
    requires KeyedById(table)
    ensures forall t :: t in FindByAccount(table, accountId) ==>
      t.accountId == accountId && Find(table, t.id) == Some(t)
  {
    var ids := Ordered(table, AccountIds(table, accountId));
    var r := FindByAccount(table, accountId);
    assert r == ReadRows(table, ids);
    forall t | t in r
      ensures t.accountId == accountId && Find(table, t.id) == Some(t)
    {
      var i :| 0 <= i < |r| && r[i] == t;
      assert ids[i] in AccountIds(table, accountId);
    }
  }

  /** Newest transaction date first, records of one date by ascending id;
      no id is listed twice. */
  lemma FindByAccountOrder(table: Table, accountId: int, i: nat, j: nat)
    requires KeyedById(table)
    requires i < j < |FindByAccount(table, accountId)|
    ensures FindByAccount(table, accountId)[i].id in table && FindByAccount(table, accountId)[j].id in table
    ensures FindByAccount(table, accountId)[i].id != FindByAccount(table, accountId)[j].id
    ensures Before(table, FindByAccount(table, accountId)[i].id, FindByAccount(table, accountId)[j].id)
  {
    var ids := Ordered(table, AccountIds(table, accountId));
    var r := FindByAccount(table, accountId);
    assert r == ReadRows(table, ids);
    assert Before(table, ids[i], ids[j]);
    assert r[i].id == ids[i] && r[j].id == ids[j];
    BeforeSame(table, ids[i], ids[j], r[i].id, r[j].id);
    BeforeDistinct(table, r[i].id, r[j].id);
  }

  // -------------------------------------------------------------------------
  // The service

  datatype StoreError = DuplicateId

  /** `TransactionService` over its table. */
  class TransactionStore {
    var table: Table

    predicate Valid()
      reads this
    {
      KeyedById(table)
    }

    constructor()
      ensures Valid() && table == map[]
    {
      table := map[];
    }

    /** `create`: a plain INSERT; a present id is a constraint violation
        and the table stays as it was. */
    method Create(t: Txn) returns (r: Result<Txn, StoreError>)
      requires Valid()
      modifies this
      ensures Valid()
      ensures old(t.id in table) ==> r == Err(DuplicateId) && table == old(table)
      ensures old(t.id !in table) ==> r == Ok(t) && table == old(table)[t.id := Normalized(t)]
    {
      if t.id in table {
        return Err(DuplicateId);
      }
      table := table[t.id := Normalized(t)];
      return Ok(t);
    }

    /** `bulk_create`: INSERT OR IGNORE of the whole batch, returning the
        number of rows inserted (the change count of the fresh connection
        the batch runs on). An empty batch returns 0 at once. */
    method BulkCreate(ts: seq<Txn>) returns (count: int)
      requires Valid()
      modifies this
      ensures Valid()
      ensures table == InsertOrIgnore(old(table), ts)
      ensures count == |table| - |old(table)| && 0 <= count <= |ts|
    {
      if |ts| == 0 {
        return 0;
      }
      InsertOrIgnoreKeyed(table, ts);
      InsertOrIgnoreGrowth(table, ts);
      ghost var start := table;
      var i := 0;
      count := 0;
      while i < |ts|
        invariant 0 <= i <= |ts|
        invariant table == InsertOrIgnore(start, ts[..i])
        invariant count == |table| - |start|
      {
        assert ts[..i + 1][..i] == ts[..i];
        var t := ts[i];
        if t.id !in table {
          table := table[t.id := Normalized(t)];
          count := count + 1;
        }
        i := i + 1;
      }
      assert ts[..i] == ts;
    }
  }
}
