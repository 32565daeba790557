/** The canonical transaction record, its content-hash identity and the
    dictionary form it takes for storage. */
module Transactions {
  import opened Wrappers
  import opened Text
  import opened Dates

  /** The three values the `type` field takes; the sign of a transaction
      lives here, never in `amount`. */
  datatype TxnType = Income | Expense | Transfer

  function TypeName(k: TxnType): string {
    match k
    case Income => "income"
    case Expense => "expense"
    case Transfer => "transfer"
  }

  function ParseTxnType(s: string): Option<TxnType> {
    if s == "income" then Some(Income)
    else if s == "expense" then Some(Expense)
    else if s == "transfer" then Some(Transfer)
    else None
  }

  lemma ParseTypeName(k: TxnType)
    ensures ParseTxnType(TypeName(k)) == Some(k)
  {
  }

  predicate IsHexDigest(s: string) {
    |s| == 64 && forall i :: 0 <= i < |s| ==> IsDigit(s[i]) || 'a' <= s[i] <= 'f'
  }

  /** What `hashlib.sha256(...).hexdigest()` returns: 64 lower-case hex digits.
      The hash itself is a parameter of every operation that needs it, so
      nothing here depends on which function it is. */
  type Digest = s: string | IsHexDigest(s)
    witness Zeros(64)

  /** The metadata keys the adapters write; `KeyName` is the JSON key. */
  datatype MetaKey =
    | ExtendedDetails | AppearsAs | Address | CityState | ZipCode | Country
    | Reference | RunningBalance | ReferenceNumber | Memo

  function KeyName(k: MetaKey): string {
    match k
    case ExtendedDetails => "extended_details"
    case AppearsAs => "appears_as"
    case Address => "address"
    case CityState => "city_state"
    case ZipCode => "zip_code"
    case Country => "country"
    case Reference => "reference"
    case RunningBalance => "running_balance"
    case ReferenceNumber => "reference_number"
    case Memo => "memo"
  }

  type Metadata = map<MetaKey, string>

  /** One transaction. `categoryId` and `dataImportId` are read by the
      storage service and the category-suggestion prompt; the checksum
      constructor leaves them unset. */
  datatype Txn = Txn(
    id: string,
    accountId: int,
    transactionDate: Date,
    postDate: Option<Date>,
    description: string,
    category: Option<string>,
    amount: real,
    txnType: TxnType,
    additionalMetadata: Option<Metadata>,
    categoryId: Option<int>,
    dataImportId: Option<int>)

  /** `Transaction.create_with_checksum`: the id is the digest of the raw
      row text and every other field is the argument given for it. */
  function CreateWithChecksum(
    hash: string -> Digest,
    rawData: string,
    accountId: int,
    transactionDate: Date,
    postDate: Option<Date>,
    description: string,
    category: Option<string>,
    amount: real,
    txnType: TxnType,
    additionalMetadata: Option<Metadata>): (t: Txn)
    ensures t.id == hash(rawData) && IsHexDigest(t.id)
    ensures t.accountId == accountId && t.transactionDate == transactionDate
    ensures t.postDate == postDate && t.description == description
    ensures t.category == category && t.amount == amount && t.txnType == txnType
    ensures t.additionalMetadata == additionalMetadata
    ensures t.categoryId == None && t.dataImportId == None
  {
    Txn(hash(rawData), accountId, transactionDate, postDate, description, category,
        amount, txnType, additionalMetadata, None, None)
  }

  /** The id is a function of the raw text alone: two records built from
      the same text get the same id whatever their other fields. */
  lemma IdDependsOnlyOnRawData(
    hash: string -> Digest, rawData: string,
    a1: int, d1: Date, p1: Option<Date>, s1: string, c1: Option<string>, x1: real, k1: TxnType, m1: Option<Metadata>,
    a2: int, d2: Date, p2: Option<Date>, s2: string, c2: Option<string>, x2: real, k2: TxnType, m2: Option<Metadata>)
    ensures CreateWithChecksum(hash, rawData, a1, d1, p1, s1, c1, x1, k1, m1).id
         == CreateWithChecksum(hash, rawData, a2, d2, p2, s2, c2, x2, k2, m2).id
  {
  }

  /** Python truthiness of an optional dictionary: `None` and `{}` are falsy. */
  function NonEmpty(m: Option<Metadata>): (r: Option<Metadata>)
    ensures r.None? <==> (m.None? || m.value == map[])
    ensures r.Some? ==> r == m
  {
    if m.Some? && m.value != map[] then m else None
  }

  /** The dictionary `Transaction.to_dict` builds. `amount` stays exact
      (the source converts it to a float). */
  datatype TxnDict = TxnDict(
    id: string,
    accountId: int,
    transactionDate: string,
    postDate: Option<string>,
    description: string,
    category: Option<string>,
    amount: real,
    transactionType: string,
    rawData: Option<string>,
    additionalMetadata: Option<Metadata>)

  /** `Transaction.to_dict`: dates as ISO text, the type as its name, no
      raw data, and an empty metadata map as no metadata. */
  function ToDict(t: Txn): TxnDict {
    TxnDict(
      t.id, t.accountId, IsoFormat(t.transactionDate),
      if t.postDate.Some? then Some(IsoFormat(t.postDate.value)) else None,
      t.description, t.category, t.amount, TypeName(t.txnType), None,
      NonEmpty(t.additionalMetadata))
  }

  /** The dictionary keeps what it is given: its dates read back as the
      same dates, an absent post date stays absent, its type text reads
      back as the type, `raw_data` is always empty, and metadata is kept
      unless it is empty. */
  lemma ToDictReadsBack(t: Txn)
    ensures ToDict(t).id == t.id && ToDict(t).accountId == t.accountId
    ensures ParseIso(ToDict(t).transactionDate) == Some(t.transactionDate)
    ensures ToDict(t).postDate.None? <==> t.postDate.None?
    ensures t.postDate.Some? ==> ParseIso(ToDict(t).postDate.value) == t.postDate
    ensures ToDict(t).description == t.description && ToDict(t).category == t.category
    ensures ToDict(t).amount == t.amount
    ensures ParseTxnType(ToDict(t).transactionType) == Some(t.txnType)
    ensures ToDict(t).rawData == None
    ensures ToDict(t).additionalMetadata.None? <==> (t.additionalMetadata.None? || t.additionalMetadata.value == map[])
    ensures ToDict(t).additionalMetadata.Some? ==> ToDict(t).additionalMetadata == t.additionalMetadata
  {
    ParseIsoFormat(t.transactionDate);
    if t.postDate.Some? {
      ParseIsoFormat(t.postDate.value);
    }
    ParseTypeName(t.txnType);
  }
}
