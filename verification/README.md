# necker core, modelled in Dafny

necker is a personal-finance tool. It reads bank and card statement
exports (CSV), turns every row into a `Transaction` whose id is the SHA-256
digest of the row's text, stores the transactions in SQLite so that
re-importing a file adds nothing twice, reports them month by month, and
asks an LLM provider to suggest categories for them.

This project models that core:

- **The transaction record** (`Transactions`, `transaction.dfy`). It covers
  `create_with_checksum` and `to_dict`. The id is a digest of the raw row
  text alone. SHA-256 itself is a parameter `hash: string -> Digest`.
- **The five statement adapters** (`Amex`, `Bofa`, `Bofacc`, `Chase`,
  `Discover`).
  - Each has a per-row parser, which says exactly when a row is kept and
    what record it becomes.
  - Each has an `Ingested` function: the transactions of a whole file.
  - Each has an `Ingest` method: the source's loop over the rows, proved
    equal to `Ingested`.
  - A row is a sequence of already-split fields. What the adapters share
    lives in `Rows` and `Text`.
  - Date parsing is in `Dates` and decimal parsing in `Decimals`.
- **The adapter registry** (`Registry`): lookup by name, the list of names,
  and dispatch to an adapter.
- **The transaction service** (`Store`).
  - The table is a map from id to the record as it reads back from its row.
  - `TransactionStore` is a class whose `Create` and `BulkCreate` update
    the table. `BulkCreate` is `INSERT OR IGNORE`, and it returns the
    number of rows added.
  - `find` and `find_by_account` are functions over the table.
    `find_by_account` lists rows newest first, with ties broken by id.
- **The period report** (`Period`). This is `get_period_transactions`: one
  entry per month from a start month to an end month inclusive, keyed
  `YYYY/MM`. The two per-month queries are parameters.
- **The OpenAI provider** (`OpenAi`).
  - The three prompt sections: categories, up to 50 historical examples,
    and the transactions to categorize.
  - The conversion of the structured response into suggestions.
  - The API call is a parameter `complete`.
- **The provider factory** (`Factory`): `get_llm_provider` on the
  configuration values it reads.

The model follows the code, with one exception. The `Transaction` dataclass in
`models/transaction.py:9-46` is out of step with the code that uses it:

- `ingestion/bofacc.py:68` passes `bank_category=` to
  `create_with_checksum`. That function has no such parameter, and its
  `category` parameter has no default. As written, every Bank of America
  card data row raises `TypeError`. `ingestion/bofacc.py:114` catches it,
  so `ingest` returns no transactions for every file with the right header.
- `services/transactions.py:45` and `services/transactions.py:88` read
  `data_import_id`, which the dataclass does not declare. The import
  command (`cli/transactions.py:48-57`) never sets it. As written, `create`
  and `bulk_create` raise `AttributeError` on that path.
- `services/transactions.py:181` passes `data_import_id=` to the dataclass
  constructor. As written, `find` on a stored id, and `find_by_account` on
  an account with records, raise `TypeError`.
- `llm/providers/openai.py:164` and `llm/providers/openai.py:169` read
  `category_id`, which the dataclass also does not declare.

Here the model follows what the callers and the tests evidently intend.
The tests rely on that intent:

- `tests/ingestion/test_bofacc.py:31` expects a Bank of America card record
  with no category.
- `tests/services/test_transactions.py:21-25` builds a record with
  `bank_category=None` and then sets `data_import_id`.
- `tests/services/test_transactions.py:194` reads `category_id` back. `find`
  never reads that column: the SELECTs at `services/transactions.py:130` and
  `:155` leave it out, and `Store.Normalized` sets `categoryId` to none. So that
  assertion fails under the code and under the model alike.

So the record `Txn` carries `categoryId` and `dataImportId`, which
`CreateWithChecksum` leaves unset. `bank_category` is treated as the
`category` field, so a Bank of America card record has no category.

The other differences, where the model follows the code:

- `bulk_create` returns `conn.total_changes`. That counts changes on the
  connection, and `db_manager.connect()` opens a fresh connection for each
  call. So the count is the number of rows this batch inserted, and that
  is how `BulkCreate` states it.
- `bofa` removes only one leading `-` from the amount. An amount text
  `--5` therefore gives a negative amount. `Bofa.DoubleMinusGivesNegativeAmount`
  shows this.
- The period report is described as ordered by month. The model returns it
  as a map from key to entry. Insertion order is listed under "Left out".

## Model

| member | source | states |
|---|---|---|
| Transactions.CreateWithChecksum | models/transaction.py:21-46 | the id is `hash(raw_data)`, 64 lower-case hex digits; every other field is the argument given; category id and import id are unset |
| Transactions.IdDependsOnlyOnRawData | models/transaction.py:35 | two records built from the same raw text have the same id whatever their other fields |
| Transactions.NonEmpty | models/transaction.py:60-64 | Python truthiness of the metadata dictionary: `None` exactly when it is absent or empty, otherwise unchanged |
| Transactions.ToDictReadsBack | models/transaction.py:48-65 | `to_dict` keeps id, account, description, category and amount; both dates read back from their ISO text; the type name parses back to the type; `raw_data` is None; metadata is None exactly when absent or empty |
| Transactions.ParseTypeName | models/transaction.py:18 | each of `income`, `expense`, `transfer` reads back as its type |
| Dates.ParseFormatMonthDayYear | ingestion/amex.py:69 | every valid date written `MM/DD/YYYY` parses back with `%m/%d/%Y` to the same date |
| Dates.DateFieldWidths | ingestion/amex.py:69 | zero-padded year, month and day have four, two and two digits and denote the field's value |
| Dates.ParseIso | services/transactions.py:174-175 | the model reads only the `YYYY-MM-DD` form, so every text it accepts is ten characters long |
| Dates.ParseIsoFormat | services/transactions.py:174-175 | the ISO text of a date is ten characters long and reads back as that date |
| Dates.IsoOrderIsDateOrder | services/transactions.py:135 | text order of stored ISO dates is calendar order, in both directions |
| Decimals.ParseUnsigned | ingestion/amex.py:72 | an unsigned decimal literal denotes a non-negative value |
| Decimals.Abs | ingestion/amex.py:73 | `abs` is non-negative and equal to the value or its negation |
| Decimals.NegativeNeedsMinus | ingestion/bofa.py:61-66 | only a text containing `-` can parse to a negative amount |
| Decimals.ParseNaturalText | ingestion/amex.py:72 | `Decimal(str(n))` is `n` |
| Decimals.ParseNegatedNaturalText | ingestion/bofa.py:62 | a leading minus negates the value read |
| Rows.NoneIfEmpty | ingestion/amex.py:107 | `s if s else None`: None exactly for the empty text |
| Rows.KeepParsedAppend | ingestion/amex.py:38-115 | the transactions of consecutive rows are those of the first part followed by those of the second |
| Rows.KeepParsedMember | ingestion/amex.py:38-115 | a transaction is produced exactly when some row parses to it |
| Rows.KeepParsedLength | ingestion/amex.py:41-43 | at most one transaction per row, and one for each row when all rows parse |
| Rows.KeepParsedFrom | ingestion/amex.py:38 | over the data rows from a given index: membership is exactly "some row from there parsed to it" |
| Rows.KeepParsedOrigin | ingestion/amex.py:101-115 | every produced transaction is the parse of a row at or after the start index |
| Rows.KeepParsedHit | ingestion/amex.py:115 | every row at or after the start index that parses contributes its transaction |
| Rows.KeepParsedStep | ingestion/amex.py:38-119 | one loop turn appends the row's transaction exactly when the row parses |
| Amex.TypeOf | ingestion/amex.py:94-99 | transfer iff the value is negative and the upper-cased description contains `AUTOPAY PAYMENT`; income iff negative otherwise; expense iff non-negative |
| Amex.MetadataOf | ingestion/amex.py:76-90 | each side field is a key iff it is non-empty; `appears_as` only when it also differs from the description; no other keys; each key holds its own column's field |
| Amex.SideFields | ingestion/amex.py:52-58 | seven fields: columns 3 to 8 stripped of spaces and double quotes, then column 9 also stripped of single quotes; a missing column reads as empty |
| Amex.ParseRow | ingestion/amex.py:41-113 | fewer than three fields is malformed; blank date or amount is skipped; a row is kept iff its date and amount parse; the record's id, date, description, absolute amount, type, category and metadata |
| Amex.Ingest | ingestion/amex.py:12-122 | the loop returns exactly `Ingested`: nothing for an empty file or bad header, else the transactions of the data rows that parse, in order |
| Amex.RejectedHeaderGivesNothing | ingestion/amex.py:26-34 | an empty file, a header shorter than 11 fields or not starting with `Date` yields no transactions |
| Amex.IngestedFromRows | ingestion/amex.py:101-115 | every ingested record comes from a data row, has the row text's digest as id, no post date and a non-negative amount |
| Amex.ParsedRowsIngested | ingestion/amex.py:115 | under an accepted header every data row that parses is ingested |
| Amex.IngestedAppend | ingestion/amex.py:38 | appending rows to a file appends their transactions, in order, when the header is accepted |
| Bofa.FirstHeader | ingestion/bofa.py:27-33 | the index of the first `Date,Description` row with at least four fields, or the file length |
| Bofa.SkipToHeader | ingestion/bofa.py:26-33 | the header loop stops at the first header row |
| Bofa.TypeOf | ingestion/bofa.py:69-83 | transfer iff the description starts with a card-payment prefix; otherwise expense iff outgoing, income iff not |
| Bofa.ParseRow | ingestion/bofa.py:39-98 | fewer than four fields is malformed; blank date or amount is skipped; kept iff date and amount parse; amount without one leading `-` and commas; running balance always kept as metadata; no post date or category |
| Bofa.Ingest | ingestion/bofa.py:12-107 | the two loops return exactly `Ingested`: the transactions of the rows after the first header, none without a header |
| Bofa.SummaryIgnored | ingestion/bofa.py:17-33 | prepending non-header summary rows changes nothing ingested |
| Bofa.FirstHeaderAt | ingestion/bofa.py:27-33 | a header row preceded only by non-header rows is the first header |
| Bofa.NoHeaderGivesNothing | ingestion/bofa.py:27-36 | a file with no header row yields no transactions |
| Bofa.IngestedFromRows | ingestion/bofa.py:88-100 | every ingested record comes from a row after the header, has its digest as id, no post date and no category |
| Bofa.ParsedRowsIngested | ingestion/bofa.py:100 | every row after the header that parses is ingested |
| Bofa.AmountNonNegative | ingestion/bofa.py:61-66 | with no `-` after the first character the amount is non-negative |
| Bofa.DoubleMinusGivesNegativeAmount | ingestion/bofa.py:61-63 | amount text `--5` gives amount -5 and counts as outgoing |
| Bofacc.TypeOf | ingestion/bofacc.py:55-60 | transfer iff the value is positive, expense otherwise |
| Bofacc.RowToTransaction | ingestion/bofacc.py:14-72 | blank date or amount is an error; converted iff date and amount parse; digest id, no post date or category, absolute amount, type by `TypeOf` (transfer iff positive, expense otherwise), payee as description, reference number and address metadata |
| Bofacc.Ingest | ingestion/bofacc.py:75-119 | the loop returns exactly `Ingested`: an error for an empty file or a wrong header, else the transactions of the rows with five fields that convert |
| Bofacc.AcceptedIffExactHeader | ingestion/bofacc.py:90-98 | the file is accepted iff its first row is exactly the five expected headers; `Empty CSV file` and header-mismatch errors otherwise |
| Bofacc.IngestedFromRows | ingestion/bofacc.py:104-113 | every ingested record comes from a data row, has its digest as id, no post date and a non-negative amount |
| Bofacc.ParsedRowsIngested | ingestion/bofacc.py:112-113 | under the expected header the file is accepted and every converting data row is ingested |
| Chase.TypeOf | ingestion/chase.py:75-80 | transfer iff the type column is `Payment` or the upper-cased description contains `AUTOMATIC PAYMENT`; otherwise expense iff negative, income iff not |
| Chase.MetadataOf | ingestion/chase.py:69-71 | `{memo}` iff the memo is non-empty, otherwise no metadata |
| Chase.ParseRow | ingestion/chase.py:39-94 | fewer than six fields is malformed; blank date or amount is skipped; kept iff both dates and the amount parse; the record's fields |
| Chase.Ingest | ingestion/chase.py:12-103 | the loop returns exactly `Ingested` |
| Chase.RejectedHeaderGivesNothing | ingestion/chase.py:24-32 | an empty file or a header shorter than six fields or not starting with `Transaction Date` yields nothing |
| Chase.IngestedFromRows | ingestion/chase.py:82-96 | every ingested record comes from a data row, has its digest as id, a post date and a non-negative amount |
| Chase.ParsedRowsIngested | ingestion/chase.py:96 | under an accepted header every data row that parses is ingested |
| Discover.TypeOf | ingestion/discover.py:67-75 | transfer iff the category is `Payments and Credits` and the description starts with `DIRECTPAY FULL BALANCE`; otherwise income iff negative, expense iff not |
| Discover.ParseRow | ingestion/discover.py:39-87 | fewer than five fields is malformed; blank date or amount is skipped; kept iff both dates and the amount parse; no metadata; empty category is None |
| Discover.Ingest | ingestion/discover.py:12-96 | the loop returns exactly `Ingested` |
| Discover.RejectedHeaderGivesNothing | ingestion/discover.py:24-32 | an empty file or a header shorter than five fields or not starting with `Trans. Date` yields nothing |
| Discover.IngestedFromRows | ingestion/discover.py:77-89 | every ingested record comes from a data row, has its digest as id, a post date, no metadata and a non-negative amount |
| Discover.ParsedRowsIngested | ingestion/discover.py:89 | under an accepted header every data row that parses is ingested |
| Registry.Names | ingestion/__init__.py:25 | the keys of the entries, position by position |
| Registry.Lookup | ingestion/__init__.py:18-20 | a name is found iff it is a key, and then with its registered adapter |
| Registry.GetIngestionModule | ingestion/__init__.py:16-20 | accepted iff the name is registered, returning its adapter; otherwise `Unknown ingestion module: <name>` |
| Registry.GetAvailableModules | ingestion/__init__.py:23-25 | the registered names in insertion order |
| Registry.EveryAdapterRegistered | ingestion/__init__.py:7-13 | each adapter is selected by its own name; the names are `amex`, `bofa`, `bofacc`, `chase`, `discover` |
| Registry.AvailableModulesResolve | ingestion/__init__.py:16-25 | every listed name resolves; different names are different and select different adapters |
| Registry.CaseSensitive | ingestion/__init__.py:18-19 | `AMEX` is an unknown name |
| Registry.IngestWith | ingestion/__init__.py:20 | each adapter's result is that adapter's own `Ingested`: the other four always succeed, and only the Bank of America card adapter can fail, exactly as its own ingest does |
| Registry.IngestByName | ingestion/__init__.py:7-20 | looking up each of the five names and running the adapter found gives that adapter's own result |
| Store.StoredRowFacts | services/transactions.py:36-63 | the stored row keeps id, account and import; dates read back from ISO text; the type name reads back; metadata absent exactly when empty |
| Store.FromStoredRow | services/transactions.py:169-182 | a parsed row keeps the row's id and account |
| Store.ReadBackWritten | services/transactions.py:169-182 | reading back a written row gives the record back (empty metadata as None) |
| Store.InsertOrIgnoreKeys | services/transactions.py:103-112 | afterwards the ids are the old ids plus the batch's |
| Store.InsertOrIgnoreKeepsExisting | services/transactions.py:105 | a stored record is never replaced |
| Store.InsertOrIgnoreFirstWins | services/transactions.py:103-112 | a new id gets the record of its first occurrence in the batch |
| Store.InsertOrIgnorePresent | services/transactions.py:105 | a batch whose ids are all present changes nothing |
| Store.InsertOrIgnoreIdempotent | services/transactions.py:103-112 | importing the same batch twice leaves the table as importing it once |
| Store.InsertOrIgnoreGrowth | services/transactions.py:103-116 | the table grows by at most the batch size and never shrinks |
| Store.InsertOrIgnoreKeyed | services/transactions.py:103-112 | every record stays under its own id |
| Store.Find | services/transactions.py:143-167 | a record is found iff its id is stored, and it has that id |
| Store.FindWritten | services/transactions.py:143-167 | a record just inserted is found under its id as its row reads back |
| Store.PrecedesTotal | services/transactions.py:135 | any two records are ordered one way or the other |
| Store.PrecedesAntisymmetric | services/transactions.py:135 | records ordered both ways are the same record |
| Store.PrecedesTransitive | services/transactions.py:135 | the order is transitive |
| Store.BeforeDistinct | services/transactions.py:135 | no record is strictly before itself |
| Store.FirstExists | services/transactions.py:135 | every non-empty set of ids has a first one in query order |
| Store.FirstUnique | services/transactions.py:135 | that first id is unique |
| Store.PrependFirst | services/transactions.py:135 | putting a strictly earlier id in front keeps a listing in query order |
| Store.FirstBeforeOthers | services/transactions.py:135 | the first id is strictly before every other |
| Store.Ordered | services/transactions.py:130-136 | the ids listed once each, nothing else, in query order |
| Store.AccountIds | services/transactions.py:134 | exactly the ids of the account's records |
| Store.ReadRows | services/transactions.py:138-141 | the records stored under the listed ids, in order |
| Store.FindByAccount | services/transactions.py:118-141 | one record per id of the account |
| Store.FindByAccountIds | services/transactions.py:118-141 | the listed records are exactly those of the account |
| Store.AccountIdsListed | services/transactions.py:134 | every record of the account is listed |
| Store.ListedIdsOfAccount | services/transactions.py:134 | only records of the account are listed |
| Store.FindByAccountRecords | services/transactions.py:138-141 | each listed record belongs to the account and is what `find` returns for its id |
| Store.FindByAccountOrder | services/transactions.py:135 | an earlier record has a later date, or the same date and a smaller id |
| Store.TransactionStore.constructor | services/transactions.py:13-14 | the table starts empty |
| Store.TransactionStore.Create | services/transactions.py:21-65 | a new id is inserted and the record returned; a present id is an error and the table is unchanged |
| Store.TransactionStore.BulkCreate | services/transactions.py:67-116 | the table becomes `INSERT OR IGNORE` of the batch; the count is the number of rows added, between 0 and the batch size |
| Period.MonthKeyInjective | tools/transactions.py:52 | different months of years below 10000 have different `YYYY/MM` keys |
| Period.GetPeriodTransactions | tools/transactions.py:8-80 | the loop returns exactly `PeriodTransactions` |
| Period.MonthStored | tools/transactions.py:69-78 | one loop turn stores the current month's entry under its key and moves to the next month number |
| Period.MonthAtIndex | tools/transactions.py:75-78 | the month number of a (year, month) gives that month's key and entry, so the December rollover is the successor |
| Period.MonthOrder | tools/transactions.py:50 | tuple order on (year, month) is month-number order |
| Period.KeyAtInjective | tools/transactions.py:52 | different month numbers below year 10000 have different keys |
| Period.DateKeysDistinct | tools/transactions.py:52 | the months of a range of dates have distinct keys |
| Period.MonthsStep | tools/transactions.py:69-72 | storing the next month extends the report by that month |
| Period.MonthsKeys | tools/transactions.py:69 | each month of the range has its key in the report |
| Period.MonthsOrigin | tools/transactions.py:69 | each key of the report is a month of the range |
| Period.MonthsEntry | tools/transactions.py:69-72 | with distinct keys each month's key holds that month's entry |
| Period.MonthsSize | tools/transactions.py:50-72 | with distinct keys the report has one entry per month |
| Period.PeriodKeys | tools/transactions.py:44-52 | a month's key is in the report iff the month lies between the start and end months inclusive, days ignored |
| Period.PeriodEntry | tools/transactions.py:55-72 | each month of the range holds the cash basis fetched with amortized excluded and the accrual basis, both with the same category filter |
| Period.PeriodSize | tools/transactions.py:44-50 | `12 * (end year - start year) + (end month - start month) + 1` entries across year boundaries; none when the start is after the end |
| OpenAi.IntToString | llm/providers/openai.py:148 | `str(i)`: the decimal digits of the magnitude, after a `-` for a negative number; they read back as that number; one line |
| OpenAi.OptionalIntText | llm/providers/openai.py:169 | `None` for a missing id, otherwise the id's `str`; one line |
| OpenAi.FormatCategories | llm/providers/openai.py:140-150 | the loop returns the sentinel for no categories, else the category lines joined by line breaks |
| OpenAi.CategoryLineParts | llm/providers/openai.py:147-148 | a line starts `- ID <id>: <name>` and ends ` - <description>` exactly when the description is non-empty |
| OpenAi.CategoriesTextLines | llm/providers/openai.py:145-150 | with no line break inside names and descriptions the text has one line per category, in order |
| OpenAi.LastWithId | llm/providers/openai.py:160 | the last category with an id, or none |
| OpenAi.NameByIdLast | llm/providers/openai.py:160 | an id is in the lookup iff some category has it, and then it names the last such category |
| OpenAi.CategoryNameOf | llm/providers/openai.py:164 | `Unknown` for an uncategorized example or an unknown id, else the last matching category's name |
| OpenAi.ShownExamples | llm/providers/openai.py:163 | at most 50 examples are shown, all of them when there are fewer |
| OpenAi.ExampleLinesStep | llm/providers/openai.py:163-170 | one loop turn appends the next example's line |
| OpenAi.FormatHistoricalTransactions | llm/providers/openai.py:152-172 | the loop returns the sentinel for no examples, else the first 50 example lines joined by line breaks |
| OpenAi.ExamplesTextLines | llm/providers/openai.py:156-172 | with one-line fields the text has one line per shown example, at most 50, in order |
| OpenAi.ExampleLinesOneLine | llm/providers/openai.py:165-170 | with one-line fields no example line holds a line break |
| OpenAi.ExampleLineOneLine | llm/providers/openai.py:165-170 | an example line of one-line fields is one line |
| OpenAi.LookupOneLine | llm/providers/openai.py:160-164 | the category name shown is one line when no category name holds a line break |
| OpenAi.TypeNameOneLine | llm/providers/openai.py:168 | a type name is one line |
| OpenAi.OneLineAppend | llm/providers/openai.py:165-170 | joining one-line pieces gives one line |
| OpenAi.FormatTransactions | llm/providers/openai.py:174-185 | the loop returns the transaction lines joined by line breaks |
| OpenAi.TxnLineOneLine | llm/providers/openai.py:178-183 | a transaction line of one-line fields is one line |
| OpenAi.TransactionsTextLines | llm/providers/openai.py:174-185 | empty text for no transactions, else one line per transaction, in order |
| OpenAi.Suggestions | llm/providers/openai.py:113-127 | a null response gives none; otherwise one suggestion per categorization, in order, copying ids and reasoning with no confidence |
| OpenAi.CategorizeTransactions | llm/providers/openai.py:44-134 | no transactions gives no suggestions; otherwise the suggestions of the response to the three formatted sections |
| Factory.GetLlmProvider | llm/factory.py:12-48 | none iff disabled or no provider named; OpenAI iff enabled, named `openai` and a non-empty key, carrying key and model; the two error messages |
| Factory.ErrorCases | llm/factory.py:31-48 | an error happens iff enabled, a provider is named, and it is not `openai` or has no key |
| Factory.DisabledIgnoresRest | llm/factory.py:25-27 | a disabled configuration gives no provider whatever the other settings |

## Left out

- CSV tokenisation (quoting, embedded newlines) is not modelled. A file is a sequence of rows that are already split into fields, and the raw text of a row is `",".join(row)` of those fields.
- SHA-256 is the parameter `hash`, constrained only to return 64 lower-case hex digits. Every property holds for any such function.
- `Decimal` is modelled as exact `real` values of plain decimal literals: optional surrounding whitespace, an optional sign, digits and an optional fraction. Exponents, `NaN`, `Infinity` and underscores are not accepted, and the model skips a row whose amount uses one of them. The source differs there: `Decimal` reads `1e3`, `Infinity` and `1_000` without raising, so the source keeps those rows. A `NaN` amount raises only when it is compared with zero, so the source skips it in amex.py and bofacc.py. It keeps it in bofa.py, which never compares the amount. It also keeps it in chase.py and discover.py when the transfer rule decides the type before the comparison. Only texts `Decimal` itself rejects are skipped by both, through the adapters' exception handlers.
- `float(self.amount)` in `to_dict` is kept exact. `str(Decimal)` in the prompt lines is the parameter `showAmount`.
- `strptime("%m/%d/%Y")` is modelled with one- or two-digit month and day fields and a four-digit year. Space-padded fields and other leniencies of `strptime` are not accepted.
- `str.upper()` is modelled on ASCII letters only. Unicode case mapping is not modelled.
- Logging is not modelled. Every skipped row is an `Err` outcome with the reason the source logs.
- `json.dumps` and `json.loads` of the metadata are not modelled. The stored row keeps the map and reads it back unchanged.
- SQLite foreign keys, triggers and error types are not modelled. `Create` reports only the duplicate-id case; an unknown account is not checked.
- `Store.TransactionStore.BulkCreate`: the count is the number of rows the batch inserted. This holds because `db/manager.py` opens a new connection for every `connect()` call. db/manager.py is not part of this model.
- `get_transactions_by_month` and `get_accrued_transactions_by_month` are not part of this model. The period report receives them as the parameters `byMonth` and `accrued`.
- The insertion order of the period report's dictionary is not modelled. The report is a map. Its keys are the months of the range, and `GetPeriodTransactions` builds it month by month in increasing order.
- The OpenAI client, the prompt template loader, the choice of model, temperature and token limit, and the re-raising of API exceptions are not modelled. The request is the parameter `complete` from the three prompt sections to the parsed response, where `None` stands for a null parsed response.
- The OpenAI provider's constructor only stores its key and model. `Factory.GetLlmProvider` returns them in `OpenAiProvider`.
- The configuration attributes `llm_enabled`, `llm_provider`, `llm_openai_api_key` and `llm_openai_model` are read by name. An attribute that is missing is modelled as `None`, like one set to `None`.
- Dates.ParseIso: `date.fromisoformat` in Python 3.11 and later also reads the basic form `YYYYMMDD` and week dates such as `2024-W03-1`. The model reads only `YYYY-MM-DD`. That is the only form the store writes, with `isoformat()`.
- Dates are the values `datetime.date` accepts, years 1 to 9999. Keys such as `YYYY/MM` are proved distinct only within that range.
