/** The period report: for every month from a start month to an end month
    inclusive, the month's cash-basis transactions (amortized ones left out)
    and its accrual-basis transactions, keyed by `YYYY/MM`. The two
    per-month queries belong to the transaction service and are parameters
    here. */
module Period {
  import opened Wrappers
  import opened Text
  import opened Dates
  import opened Transactions

  /** What one month of the report holds. */
  datatype MonthEntry = MonthEntry(cashBasis: seq<Txn>, accrualBasis: seq<Txn>)

  /** `get_transactions_by_month(year, month, exclude_amortized, category_ids)` */
  type ByMonthFetcher = (int, int, bool, Option<seq<int>>) -> seq<Txn>

  /** `get_accrued_transactions_by_month(year, month, category_ids)` */
  type AccruedFetcher = (int, int, Option<seq<int>>) -> seq<Txn>

  /** `f"{year:04d}/{month:02d}"` */
  function MonthKey(year: nat, month: nat): string {
    PadNat(year, 4) + "/" + PadNat(month, 2)
  }

  /** Different months of the calendar's range have different keys. */
  lemma MonthKeyInjective(y: nat, m: nat, z: nat, n: nat)
    requires y < 10000 && z < 10000 && m < 100 && n < 100
    requires MonthKey(y, m) == MonthKey(z, n)
    ensures y == z && m == n
  {
    assert Pow10(2) == 100 && Pow10(4) == 10000;
    PadNatDigits(y, 4);
    PadNatDigits(m, 2);
    PadNatDigits(z, 4);
    PadNatDigits(n, 2);
    var k := MonthKey(y, m);
    assert k[..4] == PadNat(y, 4) && k[5..] == PadNat(m, 2);
    assert MonthKey(z, n)[..4] == PadNat(z, 4) && MonthKey(z, n)[5..] == PadNat(n, 2);
  }

  /** Months numbered consecutively: January of year 0 is month 0. */
  function MonthIndex(year: int, month: int): int {
    year * 12 + (month - 1)
  }

  /** The key of the month numbered `k`. */
  function KeyAt(k: nat): string {
    MonthKey(k / 12, k % 12 + 1)
  }

  /** The entry the loop builds for the month numbered `k`. */
  function EntryAt(k: nat, byMonth: ByMonthFetcher, accrued: AccruedFetcher, categoryIds: Option<seq<int>>)
    : MonthEntry
  {
    MonthEntry(byMonth(k / 12, k % 12 + 1, true, categoryIds), accrued(k / 12, k % 12 + 1, categoryIds))
  }

  /** The entries of all months, as a function value. */
  function Entries(byMonth: ByMonthFetcher, accrued: AccruedFetcher, categoryIds: Option<seq<int>>)
    : nat -> MonthEntry
  {
    (k: nat) => EntryAt(k, byMonth, accrued, categoryIds)
  }

  /** A dictionary filled in month order: the months numbered `s` to
      `s + n - 1`, each stored under `key(k)` with value `entry(k)`. */
  function Months(s: nat, n: nat, key: nat -> string, entry: nat -> MonthEntry): map<string, MonthEntry> {
    if n == 0 then map[]
    else Months(s, n - 1, key, entry)[key(s + n - 1) := entry(s + n - 1)]
  }

  /** The number of months from the start month to the end month inclusive;
      none when the start month is after the end month. */
  function MonthCount(start: Date, end: Date): nat {
    if MonthIndex(start.year, start.month) <= MonthIndex(end.year, end.month)
    then MonthIndex(end.year, end.month) - MonthIndex(start.year, start.month) + 1
    else 0
  }

  /** The report `get_period_transactions` returns. Only the year and month
      of the two dates matter. */
  function PeriodTransactions(start: Date, end: Date, byMonth: ByMonthFetcher, accrued: AccruedFetcher,
                              categoryIds: Option<seq<int>>): map<string, MonthEntry>
  {
    Months(MonthIndex(start.year, start.month), MonthCount(start, end), KeyAt, Entries(byMonth, accrued, categoryIds))
  }

  /** `get_period_transactions`: walks the months from the start month to
      the end month, rolling December over to January of the next year. */
  method GetPeriodTransactions(start: Date, end: Date, byMonth: ByMonthFetcher, accrued: AccruedFetcher,
                               categoryIds: Option<seq<int>>)
    returns (result: map<string, MonthEntry>)
    ensures result == PeriodTransactions(start, end, byMonth, accrued, categoryIds)
  {
    result := map[];
    var currentYear, currentMonth := start.year, start.month;
    var endYear, endMonth := end.year, end.month;
    ghost var s: nat := MonthIndex(start.year, start.month);
    ghost var i: nat := 0;
    while currentYear < endYear || (currentYear == endYear && currentMonth <= endMonth)
      invariant 1 <= currentMonth <= 12 && currentYear >= start.year
      invariant MonthIndex(currentYear, currentMonth) == s + i
      invariant i == 0 || MonthIndex(currentYear, currentMonth) <= MonthIndex(endYear, endMonth) + 1
      invariant result == Months(s, i, KeyAt, Entries(byMonth, accrued, categoryIds))
      decreases MonthIndex(endYear, endMonth) + 1 - MonthIndex(currentYear, currentMonth)
    {
      var monthKey := MonthKey(currentYear, currentMonth);
      var cashBasis := byMonth(currentYear, currentMonth, true, categoryIds);
      var accrualBasis := accrued(currentYear, currentMonth, categoryIds);
      ghost var filledMonths := i;
      i := i + 1;
      MonthStored(s, filledMonths, i, currentYear, currentMonth, byMonth, accrued, categoryIds, result);
      result := result[monthKey := MonthEntry(cashBasis, accrualBasis)];
      currentMonth := currentMonth + 1;
      if currentMonth > 12 {
        currentMonth := 1;
        currentYear := currentYear + 1;
      }
    }
    assert i == MonthCount(start, end);
  }

  /** One turn of the loop: storing the current month's entry under its key
      extends the months filled so far by that month. */
  lemma MonthStored(s: nat, i: nat, j: nat, year: nat, month: nat, byMonth: ByMonthFetcher, accrued: AccruedFetcher,
                    categoryIds: Option<seq<int>>, filled: map<string, MonthEntry>)
    requires 1 <= month <= 12 && MonthIndex(year, month) == s + i && j == i + 1
    requires filled == Months(s, i, KeyAt, Entries(byMonth, accrued, categoryIds))
    ensures filled[MonthKey(year, month) := MonthEntry(byMonth(year, month, true, categoryIds), accrued(year, month, categoryIds))]
            == Months(s, j, KeyAt, Entries(byMonth, accrued, categoryIds))
  {
    MonthAtIndex(s + i, year, month, byMonth, accrued, categoryIds);
    var x, v := MonthKey(year, month), MonthEntry(byMonth(year, month, true, categoryIds), accrued(year, month, categoryIds));
    MonthsStep(s, i, j, KeyAt, Entries(byMonth, accrued, categoryIds), filled, x, v);
  }

  /** The month numbered `MonthIndex(year, month)` is that month: its key
      and its entry are those of `year` and `month`. */
  lemma MonthAtIndex(k: nat, year: nat, month: nat, byMonth: ByMonthFetcher, accrued: AccruedFetcher,
                     categoryIds: Option<seq<int>>)
    requires 1 <= month <= 12 && k == MonthIndex(year, month)
    ensures KeyAt(k) == MonthKey(year, month)
    ensures Entries(byMonth, accrued, categoryIds)(k)
            == MonthEntry(byMonth(year, month, true, categoryIds), accrued(year, month, categoryIds))
  {
    assert k / 12 == year && k % 12 + 1 == month;
  }

  /** Filling one more month stores its entry under its key. */
  lemma MonthsStep(s: nat, n: nat, j: nat, key: nat -> string, entry: nat -> MonthEntry,
                   m: map<string, MonthEntry>, x: string, v: MonthEntry)
    requires m == Months(s, n, key, entry) && x == key(s + n) && v == entry(s + n) && j == n + 1
    ensures m[x := v] == Months(s, j, key, entry)
  {
  }

  /** The keys of `Months(s, n)` are those of the months numbered `s` to
      `s + n - 1`. */
  lemma {:induction false} MonthsKeys(s: nat, n: nat, key: nat -> string, entry: nat -> MonthEntry, k: nat)
    requires s <= k < s + n
    ensures key(k) in Months(s, n, key, entry)
  {
    if k < s + n - 1 {
      MonthsKeys(s, n - 1, key, entry, k);
    }
  }

  /** Every key of `Months(s, n)` is the key of one of its months. */
  lemma {:induction false} MonthsOrigin(s: nat, n: nat, key: nat -> string, entry: nat -> MonthEntry, x: string)
    returns (k: nat)
    requires x in Months(s, n, key, entry)
    ensures s <= k < s + n && x == key(k)
  {
    if x == key(s + n - 1) {
      k := s + n - 1;
    } else {
      k := MonthsOrigin(s, n - 1, key, entry, x);
    }
  }

  /** Different months of the range have different keys. */
  predicate KeysDistinct(s: nat, n: nat, key: nat -> string) {
    forall j, k :: s <= j < s + n && s <= k < s + n && key(j) == key(k) ==> j == k
  }

  /** With distinct keys, each month's key holds that month's entry. */
  lemma {:induction false} MonthsEntry(s: nat, n: nat, key: nat -> string, entry: nat -> MonthEntry, k: nat)
    requires s <= k < s + n && KeysDistinct(s, n, key)
    ensures key(k) in Months(s, n, key, entry)
    ensures Months(s, n, key, entry)[key(k)] == entry(k)
  {
    MonthsKeys(s, n, key, entry, k);
    if k < s + n - 1 {
      MonthsEntry(s, n - 1, key, entry, k);
    }
  }

  /** With distinct keys, `Months(s, n)` has exactly `n` keys. */
  lemma {:induction false} MonthsSize(s: nat, n: nat, key: nat -> string, entry: nat -> MonthEntry)
    requires KeysDistinct(s, n, key)
    ensures |Months(s, n, key, entry)| == n
  {
    if n > 0 {
      MonthsSize(s, n - 1, key, entry);
      if key(s + n - 1) in Months(s, n - 1, key, entry) {
        var k := MonthsOrigin(s, n - 1, key, entry, key(s + n - 1));
      }
    }
  }

  /** Two month numbers below year 10000 have the same key only when they
      are the same month. */
  lemma KeyAtInjective(j: nat, k: nat)
    requires j < 120000 && k < 120000 && KeyAt(j) == KeyAt(k)
    ensures j == k
  {
    MonthKeyInjective(j / 12, j % 12 + 1, k / 12, k % 12 + 1);
  }

  /** The months of dates have distinct keys. */
  lemma DateKeysDistinct(s: nat, n: nat)
    requires s + n <= 120000
    ensures KeysDistinct(s, n, KeyAt)
  {
    forall j, k | s <= j < s + n && s <= k < s + n && KeyAt(j) == KeyAt(k)
      ensures j == k
    {
      KeyAtInjective(j, k);
    }
  }

  /** `(y, m) <= (z, n)` on (year, month) pairs is month-number order. */
  lemma MonthOrder(y: int, m: int, z: int, n: int)
    requires 1 <= m <= 12 && 1 <= n <= 12
    ensures (y < z || (y == z && m <= n)) <==> MonthIndex(y, m) <= MonthIndex(z, n)
  {
  }

  /** The report has exactly one key per month from the start month to the
      end month inclusive, whatever the days, and no other key. */
  lemma PeriodKeys(start: Date, end: Date, byMonth: ByMonthFetcher, accrued: AccruedFetcher,
                   categoryIds: Option<seq<int>>, year: nat, month: nat)
    requires 1 <= year <= 9999 && 1 <= month <= 12
    ensures MonthKey(year, month) in PeriodTransactions(start, end, byMonth, accrued, categoryIds)
            <==> (start.year < year || (start.year == year && start.month <= month))
                 && (year < end.year || (year == end.year && month <= end.month))
  {
    var s, k := MonthIndex(start.year, start.month), MonthIndex(year, month);
    var n := MonthCount(start, end);
    MonthOrder(start.year, start.month, year, month);
    MonthOrder(year, month, end.year, end.month);
    assert KeyAt(k) == MonthKey(year, month) by {
      assert k / 12 == year && k % 12 + 1 == month;
    }
    var entries := Entries(byMonth, accrued, categoryIds);
    if s <= k < s + n {
      MonthsKeys(s, n, KeyAt, entries, k);
    }
    if MonthKey(year, month) in Months(s, n, KeyAt, entries) {
      var j := MonthsOrigin(s, n, KeyAt, entries, MonthKey(year, month));
      KeyAtInjective(j, k);
    }
  }

  /** Every month of the range gets an entry, even an empty one: its cash
      basis fetched with amortized transactions excluded, its accrual basis
      from the accrual query, both with the same category filter. */
  lemma PeriodEntry(start: Date, end: Date, byMonth: ByMonthFetcher, accrued: AccruedFetcher,
                    categoryIds: Option<seq<int>>, year: nat, month: nat)
    requires 1 <= month <= 12
    requires start.year < year || (start.year == year && start.month <= month)
    requires year < end.year || (year == end.year && month <= end.month)
    ensures MonthKey(year, month) in PeriodTransactions(start, end, byMonth, accrued, categoryIds)
    ensures PeriodTransactions(start, end, byMonth, accrued, categoryIds)[MonthKey(year, month)]
            == MonthEntry(byMonth(year, month, true, categoryIds), accrued(year, month, categoryIds))
  {
    var s, k := MonthIndex(start.year, start.month), MonthIndex(year, month);
    MonthOrder(start.year, start.month, year, month);
    MonthOrder(year, month, end.year, end.month);
    MonthAtIndex(k, year, month, byMonth, accrued, categoryIds);
    DateKeysDistinct(s, MonthCount(start, end));
    MonthsEntry(s, MonthCount(start, end), KeyAt, Entries(byMonth, accrued, categoryIds), k);
  }

  /** The report has `12 * (end year - start year) + (end month - start
      month) + 1` entries, across year boundaries too, and none when the
      start month is after the end month. */
  lemma PeriodSize(start: Date, end: Date, byMonth: ByMonthFetcher, accrued: AccruedFetcher,
                   categoryIds: Option<seq<int>>)
    ensures (start.year < end.year || (start.year == end.year && start.month <= end.month)) ==>
      |PeriodTransactions(start, end, byMonth, accrued, categoryIds)|
        == 12 * (end.year - start.year) + (end.month - start.month) + 1
    ensures !(start.year < end.year || (start.year == end.year && start.month <= end.month)) ==>
      PeriodTransactions(start, end, byMonth, accrued, categoryIds) == map[]
  {
    MonthOrder(start.year, start.month, end.year, end.month);
    var s := MonthIndex(start.year, start.month);
    DateKeysDistinct(s, MonthCount(start, end));
    MonthsSize(s, MonthCount(start, end), KeyAt, Entries(byMonth, accrued, categoryIds));
  }
}
