/** The table of statement adapters the command line chooses from by name:
    an insertion-ordered dictionary from name to adapter, a checked lookup
    and the list of names. */
module Registry {
  import opened Wrappers
  import opened Transactions
  import opened Rows
  import Amex
  import Bofa
  import Bofacc
  import Chase
  import Discover

  /** One statement adapter. */
  datatype Adapter = AmexCsv | BofaCsv | BofaccCsv | ChaseCsv | DiscoverCsv

  /** The registry's entries, in insertion order. */
  const IngestionModules: seq<(string, Adapter)> := [
    ("amex", AmexCsv),
    ("bofa", BofaCsv),
    ("bofacc", BofaccCsv),
    ("chase", ChaseCsv),
    ("discover", DiscoverCsv)
  ]

  /** The keys of a list of entries, in order. */
  function Names(entries: seq<(string, Adapter)>): (names: seq<string>)
    ensures |names| == |entries|
    ensures forall i :: 0 <= i < |entries| ==> names[i] == entries[i].0
  {
    if entries == [] then [] else [entries[0].0] + Names(entries[1..])
  }

  /** Dictionary lookup over the entries: the adapter of the first entry
      whose key equals `name` exactly. */
  function Lookup(entries: seq<(string, Adapter)>, name: string): (r: Option<Adapter>)
    ensures r.Some? <==> name in Names(entries)
    ensures r.Some? ==> (name, r.value) in entries
  {
    if entries == [] then None
    else if entries[0].0 == name then Some(entries[0].1)
    else Lookup(entries[1..], name)
  }

  /** `get_ingestion_module`: the adapter registered under `name`, or the
      error message naming the unknown module. */
  function GetIngestionModule(name: string): (r: Result<Adapter, string>)
    ensures r.Ok? <==> name in GetAvailableModules()
    ensures r.Ok? ==> (name, r.value) in IngestionModules
    ensures r.Err? ==> r.error == "Unknown ingestion module: " + name
  {
    match Lookup(IngestionModules, name)
    case Some(adapter) => Ok(adapter)
    case None => Err("Unknown ingestion module: " + name)
  }

  /** `get_available_modules`: the registry's keys, in insertion order. */
  function GetAvailableModules(): (names: seq<string>)
    ensures |names| == |IngestionModules|
    ensures forall i :: 0 <= i < |names| ==> names[i] == IngestionModules[i].0
  {
    Names(IngestionModules)
  }

  /** The name each adapter is registered under. */
  function NameOf(adapter: Adapter): string {
    match adapter
    case AmexCsv => "amex"
    case BofaCsv => "bofa"
    case BofaccCsv => "bofacc"
    case ChaseCsv => "chase"
    case DiscoverCsv => "discover"
  }

  /** Where each adapter sits in the registry. */
  function Position(adapter: Adapter): nat {
    match adapter
    case AmexCsv => 0
    case BofaCsv => 1
    case BofaccCsv => 2
    case ChaseCsv => 3
    case DiscoverCsv => 4
  }

  /** Each of the five names selects its own adapter, and the names are
      listed in the order they were registered. */
  lemma EveryAdapterRegistered(adapter: Adapter)
    ensures GetIngestionModule(NameOf(adapter)) == Ok(adapter)
    ensures GetAvailableModules() == ["amex", "bofa", "bofacc", "chase", "discover"]
  {
    assert Names(IngestionModules) == ["amex", "bofa", "bofacc", "chase", "discover"];
  }

  /** Every listed name is accepted, and different names select different
      adapters. */
  lemma AvailableModulesResolve(i: nat, j: nat)
    requires i < j < |GetAvailableModules()|
    ensures GetIngestionModule(GetAvailableModules()[i]).Ok?
    ensures GetAvailableModules()[i] != GetAvailableModules()[j]
    ensures GetIngestionModule(GetAvailableModules()[i]) != GetIngestionModule(GetAvailableModules()[j])
  {
    var a, b := IngestionModules[i].1, IngestionModules[j].1;
    assert IngestionModules[i].0 == NameOf(a) && Position(a) == i;
    assert IngestionModules[j].0 == NameOf(b) && Position(b) == j;
    EveryAdapterRegistered(a);
    EveryAdapterRegistered(b);
  }

  /** Matching is exact: upper-case spellings are unknown names. */
  lemma CaseSensitive()
    ensures GetIngestionModule("AMEX") == Err("Unknown ingestion module: " + "AMEX")
  {
    EveryAdapterRegistered(AmexCsv);
    assert forall n :: n in GetAvailableModules() ==> n[0] != 'A';
    assert "AMEX"[0] == 'A';
  }

  /** The selected adapter's `ingest` on a file of rows. Only the strict
      credit card adapter can fail; the others return a possibly empty
      list. */
  function IngestWith(adapter: Adapter, rows: seq<Row>, accountId: int, hash: string -> Digest)
    : (r: Result<seq<Txn>, Bofacc.IngestError>)
    ensures adapter != BofaccCsv ==> r.Ok?
    ensures adapter == AmexCsv ==> r == Ok(Amex.Ingested(rows, accountId, hash))
    ensures adapter == BofaCsv ==> r == Ok(Bofa.Ingested(rows, accountId, hash))
    ensures adapter == BofaccCsv ==> r == Bofacc.Ingested(rows, accountId, hash)
    ensures adapter == ChaseCsv ==> r == Ok(Chase.Ingested(rows, accountId, hash))
    ensures adapter == DiscoverCsv ==> r == Ok(Discover.Ingested(rows, accountId, hash))
  {
    match adapter
    case AmexCsv => Ok(Amex.Ingested(rows, accountId, hash))
    case BofaCsv => Ok(Bofa.Ingested(rows, accountId, hash))
    case BofaccCsv => Bofacc.Ingested(rows, accountId, hash)
    case ChaseCsv => Ok(Chase.Ingested(rows, accountId, hash))
    case DiscoverCsv => Ok(Discover.Ingested(rows, accountId, hash))
  }

  /** Choosing an adapter by its registered name and running it gives that
      adapter's own result. */
  lemma IngestByName(rows: seq<Row>, accountId: int, hash: string -> Digest)
    ensures GetIngestionModule("amex").Ok?
            && IngestWith(GetIngestionModule("amex").value, rows, accountId, hash) == Ok(Amex.Ingested(rows, accountId, hash))
    ensures GetIngestionModule("bofa").Ok?
            && IngestWith(GetIngestionModule("bofa").value, rows, accountId, hash) == Ok(Bofa.Ingested(rows, accountId, hash))
    ensures GetIngestionModule("bofacc").Ok?
            && IngestWith(GetIngestionModule("bofacc").value, rows, accountId, hash) == Bofacc.Ingested(rows, accountId, hash)
    ensures GetIngestionModule("chase").Ok?
            && IngestWith(GetIngestionModule("chase").value, rows, accountId, hash) == Ok(Chase.Ingested(rows, accountId, hash))
    ensures GetIngestionModule("discover").Ok?
            && IngestWith(GetIngestionModule("discover").value, rows, accountId, hash) == Ok(Discover.Ingested(rows, accountId, hash))
  {
    EveryAdapterRegistered(AmexCsv);
    EveryAdapterRegistered(BofaCsv);
    EveryAdapterRegistered(BofaccCsv);
    EveryAdapterRegistered(ChaseCsv);
    EveryAdapterRegistered(DiscoverCsv);
  }
}
