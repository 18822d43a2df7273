/** `TickRecorder` of record_tick.py: caches the futures contracts the
    gateway reports and subscribes to each, and appends every raw snapshot
    of a cached instrument, stamped with its exchange and the local time,
    as one more line of that instrument's journal file. The gateway, the
    event engine and the clock are not modelled: contract and snapshot
    events are method calls, the formatted local time is a parameter, and
    `str(dict)` is the opaque `render`. */
module Recorder {
  import opened Wrappers
  import opened Text
  import opened Values
  import opened Assembler
  import opened JournalReader

  /** vn.py's `Product`. */
  datatype Product =
    | Equity | Futures | Options | Index | Forex | Spot | Etf
    | Bond | Warrant | Spread | Fund | Cfd | Swap

  /** The part of vn.py's `ContractData` the recorder reads. */
  datatype Contract = Contract(symbol: string, exchange: Exchange, product: Product)

  /** vn.py's `SubscribeRequest`. */
  datatype SubscribeRequest = SubscribeRequest(symbol: string, exchange: Exchange)

  /** The cache holds futures only, each under its own symbol. */
  predicate CacheValid(contracts: map<string, Contract>) {
    forall s {:trigger contracts[s]} :: s in contracts ==> contracts[s].product == Futures && contracts[s].symbol == s
  }

  /** The cache after a contract event: futures are stored under their
      symbol, replacing an earlier entry; anything else is ignored. */
  function Cached(contracts: map<string, Contract>, contract: Contract): (r: map<string, Contract>)
    ensures contract.product != Futures ==> r == contracts
    ensures contract.product == Futures ==>
      r.Keys == contracts.Keys + {contract.symbol} && r[contract.symbol] == contract
      && forall s :: s in contracts && s != contract.symbol ==> r[s] == contracts[s]
  {
    if contract.product != Futures then contracts else contracts[contract.symbol := contract]
  }

  /** Contract events keep the cache valid. */
  lemma CachedValid(contracts: map<string, Contract>, contract: Contract)
    requires CacheValid(contracts)
    ensures CacheValid(Cached(contracts, contract))
  {
  }

  /** The contract a snapshot is recorded under: the cached one for its
      `InstrumentID`, if it has one. */
  function Accepted(contracts: map<string, Contract>, oTick: Dict): (r: Option<Contract>)
    ensures r.Some? <==> "InstrumentID" in oTick && oTick["InstrumentID"] in contracts
    ensures r.Some? ==> r.value == contracts[oTick["InstrumentID"]]
  {
    if "InstrumentID" in oTick && oTick["InstrumentID"] in contracts
    then Some(contracts[oTick["InstrumentID"]])
    else None
  }

  /** A snapshot is recorded only under a futures contract of its own
      symbol. */
  lemma AcceptedFutures(contracts: map<string, Contract>, oTick: Dict)
    requires CacheValid(contracts) && Accepted(contracts, oTick).Some?
    ensures Accepted(contracts, oTick).value.product == Futures
    ensures Accepted(contracts, oTick).value.symbol == oTick["InstrumentID"]
  {
  }

  /** The snapshot with `ExchangeID` set to the contract's exchange code and
      `localtime` to the local time, whatever the feed put there; every
      other field as the feed sent it. */
  function Inject(oTick: Dict, contract: Contract, now: string): (r: Dict)
    ensures r.Keys == oTick.Keys + {"ExchangeID", "localtime"}
    ensures r["ExchangeID"] == contract.exchange.Value() && r["localtime"] == now
    ensures forall k :: k in oTick && k != "ExchangeID" && k != "localtime" ==> r[k] == oTick[k]
  {
    oTick["ExchangeID" := contract.exchange.Value()]["localtime" := now]
  }

  /** `f"{o_tick['InstrumentID']}.{o_tick['ExchangeID']}.txt"`, raising for
      the first of the two fields that is missing. */
  function FileName(oTick: Dict): (r: Result<string, Error>)
    ensures r.Success? <==> "InstrumentID" in oTick && "ExchangeID" in oTick
    ensures r.Failure? ==>
      r.error == KeyError(if "InstrumentID" !in oTick then "InstrumentID" else "ExchangeID")
  {
    var symbol :- Lookup(oTick, "InstrumentID");
    var exchangeId :- Lookup(oTick, "ExchangeID");
    Success(symbol + "." + exchangeId + ".txt")
  }

  /** A recorded snapshot goes to the file named after the `vt_symbol` of
      its contract, the name the loader and the transformer read. */
  lemma RecordedFileName(contracts: map<string, Contract>, oTick: Dict, now: string)
    requires CacheValid(contracts) && Accepted(contracts, oTick).Some?
    ensures var c := Accepted(contracts, oTick).value;
      FileName(Inject(oTick, c, now)) == Success(VtSymbol(c.symbol, c.exchange) + ".txt")
  {
  }

  /** Snapshots of different instruments never share a journal file. */
  lemma RecordedFilesDistinct(c1: Contract, c2: Contract)
    requires VtSymbol(c1.symbol, c1.exchange) + ".txt" == VtSymbol(c2.symbol, c2.exchange) + ".txt"
    ensures c1.symbol == c2.symbol && c1.exchange == c2.exchange
  {
    var n1 := VtSymbol(c1.symbol, c1.exchange);
    var n2 := VtSymbol(c2.symbol, c2.exchange);
    assert n1 == (n1 + ".txt")[..|n1|];
    assert n2 == (n2 + ".txt")[..|n2|];
    VtSymbolInjective(c1.symbol, c1.exchange, c2.symbol, c2.exchange);
  }

  // ---------------------------------------------------------------------
  // The journal files.

  /** A file's text after the given records were appended to `base`, each
      behind a line break. */
  function Appended(base: string, records: seq<string>): string
    decreases |records|
  {
    if records == [] then base
    else Appended(base, records[..|records| - 1]) + "\n" + records[|records| - 1]
  }

  /** Appending never changes what the file held. */
  lemma {:induction false} AppendOnly(base: string, records: seq<string>)
    ensures base <= Appended(base, records)
    decreases |records|
  {
    if records != [] {
      var pre := records[..|records| - 1];
      AppendOnly(base, pre);
      var t := Appended(base, pre);
      assert Appended(base, records) == t + ("\n" + records[|records| - 1]);
    }
  }

  /** A file's lines are its original lines followed by one line per record,
      when no record holds a line break. */
  lemma {:induction false} AppendedLines(base: string, records: seq<string>)
    requires forall i :: 0 <= i < |records| ==> '\n' !in records[i]
    ensures Lines(Appended(base, records)) == Lines(base) + records
    decreases |records|
  {
    if records != [] {
      var n := |records|;
      var pre := records[..n - 1];
      var r := records[n - 1];
      AppendedLines(base, pre);
      SplitAround(Appended(base, pre), r, "\n");
      NoLeadChar(r, "\n");
      SplitNoSep(r, "\n");
      assert records == pre + [r];
    }
  }

  /** A journal file the recorder created holds an empty first line, which
      the replay skips, and then one line per record: replaying the file is
      replaying the records. */
  lemma RecordedJournalReplay(records: seq<string>, f: LineFn)
    requires forall i :: 0 <= i < |records| ==> '\n' !in records[i]
    requires f("") == Success(None)
    ensures Replay(Lines(Appended("", records)), f) == Replay(records, f)
  {
    AppendedLines("", records);
    assert Lines("") == [""];
    SilentLineSkipped([], "", records, f);
    assert [] + [""] + records == [""] + records;
    assert [] + records == records;
  }

  /** The journal reader yields nothing for the empty line. */
  lemma ReaderSkipsEmptyLine(symbol: string, exchange: Exchange, p: Platform)
    ensures Reader(symbol, exchange, p)("") == Success(None)
  {
  }

  /** The text a file holds before an append: none for a new file. */
  function Content(files: map<string, string>, name: string): string {
    if name in files then files[name] else ""
  }

  /** The records appended to a file so far: none for a file never written. */
  function History(records: map<string, seq<string>>, name: string): seq<string> {
    if name in records then records[name] else []
  }

  /** The file `name`, when present, is what the directory held followed by
      the records appended to it. */
  predicate JournaledAt(initial: map<string, string>, files: map<string, string>,
                        records: map<string, seq<string>>, name: string) {
    name in files ==> files[name] == Appended(Content(initial, name), History(records, name))
  }

  /** Every file is what the directory held followed by the records
      appended to it. */
  ghost predicate Journaled(initial: map<string, string>, files: map<string, string>,
                      records: map<string, seq<string>>) {
    && files.Keys == initial.Keys + records.Keys
    && forall name :: JournaledAt(initial, files, records, name)
  }

  /** One more record appended to one file keeps every file journaled. */
  lemma JournaledAppend(initial: map<string, string>, files: map<string, string>,
                        records: map<string, seq<string>>, name: string, line: string)
    requires Journaled(initial, files, records)
    ensures Journaled(initial, files[name := Content(files, name) + "\n" + line],
                      records[name := History(records, name) + [line]])
  {
    var files' := files[name := Content(files, name) + "\n" + line];
    var records' := records[name := History(records, name) + [line]];
    var h := History(records', name);
    assert h[..|h| - 1] == History(records, name);
    assert JournaledAt(initial, files, records, name);
    assert Appended(Content(initial, name), h)
      == Appended(Content(initial, name), History(records, name)) + "\n" + line;
    forall n
      ensures JournaledAt(initial, files', records', n)
    {
      if n != name {
        assert JournaledAt(initial, files, records, n);
        assert History(records', n) == History(records, n);
      }
    }
  }

  class TickRecorder {
    /** `str(dict)`. */
    const render: Dict -> string
    /** The data directory as it was found; `mkdir(exist_ok=True)` keeps it. */
    ghost const initial: map<string, string>

    /** `self.contracts`. */
    var contracts: map<string, Contract>
    /** The subscriptions sent to the gateway, in order. */
    var requests: seq<SubscribeRequest>
    /** The data directory: file name to text. */
    var files: map<string, string>
    /** The records appended to each file so far, in order. */
    ghost var records: map<string, seq<string>>

    /** The cache holds futures under their own symbols, and every file is
        what the directory held followed by the records appended to it. */
    ghost predicate Valid()
      reads this
    {
      CacheValid(contracts) && Journaled(initial, files, records)
    }

    /** `__init__`, for a data directory that already holds `existing`. */
    constructor(render: Dict -> string, existing: map<string, string>)
      ensures this.render == render && initial == existing
      ensures contracts == map[] && requests == [] && files == existing && records == map[]
      ensures Valid()
    {
      this.render := render;
      initial := existing;
      contracts := map[];
      requests := [];
      files := existing;
      records := map[];
    }

    /** `handle_contract_event`: futures are cached and subscribed to, once
        per event; other products change nothing. */
    method HandleContractEvent(contract: Contract)
      requires Valid()
      modifies this`contracts, this`requests
      ensures Valid()
      ensures contracts == Cached(old(contracts), contract)
      ensures requests == old(requests)
        + (if contract.product == Futures then [SubscribeRequest(contract.symbol, contract.exchange)] else [])
      ensures files == old(files) && records == old(records)
    {
      if contract.product != Futures {
        return;
      }
      contracts := contracts[contract.symbol := contract];
      var subscribeReq := SubscribeRequest(contract.symbol, contract.exchange);
      requests := requests + [subscribeReq];
      CachedValid(old(contracts), contract);
    }

    /** `append_tick_to_file`: one more line, `"\n"` and the rendered
        snapshot, at the end of the file the snapshot names, which is
        created when missing; no other file changes. */
    method AppendTickToFile(oTick: Dict) returns (failure: Option<Error>)
      requires Valid()
      modifies this`files, this`records
      ensures Valid()
      ensures FileName(oTick).Failure? ==>
        failure == Some(FileName(oTick).error) && files == old(files) && records == old(records)
      ensures FileName(oTick).Success? ==>
        var name := FileName(oTick).value;
        && failure == None
        && files == old(files)[name := Content(old(files), name) + "\n" + render(oTick)]
        && records == old(records)[name := History(old(records), name) + [render(oTick)]]
      ensures contracts == old(contracts) && requests == old(requests)
    {
      var named := FileName(oTick);
      if named.Failure? {
        return Some(named.error);
      }
      var fileName := named.value;
      var line := render(oTick);
      var content := if fileName in files then files[fileName] else "";
      JournaledAppend(initial, files, records, fileName, line);
      files := files[fileName := content + "\n" + line];
      records := records[fileName := History(records, fileName) + [line]];
      failure := None;
    }

    /** `handle_original_tick`: a snapshot without a cached contract is
        dropped; any other is stamped and appended to its instrument's
        journal. Returns the snapshot as the handler leaves it. */
    method HandleOriginalTick(oTick: Dict, now: string) returns (tick: Dict)
      requires Valid()
      modifies this`files, this`records
      ensures Valid()
      ensures Accepted(old(contracts), oTick).None? ==>
        tick == oTick && files == old(files) && records == old(records)
      ensures Accepted(old(contracts), oTick).Some? ==>
        var c := Accepted(old(contracts), oTick).value;
        var name := VtSymbol(c.symbol, c.exchange) + ".txt";
        && tick == Inject(oTick, c, now)
        && files == old(files)[name := Content(old(files), name) + "\n" + render(tick)]
        && records == old(records)[name := History(old(records), name) + [render(tick)]]
      ensures contracts == old(contracts) && requests == old(requests)
    {
      tick := oTick;
      if "InstrumentID" !in oTick || oTick["InstrumentID"] !in contracts {
        return;
      }
      var contract := contracts[oTick["InstrumentID"]];
      tick := tick["ExchangeID" := contract.exchange.Value()];
      tick := tick["localtime" := now];
      RecordedFileName(contracts, oTick, now);
      var failure := AppendTickToFile(tick);
      assert failure.None?;
    }
  }
}
