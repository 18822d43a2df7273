/** `TickToBarConverter` of transform_tick_data.py: replays the night and
    the day journal of one instrument, hands every assembled tick to the bar
    generator, collects the bars it calls back with as table rows, and
    writes the table out. The bar generator itself is not modelled: `pushed`
    records the ticks it is given, and `OnBar` is the callback it would
    make. */
module Transformer {
  import opened Wrappers
  import opened Text
  import opened Values
  import opened Codec
  import opened Assembler
  import opened JournalReader

  /** vn.py's `Interval`. */
  datatype Interval = Minute | Hour | Daily | Weekly | TickInterval {
    function Value(): string {
      match this
      case Minute => "1m"
      case Hour => "1h"
      case Daily => "d"
      case Weekly => "w"
      case TickInterval => "tick"
    }
  }

  /** vn.py's `BarData`, with the `interval` the bar generator always sets. */
  datatype Bar = Bar(
    gatewayName: string,
    symbol: string,
    exchange: Exchange,
    datetime: DateTime,
    interval: Interval,
    volume: Float,
    turnover: Float,
    openInterest: Float,
    openPrice: Float,
    highPrice: Float,
    lowPrice: Float,
    closePrice: Float)

  /** A value held in a bar's attribute dictionary or a table row. */
  datatype Cell =
    | Str(text: string)
    | Number(number: Float)
    | Moment(moment: DateTime)
    | Venue(venue: Exchange)
    | Period(period: Interval)
    | Nothing

  type Row = map<string, Cell>

  /** `bar.__dict__`: the dataclass fields, `extra` (left `None`) and the
      `vt_symbol` set after construction. */
  function BarDict(bar: Bar): Row {
    map[
      "gateway_name" := Str(bar.gatewayName),
      "extra" := Nothing,
      "symbol" := Str(bar.symbol),
      "exchange" := Venue(bar.exchange),
      "datetime" := Moment(bar.datetime),
      "interval" := Period(bar.interval),
      "volume" := Number(bar.volume),
      "turnover" := Number(bar.turnover),
      "open_interest" := Number(bar.openInterest),
      "open_price" := Number(bar.openPrice),
      "high_price" := Number(bar.highPrice),
      "low_price" := Number(bar.lowPrice),
      "close_price" := Number(bar.closePrice),
      "vt_symbol" := Str(VtSymbol(bar.symbol, bar.exchange))]
  }

  /** A cell as the table stores it: enumerations by their text value. */
  function Shown(c: Cell): Cell {
    match c
    case Venue(e) => Str(e.Value())
    case Period(i) => Str(i.Value())
    case _ => c
  }

  /** The keys `on_bar` drops before storing a row. */
  const Dropped: set<string> := {"gateway_name", "extra"}

  /** The row a bar becomes: every attribute but the dropped ones, each
      shown as the table stores it. */
  function BarRow(bar: Bar): Row {
    var d := BarDict(bar);
    map k | k in d.Keys - Dropped :: Shown(d[k])
  }

  /** `dict.pop(key, None)`: the key is gone, everything else stays; a key
      that is not there changes nothing. */
  function Pop(d: Row, key: string): (r: Row)
    ensures r.Keys == d.Keys - {key}
    ensures forall k :: k in r ==> r[k] == d[k]
    ensures key !in d ==> r == d
  {
    if key in d then d - {key} else d
  }

  /** A row holds the twelve attributes left once the gateway name and
      `extra` are dropped. */
  lemma BarRowKeys(bar: Bar)
    ensures BarRow(bar).Keys == {
      "symbol", "exchange", "datetime", "interval", "volume", "turnover",
      "open_interest", "open_price", "high_price", "low_price", "close_price", "vt_symbol"}
  {
    var d := BarDict(bar);
    assert d.Keys == {
      "gateway_name", "extra", "symbol", "exchange", "datetime", "interval", "volume", "turnover",
      "open_interest", "open_price", "high_price", "low_price", "close_price", "vt_symbol"};
    assert BarRow(bar).Keys == d.Keys - Dropped;
  }

  /** One attribute of a row. */
  lemma BarRowAt(bar: Bar, k: string)
    requires k in BarDict(bar) && k !in Dropped
    ensures k in BarRow(bar) && BarRow(bar)[k] == Shown(BarDict(bar)[k])
  {
  }

  /** The exchange and the interval are stored as their codes; the symbol,
      the timestamp and the `vt_symbol` as the bar carries them. */
  lemma BarRowCodes(bar: Bar)
    ensures "exchange" in BarRow(bar) && BarRow(bar)["exchange"] == Str(bar.exchange.Value())
    ensures "interval" in BarRow(bar) && BarRow(bar)["interval"] == Str(bar.interval.Value())
    ensures "symbol" in BarRow(bar) && BarRow(bar)["symbol"] == Str(bar.symbol)
    ensures "datetime" in BarRow(bar) && BarRow(bar)["datetime"] == Moment(bar.datetime)
    ensures "vt_symbol" in BarRow(bar) && BarRow(bar)["vt_symbol"] == Str(VtSymbol(bar.symbol, bar.exchange))
  {
    BarRowAt(bar, "exchange");
    BarRowAt(bar, "interval");
    BarRowAt(bar, "symbol");
    BarRowAt(bar, "datetime");
    BarRowAt(bar, "vt_symbol");
  }

  /** The quantities and prices are stored as the bar carries them. */
  lemma BarRowNumbers(bar: Bar)
    ensures "volume" in BarRow(bar) && BarRow(bar)["volume"] == Number(bar.volume)
    ensures "turnover" in BarRow(bar) && BarRow(bar)["turnover"] == Number(bar.turnover)
    ensures "open_interest" in BarRow(bar) && BarRow(bar)["open_interest"] == Number(bar.openInterest)
    ensures "open_price" in BarRow(bar) && BarRow(bar)["open_price"] == Number(bar.openPrice)
    ensures "high_price" in BarRow(bar) && BarRow(bar)["high_price"] == Number(bar.highPrice)
    ensures "low_price" in BarRow(bar) && BarRow(bar)["low_price"] == Number(bar.lowPrice)
    ensures "close_price" in BarRow(bar) && BarRow(bar)["close_price"] == Number(bar.closePrice)
  {
    BarRowAt(bar, "volume");
    BarRowAt(bar, "turnover");
    BarRowAt(bar, "open_interest");
    BarRowAt(bar, "open_price");
    BarRowAt(bar, "high_price");
    BarRowAt(bar, "low_price");
    BarRowAt(bar, "close_price");
  }

  /** The edits `on_bar` makes to `bar.__dict__` (the two enumerations
      replaced by their codes, then the two pops) give the bar's row. */
  lemma OnBarEdits(bar: Bar)
    ensures var d := BarDict(bar);
      var shown := d["exchange" := Str(bar.exchange.Value())]["interval" := Str(bar.interval.Value())];
      Pop(Pop(shown, "gateway_name"), "extra") == BarRow(bar)
  {
    var d := BarDict(bar);
    var shown := d["exchange" := Str(bar.exchange.Value())]["interval" := Str(bar.interval.Value())];
    var row := Pop(Pop(shown, "gateway_name"), "extra");
    assert row.Keys == BarRow(bar).Keys;
    forall k | k in row ensures row[k] == BarRow(bar)[k] {
      assert row[k] == shown[k];
      BarRowAt(bar, k);
      if k != "exchange" && k != "interval" {
        assert shown[k] == d[k];
        ShownPlain(bar, k);
      }
    }
  }

  /** Every attribute but the two enumerations is stored unchanged. */
  lemma ShownPlain(bar: Bar, k: string)
    requires k in BarDict(bar) && k != "exchange" && k != "interval"
    ensures Shown(BarDict(bar)[k]) == BarDict(bar)[k]
  {
  }

  /** The journal folders, night session first. */
  const Folders: seq<string> := ["tick_data_night", "tick_data_day"]

  /** `home_path / folder_name / f"{vt_symbol}.txt"`. */
  function FilePath(home: string, folder: string, vtSymbol: string): string {
    home + "/" + folder + "/" + vtSymbol + ".txt"
  }

  /** The lines one folder contributes: none when the file is missing or
      empty. */
  function FolderLines(fs: map<string, string>, path: string): seq<string> {
    if path in fs && fs[path] != "" then Lines(fs[path]) else []
  }

  /** The lines of the given folders' journals, one folder after another. */
  function AllLines(fs: map<string, string>, home: string, vtSymbol: string, folders: seq<string>)
    : seq<string>
    decreases |folders|
  {
    if folders == [] then []
    else
      AllLines(fs, home, vtSymbol, folders[..|folders| - 1])
      + FolderLines(fs, FilePath(home, folders[|folders| - 1], vtSymbol))
  }

  /** The night journal's lines come before the day journal's, and a
      missing or empty journal adds none. */
  lemma StartOrder(fs: map<string, string>, home: string, vtSymbol: string)
    ensures AllLines(fs, home, vtSymbol, Folders)
      == FolderLines(fs, FilePath(home, "tick_data_night", vtSymbol))
       + FolderLines(fs, FilePath(home, "tick_data_day", vtSymbol))
    ensures forall f ::
      (FilePath(home, f, vtSymbol) !in fs || fs[FilePath(home, f, vtSymbol)] == "")
        ==> FolderLines(fs, FilePath(home, f, vtSymbol)) == []
  {
    assert Folders[..1] == ["tick_data_night"];
    assert Folders[..1][..0] == [];
  }

  /** An exception in the night journal means the day journal is never read:
      the whole run is the night run. */
  lemma NightFailureSkipsDay(fs: map<string, string>, home: string, vtSymbol: string, f: LineFn)
    requires Replay(FolderLines(fs, FilePath(home, "tick_data_night", vtSymbol)), f).failure.Some?
    ensures Replay(AllLines(fs, home, vtSymbol, Folders), f)
      == Replay(FolderLines(fs, FilePath(home, "tick_data_night", vtSymbol)), f)
  {
    StartOrder(fs, home, vtSymbol);
    ReplayConcat(FolderLines(fs, FilePath(home, "tick_data_night", vtSymbol)),
                 FolderLines(fs, FilePath(home, "tick_data_day", vtSymbol)), f);
  }

  // ---------------------------------------------------------------------
  // The bar generator and the table it fills.

  /** The bar generator `self.bg`, as what it does with each tick: given the
      ticks it has received so far and the next one, the bars that tick
      completes, in the order it hands them to `on_bar`. */
  type BarFeed = (seq<Tick>, Tick) -> seq<Bar>

  /** The bars completed while `ticks` are pushed after `history`. */
  function Completed(feed: BarFeed, history: seq<Tick>, ticks: seq<Tick>): seq<Bar>
    decreases |ticks|
  {
    if ticks == [] then []
    else
      var n := |ticks| - 1;
      Completed(feed, history, ticks[..n]) + feed(history + ticks[..n], ticks[n])
  }

  /** Pushing `a` then `b` completes the bars of `a`, then those of `b` fed
      after `a`. */
  lemma {:induction false} CompletedConcat(feed: BarFeed, history: seq<Tick>, a: seq<Tick>, b: seq<Tick>)
    ensures Completed(feed, history, a + b) == Completed(feed, history, a) + Completed(feed, history + a, b)
    decreases |b|
  {
    if b == [] {
      assert a + b == a;
    } else {
      var n := |b| - 1;
      CompletedConcat(feed, history, a, b[..n]);
      assert (a + b)[..|a + b| - 1] == a + b[..n];
      assert (a + b)[|a + b| - 1] == b[n];
      assert history + (a + b[..n]) == (history + a) + b[..n];
    }
  }

  /** `COLUMNS`, the columns the table is created with. */
  const Columns: seq<string> := [
    "symbol", "exchange", "datetime", "interval", "volume", "turnover",
    "open_interest", "open_price", "high_price", "low_price", "close_price"]

  /** `df.loc[len(df)] = bar_dict` on a frame with fixed columns: the new
      row holds the dictionary's value under each column. */
  function Aligned(d: Row): Row {
    map k | k in Columns && k in d :: d[k]
  }

  /** The row the table holds for a bar. */
  function TableRow(bar: Bar): Row {
    Aligned(BarRow(bar))
  }

  /** A table row has exactly the eleven columns, each holding the bar's
      row value; `vt_symbol` is not one of them. */
  lemma TableRowColumns(bar: Bar)
    ensures TableRow(bar).Keys == set c | c in Columns
    ensures "vt_symbol" !in TableRow(bar)
    ensures forall k :: k in TableRow(bar) ==> k in BarRow(bar) && TableRow(bar)[k] == BarRow(bar)[k]
  {
    BarRowKeys(bar);
  }

  /** The rows a sequence of bars adds to the table, in order. */
  function Rows(bars: seq<Bar>): (rows: seq<Row>)
    ensures |rows| == |bars|
    decreases |bars|
  {
    if bars == [] then [] else Rows(bars[..|bars| - 1]) + [TableRow(bars[|bars| - 1])]
  }

  lemma {:induction false} RowsConcat(a: seq<Bar>, b: seq<Bar>)
    ensures Rows(a + b) == Rows(a) + Rows(b)
    decreases |b|
  {
    if b == [] {
      assert a + b == a;
    } else {
      var n := |b| - 1;
      RowsConcat(a, b[..n]);
      assert (a + b)[..|a + b| - 1] == a + b[..n];
      assert (a + b)[|a + b| - 1] == b[n];
    }
  }

  /** The rows added while `ticks` are pushed after `history`. */
  function Table(feed: BarFeed, history: seq<Tick>, ticks: seq<Tick>): seq<Row> {
    Rows(Completed(feed, history, ticks))
  }

  /** The table of a run is the table of its first part followed by the
      table of the rest, fed after the first part. */
  lemma TableConcat(feed: BarFeed, history: seq<Tick>, a: seq<Tick>, b: seq<Tick>)
    ensures Table(feed, history, a + b) == Table(feed, history, a) + Table(feed, history + a, b)
  {
    CompletedConcat(feed, history, a, b);
    RowsConcat(Completed(feed, history, a), Completed(feed, history + a, b));
  }

  lemma TableOne(feed: BarFeed, history: seq<Tick>, tick: Tick)
    ensures Table(feed, history, [tick]) == Rows(feed(history, tick))
  {
    assert [tick][..0] == [];
    assert history + [] == history;
    assert Completed(feed, history, [tick]) == feed(history, tick);
  }

  /** One more stretch of a run: both the ticks pushed and the table
      extend. */
  lemma Extend(history: seq<Tick>, base: seq<Row>, feed: BarFeed, acc: seq<Tick>, more: seq<Tick>)
    ensures (history + acc) + more == history + (acc + more)
    ensures (base + Table(feed, history, acc)) + Table(feed, history + acc, more)
      == base + Table(feed, history, acc + more)
  {
    TableConcat(feed, history, acc, more);
  }

  class TickToBarConverter {
    const symbol: string
    const exchange: Exchange
    const platform: Platform
    /** `self.bg`, as the bars it completes for each tick. */
    const feed: BarFeed
    /** The per-line function of the journal reader for this instrument. */
    ghost const reader: LineFn

    /** The ticks handed to the bar generator, in order. */
    var pushed: seq<Tick>
    /** The rows of `self.df`, in order. */
    var rows: seq<Row>
    /** The CSV files written, by name. */
    var exported: map<string, seq<Row>>

    /** `reader` gives every line the journal reader's outcome for the
        converter's instrument. */
    ghost predicate Valid() {
      IsReader(reader, symbol, exchange, platform)
    }

    constructor(symbol: string, exchange: Exchange, platform: Platform, feed: BarFeed)
      ensures this.symbol == symbol && this.exchange == exchange && this.platform == platform
      ensures this.feed == feed
      ensures Valid()
      ensures pushed == [] && rows == [] && exported == map[]
    {
      this.symbol := symbol;
      this.exchange := exchange;
      this.platform := platform;
      this.feed := feed;
      this.reader := Reader(symbol, exchange, platform);
      ReaderIsReader(symbol, exchange, platform);
      pushed := [];
      rows := [];
      exported := map[];
    }

    function VtSymbolOf(): string {
      VtSymbol(symbol, exchange)
    }

    /** `on_bar`: the edited attribute dictionary becomes one more row of
        the table, aligned to its columns. */
    method OnBar(bar: Bar)
      modifies this
      ensures rows == old(rows) + [TableRow(bar)]
      ensures pushed == old(pushed) && exported == old(exported)
    {
      var barDict := BarDict(bar);
      barDict := barDict["exchange" := Str(barDict["exchange"].venue.Value())];
      barDict := barDict["interval" := Str(barDict["interval"].period.Value())];
      barDict := Pop(barDict, "gateway_name");
      barDict := Pop(barDict, "extra");
      OnBarEdits(bar);
      rows := rows + [Aligned(barDict)];
    }

    /** The bar generator calling `on_bar` for each bar it completes. */
    method OnBars(bars: seq<Bar>)
      modifies this
      ensures rows == old(rows) + Rows(bars)
      ensures pushed == old(pushed) && exported == old(exported)
    {
      var i := 0;
      while i < |bars|
        invariant 0 <= i <= |bars|
        invariant rows == old(rows) + Rows(bars[..i])
        invariant pushed == old(pushed) && exported == old(exported)
      {
        OnBar(bars[i]);
        assert bars[..i + 1][..i] == bars[..i];
        i := i + 1;
      }
      assert bars[..i] == bars;
    }

    /** `_generate_tick`: at most one tick pushed, and only once its depth
        levels are set. */
    method GenerateTick(data: Dict) returns (failure: Option<Error>)
      modifies this
      ensures pushed == old(pushed) + Emits(Assemble(data, symbol, exchange, platform))
      ensures failure == Raised(Assemble(data, symbol, exchange, platform))
      ensures rows == old(rows) + Table(feed, old(pushed), Emits(Assemble(data, symbol, exchange, platform)))
      ensures exported == old(exported)
    {
      var r := DictToTick(data, symbol, exchange, platform);
      failure := Deliver(r);
    }

    /** The end of `_generate_tick`: a tick goes to the bar generator, which
        calls `on_bar` for the bars it completes; no tick changes nothing;
        an exception escapes. */
    method Deliver(r: Result<Option<Tick>, Error>) returns (failure: Option<Error>)
      modifies this
      ensures pushed == old(pushed) + Emits(r) && failure == Raised(r)
      ensures rows == old(rows) + Table(feed, old(pushed), Emits(r))
      ensures exported == old(exported)
    {
      failure := None;
      match r
      case Success(Some(tick)) =>
        var bars := feed(pushed, tick);
        TableOne(feed, pushed, tick);
        pushed := pushed + [tick];
        OnBars(bars);
      case Success(None) =>
      case Failure(e) =>
        failure := Some(e);
    }

    /** `_parse_line_to_tick`: decode, then `_generate_tick`. */
    method ParseLineToTick(line: string) returns (failure: Option<Error>)
      modifies this
      ensures pushed == old(pushed) + Emits(Assemble(ParseLine(line), symbol, exchange, platform))
      ensures failure == Raised(Assemble(ParseLine(line), symbol, exchange, platform))
      ensures rows == old(rows) + Table(feed, old(pushed), Emits(Assemble(ParseLine(line), symbol, exchange, platform)))
      ensures exported == old(exported)
    {
      var tickDict := ParseLineToDict(line);
      failure := GenerateTick(tickDict);
    }

    /** One iteration of `_process_tick_string`'s loop: a blank line is
        skipped, any other one goes to `_parse_line_to_tick`. */
    method ProcessLine(line: string) returns (failure: Option<Error>)
      modifies this
      ensures pushed == old(pushed) + Emits(LineResult(line, symbol, exchange, platform))
      ensures failure == Raised(LineResult(line, symbol, exchange, platform))
      ensures rows == old(rows) + Table(feed, old(pushed), Emits(LineResult(line, symbol, exchange, platform)))
      ensures exported == old(exported)
    {
      if !IsBlank(line) {
        failure := ParseLineToTick(line);
      } else {
        failure := None;
        assert rows == old(rows) + Table(feed, old(pushed), []);
        assert pushed == old(pushed) + [];
      }
    }

    /** `_process_tick_string`: the replay of one journal text. */
    method ProcessTickString(dataStr: string) returns (failure: Option<Error>)
      requires Valid()
      modifies this
      ensures var run := Replay(Lines(dataStr), reader);
        && pushed == old(pushed) + run.ticks && failure == run.failure
        && rows == old(rows) + Table(feed, old(pushed), run.ticks)
      ensures exported == old(exported)
    {
      ghost var f := reader;
      var lines := Split(dataStr, "\n");
      var i := 0;
      while i < |lines|
        invariant 0 <= i <= |lines|
        invariant Replay(lines[..i], f).failure.None?
        invariant pushed == old(pushed) + Replay(lines[..i], f).ticks
        invariant rows == old(rows) + Table(feed, old(pushed), Replay(lines[..i], f).ticks)
        invariant exported == old(exported)
      {
        var line := lines[i];
        ReaderNext(lines, i, f, symbol, exchange, platform);
        ghost var acc := Replay(lines[..i], f).ticks;
        ghost var outcome := LineResult(line, symbol, exchange, platform);
        failure := ProcessLine(line);
        Extend(old(pushed), old(rows), feed, acc, Emits(outcome));
        if failure.Some? {
          ReplayStopped(lines, i + 1, f);
          return;
        }
        i := i + 1;
      }
      assert lines[..i] == lines;
      failure := None;
    }

    /** `_to_csv`: the table is written to `{vt_symbol}.csv`. */
    method ToCsv()
      modifies this
      ensures exported == old(exported)[VtSymbolOf() + ".csv" := rows]
      ensures pushed == old(pushed) && rows == old(rows)
    {
      exported := exported[VtSymbolOf() + ".csv" := rows];
    }

    /** One iteration of `start`'s loop: a missing or empty journal is
        skipped, any other one is replayed. */
    method ProcessFolder(fs: map<string, string>, filePath: string) returns (failure: Option<Error>)
      requires Valid()
      modifies this
      ensures var run := Replay(FolderLines(fs, filePath), reader);
        && pushed == old(pushed) + run.ticks && failure == run.failure
        && rows == old(rows) + Table(feed, old(pushed), run.ticks)
      ensures exported == old(exported)
    {
      if filePath in fs && fs[filePath] != "" {
        var dataStr := fs[filePath];
        failure := ProcessTickString(dataStr);
      } else {
        assert pushed == old(pushed) + [];
        assert rows == old(rows) + Table(feed, old(pushed), []);
        failure := None;
      }
    }

    /** `start`'s loop over the journal folders, in order, stopping at the
        first exception. */
    method ProcessFolders(fs: map<string, string>, home: string, folders: seq<string>)
      returns (failure: Option<Error>)
      requires Valid()
      modifies this
      ensures var run := Replay(AllLines(fs, home, VtSymbolOf(), folders), reader);
        && pushed == old(pushed) + run.ticks && failure == run.failure
        && rows == old(rows) + Table(feed, old(pushed), run.ticks)
      ensures exported == old(exported)
    {
      ghost var f := reader;
      ghost var run := Replayed([], None);
      assert folders[..0] == [];
      var i := 0;
      while i < |folders|
        invariant 0 <= i <= |folders|
        invariant run == Replay(AllLines(fs, home, VtSymbolOf(), folders[..i]), f)
        invariant run.failure.None? && pushed == old(pushed) + run.ticks
        invariant rows == old(rows) + Table(feed, old(pushed), run.ticks)
        invariant exported == old(exported)
      {
        var filePath := FilePath(home, folders[i], VtSymbolOf());
        ghost var here := Replay(FolderLines(fs, filePath), f);
        FolderAdvance(fs, home, VtSymbolOf(), folders, i, f);
        failure := ProcessFolder(fs, filePath);
        Extend(old(pushed), old(rows), feed, run.ticks, here.ticks);
        run := Replayed(run.ticks + here.ticks, here.failure);
        if failure.Some? {
          assert run == Replay(AllLines(fs, home, VtSymbolOf(), folders), f);
          return;
        }
        i := i + 1;
      }
      assert folders[..i] == folders;
      failure := None;
    }

    /** `start`: the night journal, then the day journal, each skipped when
        missing or empty; the table, with every bar completed on the way,
        is written only when no exception escaped. */
    method Start(fs: map<string, string>, home: string) returns (failure: Option<Error>)
      requires Valid()
      modifies this
      ensures var run := Replay(AllLines(fs, home, VtSymbolOf(), Folders), reader);
        && pushed == old(pushed) + run.ticks && failure == run.failure
        && rows == old(rows) + Table(feed, old(pushed), run.ticks)
      ensures exported == if failure.None? then old(exported)[VtSymbolOf() + ".csv" := rows] else old(exported)
    {
      failure := ProcessFolders(fs, home, Folders);
      if failure.None? {
        ToCsv();
      }
    }
  }

  lemma AllLinesNext(fs: map<string, string>, home: string, vtSymbol: string, folders: seq<string>, i: nat)
    requires i < |folders|
    ensures AllLines(fs, home, vtSymbol, folders[..i + 1])
      == AllLines(fs, home, vtSymbol, folders[..i]) + FolderLines(fs, FilePath(home, folders[i], vtSymbol))
  {
    assert folders[..i + 1][..i] == folders[..i];
  }

  /** One more folder, while the replay of the earlier ones is running. */
  lemma FolderNext(fs: map<string, string>, home: string, vtSymbol: string, folders: seq<string>,
                   i: nat, f: LineFn)
    requires i < |folders|
    requires Replay(AllLines(fs, home, vtSymbol, folders[..i]), f).failure.None?
    ensures var prefix := Replay(AllLines(fs, home, vtSymbol, folders[..i]), f);
      var here := Replay(FolderLines(fs, FilePath(home, folders[i], vtSymbol)), f);
      Replay(AllLines(fs, home, vtSymbol, folders[..i + 1]), f) == Replayed(prefix.ticks + here.ticks, here.failure)
  {
    AllLinesNext(fs, home, vtSymbol, folders, i);
    ReplayConcat(AllLines(fs, home, vtSymbol, folders[..i]), FolderLines(fs, FilePath(home, folders[i], vtSymbol)), f);
  }

  /** One more folder while nothing has raised; if that folder raises, the
      run over all the folders is already complete. */
  lemma FolderAdvance(fs: map<string, string>, home: string, vtSymbol: string, folders: seq<string>,
                      i: nat, f: LineFn)
    requires i < |folders|
    requires Replay(AllLines(fs, home, vtSymbol, folders[..i]), f).failure.None?
    ensures var prefix := Replay(AllLines(fs, home, vtSymbol, folders[..i]), f);
      var here := Replay(FolderLines(fs, FilePath(home, folders[i], vtSymbol)), f);
      var next := Replayed(prefix.ticks + here.ticks, here.failure);
      && Replay(AllLines(fs, home, vtSymbol, folders[..i + 1]), f) == next
      && (here.failure.Some? ==> Replay(AllLines(fs, home, vtSymbol, folders), f) == next)
  {
    FolderNext(fs, home, vtSymbol, folders, i, f);
    if Replay(FolderLines(fs, FilePath(home, folders[i], vtSymbol)), f).failure.Some? {
      AllLinesStopped(fs, home, vtSymbol, folders, i + 1, f);
    }
  }

  /** Once a replay of the first folders has stopped, further folders do
      not change it. */
  lemma {:induction false} AllLinesStopped(fs: map<string, string>, home: string, vtSymbol: string,
                                           folders: seq<string>, n: nat, f: LineFn)
    requires n <= |folders|
    requires Replay(AllLines(fs, home, vtSymbol, folders[..n]), f).failure.Some?
    ensures Replay(AllLines(fs, home, vtSymbol, folders), f)
      == Replay(AllLines(fs, home, vtSymbol, folders[..n]), f)
    decreases |folders|
  {
    if n < |folders| {
      var m := |folders|;
      var pre := folders[..m - 1];
      assert pre[..n] == folders[..n];
      AllLinesStopped(fs, home, vtSymbol, pre, n, f);
      ReplayConcat(AllLines(fs, home, vtSymbol, pre), FolderLines(fs, FilePath(home, folders[m - 1], vtSymbol)), f);
    } else {
      assert folders[..n] == folders;
    }
  }
}
