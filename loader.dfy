/** `TickFileLoader` of load_tick_data.py: replays one journal text for the
    instrument `symbol.exchange`. The Python methods return nothing and drop
    the tick they build; here the ticks are returned so that what the loader
    computes can be stated. */
module Loader {
  import opened Wrappers
  import opened Text
  import opened Values
  import opened Codec
  import opened Assembler
  import opened JournalReader

  /** `_parse_line_to_tick`: decode the line, then assemble the dictionary. */
  method ParseLineToTick(line: string, symbol: string, exchange: Exchange, p: Platform)
    returns (r: Result<Option<Tick>, Error>)
    ensures r == Assemble(ParseLine(line), symbol, exchange, p)
  {
    var tickDict := ParseLineToDict(line);
    r := DictToTick(tickDict, symbol, exchange, p);
  }

  /** `process_total_data`: every non-blank line in file order, stopping at
      the first exception. */
  method ProcessTotalData(dataStr: string, symbol: string, exchange: Exchange, p: Platform)
    returns (replayed: Replayed)
    ensures replayed == Replay(Lines(dataStr), Reader(symbol, exchange, p))
  {
    ReaderIsReader(symbol, exchange, p);
    ghost var f: LineFn :| IsReader(f, symbol, exchange, p);
    var tickLines := Split(dataStr, "\n");
    var ticks: seq<Tick> := [];
    var i := 0;
    while i < |tickLines|
      invariant 0 <= i <= |tickLines|
      invariant Replay(tickLines[..i], f) == Replayed(ticks, None)
    {
      var line := tickLines[i];
      ReaderNext(tickLines, i, f, symbol, exchange, p);
      if !IsBlank(line) {
        var r := ParseLineToTick(line, symbol, exchange, p);
        if r.Failure? {
          replayed := Replayed(ticks, Some(r.error));
          ReplayStopped(tickLines, i + 1, f);
          ReaderReplay(tickLines, f, symbol, exchange, p);
          return;
        }
        if r.value.Some? {
          ticks := ticks + [r.value.value];
        }
      }
      i := i + 1;
    }
    assert tickLines[..i] == tickLines;
    replayed := Replayed(ticks, None);
    ReaderReplay(tickLines, f, symbol, exchange, p);
  }
}
