/** Replaying a journal text: the lines come from splitting on `\n`, blank
    lines are skipped, every other line is decoded and assembled in file
    order, and the first exception aborts the rest of the replay. This is
    the common meaning of `process_total_data` (load_tick_data.py) and
    `_process_tick_string` (transform_tick_data.py). */
module JournalReader {
  import opened Wrappers
  import opened Text
  import opened Values
  import opened Codec
  import opened Assembler

  /** What one line yields: nothing for a blank line, otherwise the outcome
      of decoding and assembling it. */
  function LineResult(line: string, symbol: string, exchange: Exchange, p: Platform)
    : (r: Result<Option<Tick>, Error>)
    ensures r == Success(None) <==> IsBlank(line) || !Truthy(ParseLine(line), "UpdateTime")
  {
    if IsBlank(line) then Success(None) else Assemble(ParseLine(line), symbol, exchange, p)
  }

  /** What a replay does with one line. */
  type LineFn = string -> Result<Option<Tick>, Error>

  /** The journal reader's per-line function for one instrument. */
  function Reader(symbol: string, exchange: Exchange, p: Platform): LineFn {
    line => LineResult(line, symbol, exchange, p)
  }

  /** `f` gives every line the reader's outcome. The quantifier is
      instantiated only at lines whose outcome a proof names, which keeps
      the assembler's definition out of proofs about whole replays. */
  ghost predicate IsReader(f: LineFn, symbol: string, exchange: Exchange, p: Platform) {
    forall line {:trigger LineResult(line, symbol, exchange, p)} ::
      f(line) == LineResult(line, symbol, exchange, p)
  }

  /** One more line of a journal text, for a per-line function that is the
      reader's. */
  lemma ReaderNext(lines: seq<string>, i: nat, f: LineFn, symbol: string, exchange: Exchange, p: Platform)
    requires i < |lines| && IsReader(f, symbol, exchange, p)
    ensures var acc := Replay(lines[..i], f);
      var outcome := LineResult(lines[i], symbol, exchange, p);
      acc.failure.None? ==>
        Replay(lines[..i + 1], f) == Replayed(acc.ticks + Emits(outcome), Raised(outcome))
  {
    ReplayNext(lines, i, f);
    assert f(lines[i]) == LineResult(lines[i], symbol, exchange, p);
  }

  lemma ReaderIsReader(symbol: string, exchange: Exchange, p: Platform)
    ensures IsReader(Reader(symbol, exchange, p), symbol, exchange, p)
  {
  }

  /** The ticks produced so far, and the exception that stopped the replay. */
  datatype Replayed = Replayed(ticks: seq<Tick>, failure: Option<Error>)

  /** The ticks one assembly outcome hands on: its tick, if any. */
  function Emits(r: Result<Option<Tick>, Error>): (ticks: seq<Tick>)
    ensures |ticks| <= 1
    ensures ticks != [] <==> r.Success? && r.value.Some?
  {
    if r.Success? && r.value.Some? then [r.value.value] else []
  }

  /** The exception one assembly outcome raises, if any. */
  function Raised(r: Result<Option<Tick>, Error>): (e: Option<Error>)
    ensures e.Some? <==> r.Failure?
  {
    if r.Failure? then Some(r.error) else None
  }

  /** One more line, once the replay is still running. */
  function Step(acc: Replayed, line: string, f: LineFn): Replayed {
    if acc.failure.Some? then acc
    else Replayed(acc.ticks + Emits(f(line)), Raised(f(line)))
  }

  /** The lines, processed from first to last. */
  function Replay(lines: seq<string>, f: LineFn): Replayed
    decreases |lines|
  {
    if lines == [] then Replayed([], None)
    else Step(Replay(lines[..|lines| - 1], f), lines[|lines| - 1], f)
  }

  /** The lines of a journal text. */
  function Lines(text: string): seq<string> {
    Split(text, "\n")
  }

  /** An independent account of the ticks: each line's tick, if any, in
      line order, read from the front. */
  function Emitted(lines: seq<string>, f: LineFn): seq<Tick>
    decreases |lines|
  {
    if lines == [] then []
    else
      var rest := Emitted(lines[1..], f);
      match f(lines[0])
      case Success(Some(t)) => [t] + rest
      case _ => rest
  }

  lemma {:induction false} EmittedSnoc(lines: seq<string>, line: string, f: LineFn)
    ensures Emitted(lines + [line], f) ==
      Emitted(lines, f)
      + Emits(f(line))
    decreases |lines|
  {
    if lines == [] {
      assert [] + [line] == [line];
      assert [line][1..] == [];
    } else {
      assert (lines + [line])[0] == lines[0];
      assert (lines + [line])[1..] == lines[1..] + [line];
      EmittedSnoc(lines[1..], line, f);
    }
  }

  /** Replaying two texts' lines one after the other: the second runs only
      when the first finished without an exception. */
  lemma {:induction false} ReplayConcat(a: seq<string>, b: seq<string>, f: LineFn)
    ensures var ra := Replay(a, f);
      var rb := Replay(b, f);
      Replay(a + b, f)
        == if ra.failure.Some? then ra else Replayed(ra.ticks + rb.ticks, rb.failure)
    decreases |b|
  {
    if b == [] {
      assert a + b == a;
    } else {
      var n := |b|;
      assert (a + b)[..|a + b| - 1] == a + b[..n - 1];
      assert (a + b)[|a + b| - 1] == b[n - 1];
      ReplayConcat(a, b[..n - 1], f);
      var ra := Replay(a, f);
      var rb' := Replay(b[..n - 1], f);
      if ra.failure.None? && rb'.failure.None? {
        var e := Emits(f(b[n - 1]));
        assert ra.ticks + rb'.ticks + e == ra.ticks + (rb'.ticks + e);
      }
    }
  }

  /** One more line of the same text. */
  lemma ReplayNext(lines: seq<string>, i: nat, f: LineFn)
    requires i < |lines|
    ensures var acc := Replay(lines[..i], f);
      acc.failure.None? ==>
        Replay(lines[..i + 1], f) == Replayed(acc.ticks + Emits(f(lines[i])), Raised(f(lines[i])))
  {
    assert lines[..i + 1][..i] == lines[..i];
  }

  /** A replay stopped after a prefix of the lines is the replay of all. */
  lemma ReplayStopped(lines: seq<string>, i: nat, f: LineFn)
    requires i <= |lines| && Replay(lines[..i], f).failure.Some?
    ensures Replay(lines, f) == Replay(lines[..i], f)
  {
    ReplayConcat(lines[..i], lines[i..], f);
    assert lines[..i] + lines[i..] == lines;
  }

  /** A line that yields nothing (for the journal reader: a blank line, or
      one without `UpdateTime`) may be dropped from anywhere without
      changing the replay. */
  lemma SilentLineSkipped(a: seq<string>, line: string, b: seq<string>, f: LineFn)
    requires f(line) == Success(None)
    ensures Replay(a + [line] + b, f) == Replay(a + b, f)
  {
    ReplayConcat(a + [line], b, f);
    ReplayConcat(a, b, f);
    assert (a + [line])[..|a + [line]| - 1] == a;
  }

  /** The replay ends without an exception exactly when no line raises, and
      then its ticks are every line's tick in line order. */
  lemma {:induction false} ReplaySucceeds(lines: seq<string>, f: LineFn)
    ensures Replay(lines, f).failure.None?
      <==> forall i :: 0 <= i < |lines| ==> f(lines[i]).Success?
    ensures Replay(lines, f).failure.None? ==>
      Replay(lines, f).ticks == Emitted(lines, f)
    decreases |lines|
  {
    if lines != [] {
      var n := |lines|;
      var pre := lines[..n - 1];
      ReplaySucceeds(pre, f);
      assert forall i :: 0 <= i < n - 1 ==> pre[i] == lines[i];
      assert lines == pre + [lines[n - 1]];
      EmittedSnoc(pre, lines[n - 1], f);
      if Replay(pre, f).failure.Some? {
        var i :| 0 <= i < n - 1 && !f(pre[i]).Success?;
        assert !f(lines[i]).Success?;
      }
    }
  }

  /** When the replay stops, it stops at the first line that raises, with
      that line's exception, and has produced exactly the ticks of the lines
      before it. */
  lemma {:induction false} ReplayStopsAtFirstFailure(lines: seq<string>, f: LineFn)
    requires Replay(lines, f).failure.Some?
    ensures exists i ::
      && 0 <= i < |lines|
      && f(lines[i]) == Failure(Replay(lines, f).failure.value)
      && (forall j :: 0 <= j < i ==> f(lines[j]).Success?)
      && Replay(lines, f).ticks == Emitted(lines[..i], f)
    decreases |lines|
  {
    var n := |lines|;
    var pre := lines[..n - 1];
    var r := Replay(lines, f);
    assert forall i :: 0 <= i < n - 1 ==> pre[i] == lines[i];
    if Replay(pre, f).failure.Some? {
      ReplayStopsAtFirstFailure(pre, f);
      var i :| 0 <= i < |pre|
        && f(pre[i]) == Failure(Replay(pre, f).failure.value)
        && (forall j :: 0 <= j < i ==> f(pre[j]).Success?)
        && Replay(pre, f).ticks == Emitted(pre[..i], f);
      assert pre[..i] == lines[..i];
    } else {
      ReplaySucceeds(pre, f);
      assert lines[..n - 1] == pre;
      assert f(lines[n - 1]) == Failure(r.failure.value);
    }
  }

  /** A tick of the instrument replayed, with five book levels and no
      sentinel in any price the sanitizer runs on: the five scalar prices
      and every bid and ask price of the book. */
  predicate Sound(t: Tick, symbol: string, exchange: Exchange) {
    && t.Valid() && t.symbol == symbol && t.exchange == exchange
    && t.gatewayName == GatewayName
    && t.lastPrice != Sentinel && t.openPrice != Sentinel && t.highPrice != Sentinel
    && t.lowPrice != Sentinel && t.preClose != Sentinel
    && (forall i :: 0 <= i < 5 ==> t.bidPrice[i] != Sentinel && t.askPrice[i] != Sentinel)
  }

  /** A line in the journal format whose keys carry Python's quotes yields
      no tick and no exception: the decoder keeps the quotes, so the line
      has no `UpdateTime`. */
  lemma QuotedLineYieldsNothing(pairs: seq<(string, string)>, symbol: string, exchange: Exchange, p: Platform)
    requires forall i :: 0 <= i < |pairs| ==> Plain(pairs[i].0) && Plain(pairs[i].1)
    requires forall i :: 0 <= i < |pairs| ==> pairs[i].0 != "" && pairs[i].0[0] == '\''
    ensures LineResult(EncodeLine(pairs), symbol, exchange, p) == Success(None)
  {
    QuotedKeysKept(pairs);
  }

  /** The tick one line yields, if any, is sound. */
  lemma LineTickSound(line: string, symbol: string, exchange: Exchange, p: Platform)
    ensures forall t :: t in Emits(LineResult(line, symbol, exchange, p)) ==> Sound(t, symbol, exchange)
  {
    var r := LineResult(line, symbol, exchange, p);
    if r.Success? && r.value.Some? {
      var t := r.value.value;
      var d := ParseLine(line);
      assert r == Assemble(d, symbol, exchange, p);
      BookSanitized(t, d, p);
      assert Sound(t, symbol, exchange);
      assert Emits(r) == [t];
    } else {
      assert Emits(r) == [];
    }
  }

  /** Every tick a replay produces is sound. */
  lemma {:induction false} ReplayTicksWellFormed(lines: seq<string>, symbol: string, exchange: Exchange, p: Platform)
    ensures forall t :: t in Replay(lines, Reader(symbol, exchange, p)).ticks ==> Sound(t, symbol, exchange)
    decreases |lines|
  {
    if lines != [] {
      var f := Reader(symbol, exchange, p);
      var pre := lines[..|lines| - 1];
      var line := lines[|lines| - 1];
      ReplayTicksWellFormed(pre, symbol, exchange, p);
      LineTickSound(line, symbol, exchange, p);
      assert f(line) == LineResult(line, symbol, exchange, p);
      assert Replay(lines, f) == Step(Replay(pre, f), line, f);
    }
  }

  /** At most one tick per line. */
  lemma {:induction false} ReplayTickCount(lines: seq<string>, f: LineFn)
    ensures |Replay(lines, f).ticks| <= |lines|
    decreases |lines|
  {
    if lines != [] {
      ReplayTickCount(lines[..|lines| - 1], f);
    }
  }

  /** Replays with per-line functions that agree on every line agree. */
  lemma {:induction false} ReplayAgrees(lines: seq<string>, f: LineFn, g: LineFn)
    requires forall i :: 0 <= i < |lines| ==> f(lines[i]) == g(lines[i])
    ensures Replay(lines, f) == Replay(lines, g)
    decreases |lines|
  {
    if lines != [] {
      var pre := lines[..|lines| - 1];
      assert forall i :: 0 <= i < |pre| ==> pre[i] == lines[i];
      ReplayAgrees(pre, f, g);
    }
  }

  lemma ReaderReplay(lines: seq<string>, f: LineFn, symbol: string, exchange: Exchange, p: Platform)
    requires IsReader(f, symbol, exchange, p)
    ensures Replay(lines, f) == Replay(lines, Reader(symbol, exchange, p))
  {
    forall i | 0 <= i < |lines|
      ensures f(lines[i]) == Reader(symbol, exchange, p)(lines[i])
    {
      assert f(lines[i]) == LineResult(lines[i], symbol, exchange, p);
    }
    ReplayAgrees(lines, f, Reader(symbol, exchange, p));
  }
}
