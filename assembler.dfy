/** The tick assembler, `_dict_to_tick` of load_tick_data.py and the first
    part of `_generate_tick` of transform_tick_data.py (the two are the same
    code): from a decoded dictionary to no tick, a tick, or the exception
    the Python code raises. */
module Assembler {
  import opened Wrappers
  import opened Text
  import opened Values

  const StampFormat: string := "%Y%m%d %H:%M:%S.%f"
  const LocalFormat: string := "%Y-%m-%d %H:%M:%S"
  const GatewayName: string := "local_gateway"

  /** The scalar fields `TickData(...)` reads, in the order it reads them. */
  const NumberKeys: set<string> := {
    "Volume", "Turnover", "OpenInterest", "LastPrice", "UpperLimitPrice",
    "LowerLimitPrice", "OpenPrice", "HighestPrice", "LowestPrice",
    "PreClosePrice", "BidPrice1", "AskPrice1", "BidVolume1", "AskVolume1"}

  /** Every field an assembly needs once `UpdateTime` is set. */
  const RequiredKeys: set<string> := NumberKeys + {"UpdateMillisec", "localtime"}

  /** The depth fields of levels 2 to 5, per side and kind. */
  const BidPriceKeys: seq<string> := ["BidPrice2", "BidPrice3", "BidPrice4", "BidPrice5"]
  const AskPriceKeys: seq<string> := ["AskPrice2", "AskPrice3", "AskPrice4", "AskPrice5"]
  const BidVolumeKeys: seq<string> := ["BidVolume2", "BidVolume3", "BidVolume4", "BidVolume5"]
  const AskVolumeKeys: seq<string> := ["AskVolume2", "AskVolume3", "AskVolume4", "AskVolume5"]
  /** `data.get(key)` is truthy: the field is present and not empty. */
  predicate Truthy(d: Dict, key: string) {
    key in d && d[key] != ""
  }

  /** `data.get("BidVolume2") or data.get("AskVolume2")`. */
  predicate HasDepth(d: Dict) {
    Truthy(d, "BidVolume2") || Truthy(d, "AskVolume2")
  }

  /** `data[key]`. */
  function Lookup(d: Dict, key: string): Result<string, Error> {
    if key in d then Success(d[key]) else Failure(KeyError(key))
  }

  /** The field is present and `float()` accepts it. */
  predicate Reads(d: Dict, key: string, p: Platform) {
    key in d && p.parseFloat(d[key]).Some?
  }

  /** `float(data[key])`. */
  function ReadNumber(d: Dict, key: string, p: Platform): (r: Result<Float, Error>)
    ensures r.Success? <==> Reads(d, key, p)
    ensures r.Success? ==> r.value == p.parseFloat(d[key]).value
    ensures r.Failure? ==> r.error == if key in d then ValueError(d[key]) else KeyError(key)
  {
    if key !in d then Failure(KeyError(key))
    else match p.parseFloat(d[key])
      case Some(x) => Success(x)
      case None => Failure(ValueError(d[key]))
  }

  /** `_adjust_price(float(data[key]))`. */
  function ReadPrice(d: Dict, key: string, p: Platform): (r: Result<Float, Error>)
    ensures r.Success? <==> Reads(d, key, p)
    ensures r.Success? ==> r.value == AdjustPrice(p.parseFloat(d[key]).value)
    ensures r.Failure? ==> r.error == ReadNumber(d, key, p).error
  {
    var x :- ReadNumber(d, key, p);
    Success(AdjustPrice(x))
  }

  /** `datetime.strptime(text, format)`. */
  function ParseTime(p: Platform, text: string, format: string): Result<DateTime, Error> {
    match p.strptime(text, format)
    case Some(t) => Success(t)
    case None => Failure(ValueError(text))
  }

  /** Every scalar field `TickData(...)` reads is present and parses. */
  predicate NumbersReadable(d: Dict, p: Platform) {
    && Reads(d, "Volume", p) && Reads(d, "Turnover", p) && Reads(d, "OpenInterest", p)
    && Reads(d, "LastPrice", p) && Reads(d, "UpperLimitPrice", p) && Reads(d, "LowerLimitPrice", p)
    && Reads(d, "OpenPrice", p) && Reads(d, "HighestPrice", p) && Reads(d, "LowestPrice", p)
    && Reads(d, "PreClosePrice", p) && Reads(d, "BidPrice1", p) && Reads(d, "AskPrice1", p)
    && Reads(d, "BidVolume1", p) && Reads(d, "AskVolume1", p)
  }

  lemma NumbersReadableKeys(d: Dict, p: Platform)
    ensures NumbersReadable(d, p) <==> forall k :: k in NumberKeys ==> Reads(d, k, p)
  {
  }

  /** The value `float()` gives the field. */
  function Num(d: Dict, key: string, p: Platform): Float
    requires Reads(d, key, p)
  {
    p.parseFloat(d[key]).value
  }

  // ---------------------------------------------------------------------
  // Session date.

  /** `localtime.split(' ')[0].replace('-', '')`. */
  function LocalDate(localtime: string): string {
    Remove(Split(localtime, " ")[0], "-")
  }

  /** The local date is the text before the first space of `localtime`,
      with every `-` taken out. */
  lemma LocalDateMeaning(localtime: string)
    ensures exists h ::
      && h <= localtime && ' ' !in h
      && (|h| < |localtime| ==> localtime[|h|] == ' ')
      && LocalDate(localtime) == Without(h, '-')
    ensures '-' !in LocalDate(localtime)
  {
    var h := Split(localtime, " ")[0];
    SplitHead(localtime, " ");
    if ' ' in h {
      var i :| 0 <= i < |h| && h[i] == ' ';
      assert OccursAt(h, " ", i);
    }
    if |h| < |localtime| {
      assert OccursAt(localtime, " ", |h|);
      assert localtime[|h|..|h| + 1] == " ";
    }
    RemoveChar(h, '-');
    WithoutEliminates(h, '-');
  }

  /** The trading date of the snapshot: for DCE, or when `ActionDay` is
      missing or empty, the date part of `localtime`; otherwise `ActionDay`
      as it stands. */
  function SessionDate(d: Dict, exchange: Exchange): (r: Result<string, Error>)
    ensures exchange != DCE && Truthy(d, "ActionDay") ==> r == Success(d["ActionDay"])
    ensures exchange == DCE || !Truthy(d, "ActionDay") ==>
      (r.Success? <==> "localtime" in d)
      && (r.Success? ==> r.value == LocalDate(d["localtime"]))
      && (r.Failure? ==> r.error == KeyError("localtime"))
  {
    if !Truthy(d, "ActionDay") || exchange == DCE then
      var localtime :- Lookup(d, "localtime");
      Success(LocalDate(localtime))
    else
      Success(d["ActionDay"])
  }

  // ---------------------------------------------------------------------
  // The tick.

  /** The top-of-book and scalar fields of `t` are those of `d`: read with
      `float()`, sanitized for last, open, high, low, previous close and the
      best bid and ask prices, taken as read for the limits, volumes,
      turnover and open interest. */
  predicate TopFrom(t: Tick, d: Dict, p: Platform) {
    && NumbersReadable(d, p)
    && "localtime" in d && p.strptime(d["localtime"], LocalFormat) == Some(t.localtime)
    && t.Valid()
    && t.volume == Num(d, "Volume", p)
    && t.turnover == Num(d, "Turnover", p)
    && t.openInterest == Num(d, "OpenInterest", p)
    && t.lastPrice == AdjustPrice(Num(d, "LastPrice", p))
    && t.limitUp == Num(d, "UpperLimitPrice", p)
    && t.limitDown == Num(d, "LowerLimitPrice", p)
    && t.openPrice == AdjustPrice(Num(d, "OpenPrice", p))
    && t.highPrice == AdjustPrice(Num(d, "HighestPrice", p))
    && t.lowPrice == AdjustPrice(Num(d, "LowestPrice", p))
    && t.preClose == AdjustPrice(Num(d, "PreClosePrice", p))
    && t.bidPrice[0] == AdjustPrice(Num(d, "BidPrice1", p))
    && t.askPrice[0] == AdjustPrice(Num(d, "AskPrice1", p))
    && t.bidVolume[0] == Num(d, "BidVolume1", p)
    && t.askVolume[0] == Num(d, "AskVolume1", p)
  }

  /** All sixteen depth fields are present and parse. */
  predicate DepthReadable(d: Dict, p: Platform) {
    forall i :: 0 <= i < 4 ==>
      Reads(d, BidPriceKeys[i], p) && Reads(d, AskPriceKeys[i], p)
      && Reads(d, BidVolumeKeys[i], p) && Reads(d, AskVolumeKeys[i], p)
  }

  /** Levels 2 to 5 of `t` are those of `d`, prices sanitized. */
  predicate DepthFrom(t: Tick, d: Dict, p: Platform)
    requires t.Valid()
  {
    DepthReadable(d, p)
    && forall i :: 0 <= i < 4 ==>
      && t.bidPrice[i + 1] == AdjustPrice(Num(d, BidPriceKeys[i], p))
      && t.askPrice[i + 1] == AdjustPrice(Num(d, AskPriceKeys[i], p))
      && t.bidVolume[i + 1] == Num(d, BidVolumeKeys[i], p)
      && t.askVolume[i + 1] == Num(d, AskVolumeKeys[i], p)
  }

  /** Levels 2 to 5 of `t` keep `TickData`'s default of zero. */
  predicate NoDepth(t: Tick)
    requires t.Valid()
  {
    forall i :: 1 <= i < 5 ==>
      t.bidPrice[i] == Zero && t.askPrice[i] == Zero
      && t.bidVolume[i] == Zero && t.askVolume[i] == Zero
  }

  /** `TickData(...)`: reads the scalar fields and `localtime` in the order
      the keyword arguments are evaluated; depth levels stay zero. */
  function BaseTick(d: Dict, symbol: string, exchange: Exchange, dt: DateTime, p: Platform)
    : (r: Result<Tick, Error>)
    ensures r.Success? <==>
      NumbersReadable(d, p) && "localtime" in d && p.strptime(d["localtime"], LocalFormat).Some?
    ensures r.Success? ==>
      && TopFrom(r.value, d, p) && NoDepth(r.value)
      && r.value.symbol == symbol && r.value.exchange == exchange
      && r.value.datetime == dt && r.value.gatewayName == GatewayName
    ensures r.Failure? && r.error.KeyError? ==> r.error.key !in d
  {
    var volume :- ReadNumber(d, "Volume", p);
    var turnover :- ReadNumber(d, "Turnover", p);
    var openInterest :- ReadNumber(d, "OpenInterest", p);
    var lastPrice :- ReadPrice(d, "LastPrice", p);
    var limitUp :- ReadNumber(d, "UpperLimitPrice", p);
    var limitDown :- ReadNumber(d, "LowerLimitPrice", p);
    var openPrice :- ReadPrice(d, "OpenPrice", p);
    var highPrice :- ReadPrice(d, "HighestPrice", p);
    var lowPrice :- ReadPrice(d, "LowestPrice", p);
    var preClose :- ReadPrice(d, "PreClosePrice", p);
    var bidPrice1 :- ReadPrice(d, "BidPrice1", p);
    var askPrice1 :- ReadPrice(d, "AskPrice1", p);
    var bidVolume1 :- ReadNumber(d, "BidVolume1", p);
    var askVolume1 :- ReadNumber(d, "AskVolume1", p);
    var localText :- Lookup(d, "localtime");
    var localtime :- ParseTime(p, localText, LocalFormat);
    Success(Tick(symbol, exchange, dt, volume, turnover, openInterest,
                 lastPrice, limitUp, limitDown, openPrice, highPrice, lowPrice, preClose,
                 [bidPrice1, Zero, Zero, Zero, Zero], [askPrice1, Zero, Zero, Zero, Zero],
                 [bidVolume1, Zero, Zero, Zero, Zero], [askVolume1, Zero, Zero, Zero, Zero],
                 GatewayName, localtime))
  }

  /** Levels 2 to 5, as the sixteen assignments after `TickData(...)` read them. */
  datatype Depth = Depth(bidPrice: seq<Float>, askPrice: seq<Float>,
                         bidVolume: seq<Float>, askVolume: seq<Float>)

  /** One field: sanitized when it is a price. */
  function ReadField(d: Dict, key: string, price: bool, p: Platform): Result<Float, Error> {
    if price then ReadPrice(d, key, p) else ReadNumber(d, key, p)
  }

  /** The value one field contributes once it reads. */
  function FieldValue(d: Dict, key: string, price: bool, p: Platform): Float
    requires Reads(d, key, p)
  {
    if price then AdjustPrice(Num(d, key, p)) else Num(d, key, p)
  }

  /** Four fields of one side and kind, levels 2 to 5, read in order. */
  function ReadFour(d: Dict, keys: seq<string>, price: bool, p: Platform): (r: Result<seq<Float>, Error>)
    requires |keys| == 4
    ensures r.Success? <==> forall i :: 0 <= i < 4 ==> Reads(d, keys[i], p)
    ensures r.Success? ==>
      |r.value| == 4 && forall i :: 0 <= i < 4 ==> r.value[i] == FieldValue(d, keys[i], price, p)
    ensures r.Failure? && r.error.KeyError? ==> r.error.key !in d
  {
    var x2 :- ReadField(d, keys[0], price, p);
    var x3 :- ReadField(d, keys[1], price, p);
    var x4 :- ReadField(d, keys[2], price, p);
    var x5 :- ReadField(d, keys[3], price, p);
    Success([x2, x3, x4, x5])
  }

  /** The sixteen depth fields, in the order `_dict_to_tick` assigns them. */
  function ReadDepth(d: Dict, p: Platform): (r: Result<Depth, Error>)
    ensures r.Success? <==> DepthReadable(d, p)
    ensures r.Success? ==>
      |r.value.bidPrice| == 4 && |r.value.askPrice| == 4
      && |r.value.bidVolume| == 4 && |r.value.askVolume| == 4
      && forall i :: 0 <= i < 4 ==>
        && r.value.bidPrice[i] == AdjustPrice(Num(d, BidPriceKeys[i], p))
        && r.value.askPrice[i] == AdjustPrice(Num(d, AskPriceKeys[i], p))
        && r.value.bidVolume[i] == Num(d, BidVolumeKeys[i], p)
        && r.value.askVolume[i] == Num(d, AskVolumeKeys[i], p)
    ensures r.Failure? && r.error.KeyError? ==> r.error.key !in d
  {
    var bidPrices :- ReadFour(d, BidPriceKeys, true, p);
    var askPrices :- ReadFour(d, AskPriceKeys, true, p);
    var bidVolumes :- ReadFour(d, BidVolumeKeys, false, p);
    var askVolumes :- ReadFour(d, AskVolumeKeys, false, p);
    Success(Depth(bidPrices, askPrices, bidVolumes, askVolumes))
  }

  /** The tick with levels 2 to 5 replaced by those read. */
  function WithDepth(base: Tick, depth: Depth): Tick
    requires base.Valid()
  {
    base.(bidPrice := [base.bidPrice[0]] + depth.bidPrice,
          askPrice := [base.askPrice[0]] + depth.askPrice,
          bidVolume := [base.bidVolume[0]] + depth.bidVolume,
          askVolume := [base.askVolume[0]] + depth.askVolume)
  }

  /** The composed exchange timestamp text. */
  function StampText(d: Dict, exchange: Exchange): string
    requires SessionDate(d, exchange).Success? && "UpdateTime" in d && "UpdateMillisec" in d
  {
    SessionDate(d, exchange).value + " " + d["UpdateTime"] + "." + d["UpdateMillisec"]
  }

  /** Every step up to `TickData(...)` succeeds: the session date resolves,
      the timestamp parses, the scalar fields and `localtime` parse. */
  predicate Complete(d: Dict, exchange: Exchange, p: Platform) {
    && "UpdateTime" in d
    && SessionDate(d, exchange).Success? && "UpdateMillisec" in d
    && p.strptime(StampText(d, exchange), StampFormat).Some?
    && NumbersReadable(d, p)
    && "localtime" in d && p.strptime(d["localtime"], LocalFormat).Some?
    && (HasDepth(d) ==> DepthReadable(d, p))
  }

  /** The whole book of an assembled tick is sanitized: no bid or ask price
      at any of the five levels is the sentinel. */
  lemma BookSanitized(t: Tick, d: Dict, p: Platform)
    requires TopFrom(t, d, p)
    requires HasDepth(d) ==> DepthFrom(t, d, p)
    requires !HasDepth(d) ==> NoDepth(t)
    ensures forall i :: 0 <= i < 5 ==> t.bidPrice[i] != Sentinel && t.askPrice[i] != Sentinel
  {
    forall i | 0 <= i < 5 ensures t.bidPrice[i] != Sentinel && t.askPrice[i] != Sentinel {
      if i > 0 && HasDepth(d) {
        assert t.bidPrice[i] == AdjustPrice(Num(d, BidPriceKeys[i - 1], p));
        assert t.askPrice[i] == AdjustPrice(Num(d, AskPriceKeys[i - 1], p));
      }
    }
  }

  /** `_dict_to_tick` as a function: no tick without `UpdateTime`, otherwise
      the tick or the first exception raised on the way. */
  function Assemble(d: Dict, symbol: string, exchange: Exchange, p: Platform)
    : (r: Result<Option<Tick>, Error>)
    ensures !Truthy(d, "UpdateTime") <==> r == Success(None)
    ensures Truthy(d, "UpdateTime") ==> (r.Failure? <==> !Complete(d, exchange, p))
    ensures r.Success? && r.value.Some? ==>
      var t := r.value.value;
      && Complete(d, exchange, p)
      && t.symbol == symbol && t.exchange == exchange && t.gatewayName == GatewayName
      && p.strptime(StampText(d, exchange), StampFormat) == Some(t.datetime)
      && TopFrom(t, d, p)
      && (HasDepth(d) ==> DepthFrom(t, d, p))
      && (!HasDepth(d) ==> NoDepth(t))
    ensures r.Failure? && r.error.KeyError? ==> r.error.key !in d
  {
    if !Truthy(d, "UpdateTime") then Success(None)
    else
      var dateStr :- SessionDate(d, exchange);
      var ms :- Lookup(d, "UpdateMillisec");
      var dt :- ParseTime(p, dateStr + " " + d["UpdateTime"] + "." + ms, StampFormat);
      var base :- BaseTick(d, symbol, exchange, dt, p);
      if HasDepth(d) then
        var depth :- ReadDepth(d, p);
        Success(Some(WithDepth(base, depth)))
      else
        Success(Some(base))
  }

  /** With `UpdateTime` set, a snapshot missing any required field, or any
      depth field while level 2 volume is present, raises. */
  lemma MissingKeyRaises(d: Dict, symbol: string, exchange: Exchange, p: Platform, k: string)
    requires Truthy(d, "UpdateTime") && k !in d
    requires k in RequiredKeys
      || (HasDepth(d) && k in BidPriceKeys + AskPriceKeys + BidVolumeKeys + AskVolumeKeys)
    ensures Assemble(d, symbol, exchange, p).Failure?
  {
    NumbersReadableKeys(d, p);
    if k !in RequiredKeys {
      var keys := BidPriceKeys + AskPriceKeys + BidVolumeKeys + AskVolumeKeys;
      var j :| 0 <= j < 16 && keys[j] == k;
      assert !DepthReadable(d, p) by {
        if j < 4 { assert BidPriceKeys[j] == k; }
        else if j < 8 { assert AskPriceKeys[j - 4] == k; }
        else if j < 12 { assert BidVolumeKeys[j - 8] == k; }
        else { assert AskVolumeKeys[j - 12] == k; }
      }
    }
  }

  /** The four `bidPrice` assignments of levels 2 to 5. */
  method SetBidPrices(base: Tick, d: Dict, p: Platform) returns (r: Result<Tick, Error>)
    requires base.Valid()
    ensures r.Success? <==> ReadFour(d, BidPriceKeys, true, p).Success?
    ensures r.Success? ==>
      r.value == base.(bidPrice := [base.bidPrice[0]] + ReadFour(d, BidPriceKeys, true, p).value)
    ensures r.Failure? ==> r.error == ReadFour(d, BidPriceKeys, true, p).error
  {
    var tick := base;
    var x: Float;
    x :- ReadPrice(d, "BidPrice2", p);
    tick := tick.(bidPrice := tick.bidPrice[1 := x]);
    x :- ReadPrice(d, "BidPrice3", p);
    tick := tick.(bidPrice := tick.bidPrice[2 := x]);
    x :- ReadPrice(d, "BidPrice4", p);
    tick := tick.(bidPrice := tick.bidPrice[3 := x]);
    x :- ReadPrice(d, "BidPrice5", p);
    tick := tick.(bidPrice := tick.bidPrice[4 := x]);
    assert tick.bidPrice == [base.bidPrice[0]] + ReadFour(d, BidPriceKeys, true, p).value;
    return Success(tick);
  }

  /** The four `askPrice` assignments of levels 2 to 5. */
  method SetAskPrices(base: Tick, d: Dict, p: Platform) returns (r: Result<Tick, Error>)
    requires base.Valid()
    ensures r.Success? <==> ReadFour(d, AskPriceKeys, true, p).Success?
    ensures r.Success? ==>
      r.value == base.(askPrice := [base.askPrice[0]] + ReadFour(d, AskPriceKeys, true, p).value)
    ensures r.Failure? ==> r.error == ReadFour(d, AskPriceKeys, true, p).error
  {
    var tick := base;
    var x: Float;
    x :- ReadPrice(d, "AskPrice2", p);
    tick := tick.(askPrice := tick.askPrice[1 := x]);
    x :- ReadPrice(d, "AskPrice3", p);
    tick := tick.(askPrice := tick.askPrice[2 := x]);
    x :- ReadPrice(d, "AskPrice4", p);
    tick := tick.(askPrice := tick.askPrice[3 := x]);
    x :- ReadPrice(d, "AskPrice5", p);
    tick := tick.(askPrice := tick.askPrice[4 := x]);
    assert tick.askPrice == [base.askPrice[0]] + ReadFour(d, AskPriceKeys, true, p).value;
    return Success(tick);
  }

  /** The four `bidVolume` assignments of levels 2 to 5. */
  method SetBidVolumes(base: Tick, d: Dict, p: Platform) returns (r: Result<Tick, Error>)
    requires base.Valid()
    ensures r.Success? <==> ReadFour(d, BidVolumeKeys, false, p).Success?
    ensures r.Success? ==>
      r.value == base.(bidVolume := [base.bidVolume[0]] + ReadFour(d, BidVolumeKeys, false, p).value)
    ensures r.Failure? ==> r.error == ReadFour(d, BidVolumeKeys, false, p).error
  {
    var tick := base;
    var x: Float;
    x :- ReadNumber(d, "BidVolume2", p);
    tick := tick.(bidVolume := tick.bidVolume[1 := x]);
    x :- ReadNumber(d, "BidVolume3", p);
    tick := tick.(bidVolume := tick.bidVolume[2 := x]);
    x :- ReadNumber(d, "BidVolume4", p);
    tick := tick.(bidVolume := tick.bidVolume[3 := x]);
    x :- ReadNumber(d, "BidVolume5", p);
    tick := tick.(bidVolume := tick.bidVolume[4 := x]);
    assert tick.bidVolume == [base.bidVolume[0]] + ReadFour(d, BidVolumeKeys, false, p).value;
    return Success(tick);
  }

  /** The four `askVolume` assignments of levels 2 to 5. */
  method SetAskVolumes(base: Tick, d: Dict, p: Platform) returns (r: Result<Tick, Error>)
    requires base.Valid()
    ensures r.Success? <==> ReadFour(d, AskVolumeKeys, false, p).Success?
    ensures r.Success? ==>
      r.value == base.(askVolume := [base.askVolume[0]] + ReadFour(d, AskVolumeKeys, false, p).value)
    ensures r.Failure? ==> r.error == ReadFour(d, AskVolumeKeys, false, p).error
  {
    var tick := base;
    var x: Float;
    x :- ReadNumber(d, "AskVolume2", p);
    tick := tick.(askVolume := tick.askVolume[1 := x]);
    x :- ReadNumber(d, "AskVolume3", p);
    tick := tick.(askVolume := tick.askVolume[2 := x]);
    x :- ReadNumber(d, "AskVolume4", p);
    tick := tick.(askVolume := tick.askVolume[3 := x]);
    x :- ReadNumber(d, "AskVolume5", p);
    tick := tick.(askVolume := tick.askVolume[4 := x]);
    assert tick.askVolume == [base.askVolume[0]] + ReadFour(d, AskVolumeKeys, false, p).value;
    return Success(tick);
  }

  /** The sixteen depth assignments of `_dict_to_tick`, stopping at the
      first field that is missing or does not parse. */
  method SetDepth(base: Tick, d: Dict, p: Platform) returns (r: Result<Tick, Error>)
    requires base.Valid()
    ensures ReadDepth(d, p).Success? <==> r.Success?
    ensures r.Success? ==> r.value == WithDepth(base, ReadDepth(d, p).value)
    ensures r.Failure? ==> r.error == ReadDepth(d, p).error
  {
    var tick := base;
    tick :- SetBidPrices(tick, d, p);
    tick :- SetAskPrices(tick, d, p);
    tick :- SetBidVolumes(tick, d, p);
    tick :- SetAskVolumes(tick, d, p);
    return Success(tick);
  }

  /** `_dict_to_tick` step by step: build the tick, then assign the sixteen
      depth attributes one at a time when level 2 volume is present. */
  method DictToTick(d: Dict, symbol: string, exchange: Exchange, p: Platform)
    returns (r: Result<Option<Tick>, Error>)
    ensures r == Assemble(d, symbol, exchange, p)
  {
    if !Truthy(d, "UpdateTime") {
      return Success(None);
    }
    var dateStr :- SessionDate(d, exchange);
    var ms :- Lookup(d, "UpdateMillisec");
    var timestampStr := dateStr + " " + d["UpdateTime"] + "." + ms;
    var dt :- ParseTime(p, timestampStr, StampFormat);
    var tick :- BaseTick(d, symbol, exchange, dt, p);
    if HasDepth(d) {
      tick :- SetDepth(tick, d, p);
    }
    return Success(Some(tick));
  }
}
