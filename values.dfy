/** The values the tick pipeline works with: raw snapshots, venues, the
    platform's number and date parsing, the canonical tick record, and the
    price sanitizer. */
module Values {
  import opened Wrappers

  /** A raw snapshot or a decoded journal line: field name to field text. */
  type Dict = map<string, string>

  /** An IEEE-754 double, by its bit pattern. Python compares floats by
      value; the only pattern equal to the largest finite double is that
      double itself, so equality with the sentinel is equality of bits. */
  datatype Float = Float(bits: bv64)

  /** `sys.float_info.max`, which some venues put in fields they leave unset. */
  const Sentinel: Float := Float(0x7FEF_FFFF_FFFF_FFFF)

  /** The value `_adjust_price` returns for the sentinel. */
  const Zero: Float := Float(0)

  /** `_adjust_price`: the sentinel becomes zero, every other value passes
      through unchanged (negative values included). */
  function AdjustPrice(price: Float): (r: Float)
    ensures price == Sentinel ==> r == Zero
    ensures price != Sentinel ==> r == price
    ensures r != Sentinel
  {
    if price == Sentinel then Zero else price
  }

  /** A `datetime` value, as far as the model needs one. */
  datatype DateTime = DateTime(year: int, month: int, day: int,
                               hour: int, minute: int, second: int, microsecond: int)

  /** The library behaviour the assembler calls but the model does not
      define: Python's `float(text)` and `datetime.strptime(text, format)`;
      `None` stands for the `ValueError` either raises. */
  datatype Platform = Platform(
    parseFloat: string -> Option<Float>,
    strptime: (string, string) -> Option<DateTime>)

  /** The exceptions an assembly can raise. */
  datatype Error =
    | KeyError(key: string)      // a required field is missing
    | ValueError(text: string)   // a field's text does not parse

  /** The venues the CTP feed reports. */
  datatype Exchange = CFFEX | SHFE | CZCE | DCE | INE | GFEX {
    /** The exchange's code, `Exchange.value` in vn.py. */
    function Value(): (code: string)
      ensures code != "" && '.' !in code
    {
      match this
      case CFFEX => "CFFEX"
      case SHFE => "SHFE"
      case CZCE => "CZCE"
      case DCE => "DCE"
      case INE => "INE"
      case GFEX => "GFEX"
    }
  }

  /** `f"{symbol}.{exchange.value}"`, the key a loader is created with. */
  function VtSymbol(symbol: string, exchange: Exchange): string {
    symbol + "." + exchange.Value()
  }

  /** Text, a dot, and a dot-free suffix: the suffix and the text before it
      are determined by the whole. */
  lemma DotSuffixUnique(a1: string, c1: string, a2: string, c2: string)
    requires '.' !in c1 && '.' !in c2
    requires a1 + "." + c1 == a2 + "." + c2
    ensures a1 == a2 && c1 == c2
  {
    var x := a1 + "." + c1;
    var n := |x|;
    assert x[n - |c1| - 1] == '.';
    assert x[n - |c2| - 1] == '.' by {
      assert x == a2 + "." + c2;
    }
    assert c1 == x[n - |c1|..];
    assert c2 == x[n - |c2|..] by {
      assert x == a2 + "." + c2;
    }
    assert a1 == x[..|a1|];
    assert a2 == x[..|a2|] by {
      assert x == a2 + "." + c2;
    }
  }

  /** Different instruments have different `vt_symbol`s. */
  lemma VtSymbolInjective(s1: string, e1: Exchange, s2: string, e2: Exchange)
    requires VtSymbol(s1, e1) == VtSymbol(s2, e2)
    ensures s1 == s2 && e1 == e2
  {
    DotSuffixUnique(s1, e1.Value(), s2, e2.Value());
  }

  /** vn.py's `TickData`, as the assembler fills it. Price and volume books
      are indexed from 0: index 0 is level 1, index 4 is level 5. */
  datatype Tick = Tick(
    symbol: string,
    exchange: Exchange,
    datetime: DateTime,
    volume: Float,
    turnover: Float,
    openInterest: Float,
    lastPrice: Float,
    limitUp: Float,
    limitDown: Float,
    openPrice: Float,
    highPrice: Float,
    lowPrice: Float,
    preClose: Float,
    bidPrice: seq<Float>,
    askPrice: seq<Float>,
    bidVolume: seq<Float>,
    askVolume: seq<Float>,
    gatewayName: string,
    localtime: DateTime)
  {
    /** Every book holds five levels. */
    predicate Valid() {
      |bidPrice| == 5 && |askPrice| == 5 && |bidVolume| == 5 && |askVolume| == 5
    }
  }
}
