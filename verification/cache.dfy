/**
 * The local-storage cache of the service layer: one text value per
 * (symbol, interval) key, holding the JSON text of the newest candles.
 * localStorage is a map from key to text; JSON is a codec passed in.
 */
module Cache {
  import opened Wrappers
  import opened Candles
  import Text

  /** localStorage: key to stored text. */
  type Store = map<string, string>

  /**
   * `JSON.stringify` / `JSON.parse` for candle windows; `decode` is None
   * when parsing throws or yields something other than a candle array.
   */
  datatype Codec = Codec(encode: seq<Candle> -> string, decode: string -> Option<seq<Candle>>)

  /** The codec reads back what it wrote for `w`, and the written text is non-empty (a JSON array always is). */
  predicate RoundTrips(codec: Codec, w: seq<Candle>) {
    codec.decode(codec.encode(w)) == Some(w) && codec.encode(w) != ""
  }

  const KeyPrefix: string := "kline_data_"

  /** `getLsKey`: the deterministic storage key of a (symbol, interval) pair. */
  function CacheKey(symbol: string, interval: string): (key: string)
    ensures |key| == |KeyPrefix| + |symbol| + 1 + |interval|
    ensures key[..|KeyPrefix|] == KeyPrefix
    ensures key[|KeyPrefix|..|KeyPrefix| + |symbol|] == symbol
    ensures key[|KeyPrefix| + |symbol|] == '_'
    ensures key[|KeyPrefix| + |symbol| + 1..] == interval
  {
    KeyPrefix + symbol + "_" + interval
  }

  /**
   * Symbols without an underscore (every venue symbol) never share a key:
   * the first `_` after the prefix marks where the symbol ends.
   */
  lemma CacheKeyInjective(s1: string, i1: string, s2: string, i2: string)
    requires '_' !in s1 && '_' !in s2
    requires CacheKey(s1, i1) == CacheKey(s2, i2)
    ensures s1 == s2 && i1 == i2
  {
    var k1, k2 := CacheKey(s1, i1)[|KeyPrefix|..], CacheKey(s2, i2)[|KeyPrefix|..];
    assert k1 == k2;
    assert k1 == s1 + "_" + i1;
    assert k2 == s2 + "_" + i2;
    assert Text.IndexOf(k1, '_') == |s1| by {
      assert k1[..|s1|] == s1;
    }
    assert Text.IndexOf(k2, '_') == |s2| by {
      assert k2[..|s2|] == s2;
    }
    assert s1 == k1[..|s1|] == k2[..|s2|] == s2;
    assert i1 == k1[|s1| + 1..] == k2[|s2| + 1..] == i2;
  }

  /**
   * `saveHistoryToLS`: absent or empty data leaves the store alone; otherwise
   * the newest `min(|data|, Limit)` candles are encoded under the pair's key.
   */
  function SaveHistory(store: Store, data: Option<seq<Candle>>, symbol: string, interval: string, codec: Codec): (r: Store)
    ensures data.None? || |data.value| == 0 ==> r == store
    ensures data.Some? && |data.value| > 0 ==>
      CacheKey(symbol, interval) in r && r[CacheKey(symbol, interval)] == codec.encode(LastN(data.value, Limit))
    ensures r.Keys <= store.Keys + {CacheKey(symbol, interval)}
    ensures forall k :: k in store && k != CacheKey(symbol, interval) ==> k in r && r[k] == store[k]
  {
    if data.None? || |data.value| == 0 then store
    else store[CacheKey(symbol, interval) := codec.encode(LastN(data.value, Limit))]
  }

  /**
   * `loadHistoryFromLS`: an absent key or an empty text (falsy in JavaScript)
   * gives `[]`, a text that does not parse gives `[]`, otherwise the parsed window.
   */
  function LoadHistory(store: Store, symbol: string, interval: string, codec: Codec): (w: seq<Candle>)
    ensures CacheKey(symbol, interval) !in store ==> w == []
    ensures CacheKey(symbol, interval) in store && store[CacheKey(symbol, interval)] == "" ==> w == []
    ensures CacheKey(symbol, interval) in store && codec.decode(store[CacheKey(symbol, interval)]).None? ==> w == []
    ensures CacheKey(symbol, interval) in store && store[CacheKey(symbol, interval)] != "" &&
            codec.decode(store[CacheKey(symbol, interval)]).Some? ==>
              w == codec.decode(store[CacheKey(symbol, interval)]).value
  {
    var key := CacheKey(symbol, interval);
    if key !in store || store[key] == "" then []
    else codec.decode(store[key]).GetOr([])
  }

  /** Saving and then loading the same pair returns the newest candles saved, in order. */
  lemma SaveThenLoad(store: Store, data: seq<Candle>, symbol: string, interval: string, codec: Codec)
    requires |data| > 0 && RoundTrips(codec, LastN(data, Limit))
    ensures LoadHistory(SaveHistory(store, Some(data), symbol, interval, codec), symbol, interval, codec) == LastN(data, Limit)
    ensures |LoadHistory(SaveHistory(store, Some(data), symbol, interval, codec), symbol, interval, codec)| <= Limit
  {
  }

  /** Saving one pair does not change what loading any other pair returns. */
  lemma SaveKeepsOtherPairs(store: Store, data: Option<seq<Candle>>, symbol: string, interval: string,
                            other: string, otherInterval: string, codec: Codec)
    requires '_' !in symbol && '_' !in other
    requires symbol != other || interval != otherInterval
    ensures LoadHistory(SaveHistory(store, data, symbol, interval, codec), other, otherInterval, codec)
         == LoadHistory(store, other, otherInterval, codec)
  {
    if CacheKey(symbol, interval) == CacheKey(other, otherInterval) {
      CacheKeyInjective(symbol, interval, other, otherInterval);
    }
  }
}
