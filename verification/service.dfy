/**
 * The parameterised service layer: the REST history fetch, symbol
 * normalisation for the REST query and the stream topics, and the dispatch
 * of push messages by topic substring.
 */
module Service {
  import opened Wrappers
  import opened Candles
  import Text

  /** `symbol.replace('/', '')`: the REST symbol, case kept (`BTC/USDT` -> `BTCUSDT`). */
  function RestSymbol(symbol: string): (code: string)
    ensures '/' !in symbol ==> code == symbol
    ensures '/' in symbol ==> |code| == |symbol| - 1 && multiset(code) == multiset(symbol) - multiset{'/'}
    ensures '/' in symbol ==>
      code == symbol[..Text.IndexOf(symbol, '/')] + symbol[Text.IndexOf(symbol, '/') + 1..]
  {
    Text.RemoveFirst(symbol, '/')
  }

  /** `symbol.replace('/', '').toLowerCase()`: the symbol as it appears in stream topics. */
  function StreamSymbol(symbol: string): (code: string)
    ensures |code| == |RestSymbol(symbol)|
    ensures forall i :: 0 <= i < |code| ==> code[i] == Text.LowerChar(RestSymbol(symbol)[i])
    ensures forall i :: 0 <= i < |code| ==> !('A' <= code[i] <= 'Z')
  {
    Text.ToLower(RestSymbol(symbol))
  }

  /** The kline topic subscribed for a pair: `<symbol>@kline_<interval>`. */
  function KlineTopic(symbol: string, interval: string): (topic: string)
    ensures |topic| == |StreamSymbol(symbol)| + 7 + |interval|
    ensures topic[..|StreamSymbol(symbol)|] == StreamSymbol(symbol)
    ensures topic[|StreamSymbol(symbol)|..|StreamSymbol(symbol)| + 7] == "@kline_"
    ensures topic[|StreamSymbol(symbol)| + 7..] == interval
  {
    StreamSymbol(symbol) + "@kline_" + interval
  }

  /** The depth topic subscribed for a symbol: `<symbol>@depth20`. */
  function DepthTopic(symbol: string): (topic: string)
    ensures |topic| == |StreamSymbol(symbol)| + 8
    ensures topic[..|StreamSymbol(symbol)|] == StreamSymbol(symbol)
    ensures topic[|StreamSymbol(symbol)|..] == "@depth20"
  {
    StreamSymbol(symbol) + "@depth20"
  }

  /**
   * `fetchHistoryCandles`, given what the request produced: rows mapped one
   * to one on success, `[]` on a network error, a non-ok status or an
   * unreadable body; it never throws.
   */
  function FetchHistory(resp: Response, parse: string -> Num): (w: seq<Candle>)
    ensures !Succeeded(resp) ==> w == []
    ensures Succeeded(resp) ==> |w| == |resp.body.value|
    ensures Succeeded(resp) ==> forall i :: 0 <= i < |w| ==>
      w[i] == FormatCandle(resp.body.value[i], parse) && w[i].t == resp.body.value[i].openTime
  {
    if Succeeded(resp) then FormatRows(resp.body.value, parse) else []
  }

  /** Ascending venue rows give an ascending history, at most Limit long when the rows are. */
  lemma FetchHistoryAscending(resp: Response, parse: string -> Num)
    requires Succeeded(resp) && RowsAscending(resp.body.value)
    ensures Ascending(FetchHistory(resp, parse))
    ensures |resp.body.value| <= Limit ==> ValidWindow(FetchHistory(resp, parse))
  {
  }

  /** The `data` object of a push message: the kline object `k`, and the depth sides. */
  datatype Payload = Payload(k: Option<WsKline>, bids: Option<seq<Level>>, asks: Option<seq<Level>>)

  /**
   * A parsed push message `{ stream, data }`. `stream` is None when absent,
   * null or not a string (so `includes` throws); `data` is None when absent
   * or null (so reading a property of it throws). A primitive `data` reads as
   * a Payload whose fields are all None.
   */
  datatype Envelope = Envelope(stream: Option<string>, data: Option<Payload>)

  /** The callback a push message leads to. */
  datatype Event = KlineUpdate(candle: Candle, closed: bool) | DepthUpdate(depth: Depth) | NoEvent

  /**
   * The body of `ws.onmessage`. `msg` is None when `JSON.parse` threw or gave
   * no object. A topic containing "kline" is tried first; a missing `stream`,
   * `data` or `k` makes the property access throw, which the handler
   * catches, so no callback runs.
   */
  function Dispatch(msg: Option<Envelope>, parse: string -> Num): (e: Event)
    ensures e.KlineUpdate? <==>
      msg.Some? && msg.value.stream.Some? && Text.Includes(msg.value.stream.value, "kline")
      && msg.value.data.Some? && msg.value.data.value.k.Some?
    ensures e.KlineUpdate? ==>
      e.candle == FormatWsCandle(msg.value.data.value.k.value, parse) && e.closed == msg.value.data.value.k.value.x
    ensures e.DepthUpdate? <==>
      msg.Some? && msg.value.stream.Some? && !Text.Includes(msg.value.stream.value, "kline")
      && Text.Includes(msg.value.stream.value, "depth") && msg.value.data.Some?
    ensures e.DepthUpdate? ==>
      e.depth == Depth(msg.value.data.value.bids, msg.value.data.value.asks)
  {
    match msg
    case None => NoEvent
    case Some(Envelope(stream, data)) =>
      if stream.None? then NoEvent
      else if Text.Includes(stream.value, "kline") then
        if data.None? || data.value.k.None? then NoEvent
        else KlineUpdate(FormatWsCandle(data.value.k.value, parse), data.value.k.value.x)
      else if Text.Includes(stream.value, "depth") then
        if data.None? then NoEvent
        else DepthUpdate(Depth(data.value.bids, data.value.asks))
      else NoEvent
  }

  /** A message on the subscribed kline topic is routed to the kline handler. */
  lemma KlineTopicRoutes(symbol: string, interval: string)
    ensures Text.Includes(KlineTopic(symbol, interval), "kline")
  {
    var s := StreamSymbol(symbol);
    assert Text.Includes("@kline_" + interval, "kline");
    Text.IncludesPrepend(s, "@kline_" + interval, "kline");
    assert KlineTopic(symbol, interval) == s + ("@kline_" + interval);
  }

  /** The depth-topic routing facts for any topic symbol `s`. */
  lemma DepthSuffixRoutes(s: string)
    ensures Text.Includes(s + "@depth20", "depth")
    ensures Text.Includes(s + "@depth20", "kline") <==> Text.Includes(s, "kline")
  {
    assert Text.Includes("@depth20", "depth");
    Text.IncludesPrepend(s, "@depth20", "depth");
    if Text.Includes(s, "kline") {
      Text.IncludesExtend(s, "@depth20", "kline");
    }
    if Text.Includes(s + "@depth20", "kline") {
      Text.IncludesBeforeSeparator(s, "@depth20", "kline");
    }
  }

  /**
   * A message on the subscribed depth topic is routed to the depth handler,
   * unless the lower-cased symbol itself contains "kline" (the kline test
   * comes first).
   */
  lemma DepthTopicRoutes(symbol: string)
    ensures Text.Includes(DepthTopic(symbol), "depth")
    ensures Text.Includes(DepthTopic(symbol), "kline") <==> Text.Includes(StreamSymbol(symbol), "kline")
  {
    DepthSuffixRoutes(StreamSymbol(symbol));
  }
}
