/**
 * The state of one `useBinanceMarket` hook: the candle window, the depth
 * snapshot and whether its push socket is open, driven by `start`, the
 * socket's `onmessage` and `close`.
 */
module Market {
  import opened Wrappers
  import opened Candles
  import Text
  import Window
  import Service

  datatype Market = Market(window: seq<Candle>, depth: Depth, socketOpen: bool)

  /** A fresh hook: empty window, empty depth sides, no socket. */
  const Initial: Market := Market([], EmptyDepth, false)

  /** The hook's REST symbol code: `symbol.replace('/', '').toUpperCase()`. */
  function HookRestSymbol(symbol: string): (code: string)
    ensures |code| == |Service.RestSymbol(symbol)|
    ensures forall i :: 0 <= i < |code| ==> code[i] == Text.UpperChar(Service.RestSymbol(symbol)[i])
    ensures forall i :: 0 <= i < |code| ==> !('a' <= code[i] <= 'z')
  {
    var code := Service.RestSymbol(symbol);
    Text.ToUpperSpec(code);
    Text.ToUpper(code)
  }

  /** On a symbol with no small letters (`BTC/USDT`), the hook and the service send the same code. */
  lemma HookAgreesOnUpperSymbols(symbol: string)
    requires forall i :: 0 <= i < |symbol| ==> !('a' <= symbol[i] <= 'z')
    ensures HookRestSymbol(symbol) == Service.RestSymbol(symbol)
  {
    var code := Service.RestSymbol(symbol);
    forall k | 0 <= k < |code|
      ensures !('a' <= code[k] <= 'z')
    {
      assert code[k] in multiset(code);
      assert code[k] in multiset(symbol);
      assert code[k] in symbol;
    }
  }

  /**
   * `start`: the REST snapshot replaces the window when the response is
   * usable and is otherwise ignored; then the socket is opened, unless its
   * constructor threw (`socketCreated` false).
   */
  function Start(m: Market, resp: Response, parse: string -> Num, socketCreated: bool): (r: Market)
    ensures Succeeded(resp) ==> r.window == Service.FetchHistory(resp, parse)
    ensures !Succeeded(resp) ==> r.window == m.window
    ensures r.depth == m.depth
    ensures r.socketOpen <==> m.socketOpen || socketCreated
  {
    Market(Window.ApplySnapshot(m.window, resp, parse), m.depth, m.socketOpen || socketCreated)
  }

  /**
   * `ws.onmessage`: a kline message merges its candle into the window, a
   * depth message replaces the depth snapshot, anything else (including a
   * message whose handling throws) changes nothing. A closed socket delivers
   * no messages.
   */
  function OnMessage(m: Market, msg: Option<Service.Envelope>, parse: string -> Num): (r: Market)
    ensures !m.socketOpen ==> r == m
    ensures r.socketOpen == m.socketOpen
    ensures m.socketOpen && Service.Dispatch(msg, parse).KlineUpdate? ==>
      r.window == Window.ApplyLive(m.window, Service.Dispatch(msg, parse).candle) && r.depth == m.depth
    ensures m.socketOpen && Service.Dispatch(msg, parse).DepthUpdate? ==>
      r.depth == Service.Dispatch(msg, parse).depth && r.window == m.window
    ensures Service.Dispatch(msg, parse).NoEvent? ==> r == m
  {
    if !m.socketOpen then m
    else
      match Service.Dispatch(msg, parse)
      case KlineUpdate(c, _) => m.(window := Window.ApplyLive(m.window, c))
      case DepthUpdate(d) => m.(depth := d)
      case NoEvent => m
  }

  /** A depth message sets the depth to exactly its `bids`/`asks`, whatever was there. */
  lemma DepthReplaceTotal(m: Market, stream: string, p: Service.Payload, parse: string -> Num)
    requires m.socketOpen && !Text.Includes(stream, "kline") && Text.Includes(stream, "depth")
    ensures OnMessage(m, Some(Service.Envelope(Some(stream), Some(p))), parse).depth == Depth(p.bids, p.asks)
  {
  }

  /** `close`: the socket is closed and dropped; window and depth stay as the last state. */
  function Close(m: Market): (r: Market)
    ensures !r.socketOpen
    ensures r.window == m.window && r.depth == m.depth
  {
    m.(socketOpen := false)
  }

  /** Closing twice is the same as closing once, and a closed hook ignores every message. */
  lemma CloseIdempotentAndFinal(m: Market, msg: Option<Service.Envelope>, parse: string -> Num)
    ensures Close(Close(m)) == Close(m)
    ensures OnMessage(Close(m), msg, parse) == Close(m)
  {
  }

  /** Push messages handled one after another, in arrival order. */
  function Run(m: Market, msgs: seq<Option<Service.Envelope>>, parse: string -> Num): Market
    decreases |msgs|
  {
    if |msgs| == 0 then m else Run(OnMessage(m, msgs[0], parse), msgs[1..], parse)
  }

  /** Any stream of messages keeps a valid window valid and leaves the socket state alone. */
  lemma {:induction false} RunPreservesValid(m: Market, msgs: seq<Option<Service.Envelope>>, parse: string -> Num)
    requires ValidWindow(m.window)
    ensures ValidWindow(Run(m, msgs, parse).window)
    ensures Run(m, msgs, parse).socketOpen == m.socketOpen
    decreases |msgs|
  {
    if |msgs| > 0 {
      var next := OnMessage(m, msgs[0], parse);
      if m.socketOpen && Service.Dispatch(msgs[0], parse).KlineUpdate? {
        Window.ApplyLivePreservesValid(m.window, Service.Dispatch(msgs[0], parse).candle);
      }
      RunPreservesValid(next, msgs[1..], parse);
    }
  }

  /**
   * From a fresh hook, a start whose snapshot is at most Limit ascending rows
   * (or fails) followed by any stream of messages leaves a window that is
   * ascending and at most Limit long.
   */
  lemma SessionWindowValid(resp: Response, parse: string -> Num, socketCreated: bool,
                           msgs: seq<Option<Service.Envelope>>)
    requires Succeeded(resp) ==> RowsAscending(resp.body.value) && |resp.body.value| <= Limit
    ensures ValidWindow(Run(Start(Initial, resp, parse, socketCreated), msgs, parse).window)
  {
    var started := Start(Initial, resp, parse, socketCreated);
    if Succeeded(resp) {
      Service.FetchHistoryAscending(resp, parse);
    }
    RunPreservesValid(started, msgs, parse);
  }
}
