/**
 * The records the market hook and the service layer pass around: candles in
 * the `[t, o, h, l, c, v]` array shape, the two wire shapes they are decoded
 * from, and the order-book depth snapshot.
 */
module Candles {
  import opened Wrappers

  /** Most candles the window and the local cache ever keep (LIMIT). */
  const Limit: nat := 500

  /**
   * A number produced by `parseFloat`. The code never does arithmetic on the
   * open/high/low/close/volume fields, so their values are left abstract.
   */
  type Num(==)

  /** `[t, o, h, l, c, v]`: open time in milliseconds and five opaque numbers. */
  datatype Candle = Candle(t: int, open: Num, high: Num, low: Num, close: Num, volume: Num)

  /** The first six entries of one row of the REST klines array; later entries are never read. */
  datatype RestRow = RestRow(openTime: int, open: string, high: string, low: string, close: string, volume: string)

  /** The `k` object of a kline push message: `t`, the numeric texts `o h l c v`, and the closed flag `x`. */
  datatype WsKline = WsKline(t: int, o: string, h: string, l: string, c: string, v: string, x: bool)

  /** One `[price, qty]` level of the order book, kept as the venue's text. */
  datatype Level = Level(price: string, qty: string)

  /** `{ bids, asks }`; either side is absent when the message did not carry it. */
  datatype Depth = Depth(bids: Option<seq<Level>>, asks: Option<seq<Level>>)

  /** The depth state a fresh hook starts with: `{ asks: [], bids: [] }`. */
  const EmptyDepth: Depth := Depth(Some([]), Some([]))

  /** `formatCandle`: a REST row becomes a candle, the time kept, the five texts parsed. */
  function FormatCandle(row: RestRow, parse: string -> Num): (c: Candle)
    ensures c.t == row.openTime
    ensures c.open == parse(row.open) && c.high == parse(row.high) && c.low == parse(row.low)
    ensures c.close == parse(row.close) && c.volume == parse(row.volume)
  {
    Candle(row.openTime, parse(row.open), parse(row.high), parse(row.low), parse(row.close), parse(row.volume))
  }

  /** `formatWsCandle`: the `k` object of a push message becomes a candle; `x` is not part of it. */
  function FormatWsCandle(k: WsKline, parse: string -> Num): (c: Candle)
    ensures c.t == k.t
    ensures c.open == parse(k.o) && c.high == parse(k.h) && c.low == parse(k.l)
    ensures c.close == parse(k.c) && c.volume == parse(k.v)
  {
    Candle(k.t, parse(k.o), parse(k.h), parse(k.l), parse(k.c), parse(k.v))
  }

  /**
   * What one `fetch` of the klines endpoint produced: the request rejected
   * (network error), or a response with its `ok` flag and the body
   * `response.json()` resolved to, None when `response.json()` threw or the
   * body is not an array.
   */
  datatype Response = NetworkError | Response(ok: bool, body: Option<seq<RestRow>>)

  /** The response carries a usable array of rows. */
  predicate Succeeded(resp: Response) {
    resp.Response? && resp.ok && resp.body.Some?
  }

  /** `rawData.map(formatCandle)`: one candle per row, in the rows' order. */
  function FormatRows(rows: seq<RestRow>, parse: string -> Num): (w: seq<Candle>)
    ensures |w| == |rows|
    ensures forall i :: 0 <= i < |rows| ==> w[i] == FormatCandle(rows[i], parse)
  {
    seq(|rows|, i requires 0 <= i < |rows| => FormatCandle(rows[i], parse))
  }

  /** Open times of REST rows strictly increase (the venue's ordering promise). */
  predicate RowsAscending(rows: seq<RestRow>) {
    forall i, j :: 0 <= i < j < |rows| ==> rows[i].openTime < rows[j].openTime
  }

  /** Open times strictly increase from the oldest candle to the newest. */
  predicate Ascending(w: seq<Candle>) {
    forall i, j :: 0 <= i < j < |w| ==> w[i].t < w[j].t
  }

  /** The invariant the live window keeps: ascending and at most Limit long. */
  predicate ValidWindow(w: seq<Candle>) {
    Ascending(w) && |w| <= Limit
  }

  /** The last `min(|w|, n)` candles of `w`: JavaScript's `w.slice(-n)` for n > 0. */
  function LastN(w: seq<Candle>, n: nat): (r: seq<Candle>)
    requires n > 0
    ensures |r| == if |w| <= n then |w| else n
    ensures forall i :: 0 <= i < |r| ==> r[i] == w[|w| - |r| + i]
  {
    if |w| <= n then w else w[|w| - n..]
  }
}
