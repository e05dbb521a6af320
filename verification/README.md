# Binance candle window — a Dafny model

This project models the data path of a small Vue front end for Binance market data:

- **the `useBinanceMarket` hook.** It keeps a rolling window of at most 500 candles. The window is shaped `[t, o, h, l, c, v]`.
  - A REST snapshot replaces the window wholesale.
  - A live kline pushed over the WebSocket overwrites the newest candle, appends a newer one (evicting the oldest past 500), or is ignored as stale.
  - A depth message replaces the order-book snapshot.
- **the `binanceService` layer.** It supplies:
  - the local-storage cache (key, save, load);
  - the history fetch;
  - symbol normalisation;
  - the dispatch of push messages by topic substring.

Everything is written as pure functions over immutable values. The modules are:

- `Candles`: the candle record, the two wire shapes, depth, `formatCandle`/`formatWsCandle`, and the window invariant `ValidWindow`. That invariant means strictly ascending open times and at most `Limit` = 500 candles.
- `Text`: JavaScript's `includes`, one-character `replace` (first occurrence only), and ASCII `toLowerCase`/`toUpperCase`.
- `Window`: `ApplyLive`, `ApplySnapshot`, and the lemmas about them. A reference reading of the window as a table from open time to candle (`AsMap`) is the independent partner of `ApplyLive`.
- `Cache`: localStorage is a `map<string, string>`. JSON is a `Codec` pair of functions passed in.
- `Service`: `fetchHistoryCandles`, symbol normalisation, the subscribed topics, and `onmessage` dispatch.
- `Market`: the hook's state, which is the window, the depth and whether the socket is open. It covers `start`, `onmessage` and `close`, and a run over any message stream.

Inputs the code obtains through I/O are parameters:

- the fetch outcome (`Response`);
- the parsed push message (`Option<Envelope>`);
- whether the WebSocket constructor succeeded;
- `parseFloat`, as `parse: string -> Num`, where `Num` is an abstract type because no arithmetic is ever done on prices or volumes;
- the JSON codec.

The hook's `onmessage` has no `try`, while the service's catches errors. In both, a message whose handling throws changes nothing and calls no handler. So `Market.OnMessage` reuses `Service.Dispatch`.

A closed socket delivers no further messages, so `OnMessage` on a closed hook is the identity. This follows the WebSocket standard: messages are dropped once `readyState` is no longer OPEN.

## Model

| member | source | states |
|---|---|---|
| Candles.FormatCandle | src/hooks/useBinanceMarket.js:15-24 | A REST row becomes a candle that keeps the row's open time. Each of the five numeric fields is `parseFloat` of the matching text. |
| Candles.FormatWsCandle | src/hooks/useBinanceMarket.js:26-35 | A push `k` object becomes a candle with time `k.t` and the parsed `o h l c v`. The closed flag is not part of the candle. |
| Candles.FormatRows | src/services/binanceService.js:59-68 | Mapping rows gives exactly one candle per row, in the same order. |
| Candles.LastN | src/services/binanceService.js:36 | `slice(-n)` yields `min(len, n)` elements: the newest ones, in their original order. |
| Text.Includes | src/hooks/useBinanceMarket.js:86 | `includes` always finds the empty pattern, never finds a pattern longer than the text, and always finds a pattern the text starts with. The same test is used at useBinanceMarket.js:111 and binanceService.js:102 and 115. |
| Text.IncludesIff | src/services/binanceService.js:102 | The left-to-right `includes` scan answers true exactly when the pattern occurs at some index. |
| Text.IncludesBeforeSeparator | src/services/binanceService.js:115 | When the tail's first character is not in the pattern and the pattern's first character is not in the tail, the pattern is found in `s + tail` only if it is found in `s`. |
| Text.IndexOf | src/services/binanceService.js:46 | Returns the first index of the character, or -1 exactly when the character is absent. |
| Text.RemoveFirst | src/services/binanceService.js:46 | `replace('/', '')` removes only the first `/`. It keeps the text before it and shifts the text after it. A string without `/` is unchanged. |
| Text.ToLower | src/services/binanceService.js:83 | The result has the same length, and each character is lower-cased independently. |
| Text.ToUpper | src/hooks/useBinanceMarket.js:46 | The result has the same length, and each character is upper-cased independently. |
| Text.ToLowerSpec | src/services/binanceService.js:83 | Lower-casing leaves no ASCII capital, keeps every non-capital, and is idempotent. |
| Text.ToUpperSpec | src/hooks/useBinanceMarket.js:46 | Upper-casing leaves no ASCII small letter, keeps every other character, and is idempotent. |
| Window.ApplyLive | src/hooks/useBinanceMarket.js:88-108 | Empty window gives `[c]`. Equal time: same length, last replaced, earlier candles kept. Newer time: `w + [c]`, with index 0 dropped only past 500. Older time: window unchanged. |
| Window.ApplyLiveLast | src/hooks/useBinanceMarket.js:90-106 | After any update that is not stale, the newest candle is the applied one. |
| Window.ApplyLiveUnchangedIff | src/hooks/useBinanceMarket.js:97-107 | The window is unchanged if and only if the candle is stale or equals the current newest candle. |
| Window.ApplyLivePreservesValid | src/hooks/useBinanceMarket.js:90-106 | Ascending open times stay ascending, and a window of length at most 500 stays at most 500. |
| Window.ApplyLiveIdempotent | src/hooks/useBinanceMarket.js:97-101 | Applying the same candle twice in a row equals applying it once. |
| Window.ApplyLiveTailMonotone | src/hooks/useBinanceMarket.js:97-107 | The newest open time never decreases. |
| Window.ApplyLiveEvictsOne | src/hooks/useBinanceMarket.js:102-106 | On a full window, a newer candle evicts exactly the oldest element. The length stays 500. |
| Window.AsMapDropFirst | src/hooks/useBinanceMarket.js:105 | In an ascending window, `shift()` removes exactly the oldest open time from the time table. |
| Window.ApplyLiveAsMap | src/hooks/useBinanceMarket.js:88-108 | Read as a time table, a stale candle changes nothing. Otherwise the candle is stored under its open time, and an eviction also removes the oldest time. |
| Window.ApplyAllPreservesValid | src/hooks/useBinanceMarket.js:88-108 | Any number of live candles keep a valid window valid: ascending and at most 500. |
| Window.ApplyAllTailMonotone | src/hooks/useBinanceMarket.js:97-107 | Across any sequence of live candles, the newest open time never decreases. |
| Window.ApplySnapshot | src/hooks/useBinanceMarket.js:54-67 | A usable response replaces the window with its rows mapped in order. Length and open times are kept. A network error, a non-ok status or an unreadable body leaves the window untouched. |
| Window.ApplySnapshotValid | src/hooks/useBinanceMarket.js:58-61 | At most 500 ascending rows give a valid window whose newest time is the last row's. |
| Cache.CacheKey | src/services/binanceService.js:10 | The key is `"kline_data_"`, then the symbol, `_`, and the interval, each at its fixed position. |
| Cache.CacheKeyInjective | src/services/binanceService.js:10 | Two pairs whose symbols have no `_` share a key only if they are the same pair. |
| Cache.SaveHistory | src/services/binanceService.js:32-38 | Absent or empty data leaves the store unchanged. Otherwise the newest `min(len, 500)` candles are encoded under the pair's key, and every other key is kept. |
| Cache.LoadHistory | src/services/binanceService.js:15-27 | An absent key, an empty text or a text that fails to parse yields `[]`. Otherwise the result is the parsed window. |
| Cache.SaveThenLoad | src/services/binanceService.js:15-37 | Save then load of the same pair returns the newest at most 500 candles, in order, provided the codec round-trips. |
| Cache.SaveKeepsOtherPairs | src/services/binanceService.js:10-37 | Saving one pair leaves what loading any other pair returns unchanged, when neither symbol contains `_`. |
| Service.RestSymbol | src/services/binanceService.js:46 | The REST symbol keeps its case and loses only the first `/`. It is the text before that `/` followed by the text after it, in order. A symbol without `/` is unchanged. |
| Service.StreamSymbol | src/services/binanceService.js:83 | The stream symbol is the REST symbol lower-cased, character by character, and contains no capital. |
| Service.FetchHistory | src/services/binanceService.js:43-77 | The result is `[]` on a network error, a non-ok status or an unreadable body. On success, the rows map one to one in order and each open time is carried over. |
| Service.FetchHistoryAscending | src/services/binanceService.js:57-71 | Ascending venue rows give an ascending history, which is a valid window when there are at most 500 rows. |
| Service.Dispatch | src/services/binanceService.js:95-124 | A topic containing "kline" yields the kline callback with the candle and `k.x`, and it is tested first. Otherwise a topic containing "depth" yields exactly `{bids, asks}`. Otherwise, or on a parse or access error, there is no callback. |
| Service.KlineTopic | src/services/binanceService.js:86 | The kline topic is the stream symbol, then `@kline_`, then the interval, each at its fixed position. |
| Service.DepthTopic | src/services/binanceService.js:86 | The depth topic is the stream symbol followed by `@depth20`. |
| Service.KlineTopicRoutes | src/services/binanceService.js:86-102 | Messages on the subscribed `@kline_` topic reach the kline handler. |
| Service.DepthTopicRoutes | src/services/binanceService.js:86-115 | Messages on the subscribed `@depth20` topic reach the depth handler unless the lower-cased symbol itself contains "kline". |
| Market.HookRestSymbol | src/hooks/useBinanceMarket.js:46 | Each character of the hook's REST symbol is the ASCII upper case of the service code's character at the same index, so it has the same length and contains no small letter. |
| Market.HookAgreesOnUpperSymbols | src/hooks/useBinanceMarket.js:46 | For a symbol without small letters, the hook and the service send the same code. |
| Market.Start | src/hooks/useBinanceMarket.js:40-76 | A usable snapshot sets the window to the fetched history, and any failure keeps it. The depth is untouched, and the socket is open afterwards if it already was or its constructor succeeded. |
| Market.OnMessage | src/hooks/useBinanceMarket.js:80-114 | On an open socket, a kline message merges its candle, a depth message replaces the depth, and anything else changes nothing. A closed socket changes nothing. |
| Market.DepthReplaceTotal | src/hooks/useBinanceMarket.js:111-113 | After a depth message, the depth is exactly its `bids`/`asks`, whatever the prior state. |
| Market.Close | src/hooks/useBinanceMarket.js:123-128 | Closing drops the socket and keeps window and depth as the last state. |
| Market.CloseIdempotentAndFinal | src/hooks/useBinanceMarket.js:123-128 | Closing twice equals closing once, and a closed hook ignores every message. |
| Market.RunPreservesValid | src/hooks/useBinanceMarket.js:80-114 | Any stream of messages keeps a valid window valid and leaves the socket state alone. |
| Market.SessionWindowValid | src/hooks/useBinanceMarket.js:40-114 | From a fresh hook, a start followed by any messages ends in a valid window. This holds when the snapshot, if usable, is at most 500 ascending rows. |

## Left out

- The WebSocket and `fetch` lifecycles are not modelled: opening, `onopen`, `onerror`, `onclose` and their logging. Their outcomes enter as parameters.
- The REST and stream URL strings are not modelled. Only the symbol codes and the two topic names they contain are.
- `parseFloat` is a parameter `parse`, and prices and volumes are an abstract `Num`. No arithmetic is done on them.
- JSON text parsing and `JSON.stringify` are the `Codec` parameter. A stored text that parses to something other than a candle array is a parse failure here. The source would return such a value as is.
- Exceptions from `localStorage` are not modelled: `getItem` unavailable, or `setItem` over quota. The source does not catch them in `saveHistoryToLS`.
- Text.ToLower: only ASCII letters are mapped. JavaScript's Unicode case mapping of other characters is not modelled.
- Text.ToUpper: only ASCII letters are mapped, for the same reason.
- Text.ToLowerSpec: only ASCII letters are mapped, for the same reason.
- Text.ToUpperSpec: only ASCII letters are mapped, for the same reason.
- Fields missing inside `k` or inside a REST row are not modelled. In the source, a row shorter than six entries yields `NaN` fields, not an error. Both wire shapes here carry all six fields.
- Vue reactivity (`ref`, `onUnmounted`), `src/main.js` and `vite.config.js` are UI bootstrap and dev-server configuration, so they are left out.
- Market.Start: calling `start` twice leaves the first socket open alongside the second. This model keeps a single socket flag.
- The code does not truncate the snapshot to 500. It relies on `limit=500` in the URL, so the model does not truncate either.
- The code does not discard a fetch that resolves after `close`. Its `start` still opens a socket afterwards, and the model's `Start` does the same.
- The code has no reconnection and no gap detection, so the model has none.
- The code rejects no row as malformed. A REST row with fewer than six entries yields `NaN` fields rather than a failure, so the model has no malformed-row error.
