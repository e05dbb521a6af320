/**
 * The rolling candle window of the market hook: a REST snapshot replaces it
 * wholesale, and each live kline either overwrites the newest candle,
 * appends a newer one (evicting the oldest past Limit), or is ignored as
 * stale.
 */
module Window {
  import opened Candles

  /** The open time of the newest candle. */
  function LastTime(w: seq<Candle>): int
    requires |w| > 0
  {
    w[|w| - 1].t
  }

  /** A live candle older than the newest one in the window. */
  predicate Stale(w: seq<Candle>, c: Candle) {
    |w| > 0 && c.t < LastTime(w)
  }

  /** Merges one live candle into the window (the kline branch of `onmessage`). */
  function ApplyLive(w: seq<Candle>, c: Candle): (r: seq<Candle>)
    ensures |w| == 0 ==> r == [c]
    ensures |w| > 0 && c.t == LastTime(w) ==>
      |r| == |w| && r[|r| - 1] == c && r[..|r| - 1] == w[..|w| - 1]
    ensures |w| > 0 && c.t > LastTime(w) && |w| + 1 <= Limit ==> r == w + [c]
    ensures |w| > 0 && c.t > LastTime(w) && |w| + 1 > Limit ==> r == w[1..] + [c]
    ensures Stale(w, c) ==> r == w
  {
    if |w| == 0 then [c]
    else if c.t == LastTime(w) then w[..|w| - 1] + [c]
    else if c.t > LastTime(w) then
      var grown := w + [c];
      if |grown| > Limit then grown[1..] else grown
    else w
  }

  /** Any update that is not stale leaves the applied candle as the newest one. */
  lemma ApplyLiveLast(w: seq<Candle>, c: Candle)
    requires !Stale(w, c)
    ensures |ApplyLive(w, c)| > 0 && ApplyLive(w, c)[|ApplyLive(w, c)| - 1] == c
  {
  }

  /** The window is left as it was exactly when the candle is stale or equals the newest candle. */
  lemma ApplyLiveUnchangedIff(w: seq<Candle>, c: Candle)
    ensures ApplyLive(w, c) == w <==> Stale(w, c) || (|w| > 0 && w[|w| - 1] == c)
  {
    if |w| > 0 && !Stale(w, c) && ApplyLive(w, c) == w {
      ApplyLiveLast(w, c);
    }
  }

  /** An ascending window stays ascending, and the bound of Limit is kept. */
  lemma {:induction false} ApplyLivePreservesValid(w: seq<Candle>, c: Candle)
    ensures Ascending(w) ==> Ascending(ApplyLive(w, c))
    ensures |w| <= Limit ==> |ApplyLive(w, c)| <= Limit
  {
    if Ascending(w) && |w| > 0 && c.t > LastTime(w) {
      var grown := w + [c];
      assert Ascending(grown) by {
        forall i, j | 0 <= i < j < |grown|
          ensures grown[i].t < grown[j].t
        {
          if j < |w| {
          } else {
            assert w[i].t <= LastTime(w);
          }
        }
      }
    }
  }

  /** Applying the same candle twice in a row is the same as applying it once. */
  lemma ApplyLiveIdempotent(w: seq<Candle>, c: Candle)
    ensures ApplyLive(ApplyLive(w, c), c) == ApplyLive(w, c)
  {
    if !Stale(w, c) {
      ApplyLiveLast(w, c);
      ApplyLiveUnchangedIff(ApplyLive(w, c), c);
    }
  }

  /** The newest open time never moves backwards. */
  lemma ApplyLiveTailMonotone(w: seq<Candle>, c: Candle)
    requires |w| > 0
    ensures |ApplyLive(w, c)| > 0 && LastTime(ApplyLive(w, c)) >= LastTime(w)
  {
  }

  /** A full window stays full: a newer candle evicts exactly the oldest element. */
  lemma ApplyLiveEvictsOne(w: seq<Candle>, c: Candle)
    requires |w| == Limit && c.t > LastTime(w)
    ensures |ApplyLive(w, c)| == Limit
    ensures ApplyLive(w, c) == w[1..] + [c]
  {
  }

  /** The window read as a table from open time to candle; a later candle wins a shared time. */
  function AsMap(w: seq<Candle>): map<int, Candle> {
    if |w| == 0 then map[]
    else AsMap(w[..|w| - 1])[LastTime(w) := w[|w| - 1]]
  }

  /** Appending a candle sets its open time in the table. */
  lemma AsMapAppend(w: seq<Candle>, c: Candle)
    ensures AsMap(w + [c]) == AsMap(w)[c.t := c]
  {
    assert (w + [c])[..|w|] == w;
  }

  /** In an ascending window, dropping the oldest candle removes just its open time. */
  lemma {:induction false} AsMapDropFirst(w: seq<Candle>)
    requires Ascending(w) && |w| > 0
    ensures AsMap(w[1..]) == AsMap(w) - {w[0].t}
  {
    if |w| == 1 {
      assert w[1..] == [];
    } else {
      var init := w[..|w| - 1];
      assert init[1..] == w[1..][..|w[1..]| - 1];
      AsMapDropFirst(init);
      assert w[0] == init[0];
      assert w[0].t < LastTime(w);
    }
  }

  /** Overwriting the newest candle stores the new one under the shared open time. */
  lemma AsMapReplaceLast(w: seq<Candle>, c: Candle)
    requires |w| > 0 && c.t == LastTime(w)
    ensures AsMap(w[..|w| - 1] + [c]) == AsMap(w)[c.t := c]
  {
    AsMapAppend(w[..|w| - 1], c);
  }

  /** Appending to a full window and evicting the oldest candle, read as a table. */
  lemma AsMapEvict(w: seq<Candle>, c: Candle)
    requires Ascending(w) && |w| > 0
    ensures AsMap(w[1..] + [c]) == (AsMap(w) - {w[0].t})[c.t := c]
  {
    AsMapAppend(w[1..], c);
    AsMapDropFirst(w);
  }

  /**
   * Reference reading of ApplyLive over the time-indexed table: a stale
   * candle changes nothing, otherwise the candle is stored under its open
   * time, and on eviction the oldest open time disappears.
   */
  lemma ApplyLiveAsMap(w: seq<Candle>, c: Candle)
    requires Ascending(w) && |w| <= Limit
    ensures Stale(w, c) ==> AsMap(ApplyLive(w, c)) == AsMap(w)
    ensures !Stale(w, c) && !(|w| == Limit && c.t > LastTime(w)) ==>
      AsMap(ApplyLive(w, c)) == AsMap(w)[c.t := c]
    ensures |w| == Limit && c.t > LastTime(w) ==>
      AsMap(ApplyLive(w, c)) == (AsMap(w) - {w[0].t})[c.t := c]
  {
    var r := ApplyLive(w, c);
    if |w| == 0 {
      AsMapAppend([], c);
    } else if c.t == LastTime(w) {
      AsMapReplaceLast(w, c);
    } else if c.t > LastTime(w) {
      if |w| == Limit {
        assert r == w[1..] + [c];
        AsMapEvict(w, c);
      } else {
        assert r == w + [c];
        AsMapAppend(w, c);
      }
    }
  }

  /** Live candles applied one after another, in arrival order. */
  function ApplyAll(w: seq<Candle>, cs: seq<Candle>): seq<Candle>
    decreases |cs|
  {
    if |cs| == 0 then w else ApplyAll(ApplyLive(w, cs[0]), cs[1..])
  }

  /** However many live candles arrive, a valid window stays valid. */
  lemma {:induction false} ApplyAllPreservesValid(w: seq<Candle>, cs: seq<Candle>)
    requires ValidWindow(w)
    ensures ValidWindow(ApplyAll(w, cs))
    decreases |cs|
  {
    if |cs| > 0 {
      ApplyLivePreservesValid(w, cs[0]);
      ApplyAllPreservesValid(ApplyLive(w, cs[0]), cs[1..]);
    }
  }

  /** However many live candles arrive, the newest open time never decreases. */
  lemma {:induction false} ApplyAllTailMonotone(w: seq<Candle>, cs: seq<Candle>)
    requires |w| > 0
    ensures |ApplyAll(w, cs)| > 0 && LastTime(ApplyAll(w, cs)) >= LastTime(w)
    decreases |cs|
  {
    if |cs| > 0 {
      ApplyLiveTailMonotone(w, cs[0]);
      ApplyAllTailMonotone(ApplyLive(w, cs[0]), cs[1..]);
    }
  }

  /**
   * The REST half of `start`: a usable response replaces the window with its
   * rows mapped in order; a rejected fetch, a non-ok status or an unreadable
   * body leaves the window as it was.
   */
  function ApplySnapshot(w: seq<Candle>, resp: Response, parse: string -> Num): (r: seq<Candle>)
    ensures Succeeded(resp) ==> |r| == |resp.body.value|
    ensures Succeeded(resp) ==> forall i :: 0 <= i < |r| ==>
      r[i] == FormatCandle(resp.body.value[i], parse) && r[i].t == resp.body.value[i].openTime
    ensures !Succeeded(resp) ==> r == w
  {
    if Succeeded(resp) then FormatRows(resp.body.value, parse) else w
  }

  /** A snapshot of at most Limit ascending rows yields a valid window ending in its last row. */
  lemma ApplySnapshotValid(w: seq<Candle>, resp: Response, parse: string -> Num)
    requires Succeeded(resp) && RowsAscending(resp.body.value) && |resp.body.value| <= Limit
    ensures ValidWindow(ApplySnapshot(w, resp, parse))
    ensures |resp.body.value| > 0 ==>
      LastTime(ApplySnapshot(w, resp, parse)) == resp.body.value[|resp.body.value| - 1].openTime
  {
  }
}
