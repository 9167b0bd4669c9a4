/**
 * The order book of order_book.py: the bid and ask sides of the latest depth
 * snapshot, each a map from price to resting size, the best bid / best ask and
 * the top levels of each side.
 *
 * Prices are numbers here. The source keeps the raw price strings of the feed
 * as keys and so compares them as strings; `ExtremeKeyAsWritten` below models
 * that comparison and `StringKeysMisorderPrices` shows where it goes wrong.
 */
module OrderBooks {
  import opened Wrappers

  type Price = real
  type Size = real

  /** One price level: a price and the quantity resting there. */
  datatype Level = Level(price: Price, size: Size)

  /** A depth snapshot as the feed delivers it. */
  datatype Snapshot = Snapshot(lastUpdateId: int, bids: seq<Level>, asks: seq<Level>)

  /** `a` comes strictly before `b` in `sorted(..., reverse=descending)`. */
  predicate Precedes(a: Price, b: Price, descending: bool) {
    if descending then a > b else a < b
  }

  /** `r` is a key of `keys` and no key comes before it: the max (descending) or the min. */
  predicate IsBest(r: Price, keys: set<Price>, descending: bool) {
    r in keys && forall k :: k in keys ==> k == r || Precedes(r, k, descending)
  }

  /** Some element of a non-empty set. */
  lemma Pick(keys: set<Price>) returns (x: Price)
    requires keys != {}
    ensures x in keys
  {
    if forall k :: k !in keys { assert false; }
    x :| x in keys;
  }

  /** A non-empty set of prices has a best element, by induction on the set. */
  lemma {:induction false} BestOf(keys: set<Price>, descending: bool) returns (m: Price)
    requires keys != {}
    ensures IsBest(m, keys, descending)
    decreases keys
  {
    var x := Pick(keys);
    if keys == {x} {
      assert forall k :: k in keys ==> k == x;
      m := x;
    } else {
      var rest := BestOf(keys - {x}, descending);
      m := if Precedes(x, rest, descending) then x else rest;
      forall k | k in keys
        ensures k == m || Precedes(m, k, descending)
      {
        if k != x {
          assert k in keys - {x};
        }
      }
    }
  }

  lemma BestExists(keys: set<Price>, descending: bool)
    requires keys != {}
    ensures exists r :: IsBest(r, keys, descending)
  {
    var m := BestOf(keys, descending);
  }

  /** `max(keys)` when `descending`, `min(keys)` otherwise. */
  function Best(keys: set<Price>, descending: bool): (r: Price)
    requires keys != {}
    ensures IsBest(r, keys, descending)
  {
    BestExists(keys, descending);
    var r :| IsBest(r, keys, descending); r
  }

  /** `sorted(keys, reverse=descending)`. */
  function SortedKeys(keys: set<Price>, descending: bool): (r: seq<Price>)
    ensures |r| == |keys|
    ensures forall i :: 0 <= i < |r| ==> r[i] in keys
    ensures forall k :: k in keys ==> k in r
    ensures forall i, j :: 0 <= i < j < |r| ==> Precedes(r[i], r[j], descending)
    decreases keys
  {
    if keys == {} then []
    else
      var b := Best(keys, descending);
      [b] + SortedKeys(keys - {b}, descending)
  }

  /** How many elements the Python slice `[:stop]` keeps of a list of length `n`. */
  function SliceLength(n: nat, stop: int): (m: nat)
    ensures m <= n
  {
    if 0 <= stop then (if stop < n then stop else n)
    else if n + stop > 0 then n + stop else 0
  }

  /**
   * `{k: side[k] for k in sorted(side.keys(), reverse=descending)[:depth]}`
   * as the ordered list of its entries: get_best_bids (descending) and
   * get_best_asks (ascending).
   */
  function TopLevels(side: map<Price, Size>, depth: int, descending: bool): (r: seq<Level>)
    ensures 0 <= depth ==> |r| == (if depth < |side| then depth else |side|)
    ensures depth < 0 ==> |r| == (if |side| + depth > 0 then |side| + depth else 0)
    ensures forall i :: 0 <= i < |r| ==> r[i].price in side && r[i].size == side[r[i].price]
    ensures forall i, j :: 0 <= i < j < |r| ==> Precedes(r[i].price, r[j].price, descending)
  {
    var keys := SortedKeys(side.Keys, descending);
    var top := keys[..SliceLength(|keys|, depth)];
    seq(|top|, i requires 0 <= i < |top| => Level(top[i], side[top[i]]))
  }

  /** The levels TopLevels returns are the best ones: every key it leaves out comes after every key it keeps. */
  lemma TopLevelsAreBest(side: map<Price, Size>, depth: int, descending: bool, k: Price)
    requires k in side
    requires forall i :: 0 <= i < |TopLevels(side, depth, descending)| ==> TopLevels(side, depth, descending)[i].price != k
    ensures forall i :: 0 <= i < |TopLevels(side, depth, descending)| ==>
              Precedes(TopLevels(side, depth, descending)[i].price, k, descending)
  {
    var keys := SortedKeys(side.Keys, descending);
    var r := TopLevels(side, depth, descending);
    var j :| 0 <= j < |keys| && keys[j] == k;
    assert forall i :: 0 <= i < |r| ==> r[i].price == keys[i];
    forall i | 0 <= i < |r|
      ensures Precedes(r[i].price, k, descending)
    {
      assert r[i].price != k;
    }
  }

  /** With `depth >= |side|` every level of the side is returned. */
  lemma TopLevelsComplete(side: map<Price, Size>, depth: int, descending: bool, k: Price)
    requires depth >= |side| && k in side
    ensures exists i :: 0 <= i < |TopLevels(side, depth, descending)| && TopLevels(side, depth, descending)[i].price == k
  {
    var keys := SortedKeys(side.Keys, descending);
    var r := TopLevels(side, depth, descending);
    var j :| 0 <= j < |keys| && keys[j] == k;
    assert r[j].price == k;
  }

  /** The first level returned is the best price of the side. */
  lemma TopLevelsStartAtBest(side: map<Price, Size>, depth: int, descending: bool)
    requires depth >= 1 && |side| > 0
    ensures |TopLevels(side, depth, descending)| > 0
    ensures TopLevels(side, depth, descending)[0].price == Best(side.Keys, descending)
  {
    var r := TopLevels(side, depth, descending);
    var b := Best(side.Keys, descending);
    if r[0].price != b {
      TopLevelsAreBest(side, depth, descending, b);
      assert false;
    }
  }

  /**
   * `{x[0]: x[1] for x in levels}`: one entry per listed price; when a price
   * is listed twice the later size wins.
   */
  function LevelMap(levels: seq<Level>): (m: map<Price, Size>)
    ensures m.Keys == set i | 0 <= i < |levels| :: levels[i].price
  {
    if levels == [] then map[]
    else
      var last := levels[|levels| - 1];
      var rest := levels[..|levels| - 1];
      assert forall i :: 0 <= i < |rest| ==> rest[i] == levels[i];
      LevelMap(rest)[last.price := last.size]
  }

  /** The size kept for a price is the size of the last level listing it. */
  lemma {:induction false} LevelMapLastWins(levels: seq<Level>, i: nat)
    requires i < |levels|
    requires forall j :: i < j < |levels| ==> levels[j].price != levels[i].price
    ensures levels[i].price in LevelMap(levels)
    ensures LevelMap(levels)[levels[i].price] == levels[i].size
  {
    var rest := levels[..|levels| - 1];
    if i < |levels| - 1 {
      assert forall j :: i < j < |rest| ==> rest[j] == levels[j];
      LevelMapLastWins(rest, i);
    }
  }

  class OrderBook {
    const ticker: string
    const interval: int
    var bids: map<Price, Size>
    var asks: map<Price, Size>
    var lastUpdateId: Option<int>

    /** A book before its first snapshot: no levels and no update id. */
    constructor (ticker: string, interval: int := 0)
      ensures this.ticker == ticker && this.interval == interval
      ensures bids == map[] && asks == map[] && lastUpdateId == None
    {
      this.ticker := ticker;
      this.interval := interval;
      bids, asks, lastUpdateId := map[], map[], None;
    }

    /**
     * The state change of get_depth_from_socket once the snapshot has been
     * received: both sides are replaced wholesale and the update id is
     * overwritten, whatever it was before.
     */
    method ApplySnapshot(snapshot: Snapshot)
      modifies this`bids, this`asks, this`lastUpdateId
      ensures lastUpdateId == Some(snapshot.lastUpdateId)
      ensures bids == LevelMap(snapshot.bids)
      ensures asks == LevelMap(snapshot.asks)
    {
      lastUpdateId := Some(snapshot.lastUpdateId);
      bids := LevelMap(snapshot.bids);
      asks := LevelMap(snapshot.asks);
    }

    /** The highest bid price. */
    function GetBestBid(): (r: Price)
      reads this
      requires bids != map[]
      ensures r in bids && forall k :: k in bids ==> k <= r
    {
      assert bids.Keys != {} by { assert |bids.Keys| == |bids|; }
      Best(bids.Keys, true)
    }

    /** The lowest ask price. */
    function GetBestAsk(): (r: Price)
      reads this
      requires asks != map[]
      ensures r in asks && forall k :: k in asks ==> r <= k
    {
      assert asks.Keys != {} by { assert |asks.Keys| == |asks|; }
      Best(asks.Keys, false)
    }

    /** The `depth` highest bid levels, highest first. */
    function GetBestBids(depth: int): (r: seq<Level>)
      reads this
      ensures 0 <= depth ==> |r| <= depth
      ensures forall i :: 0 <= i < |r| ==> r[i].price in bids && r[i].size == bids[r[i].price]
      ensures forall i, j :: 0 <= i < j < |r| ==> r[i].price > r[j].price
    {
      TopLevels(bids, depth, true)
    }

    /** The `depth` lowest ask levels, lowest first. */
    function GetBestAsks(depth: int): (r: seq<Level>)
      reads this
      ensures 0 <= depth ==> |r| <= depth
      ensures forall i :: 0 <= i < |r| ==> r[i].price in asks && r[i].size == asks[r[i].price]
      ensures forall i, j :: 0 <= i < j < |r| ==> r[i].price < r[j].price
    {
      TopLevels(asks, depth, false)
    }
  }

  /** Python's `<` on `str`: code-point lexicographic order, a proper prefix first. */
  predicate StrLess(a: string, b: string)
    decreases |a|
  {
    if |a| == 0 then |b| > 0
    else if |b| == 0 then false
    else if a[0] != b[0] then a[0] < b[0]
    else StrLess(a[1..], b[1..])
  }

  lemma {:induction false} StrLessIrreflexive(a: string)
    ensures !StrLess(a, a)
    decreases |a|
  {
    if |a| > 0 {
      StrLessIrreflexive(a[1..]);
    }
  }

  lemma {:induction false} StrLessTransitive(a: string, b: string, c: string)
    ensures StrLess(a, b) && StrLess(b, c) ==> StrLess(a, c)
    decreases |a|
  {
    if |a| > 0 && |b| > 0 && |c| > 0 && a[0] == b[0] && b[0] == c[0] {
      StrLessTransitive(a[1..], b[1..], c[1..]);
    }
  }

  /** No key is above `r` (`reverse`) or below it in string order. */
  predicate IsStrExtreme(r: string, keys: seq<string>, reverse: bool) {
    forall k :: k in keys ==> if reverse then !StrLess(r, k) else !StrLess(k, r)
  }

  /** One step of the left-to-right scan keeps the running result extreme. */
  lemma ScanStep(prefix: seq<string>, cur: string, x: string, reverse: bool)
    requires IsStrExtreme(cur, prefix, reverse)
    ensures IsStrExtreme(if (if reverse then StrLess(cur, x) else StrLess(x, cur)) then x else cur, prefix + [x], reverse)
  {
    var r := if (if reverse then StrLess(cur, x) else StrLess(x, cur)) then x else cur;
    StrLessIrreflexive(x);
    forall k | k in prefix + [x]
      ensures if reverse then !StrLess(r, k) else !StrLess(k, r)
    {
      if k != x {
        assert k in prefix;
        StrLessTransitive(cur, x, k);
        StrLessTransitive(k, x, cur);
      }
    }
  }

  /**
   * get_best_bid (`reverse`) and get_best_ask as written: `max` / `min` over
   * the list of raw price strings, scanning left to right and keeping the
   * first extreme element. The result is a key that no key exceeds (`max`)
   * or undercuts (`min`) in string order.
   */
  function ExtremeKeyAsWritten(keys: seq<string>, reverse: bool): (r: string)
    requires |keys| > 0
    ensures r in keys
    ensures IsStrExtreme(r, keys, reverse)
  {
    if |keys| == 1 then
      StrLessIrreflexive(keys[0]);
      keys[0]
    else
      var prefix := keys[..|keys| - 1];
      var cur := ExtremeKeyAsWritten(prefix, reverse);
      var x := keys[|keys| - 1];
      assert keys == prefix + [x];
      ScanStep(prefix, cur, x, reverse);
      if (if reverse then StrLess(cur, x) else StrLess(x, cur)) then x else cur
  }

  /**
   * With bid levels at 10.01 and 9.99 the string comparison picks "9.99" as
   * the best bid and "10.01" as the best ask; compared as numbers the best bid
   * is 10.01 and the best ask 9.99.
   */
  lemma StringKeysMisorderPrices()
    ensures ExtremeKeyAsWritten(["10.01", "9.99"], true) == "9.99"
    ensures ExtremeKeyAsWritten(["10.01", "9.99"], false) == "10.01"
    ensures Best({10.01, 9.99}, true) == 10.01
    ensures Best({10.01, 9.99}, false) == 9.99
  {
    assert StrLess("10.01", "9.99");
    assert ["10.01", "9.99"][..1] == ["10.01"];
  }
}
