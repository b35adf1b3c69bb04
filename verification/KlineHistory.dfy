/** The closed-bar history behind the backtests: a bounded deque, upserted bar by bar or merged in
    batches, that always shows the newest bars of everything it was ever fed. */
module KlineHistory {
  import opened Basics

  type Ohlcv = seq<real>

  /** A raw row as it arrives: the close flag, the open time and the timestamp may all be missing. */
  datatype Row = Row(closed: Option<bool>, openMs: int, stampMs: Option<int>, ohlcv: Ohlcv)

  datatype Bar = Bar(openMs: int, ohlcv: Ohlcv)

  /** A stored bar read back as a row. */
  function AsRow(b: Bar): Row { Row(Some(true), b.openMs, Some(b.openMs), b.ohlcv) }

  function AsRows(bars: seq<Bar>): seq<Row> {
    if bars == [] then [] else AsRows(bars[..|bars| - 1]) + [AsRow(bars[|bars| - 1])]
  }

  function Normalize(row: Row): (bar: Option<Bar>)
    ensures bar.Some? ==> bar.value.openMs > 0 && bar.value.ohlcv == row.ohlcv
    ensures bar.Some? ==> bar.value.openMs == row.openMs || (row.openMs <= 0 && Some(bar.value.openMs) == row.stampMs)
    ensures bar.None? <==> row.closed == Some(false)
                           || (row.openMs <= 0 && (row.stampMs.None? || row.stampMs.value <= 0))
  {
    if row.closed == Some(false) then None
    else
      var openMs := if row.openMs <= 0 && row.stampMs.Some? then row.stampMs.value else row.openMs;
      if openMs <= 0 then None else Some(Bar(openMs, row.ohlcv))
  }

  type Latest = map<int, Bar>

  ghost predicate Keyed(m: Latest) { forall k | k in m :: m[k].openMs == k > 0 }

  function Upsert(m: Latest, row: Row): (m': Latest)
    ensures Keyed(m) ==> Keyed(m')
  {
    var bar := Normalize(row);
    if bar.None? then m else m[bar.value.openMs := bar.value]
  }

  /** The latest-wins map after a sequence of rows. */
  function Feed(m: Latest, rows: seq<Row>): (m': Latest)
    ensures Keyed(m) ==> Keyed(m')
  {
    if rows == [] then m else Upsert(Feed(m, rows[..|rows| - 1]), rows[|rows| - 1])
  }

  /** The latest row wins: a bar shows what the last row for it carried, and a bar that no row is for stays
      as it was. */
  lemma {:induction false} LatestRowWins(m: Latest, rows: seq<Row>, i: nat, key: int)
    requires i < |rows| && Normalize(rows[i]).Some? && Normalize(rows[i]).value.openMs == key
    requires forall j | i < j < |rows| && Normalize(rows[j]).Some? :: Normalize(rows[j]).value.openMs != key
    ensures key in Feed(m, rows) && Feed(m, rows)[key] == Bar(key, rows[i].ohlcv)
  {
    var n := |rows| - 1;
    if i < n {
      assert forall j | 0 <= j < n :: rows[..n][j] == rows[j];
      LatestRowWins(m, rows[..n], i, key);
    }
  }

  lemma {:induction false} OtherBarsStay(m: Latest, rows: seq<Row>, key: int)
    requires forall j | 0 <= j < |rows| && Normalize(rows[j]).Some? :: Normalize(rows[j]).value.openMs != key
    ensures key in Feed(m, rows) <==> key in m
    ensures key in m ==> Feed(m, rows)[key] == m[key]
  {
    if rows != [] {
      OtherBarsStay(m, rows[..|rows| - 1], key);
    }
  }

  ghost predicate Increasing(bars: seq<Bar>) {
    forall i, j | 0 <= i < j < |bars| :: bars[i].openMs < bars[j].openMs
  }

  ghost predicate Shows(bars: seq<Bar>, key: int) {
    exists i | 0 <= i < |bars| :: bars[i].openMs == key
  }

  /** `bars` lists, oldest first, the entries of `m` with the `limit` largest keys. */
  ghost predicate NewestOf(bars: seq<Bar>, m: Latest, limit: Option<nat>) {
    && Increasing(bars)
    && (limit.Some? ==> |bars| <= limit.value)
    && Listed(bars, m)
    && (forall key | key in m && !Shows(bars, key) :: Evicted(bars, key, limit))
  }

  ghost predicate Listed(bars: seq<Bar>, m: Latest) {
    forall i | 0 <= i < |bars| ::
      bars[i].openMs > 0 && bars[i].openMs in m && m[bars[i].openMs] == bars[i]
  }

  /** Only a full deque drops a key, and only one older than everything it shows. */
  ghost predicate Evicted(bars: seq<Bar>, key: int, limit: Option<nat>) {
    limit == Some(|bars|) && forall i | 0 <= i < |bars| :: key < bars[i].openMs
  }

  /** The description is exact: there is only one such list. */
  lemma {:induction false} NewestIsUnique(a: seq<Bar>, b: seq<Bar>, m: Latest, limit: Option<nat>)
    requires NewestOf(a, m, limit) && NewestOf(b, m, limit)
    ensures a == b
    decreases |a|
  {
    EmptyTogether(a, b, m, limit);
    EmptyTogether(b, a, m, limit);
    if a != [] && b != [] {
      var x, y := a[|a| - 1], b[|b| - 1];
      DropNewest(a, m, limit);
      DropNewest(b, m, limit);
      hide NewestOf;
      assert x == y;
      NewestIsUnique(a[..|a| - 1], b[..|b| - 1], Without(m, x.openMs), OneLess(limit));
      assert a == a[..|a| - 1] + [x] && b == b[..|b| - 1] + [y];
    }
  }

  lemma EmptyTogether(a: seq<Bar>, b: seq<Bar>, m: Latest, limit: Option<nat>)
    requires NewestOf(a, m, limit) && NewestOf(b, m, limit)
    ensures a != [] ==> b != []
  {
    if a != [] {
      assert a[0].openMs in m && !Shows([], a[0].openMs);
    }
  }

  ghost function Without(m: Latest, key: int): Latest { map k | k in m && k != key :: m[k] }

  ghost function OneLess(limit: Option<nat>): Option<nat> {
    if limit.Some? && limit.value > 0 then Some(limit.value - 1) else limit
  }

  lemma DropNewest(bars: seq<Bar>, m: Latest, limit: Option<nat>)
    requires NewestOf(bars, m, limit) && bars != []
    ensures forall key | key in m :: key <= bars[|bars| - 1].openMs
    ensures bars[|bars| - 1].openMs in m && m[bars[|bars| - 1].openMs] == bars[|bars| - 1]
    ensures NewestOf(bars[..|bars| - 1], Without(m, bars[|bars| - 1].openMs), OneLess(limit))
  {
    var n := |bars| - 1;
    var last := bars[n].openMs;
    var front, m' := bars[..n], Without(m, last);
    forall key | key in m ensures key <= last {
      if Shows(bars, key) {
        var i :| 0 <= i < |bars| && bars[i].openMs == key;
      }
    }
    forall key | key in m' && !Shows(front, key)
      ensures Evicted(front, key, OneLess(limit))
    {
      forall i | 0 <= i < |bars| ensures bars[i].openMs != key {
        assert i < n ==> bars[i] == front[i];
      }
    }
  }

  ghost function Keys(bars: seq<Bar>): set<int> { set i | 0 <= i < |bars| :: bars[i].openMs }

  lemma {:induction false} KeyCount(bars: seq<Bar>)
    requires Increasing(bars)
    ensures |Keys(bars)| == |bars|
  {
    if bars != [] {
      var n := |bars| - 1;
      KeyCount(bars[..n]);
      assert Keys(bars) == Keys(bars[..n]) + {bars[n].openMs};
    }
  }

  /** Reading the deque back gives exactly the bars it shows. */
  lemma {:induction false} FeedShown(bars: seq<Bar>)
    requires Increasing(bars) && forall i | 0 <= i < |bars| :: bars[i].openMs > 0
    ensures Listed(bars, Feed(map[], AsRows(bars)))
    ensures Feed(map[], AsRows(bars)).Keys == Keys(bars)
  {
    if bars != [] {
      var n := |bars| - 1;
      FeedShown(bars[..n]);
      FeedLast(AsRows(bars[..n]), AsRow(bars[n]));
      AddNewest(bars, Feed(map[], AsRows(bars[..n])));
    }
  }

  lemma AddNewest(bars: seq<Bar>, front: Latest)
    requires bars != [] && Increasing(bars) && bars[|bars| - 1].openMs > 0
    requires Listed(bars[..|bars| - 1], front) && front.Keys == Keys(bars[..|bars| - 1])
    ensures var last := bars[|bars| - 1];
            && Listed(bars, front[last.openMs := last])
            && front[last.openMs := last].Keys == Keys(bars)
  {
    var n := |bars| - 1;
    assert forall i | 0 <= i < n :: bars[i] == bars[..n][i] && bars[i].openMs < bars[n].openMs;
    assert Keys(bars) == Keys(bars[..n]) + {bars[n].openMs};
  }

  lemma FeedLast(rows: seq<Row>, row: Row)
    ensures forall m: Latest :: Feed(m, rows + [row]) == Upsert(Feed(m, rows), row)
  {
    assert (rows + [row])[..|rows|] == rows;
  }

  lemma {:induction false} RowCount(bars: seq<Bar>)
    ensures |AsRows(bars)| == |bars|
  {
    if bars != [] {
      RowCount(bars[..|bars| - 1]);
    }
  }

  /** Feeding the same rows to a part of a map: every key is found as in the whole, and a key of the
      whole that is missing was already missing. */
  lemma {:induction false} FeedPart(part: Latest, whole: Latest, rows: seq<Row>)
    requires forall k | k in part :: k in whole && part[k] == whole[k]
    ensures var part', whole' := Feed(part, rows), Feed(whole, rows);
            && (forall k | k in part' :: k in whole' && part'[k] == whole'[k])
            && (forall k | k in whole' && k !in part' :: k in whole && k !in part)
            && (forall k | k in part :: k in part')
  {
    if rows != [] {
      FeedPart(part, whole, rows[..|rows| - 1]);
    }
  }

  /** Evicted bars never matter again: the newest bars of what the deque still shows, merged with
      new rows, are the newest bars of everything ever fed. */
  lemma MergeForgetsNothing(bars: seq<Bar>, m: Latest, rows: seq<Row>, merged: seq<Bar>, limit: Option<nat>)
    requires NewestOf(bars, m, limit)
    requires NewestOf(merged, Feed(Feed(map[], AsRows(bars)), rows), limit)
    ensures NewestOf(merged, Feed(m, rows), limit)
  {
    FeedShown(bars);
    var shown := Feed(map[], AsRows(bars));
    var part, whole := Feed(shown, rows), Feed(m, rows);
    FeedPart(shown, m, rows);
    forall key | key in whole && !Shows(merged, key)
      ensures Evicted(merged, key, limit)
    {
      if key !in part {
        EvictedStaysOut(bars, m, merged, part, limit, key);
      }
    }
  }

  lemma EvictedStaysOut(
    bars: seq<Bar>, m: Latest, merged: seq<Bar>, part: Latest, limit: Option<nat>, key: int)
    requires NewestOf(bars, m, limit) && NewestOf(merged, part, limit)
    requires forall i | 0 <= i < |bars| :: bars[i].openMs in part
    requires key in m && !Shows(bars, key) && key !in part
    ensures Evicted(merged, key, limit)
  {
    KeyCount(bars);
    KeyCount(merged);
    if forall i | 0 <= i < |bars| :: Shows(merged, bars[i].openMs) {
      assert Keys(bars) <= Keys(merged);
      SubsetSize(Keys(bars), Keys(merged));
      forall i | 0 <= i < |merged| ensures key < merged[i].openMs {
        if merged[i].openMs !in Keys(bars) {
          assert |Keys(bars) + {merged[i].openMs}| == |bars| + 1;
          SubsetSize(Keys(bars) + {merged[i].openMs}, Keys(merged));
          assert false;
        }
      }
    }
  }

  /** Appending past the newest key, or replacing it, is what the rebuild would do. */
  lemma AppendIsNewest(bars: seq<Bar>, m: Latest, bar: Bar, limit: Option<nat>)
    requires NewestOf(bars, m, limit) && limit != Some(0) && bar.openMs > 0
    requires bars == [] || bars[|bars| - 1].openMs < bar.openMs
    ensures NewestOf(Capped(bars + [bar], limit), m[bar.openMs := bar], limit)
  {
    var all, m' := bars + [bar], m[bar.openMs := bar];
    forall key | key in m' && !Shows(all, key)
      ensures limit == Some(|bars|) && forall i | 0 <= i < |all| :: key < all[i].openMs
    {
      assert all[|bars|] == bar;
      forall i | 0 <= i < |bars| ensures bars[i].openMs != key {
        assert all[i] == bars[i];
      }
      assert Evicted(bars, key, limit);
    }
    CappedIsNewest(all, m', limit);
  }

  /** Cutting a list that holds every key above its oldest bar leaves the newest ones. */
  lemma CappedIsNewest(all: seq<Bar>, m: Latest, limit: Option<nat>)
    requires Increasing(all)
    requires Listed(all, m)
    requires forall key | key in m && !Shows(all, key) ::
               && limit.Some? && limit.value <= |all|
               && forall i | 0 <= i < |all| :: key < all[i].openMs
    ensures NewestOf(Capped(all, limit), m, limit)
  {
    if limit.Some? && |all| > limit.value {
      var skip := |all| - limit.value;
      var out := all[skip..];
      assert Capped(all, limit) == out;
      forall key | key in m && !Shows(out, key) ensures Evicted(out, key, limit) {
        if Shows(all, key) {
          CutOff(all, skip, key);
        }
      }
    }
  }

  lemma CutOff(all: seq<Bar>, skip: nat, key: int)
    requires Increasing(all) && skip <= |all| && Shows(all, key) && !Shows(all[skip..], key)
    ensures forall i | 0 <= i < |all| - skip :: key < all[skip..][i].openMs
  {
    var at :| 0 <= at < |all| && all[at].openMs == key;
    assert forall i | 0 <= i < |all| - skip :: all[skip..][i] == all[skip + i];
    assert at >= skip ==> at - skip < |all| - skip;
  }

  lemma ReplaceIsNewest(bars: seq<Bar>, m: Latest, bar: Bar, limit: Option<nat>)
    requires NewestOf(bars, m, limit) && bars != [] && bar.openMs == bars[|bars| - 1].openMs > 0
    ensures NewestOf(bars[|bars| - 1 := bar], m[bar.openMs := bar], limit)
  {
    var out := bars[|bars| - 1 := bar];
    assert forall i | 0 <= i < |bars| :: out[i].openMs == bars[i].openMs;
    forall key | key in m && !Shows(out, key) ensures !Shows(bars, key) {
      forall i | 0 <= i < |bars| ensures bars[i].openMs != key {
        assert out[i].openMs == bars[i].openMs;
      }
    }
  }

  /** A deque keeps its newest end. */
  function Capped(bars: seq<Bar>, limit: Option<nat>): seq<Bar> {
    if limit.Some? && |bars| > limit.value then bars[|bars| - limit.value..] else bars
  }

  lemma SomeKey(keys: set<int>)
    requires |keys| > 0
    ensures exists k :: k in keys
  {
    assert (forall k :: k !in keys) ==> keys == {};
  }

  method LargestKey(keys: set<int>) returns (largest: int)
    requires |keys| > 0
    ensures largest in keys && forall k | k in keys :: k <= largest
  {
    SomeKey(keys);
    largest :| largest in keys;
    var rest := keys - {largest};
    while |rest| > 0
      invariant largest in keys && rest <= keys
      invariant forall k | k in keys && k !in rest :: k <= largest
      decreases rest
    {
      SomeKey(rest);
      var k :| k in rest;
      if k > largest {
        largest := k;
      }
      rest := rest - {k};
    }
  }

  /** The entries of the map in the order of their keys. */
  method Sorted(m: Latest) returns (bars: seq<Bar>)
    requires Keyed(m)
    ensures NewestOf(bars, m, None)
  {
    bars := [];
    var rest := m.Keys;
    while |rest| > 0
      invariant rest <= m.Keys && Increasing(bars) && Listed(bars, m)
      invariant forall i | 0 <= i < |bars| :: Above(rest, bars[i].openMs)
      invariant forall k | k in m && k !in rest :: Shows(bars, k)
      decreases rest
    {
      var k := LargestKey(rest);
      ShowsMore(m[k], bars);
      bars := [m[k]] + bars;
      rest := rest - {k};
    }
  }

  ghost predicate Above(rest: set<int>, key: int) {
    forall k | k in rest :: k < key
  }

  lemma ShowsMore(bar: Bar, bars: seq<Bar>)
    ensures forall k :: Shows(bars, k) || k == bar.openMs ==> Shows([bar] + bars, k)
  {
    var more := [bar] + bars;
    forall k | Shows(bars, k) || k == bar.openMs ensures Shows(more, k) {
      if k == bar.openMs {
        assert more[0].openMs == k;
      } else {
        var i :| 0 <= i < |bars| && bars[i].openMs == k;
        assert more[i + 1].openMs == k;
      }
    }
  }

  /** Rebuilds a closed-bar deque from the old one and a batch of rows, latest row winning. */
  method MergeClosedKlineBars(bars: seq<Bar>, rows: seq<Row>, limit: Option<nat>)
    returns (merged: seq<Bar>)
    requires limit != Some(0)
    ensures NewestOf(merged, Feed(Feed(map[], AsRows(bars)), rows), limit)
  {
    var byMs: Latest := map[];
    for i := 0 to |bars|
      invariant byMs == Feed(map[], AsRows(bars[..i]))
    {
      RowCount(bars[..i]);
      assert bars[..i + 1][..i] == bars[..i];
      assert AsRows(bars[..i + 1])[..i] == AsRows(bars[..i]);
      byMs := Upsert(byMs, AsRow(bars[i]));
    }
    assert bars[..|bars|] == bars;
    ghost var kept := byMs;
    for i := 0 to |rows|
      invariant byMs == Feed(kept, rows[..i])
    {
      assert rows[..i + 1][..i] == rows[..i];
      byMs := Upsert(byMs, rows[i]);
    }
    assert rows[..|rows|] == rows;
    var sorted := Sorted(byMs);
    merged := Capped(sorted, limit);
    CappedIsNewest(sorted, byMs, limit);
  }

  /** The in-place fast paths and the rebuild cannot be told apart by their result. */
  lemma FastPathIsRebuild(
    bars: seq<Bar>, m: Latest, row: Row, upserted: seq<Bar>, rebuilt: seq<Bar>, limit: Option<nat>)
    requires NewestOf(bars, m, limit) && NewestOf(upserted, Upsert(m, row), limit)
    requires NewestOf(rebuilt, Feed(Feed(map[], AsRows(bars)), [row]), limit)
    ensures upserted == rebuilt
  {
    MergeForgetsNothing(bars, m, [row], rebuilt, limit);
    assert Feed(m, [row][..0]) == m;
    NewestIsUnique(upserted, rebuilt, Upsert(m, row), limit);
  }

  /** The live deque of one series. The ghost map is everything ever fed to it, latest row winning. */
  class ClosedBars {
    const maxlen: Option<nat>
    var bars: seq<Bar>
    ghost var fed: Latest

    ghost predicate Valid()
      reads this
    {
      maxlen != Some(0) && NewestOf(bars, fed, maxlen)
    }

    constructor (maxlen: Option<nat>)
      requires maxlen != Some(0)
      ensures Valid() && bars == [] && fed == map[] && this.maxlen == maxlen
    {
      this.maxlen := maxlen;
      bars, fed := [], map[];
    }

    /** Upserts one bar: in place at the newest end, by a rebuild anywhere else. */
    method MergeClosedKlineBar(row: Row) returns (written: bool)
      requires Valid()
      modifies this
      ensures Valid() && fed == Upsert(old(fed), row)
      ensures written <==> Normalize(row).Some?
      ensures !written ==> bars == old(bars)
    {
      var item := Normalize(row);
      if item.None? {
        return false;
      }
      var bar := item.value;
      ghost var before := fed;
      fed := Upsert(fed, row);
      if bars == [] || bars[|bars| - 1].openMs < bar.openMs {
        AppendIsNewest(bars, before, bar, maxlen);
        bars := Capped(bars + [bar], maxlen);
      } else if bars[|bars| - 1].openMs == bar.openMs {
        ReplaceIsNewest(bars, before, bar, maxlen);
        bars := bars[|bars| - 1 := bar];
      } else {
        var merged := MergeClosedKlineBars(bars, [AsRow(bar)], maxlen);
        MergeForgetsNothing(bars, before, [AsRow(bar)], merged, maxlen);
        assert Feed(before, [AsRow(bar)][..0]) == before;
        bars := merged;
      }
      return true;
    }

    /** Replaces the deque by its merge with a batch, as a REST seed does. */
    method MergeBatch(rows: seq<Row>)
      requires Valid()
      modifies this
      ensures Valid() && fed == Feed(old(fed), rows)
    {
      var merged := MergeClosedKlineBars(bars, rows, maxlen);
      MergeForgetsNothing(bars, fed, rows, merged, maxlen);
      bars := merged;
      fed := Feed(fed, rows);
    }
  }
}
