/** Pacing of the REST candle backfill: at most so many series and so many coins a minute, both at
    once, taken from the front of the pending list. */
module BootstrapTrim {
  import opened Basics
  import opened SlidingWindow

  type Pair = (string, string)

  datatype Kind = Series | Coin

  function UpperChar(c: char): char {
    if 'a' <= c <= 'z' then c - 32 as char else c
  }

  /** Upper-casing of exchange symbols, which are ASCII. */
  function Upper(s: string): string {
    seq(|s|, i requires 0 <= i < |s| => UpperChar(s[i]))
  }

  /** It leaves no lower-case letter, and everything else as it is. */
  lemma UpperHasNoLower(s: string)
    ensures |Upper(s)| == |s|
    ensures forall i | 0 <= i < |s| ::
              && !('a' <= Upper(s)[i] <= 'z')
              && (if 'a' <= s[i] <= 'z' then s[i] - Upper(s)[i] == 'a' - 'A' else Upper(s)[i] == s[i])
  {}

  /** The symbols in `seen` and then the first different non-empty ones of the pending pairs, until
      there are `limit` of them. */
  function FirstCoins(pending: seq<Pair>, seen: set<string>, limit: int): (coins: set<string>)
    ensures seen <= coins && |coins| <= Max(|seen|, limit)
    decreases |pending|
  {
    if pending == [] then seen
    else
      var key := Upper(pending[0].0);
      if key == "" || key in seen then FirstCoins(pending[1..], seen, limit)
      else if |seen| >= limit then seen
      else FirstCoins(pending[1..], seen + {key}, limit)
  }

  /** The pending pairs of the given coins, upper-cased, in their order. */
  function Kept(pending: seq<Pair>, coins: set<string>): seq<Pair> {
    if pending == [] then []
    else
      var n := |pending| - 1;
      var key := Upper(pending[n].0);
      Kept(pending[..n], coins) + (if key in coins then [(key, pending[n].1)] else [])
  }

  function Coins(pairs: seq<Pair>): set<string> { set i | 0 <= i < |pairs| :: pairs[i].0 }

  function Prefix(pairs: seq<Pair>, n: int): seq<Pair> {
    if n <= 0 then [] else if |pairs| <= n then pairs else pairs[..n]
  }

  /** What one paced call keeps when that many series and coins are still free. */
  function Trimmed(pending: seq<Pair>, freeSeries: int, freeCoins: int): seq<Pair> {
    if freeSeries <= 0 || freeCoins <= 0 then []
    else Prefix(Kept(pending, FirstCoins(pending, {}, freeCoins)), freeSeries)
  }

  ghost predicate Sublist<X(!new)>(xs: seq<X>, ys: seq<X>) {
    if xs == [] then true
    else if ys == [] then false
    else
      || (xs[|xs| - 1] == ys[|ys| - 1] && Sublist(xs[..|xs| - 1], ys[..|ys| - 1]))
      || Sublist(xs, ys[..|ys| - 1])
  }

  function Uppercased(pending: seq<Pair>): seq<Pair> {
    seq(|pending|, i requires 0 <= i < |pending| => (Upper(pending[i].0), pending[i].1))
  }

  lemma {:induction false} KeptIsSublist(pending: seq<Pair>, coins: set<string>, k: nat)
    requires k <= |Kept(pending, coins)|
    ensures Sublist(Kept(pending, coins)[..k], Uppercased(pending))
    ensures Coins(Kept(pending, coins)[..k]) <= coins
  {
    if pending != [] {
      var n := |pending| - 1;
      var kept, before := Kept(pending, coins), Kept(pending[..n], coins);
      assert Uppercased(pending)[..n] == Uppercased(pending[..n]);
      if k <= |before| {
        assert kept[..k] == before[..k];
        KeptIsSublist(pending[..n], coins, k);
      } else {
        assert kept[..k] == kept && kept[..k - 1] == before == before[..|before|];
        KeptIsSublist(pending[..n], coins, |before|);
      }
    }
  }

  /** Whatever is pending: the kept pairs are a sublist of the upper-cased pending ones, in order, and
      fit both free budgets at once. */
  lemma TrimmedFits(pending: seq<Pair>, freeSeries: int, freeCoins: int)
    ensures var kept := Trimmed(pending, freeSeries, freeCoins);
            && Sublist(kept, Uppercased(pending))
            && |kept| <= (if freeSeries < 0 then 0 else freeSeries)
            && |Coins(kept)| <= (if freeCoins < 0 then 0 else freeCoins)
  {
    if freeSeries > 0 && freeCoins > 0 {
      var coins := FirstCoins(pending, {}, freeCoins);
      var all := Kept(pending, coins);
      var k := if |all| <= freeSeries then |all| else freeSeries;
      assert Trimmed(pending, freeSeries, freeCoins) == all[..k];
      KeptIsSublist(pending, coins, k);
      SubsetSize(Coins(all[..k]), coins);
    } else {
      assert Coins([]) == {};
    }
  }

  /** With room for every pending series and coin nothing is dropped but pairs without a symbol. */
  lemma RoomKeepsAll(pending: seq<Pair>, freeSeries: int, freeCoins: int)
    requires |pending| <= freeSeries && |Coins(Uppercased(pending))| <= freeCoins && pending != []
    ensures Trimmed(pending, freeSeries, freeCoins) == Kept(pending, Coins(Uppercased(pending)) - {""})
  {
    var all := Coins(Uppercased(pending));
    assert Uppercased(pending)[0].0 in all;
    FirstCoinsTakesAll(pending, {}, freeCoins, all);
    KeptIsShorter(pending, all - {""});
    SubsetSize({Uppercased(pending)[0].0}, all);
    assert {} + (all - {""}) == all - {""};
  }

  lemma {:induction false} KeptIsShorter(pending: seq<Pair>, coins: set<string>)
    ensures |Kept(pending, coins)| <= |pending|
  {
    if pending != [] {
      KeptIsShorter(pending[..|pending| - 1], coins);
    }
  }

  lemma {:induction false} FirstCoinsTakesAll(pending: seq<Pair>, seen: set<string>, limit: int, all: set<string>)
    requires Coins(Uppercased(pending)) <= all && seen <= all && |all| <= limit
    ensures FirstCoins(pending, seen, limit) == seen + (Coins(Uppercased(pending)) - {""})
    decreases |pending|
  {
    hide Upper;
    var coins := Coins(Uppercased(pending));
    if pending == [] {
      assert coins == {};
    } else {
      var key := Upper(pending[0].0);
      var rest := pending[1..];
      assert Uppercased(pending)[0].0 == key && Uppercased(pending)[1..] == Uppercased(rest);
      CoinsOfCons(Uppercased(pending));
      if key == "" || key in seen {
        FirstCoinsTakesAll(rest, seen, limit, all);
      } else {
        SubsetSize(seen + {key}, all);
        FirstCoinsTakesAll(rest, seen + {key}, limit, all);
      }
    }
  }

  /** A coin that is left out finds the limit used up by coins that came before it. */
  ghost predicate LeftOutLate(pending: seq<Pair>, seen: set<string>, coins: set<string>, limit: int) {
    forall i | 0 <= i < |pending| && Uppercased(pending)[i].0 !in coins + {""} ::
      |coins| == limit && forall c | c in coins - seen :: Before(pending, i, c)
  }

  lemma LeftOutEarlier(pending: seq<Pair>, seen: set<string>, more: set<string>, coins: set<string>, limit: int)
    requires pending != [] && Upper(pending[0].0) in coins + {""}
    requires more == if Upper(pending[0].0) == "" then seen else seen + {Upper(pending[0].0)}
    requires LeftOutLate(pending[1..], more, coins, limit)
    ensures LeftOutLate(pending, seen, coins, limit)
  {
    hide Upper;
    var rest := pending[1..];
    assert Uppercased(pending)[0].0 == Upper(pending[0].0) && Uppercased(pending)[1..] == Uppercased(rest);
    forall i | 0 <= i < |pending| && Uppercased(pending)[i].0 !in coins + {""}
      ensures |coins| == limit && forall c | c in coins - seen :: Before(pending, i, c)
    {
      assert i > 0 && Uppercased(pending)[i] == Uppercased(rest)[i - 1];
      forall c | c in coins - seen ensures Before(pending, i, c) {
        if c in more {
          assert Uppercased(pending)[0].0 == c;
        } else {
          assert Before(rest, i - 1, c);
          var j :| 0 <= j < i - 1 && Uppercased(rest)[j].0 == c;
          assert Uppercased(pending)[1..][j].0 == Uppercased(pending)[j + 1].0 == c;
        }
      }
    }
  }

  /** What the walk over the pending pairs collects: non-empty coins only, the first ones. */
  lemma {:induction false} CollectsFirst(pending: seq<Pair>, seen: set<string>, limit: int)
    requires |seen| <= limit
    ensures FirstCoins(pending, seen, limit) <= seen + (Coins(Uppercased(pending)) - {""})
    ensures LeftOutLate(pending, seen, FirstCoins(pending, seen, limit), limit)
    decreases |pending|
  {
    hide Upper, LeftOutLate;
    if pending == [] {
      assert LeftOutLate([], seen, seen, limit) by { EmptyLeavesNone(seen, limit); }
    } else {
      var key := Upper(pending[0].0);
      assert Uppercased(pending)[0].0 == key && Uppercased(pending)[1..] == Uppercased(pending[1..]);
      CoinsOfCons(Uppercased(pending));
      if key != "" && key !in seen && |seen| >= limit {
        UsedUp(pending, seen, limit);
      } else {
        var more := if key == "" then seen else seen + {key};
        assert key in seen ==> more == seen;
        var coins := FirstCoins(pending[1..], more, limit);
        assert FirstCoins(pending, seen, limit) == coins;
        CollectsFirst(pending[1..], more, limit);
        LeftOutEarlier(pending, seen, more, coins, limit);
      }
    }
  }

  lemma EmptyLeavesNone(seen: set<string>, limit: int)
    ensures LeftOutLate([], seen, seen, limit)
  {}

  lemma UsedUp(pending: seq<Pair>, seen: set<string>, limit: int)
    requires |seen| == limit
    ensures LeftOutLate(pending, seen, seen, limit)
  {}

  /** A pair of the coin is pending before place `i`. */
  ghost predicate Before(pending: seq<Pair>, i: nat, coin: string)
    requires i <= |pending|
  {
    exists j | 0 <= j < i :: Uppercased(pending)[j].0 == coin
  }

  lemma {:induction false} KeepsAllOf(pending: seq<Pair>, coins: set<string>, x: Pair)
    ensures multiset(Kept(pending, coins))[x] == if x.0 in coins then multiset(Uppercased(pending))[x] else 0
  {
    hide Upper;
    if pending == [] {
      assert Uppercased(pending) == [];
    } else {
      var n := |pending| - 1;
      KeepsAllOf(pending[..n], coins, x);
      assert Uppercased(pending) == Uppercased(pending[..n]) + [(Upper(pending[n].0), pending[n].1)];
    }
  }

  lemma CoinsOfKept(pending: seq<Pair>, coins: set<string>)
    requires coins <= Coins(Uppercased(pending))
    ensures Coins(Kept(pending, coins)) == coins
  {
    var kept := Kept(pending, coins);
    forall c | c in coins ensures c in Coins(kept) {
      var i :| 0 <= i < |pending| && Uppercased(pending)[i].0 == c;
      var x := Uppercased(pending)[i];
      KeepsAllOf(pending, coins, x);
      assert x in multiset(Uppercased(pending)) && x in multiset(kept);
      var k :| 0 <= k < |kept| && kept[k] == x;
    }
    forall c | c in Coins(kept) ensures c in coins {
      var k :| 0 <= k < |kept| && kept[k].0 == c;
      KeepsAllOf(pending, coins, kept[k]);
      assert kept[k] in multiset(kept);
    }
  }

  lemma AsManyAsFit(pending: seq<Pair>, limit: int)
    requires limit > 0
    ensures |FirstCoins(pending, {}, limit)| == Min(limit, |Coins(Uppercased(pending)) - {""}|)
  {
    var coins, all := FirstCoins(pending, {}, limit), Coins(Uppercased(pending)) - {""};
    CollectsFirst(pending, {}, limit);
    SubsetSize(coins, all);
    if |coins| < limit {
      forall c | c in all ensures c in coins {
        var i :| 0 <= i < |pending| && Uppercased(pending)[i].0 == c;
      }
      assert coins == all;
    }
  }

  /** Nothing is given away: with series left over, as many coins are kept as are pending or free, each
      with all its pairs, and a coin is left out only for ones that came before it. */
  lemma TrimmedUsesUp(pending: seq<Pair>, freeSeries: int, freeCoins: int)
    requires freeCoins > 0 && |Trimmed(pending, freeSeries, freeCoins)| < freeSeries
    ensures var (kept, all) := (Trimmed(pending, freeSeries, freeCoins), Uppercased(pending));
            && |Coins(kept)| == Min(freeCoins, |Coins(all) - {""}|)
            && (forall x: Pair | x.0 in Coins(kept) :: multiset(kept)[x] == multiset(all)[x])
            && LeftOutLate(pending, {}, Coins(kept), freeCoins)
  {
    var kept := Trimmed(pending, freeSeries, freeCoins);
    var coins := FirstCoins(pending, {}, freeCoins);
    assert kept == Kept(pending, coins);
    hide FirstCoins, Kept, Trimmed, LeftOutLate;
    AsManyAsFit(pending, freeCoins);
    CollectsFirst(pending, {}, freeCoins);
    CoinsOfKept(pending, coins);
    forall x: Pair | x.0 in Coins(kept) ensures multiset(kept)[x] == multiset(Uppercased(pending))[x] {
      KeepsAllOf(pending, coins, x);
    }
  }

  /** A tight series budget is used up, from the front: what fits it is the front of what would be kept with
      more room. */
  lemma TighterIsFront(pending: seq<Pair>, freeSeries: int, more: int, freeCoins: int)
    requires 0 <= freeSeries <= more
    ensures var (kept, roomy) := (Trimmed(pending, freeSeries, freeCoins), Trimmed(pending, more, freeCoins));
            |kept| == Min(freeSeries, |roomy|) && kept == roomy[..|kept|]
  {}

  lemma CoinsOfCons(pairs: seq<Pair>)
    requires pairs != []
    ensures Coins(pairs) == {pairs[0].0} + Coins(pairs[1..])
  {
    forall i | 0 <= i < |pairs| ensures pairs[i].0 in {pairs[0].0} + Coins(pairs[1..]) {
      if i > 0 { assert pairs[i] == pairs[1..][i - 1]; }
    }
    forall i | 0 <= i < |pairs| - 1 ensures pairs[1..][i].0 in Coins(pairs) {
      assert pairs[1..][i] == pairs[i + 1];
    }
  }

  /** `n` requests stamped at the same instant. */
  ghost function Stamps(n: nat, at: real, kind: Kind): seq<Entry<Kind>> {
    if n == 0 then [] else Stamps(n - 1, at, kind) + [Entry(at, 1, kind)]
  }

  lemma NothingKept(at: real)
    ensures |Coins([])| == 0 && forall kind :: Stamps(0, at, kind) == []
    ensures forall freeSeries, freeCoins :: Trimmed([], freeSeries, freeCoins) == []
  {
    assert Coins([]) == {};
    assert forall coins :: Kept([], coins) == [];
  }

  /** A log of single requests guarded by its cap. */
  ghost predicate Capped(log: seq<Entry<Kind>>, kind: Kind, cap: nat) {
    && Guarded(log, {kind}, cap)
    && forall i | 0 <= i < |log| :: log[i].weight == 1 && log[i].tag == kind
  }

  lemma {:induction false} CountIsTally(window: seq<Entry<Kind>>, kind: Kind)
    requires forall i | 0 <= i < |window| :: window[i].weight == 1 && window[i].tag == kind
    ensures |window| == Tally(window, {kind})
  {
    if window != [] {
      CountIsTally(window[..|window| - 1], kind);
    }
  }

  /** Pops the requests older than a minute and counts the others. */
  method Settle(deque: TimedDeque<Kind>, ghost kind: Kind, ghost cap: nat, now: real) returns (count: nat)
    requires deque.Valid() && deque.UpTo(now) && Capped(deque.log, kind, cap)
    modifies deque
    ensures deque.Valid() && deque.UpTo(now) && deque.log == old(deque.log)
    ensures count == Charge(deque.log, {kind}, now - SPAN, now)
  {
    deque.Purge(now);
    deque.SumIsCharge({kind}, now);
    count := |deque.window|;
    forall i | 0 <= i < count ensures deque.window[i].weight == 1 && deque.window[i].tag == kind {
      assert deque.window[i] == deque.log[|deque.log| - count + i];
    }
    CountIsTally(deque.window, kind);
  }

  lemma StampKeepsCap(log: seq<Entry<Kind>>, kind: Kind, cap: nat, now: real)
    requires Capped(log, kind, cap) && Charge(log, {kind}, now - SPAN, now) < cap
    ensures var log' := log + [Entry(now, 1, kind)];
            && Capped(log', kind, cap)
            && Charge(log', {kind}, now - SPAN, now) == Charge(log, {kind}, now - SPAN, now) + 1
  {
    var log' := log + [Entry(now, 1, kind)];
    GuardedStep(log, Entry(now, 1, kind), {kind}, cap);
    assert log'[..|log'| - 1] == log;
  }

  /** Records `n` requests made at `now`, for which the cap has room. */
  method Stamp(deque: TimedDeque<Kind>, n: nat, kind: Kind, ghost cap: nat, now: real)
    requires deque.Valid() && deque.UpTo(now) && Capped(deque.log, kind, cap)
    requires Charge(deque.log, {kind}, now - SPAN, now) + n <= cap
    modifies deque
    ensures deque.Valid() && deque.UpTo(now) && Capped(deque.log, kind, cap)
    ensures deque.log == old(deque.log) + Stamps(n, now, kind)
  {
    hide Capped, Charge;
    for i := 0 to n
      invariant deque.Valid() && deque.UpTo(now) && Capped(deque.log, kind, cap)
      invariant Charge(deque.log, {kind}, now - SPAN, now) + (n - i) <= cap
      invariant deque.log == old(deque.log) + Stamps(i, now, kind)
    {
      StampKeepsCap(deque.log, kind, cap, now);
      deque.Append(now, 1, kind);
    }
  }

  /** Walks the pending pairs once and collects the first `limit` different coins. */
  method AllowedCoins(pending: seq<Pair>, limit: int) returns (allowed: set<string>)
    ensures allowed == FirstCoins(pending, {}, limit)
  {
    hide Upper;
    allowed := {};
    var rest := pending;
    while rest != []
      invariant FirstCoins(pending, {}, limit) == FirstCoins(rest, allowed, limit)
      decreases |rest|
    {
      var key := Upper(rest[0].0);
      if key != "" && key !in allowed {
        if |allowed| >= limit {
          return;
        }
        allowed := allowed + {key};
      }
      rest := rest[1..];
    }
  }

  /** Keeps the pairs of the allowed coins, upper-cased, in order. */
  method KeepAllowed(pending: seq<Pair>, allowed: set<string>) returns (kept: seq<Pair>)
    ensures kept == Kept(pending, allowed)
  {
    kept := [];
    for i := 0 to |pending|
      invariant kept == Kept(pending[..i], allowed)
    {
      assert pending[..i + 1][..i] == pending[..i];
      var key := Upper(pending[i].0);
      if key in allowed {
        kept := kept + [(key, pending[i].1)];
      }
    }
    assert pending[..|pending|] == pending;
  }

  class BootstrapPacer {
    const maxSeries: nat
    const maxCoins: nat
    const series: TimedDeque<Kind>
    const coins: TimedDeque<Kind>

    ghost predicate Valid()
      reads this, series, coins
    {
      && series != coins
      && series.Valid() && coins.Valid()
      && Capped(series.log, Series, maxSeries) && Capped(coins.log, Coin, maxCoins)
    }

    ghost predicate UpTo(now: real)
      reads series, coins
    {
      series.UpTo(now) && coins.UpTo(now)
    }

    constructor (maxSeries: int, maxCoins: int, ghost now: real)
      ensures Valid() && UpTo(now) && series.log == [] && coins.log == []
      ensures this.maxSeries == (if maxSeries < 1 then 1 else maxSeries)
      ensures this.maxCoins == (if maxCoins < 1 then 1 else maxCoins)
      ensures fresh(series) && fresh(coins)
    {
      this.maxSeries := if maxSeries < 1 then 1 else maxSeries;
      this.maxCoins := if maxCoins < 1 then 1 else maxCoins;
      series := new TimedDeque<Kind>(now);
      coins := new TimedDeque<Kind>(now);
    }

    /** How many series, or coins, the last minute leaves free. */
    ghost function FreeSeries(now: real): int
      reads series
    {
      maxSeries - Charge(series.log, {Series}, now - SPAN, now)
    }

    ghost function FreeCoins(now: real): int
      reads coins
    {
      maxCoins - Charge(coins.log, {Coin}, now - SPAN, now)
    }

    /** One call. Outside warmup it keeps exactly what the two budgets of the last minute leave
        free, and charges both for it. */
    method Trim(pending: seq<Pair>, warmup: bool, now: real) returns (kept: seq<Pair>)
      requires Valid() && UpTo(now)
      modifies series, coins
      ensures Valid() && UpTo(now)
      ensures kept == if warmup then pending
                      else Trimmed(pending, old(FreeSeries(now)), old(FreeCoins(now)))
      ensures series.log == old(series.log) + if warmup then [] else Stamps(|kept|, now, Series)
      ensures coins.log == old(coins.log) + if warmup then [] else Stamps(|Coins(kept)|, now, Coin)
    {
      NothingKept(now);
      hide Capped, Charge, Upper, Coins, Kept, FirstCoins, Stamps, Sublist, TimedDeque.Valid, TimedDeque.UpTo;
      if warmup || pending == [] {
        return pending;
      }
      var usedSeries := Settle(series, Series, maxSeries, now);
      var usedCoins := Settle(coins, Coin, maxCoins, now);
      var freeSeries := maxSeries - usedSeries;
      if freeSeries <= 0 {
        return [];
      }
      var freeCoins := maxCoins - usedCoins;
      if freeCoins <= 0 {
        return [];
      }
      var allowed := AllowedCoins(pending, freeCoins);
      kept := KeepAllowed(pending, allowed);
      kept := Prefix(kept, freeSeries);
      TrimmedFits(pending, freeSeries, freeCoins);
      Stamp(coins, |Coins(kept)|, Coin, maxCoins, now);
      Stamp(series, |kept|, Series, maxSeries, now);
    }

    /** In every reachable state and for every closed window of 60 seconds: at most the series cap
        and at most the coin cap were requested. */
    lemma EveryWindowPaced(lo: real, hi: real)
      requires Valid() && hi <= lo + 60.0
      ensures Charge(series.log, {Series}, lo, hi) <= maxSeries
      ensures Charge(coins.log, {Coin}, lo, hi) <= maxCoins
    {
      EveryWindow(series.log, {Series}, maxSeries, lo, hi);
      EveryWindow(coins.log, {Coin}, maxCoins, lo, hi);
    }
  }
}
