/** Sixty-second sliding windows: a deque of stamped weights that is purged from the left, and
    the bound it gives on every window of time rather than only on windows ending at a call. */
module SlidingWindow {

  const SPAN := 60.0

  datatype Entry<T> = Entry(at: real, weight: nat, tag: T)

  ghost predicate Ordered<T>(log: seq<Entry<T>>) {
    forall i, j | 0 <= i <= j < |log| :: log[i].at <= log[j].at
  }

  /** Total weight of the entries whose tag is in `picks`. */
  function Tally<T(==)>(log: seq<Entry<T>>, picks: set<T>): (total: nat) {
    if log == [] then 0
    else
      var last := log[|log| - 1];
      Tally(log[..|log| - 1], picks) + (if last.tag in picks then last.weight else 0)
  }

  /** Total weight of the entries in `picks` stamped inside the closed window [lo, hi]. */
  ghost function Charge<T(!new)>(log: seq<Entry<T>>, picks: set<T>, lo: real, hi: real): (total: nat) {
    if log == [] then 0
    else
      var last := log[|log| - 1];
      Charge(log[..|log| - 1], picks, lo, hi)
      + (if lo <= last.at <= hi && last.tag in picks then last.weight else 0)
  }

  /** The charge adds up over parts of the history, and one entry counts with its weight exactly when it
      is picked and inside. */
  lemma {:induction false} ChargeOfParts<T(!new)>(
    a: seq<Entry<T>>, b: seq<Entry<T>>, e: Entry<T>, picks: set<T>, lo: real, hi: real)
    ensures Charge(a + b, picks, lo, hi) == Charge(a, picks, lo, hi) + Charge(b, picks, lo, hi)
    ensures Charge([e], picks, lo, hi) == if e.tag in picks && lo <= e.at <= hi then e.weight else 0
  {
    assert [e][..0] == [];
    if b == [] {
      assert a + b == a;
    } else {
      var n := |b| - 1;
      ChargeOfParts(a, b[..n], e, picks, lo, hi);
      assert (a + b)[..|a| + n] == a + b[..n];
    }
  }

  /** Every entry in `picks` was admitted with at most `cap` charged over the span ending at it. */
  ghost predicate Guarded<T(!new)>(log: seq<Entry<T>>, picks: set<T>, cap: int) {
    forall i | 0 <= i < |log| && log[i].tag in picks ::
      Charge(log[..i + 1], picks, log[i].at - SPAN, log[i].at) <= cap
  }

  lemma {:induction false} ChargeWidens<T(!new)>(
    log: seq<Entry<T>>, picks: set<T>, more: set<T>, lo: real, hi: real, lo': real, hi': real)
    requires picks <= more
    requires forall i | 0 <= i < |log| :: lo <= log[i].at <= hi ==> lo' <= log[i].at <= hi'
    ensures Charge(log, picks, lo, hi) <= Charge(log, more, lo', hi')
  {
    if log != [] {
      ChargeWidens(log[..|log| - 1], picks, more, lo, hi, lo', hi');
    }
  }

  /** One more entry leaves the log guarded exactly when it was guarded and the entry fits at its own
      instant. */
  lemma GuardedStep<T(!new)>(log: seq<Entry<T>>, e: Entry<T>, picks: set<T>, cap: int)
    ensures Guarded(log + [e], picks, cap)
            <==> Guarded(log, picks, cap)
                 && (e.tag in picks ==> Charge(log, picks, e.at - SPAN, e.at) + e.weight <= cap)
  {
    var log' := log + [e];
    assert log'[..|log| + 1] == log' && log'[..|log'| - 1] == log;
    forall i | 0 <= i < |log| ensures log'[i] == log[i] && log'[..i + 1] == log[..i + 1] {}
    if Guarded(log', picks, cap) {
      forall i | 0 <= i < |log| && log[i].tag in picks
        ensures Charge(log[..i + 1], picks, log[i].at - SPAN, log[i].at) <= cap
      {
        assert log'[i].tag in picks;
      }
      assert e.tag in picks ==> log'[|log|].tag in picks;
    }
  }

  /** The whole-run bound: when every admission was guarded, no closed window of one span,
      wherever it starts, carries more than the cap. */
  lemma {:induction false} EveryWindow<T(!new)>(
    log: seq<Entry<T>>, picks: set<T>, cap: nat, lo: real, hi: real)
    requires Ordered(log) && Guarded(log, picks, cap)
    requires hi <= lo + SPAN
    ensures Charge(log, picks, lo, hi) <= cap
  {
    if log != [] {
      var n := |log| - 1;
      var last := log[n];
      assert log[..n + 1] == log;
      if lo <= last.at <= hi && last.tag in picks {
        ChargeWidens(log, picks, picks, lo, hi, last.at - SPAN, last.at);
      } else {
        forall i | 0 <= i < n && log[..n][i].tag in picks
          ensures Charge(log[..n][..i + 1], picks, log[..n][i].at - SPAN, log[..n][i].at) <= cap
        {
          assert log[..n][..i + 1] == log[..i + 1];
        }
        EveryWindow(log[..n], picks, cap, lo, hi);
      }
    }
  }

  lemma {:induction false} ChargeOfPrefix<T(!new)>(
    log: seq<Entry<T>>, n: nat, picks: set<T>, lo: real, hi: real)
    requires n <= |log|
    ensures Charge(log[..n], picks, lo, hi) <= Charge(log, picks, lo, hi)
  {
    if n < |log| {
      var k := |log| - 1;
      ChargeOfPrefix(log[..k], n, picks, lo, hi);
      assert log[..k][..n] == log[..n];
    } else {
      assert log[..n] == log;
    }
  }

  /** No closed window of one span carries more than the cap. */
  ghost predicate Bounded<T(!new)>(log: seq<Entry<T>>, picks: set<T>, cap: nat) {
    forall lo: real, hi: real | hi <= lo + SPAN :: Charge(log, picks, lo, hi) <= cap
  }

  /** The guard is exact: all windows stay within the cap if and only if every entry fitted at its own
      instant. */
  lemma {:induction false} BoundedIffGuarded<T(!new)>(log: seq<Entry<T>>, picks: set<T>, cap: nat)
    requires Ordered(log)
    ensures Bounded(log, picks, cap) <==> Guarded(log, picks, cap)
  {
    if Guarded(log, picks, cap) {
      forall lo: real, hi: real | hi <= lo + SPAN ensures Charge(log, picks, lo, hi) <= cap {
        EveryWindow(log, picks, cap, lo, hi);
      }
      assert Bounded(log, picks, cap);
    }
    if Bounded(log, picks, cap) {
      forall i | 0 <= i < |log| && log[i].tag in picks
        ensures Charge(log[..i + 1], picks, log[i].at - SPAN, log[i].at) <= cap
      {
        var lo, hi := log[i].at - SPAN, log[i].at;
        ChargeOfPrefix(log, i + 1, picks, lo, hi);
        assert hi <= lo + SPAN;
      }
      assert Guarded(log, picks, cap);
    }
  }

  /** A suffix that holds exactly the entries from `cutoff` on tallies to the charge of the window. */
  lemma {:induction false} TallyIsCharge<T(!new)>(
    log: seq<Entry<T>>, dropped: nat, picks: set<T>, cutoff: real, hi: real)
    requires dropped <= |log|
    requires forall i | 0 <= i < dropped :: log[i].at < cutoff
    requires forall i | dropped <= i < |log| :: cutoff <= log[i].at <= hi
    ensures Tally(log[dropped..], picks) == Charge(log, picks, cutoff, hi)
  {
    if log != [] {
      var n := |log| - 1;
      if dropped == |log| {
        assert log[..n][n..] == [] == log[dropped..];
        TallyIsCharge(log[..n], n, picks, cutoff, hi);
      } else {
        assert log[dropped..][..n - dropped] == log[..n][dropped..];
        TallyIsCharge(log[..n], dropped, picks, cutoff, hi);
      }
    }
  }

  /** A deque of stamped weights, oldest first. The ghost `log` remembers what was popped. */
  class TimedDeque<T(==,!new)> {
    var window: seq<Entry<T>>
    ghost var log: seq<Entry<T>>
    ghost var horizon: real

    ghost predicate Valid()
      reads this
    {
      && Ordered(log)
      && |window| <= |log|
      && window == log[|log| - |window|..]
      && (forall i | 0 <= i < |log| - |window| :: log[i].at < horizon)
    }

    /** No entry carries a stamp later than `now`. */
    ghost predicate UpTo(now: real)
      reads this
    {
      horizon <= now - SPAN && forall i | 0 <= i < |log| :: log[i].at <= now
    }

    lemma UpToLater(now: real, later: real)
      requires UpTo(now) && now <= later
      ensures UpTo(later)
    {}

    constructor (ghost now: real)
      ensures Valid() && UpTo(now) && log == []
    {
      window := [];
      log, horizon := [], now - SPAN;
    }

    /** Pops everything older than one span; nothing else leaves the deque. */
    method Purge(now: real)
      requires Valid() && UpTo(now)
      modifies this
      ensures Valid() && UpTo(now) && log == old(log) && horizon == now - SPAN
      ensures forall i | 0 <= i < |window| :: now - SPAN <= window[i].at
    {
      hide Ordered;
      var cutoff := now - SPAN;
      horizon := cutoff;
      ghost var dropped := |log| - |window|;
      while window != [] && window[0].at < cutoff
        invariant log == old(log) && horizon == cutoff
        invariant 0 <= dropped <= |log| && window == log[dropped..]
        invariant forall i | 0 <= i < dropped :: log[i].at < cutoff
        decreases |window|
      {
        assert window[0] == log[dropped];
        window := window[1..];
        dropped := dropped + 1;
      }
      OldestFirst(log, dropped, cutoff);
    }

    static lemma OldestFirst(log: seq<Entry<T>>, dropped: nat, cutoff: real)
      requires Ordered(log) && dropped <= |log|
      requires dropped < |log| ==> cutoff <= log[dropped].at
      ensures forall i | 0 <= i < |log[dropped..]| :: cutoff <= log[dropped..][i].at
    {}

    /** Right after a purge the deque adds up to the charge of the last span of the whole history. */
    lemma SumIsCharge(picks: set<T>, now: real)
      requires Valid() && UpTo(now) && horizon == now - SPAN
      requires forall i | 0 <= i < |window| :: now - SPAN <= window[i].at
      ensures Tally(window, picks) == Charge(log, picks, now - SPAN, now)
    {
      var dropped := |log| - |window|;
      forall i | dropped <= i < |log| ensures now - SPAN <= log[i].at {
        assert log[i] == window[i - dropped];
      }
      TallyIsCharge(log, dropped, picks, now - SPAN, now);
    }

    method Append(at: real, weight: nat, tag: T)
      requires Valid() && UpTo(at)
      modifies this
      ensures Valid() && UpTo(at) && horizon == old(horizon)
      ensures log == old(log) + [Entry(at, weight, tag)]
      ensures window == old(window) + [Entry(at, weight, tag)]
    {
      window := window + [Entry(at, weight, tag)];
      log := log + [Entry(at, weight, tag)];
    }

    /** Adds up the weights carrying one of the given tags, entry by entry. */
    method Sum(picks: set<T>) returns (total: nat)
      ensures total == Tally(window, picks)
    {
      total := 0;
      for i := 0 to |window|
        invariant total == Tally(window[..i], picks)
      {
        assert window[..i + 1][..i] == window[..i];
        if window[i].tag in picks {
          total := total + window[i].weight;
        }
      }
      assert window[..|window|] == window;
    }
  }
}
