/** Attempts on the wire: each is made under a reservation, retries wait for a growing back-off, and the
    weight sent in a window is bounded by what was reserved around it. */
module Sends {
  import opened Basics
  import opened SlidingWindow
  import opened RestUsage

  // ---- Back-off ----

  function Pow2(k: nat): real { if k == 0 then 1.0 else 2.0 * Pow2(k - 1) }

  /** The least pause after attempt `k`; the code adds a random part that may be 0. */
  function Backoff(k: nat, cap: real): real { MinReal(Pow2(k), cap) }

  /** The least time from a first attempt to the one `n` attempts later. */
  function Reach(n: nat, cap: real): real {
    if n == 0 then 0.0 else Reach(n - 1, cap) + Backoff(n, cap)
  }

  lemma {:induction false} BackoffGrows(k: nat, m: nat, cap: real)
    requires k <= m && cap >= 0.0
    ensures 0.0 <= Backoff(k, cap) <= Backoff(m, cap) && 0.0 < Pow2(k) <= Pow2(m)
  {
    if k < m {
      BackoffGrows(k, m - 1, cap);
    } else if k > 0 {
      BackoffGrows(k - 1, k - 1, cap);
    }
  }

  lemma {:induction false} ReachGrows(k: nat, m: nat, cap: real)
    requires k <= m && cap >= 0.0
    ensures 0.0 <= Reach(k, cap) <= Reach(m, cap)
  {
    if k < m {
      BackoffGrows(m, m, cap);
      ReachGrows(k, m - 1, cap);
    } else if k > 0 {
      BackoffGrows(k, k, cap);
      ReachGrows(k - 1, k - 1, cap);
    }
  }

  /** The back-offs double from 2 seconds on: until the cap is reached, `n` of them take 2^(n+1) - 2
      seconds, and from then on each takes the cap. */
  lemma {:induction false} BackoffsDouble(n: nat, cap: real)
    ensures Pow2(n) <= cap ==> Reach(n, cap) == 2.0 * Pow2(n) - 2.0
    ensures Pow2(n + 1) > cap ==> Reach(n + 1, cap) - Reach(n, cap) == cap
    ensures Pow2(0) == 1.0 && Pow2(n + 1) == Pow2(n) + Pow2(n)
  {
    if n > 0 {
      BackoffsDouble(n - 1, cap);
      BackoffGrows(n - 1, n, MaxReal(cap, 0.0));
    }
  }

  /** Later retries are no closer together than the first ones. */
  lemma {:induction false} LaterIsSlower(p: nat, m: nat, cap: real)
    requires cap >= 0.0
    ensures Reach(p + m, cap) - Reach(p, cap) >= Reach(m, cap)
  {
    if m > 0 {
      BackoffGrows(m, p + m, cap);
      LaterIsSlower(p, m - 1, cap);
    }
  }

  /** The least time that the retries of two reservations take together when they share one attempt
      more than one reservation has. */
  function Slack(attempts: nat, cap: real): real
    requires attempts > 0
  {
    Reach((attempts - 1) / 2, cap) + Reach(attempts / 2, cap)
  }

  /** An even split of the attempts is the least. */
  lemma {:induction false} SlackIsLeast(attempts: nat, k: nat, cap: real)
    requires k < attempts && cap >= 0.0
    ensures Reach(k, cap) + Reach(attempts - 1 - k, cap) >= Slack(attempts, cap)
    decreases if k <= attempts - 1 - k then attempts - 1 - 2 * k else 2 * k - attempts + 2
  {
    if k > attempts - 1 - k {
      SlackIsLeast(attempts, attempts - 1 - k, cap);
    } else if k < (attempts - 1) / 2 {
      BackoffGrows(k + 1, attempts - 1 - k, cap);
      SlackIsLeast(attempts, k + 1, cap);
    }
  }

  // ---- Sends and reservations ----

  /** One attempt on the wire, made under an entry of the reservation log. */
  datatype Send = Send(at: real, reservation: nat)

  /** How often a reservation was used. */
  function Uses(sends: seq<Send>, r: nat): nat {
    if sends == [] then 0
    else Uses(sends[..|sends| - 1], r) + if sends[|sends| - 1].reservation == r then 1 else 0
  }

  /** How often it was used in a window. */
  function UsesIn(sends: seq<Send>, r: nat, lo: real, hi: real): nat {
    if sends == [] then 0
    else
      var s := sends[|sends| - 1];
      UsesIn(sends[..|sends| - 1], r, lo, hi) + if s.reservation == r && lo <= s.at <= hi then 1 else 0
  }

  /** Between two attempts of one reservation lie the back-offs of all attempts from the one to the
      other. */
  ghost predicate BackedOff(sends: seq<Send>, cap: real) {
    forall i, j | 0 <= i < j < |sends| && sends[i].reservation == sends[j].reservation ::
      sends[j].at - sends[i].at
      >= Reach(Uses(sends[..j], sends[j].reservation), cap) - Reach(Uses(sends[..i], sends[i].reservation), cap)
  }

  /** Every attempt holds a reservation made no later than it, no reservation is used more than `attempts`
      times, and its retries are backed off. */
  ghost predicate WellSent(log: seq<Entry<Component>>, sends: seq<Send>, attempts: nat, cap: real) {
    && (forall i | 0 <= i < |sends| ::
          sends[i].reservation < |log| && log[sends[i].reservation].at <= sends[i].at)
    && (forall r: nat | r < |log| :: Uses(sends, r) <= attempts)
    && BackedOff(sends, cap)
  }

  /** Every attempt is made within `delay` of its reservation. */
  ghost predicate Prompt(log: seq<Entry<Component>>, sends: seq<Send>, delay: real) {
    forall i | 0 <= i < |sends| && sends[i].reservation < |log| ::
      sends[i].at <= log[sends[i].reservation].at + delay
  }

  /** Weight put on the wire in [lo, hi] under the first `n` reservations, by lanes. */
  ghost function Sent(
    log: seq<Entry<Component>>, sends: seq<Send>, n: nat, picks: set<Component>, lo: real, hi: real): nat
    requires n <= |log|
  {
    if sends == [] then 0
    else
      var s := sends[|sends| - 1];
      Sent(log, sends[..|sends| - 1], n, picks, lo, hi)
      + if s.reservation < n && log[s.reservation].tag in picks && lo <= s.at <= hi
        then log[s.reservation].weight else 0
  }

  lemma {:induction false} SentOnNone(
    log: seq<Entry<Component>>, sends: seq<Send>, picks: set<Component>, lo: real, hi: real)
    ensures Sent(log, sends, 0, picks, lo, hi) == 0
  {
    if sends != [] {
      SentOnNone(log, sends[..|sends| - 1], picks, lo, hi);
    }
  }

  /** One more reservation adds its weight times its uses in the window. */
  lemma {:induction false} SentOnOne(
    log: seq<Entry<Component>>, sends: seq<Send>, n: nat, picks: set<Component>, lo: real, hi: real)
    requires n < |log|
    ensures Sent(log, sends, n + 1, picks, lo, hi)
            == Sent(log, sends, n, picks, lo, hi)
               + if log[n].tag in picks then UsesIn(sends, n, lo, hi) * log[n].weight else 0
  {
    if sends != [] {
      var last := |sends| - 1;
      SentOnOne(log, sends[..last], n, picks, lo, hi);
      OnceMore(UsesIn(sends[..last], n, lo, hi), log[n].weight);
    }
  }

  lemma OnceMore(n: nat, w: nat)
    ensures (n + 1) * w == n * w + w
  {}

  lemma AtMostTimes(n: nat, m: nat, w: nat)
    requires n <= m
    ensures n * w <= m * w
  {}

  lemma Spread(n: nat, a: nat, b: nat)
    ensures n * (a + b) == n * a + n * b
  {}

  lemma Below(n: nat, a: nat, b: nat)
    requires a <= b
    ensures n * a <= n * b
  {}

  lemma {:induction false} UsesInAtMost(sends: seq<Send>, r: nat, lo: real, hi: real)
    ensures UsesIn(sends, r, lo, hi) <= Uses(sends, r)
    ensures UsesIn(sends, r, lo, hi) > 0 ==>
              exists i :: 0 <= i < |sends| && sends[i].reservation == r && lo <= sends[i].at <= hi
  {
    if sends != [] {
      var last := |sends| - 1;
      UsesInAtMost(sends[..last], r, lo, hi);
      if UsesIn(sends[..last], r, lo, hi) > 0 {
        var i :| 0 <= i < last && sends[..last][i].reservation == r && lo <= sends[..last][i].at <= hi;
        assert sends[i].reservation == r;
      }
    }
  }

  /** What goes out in a window was reserved in the window widened by the delay, and goes out at most
      `attempts` times. */
  lemma {:induction false} SentIsReserved(
    log: seq<Entry<Component>>, sends: seq<Send>, n: nat, attempts: nat, cap: real, delay: real,
    picks: set<Component>, lo: real, hi: real)
    requires WellSent(log, sends, attempts, cap) && Prompt(log, sends, delay) && n <= |log|
    ensures Sent(log, sends, n, picks, lo, hi) <= attempts * Charge(log[..n], picks, lo - delay, hi)
  {
    if n == 0 {
      SentOnNone(log, sends, picks, lo, hi);
    } else {
      var k := n - 1;
      SentIsReserved(log, sends, k, attempts, cap, delay, picks, lo, hi);
      SentOnOne(log, sends, k, picks, lo, hi);
      UsesInAtMost(sends, k, lo, hi);
      assert log[..n][..k] == log[..k];
      AtMostTimes(UsesIn(sends, k, lo, hi), attempts, log[k].weight);
      Spread(attempts, Charge(log[..k], picks, lo - delay, hi), log[k].weight);
    }
  }

  lemma {:induction false} ChargeSplits(
    log: seq<Entry<Component>>, picks: set<Component>, lo: real, mid: real, hi: real)
    requires lo <= mid <= hi
    ensures Charge(log, picks, lo, hi) <= Charge(log, picks, lo, mid) + Charge(log, picks, mid, hi)
  {
    if log != [] {
      ChargeSplits(log[..|log| - 1], picks, lo, mid, hi);
    }
  }

  // ---- Layers: where a reservation must lie to be used that often in a window ----

  /** A reservation made at `t` can have `k` attempts in the window. */
  predicate InLayer(t: real, k: nat, lo: real, hi: real, delay: real, cap: real)
    requires k > 0
  {
    lo - delay + Reach(k - 1, cap) <= t <= hi - Reach(k - 1, cap)
  }

  /** The first and the last use in the window, with the other uses in it between them. */
  lemma {:induction false} FirstAndLast(sends: seq<Send>, r: nat, lo: real, hi: real) returns (f: nat, l: nat)
    requires UsesIn(sends, r, lo, hi) > 0
    ensures f <= l < |sends| && sends[f].reservation == sends[l].reservation == r
    ensures lo <= sends[f].at <= hi && lo <= sends[l].at <= hi
    ensures UsesIn(sends, r, lo, hi) + Uses(sends[..f], r) <= Uses(sends[..l], r) + 1 <= Uses(sends, r)
  {
    var last := |sends| - 1;
    var before := sends[..last];
    if UsesIn(before, r, lo, hi) == 0 {
      f, l := last, last;
    } else {
      f, l := FirstAndLast(before, r, lo, hi);
      assert before[..f] == sends[..f] && before[..l] == sends[..l];
      if sends[last].reservation == r && lo <= sends[last].at <= hi {
        l := last;
      }
    }
  }

  lemma {:induction false} UsedMeansInLayer(
    log: seq<Entry<Component>>, sends: seq<Send>, r: nat, attempts: nat, cap: real, delay: real, lo: real, hi: real)
    requires WellSent(log, sends, attempts, cap) && Prompt(log, sends, delay) && r < |log| && cap >= 0.0
    ensures var n := UsesIn(sends, r, lo, hi);
            n <= attempts && (n > 0 ==> InLayer(log[r].at, n, lo, hi, delay, cap))
  {
    UsesInAtMost(sends, r, lo, hi);
    var n := UsesIn(sends, r, lo, hi);
    if n > 0 {
      var f, l := FirstAndLast(sends, r, lo, hi);
      var p, q := Uses(sends[..f], r), Uses(sends[..l], r);
      hide Reach;
      if f == l {
        ReachGrows(0, n - 1, cap);
        assert n == 1 && Reach(0, cap) == 0.0 by { ReachOfNone(cap); }
      } else {
        assert sends[l].at - sends[f].at >= Reach(q, cap) - Reach(p, cap);
        LaterIsSlower(p, q - p, cap);
        ReachGrows(n - 1, q - p, cap);
      }
    }
  }

  lemma ReachOfNone(cap: real)
    ensures Reach(0, cap) == 0.0
  {}

  /** Charge of the first `n` layers. */
  ghost function Layers(
    log: seq<Entry<Component>>, c: Component, n: nat, lo: real, hi: real, delay: real, cap: real): nat
  {
    if n == 0 then 0
    else Layers(log, c, n - 1, lo, hi, delay, cap) + Layer(log, c, n, lo, hi, delay, cap)
  }

  ghost function Layer(
    log: seq<Entry<Component>>, c: Component, k: nat, lo: real, hi: real, delay: real, cap: real): nat
    requires k > 0
  {
    Charge(log, {c}, lo - delay + Reach(k - 1, cap), hi - Reach(k - 1, cap))
  }

  lemma {:induction false} LayersOfMore(
    log: seq<Entry<Component>>, e: Entry<Component>, c: Component, n: nat, m: nat,
    lo: real, hi: real, delay: real, cap: real)
    requires m <= n && cap >= 0.0 && (m > 0 ==> e.tag == c && InLayer(e.at, m, lo, hi, delay, cap))
    ensures Layers(log + [e], c, n, lo, hi, delay, cap) >= Layers(log, c, n, lo, hi, delay, cap) + m * e.weight
  {
    if n > 0 {
      var least := if m == n then n - 1 else m;
      assert (log + [e])[..|log|] == log;
      if m > 0 {
        ReachGrows(if least > 0 then least - 1 else 0, m - 1, cap);
      }
      LayersOfMore(log, e, c, n - 1, least, lo, hi, delay, cap);
      if m == n {
        OnceMore(n - 1, e.weight);
      }
    }
  }

  lemma {:induction false} SentWithinLayers(
    log: seq<Entry<Component>>, sends: seq<Send>, n: nat, c: Component, attempts: nat, cap: real, delay: real,
    lo: real, hi: real)
    requires WellSent(log, sends, attempts, cap) && Prompt(log, sends, delay) && n <= |log| && cap >= 0.0
    ensures Sent(log, sends, n, {c}, lo, hi) <= Layers(log[..n], c, attempts, lo, hi, delay, cap)
  {
    if n == 0 {
      SentOnNone(log, sends, {c}, lo, hi);
    } else {
      var k := n - 1;
      SentWithinLayers(log, sends, k, c, attempts, cap, delay, lo, hi);
      SentOnOne(log, sends, k, {c}, lo, hi);
      UsedMeansInLayer(log, sends, k, attempts, cap, delay, lo, hi);
      assert log[..n] == log[..k] + [log[k]];
      var uses := if log[k].tag == c then UsesIn(sends, k, lo, hi) else 0;
      LayersOfMore(log[..k], log[k], c, attempts, uses, lo, hi, delay, cap);
    }
  }

  /** Two windows overlap in the inner and together cover the outer of two concentric intervals. */
  lemma {:induction false} ConcentricCharge(
    log: seq<Entry<Component>>, picks: set<Component>, lo: real, hi: real, shift: real)
    requires 0.0 <= shift && lo + shift <= hi - shift
    ensures Charge(log, picks, lo, hi) + Charge(log, picks, lo + shift, hi - shift)
            == Charge(log, picks, lo, hi - shift) + Charge(log, picks, lo + shift, hi)
  {
    if log != [] {
      ConcentricCharge(log[..|log| - 1], picks, lo, hi, shift);
    }
  }

  lemma {:induction false} ChargeOfEmpty(log: seq<Entry<Component>>, picks: set<Component>, lo: real, hi: real)
    requires lo > hi
    ensures Charge(log, picks, lo, hi) == 0
  {
    if log != [] {
      ChargeOfEmpty(log[..|log| - 1], picks, lo, hi);
    }
  }

  /** Two concentric intervals of two spans in all carry at most twice the cap; so does one of two spans. */
  lemma {:induction false} TwoWindows(
    log: seq<Entry<Component>>, picks: set<Component>, cap: nat, lo: real, hi: real, shift: real)
    requires Ordered(log) && Guarded(log, picks, cap) && shift >= 0.0
    requires if lo + shift <= hi - shift then hi - lo - shift <= SPAN else hi - lo <= 2.0 * SPAN
    ensures Charge(log, picks, lo, hi) + Charge(log, picks, lo + shift, hi - shift) <= 2 * cap
  {
    if lo + shift <= hi - shift {
      ConcentricCharge(log, picks, lo, hi, shift);
      EveryWindow(log, picks, cap, lo, hi - shift);
      EveryWindow(log, picks, cap, lo + shift, hi);
    } else {
      ChargeOfEmpty(log, picks, lo + shift, hi - shift);
      if lo <= hi {
        var mid := (lo + hi) / 2.0;
        ChargeSplits(log, picks, lo, mid, hi);
        EveryWindow(log, picks, cap, lo, mid);
        EveryWindow(log, picks, cap, mid, hi);
      } else {
        ChargeOfEmpty(log, picks, lo, hi);
      }
    }
  }

  /** Layer `k` and the one opposite to it together carry at most twice the budget. */
  lemma {:induction false} OppositeLayers(
    log: seq<Entry<Component>>, c: Component, budget: nat, attempts: nat, k: nat,
    lo: real, hi: real, delay: real, cap: real)
    requires Ordered(log) && Guarded(log, {c}, budget) && 1 <= k <= attempts && cap >= 0.0
    requires hi - lo + delay <= SPAN + MinReal(Slack(attempts, cap), SPAN)
    ensures Layer(log, c, k, lo, hi, delay, cap) + Layer(log, c, attempts + 1 - k, lo, hi, delay, cap) <= 2 * budget
  {
    if k <= attempts + 1 - k {
      var outer, inner := Reach(k - 1, cap), Reach(attempts - k, cap);
      SlackIsLeast(attempts, k - 1, cap);
      ReachGrows(k - 1, attempts - k, cap);
      TwoWindows(log, {c}, budget, lo - delay + outer, hi - outer, inner - outer);
    } else {
      OppositeLayers(log, c, budget, attempts, attempts + 1 - k, lo, hi, delay, cap);
    }
  }

  /** All layers carry at most the budget times the attempts. */
  lemma {:induction false} LayersBounded(
    log: seq<Entry<Component>>, c: Component, budget: nat, attempts: nat,
    lo: real, hi: real, delay: real, cap: real)
    requires Ordered(log) && Guarded(log, {c}, budget) && attempts > 0 && cap >= 0.0
    requires hi - lo + delay <= SPAN + MinReal(Slack(attempts, cap), SPAN)
    ensures Layers(log, c, attempts, lo, hi, delay, cap) <= attempts * budget
  {
    PairedLayers(log, c, budget, attempts, attempts, lo, hi, delay, cap);
    Spread(attempts, budget, budget);
  }

  lemma {:induction false} PairedLayers(
    log: seq<Entry<Component>>, c: Component, budget: nat, attempts: nat, n: nat,
    lo: real, hi: real, delay: real, cap: real)
    requires Ordered(log) && Guarded(log, {c}, budget) && n <= attempts && attempts > 0 && cap >= 0.0
    requires hi - lo + delay <= SPAN + MinReal(Slack(attempts, cap), SPAN)
    ensures Layers(log, c, n, lo, hi, delay, cap)
            + (Layers(log, c, attempts, lo, hi, delay, cap) - Layers(log, c, attempts - n, lo, hi, delay, cap))
            <= n * (2 * budget)
  {
    if n > 0 {
      PairedLayers(log, c, budget, attempts, n - 1, lo, hi, delay, cap);
      OppositeLayers(log, c, budget, attempts, n, lo, hi, delay, cap);
      OnceMore(n - 1, 2 * budget);
      hide Layer;
    }
  }

  /** Whatever was reserved and however it was sent, a window of this width carries at most the lane's
      budget times the attempts. */
  ghost predicate KeepsBudget(
    limits: Limits, c: Component, attempts: nat, cap: real, delay: real, width: real)
  {
    forall log: seq<Entry<Component>>, sends: seq<Send>, lo: real, hi: real |
      limits.Guards(log) && Ordered(log) && WellSent(log, sends, attempts, cap) && Prompt(log, sends, delay)
      && hi <= lo + width ::
      Sent(log, sends, |log|, {c}, lo, hi) <= attempts * limits.Budget(c)
  }

  lemma {:induction false} OneWindow(
    limits: Limits, c: Component, log: seq<Entry<Component>>, sends: seq<Send>, attempts: nat, cap: real,
    delay: real, lo: real, hi: real)
    requires c != Order && limits.Guards(log) && Ordered(log) && attempts > 0 && cap >= 0.0
    requires WellSent(log, sends, attempts, cap) && Prompt(log, sends, delay)
    requires hi - lo + delay <= SPAN + MinReal(Slack(attempts, cap), SPAN)
    ensures Sent(log, sends, |log|, {c}, lo, hi) <= attempts * limits.Budget(c)
  {
    assert log[..|log|] == log;
    SentWithinLayers(log, sends, |log|, c, attempts, cap, delay, lo, hi);
    LayersBounded(log, c, limits.Budget(c), attempts, lo, hi, delay, cap);
  }

  /** The bound on the wire: it holds for windows that, with the delay, exceed the span by no more than
      the retries of two reservations keep apart, and by no more than another span. */
  lemma {:induction false} WireBound(
    limits: Limits, c: Component, attempts: nat, cap: real, delay: real, width: real)
    requires c != Order && attempts > 0 && cap >= 0.0
    requires width + delay <= SPAN + MinReal(Slack(attempts, cap), SPAN)
    ensures KeepsBudget(limits, c, attempts, cap, delay, width)
  {
    forall log: seq<Entry<Component>>, sends: seq<Send>, lo: real, hi: real |
      limits.Guards(log) && Ordered(log) && WellSent(log, sends, attempts, cap) && Prompt(log, sends, delay)
      && hi <= lo + width
      ensures Sent(log, sends, |log|, {c}, lo, hi) <= attempts * limits.Budget(c)
    {
      OneWindow(limits, c, log, sends, attempts, cap, delay, lo, hi);
    }
  }

  // ---- The histories that reach it ----

  /** A reservation's first `n` attempts, as fast as the back-off lets them. */
  function Retries(at: real, reservation: nat, n: nat, cap: real): seq<Send> {
    if n == 0 then []
    else Retries(at, reservation, n - 1, cap) + [Send(at + Reach(n - 1, cap), reservation)]
  }

  lemma {:induction false} RetriesAre(at: real, r: nat, n: nat, cap: real)
    ensures |Retries(at, r, n, cap)| == n
    ensures forall i | 0 <= i < n :: Retries(at, r, n, cap)[i] == Send(at + Reach(i, cap), r)
    ensures forall i | 0 <= i <= n :: Retries(at, r, n, cap)[..i] == Retries(at, r, i, cap)
  {
    hide Reach;
    if n > 0 {
      RetriesAre(at, r, n - 1, cap);
      var all, front := Retries(at, r, n, cap), Retries(at, r, n - 1, cap);
      forall i | 0 <= i <= n ensures all[..i] == Retries(at, r, i, cap) {
        if i < n {
          assert all[..i] == front[..i];
        } else {
          assert all[..n] == all;
        }
      }
    }
  }

  lemma UsesOfMore(sends: seq<Send>, s: Send, k: nat)
    ensures Uses(sends + [s], k) == Uses(sends, k) + if s.reservation == k then 1 else 0
  {
    assert (sends + [s])[..|sends|] == sends;
  }

  lemma {:induction false} UsesOfRetries(first: seq<Send>, at: real, r: nat, n: nat, cap: real, k: nat)
    ensures Uses(first + Retries(at, r, n, cap), k) == Uses(first, k) + if k == r then n else 0
  {
    hide Uses, Reach;
    if n == 0 {
      assert first + [] == first;
    } else {
      UsesOfRetries(first, at, r, n - 1, cap, k);
      var last := Send(at + Reach(n - 1, cap), r);
      UsesOfMore(first + Retries(at, r, n - 1, cap), last, k);
      assert first + Retries(at, r, n, cap) == first + Retries(at, r, n - 1, cap) + [last];
    }
  }

  lemma {:induction false} SentOfRetries(
    log: seq<Entry<Component>>, first: seq<Send>, at: real, r: nat, n: nat, cap: real, picks: set<Component>,
    lo: real, hi: real)
    requires r < |log| && log[r].tag in picks && cap >= 0.0
    requires n > 0 ==> lo <= at && at + Reach(n - 1, cap) <= hi
    ensures Sent(log, first + Retries(at, r, n, cap), |log|, picks, lo, hi)
            == Sent(log, first, |log|, picks, lo, hi) + n * log[r].weight
  {
    if n == 0 {
      assert first + [] == first;
    } else {
      if n > 1 {
        ReachGrows(n - 2, n - 1, cap);
      }
      ReachGrows(0, n - 1, cap);
      ReachOfNone(cap);
      SentOfRetries(log, first, at, r, n - 1, cap, picks, lo, hi);
      var before, last := first + Retries(at, r, n - 1, cap), Send(at + Reach(n - 1, cap), r);
      assert first + Retries(at, r, n, cap) == before + [last];
      assert (before + [last])[..|before|] == before;
      OnceMore(n - 1, log[r].weight);
    }
  }

  /** Two full budgets reserved apart. */
  function LateLog(c: Component, w: nat, apart: real): seq<Entry<Component>> {
    [Entry(0.0, w, c), Entry(apart, w, c)]
  }

  /** The first retried as late as the delay allows, the second as early as it can be. */
  function LateSends(i: nat, j: nat, delay: real, apart: real, cap: real): seq<Send>
    requires i > 0
  {
    Retries(delay - Reach(i - 1, cap), 0, i, cap) + Retries(apart, 1, j, cap)
  }

  /** The `k`-th of the late sends, and the retries its reservation had before it. */
  ghost predicate IsLateSend(sends: seq<Send>, k: nat, i: nat, delay: real, apart: real, cap: real)
    requires k < |sends| && i > 0
  {
    if k < i then sends[k] == Send(delay - Reach(i - 1, cap) + Reach(k, cap), 0) && Uses(sends[..k], 0) == k
    else sends[k] == Send(apart + Reach(k - i, cap), 1) && Uses(sends[..k], 1) == k - i
  }

  lemma {:induction false} LateSendsAre(i: nat, j: nat, delay: real, apart: real, cap: real)
    requires i > 0
    ensures var sends := LateSends(i, j, delay, apart, cap);
            && |sends| == i + j
            && (forall k: nat | k < i + j :: IsLateSend(sends, k, i, delay, apart, cap))
            && (forall r: nat :: Uses(sends, r) == if r == 0 then i else if r == 1 then j else 0)
  {
    hide Reach, Uses;
    var at := delay - Reach(i - 1, cap);
    var first, second := Retries(at, 0, i, cap), Retries(apart, 1, j, cap);
    var sends := LateSends(i, j, delay, apart, cap);
    RetriesAre(at, 0, i, cap);
    RetriesAre(apart, 1, j, cap);
    hide Retries;
    forall k: nat | k < i + j ensures IsLateSend(sends, k, i, delay, apart, cap) {
      if k < i {
        assert sends[..k] == first[..k] == [] + Retries(at, 0, k, cap);
        FirstUses(at, 0, k, cap, 0);
      } else {
        assert sends[..k] == first + second[..k - i] == first + Retries(apart, 1, k - i, cap);
        UsesOfRetries(first, apart, 1, k - i, cap, 1);
        FirstUses(at, 0, i, cap, 1);
      }
    }
    forall r: nat ensures Uses(sends, r) == if r == 0 then i else if r == 1 then j else 0 {
      FirstUses(at, 0, i, cap, r);
      UsesOfRetries(first, apart, 1, j, cap, r);
    }
  }

  lemma UsesOfNone(k: nat)
    ensures Uses([], k) == 0
  {}

  lemma FirstUses(at: real, r: nat, n: nat, cap: real, k: nat)
    ensures Uses(Retries(at, r, n, cap), k) == if k == r then n else 0
  {
    hide Reach, Uses, Retries;
    UsesOfNone(k);
    UsesOfRetries([], at, r, n, cap, k);
    assert [] + Retries(at, r, n, cap) == Retries(at, r, n, cap);
  }

  lemma {:induction false} LateSendsFit(
    c: Component, w: nat, i: nat, j: nat, attempts: nat, delay: real, apart: real, cap: real)
    requires 0 < i <= attempts && 0 < j <= attempts && cap >= 0.0
    requires Reach(i - 1, cap) <= delay && Reach(j - 1, cap) <= delay
    ensures WellSent(LateLog(c, w, apart), LateSends(i, j, delay, apart, cap), attempts, cap)
    ensures Prompt(LateLog(c, w, apart), LateSends(i, j, delay, apart, cap), delay)
  {
    var sends := LateSends(i, j, delay, apart, cap);
    LateSendsAre(i, j, delay, apart, cap);
    LateBackedOff(sends, i, delay, apart, cap);
    hide LateSends, Reach, BackedOff;
    forall k: nat | k < |sends|
      ensures sends[k].reservation < 2
      ensures LateLog(c, w, apart)[sends[k].reservation].at <= sends[k].at
      ensures sends[k].at <= LateLog(c, w, apart)[sends[k].reservation].at + delay
    {
      assert IsLateSend(sends, k, i, delay, apart, cap);
      hide Uses;
      if k < i {
        ReachGrows(0, k, cap);
        ReachGrows(k, i - 1, cap);
      } else {
        ReachGrows(k - i, j - 1, cap);
      }
    }
  }

  lemma {:induction false} LateBackedOff(sends: seq<Send>, i: nat, delay: real, apart: real, cap: real)
    requires i > 0 && forall k: nat | k < |sends| :: IsLateSend(sends, k, i, delay, apart, cap)
    ensures BackedOff(sends, cap)
  {
    hide Reach, Uses;
    forall m, k | 0 <= m < k < |sends| && sends[m].reservation == sends[k].reservation
      ensures sends[k].at - sends[m].at
              >= Reach(Uses(sends[..k], sends[k].reservation), cap) - Reach(Uses(sends[..m], sends[m].reservation), cap)
    {
      assert IsLateSend(sends, m, i, delay, apart, cap) && IsLateSend(sends, k, i, delay, apart, cap);
    }
  }

  lemma {:induction false} LateReservations(limits: Limits, c: Component, apart: real)
    requires c != Order && limits.Budget(c) <= limits.Ceiling(c) && apart > SPAN
    ensures limits.Guards(LateLog(c, limits.Budget(c), apart))
  {
    var w := limits.Budget(c);
    var first, second := Entry(0.0, w, c), Entry(apart, w, c);
    assert limits.Guards([]);
    assert Charge([first], ALL, apart - SPAN, apart) == 0 && Charge([first], {c}, apart - SPAN, apart) == 0 by {
      assert [first][..0] == [];
    }
    hide Limits.Guards, Charge, Limits.Ceiling, Limits.OrderGuarded, Limits.TotalGuarded;
    NoCharge(ALL);
    NoCharge({c});
    limits.ReservationKeepsGuards([], c, w, 0.0, 0.0);
    assert [] + [first] == [first];
    limits.ReservationKeepsGuards([first], c, w, apart, apart);
    assert [first] + [second] == [first, second];
  }

  lemma NoCharge(picks: set<Component>)
    ensures forall lo, hi :: Charge<Component>([], picks, lo, hi) == 0
  {}

  /** Sends leave late: `i` attempts of one full budget and `j` of the next fall into one window as soon
      as window and delay exceed the span by more than those retries take. */
  lemma {:induction false} DelayedSendsOverrun(
    limits: Limits, c: Component, i: nat, j: nat, attempts: nat, cap: real, delay: real, width: real)
    requires c != Order && limits.Budget(c) <= limits.Ceiling(c) && cap >= 0.0
    requires 0 < i <= attempts && 0 < j <= attempts
    requires Reach(i - 1, cap) <= width <= SPAN && Reach(j - 1, cap) <= width
    requires width + delay > SPAN + Reach(i - 1, cap) + Reach(j - 1, cap)
    ensures var apart := width + delay - Reach(i - 1, cap) - Reach(j - 1, cap);
            var log, sends := LateLog(c, limits.Budget(c), apart), LateSends(i, j, delay, apart, cap);
            var lo := delay - Reach(i - 1, cap);
            && limits.Guards(log) && Ordered(log)
            && WellSent(log, sends, attempts, cap) && Prompt(log, sends, delay)
            && Sent(log, sends, |log|, {c}, lo, lo + width) == (i + j) * limits.Budget(c)
  {
    var apart := width + delay - Reach(i - 1, cap) - Reach(j - 1, cap);
    var lo, w := delay - Reach(i - 1, cap), limits.Budget(c);
    ReachGrows(0, i - 1, cap);
    ReachGrows(0, j - 1, cap);
    LateReservations(limits, c, apart);
    LateSendsFit(c, w, i, j, attempts, delay, apart, cap);
    LateSendsCarry(c, w, i, j, delay, apart, cap, lo + width);
    hide Limits.Guards, WellSent, Prompt, Reach, Sent, LateSends;
  }

  lemma {:induction false} LateSendsCarry(
    c: Component, w: nat, i: nat, j: nat, delay: real, apart: real, cap: real, hi: real)
    requires i > 0 && j > 0 && cap >= 0.0
    requires var lo := delay - Reach(i - 1, cap);
             delay <= hi && lo <= apart && apart + Reach(j - 1, cap) <= hi
    ensures Sent(LateLog(c, w, apart), LateSends(i, j, delay, apart, cap), 2, {c}, delay - Reach(i - 1, cap), hi)
            == (i + j) * w
  {
    var log, lo := LateLog(c, w, apart), delay - Reach(i - 1, cap);
    hide Reach;
    SentOfRetries(log, [], lo, 0, i, cap, {c}, lo, hi);
    var first := Retries(lo, 0, i, cap);
    assert [] + first == first;
    SentOfRetries(log, first, apart, 1, j, cap, {c}, lo, hi);
    Spread(w, i, j);
  }

  /** And the bound is exact: with the back-offs of an even split within one span, and windows up to a
      span that can hold half of the attempts, it holds for all histories if and only if window and delay
      exceed the span by no more than those back-offs. */
  lemma {:induction false} WireBoundIff(
    limits: Limits, c: Component, attempts: nat, cap: real, delay: real, width: real)
    requires c != Order && 0 < limits.Budget(c) <= limits.Ceiling(c) && attempts > 0 && cap >= 0.0
    requires Slack(attempts, cap) <= SPAN && Reach(attempts / 2, cap) <= width <= SPAN
    ensures KeepsBudget(limits, c, attempts, cap, delay, width) <==> width + delay <= SPAN + Slack(attempts, cap)
  {
    if width + delay <= SPAN + Slack(attempts, cap) {
      WireBound(limits, c, attempts, cap, delay, width);
    } else {
      var i, j := (attempts - 1) / 2 + 1, attempts / 2 + 1;
      ReachGrows((attempts - 1) / 2, attempts / 2, cap);
      DelayedSendsOverrun(limits, c, i, j, attempts, cap, delay, width);
      assert i + j == attempts + 1;
      OnceMore(attempts, limits.Budget(c));
    }
  }

  // ---- One more reservation, one more attempt ----

  lemma {:induction false} UnusedIsZero(log: seq<Entry<Component>>, sends: seq<Send>, r: nat)
    requires forall i | 0 <= i < |sends| :: sends[i].reservation < |log|
    requires r >= |log|
    ensures Uses(sends, r) == 0
  {
    if sends != [] {
      UnusedIsZero(log, sends[..|sends| - 1], r);
    }
  }

  lemma WellSentUnused(log: seq<Entry<Component>>, sends: seq<Send>, attempts: nat, cap: real)
    requires WellSent(log, sends, attempts, cap)
    ensures Uses(sends, |log|) == 0 && forall i | 0 <= i < |sends| :: sends[i].reservation != |log|
  {
    UnusedIsZero(log, sends, |log|);
  }

  lemma ReservedStaysWellSent(
    log: seq<Entry<Component>>, sends: seq<Send>, attempts: nat, cap: real, e: Entry<Component>)
    requires WellSent(log, sends, attempts, cap)
    ensures WellSent(log + [e], sends, attempts, cap)
  {
    hide BackedOff;
    UnusedIsZero(log, sends, |log|);
  }

  /** The next attempt waits out the back-offs since each earlier one of its reservation. */
  ghost predicate Waits(sends: seq<Send>, s: Send, cap: real) {
    forall i | 0 <= i < |sends| && sends[i].reservation == s.reservation ::
      s.at - sends[i].at >= Reach(Uses(sends, s.reservation), cap) - Reach(Uses(sends[..i], s.reservation), cap)
  }

  lemma UsedOnceMore(log: seq<Entry<Component>>, sends: seq<Send>, attempts: nat, cap: real, s: Send)
    requires WellSent(log, sends, attempts, cap) && Waits(sends, s, cap)
    requires s.reservation < |log| && log[s.reservation].at <= s.at && Uses(sends, s.reservation) < attempts
    ensures WellSent(log, sends + [s], attempts, cap)
    ensures Uses(sends + [s], s.reservation) == Uses(sends, s.reservation) + 1
  {
    hide Reach;
    var more := sends + [s];
    assert more[..|sends|] == sends;
    forall i | 0 <= i <= |sends| ensures more[..i] == sends[..i] {}
    forall r: nat | r < |log| ensures Uses(more, r) <= attempts {
      assert Uses(sends, r) <= attempts;
    }
  }
}
