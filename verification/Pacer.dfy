/** Per-lane pacing: `wait` books the next free slot, possibly in the future, and sleeps up to it;
    `try_consume` takes a slot only if it is free now. */
module Pacer {
  import opened Basics
  import opened Grid
  import opened RestUsage

  /** Any two slots, in the order they were granted, are at least `gap` apart. */
  ghost predicate Spaced(slots: seq<real>, gap: real) {
    forall i, j | 0 <= i < j < |slots| :: slots[i] + gap <= slots[j]
  }

  ghost function InWindow(slots: seq<real>, lo: real, hi: real): nat {
    if slots == [] then 0
    else
      var n := |slots| - 1;
      InWindow(slots[..n], lo, hi) + (if lo <= slots[n] <= hi then 1 else 0)
  }

  lemma {:induction false} InWindowCounts(slots: seq<real>, lo: real, hi: real)
    ensures InWindow(slots, lo, hi) == |set i | 0 <= i < |slots| && lo <= slots[i] <= hi|
  {
    var inside := set i | 0 <= i < |slots| && lo <= slots[i] <= hi;
    if slots == [] {
      assert inside == {};
    } else {
      var n := |slots| - 1;
      InWindowCounts(slots[..n], lo, hi);
      var before := set i | 0 <= i < n && lo <= slots[..n][i] <= hi;
      assert inside == before + if lo <= slots[n] <= hi then {n} else {};
    }
  }

  /** The slots inside a window stretch it: the last one is k-1 gaps past its start. */
  lemma {:induction false} SlotsStretchWindow(slots: seq<real>, gap: real, lo: real, hi: real)
    requires Spaced(slots, gap) && gap > 0.0 && InWindow(slots, lo, hi) > 0
    ensures lo + Multiple(InWindow(slots, lo, hi) - 1, gap) <= hi
    ensures lo + Multiple(InWindow(slots, lo, hi) - 1, gap) <= slots[|slots| - 1]
  {
    var n := |slots| - 1;
    var k := InWindow(slots[..n], lo, hi);
    Zero(gap);
    One(gap);
    hide Multiple;
    if k > 0 {
      SlotsStretchWindow(slots[..n], gap, lo, hi);
      AddMultiples(k - 1, 1, gap);
    }
  }

  /** At most floor(W / gap) + 1 slots fall into any closed window of length W. */
  lemma WindowOfSlots(slots: seq<real>, gap: real, lo: real, hi: real)
    requires Spaced(slots, gap) && gap > 0.0 && lo <= hi
    ensures InWindow(slots, lo, hi) <= ((hi - lo) / gap).Floor + 1
  {
    var k: int := InWindow(slots, lo, hi);
    var most := ((hi - lo) / gap).Floor;
    FloorBounds(hi - lo, gap);
    Zero(gap);
    MoreMultiples(most, -1, gap);
    MoreMultiples(-1, 0, gap);
    MoreMultiples(most, k - 1, gap);
    hide Multiple, Spaced, InWindow;
    if k > 0 {
      SlotsStretchWindow(slots, gap, lo, hi);
    }
  }

  /** The same by index: slots granted within a stretch W of each other number at most floor(W / gap) + 1. */
  lemma SlotsWithin(slots: seq<real>, gap: real, first: nat, last: nat, width: real)
    requires Spaced(slots, gap) && gap > 0.0 && first <= last < |slots|
    requires slots[last] - slots[first] <= width
    ensures last - first + 1 <= (width / gap).Floor + 1
    ensures (last - first) as real * gap <= slots[last] - slots[first]
  {
    GapsAddUp(slots, gap, first, last);
    FloorBounds(width, gap);
    MoreMultiples((width / gap).Floor, last - first, gap);
    assert Multiple(last - first, gap) == (last - first) as real * gap;
    hide Multiple, Spaced;
  }

  lemma {:induction false} GapsAddUp(slots: seq<real>, gap: real, first: nat, last: nat)
    requires Spaced(slots, gap) && first <= last < |slots|
    ensures Multiple(last - first, gap) <= slots[last] - slots[first]
    decreases last - first
  {
    Zero(gap);
    One(gap);
    if first < last {
      GapsAddUp(slots, gap, first, last - 1);
      AddMultiples(last - 1 - first, 1, gap);
    }
    hide Multiple;
  }

  ghost predicate OnLane(slots: seq<real>, last: real, gap: real) {
    slots != [] && Spaced(slots, gap) && 0.0 < last == slots[|slots| - 1]
  }

  lemma BookKeepsLane(slots: seq<real>, gap: real, at: real)
    requires at > 0.0 && (slots == [] || (Spaced(slots, gap) && slots[|slots| - 1] + gap <= at))
    requires gap > 0.0
    ensures OnLane(slots + [at], at, gap)
  {}

  datatype Gaps = Gaps(order: real, hot: real, normal: real) {
    function Of(c: Component): real {
      match c
      case Order => order
      case Hot => hot
      case Normal => normal
    }

    predicate Positive() { order > 0.0 && hot > 0.0 && normal > 0.0 }
  }

  class ComponentRestPacer {
    const gaps: Gaps
    var last: map<Component, real>
    /** Slots granted on each lane since the last reset. */
    ghost var slots: map<Component, seq<real>>

    ghost predicate Valid()
      reads this
    {
      && last.Keys == slots.Keys
      && gaps.Positive()
      && (forall c | c in last :: OnLane(slots[c], last[c], gaps.Of(c)))
    }

    constructor (gaps: Gaps)
      requires gaps.Positive()
      ensures Valid() && this.gaps == gaps && slots == map[]
    {
      this.gaps := gaps;
      last, slots := map[], map[];
    }

    ghost function SlotsOf(c: Component): seq<real>
      reads this
    {
      if c in slots then slots[c] else []
    }

    method Reset()
      requires Valid()
      modifies this
      ensures Valid() && slots == map[] && last == map[]
    {
      last, slots := map[], map[];
    }

    /** Books the earliest slot at least one gap after the previous one and not in the past. The
        monotonic clock is positive: the code reads a last slot at 0 as no slot at all. */
    method Wait(c: Component, now: real) returns (pause: real, ghost slot: real)
      requires Valid() && now > 0.0
      modifies this
      ensures Valid() && slots == old(slots)[c := old(SlotsOf(c)) + [slot]] && slot == now + pause
      ensures pause >= 0.0 && (pause > 0.0 ==> c in old(last) && now + pause == old(last)[c] + gaps.Of(c))
    {
      var gap := gaps.Of(c);
      var lastAt := if c in last then last[c] else 0.0;
      var earliest := if lastAt > 0.0 then lastAt + gap else now;
      var start := MaxReal(now, earliest);
      pause := MaxReal(0.0, start - now);
      BookKeepsLane(SlotsOf(c), gap, start);
      slot := start;
      last := last[c := start];
      slots := slots[c := SlotsOf(c) + [slot]];
    }

    /** Takes the slot if it is free now, and otherwise leaves everything as it was. */
    method TryConsume(c: Component, now: real) returns (ok: bool)
      requires Valid() && now > 0.0
      modifies this
      ensures Valid()
      ensures ok <==> c !in old(last) || old(last)[c] + gaps.Of(c) <= now
      ensures slots == if ok then old(slots[c := SlotsOf(c) + [now]]) else old(slots)
      ensures !ok ==> last == old(last)
    {
      var gap := gaps.Of(c);
      var lastAt := if c in last then last[c] else 0.0;
      if lastAt > 0.0 && now - lastAt < gap {
        return false;
      }
      BookKeepsLane(SlotsOf(c), gap, now);
      last, slots := last[c := now], slots[c := SlotsOf(c) + [now]];
      return true;
    }

    /** In every reachable state, whatever mix of waits and tries led to it: the slots of a lane are
        pairwise at least a gap apart, so a closed window of length W, wherever it
        lies, holds at most floor(W/gap)+1 of them. */
    lemma SlotsPaced(c: Component, lo: real, hi: real)
      requires Valid() && lo <= hi
      ensures Spaced(SlotsOf(c), gaps.Of(c))
      ensures InWindow(SlotsOf(c), lo, hi) <= ((hi - lo) / gaps.Of(c)).Floor + 1
    {
      WindowOfSlots(SlotsOf(c), gaps.Of(c), lo, hi);
    }

    /** Slot by slot, with the lane's own gap: slots granted within a stretch W of each other are at most
        floor(W/gap)+1. */
    lemma LanesPaced(c: Component, first: nat, last: nat, width: real)
      requires Valid() && first <= last < |SlotsOf(c)| && SlotsOf(c)[last] - SlotsOf(c)[first] <= width
      ensures var gap := match c
                         case Order => gaps.order
                         case Hot => gaps.hot
                         case Normal => gaps.normal;
              gap > 0.0 && last - first + 1 <= (width / gap).Floor + 1
    {
      SlotsWithin(SlotsOf(c), gaps.Of(c), first, last, width);
    }
  }
}
