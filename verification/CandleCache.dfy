/** The candle frames scanners read: patched row by row as klines stream in, rebuilt from the live
    bar deque when a bar closes or a seed arrives. */
module CandleCache {
  import opened Basics

  type Ohlcv = seq<real>

  datatype Row = Row(openMs: int, ohlcv: Ohlcv, closed: bool)

  datatype FrameRow = FrameRow(stampMs: int, ohlcv: Ohlcv)

  type Frame = seq<FrameRow>

  /** Rows a rebuilt frame must have at least. */
  const MIN_ROWS := 10

  function AsFrameRow(row: Row): FrameRow { FrameRow(row.openMs, row.ohlcv) }

  function Project(rows: seq<Row>): Frame {
    seq(|rows|, i requires 0 <= i < |rows| => AsFrameRow(rows[i]))
  }

  function Tail<T>(rows: seq<T>, n: nat): seq<T> {
    if |rows| > n then rows[|rows| - n..] else rows
  }

  datatype Limits = Limits(buffer: nat, fetch: nat) {
    predicate Sound() { 1 <= fetch <= buffer }

    /** The bounded live deque takes a row: in place while the bar is forming, else at the end. */
    function PushBar(bars: seq<Row>, row: Row): seq<Row> {
      if bars != [] && bars[|bars| - 1].openMs == row.openMs then bars[|bars| - 1 := row]
      else Tail(bars + [row], buffer)
    }

    /** The incremental patch: the last frame row in place, or one more row and the oldest out. */
    function PatchFrame(frame: Frame, row: Row): Frame
      requires frame != []
    {
      if frame[|frame| - 1].stampMs == row.openMs then frame[|frame| - 1 := AsFrameRow(row)]
      else Tail(frame + [AsFrameRow(row)], fetch)
    }

    /** The full rebuild: the newest rows of the deque, once there are enough of them. */
    function Rebuilt(bars: seq<Row>): Option<Frame> {
      if |Tail(bars, fetch)| < MIN_ROWS then None else Some(Project(Tail(bars, fetch)))
    }
  }

  /** What the hub holds for one symbol and interval. */
  datatype Slot = Slot(bars: seq<Row>, frame: Option<Frame>) {
    /** The frame is what a rebuild from scratch would give. */
    predicate Coherent(lim: Limits) { frame == lim.Rebuilt(bars) }

    function Sync(lim: Limits): Slot {
      if lim.Rebuilt(bars).None? then this else this.(frame := lim.Rebuilt(bars))
    }

    function OnKline(row: Row, lim: Limits): Slot {
      var pushed := this.(bars := lim.PushBar(bars, row));
      if row.closed || frame.None? || frame.value == [] then pushed.Sync(lim)
      else pushed.(frame := Some(lim.PatchFrame(frame.value, row)))
    }

    /** A REST seed replaces the deque by its rows, all closed. */
    function Seed(rows: seq<Row>, lim: Limits): Slot {
      if rows == [] then this else this.(bars := Tail(rows, lim.buffer)).Sync(lim)
    }
  }

  const EMPTY_SLOT := Slot([], None)

  datatype Event = Kline(row: Row) | Seed(rows: seq<Row>) | Demote

  function Apply(slot: Slot, event: Event, lim: Limits): Slot {
    match event
    case Kline(row) => slot.OnKline(row, lim)
    case Seed(rows) => slot.Seed(rows, lim)
    case Demote => EMPTY_SLOT
  }

  function Run(slot: Slot, events: seq<Event>, lim: Limits): Slot {
    if events == [] then slot
    else Apply(Run(slot, events[..|events| - 1], lim), events[|events| - 1], lim)
  }

  /** Patching the tail and cutting it gives the tail of the pushed deque, even while both evict. */
  lemma PatchIsRebuild(bars: seq<Row>, row: Row, lim: Limits)
    requires lim.Sound() && bars != []
    ensures lim.PatchFrame(Project(Tail(bars, lim.fetch)), row)
         == Project(Tail(lim.PushBar(bars, row), lim.fetch))
  {
    var n := |bars| - 1;
    var tail := Tail(bars, lim.fetch);
    assert tail[|tail| - 1] == bars[n];
    if bars[n].openMs == row.openMs {
      assert Tail(bars[n := row], lim.fetch) == tail[|tail| - 1 := row];
    } else {
      TailOfTail(bars + [row], lim.fetch, lim.buffer);
      TailOfAppend(bars, row, lim.fetch);
      ProjectTail(tail + [row], lim.fetch);
      assert Project(tail) + [AsFrameRow(row)] == Project(tail + [row]);
    }
  }

  lemma TailOfAppend<T>(rows: seq<T>, row: T, n: nat)
    requires n >= 1
    ensures Tail(Tail(rows, n) + [row], n) == Tail(rows + [row], n)
  {}

  lemma ProjectTail(rows: seq<Row>, n: nat)
    ensures Tail(Project(rows), n) == Project(Tail(rows, n))
  {}

  lemma TailOfTail<T>(rows: seq<T>, n: nat, m: nat)
    requires n <= m || |rows| <= m
    ensures Tail(Tail(rows, m), n) == Tail(rows, n)
  {}

  /** A frame in agreement shows the newest bars of the deque, each with its own time and prices; there
      is one exactly when there are 10 bars to show. */
  lemma FrameShowsBars(slot: Slot, lim: Limits)
    requires slot.Coherent(lim)
    ensures slot.frame.Some? <==> |slot.bars| >= 10 && lim.fetch >= 10
    ensures slot.frame.Some? ==>
              var frame := slot.frame.value;
              && |frame| == Min(|slot.bars|, lim.fetch)
              && forall i | 0 <= i < |frame| ::
                   && frame[i].stampMs == slot.bars[|slot.bars| - |frame| + i].openMs
                   && frame[i].ohlcv == slot.bars[|slot.bars| - |frame| + i].ohlcv
  {}

  lemma PushedIsLast(bars: seq<Row>, row: Row, lim: Limits)
    requires lim.buffer >= 1
    ensures lim.PushBar(bars, row) != [] && lim.PushBar(bars, row)[|lim.PushBar(bars, row)| - 1] == row
  {}

  lemma PatchedIsLast(frame: Frame, row: Row, lim: Limits)
    requires frame != [] && lim.fetch >= 1
    ensures var patched := lim.PatchFrame(frame, row);
            patched != [] && patched[|patched| - 1].stampMs == row.openMs && patched[|patched| - 1].ohlcv == row.ohlcv
  {}

  lemma AgreesWithLast(slot: Slot, lim: Limits)
    requires slot.Coherent(lim) && slot.frame.Some?
    ensures var frame := slot.frame.value;
            && frame != [] && slot.bars != []
            && frame[|frame| - 1].stampMs == slot.bars[|slot.bars| - 1].openMs
            && frame[|frame| - 1].ohlcv == slot.bars[|slot.bars| - 1].ohlcv
  {
    FrameShowsBars(slot, lim);
  }

  /** The last row of a frame is the row just streamed, forming or closed, whatever the frame showed
      before; only a closed row that leaves the deque too short for a rebuild does not get there. */
  lemma StreamedRowIsShown(slot: Slot, row: Row, lim: Limits)
    requires lim.Sound()
    ensures var next := slot.OnKline(row, lim);
            && next.bars != [] && next.bars[|next.bars| - 1] == row
            && (next.frame.Some? && next.frame.value != []
                && (!row.closed || slot.Coherent(lim) || (|next.bars| >= 10 && lim.fetch >= 10)) ==>
                  var last := next.frame.value[|next.frame.value| - 1];
                  last.stampMs == row.openMs && last.ohlcv == row.ohlcv)
  {
    hide Project, Tail, Limits.PushBar, Limits.PatchFrame;
    var next := slot.OnKline(row, lim);
    PushedIsLast(slot.bars, row, lim);
    if next.frame.Some? && next.frame.value != [] {
      if slot.Coherent(lim) {
        KlineKeepsCoherent(slot, row, lim);
        AgreesWithLast(next, lim);
      } else if !row.closed && slot.frame.Some? && slot.frame.value != [] {
        PatchedIsLast(slot.frame.value, row, lim);
      } else {
        if |next.bars| >= 10 && lim.fetch >= 10 {
          DeepTail(next.bars, lim.fetch);
        }
        if lim.Rebuilt(next.bars).Some? {
          AgreesWithLast(next, lim);
        }
      }
    }
  }

  lemma DeepTail(bars: seq<Row>, n: nat)
    requires |bars| >= 10 && n >= 10
    ensures |Tail(bars, n)| >= MIN_ROWS
  {}

  /** The rows of a stream that no later row of the same bar replaced at once. */
  function Latest(rows: seq<Row>): seq<Row> {
    if rows == [] then []
    else
      var n := |rows| - 1;
      var before := Latest(rows[..n]);
      (if before != [] && before[|before| - 1].openMs == rows[n].openMs then before[..|before| - 1] else before)
      + [rows[n]]
  }

  function Stream(rows: seq<Row>): seq<Event> { seq(|rows|, i requires 0 <= i < |rows| => Kline(rows[i])) }

  /** After any stream the deque holds the newest bars, each as its latest row left it. */
  lemma {:induction false} DequeIsLatest(rows: seq<Row>, lim: Limits)
    requires lim.buffer >= 1
    ensures Run(EMPTY_SLOT, Stream(rows), lim).bars == Tail(Latest(rows), lim.buffer)
  {
    hide Tail, Limits.PushBar, Slot.Sync, Limits.PatchFrame;
    if rows == [] {
      ShortTail([], lim.buffer);
    } else {
      var n := |rows| - 1;
      DequeIsLatest(rows[..n], lim);
      assert Stream(rows)[..n] == Stream(rows[..n]) && Stream(rows)[n] == Kline(rows[n]);
      PushesLatest(Latest(rows[..n]), rows[n], lim);
      StreamPushes(Run(EMPTY_SLOT, Stream(rows)[..n], lim), rows[n], lim);
    }
  }

  lemma StreamPushes(slot: Slot, row: Row, lim: Limits)
    ensures Apply(slot, Kline(row), lim).bars == lim.PushBar(slot.bars, row)
  {}

  lemma ShortTail(bars: seq<Row>, n: nat)
    requires |bars| <= n
    ensures Tail(bars, n) == bars
  {}

  lemma PushesLatest(before: seq<Row>, row: Row, lim: Limits)
    requires lim.buffer >= 1
    ensures lim.PushBar(Tail(before, lim.buffer), row)
            == Tail((if before != [] && before[|before| - 1].openMs == row.openMs
                     then before[..|before| - 1] else before) + [row], lim.buffer)
  {
    TailOfAppend(before, row, lim.buffer);
    var tail := Tail(before, lim.buffer);
    if before != [] {
      assert tail[|tail| - 1] == before[|before| - 1];
      assert before[..|before| - 1] + [row] == before[|before| - 1 := row];
      assert Tail(before[|before| - 1 := row], lim.buffer) == tail[|tail| - 1 := row];
    }
  }

  /** After a seed the deque holds its newest rows, and with 10 of them to show so does the frame. */
  lemma SeedIsShown(slot: Slot, rows: seq<Row>, lim: Limits)
    requires rows != []
    ensures var next := slot.Seed(rows, lim);
            && |next.bars| == Min(|rows|, lim.buffer)
            && (forall i | 0 <= i < |next.bars| :: next.bars[i] == rows[|rows| - |next.bars| + i])
            && (|next.bars| >= 10 && lim.fetch >= 10 ==> next.Coherent(lim) && next.frame.Some?)
  {
    hide Project;
    var next := slot.Seed(rows, lim);
    assert next.bars == Tail(rows, lim.buffer);
    if |next.bars| >= 10 && lim.fetch >= 10 {
      assert |Tail(next.bars, lim.fetch)| >= 10;
    }
  }

  /** A streamed row, forming or closed, never breaks the agreement. */
  lemma KlineKeepsCoherent(slot: Slot, row: Row, lim: Limits)
    requires lim.Sound() && slot.Coherent(lim)
    ensures slot.OnKline(row, lim).Coherent(lim)
  {
    if slot.frame.Some? {
      PatchIsRebuild(slot.bars, row, lim);
    }
  }

  /** A seed keeps it exactly when it brings enough rows for a rebuild or finds no frame to go
      stale: a short seed leaves the old frame standing over a deque it no longer shows. */
  lemma SeedKeepsCoherentIff(slot: Slot, rows: seq<Row>, lim: Limits)
    requires lim.Sound() && slot.Coherent(lim) && rows != []
    ensures slot.Seed(rows, lim).Coherent(lim)
            <==> slot.frame.None? || |Tail(rows, lim.fetch)| >= MIN_ROWS
  {
    TailOfTail(rows, lim.fetch, lim.buffer);
  }

  /** The next closed row repairs a stale frame as soon as the deque is deep enough again. */
  lemma ClosedRowRepairs(slot: Slot, row: Row, lim: Limits)
    requires row.closed && |Tail(lim.PushBar(slot.bars, row), lim.fetch)| >= MIN_ROWS
    ensures slot.OnKline(row, lim).Coherent(lim)
  {}

  /** A seed is empty, deep enough for a rebuild, or finds no frame that could go stale. */
  predicate SafeAt(slot: Slot, event: Event, lim: Limits) {
    event.Seed? ==> event.rows == [] || |Tail(event.rows, lim.fetch)| >= MIN_ROWS || slot.frame.None?
  }

  ghost predicate SafeSeeds(events: seq<Event>, lim: Limits) {
    forall n | 0 <= n < |events| :: SafeAt(Run(EMPTY_SLOT, events[..n], lim), events[n], lim)
  }

  ghost predicate AlwaysCoherent(events: seq<Event>, lim: Limits) {
    forall n | 0 <= n <= |events| :: Run(EMPTY_SLOT, events[..n], lim).Coherent(lim)
  }

  lemma StepKeepsCoherentIff(slot: Slot, event: Event, lim: Limits)
    requires lim.Sound() && slot.Coherent(lim)
    ensures Apply(slot, event, lim).Coherent(lim) <==> SafeAt(slot, event, lim)
  {
    match event
    case Kline(row) => KlineKeepsCoherent(slot, row, lim);
    case Seed(rows) => if rows != [] { SeedKeepsCoherentIff(slot, rows, lim); }
    case Demote =>
  }

  /** Patching refines the full rebuild: along any run of forming rows, closed rows, demotions and seeds
      the frame is always the last `fetch` rows of the live deque, if and only if the seeds are safe. */
  lemma {:induction false} CoherentIff(events: seq<Event>, lim: Limits)
    requires lim.Sound()
    ensures AlwaysCoherent(events, lim) <==> SafeSeeds(events, lim)
  {
    if events == [] {
      assert forall n | n == 0 :: events[..n] == [];
    } else {
      var m := |events| - 1;
      CoherentIff(events[..m], lim);
      SafeSeedsStep(events, lim);
      AlwaysCoherentStep(events, lim);
      var slot := Run(EMPTY_SLOT, events[..m], lim);
      if slot.Coherent(lim) {
        StepKeepsCoherentIff(slot, events[m], lim);
      }
      assert AlwaysCoherent(events[..m], lim) ==> slot.Coherent(lim) by {
        assert events[..m][..m] == events[..m];
      }
      hide AlwaysCoherent, SafeSeeds, Slot.Coherent, SafeAt, Apply;
    }
  }

  lemma SafeSeedsStep(events: seq<Event>, lim: Limits)
    requires events != []
    ensures var m := |events| - 1;
            SafeSeeds(events, lim)
            <==> SafeSeeds(events[..m], lim) && SafeAt(Run(EMPTY_SLOT, events[..m], lim), events[m], lim)
  {
    hide SafeAt, Run;
    var m := |events| - 1;
    assert forall n | 0 <= n < m :: events[..m][..n] == events[..n] && events[..m][n] == events[n];
  }

  lemma AlwaysCoherentStep(events: seq<Event>, lim: Limits)
    requires events != []
    ensures AlwaysCoherent(events, lim)
            <==> AlwaysCoherent(events[..|events| - 1], lim) && Run(EMPTY_SLOT, events, lim).Coherent(lim)
  {
    hide Slot.Coherent, Run;
    var m := |events| - 1;
    assert events[..|events|] == events;
    assert forall n | 0 <= n <= m :: events[..m][..n] == events[..n];
  }

  /** With a fetch limit above the buffer limit the agreement fails: on a full deque one more
      forming row makes the frame longer than the deque. */
  lemma FetchAboveBufferFails(slot: Slot, row: Row, lim: Limits)
    requires lim.fetch > lim.buffer == |slot.bars| >= MIN_ROWS
    requires slot.Coherent(lim) && !row.closed && slot.bars[|slot.bars| - 1].openMs != row.openMs
    ensures !slot.OnKline(row, lim).Coherent(lim)
  {
    assert |slot.OnKline(row, lim).frame.value| == lim.buffer + 1;
  }

  /** All runs with safe seeds stay coherent. */
  ghost predicate SafeRunsCoherent(lim: Limits) {
    forall events: seq<Event> | SafeSeeds(events, lim) :: AlwaysCoherent(events, lim)
  }

  /** The limits for which they do are exactly those with the fetch limit within the buffer limit, and
      those under which no frame is ever built. */
  lemma {:induction false} SafeRunsCoherentIff(lim: Limits)
    requires lim.fetch >= 1
    ensures SafeRunsCoherent(lim) <==> lim.fetch <= lim.buffer || lim.buffer < MIN_ROWS
  {
    if lim.Sound() {
      forall events: seq<Event> | SafeSeeds(events, lim) ensures AlwaysCoherent(events, lim) {
        CoherentIff(events, lim);
      }
    } else if lim.buffer < MIN_ROWS {
      forall events: seq<Event> ensures AlwaysCoherent(events, lim) {
        forall n | 0 <= n <= |events| ensures Run(EMPTY_SLOT, events[..n], lim).Coherent(lim) {
          NoFrameEver(events[..n], lim);
        }
      }
    } else {
      var rows := seq(lim.buffer, i requires 0 <= i < lim.buffer => Row(i + 1, [], true));
      var last := Row(lim.buffer + 1, [], false);
      var events := [Seed(rows), Kline(last)];
      assert events[..0] == [] && events[..1] == [Seed(rows)] && events[..2] == events;
      var slot := Run(EMPTY_SLOT, [Seed(rows)], lim);
      assert [Seed(rows)][..0] == [];
      assert slot == EMPTY_SLOT.Seed(rows, lim) && slot.bars == rows && slot.Coherent(lim);
      FetchAboveBufferFails(slot, last, lim);
      assert Run(EMPTY_SLOT, events, lim) == slot.OnKline(last, lim);
      assert !Run(EMPTY_SLOT, events[..2], lim).Coherent(lim);
      assert SafeSeeds(events, lim) && !AlwaysCoherent(events, lim);
    }
  }

  lemma {:induction false} NoFrameEver(events: seq<Event>, lim: Limits)
    requires lim.buffer < MIN_ROWS
    ensures var slot := Run(EMPTY_SLOT, events, lim);
            slot.frame.None? && |slot.bars| <= lim.buffer && slot.Coherent(lim)
  {
    if events != [] {
      NoFrameEver(events[..|events| - 1], lim);
    }
  }

  type Key = (string, string)

  class MarketDataHub {
    const lim: Limits
    var klineBars: map<Key, seq<Row>>
    var candles: map<Key, Frame>

    ghost function At(key: Key): Slot
      reads this
    {
      SlotOf(klineBars, candles, key)
    }

    static ghost function SlotOf(bars: map<Key, seq<Row>>, frames: map<Key, Frame>, key: Key): Slot {
      Slot(if key in bars then bars[key] else [],
           if key in frames then Some(frames[key]) else None)
    }

    constructor (lim: Limits)
      ensures klineBars == map[] && candles == map[]
      ensures this.lim == lim
    {
      this.lim := lim;
      klineBars, candles := map[], map[];
    }

    method SyncCandlesFromKlines(key: Key)
      modifies this`candles
      ensures At(key) == old(At(key)).Sync(lim)
      ensures klineBars - {key} == old(klineBars) - {key} && candles - {key} == old(candles) - {key}
    {
      if key !in klineBars || klineBars[key] == [] {
        return;
      }
      var rows := Tail(klineBars[key], lim.fetch);
      if |rows| < MIN_ROWS {
        return;
      }
      candles := candles[key := Project(rows)];
    }

    method PatchCandleCacheLastRow(key: Key, row: Row)
      modifies this`candles
      ensures At(key) == if old(At(key)).frame.None? || old(At(key)).frame.value == []
                         then old(At(key)).Sync(lim)
                         else old(At(key)).(frame := Some(lim.PatchFrame(old(At(key)).frame.value, row)))
      ensures klineBars - {key} == old(klineBars) - {key} && candles - {key} == old(candles) - {key}
    {
      if key !in candles || candles[key] == [] {
        SyncCandlesFromKlines(key);
        return;
      }
      var frame := candles[key];
      var last := |frame| - 1;
      if frame[last].stampMs != row.openMs {
        frame := frame + [AsFrameRow(row)];
        if |frame| > lim.fetch {
          frame := frame[|frame| - lim.fetch..];
        }
        candles := candles[key := frame];
        return;
      }
      candles := candles[key := frame[last := FrameRow(frame[last].stampMs, row.ohlcv)]];
    }

    method OnKlineMessage(key: Key, row: Row)
      modifies this
      ensures At(key) == old(At(key)).OnKline(row, lim)
      ensures klineBars - {key} == old(klineBars) - {key} && candles - {key} == old(candles) - {key}
    {
      hide Project, Limits.PatchFrame, Limits.Rebuilt;
      var bars := if key in klineBars then klineBars[key] else [];
      if bars != [] && bars[|bars| - 1].openMs == row.openMs {
        bars := bars[|bars| - 1 := row];
      } else {
        bars := Tail(bars + [row], lim.buffer);
      }
      klineBars := klineBars[key := bars];
      if row.closed {
        SyncCandlesFromKlines(key);
      } else {
        PatchCandleCacheLastRow(key, row);
      }
    }

    method SeedKlines(key: Key, rows: seq<Row>)
      modifies this
      ensures At(key) == old(At(key)).Seed(rows, lim)
      ensures klineBars - {key} == old(klineBars) - {key} && candles - {key} == old(candles) - {key}
    {
      if rows == [] {
        return;
      }
      klineBars := klineBars[key := Tail(rows, lim.buffer)];
      SyncCandlesFromKlines(key);
    }

    /** Flushes every interval of the demoted symbols, and no other symbol. */
    method DemoteSymbolsKlines(symbols: set<string>)
      modifies this
      ensures forall k: Key :: SlotOf(klineBars, candles, k)
                == if k.0 in symbols then EMPTY_SLOT else SlotOf(old(klineBars), old(candles), k)
    {
      klineBars := map k | k in klineBars && k.0 !in symbols :: klineBars[k];
      candles := map k | k in candles && k.0 !in symbols :: candles[k];
    }
  }
}
