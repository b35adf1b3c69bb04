/** The persistent stage of a laddered trade: a column and two metadata fields that claim and revert
    move together under one conditional update each. */
module TradeStore {
  import opened Basics

  /** The marks left by an add whose outcome is unknown: its stage and the order they point at. */
  datatype Uncertain = Uncertain(step: int, order: nat)

  datatype Meta = Meta(entryStage: Option<int>, dcaEntries: Option<int>, uncertain: Option<Uncertain>) {
    function At(stage: int): Meta { this.(entryStage := Some(stage), dcaEntries := Some(stage)) }
  }

  datatype TradeRow = TradeRow(column: Option<int>, meta: Meta, quantity: real)

  function AtLeast(a: int, b: Option<int>): int { if b.Some? then Max(a, b.value) else a }

  function ColumnOf(row: TradeRow): int { if row.column.Some? then row.column.value else 1 }

  /** The stage the store believes in: the largest of the column and the metadata, at least 1. */
  function Current(row: TradeRow): int {
    AtLeast(AtLeast(AtLeast(1, row.column), row.meta.entryStage), row.meta.dcaEntries)
  }

  function Claim(row: TradeRow, from: int, to: int, meta: Meta): (TradeRow, bool) {
    if to != from + 1 || to < 2 || to > 3 then (row, false)
    else if Current(row) != from || ColumnOf(row) != from then (row, false)
    else (row.(column := Some(to), meta := meta.At(to)), true)
  }

  function Revert(row: TradeRow, claimed: int): (TradeRow, bool) {
    if claimed != 2 && claimed != 3 then (row, false)
    else if Current(row) != claimed || ColumnOf(row) != claimed then (row, false)
    else (row.(column := Some(claimed - 1), meta := row.meta.At(claimed - 1)), true)
  }

  /** A stage is claimed once: whatever metadata the second claimer brings, it is refused. */
  lemma ClaimedOnce(row: TradeRow, from: int, to: int, meta: Meta, meta': Meta)
    requires Claim(row, from, to, meta).1
    ensures !Claim(Claim(row, from, to, meta).0, from, to, meta').1
  {}

  /** A revert undoes the claim: the same claim succeeds again. */
  lemma RevertUndoesClaim(row: TradeRow, from: int, to: int, meta: Meta, meta': Meta)
    requires Claim(row, from, to, meta).1
    ensures var (reverted, ok) := Revert(Claim(row, from, to, meta).0, to);
            && ok && Current(reverted) == ColumnOf(reverted) == from && reverted.quantity == row.quantity
            && Claim(reverted, from, to, meta').1
  {}

  /** A row whose column and metadata disagree can neither be claimed nor reverted at any stage. */
  lemma DisagreementIsStuck(row: TradeRow, from: int, to: int, meta: Meta)
    requires ColumnOf(row) != Current(row)
    ensures !Claim(row, from, to, meta).1 && !Revert(row, from).1
  {}

  /** A claim needs the next stage of a ladder of three, a column that shows the stage before and no
      metadata stage beyond it; it then moves all three fields and the metadata brought along. */
  lemma ClaimIff(row: TradeRow, from: int, to: int, meta: Meta)
    ensures Claim(row, from, to, meta).1 <==>
            && to == from + 1 && (from == 1 || from == 2)
            && (row.column == Some(from) || (row.column.None? && from == 1))
            && (row.meta.entryStage.Some? ==> row.meta.entryStage.value <= from)
            && (row.meta.dcaEntries.Some? ==> row.meta.dcaEntries.value <= from)
    ensures Claim(row, from, to, meta).0
            == if Claim(row, from, to, meta).1
               then TradeRow(Some(to), Meta(Some(to), Some(to), meta.uncertain), row.quantity) else row
  {}

  /** A revert needs a column that shows the claimed stage and no metadata stage beyond it; it then moves
      all three fields one back and keeps the mark. */
  lemma RevertIff(row: TradeRow, claimed: int)
    ensures Revert(row, claimed).1 <==>
            && (claimed == 2 || claimed == 3) && row.column == Some(claimed)
            && (row.meta.entryStage.Some? ==> row.meta.entryStage.value <= claimed)
            && (row.meta.dcaEntries.Some? ==> row.meta.dcaEntries.value <= claimed)
    ensures Revert(row, claimed).0
            == if Revert(row, claimed).1
               then TradeRow(Some(claimed - 1), Meta(Some(claimed - 1), Some(claimed - 1), row.meta.uncertain),
                             row.quantity)
               else row
  {}

  /** The stage a trade enters at is the one it names, else its metadata's, else 1, taken to the nearest
      of 1 to 3. */
  lemma EntersAtOwnStage(stage: Option<int>, meta: Meta)
    ensures var named := if stage.Some? then stage else meta.entryStage;
            var entered := EntryStage(stage, meta);
            && 1 <= entered <= 3
            && (named.None? ==> entered == 1)
            && (named.Some? && 1 <= named.value <= 3 ==> entered == named.value)
            && (named.Some? && named.value > 3 ==> entered == 3)
            && (named.Some? && named.value < 1 ==> entered == 1)
  {}

  function EntryStage(stage: Option<int>, meta: Meta): int {
    var least := Max(1, if stage.Some? then stage.value else AtLeast(1, meta.entryStage));
    if least > 3 then 3 else least
  }

  class TradeTable {
    var rows: map<string, TradeRow>

    constructor ()
      ensures rows == map[]
    {
      rows := map[];
    }

    /** A new trade enters at its own stage, clamped to 1 to 3, or at the metadata's, or at 1; a
        duplicate id is skipped. */
    method LogTrade(id: string, stage: Option<int>, meta: Meta, quantity: real)
      modifies this
      ensures rows == if id in old(rows) then old(rows)
                      else old(rows)[id := TradeRow(Some(EntryStage(stage, meta)), meta, quantity)]
      ensures id !in old(rows) ==> 1 <= ColumnOf(rows[id]) <= 3
    {
      if id in rows {
        return;
      }
      var raw := if stage.Some? then stage.value else if meta.entryStage.Some? then meta.entryStage.value else 1;
      var least := Max(raw, 1);
      rows := rows[id := TradeRow(Some(if least > 3 then 3 else least), meta, quantity)];
    }

    method ReadStage(id: string) returns (stage: int)
      requires id in rows
      ensures stage == Current(rows[id])
    {
      var row := rows[id];
      stage := 1;
      var raws := [row.column, row.meta.entryStage, row.meta.dcaEntries];
      for i := 0 to |raws|
        invariant stage == if i == 0 then 1 else if i == 1 then AtLeast(1, row.column)
                           else if i == 2 then AtLeast(AtLeast(1, row.column), row.meta.entryStage)
                           else Current(row)
      {
        if raws[i].Some? {
          stage := Max(stage, raws[i].value);
        }
      }
    }

    method ClaimEntryStage(id: string, from: int, to: int, meta: Meta) returns (ok: bool)
      modifies this
      ensures ok <==> id in old(rows) && Claim(old(rows)[id], from, to, meta).1
      ensures rows == if ok then old(rows)[id := Claim(old(rows)[id], from, to, meta).0] else old(rows)
    {
      if to != from + 1 || to < 2 || to > 3 || id !in rows {
        return false;
      }
      var current := ReadStage(id);
      if current != from {
        return false;
      }
      ok := ColumnOf(rows[id]) == from;
      if ok {
        rows := rows[id := rows[id].(column := Some(to),
          meta := meta.(entryStage := Some(to), dcaEntries := Some(to)))];
      }
    }

    method RevertEntryStage(id: string, claimed: int) returns (ok: bool)
      modifies this
      ensures ok <==> id in old(rows) && Revert(old(rows)[id], claimed).1
      ensures rows == if ok then old(rows)[id := Revert(old(rows)[id], claimed).0] else old(rows)
    {
      if (claimed != 2 && claimed != 3) || id !in rows {
        return false;
      }
      var current := ReadStage(id);
      if current != claimed {
        return false;
      }
      ok := ColumnOf(rows[id]) == claimed;
      if ok {
        var meta := rows[id].meta;
        rows := rows[id := rows[id].(column := Some(claimed - 1),
          meta := meta.(entryStage := Some(claimed - 1), dcaEntries := Some(claimed - 1)))];
      }
    }
  }
}
