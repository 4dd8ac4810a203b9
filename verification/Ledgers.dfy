/**
 * The two ledgers of the repository behind one view of a key: `TxLedger` over `FakeDb`, whose rows are
 * staged with the writes of a transaction (src/saga/saga-test-kit.ts), and `MemoryIdempotencyLedger`,
 * which ignores the transaction (src/saga/idempotency-ledger.ts). Keys are (scope, key) pairs.
 */
module Ledgers {
  import opened Common
  import opened Saga

  datatype LedgerRow<R> = ClaimedRow | DoneRow(response: R) | ReleasedRow

  /** A line of the database: a write of a step, or a row of the ledger. */
  datatype Line<K, R> = StepWrite(write: Write) | KeyRow(key: K, row: LedgerRow<R>)

  datatype Claimed<R> = New | InFlight | Replay(response: R)

  function RowsOf<K(==), R>(lines: seq<Line<K, R>>, key: K): seq<LedgerRow<R>>
  {
    if |lines| == 0 then []
    else
      var last := lines[|lines| - 1];
      RowsOf(lines[..|lines| - 1], key) + if last.KeyRow? && last.key == key then [last.row] else []
  }

  /** The lines without the rows of a key. */
  function Cleared<K(==), R>(lines: seq<Line<K, R>>, key: K): seq<Line<K, R>>
  {
    if |lines| == 0 then []
    else
      var last := lines[|lines| - 1];
      Cleared(lines[..|lines| - 1], key) + if last.KeyRow? && last.key == key then [] else [last]
  }

  lemma {:induction false} RowsAppend<K, R>(lines: seq<Line<K, R>>, more: seq<Line<K, R>>, key: K)
    ensures RowsOf(lines + more, key) == RowsOf(lines, key) + RowsOf(more, key)
  {
    if |more| > 0 {
      assert (lines + more)[..|lines| + |more| - 1] == lines + more[..|more| - 1];
      RowsAppend(lines, more[..|more| - 1], key);
    } else {
      assert lines + more == lines;
    }
  }

  lemma RowsOfOneMore<K, R>(lines: seq<Line<K, R>>, line: Line<K, R>, key: K)
    ensures RowsOf(lines + [line], key) ==
      RowsOf(lines, key) + if line.KeyRow? && line.key == key then [line.row] else []
  {
    var all := lines + [line];
    assert all[..|all| - 1] == lines && all[|all| - 1] == line;
  }

  lemma {:induction false} ClearedRows<K, R>(lines: seq<Line<K, R>>, key: K, other: K)
    ensures RowsOf(Cleared(lines, key), other) == if other == key then [] else RowsOf(lines, other)
  {
    if |lines| > 0 {
      var init, last := lines[..|lines| - 1], lines[|lines| - 1];
      ClearedRows(init, key, other);
      if last.KeyRow? && last.key == key {
        assert Cleared(init, key) + [] == Cleared(init, key);
      } else {
        RowsOfOneMore(Cleared(init, key), last, other);
      }
    }
  }

  /** How `claim` reads the committed rows: a released key is free, else the first reply counts. */
  function EntryOf<R>(rows: seq<LedgerRow<R>>): LedgerEntry<R>
  {
    if |rows| == 0 || HasReleased(rows) then Free
    else if FirstDone(rows).Some? then Applied(FirstDone(rows).value)
    else Pending
  }

  predicate HasReleased<R>(rows: seq<LedgerRow<R>>) { exists i :: 0 <= i < |rows| && rows[i].ReleasedRow? }

  function FirstDone<R>(rows: seq<LedgerRow<R>>): Option<R>
  {
    if |rows| == 0 then None else if rows[0].DoneRow? then Some(rows[0].response) else FirstDone(rows[1..])
  }

  /** The rows a unit stages for its key. */
  function RowFor<R>(op: LedgerOp<R>): LedgerRow<R>
  {
    match op
    case Claim => ClaimedRow
    case Record(response) => DoneRow(response)
    case Release => ReleasedRow
  }

  function RowsFor<R>(ops: seq<LedgerOp<R>>): (rows: seq<LedgerRow<R>>)
    ensures |rows| == |ops|
  {
    seq(|ops|, i requires 0 <= i < |ops| => RowFor(ops[i]))
  }

  /** Operations as the runner makes them: a claim of a free key, then a reply or a release of a pending one. */
  predicate Orderly<R>(entry: LedgerEntry<R>, ops: seq<LedgerOp<R>>)
  {
    |ops| > 0 ==>
      && Orderly(entry, ops[..|ops| - 1])
      && match ops[|ops| - 1]
         case Claim => ApplyOps(entry, ops[..|ops| - 1]) == Free
         case Record(_) => ApplyOps(entry, ops[..|ops| - 1]) == Pending
         case Release => ApplyOps(entry, ops[..|ops| - 1]) == Pending
  }

  lemma {:induction false} DoneAppend<R>(rows: seq<LedgerRow<R>>, row: LedgerRow<R>)
    ensures FirstDone(rows + [row]) ==
      if FirstDone(rows).Some? then FirstDone(rows) else if row.DoneRow? then Some(row.response) else None
  {
    if |rows| > 0 {
      assert (rows + [row])[0] == rows[0] && (rows + [row])[1..] == rows[1..] + [row];
      DoneAppend(rows[1..], row);
    } else {
      assert (rows + [row])[1..] == [];
    }
  }

  lemma RowIsOp<R>(rows: seq<LedgerRow<R>>, op: LedgerOp<R>)
    requires op.Claim? ==> rows == []
    requires !op.Claim? ==> EntryOf(rows) == Pending
    ensures EntryOf(rows + [RowFor(op)]) == ApplyOp(EntryOf(rows), op)
  {
    var after := rows + [RowFor(op)];
    DoneAppend(rows, RowFor(op));
    assert after[|rows|] == RowFor(op);
    assert HasReleased(after) ==> op.Release?;
  }

  /** One unit's operations on a key: at most one claim, first; a release only last. */
  predicate OneUnit<R>(ops: seq<LedgerOp<R>>)
  {
    && (forall i :: 0 < i < |ops| ==> !ops[i].Claim?)
    && (forall i :: 0 <= i < |ops| - 1 ==> !ops[i].Release?)
  }

  /**
   * Rows staged by a unit and committed with its writes change the entry as the operations do, when
   * the unit's claim found the rows of a released key cleared.
   */
  lemma {:induction false} RowsAreOps<R>(rows: seq<LedgerRow<R>>, ops: seq<LedgerOp<R>>)
    requires Orderly(EntryOf(rows), ops) && OneUnit(ops) && (ops != [] && ops[0].Claim? ==> rows == [])
    ensures EntryOf(rows + RowsFor(ops)) == ApplyOps(EntryOf(rows), ops)
  {
    if |ops| > 0 {
      var init, last := ops[..|ops| - 1], ops[|ops| - 1];
      RowsAreOps(rows, init);
      assert RowsFor(ops) == RowsFor(init) + [RowFor(last)];
      assert rows + RowsFor(ops) == rows + RowsFor(init) + [RowFor(last)];
      RowIsOp(rows + RowsFor(init), last);
    } else {
      assert rows + RowsFor(ops) == rows;
    }
  }

  class TxLedger<K(==, !new), R(==, !new)> {
    var committed: seq<Line<K, R>>
    var staged: seq<Line<K, R>>

    constructor ()
      ensures committed == [] && staged == []
    {
      committed, staged := [], [];
    }

    ghost function Entry(key: K): LedgerEntry<R>
      reads this
    {
      EntryOf(RowsOf(committed, key))
    }

    /** Claims in the open transaction. Clearing the rows of a released key is not part of it, and changes no entry. */
    method Claim(key: K) returns (claimed: Claimed<R>)
      modifies this
      ensures forall other :: Entry(other) == old(Entry(other))
      ensures claimed == match old(Entry(key)) case Free => New case Pending => InFlight case Applied(r) => Replay(r)
      ensures claimed == New ==> staged == old(staged) + [KeyRow(key, ClaimedRow)] && RowsOf(committed, key) == []
      ensures claimed != New ==> staged == old(staged) && committed == old(committed)
    {
      var rows := RowsOf(committed, key);
      var released := HasReleased(rows);
      if |rows| > 0 && !released {
        return if FirstDone(rows).Some? then Replay(FirstDone(rows).value) else InFlight;
      }
      if released {
        forall other
          ensures RowsOf(Cleared(committed, key), other) == if other == key then [] else RowsOf(committed, other)
        {
          ClearedRows(committed, key, other);
        }
        committed := Cleared(committed, key);
      }
      staged := staged + [KeyRow(key, ClaimedRow)];
      claimed := New;
    }

    method Record(key: K, response: R)
      modifies this`staged
      ensures staged == old(staged) + [KeyRow(key, DoneRow(response))]
    {
      staged := staged + [KeyRow(key, DoneRow(response))];
    }

    method Release(key: K)
      modifies this`staged
      ensures staged == old(staged) + [KeyRow(key, ReleasedRow)]
    {
      staged := staged + [KeyRow(key, ReleasedRow)];
    }

    /** COMMIT of a transaction that staged, for each key, the rows of `ops(key)`. */
    method Commit(ghost ops: K -> seq<LedgerOp<R>>)
      requires forall key :: StagedFor(key, ops(key))
      modifies this
      ensures staged == [] && committed == old(committed) + old(staged)
      ensures forall key :: Entry(key) == ApplyOps(old(Entry(key)), ops(key))
    {
      forall key ensures EntryOf(RowsOf(committed + staged, key)) == ApplyOps(Entry(key), ops(key)) {
        assert StagedFor(key, ops(key));
        RowsAppend(committed, staged, key);
        RowsAreOps(RowsOf(committed, key), ops(key));
      }
      committed, staged := committed + staged, [];
    }

    ghost predicate StagedFor(key: K, ops: seq<LedgerOp<R>>)
      reads this
    {
      && RowsOf(staged, key) == RowsFor(ops) && Orderly(Entry(key), ops) && OneUnit(ops)
      && (ops != [] && ops[0].Claim? ==> RowsOf(committed, key) == [])
    }

    method RollBack()
      modifies this`staged
      ensures staged == []
    {
      staged := [];
    }
  }

  class MemoryIdempotencyLedger<K(==, !new), R(==, !new)> {
    var entries: map<K, LedgerEntry<R>>

    constructor ()
      ensures Valid() && forall key :: Entry(key) == Free
    {
      entries := map[];
    }

    /** A key is in the map when it is taken. */
    ghost predicate Valid()
      reads this
    {
      forall key :: key in entries ==> entries[key] != Free
    }

    function Entry(key: K): LedgerEntry<R>
      reads this
    {
      if key in entries then entries[key] else Free
    }

    method Claim(key: K) returns (claimed: Claimed<R>)
      requires Valid()
      modifies this
      ensures Valid()
      ensures claimed == match old(Entry(key)) case Free => New case Pending => InFlight case Applied(r) => Replay(r)
      ensures Entry(key) == if claimed == New then ApplyOp(old(Entry(key)), LedgerOp<R>.Claim) else old(Entry(key))
      ensures forall other :: other != key ==> Entry(other) == old(Entry(other))
    {
      if key !in entries {
        entries := entries[key := Pending];
        return New;
      }
      claimed := if entries[key].Applied? then Replay(entries[key].response) else InFlight;
    }

    method Record(key: K, response: R)
      requires Valid()
      modifies this
      ensures Valid() && Entry(key) == ApplyOp(old(Entry(key)), LedgerOp.Record(response))
      ensures forall other :: other != key ==> Entry(other) == old(Entry(other))
    {
      entries := entries[key := Applied(response)];
    }

    method Release(key: K)
      requires Valid()
      modifies this
      ensures Valid() && Entry(key) == ApplyOp(old(Entry(key)), LedgerOp<R>.Release)
      ensures forall other :: other != key ==> Entry(other) == old(Entry(other))
    {
      entries := entries - {key};
    }
  }
}
