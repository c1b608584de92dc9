/** Rows that are only replaced by a writer who knows their version.
    Models internal/store/protocolmodes.go, UpdateEgressProtocolMode;
    internal/store/proxygroups.go, UpdateProxyGroup; and their callers, saveProtocolState
    and save, which count the version in memory only after a success. */
module VersionedStore {

  datatype Row<T> = Row(value: T, version: int)

  /** How the database call goes: done, failed, or failed although it was committed. */
  datatype Call = Done | Failed | Late

  class Store<T> {
    var row: Row<T>

    constructor (row: Row<T>)
      ensures this.row == row
    {
      this.row := row;
    }

    /** The update of the row, WHERE the version is the expected one. */
    method Update(value: T, expected: int, call: Call) returns (ok: bool)
      modifies this
      ensures ok <==> old(row).version == expected && call.Done?
      ensures row == if old(row).version == expected && !call.Failed? then Row(value, expected + 1) else old(row)
    {
      ok := row.version == expected && call.Done?;
      if row.version == expected && !call.Failed? {
        row := Row(value, expected + 1);
      }
    }
  }

  /** A sequence of saves by one writer, each with the version the writer has in memory:
      the row and that version afterwards. */
  function Saves<T>(row: Row<T>, known: int, values: seq<T>, calls: nat -> Call): (Row<T>, int) {
    if values == [] then (row, known)
    else
      var n := |values| - 1;
      var (now, version) := Saves(row, known, values[..n], calls);
      if now.version != version || calls(n).Failed? then (now, version)
      else if calls(n).Late? then (Row(values[n], version + 1), version)
      else (Row(values[n], version + 1), version + 1)
  }

  /** Once one save was committed without the writer learning of it, no later save of that
      writer changes the row: its version is stale for good. */
  lemma {:induction false} StaleForGood<T>(row: Row<T>, known: int, values: seq<T>, calls: nat -> Call)
    requires row.version > known
    ensures Saves(row, known, values, calls) == (row, known)
  {
    if values != [] {
      StaleForGood(row, known, values[..|values| - 1], calls);
    }
  }

  /** A writer that started from the current version is at most one save behind, and the
      row then holds the value of the save it did not hear of. */
  lemma {:induction false} NeverMoreThanOneBehind<T>(row: Row<T>, values: seq<T>, calls: nat -> Call)
    ensures var (now, known) := Saves(row, row.version, values, calls);
            (now.version == known || now.version == known + 1) && (now == row || now.value in values)
  {
    if values != [] {
      NeverMoreThanOneBehind(row, values[..|values| - 1], calls);
      assert values == values[..|values| - 1] + [values[|values| - 1]];
    }
  }
}
