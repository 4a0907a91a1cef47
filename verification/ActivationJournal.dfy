/** The journal as the process holds it in memory, updated in place between saves. */
module ActivationJournal {
  import opened Wrappers
  import opened Activation

  class JournalInMemory {
    var rows: seq<Row>
    var pending: Option<Pending>
    var receipts: map<Id, Receipt>
    var bindings: set<Id>
    var cleanup: bool

    ghost function View(): Journal
      reads this
    {
      Journal(rows, pending, receipts, bindings, cleanup)
    }

    constructor (disk: Journal)
      ensures View() == disk
    {
      rows, pending, receipts, bindings, cleanup := disk.rows, disk.pending, disk.receipts, disk.bindings, disk.cleanup;
    }

    method Reported(key: Key) returns (found: bool)
      ensures found == HasKey(rows, key)
    {
      for i := 0 to |rows|
        invariant forall j :: 0 <= j < i ==> rows[j].key != key
      {
        if rows[i].key == key {
          return true;
        }
      }
      found := false;
    }

    /** A row whose key is reported already is not added again. */
    method AppendRow(row: Row)
      modifies this`rows
      ensures View() == old(View()).(rows := WithRow(old(rows), row))
      ensures UniqueKeys(old(rows)) ==> UniqueKeys(rows)
    {
      var found := Reported(row.key);
      if !found {
        rows := rows + [row];
      }
    }

    /** Adds a run's receipts all together, or none when a recorded one reads differently now. */
    method RecordReceipts(events: seq<Event>) returns (ok: bool)
      modifies this`receipts, this`bindings
      ensures ok == Merged(old(receipts), events).Some?
      ensures ok ==> View() == old(View()).(receipts := Merged(old(receipts), events).value,
                                            bindings := old(bindings) + EventBindings(events))
      ensures !ok ==> View() == old(View())
      ensures Extends(receipts, old(receipts))
    {
      var merged := receipts;
      for i := 0 to |events|
        invariant Merged(receipts, events[..i]) == Some(merged)
      {
        assert events[..i + 1][..i] == events[..i];
        var event := events[i];
        if event.id in merged && merged[event.id] != event.receipt {
          MergedFails(receipts, events, i + 1);
          return false;
        }
        merged := merged[event.id := event.receipt];
      }
      assert events[..|events|] == events;
      MergedExtends(receipts, events);
      receipts := merged;
      bindings := bindings + EventBindings(events);
      ok := true;
    }
  }
}
