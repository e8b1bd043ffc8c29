/** `list_tickets` end to end: paging over a sparse index shows what a filter on the base
    table would (api/src/dynamodb.rs). */
module TicketListing {
  import opened Prelude
  import opened Paging
  import opened Tickets

  /** The sort key of every listing index, and the table key behind it. */
  type Key = (nat, Id)

  datatype Entry = Entry(id: Id, ticket: Ticket)

  function KeyOf(id: Id, t: Ticket): Key { (t.lastActivityAt, id) }

  /** The partition a listing queries: the rows that carry its key, one each. */
  ghost predicate IsIndex(rows: seq<Row<Key, Entry>>, table: Rows, filter: Filter, instanceId: Id) {
    && (forall row :: row in rows ==>
          && row.value.id in table && row.value.ticket == table[row.value.id]
          && row.key == KeyOf(row.value.id, row.value.ticket)
          && KeyMatches(filter, instanceId, row.value.ticket))
    && (forall id :: id in table && KeyMatches(filter, instanceId, table[id]) ==>
          Row(KeyOf(id, table[id]), Entry(id, table[id])) in rows)
  }

  function FilterExpression(filter: Filter): Option<Entry -> bool> {
    if filter.AssignedTo? && filter.only.Some? then Some((e: Entry) => PassesFilter(filter, e.ticket)) else None
  }

  lemma {:induction false} MatchingMembers<K, R>(rows: seq<Row<K, R>>, keep: R -> bool, row: Row<K, R>)
    ensures row in Matching(rows, keep) <==> row in rows && keep(row.value)
  {
    if rows != [] {
      MatchingMembers(rows[1..], keep, row);
      assert row in rows <==> row == rows[0] || row in rows[1..];
    }
  }

  lemma {:induction false} AfterMembers<K(!new), R>(rows: seq<Row<K, R>>, precedes: (K, K) -> bool, start: Option<K>,
                                          row: Row<K, R>)
    requires StrictTotalOrder(precedes) && InOrder(rows, precedes)
    ensures row in After(rows, precedes, start)
            <==> row in rows && (start.Some? ==> precedes(start.value, row.key))
  {
    if start.Some? {
      PositionParts(rows, precedes, start.value);
      var p := Position(rows, precedes, start);
      if row in rows && precedes(start.value, row.key) {
        var i :| 0 <= i < |rows| && rows[i] == row;
        assert i >= p;
        assert After(rows, precedes, start)[i - p] == row;
      }
    }
  }

  /** The rows a listing runs through are exactly the tickets the base table shows after the
      cursor. */
  lemma {:induction false} ListedIffShown(
    rows: seq<Row<Key, Entry>>, precedes: (Key, Key) -> bool, table: Rows, filter: Filter, instanceId: Id,
    after: Option<Key>, id: Id)
    requires StrictTotalOrder(precedes) && InOrder(rows, precedes) && IsIndex(rows, table, filter, instanceId)
    requires id in table && table[id].Consistent() && Unambiguous(filter, instanceId, table[id])
    ensures var keep := Partition<Key, Entry>.Keep(FilterExpression(filter));
            Row(KeyOf(id, table[id]), Entry(id, table[id])) in Matching(After(rows, precedes, after), keep)
            <==> Shows(filter, instanceId, table[id]) && (after.Some? ==> precedes(after.value, KeyOf(id, table[id])))
  {
    var row := Row(KeyOf(id, table[id]), Entry(id, table[id]));
    MatchingMembers(After(rows, precedes, after), Partition<Key, Entry>.Keep(FilterExpression(filter)), row);
    AfterMembers(rows, precedes, after, row);
    QueryIsFilter(filter, instanceId, table[id]);
  }
}
