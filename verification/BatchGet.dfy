/** `get_records`: batch reads in chunks, with deferred keys asked for again
    (api/src/dynamodb.rs). */
module BatchGet {
  import opened Prelude

  const BATCH_LIMIT: nat := 100
  const BATCH_GET_MAX_ATTEMPTS: nat := 5

  datatype Outcome<+R> = Found(rows: seq<Option<R>>) | Failed | StillUnprocessed(keys: nat)

  /** What one id asks for. */
  function Lookup<R>(table: map<Id, R>, id: Id): Option<R> {
    if id in table then Some(table[id]) else None
  }

  /** `results.remove(id)`, id by id: an id takes its row out of the results. */
  function Removed<R>(results: map<Id, R>, ids: seq<Id>): seq<Option<R>> {
    if ids == [] then []
    else [Lookup(results, ids[0])] + Removed(results - {ids[0]}, ids[1..])
  }

  /** So only the first occurrence of an id gets the row. */
  lemma {:induction false} RemovedAt<R>(results: map<Id, R>, ids: seq<Id>, j: nat)
    requires j < |ids|
    ensures |Removed(results, ids)| == |ids|
    ensures Removed(results, ids)[j] == if ids[j] in ids[..j] then None else Lookup(results, ids[j])
  {
    var rest := results - {ids[0]};
    if |ids| > 1 {
      RemovedAt(rest, ids[1..], if j > 0 then j - 1 else 0);
    }
    if j > 0 {
      assert ids[1..][j - 1] == ids[j];
      assert ids[..j] == [ids[0]] + ids[1..][..j - 1];
    }
  }

  /** What the caller is promised: position by position, the row with that id. */
  predicate PositionallyAligned<R(==)>(table: map<Id, R>, ids: seq<Id>, rows: seq<Option<R>>) {
    |rows| == |ids| && forall j :: 0 <= j < |ids| ==> rows[j] == Lookup(table, ids[j])
  }

  /** The promise is kept exactly when no existing row is asked for twice. */
  lemma {:induction false} AlignedIff<R(!new)>(table: map<Id, R>, ids: seq<Id>)
    ensures PositionallyAligned(table, ids, Removed(table, ids))
            <==> forall i, j :: 0 <= i < j < |ids| && ids[i] == ids[j] ==> ids[j] !in table
  {
    var rows := Removed(table, ids);
    forall j | 0 <= j < |ids|
      ensures |rows| == |ids|
      ensures rows[j] == if ids[j] in ids[..j] then None else Lookup(table, ids[j])
    {
      RemovedAt(table, ids, j);
    }
    if PositionallyAligned(table, ids, rows) {
      forall i, j | 0 <= i < j < |ids| && ids[i] == ids[j]
        ensures ids[j] !in table
      {
        assert ids[..j][i] == ids[j];
        assert rows[j] == None;
      }
    }
  }

  class Table<R(!new, ==)> {
    const rows: map<Id, R>
    const idOf: R -> Id

    constructor (rows: map<Id, R>, idOf: R -> Id)
      ensures this.rows == rows && this.idOf == idOf
    {
      this.rows, this.idOf := rows, idOf;
    }

    /** The `HasID` of the row type gives the primary key. */
    ghost predicate Valid() { forall id :: id in rows ==> idOf(rows[id]) == id }

    /** One `BatchGetItem`: refused for a repeated key, and free to fail; of the rest any
        keys may come back unprocessed, and the rows of the others in any order. */
    method BatchGetItem(keys: seq<Id>) returns (sent: bool, items: seq<R>, unprocessed: seq<Id>)
      requires 0 < |keys| <= BATCH_LIMIT
      ensures sent ==> Distinct(keys)
      ensures forall key :: key in unprocessed ==> key in keys
      ensures |unprocessed| <= |keys|
      ensures forall item :: item in items ==> exists key :: key in keys && key in rows && item == rows[key]
      ensures sent ==> forall key :: key in keys && key in rows ==> key in unprocessed || rows[key] in items
    {
      sent := *;
      sent := sent && Distinct(keys);
      items, unprocessed := [], [];
      for i := 0 to |keys|
        invariant |unprocessed| <= i
        invariant forall key :: key in unprocessed ==> key in keys
        invariant forall item :: item in items ==> exists key :: key in keys && key in rows && item == rows[key]
        invariant forall j :: 0 <= j < i && keys[j] in rows ==> keys[j] in unprocessed || rows[keys[j]] in items
      {
        var defer: bool, ahead: bool := *, *;
        if defer {
          unprocessed := unprocessed + [keys[i]];
        } else if keys[i] in rows {
          items := if ahead then [rows[keys[i]]] + items else items + [rows[keys[i]]];
        }
      }
    }

    /** What the results hold: rows of the table under their ids. */
    ghost predicate Collected(results: map<Id, R>) {
      forall id :: id in results ==> id in rows && results[id] == rows[id]
    }

    /** Everything asked for is in the results, unless it does not exist or is pending. */
    ghost predicate AllBut(results: map<Id, R>, asked: seq<Id>, pending: seq<Id>) {
      forall id :: id in asked && id in rows ==> id in results || id in pending
    }

    /** One chunk: up to five attempts, each for what the last one deferred. */
    method GetChunk(chunk: seq<Id>, before: map<Id, R>) returns (sent: bool, results: map<Id, R>, pending: seq<Id>)
      requires Valid() && 0 < |chunk| <= BATCH_LIMIT && Collected(before)
      ensures sent ==> Distinct(chunk)
      ensures sent ==> Collected(results) && before.Keys <= results.Keys && AllBut(results, chunk, pending)
    {
      results, pending, sent := before, chunk, true;
      var attempt := 1;
      while attempt <= BATCH_GET_MAX_ATTEMPTS
        invariant sent && 0 < |pending| <= BATCH_LIMIT
        invariant forall id :: id in pending ==> id in chunk
        invariant attempt > 1 ==> Distinct(chunk)
        invariant attempt == 1 ==> pending == chunk
        invariant Collected(results) && before.Keys <= results.Keys && AllBut(results, chunk, pending)
      {
        var items;
        var asked := pending;
        sent, items, pending := BatchGetItem(asked);
        if !sent { return; }
        results := Insert(results, items);
        if pending == [] { return; }
        attempt := attempt + 1;
      }
    }

    /** `results.insert(rec.id(), rec)` for every row of a response. */
    method Insert(before: map<Id, R>, items: seq<R>) returns (results: map<Id, R>)
      requires Valid() && Collected(before)
      requires forall item :: item in items ==> idOf(item) in rows && item == rows[idOf(item)]
      ensures Collected(results)
      ensures forall id :: id in results <==> id in before || exists item :: item in items && idOf(item) == id
    {
      results := before;
      for i := 0 to |items|
        invariant Collected(results)
        invariant forall id :: id in results <==> id in before || exists item :: item in items[..i] && idOf(item) == id
      {
        assert items[..i + 1] == items[..i] + [items[i]];
        assert items[i] in items;
        results := results[idOf(items[i]) := items[i]];
      }
      assert items[..|items|] == items;
    }

    /** Either a failure or, for each position, the row of that id at its first occurrence;
        a row that exists is `None` only where its id came before. No chunk repeats an id. */
    method GetRecords(ids: seq<Id>) returns (r: Outcome<R>)
      requires Valid()
      ensures r.Found? ==> r.rows == Removed(rows, ids)
      ensures r.Found? ==> |r.rows| == |ids| && forall j :: 0 <= j < |ids| ==>
                r.rows[j] == if ids[j] in rows && ids[j] !in ids[..j] then Some(rows[ids[j]]) else None
      ensures r.Found? ==> forall k :: 0 <= k && BATCH_LIMIT * k < |ids| ==> Distinct(Chunk(ids, k))
    {
      var results: map<Id, R>, k := map[], 0;
      while BATCH_LIMIT * k < |ids|
        invariant Collected(results) && AllBut(results, Before(ids, k), [])
        invariant 0 <= k && forall l :: 0 <= l < k ==> Distinct(Chunk(ids, l))
      {
        var chunk := Chunk(ids, k);
        BeforeNext(ids, k);
        var sent, after, pending := GetChunk(chunk, results);
        if !sent { return Failed; }
        if pending != [] { return StillUnprocessed(|pending|); }
        results := after;
        k := k + 1;
      }
      assert Before(ids, k) == ids;
      assert forall id :: id in ids ==> Lookup(results, id) == Lookup(rows, id);
      RemovedAgree(results, rows, ids);
      var found := Collect(results, ids);
      forall j | 0 <= j < |ids|
        ensures |found| == |ids| && found[j] == if ids[j] in rows && ids[j] !in ids[..j] then Some(rows[ids[j]]) else None
      {
        RemovedAt(rows, ids, j);
      }
      return Found(found);
    }

    /** The last step: each id takes its row out of the results. */
    static method Collect(all: map<Id, R>, ids: seq<Id>) returns (found: seq<Option<R>>)
      ensures found == Removed(all, ids)
    {
      found := [];
      var results := all;
      for i := 0 to |ids|
        invariant found + Removed(results, ids[i..]) == Removed(all, ids)
      {
        assert ids[i..][1..] == ids[i + 1..];
        found := found + [Lookup(results, ids[i])];
        results := results - {ids[i]};
      }
    }

    /** `ids.chunks(100)`, by number; empty past the end. */
    static function Chunk(ids: seq<Id>, k: nat): (chunk: seq<Id>)
      ensures |chunk| <= BATCH_LIMIT
    {
      Before(ids, k + 1)[|Before(ids, k)|..]
    }

    /** The ids of the first chunks. */
    static function Before(ids: seq<Id>, k: nat): seq<Id> {
      if BATCH_LIMIT * k < |ids| then ids[..BATCH_LIMIT * k] else ids
    }

    lemma {:induction false} BeforeNext(ids: seq<Id>, k: nat)
      ensures Before(ids, k + 1) == Before(ids, k) + Chunk(ids, k)
    {}
  }

  lemma {:induction false} RemovedAgree<R>(a: map<Id, R>, b: map<Id, R>, ids: seq<Id>)
    requires forall id :: id in ids ==> Lookup(a, id) == Lookup(b, id)
    ensures Removed(a, ids) == Removed(b, ids)
  {
    if ids != [] {
      var a', b' := a - {ids[0]}, b - {ids[0]};
      forall id | id in ids[1..]
        ensures Lookup(a', id) == Lookup(b', id)
      {
        assert Lookup(a, id) == Lookup(b, id);
      }
      RemovedAgree(a', b', ids[1..]);
    }
  }
}
