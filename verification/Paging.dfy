/** Listing loops over an index the store splits into pages as it likes (api/src/dynamodb.rs),
    and the connections built from them (api/src/graphql/pagination.rs). */
module Paging {
  import opened Prelude

  datatype Row<K, R> = Row(key: K, value: R)

  ghost predicate StrictTotalOrder<K(!new)>(precedes: (K, K) -> bool) {
    && (forall a :: !precedes(a, a))
    && (forall a, b :: a == b || precedes(a, b) || precedes(b, a))
    && (forall a, b, c :: precedes(a, b) && precedes(b, c) ==> precedes(a, c))
  }

  ghost predicate InOrder<K, R>(rows: seq<Row<K, R>>, precedes: (K, K) -> bool) {
    forall i, j {:trigger precedes(rows[i].key, rows[j].key)} ::
      0 <= i < j < |rows| ==> precedes(rows[i].key, rows[j].key)
  }

  /** The rows a filter keeps, in order. */
  function Matching<K, R>(rows: seq<Row<K, R>>, keep: R -> bool): seq<Row<K, R>> {
    if rows == [] then []
    else (if keep(rows[0].value) then [rows[0]] else []) + Matching(rows[1..], keep)
  }

  /** Where the matches stand: at exactly the places the filter keeps, in their order. */
  lemma {:induction false} MatchingPlaces<K, R>(rows: seq<Row<K, R>>, keep: R -> bool) returns (at: seq<nat>)
    ensures |at| == |Matching(rows, keep)| && forall i, j :: 0 <= i < j < |at| ==> at[i] < at[j]
    ensures forall i :: 0 <= i < |at| ==> at[i] < |rows| && Matching(rows, keep)[i] == rows[at[i]]
    ensures forall q :: 0 <= q < |rows| ==> (keep(rows[q].value) <==> q in at)
  {
    if rows == [] {
      at := [];
    } else {
      var last := |rows| - 1;
      at := MatchingPlaces(rows[..last], keep);
      assert rows == rows[..last] + [rows[last]];
      MatchingConcat(rows[..last], [rows[last]], keep);
      assert [rows[last]][1..] == [];
      if keep(rows[last].value) { at := at + [last]; }
      forall q | 0 <= q < |rows|
        ensures keep(rows[q].value) <==> q in at
      {
        assert q < last ==> rows[..last][q] == rows[q];
      }
    }
  }

  lemma {:induction false} MatchingConcat<K, R>(a: seq<Row<K, R>>, b: seq<Row<K, R>>, keep: R -> bool)
    ensures Matching(a + b, keep) == Matching(a, keep) + Matching(b, keep)
  {
    if a == [] {
      assert a + b == b;
    } else {
      MatchingConcat(a[1..], b, keep);
      assert (a + b)[0] == a[0] && (a + b)[1..] == a[1..] + b;
      Regroup(if keep(a[0].value) then [a[0]] else [], Matching(a[1..], keep), Matching(b, keep));
    }
  }

  function Take<T>(s: seq<T>, n: nat): seq<T> { if |s| <= n then s else s[..n] }

  /** A first stretch of a list, of at least `limit` elements unless the list ends before. */
  ghost predicate FirstStretch<T>(items: seq<T>, all: seq<T>, limit: nat) {
    items <= all && (|items| >= limit || items == all)
  }

  /** Cut to the limit, a first stretch is the first `limit` elements. */
  lemma {:induction false} StretchCut<T>(items: seq<T>, all: seq<T>, limit: nat)
    requires FirstStretch(items, all, limit)
    ensures Take(items, limit) == Take(all, limit)
  {
    if |items| > limit {
      assert items[..limit] == all[..limit];
    }
  }

  function Reverse<T>(s: seq<T>): (r: seq<T>)
    ensures |r| == |s| && forall i :: 0 <= i < |s| ==> r[i] == s[|s| - 1 - i]
  {
    if s == [] then [] else Reverse(s[1..]) + [s[0]]
  }

  /** How many of the rows come no later than a key. */
  function Position<K(==), R>(rows: seq<Row<K, R>>, precedes: (K, K) -> bool, start: Option<K>): nat {
    if start.None? || rows == [] then 0
    else if rows[0].key == start.value || precedes(rows[0].key, start.value)
    then 1 + Position(rows[1..], precedes, start)
    else 0
  }

  /** The rows after a cursor; all of them without one. */
  function After<K(==), R>(rows: seq<Row<K, R>>, precedes: (K, K) -> bool, start: Option<K>): seq<Row<K, R>> {
    PositionBound(rows, precedes, start);
    rows[Position(rows, precedes, start)..]
  }

  lemma {:induction false} PositionBound<K, R>(rows: seq<Row<K, R>>, precedes: (K, K) -> bool, start: Option<K>)
    ensures Position(rows, precedes, start) <= |rows|
  {
    if start.Some? && rows != [] {
      PositionBound(rows[1..], precedes, start);
    }
  }

  /** The position of a cursor parts the rows by the index order, whether or not the row it
      was taken from still exists. */
  lemma {:induction false} PositionParts<K(!new), R>(rows: seq<Row<K, R>>, precedes: (K, K) -> bool, start: K)
    requires StrictTotalOrder(precedes) && InOrder(rows, precedes)
    ensures var p := Position(rows, precedes, Some(start));
            && p <= |rows|
            && (forall i :: 0 <= i < p ==> rows[i].key == start || precedes(rows[i].key, start))
            && (forall i :: p <= i < |rows| ==> precedes(start, rows[i].key))
  {
    if rows != [] {
      PositionParts(rows[1..], precedes, start);
      var p := Position(rows[1..], precedes, Some(start));
      assert forall i :: 1 <= i < |rows| ==> rows[i] == rows[1..][i - 1];
    }
  }

  lemma {:induction false} PositionOfRow<K(!new), R>(rows: seq<Row<K, R>>, precedes: (K, K) -> bool, q: nat)
    requires StrictTotalOrder(precedes) && InOrder(rows, precedes) && q < |rows|
    ensures Position(rows, precedes, Some(rows[q].key)) == q + 1
  {
    PositionParts(rows, precedes, rows[q].key);
    var p := Position(rows, precedes, Some(rows[q].key));
    assert q + 1 < |rows| ==> precedes(rows[q].key, rows[q + 1].key);
  }

  /** One partition of an index, in query order. */
  class Partition<K(!new, ==), R(!new)> {
    const rows: seq<Row<K, R>>
    const precedes: (K, K) -> bool

    constructor (rows: seq<Row<K, R>>, precedes: (K, K) -> bool)
      ensures this.rows == rows && this.precedes == precedes
    {
      this.rows, this.precedes := rows, precedes;
    }

    ghost predicate Valid() { StrictTotalOrder(precedes) && InOrder(rows, precedes) }

    /** One query: the store examines as many rows after the start key as it likes, up to
        the limit, but at least one while any remain; the filter runs on what it examined.
        A continuation key is the last examined one; only the end of the index has none,
        and even there one may be given. */
    method Query(start: Option<K>, limit: Option<nat>, keep: R -> bool)
      returns (items: seq<Row<K, R>>, last: Option<K>, ghost examined: nat)
      requires Valid() && (limit.Some? ==> limit.value > 0)
      ensures Position(rows, precedes, start) + examined <= |rows|
      ensures limit.Some? ==> examined <= limit.value
      ensures items == Matching(After(rows, precedes, start)[..examined], keep)
      ensures last.None? ==> Position(rows, precedes, start) + examined == |rows|
      ensures last.Some? ==> examined > 0 && last.value == After(rows, precedes, start)[examined - 1].key
    {
      PositionBound(rows, precedes, start);
      var rest := After(rows, precedes, start);
      var most := if limit.Some? && limit.value < |rest| then limit.value else |rest|;
      var n :| 0 <= n <= most && (n == 0 ==> rest == []);
      items := Matching(rest[..n], keep);
      var cut: bool := *;
      last := if n > 0 && (n < |rest| || cut) then Some(rest[n - 1].key) else None;
      examined := n;
    }

    /** `list_billable_items` and `list_invoices`: no limit goes with a filter; the surplus
        of the last round is cut. */
    method ListPage(after: Option<K>, filter: Option<R -> bool>, limit: int) returns (items: seq<Row<K, R>>)
      requires Valid()
      ensures items == Take(Matching(After(rows, precedes, after), Keep(filter)), Fetch(limit))
    {
      var fetchLimit, keep := Fetch(limit), Keep(filter);
      if fetchLimit == 0 { return []; }
      items := [];
      var start := after;
      PositionBound(rows, precedes, after);
      while true
        invariant PositionInRange(after, start)
        invariant items == Gathered(after, Position(rows, precedes, start), keep)
        decreases |rows| - Position(rows, precedes, start)
      {
        var found, last, examined := Query(start, if filter.Some? then None else Some(fetchLimit), keep);
        ghost var q := Position(rows, precedes, start) + examined;
        Extend(after, start, examined, keep);
        items := items + found;
        if |items| >= fetchLimit || last.None? {
          WholeOrPrefix(after, q, keep);
          break;
        }
        PositionOfRow(rows, precedes, q - 1);
        start := last;
      }
      StretchCut(items, Matching(After(rows, precedes, after), keep), fetchLimit);
      items := Take(items, fetchLimit);
    }

    /** `list_tickets` going forward: the limit goes with every round, nothing is cut. What
        comes back is a first stretch of the matching rows, long enough unless they end. */
    method ListTickets(after: Option<K>, filter: Option<R -> bool>, limit: nat) returns (items: seq<Row<K, R>>)
      requires Valid() && limit > 0
      ensures FirstStretch(items, Matching(After(rows, precedes, after), Keep(filter)), limit)
    {
      var keep := Keep(filter);
      items := [];
      var start := after;
      PositionBound(rows, precedes, after);
      while true
        invariant PositionInRange(after, start)
        invariant items == Gathered(after, Position(rows, precedes, start), keep)
        decreases |rows| - Position(rows, precedes, start)
      {
        var found, last, examined := Query(start, Some(limit), keep);
        ghost var q := Position(rows, precedes, start) + examined;
        Extend(after, start, examined, keep);
        items := items + found;
        if |items| >= limit || last.None? {
          WholeOrPrefix(after, q, keep);
          return;
        }
        PositionOfRow(rows, precedes, q - 1);
        start := last;
      }
    }

    /** `query_all_items`: to the end of the index, and nothing less. */
    method QueryAll(keep: R -> bool) returns (items: seq<Row<K, R>>)
      requires Valid()
      ensures items == Matching(rows, keep)
    {
      items := [];
      var start: Option<K> := None;
      while true
        invariant PositionInRange(None, start)
        invariant items == Gathered(None, Position(rows, precedes, start), keep)
        decreases |rows| - Position(rows, precedes, start)
      {
        var found, last, examined := Query(start, None, keep);
        ghost var q := Position(rows, precedes, start) + examined;
        Extend(None, start, examined, keep);
        items := items + found;
        if last.None? {
          assert rows[0..q] == rows;
          return;
        }
        PositionOfRow(rows, precedes, q - 1);
        start := last;
      }
    }

    static function Keep(filter: Option<R -> bool>): (keep: R -> bool)
      ensures filter.Some? ==> keep == filter.value
      ensures filter.None? ==> forall r :: keep(r)
    {
      if filter.Some? then filter.value else (r: R) => true
    }

    static function Fetch(limit: int): nat { if limit < 0 then 0 else limit }

    ghost predicate PositionInRange(after: Option<K>, start: Option<K>) {
      Position(rows, precedes, after) <= Position(rows, precedes, start) <= |rows|
    }

    /** The matches among the rows examined up to a place. */
    ghost function Gathered(after: Option<K>, q: nat, keep: R -> bool): seq<Row<K, R>>
      requires Position(rows, precedes, after) <= q <= |rows|
    {
      Matching(rows[Position(rows, precedes, after)..q], keep)
    }

    /** One more round of examined rows extends what was gathered so far. */
    lemma {:induction false} Extend(after: Option<K>, start: Option<K>, examined: nat, keep: R -> bool)
      requires PositionInRange(after, start)
      requires Position(rows, precedes, start) + examined <= |rows|
      ensures var p := Position(rows, precedes, start);
              Gathered(after, p + examined, keep)
              == Gathered(after, p, keep) + Matching(After(rows, precedes, start)[..examined], keep)
    {
      var a, p := Position(rows, precedes, after), Position(rows, precedes, start);
      assert After(rows, precedes, start)[..examined] == rows[p..p + examined];
      assert rows[a..p] + rows[p..p + examined] == rows[a..p + examined];
      MatchingConcat(rows[a..p], rows[p..p + examined], keep);
    }

    /** Matches gathered up to a place are a first stretch of all matches after the cursor. */
    lemma {:induction false} WholeOrPrefix(after: Option<K>, q: nat, keep: R -> bool)
      requires Position(rows, precedes, after) <= q <= |rows|
      ensures Gathered(after, q, keep) <= Matching(After(rows, precedes, after), keep)
      ensures q == |rows| ==> Gathered(after, q, keep) == Matching(After(rows, precedes, after), keep)
    {
      var a := Position(rows, precedes, after);
      assert After(rows, precedes, after) == rows[a..q] + rows[q..];
      MatchingConcat(rows[a..q], rows[q..], keep);
    }
  }

  // ---------------------------------------------------------------- connections

  /** `build_connection` over rows fetched with a limit of one more than the page. */
  method BuildConnection<T>(fetched: seq<T>, pageSize: nat, lastMode: bool, hasAfter: bool, hasBefore: bool)
    returns (edges: seq<T>, hasPrevious: bool, hasNext: bool)
    ensures edges == if lastMode then Reverse(Take(fetched, pageSize)) else Take(fetched, pageSize)
    ensures |edges| == if |fetched| > pageSize then pageSize else |fetched|
    ensures forall i :: 0 <= i < |edges| ==> edges[i] == if lastMode then fetched[|edges| - 1 - i] else fetched[i]
    ensures !lastMode ==> (hasNext <==> |edges| < |fetched|) && hasPrevious == hasAfter
    ensures lastMode ==> (hasPrevious <==> |fetched| > pageSize || hasAfter) && hasNext == hasBefore
  {
    edges := fetched;
    var fetchedExtra := |edges| > pageSize;
    if fetchedExtra { edges := edges[..pageSize]; }
    if lastMode { edges := Reverse(edges); }
    hasPrevious := if lastMode then fetchedExtra || hasAfter else hasAfter;
    hasNext := if lastMode then hasBefore else fetchedExtra;
  }

  /** A listing with `page_size + 1` and the connection built from it: the page, and whether
      there is a next one. */
  ghost function ForwardPage<K, R>(rows: seq<Row<K, R>>, precedes: (K, K) -> bool, keep: R -> bool,
                                   cursor: Option<K>, pageSize: nat): (seq<Row<K, R>>, bool) {
    var fetched := Take(Matching(After(rows, precedes, cursor), keep), pageSize + 1);
    (Take(fetched, pageSize), |fetched| > pageSize)
  }

  /** A first stretch of one more than a page tells as much as the first `page_size + 1` rows:
      the same page, and whether rows remain, even when the listing returned more. */
  lemma {:induction false} StretchPage<T>(fetched: seq<T>, all: seq<T>, n: nat)
    requires FirstStretch(fetched, all, n + 1)
    ensures Take(fetched, n) == Take(Take(all, n + 1), n)
    ensures |fetched| > n <==> |Take(all, n + 1)| > n
  {
    if |fetched| > n {
      assert fetched[..n] == all[..n];
    }
  }

  /** The billable item and invoice connections: the listing with `page_size + 1`, then
      `build_connection`, forward. */
  method ListConnection<K(!new, ==), R(!new)>(index: Partition<K, R>, after: Option<K>, filter: Option<R -> bool>,
                                             pageSize: nat)
    returns (edges: seq<Row<K, R>>, hasPrevious: bool, hasNext: bool)
    requires index.Valid()
    ensures var keep := Partition<K, R>.Keep(filter);
            (edges, hasNext) == ForwardPage(index.rows, index.precedes, keep, after, pageSize)
    ensures hasPrevious == after.Some?
  {
    var fetched := index.ListPage(after, filter, pageSize + 1);
    edges, hasPrevious, hasNext := BuildConnection(fetched, pageSize, false, after.Some?, false);
    TakeTwice(Matching(After(index.rows, index.precedes, after), Partition<K, R>.Keep(filter)), pageSize);
  }

  /** The ticket connection, forward; the listing itself may return more than it was asked for. */
  method TicketConnection<K(!new, ==), R(!new)>(index: Partition<K, R>, after: Option<K>, filter: Option<R -> bool>,
                                               pageSize: nat)
    returns (edges: seq<Row<K, R>>, hasPrevious: bool, hasNext: bool)
    requires index.Valid()
    ensures var keep := Partition<K, R>.Keep(filter);
            (edges, hasNext) == ForwardPage(index.rows, index.precedes, keep, after, pageSize)
    ensures hasPrevious == after.Some?
  {
    var fetched := index.ListTickets(after, filter, pageSize + 1);
    edges, hasPrevious, hasNext := BuildConnection(fetched, pageSize, false, after.Some?, false);
    StretchPage(fetched, Matching(After(index.rows, index.precedes, after), Partition<K, R>.Keep(filter)), pageSize);
  }

  /** `hasNextPage` is true exactly while matching rows remain after the page. */
  lemma {:induction false} HasNextIffMore<K, R>(rows: seq<Row<K, R>>, precedes: (K, K) -> bool, keep: R -> bool,
                                                cursor: Option<K>, pageSize: nat)
    ensures var (edges, hasNext) := ForwardPage(rows, precedes, keep, cursor, pageSize);
            var all := Matching(After(rows, precedes, cursor), keep);
            && edges <= all
            && (hasNext <==> |edges| < |all|)
            && (hasNext ==> |edges| == pageSize)
  {
    TakeTwice(Matching(After(rows, precedes, cursor), keep), pageSize);
  }

  lemma {:induction false} TakeTwice<T>(all: seq<T>, n: nat)
    ensures Take(Take(all, n + 1), n) == Take(all, n) <= all
    ensures |Take(all, n + 1)| > n <==> |all| > n
  {}

  /** Where the i-th match stands among the rows. */
  lemma {:induction false} MatchAt<K, R>(rows: seq<Row<K, R>>, keep: R -> bool, i: nat) returns (q: nat)
    requires i < |Matching(rows, keep)|
    ensures q < |rows| && rows[q] == Matching(rows, keep)[i]
    ensures Matching(rows[q + 1..], keep) == Matching(rows, keep)[i + 1..]
  {
    var head := keep(rows[0].value);
    var rest := Matching(rows[1..], keep);
    assert Matching(rows, keep) == (if head then [rows[0]] else []) + rest;
    if head && i == 0 {
      q := 0;
    } else {
      var i' := if head then i - 1 else i;
      var q' := MatchAt(rows[1..], keep, i');
      q := q' + 1;
      assert rows[1..][q' + 1..] == rows[q + 1..];
      assert Matching(rows, keep)[i + 1..] == rest[i' + 1..];
    }
  }

  /** The cursor of a returned row continues right behind it. */
  lemma {:induction false} CursorContinues<K(!new), R>(rows: seq<Row<K, R>>, precedes: (K, K) -> bool, keep: R -> bool,
                                                       cursor: Option<K>, i: nat)
    requires StrictTotalOrder(precedes) && InOrder(rows, precedes)
    requires i < |Matching(After(rows, precedes, cursor), keep)|
    ensures var all := Matching(After(rows, precedes, cursor), keep);
            && Matching(After(rows, precedes, Some(all[i].key)), keep) == all[i + 1..]
            && Position(rows, precedes, cursor) < Position(rows, precedes, Some(all[i].key)) <= |rows|
  {
    PositionBound(rows, precedes, cursor);
    var p := Position(rows, precedes, cursor);
    var q := MatchAt(rows[p..], keep, i);
    assert rows[p..][q] == rows[p + q] && rows[p..][q + 1..] == rows[p + q + 1..];
    PositionOfRow(rows, precedes, p + q);
  }

  /** All the edges a client sees that follows `endCursor` while `hasNextPage` holds. */
  ghost function FollowPages<K(!new), R>(rows: seq<Row<K, R>>, precedes: (K, K) -> bool, keep: R -> bool,
                                         cursor: Option<K>, pageSize: nat): seq<Row<K, R>>
    requires StrictTotalOrder(precedes) && InOrder(rows, precedes) && pageSize > 0
    decreases |rows| - Position(rows, precedes, cursor)
  {
    var page := ForwardPage(rows, precedes, keep, cursor, pageSize);
    if !page.1 then page.0
    else
      EndCursorContinues(rows, precedes, keep, cursor, pageSize);
      page.0 + FollowPages(rows, precedes, keep, Some(page.0[|page.0| - 1].key), pageSize)
  }

  /** A page with a next one ends in a row whose cursor leads exactly to what the page left out. */
  lemma {:induction false} EndCursorContinues<K(!new), R>(rows: seq<Row<K, R>>, precedes: (K, K) -> bool,
                                                          keep: R -> bool, cursor: Option<K>, pageSize: nat)
    requires StrictTotalOrder(precedes) && InOrder(rows, precedes) && pageSize > 0
    requires ForwardPage(rows, precedes, keep, cursor, pageSize).1
    ensures var edges := ForwardPage(rows, precedes, keep, cursor, pageSize).0;
            && |edges| > 0
            && Matching(After(rows, precedes, cursor), keep)
               == edges + Matching(After(rows, precedes, Some(edges[|edges| - 1].key)), keep)
            && Position(rows, precedes, cursor) < Position(rows, precedes, Some(edges[|edges| - 1].key)) <= |rows|
  {
    HasNextIffMore(rows, precedes, keep, cursor, pageSize);
    CursorContinues(rows, precedes, keep, cursor, pageSize - 1);
    PageEnd(Matching(After(rows, precedes, cursor), keep), ForwardPage(rows, precedes, keep, cursor, pageSize).0, pageSize);
  }

  lemma {:induction false} PageEnd<T>(all: seq<T>, edges: seq<T>, n: nat)
    requires 0 < n < |all| && |edges| == n && edges <= all
    ensures edges[|edges| - 1] == all[n - 1] && all == edges + all[n..]
  {
    assert edges == all[..n];
  }

  /** Following the cursors shows every matching row exactly once, in order. */
  lemma {:induction false} PagesCoverAll<K(!new), R>(rows: seq<Row<K, R>>, precedes: (K, K) -> bool, keep: R -> bool,
                                                     cursor: Option<K>, pageSize: nat)
    requires StrictTotalOrder(precedes) && InOrder(rows, precedes) && pageSize > 0
    ensures FollowPages(rows, precedes, keep, cursor, pageSize) == Matching(After(rows, precedes, cursor), keep)
    decreases |rows| - Position(rows, precedes, cursor)
  {
    HasNextIffMore(rows, precedes, keep, cursor, pageSize);
    var page := ForwardPage(rows, precedes, keep, cursor, pageSize);
    if page.1 {
      EndCursorContinues(rows, precedes, keep, cursor, pageSize);
      PagesCoverAll(rows, precedes, keep, Some(page.0[|page.0| - 1].key), pageSize);
    }
  }
}
