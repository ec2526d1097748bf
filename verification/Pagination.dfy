/**
 * Keyset pages that drop rows after the cursor is taken (crates/api/src/activity.rs and agents.rs):
 * following `nextCursor` over an unchanged table misses nothing and repeats nothing.
 */
module Pagination {
  import opened Common
  import Cursor

  datatype Row<K, R> = Row(key: K, data: R)

  /** What becomes of a row: it is listed, left out of the list, or fails the whole request. */
  datatype Shown<I> = Listed(item: I) | LeftOut | Failed

  /** How a list writes a row's sort key into `nextCursor` and reads it back out of `before`. */
  datatype Codec<!K> = Codec(write: K -> string, read: string -> Option<K>)

  datatype Page<I> = Page(items: seq<I>, nextCursor: Option<string>)

  /** The table in list order: `before` is a strict order and the rows ascend in it. */
  ghost predicate Ordered<K, R>(before: (K, K) -> bool, table: seq<Row<K, R>>) {
    && (forall i | 0 <= i < |table| :: !before(table[i].key, table[i].key))
    && forall i, j | 0 <= i < j < |table| :: before(table[i].key, table[j].key) && !before(table[j].key, table[i].key)
  }

  /** Every key of the table survives its own cursor. */
  ghost predicate Faithful<K, R>(codec: Codec<K>, table: seq<Row<K, R>>) {
    forall row | row in table :: codec.read(codec.write(row.key)) == Some(row.key)
  }

  /** The query without its limit: every row, or those strictly after a key. */
  function RowsAfter<K, R>(before: (K, K) -> bool, table: seq<Row<K, R>>, after: Option<K>): seq<Row<K, R>> {
    if after.None? then table else Filter(table, (row: Row<K, R>) => before(after.value, row.key))
  }

  function Take<T>(s: seq<T>, n: nat): seq<T> {
    if |s| <= n then s else s[..n]
  }

  /** The rows left in the list, in order. */
  function ListedOf<K, R, I>(show: Row<K, R> -> Shown<I>, rows: seq<Row<K, R>>): seq<I> {
    if rows == [] then []
    else
      var shown := show(rows[|rows| - 1]);
      ListedOf(show, rows[..|rows| - 1]) + if shown.Listed? then [shown.item] else []
  }

  ghost predicate NoneFails<K, R, I>(show: Row<K, R> -> Shown<I>, rows: seq<Row<K, R>>) {
    forall row | row in rows :: !show(row).Failed?
  }

  // ---------------------------------------------------------------------------------------------
  // One page
  // ---------------------------------------------------------------------------------------------

  /** `items`: the rows as the wire carries them. */
  method Items<K, R, I>(show: Row<K, R> -> Shown<I>, rows: seq<Row<K, R>>) returns (r: Result<seq<I>, ()>)
    ensures r.Ok? <==> NoneFails(show, rows)
    ensures r.Ok? ==> r.value == ListedOf(show, rows)
  {
    var items := [];
    for i := 0 to |rows|
      invariant NoneFails(show, rows[..i]) && items == ListedOf(show, rows[..i])
    {
      assert rows[..i + 1][..i] == rows[..i] && rows[..i + 1] == rows[..i] + [rows[i]];
      match show(rows[i])
      case Listed(item) => items := items + [item];
      case LeftOut =>
      case Failed =>
        assert rows[i] in rows;
        return Err(());
    }
    assert rows[..|rows|] == rows;
    r := Ok(items);
  }

  /** The cursor of a page, taken before any row is dropped. */
  function NextCursor<K, R>(codec: Codec<K>, rows: seq<Row<K, R>>, size: nat): Option<string> {
    if |rows| > size && size > 0 then Some(codec.write(rows[size - 1].key)) else None
  }

  /** What a request answers: of the rows after `after` one more than a page, cut, shown, with their cursor. */
  ghost function PageOf<K, R, I>(before: (K, K) -> bool, codec: Codec<K>, show: Row<K, R> -> Shown<I>, table: seq<Row<K, R>>, after: Option<K>, size: nat): Result<Page<I>, ()> {
    var rows := Take(RowsAfter(before, table, after), size + 1);
    if NoneFails(show, Take(rows, size)) then Ok(Page(ListedOf(show, Take(rows, size)), NextCursor(codec, rows, size))) else Err(())
  }

  method Index<K, R, I>(before: (K, K) -> bool, codec: Codec<K>, show: Row<K, R> -> Shown<I>, table: seq<Row<K, R>>, after: Option<K>, size: nat)
    returns (r: Result<Page<I>, ()>)
    ensures r == PageOf(before, codec, show, table, after, size)
  {
    var rows := Take(RowsAfter(before, table, after), size + 1);
    ghost var raw := rows;
    var more := |rows| > size;
    rows := Take(rows, size);
    var next := None;
    if |rows| > 0 && more {
      next := Some(codec.write(rows[|rows| - 1].key));
    }
    var items := Items(show, rows);
    if items.Err? {
      return Err(());
    }
    r := Ok(Page(items.value, next));
  }

  // ---------------------------------------------------------------------------------------------
  // Following the cursor
  // ---------------------------------------------------------------------------------------------

  /** The rows after the `i`th are the rows after its key. */
  lemma RowsAfterKey<K, R>(before: (K, K) -> bool, table: seq<Row<K, R>>, i: nat)
    requires Ordered(before, table) && i < |table|
    ensures RowsAfter(before, table, Some(table[i].key)) == table[i + 1..]
  {
    hide Filter;
    var key := table[i].key;
    var keep := (row: Row<K, R>) => before(key, row.key);
    var early, late := table[..i + 1], table[i + 1..];
    assert table == early + late;
    forall row | row in early ensures !keep(row) {
      var j :| 0 <= j < i + 1 && table[j] == row;
    }
    forall row | row in late ensures keep(row) {
      var j :| 0 <= j < |late| && late[j] == row;
      assert table[i + 1 + j] == row;
    }
    FilterConcat(early, late, keep);
    FilterAllOrNone(early, keep);
    FilterAllOrNone(late, keep);
  }

  /** What a client has after asking for page after page until there is no cursor: all items, and for
      the record every row the pages were cut from. `None` if a request failed or a cursor was refused. */
  datatype Walk<K, R, I> = Walk(rows: seq<Row<K, R>>, items: seq<I>)

  ghost function Follow<K, R, I>(before: (K, K) -> bool, codec: Codec<K>, show: Row<K, R> -> Shown<I>, table: seq<Row<K, R>>, after: Option<K>, size: nat, seen: nat): Option<Walk<K, R, I>>
    requires Ordered(before, table) && Faithful(codec, table) && size > 0
    requires seen <= |table| && RowsAfter(before, table, after) == table[seen..]
    decreases |table| - seen
  {
    var raw := Take(Take(RowsAfter(before, table, after), size + 1), size);
    match PageOf(before, codec, show, table, after, size)
    case Err(_) => None
    case Ok(page) =>
      match page.nextCursor
      case None => Some(Walk(raw, page.items))
      case Some(cursor) =>
        match codec.read(cursor)
        case None => None
        case Some(key) =>
          NextPage(before, codec, table, seen, size);
          var rest := Follow(before, codec, show, table, Some(key), size, seen + size);
          if rest.None? then None
          else Some(Walk(raw + rest.value.rows, page.items + rest.value.items))
  }

  /** The cursor of a page that is not the last leads to exactly the rows that follow the page. */
  lemma NextPage<K, R>(before: (K, K) -> bool, codec: Codec<K>, table: seq<Row<K, R>>, seen: nat, size: nat)
    requires Ordered(before, table) && Faithful(codec, table) && size > 0 && seen <= |table|
    requires var rows := Take(table[seen..], size + 1); |rows| > size
    ensures seen + size < |table|
    ensures var rows := Take(table[seen..], size + 1);
            var key := codec.read(codec.write(rows[size - 1].key));
            key == Some(table[seen + size - 1].key) && RowsAfter(before, table, key) == table[seen + size..]
  {
    var last := table[seen + size - 1];
    assert Take(table[seen..], size + 1)[size - 1] == last && last in table;
    RowsAfterKey(before, table, seen + size - 1);
  }

  lemma {:induction false} ListedConcat<K, R, I>(show: Row<K, R> -> Shown<I>, a: seq<Row<K, R>>, b: seq<Row<K, R>>)
    ensures ListedOf(show, a + b) == ListedOf(show, a) + ListedOf(show, b)
  {
    if b == [] {
      assert a + b == a;
    } else {
      assert (a + b)[..|a + b| - 1] == a + b[..|b| - 1];
      ListedConcat(show, a, b[..|b| - 1]);
    }
  }

  ghost predicate IsWalk<K, R, I>(show: Row<K, R> -> Shown<I>, rows: seq<Row<K, R>>, walk: Option<Walk<K, R, I>>) {
    && (walk.Some? <==> NoneFails(show, rows))
    && (walk.Some? ==> walk.value == Walk(rows, ListedOf(show, rows)))
  }

  lemma FollowLast<K, R, I>(before: (K, K) -> bool, codec: Codec<K>, show: Row<K, R> -> Shown<I>, table: seq<Row<K, R>>, after: Option<K>, size: nat, seen: nat)
    requires Ordered(before, table) && Faithful(codec, table) && size > 0
    requires seen <= |table| && RowsAfter(before, table, after) == table[seen..] && |table| - seen <= size
    ensures IsWalk(show, table[seen..], Follow(before, codec, show, table, after, size, seen))
  {
    hide ListedOf, Faithful, Ordered, NoneFails, RowsAfter;
  }

  lemma FollowMore<K, R, I>(before: (K, K) -> bool, codec: Codec<K>, show: Row<K, R> -> Shown<I>, table: seq<Row<K, R>>, after: Option<K>, size: nat, seen: nat)
    requires Ordered(before, table) && Faithful(codec, table) && size > 0
    requires seen <= |table| && RowsAfter(before, table, after) == table[seen..] && |table| - seen > size
    ensures var key := Some(table[seen + size - 1].key);
            && RowsAfter(before, table, key) == table[seen + size..]
            && var rest := Follow(before, codec, show, table, key, size, seen + size);
               IsWalk(show, table[seen + size..], rest) ==>
                 IsWalk(show, table[seen..], Follow(before, codec, show, table, after, size, seen))
  {
    hide ListedOf, Faithful, Ordered, NoneFails, RowsAfter;
    NextPage(before, codec, table, seen, size);
    var page := Take(Take(table[seen..], size + 1), size);
    assert table[seen..] == page + table[seen + size..];
    ListedConcat(show, page, table[seen + size..]);
    FailsInPart(show, page, table[seen + size..]);
  }

  lemma {:induction false} FollowFrom<K, R, I>(before: (K, K) -> bool, codec: Codec<K>, show: Row<K, R> -> Shown<I>, table: seq<Row<K, R>>, after: Option<K>, size: nat, seen: nat)
    requires Ordered(before, table) && Faithful(codec, table) && size > 0
    requires seen <= |table| && RowsAfter(before, table, after) == table[seen..]
    ensures IsWalk(show, table[seen..], Follow(before, codec, show, table, after, size, seen))
    decreases |table| - seen
  {
    hide IsWalk, Follow, Faithful, Ordered, RowsAfter;
    if |table| - seen <= size {
      FollowLast(before, codec, show, table, after, size, seen);
    } else {
      FollowMore(before, codec, show, table, after, size, seen);
      FollowFrom(before, codec, show, table, Some(table[seen + size - 1].key), size, seen + size);
    }
  }

  lemma FailsInPart<K, R, I>(show: Row<K, R> -> Shown<I>, a: seq<Row<K, R>>, b: seq<Row<K, R>>)
    ensures NoneFails(show, a + b) <==> NoneFails(show, a) && NoneFails(show, b)
  {
    assert forall row :: row in a + b <==> row in a || row in b;
  }

  /** From the first page on, the pages are cut from every row once, in order, and list exactly the rows
      that are not left out; the walk fails exactly when some row fails. */
  lemma FollowVisitsAll<K, R, I>(before: (K, K) -> bool, codec: Codec<K>, show: Row<K, R> -> Shown<I>, table: seq<Row<K, R>>, size: nat)
    requires Ordered(before, table) && Faithful(codec, table) && size > 0
    ensures table[0..] == table && RowsAfter(before, table, None) == table[0..]
    ensures var walk := Follow(before, codec, show, table, None, size, 0);
            && (walk.Some? <==> NoneFails(show, table))
            && (walk.Some? ==> walk.value == Walk(table, ListedOf(show, table)))
  {
    assert table[0..] == table;
    FollowFrom(before, codec, show, table, None, size, 0);
  }

  // --- the lists of the API ---------------------------------------------------------------------

  /** The cursors of the activity list and the agents' ledger. */
  function PairCodec<T>(clock: Cursor.Clock<T>): Codec<(T, int)> {
    Codec((key: (T, int)) => Cursor.Encode(clock, key.0, key.1), (raw: string) => Cursor.Decode(clock, raw))
  }

  /** The approval history's. */
  const IdCodec: Codec<int> := Codec(Cursor.EncodeId, Cursor.DecodeId)

  /** The activity list and the agents' ledger write cursors that read back. */
  lemma PairCodecFaithful<T(!new), R>(clock: Cursor.Clock<T>, table: seq<Row<(T, int), R>>)
    requires Cursor.Sound(clock) && forall row | row in table :: Cursor.IsI64(row.key.1)
    ensures Faithful(PairCodec(clock), table)
  {
    forall row | row in table ensures PairCodec(clock).read(PairCodec(clock).write(row.key)) == Some(row.key) {
      Cursor.RoundTrip(clock, row.key.0, row.key.1);
    }
  }

  /** The approval history's cursors read back exactly when its ids are positive. */
  lemma IdCodecFaithful<R>(table: seq<Row<int, R>>)
    requires forall row | row in table :: Cursor.IsI64(row.key)
    ensures Faithful(IdCodec, table) <==> forall row | row in table :: row.key > 0
  {
    forall row | row in table ensures IdCodec.read(IdCodec.write(row.key)) == Some(row.key) <==> row.key > 0 {
      Cursor.RoundTripId(row.key);
    }
  }
}
