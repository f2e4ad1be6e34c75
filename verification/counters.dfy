/** Denormalised engagement counters (a post's or comment's or itinerary's
    `likeCount`) against the link rows they count, and what the like and unlike
    transactions do to the relation between the two. */
module Counters {
  import opened Common
  import opened Store

  /** Each item's counter equals the number of rows whose subject is the item. */
  ghost predicate Counted<T>(items: seq<T>, id: T -> RowId, counter: T -> int, rows: seq<Link<RowId>>)
  {
    forall i :: 0 <= i < |items| ==> counter(items[i]) == SubjectRows(rows, id(items[i]))
  }

  /** At most one row per (item, user): the "check, then create" of likes and saves. */
  ghost predicate AtMostOnePerPair(rows: seq<Link<RowId>>)
  {
    forall k, u :: PairRows(rows, k, u) <= 1
  }

  /** A like: a new row for (k, u) and the counter of item k one higher keeps the
      counters exact. */
  lemma CountedAfterLike<T>(items: seq<T>, id: T -> RowId, counter: T -> int, rows: seq<Link<RowId>>,
                            i: nat, x: T, u: UserId, now: nat)
    requires Counted(items, id, counter, rows) && DistinctIds(items, id)
    requires i < |items| && id(x) == id(items[i]) && counter(x) == counter(items[i]) + 1
    ensures Counted(items[i := x], id, counter, rows + [Link(id(x), u, now)])
  {
    var items' := items[i := x];
    forall j | 0 <= j < |items'|
      ensures counter(items'[j]) == SubjectRows(rows + [Link(id(x), u, now)], id(items'[j]))
    {
      SubjectRowsAppend(rows, Link(id(x), u, now), id(items[j]));
    }
  }

  /** An unlike: deleting the rows of (k, u) and lowering the counter of item k by the
      number of rows deleted keeps the counters exact. */
  lemma CountedAfterUnlike<T>(items: seq<T>, id: T -> RowId, counter: T -> int, rows: seq<Link<RowId>>,
                              i: nat, x: T, u: UserId)
    requires Counted(items, id, counter, rows) && DistinctIds(items, id)
    requires i < |items| && id(x) == id(items[i]) && counter(x) == counter(items[i]) - PairRows(rows, id(x), u)
    ensures Counted(items[i := x], id, counter, WithoutPair(rows, id(x), u))
  {
    var items' := items[i := x];
    forall j | 0 <= j < |items'|
      ensures counter(items'[j]) == SubjectRows(WithoutPair(rows, id(x), u), id(items'[j]))
    {
      WithoutPairCounts(rows, id(x), u, id(items[j]), u);
    }
  }

  /** The decrement of an unlike is only right when a row was there: with no row for
      the pair, lowering the counter by one leaves it one below the row count. */
  lemma UnlikeWithoutRowMiscounts<T>(items: seq<T>, id: T -> RowId, counter: T -> int, rows: seq<Link<RowId>>,
                                     i: nat, x: T, u: UserId)
    requires Counted(items, id, counter, rows)
    requires i < |items| && id(x) == id(items[i]) && counter(x) == counter(items[i]) - 1
    requires PairRows(rows, id(x), u) == 0
    ensures !Counted(items[i := x], id, counter, WithoutPair(rows, id(x), u))
    ensures counter(x) == SubjectRows(WithoutPair(rows, id(x), u), id(x)) - 1
  {
    WithoutAbsentPair(rows, id(x), u);
    assert items[i := x][i] == x;
  }

  /** Appending a row for a pair that had none keeps at most one row per pair. */
  lemma AtMostOneAfterAdd(rows: seq<Link<RowId>>, k: RowId, u: UserId, now: nat)
    requires AtMostOnePerPair(rows) && PairRows(rows, k, u) == 0
    ensures AtMostOnePerPair(rows + [Link(k, u, now)])
  {
    forall k2, u2 ensures PairRows(rows + [Link(k, u, now)], k2, u2) <= 1 {
      PairRowsAppend(rows, Link(k, u, now), k2, u2);
    }
  }

  /** Deleting the rows of a pair keeps at most one row per pair, and leaves none for
      that pair. */
  lemma AtMostOneAfterDelete(rows: seq<Link<RowId>>, k: RowId, u: UserId)
    requires AtMostOnePerPair(rows)
    ensures AtMostOnePerPair(WithoutPair(rows, k, u)) && PairRows(WithoutPair(rows, k, u), k, u) == 0
  {
    forall k2, u2 ensures PairRows(WithoutPair(rows, k, u), k2, u2) <= 1 {
      WithoutPairCounts(rows, k, u, k2, u2);
    }
    WithoutPairCounts(rows, k, u, k, u);
  }
}
