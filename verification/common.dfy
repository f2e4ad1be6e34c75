/** Vocabulary shared by every service model: the exceptions a service raises, the
    paged results of list endpoints, and the filter / count / order / window steps that
    a store query (`findMany` with `where`, `orderBy`, `skip`, `take`) is made of. */
module Common {

  /** The exceptions a service throws. `StoreError` stands for an error raised by the
      store that the service does not catch, such as an `update` of a row that does not
      exist; it reaches the client as a server error. */
  datatype Error =
    | NotFound
    | BadRequest
    | Forbidden
    | Conflict
    | StoreError

  datatype Result<T> = Ok(value: T) | Err(error: Error)

  datatype Option<T> = None | Some(value: T)

  /** A page of a list endpoint: `{ data, total, skip, take }`. */
  datatype Page<T> = Page(data: seq<T>, total: nat, skip: nat, take: nat)

  function Min(a: nat, b: nat): nat { if a <= b then a else b }

  /** The rows a query returns for `skip` and `take`: the rows at positions
      skip, skip + 1, ... of the ordered result, at most `take` of them. */
  function Window<T>(s: seq<T>, skip: nat, take: nat): (r: seq<T>)
    ensures |r| <= take
    ensures skip + take <= |s| ==> |r| == take
    ensures skip >= |s| ==> r == []
    ensures forall i :: 0 <= i < |r| ==> skip + i < |s| && r[i] == s[skip + i]
  {
    if skip >= |s| then [] else s[skip .. Min(skip + take, |s|)]
  }

  lemma WindowWhole<T>(s: seq<T>, take: nat)
    requires |s| <= take
    ensures Window(s, 0, take) == s
  {
  }

  /** The rows of `s` that satisfy `p`, in their original order. */
  function Filter<T(!new)>(s: seq<T>, p: T -> bool): (r: seq<T>)
    ensures |r| <= |s|
    ensures forall x :: x in r <==> x in s && p(x)
    ensures multiset(r) <= multiset(s)
  {
    if s == [] then []
    else
      assert s == s[..|s| - 1] + [s[|s| - 1]];
      if p(s[|s| - 1]) then Filter(s[..|s| - 1], p) + [s[|s| - 1]]
      else Filter(s[..|s| - 1], p)
  }

  /** The number of rows of `s` that satisfy `p` (a store `count` query). */
  function Count<T>(s: seq<T>, p: T -> bool): nat
  {
    if s == [] then 0
    else Count(s[..|s| - 1], p) + (if p(s[|s| - 1]) then 1 else 0)
  }

  lemma {:induction false} FilterCount<T(!new)>(s: seq<T>, p: T -> bool)
    ensures |Filter(s, p)| == Count(s, p)
  {
    if s != [] {
      FilterCount(s[..|s| - 1], p);
    }
  }

  /** A stricter filter counts no more rows than a looser one. */
  lemma {:induction false} CountMonotone<T>(s: seq<T>, p: T -> bool, q: T -> bool)
    requires forall x :: x in s && p(x) ==> q(x)
    ensures Count(s, p) <= Count(s, q)
  {
    if s != [] {
      assert forall x :: x in s[..|s| - 1] ==> x in s;
      CountMonotone(s[..|s| - 1], p, q);
    }
  }

  lemma {:induction false} CountAppend<T>(s: seq<T>, x: T, p: T -> bool)
    ensures Count(s + [x], p) == Count(s, p) + (if p(x) then 1 else 0)
  {
    assert (s + [x])[..|s|] == s;
  }

  /** A row that satisfies `p` makes the count positive. */
  lemma {:induction false} CountPositive<T>(s: seq<T>, i: nat, p: T -> bool)
    requires i < |s| && p(s[i])
    ensures Count(s, p) > 0
  {
    if i < |s| - 1 {
      CountPositive(s[..|s| - 1], i, p);
    }
  }

  // ---------------------------------------------------------------------------
  // Ordering. An `orderBy` list such as [{likeCount: desc}, {viewCount: desc}] is a
  // sort key: the list of the column values, compared lexicographically, larger first.
  // An ascending column is a descending one on the negated value.
  // ---------------------------------------------------------------------------

  /** Key `a` sorts before or level with key `b` (descending, lexicographic). */
  predicate LexGeq(a: seq<int>, b: seq<int>)
    decreases |a|
  {
    if a == [] || b == [] then b == []
    else if a[0] != b[0] then a[0] > b[0]
    else LexGeq(a[1..], b[1..])
  }

  lemma {:induction false} LexTotal(a: seq<int>, b: seq<int>)
    ensures LexGeq(a, b) || LexGeq(b, a)
    decreases |a|
  {
    if a != [] && b != [] && a[0] == b[0] {
      LexTotal(a[1..], b[1..]);
    }
  }

  lemma {:induction false} LexTrans(a: seq<int>, b: seq<int>, c: seq<int>)
    requires LexGeq(a, b) && LexGeq(b, c)
    ensures LexGeq(a, c)
    decreases |a|
  {
    if a != [] && b != [] && c != [] && a[0] == b[0] && b[0] == c[0] {
      LexTrans(a[1..], b[1..], c[1..]);
    }
  }

  /** Three-column keys compare column by column: the first column decides unless it
      ties, then the second, then the third. */
  lemma LexGeq3(a: seq<int>, b: seq<int>)
    requires |a| == 3 && |b| == 3 && LexGeq(a, b)
    ensures a[0] >= b[0]
    ensures a[0] == b[0] ==> a[1] >= b[1]
    ensures a[0] == b[0] && a[1] == b[1] ==> a[2] >= b[2]
  {
    if a[0] == b[0] {
      assert LexGeq(a[1..], b[1..]);
      if a[1] == b[1] {
        assert LexGeq(a[2..], b[2..]);
      }
    }
  }

  ghost predicate SortedDesc<T>(s: seq<T>, key: T -> seq<int>)
  {
    forall i, j :: 0 <= i < j < |s| ==> LexGeq(key(s[i]), key(s[j]))
  }

  /** A single-column key: rows sorted on `[f(x)]` are sorted on `f` itself. */
  lemma SortedByColumn<T>(s: seq<T>, key: T -> seq<int>, f: T -> int)
    requires SortedDesc(s, key)
    requires forall x :: key(x) == [f(x)]
    ensures forall i, j :: 0 <= i < j < |s| ==> f(s[i]) >= f(s[j])
  {
    forall i, j | 0 <= i < j < |s| ensures f(s[i]) >= f(s[j]) {
      assert LexGeq(key(s[i]), key(s[j]));
      assert key(s[i]) == [f(s[i])] && key(s[j]) == [f(s[j])];
    }
  }

  /** Inserts `x` in front of the first row whose key it reaches. */
  function Insert<T>(x: T, s: seq<T>, key: T -> seq<int>): (r: seq<T>)
    ensures multiset(r) == multiset(s) + multiset{x}
  {
    if s == [] then [x]
    else if LexGeq(key(x), key(s[0])) then [x] + s
    else
      assert s == [s[0]] + s[1..];
      [s[0]] + Insert(x, s[1..], key)
  }

  /** The rows of `s` ordered by `key`, largest key first. */
  function SortDesc<T>(s: seq<T>, key: T -> seq<int>): (r: seq<T>)
    ensures multiset(r) == multiset(s)
  {
    if s == [] then []
    else
      assert s == [s[0]] + s[1..];
      Insert(s[0], SortDesc(s[1..], key), key)
  }

  lemma {:induction false} InsertSorted<T>(x: T, s: seq<T>, key: T -> seq<int>)
    requires SortedDesc(s, key)
    ensures SortedDesc(Insert(x, s, key), key)
  {
    if s == [] {
    } else if LexGeq(key(x), key(s[0])) {
      var r := [x] + s;
      forall i, j | 0 <= i < j < |r| ensures LexGeq(key(r[i]), key(r[j])) {
        if i == 0 && j > 1 {
          LexTrans(key(x), key(s[0]), key(s[j - 1]));
        }
      }
    } else {
      var t := Insert(x, s[1..], key);
      InsertSorted(x, s[1..], key);
      LexTotal(key(x), key(s[0]));
      var r := [s[0]] + t;
      forall i, j | 0 <= i < j < |r| ensures LexGeq(key(r[i]), key(r[j])) {
        if i == 0 {
          var y := t[j - 1];
          assert y in multiset(t);
          assert y == x || y in multiset(s[1..]);
          if y != x {
            var k :| 0 <= k < |s[1..]| && s[1..][k] == y;
            assert s[k + 1] == y;
          }
        }
      }
    }
  }

  lemma {:induction false} SortDescSorted<T>(s: seq<T>, key: T -> seq<int>)
    ensures SortedDesc(SortDesc(s, key), key)
  {
    if s != [] {
      SortDescSorted(s[1..], key);
      InsertSorted(s[0], SortDesc(s[1..], key), key);
    }
  }

  lemma WindowSorted<T>(s: seq<T>, skip: nat, take: nat, key: T -> seq<int>)
    requires SortedDesc(s, key)
    ensures SortedDesc(Window(s, skip, take), key)
  {
    var r := Window(s, skip, take);
    forall i, j | 0 <= i < j < |r| ensures LexGeq(key(r[i]), key(r[j])) {
      assert r[i] == s[skip + i] && r[j] == s[skip + j];
    }
  }

  /** The ordered, windowed result of a query: filter `where`, order by `key`, then
      cut the window. Every row returned matches, comes from the table, and the rows
      are in key order. */
  function Query<T(!new)>(s: seq<T>, where: T -> bool, key: T -> seq<int>, skip: nat, take: nat): (r: seq<T>)
    ensures |r| <= take && |r| <= Count(s, where)
    ensures forall x :: x in r ==> x in s && where(x)
    ensures SortedDesc(r, key)
  {
    var ordered := SortDesc(Filter(s, where), key);
    FilterCount(s, where);
    assert |ordered| == |Filter(s, where)| by {
      assert |multiset(ordered)| == |multiset(Filter(s, where))|;
    }
    SortDescSorted(Filter(s, where), key);
    WindowSorted(ordered, skip, take, key);
    assert forall x :: x in Window(ordered, skip, take) ==> x in multiset(ordered);
    Window(ordered, skip, take)
  }

  /** With the window at the start and wide enough, the query returns every matching
      row, as many times as it occurs in the table. */
  lemma QueryComplete<T(!new)>(s: seq<T>, where: T -> bool, key: T -> seq<int>, take: nat)
    requires Count(s, where) <= take
    ensures multiset(Query(s, where, key, 0, take)) == multiset(Filter(s, where))
  {
    FilterCount(s, where);
    var ordered := SortDesc(Filter(s, where), key);
    assert |ordered| == |Filter(s, where)| by {
      assert |multiset(ordered)| == |multiset(Filter(s, where))|;
    }
    WindowWhole(ordered, take);
  }

  /** A matching row is returned by a query whose window starts at 0 and holds every
      matching row. */
  lemma QueryHas<T(!new)>(s: seq<T>, where: T -> bool, key: T -> seq<int>, take: nat, x: T)
    requires Count(s, where) <= take && x in s && where(x)
    ensures x in Query(s, where, key, 0, take)
  {
    QueryComplete(s, where, key, take);
    assert x in Filter(s, where);
    assert x in multiset(Filter(s, where));
  }
}
