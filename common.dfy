/** Wrappers and sequence helpers shared by every service of the model:
    optional values, service results with the errors the services raise,
    filtering, stable ordering and page windows over query results. */
module Common {

  datatype Option<T> = None | Some(value: T) {
    function GetOr(default: T): T {
      if Some? then value else default
    }
  }

  /** The failures a service call surfaces to its caller. `NotFound` stands for
      Prisma's `findFirstOrThrow`/`findUniqueOrThrow` and for `update`/`delete`
      of a row that does not exist; `Duplicate` for the store's rejection of a
      second row with the same unique key; the others for the Nest exceptions. */
  datatype Error =
    | NotFound
    | Duplicate
    | BadRequest(message: string)
    | Conflict(message: string)
    | Forbidden(message: string)
    | StatusInUse(count: nat)

  datatype Result<T> = Ok(value: T) | Err(error: Error)

  function Min(a: int, b: int): int { if a <= b then a else b }

  /** The elements of `s` that satisfy `p`, in their original order. */
  function Filter<T>(s: seq<T>, p: T -> bool): (r: seq<T>)
    ensures |r| <= |s|
    ensures forall i :: 0 <= i < |r| ==> p(r[i])
  {
    if s == [] then [] else (if p(s[0]) then [s[0]] else []) + Filter(s[1..], p)
  }

  /** Filtering keeps exactly the elements that satisfy `p`. */
  lemma {:induction false} FilterMember<T>(s: seq<T>, p: T -> bool, x: T)
    ensures x in Filter(s, p) <==> x in s && p(x)
  {
    if s != [] {
      FilterMember(s[1..], p, x);
      assert x in s <==> x == s[0] || x in s[1..];
    }
  }

  /** Filtering distributes over concatenation: a left-to-right scan can build
      the filtered sequence one element at a time. */
  lemma {:induction false} FilterAppend<T>(a: seq<T>, b: seq<T>, p: T -> bool)
    ensures Filter(a + b, p) == Filter(a, p) + Filter(b, p)
  {
    if a == [] {
      assert a + b == b;
    } else {
      assert (a + b)[0] == a[0];
      assert (a + b)[1..] == a[1..] + b;
      FilterAppend(a[1..], b, p);
    }
  }

  function Not<T>(p: T -> bool): T -> bool {
    (x: T) => !p(x)
  }

  /** Splitting by a predicate and its complement loses and adds nothing. */
  lemma {:induction false} FilterPartition<T>(s: seq<T>, p: T -> bool)
    ensures multiset(Filter(s, p)) + multiset(Filter(s, Not(p))) == multiset(s)
  {
    if s != [] {
      FilterPartition(s[1..], p);
      assert Filter(s, p) == (if p(s[0]) then [s[0]] else []) + Filter(s[1..], p);
      assert Filter(s, Not(p)) == (if !p(s[0]) then [s[0]] else []) + Filter(s[1..], Not(p));
      assert s == [s[0]] + s[1..];
    }
  }

  /** The index of the first element satisfying `p`, as `findIndex` computes it. */
  function FindIndex<T>(s: seq<T>, p: T -> bool): (r: int)
    ensures -1 <= r < |s|
    ensures r == -1 <==> forall i :: 0 <= i < |s| ==> !p(s[i])
    ensures r >= 0 ==> p(s[r]) && forall i :: 0 <= i < r ==> !p(s[i])
  {
    if s == [] then -1
    else if p(s[0]) then 0
    else var j := FindIndex(s[1..], p); if j == -1 then -1 else j + 1
  }

  /** The first element satisfying `p`, as `find`/`findFirst` return it. */
  function First<T>(s: seq<T>, p: T -> bool): (r: Option<T>)
    ensures r.None? <==> forall i :: 0 <= i < |s| ==> !p(s[i])
    ensures r.Some? ==> r.value in s && p(r.value)
    ensures r.Some? ==> exists i :: 0 <= i < |s| && s[i] == r.value && forall j :: 0 <= j < i ==> !p(s[j])
  {
    var i := FindIndex(s, p);
    if i == -1 then None else Some(s[i])
  }

  // ---------------------------------------------------------------------------
  // Stable ordering (JavaScript's Array.prototype.sort and an `orderBy` over
  // rows that are listed in insertion order)

  ghost predicate SortedBy<T>(s: seq<T>, key: T -> int) {
    forall i, j :: 0 <= i < j < |s| ==> key(s[i]) <= key(s[j])
  }

  /** Inserts `x` before the first element whose key is not smaller, so that
      `x` precedes the elements of equal key already in `s`. */
  function InsertBy<T>(x: T, s: seq<T>, key: T -> int): (r: seq<T>)
    requires SortedBy(s, key)
    ensures |r| == |s| + 1
    ensures multiset(r) == multiset(s) + multiset{x}
    ensures r[0] == (if s == [] || key(x) <= key(s[0]) then x else s[0])
    ensures SortedBy(r, key)
  {
    if s == [] then [x]
    else if key(x) <= key(s[0]) then
      SortedCons(x, s, key);
      [x] + s
    else
      SortedTail(s, key);
      var rest := InsertBy(x, s[1..], key);
      InsertStep(x, s, key, rest);
      [s[0]] + rest
  }

  /** The recursive step of `InsertBy`: the head of `s` goes back in front of
      `x` inserted into the tail. */
  lemma InsertStep<T>(x: T, s: seq<T>, key: T -> int, rest: seq<T>)
    requires SortedBy(s, key) && |s| > 0 && key(s[0]) < key(x)
    requires SortedBy(rest, key) && |rest| > 0 && (rest[0] == x || (|s| > 1 && rest[0] == s[1]))
    requires multiset(rest) == multiset(s[1..]) + multiset{x}
    ensures SortedBy([s[0]] + rest, key)
    ensures multiset([s[0]] + rest) == multiset(s) + multiset{x}
  {
    SortedTail(s, key);
    SortedCons(s[0], rest, key);
    assert s == [s[0]] + s[1..];
  }

  /** The tail of a sorted list is sorted, and its head is no smaller than
      the list's. */
  lemma SortedTail<T>(s: seq<T>, key: T -> int)
    requires SortedBy(s, key) && |s| > 0
    ensures SortedBy(s[1..], key)
    ensures |s| > 1 ==> key(s[0]) <= key(s[1..][0])
  {
    var t := s[1..];
    forall i, j | 0 <= i < j < |t| ensures key(t[i]) <= key(t[j]) {
      assert t[i] == s[i + 1] && t[j] == s[j + 1];
    }
    if |s| > 1 {
      assert t[0] == s[1];
    }
  }

  /** An element no larger than the head of a sorted list can go in front. */
  lemma SortedCons<T>(x: T, s: seq<T>, key: T -> int)
    requires SortedBy(s, key) && (s == [] || key(x) <= key(s[0]))
    ensures SortedBy([x] + s, key)
  {
    var r := [x] + s;
    forall i, j | 0 <= i < j < |r| ensures key(r[i]) <= key(r[j]) {
      assert r[j] == s[j - 1];
      if i > 0 {
        assert r[i] == s[i - 1];
      }
    }
  }

  /** Stable sort by ascending key (a descending order uses the negated key). */
  function SortBy<T>(s: seq<T>, key: T -> int): (r: seq<T>)
    ensures |r| == |s|
    ensures multiset(r) == multiset(s)
    ensures SortedBy(r, key)
  {
    if s == [] then []
    else
      assert s == [s[0]] + s[1..];
      InsertBy(s[0], SortBy(s[1..], key), key)
  }

  /** The position of the first element of least key. */
  function FirstMin<T>(s: seq<T>, key: T -> int): (i: nat)
    requires |s| > 0
    ensures i < |s|
    ensures forall j :: 0 <= j < |s| ==> key(s[i]) <= key(s[j])
    ensures forall j :: 0 <= j < i ==> key(s[j]) > key(s[i])
  {
    if |s| == 1 then 0
    else
      var j := 1 + FirstMin(s[1..], key);
      if key(s[0]) <= key(s[j]) then 0 else j
  }

  /** Stability at the head: the first element after sorting is the earliest
      element of least key in the input. */
  lemma {:induction false} SortByHead<T>(s: seq<T>, key: T -> int)
    requires |s| > 0
    ensures SortBy(s, key)[0] == s[FirstMin(s, key)]
  {
    if |s| > 1 {
      SortByHead(s[1..], key);
      var rest := SortBy(s[1..], key);
      var j := 1 + FirstMin(s[1..], key);
      assert rest[0] == s[j];
    }
  }

  // ---------------------------------------------------------------------------
  // Paging (`skip`/`take` with the `opts.page || 1` and `opts.limit || N` defaults)

  datatype Paged<T> = Paged(data: seq<T>, total: nat, page: nat, limit: nat)

  /** The `take` elements of `s` that follow the first `skip`. */
  function Window<T>(s: seq<T>, skip: nat, take: nat): (r: seq<T>)
    ensures |r| <= take
    ensures |r| == (if skip >= |s| then 0 else Min(take, |s| - skip))
    ensures forall i :: 0 <= i < |r| ==> r[i] == s[skip + i]
  {
    if skip >= |s| then [] else s[skip..skip + Min(take, |s| - skip)]
  }

  /** The number of rows before page `page`: `(page - 1) * limit`. */
  function Offset(page: nat, limit: nat): nat
    requires page >= 1
  {
    if page == 1 then 0 else limit + Offset(page - 1, limit)
  }

  lemma {:induction false} OffsetIsProduct(page: nat, limit: nat)
    requires page >= 1
    ensures Offset(page, limit) == (page - 1) * limit
  {
    if page > 1 {
      OffsetIsProduct(page - 1, limit);
    }
  }

  /** A page of `rows`. A page or limit of 0 stands for "not given" (both are
      falsy for `||`), so it takes the default. */
  function Paginate<T>(rows: seq<T>, page: nat, limit: nat, defaultLimit: nat): (r: Paged<T>)
    requires defaultLimit > 0
    ensures r.page == (if page == 0 then 1 else page)
    ensures r.limit == (if limit == 0 then defaultLimit else limit)
    ensures r.total == |rows|
    ensures |r.data| <= r.limit
    ensures |r.data| == (if Offset(r.page, r.limit) >= |rows| then 0 else Min(r.limit, |rows| - Offset(r.page, r.limit)))
    ensures forall i :: 0 <= i < |r.data| ==> r.data[i] == rows[Offset(r.page, r.limit) + i]
  {
    var p := if page == 0 then 1 else page;
    var l := if limit == 0 then defaultLimit else limit;
    Paged(Window(rows, Offset(p, l), l), |rows|, p, l)
  }

  /** `r` is page `page` of `rows`, `limit` rows per page (the defaults
      standing for 0): the rows from `(page - 1) * limit` on, `limit` of them
      or fewer on the last page, with `total` counting all the rows. */
  ghost predicate IsPageOf<T>(r: Paged<T>, rows: seq<T>, page: nat, limit: nat, defaultLimit: nat) {
    && r.page == (if page == 0 then 1 else page) && r.limit == (if limit == 0 then defaultLimit else limit)
    && r.total == |rows|
    && var off := Offset(r.page, r.limit);
       && |r.data| == (if off >= |rows| then 0 else Min(r.limit, |rows| - off))
       && (forall i :: 0 <= i < |r.data| ==> r.data[i] == rows[off + i])
  }

  lemma PaginateIsPage<T>(rows: seq<T>, page: nat, limit: nat, defaultLimit: nat)
    requires defaultLimit > 0
    ensures IsPageOf(Paginate(rows, page, limit, defaultLimit), rows, page, limit, defaultLimit)
  {
  }

  /** A non-empty page is a contiguous slice of the rows. */
  lemma PageIsSlice<T>(rows: seq<T>, page: nat, limit: nat, defaultLimit: nat)
    requires defaultLimit > 0
    ensures var r := Paginate(rows, page, limit, defaultLimit);
      var off := Offset(r.page, r.limit);
      |r.data| > 0 ==> off + |r.data| <= |rows| && r.data == rows[off..off + |r.data|]
  {
  }

  /** A page of `all` sorted by `key` is in ascending key order. */
  lemma SortedPageOrder<T>(all: seq<T>, key: T -> int, page: nat, limit: nat, defaultLimit: nat)
    requires defaultLimit > 0
    ensures var r := Paginate(SortBy(all, key), page, limit, defaultLimit);
      forall i, j :: 0 <= i < j < |r.data| ==> key(r.data[i]) <= key(r.data[j])
  {
    PageKeepsOrder(SortBy(all, key), key, page, limit, defaultLimit);
  }

  lemma PageKeepsOrder<T>(rows: seq<T>, key: T -> int, page: nat, limit: nat, defaultLimit: nat)
    requires defaultLimit > 0 && SortedBy(rows, key)
    ensures var r := Paginate(rows, page, limit, defaultLimit);
      forall i, j :: 0 <= i < j < |r.data| ==> key(r.data[i]) <= key(r.data[j])
  {
    var r := Paginate(rows, page, limit, defaultLimit);
    var off := Offset(r.page, r.limit);
    forall i, j | 0 <= i < j < |r.data| ensures key(r.data[i]) <= key(r.data[j]) {
      assert r.data[i] == rows[off + i] && r.data[j] == rows[off + j];
    }
  }

  /** A sorted page of the elements of `s` satisfying `p` holds only such elements. */
  lemma PageOf<T>(s: seq<T>, p: T -> bool, key: T -> int, page: nat, limit: nat, defaultLimit: nat, x: T)
    requires defaultLimit > 0
    requires x in Paginate(SortBy(Filter(s, p), key), page, limit, defaultLimit).data
    ensures x in s && p(x)
  {
    var sorted := SortBy(Filter(s, p), key);
    PageMember(sorted, page, limit, defaultLimit, x);
    assert x in multiset(sorted);
    FilterMember(s, p, x);
  }

  /** Every row of a page is a row of the list. */
  lemma PageMember<T>(rows: seq<T>, page: nat, limit: nat, defaultLimit: nat, x: T)
    requires defaultLimit > 0
    requires x in Paginate(rows, page, limit, defaultLimit).data
    ensures x in rows
  {
    var r := Paginate(rows, page, limit, defaultLimit);
    var i :| 0 <= i < |r.data| && r.data[i] == x;
    assert x == rows[Offset(r.page, r.limit) + i];
  }

  // ---------------------------------------------------------------------------
  // Client-side list editing

  /** `s.filter((_, i) => i !== index)`: the list without the element at
      `index`; an index outside the list removes nothing. */
  function WithoutIndex<T>(s: seq<T>, index: int): seq<T> {
    if 0 <= index < |s| then s[..index] + s[index + 1..] else s
  }

  /** Removing an index drops exactly that element and keeps the others in
      order. */
  lemma WithoutIndexExact<T>(s: seq<T>, index: int)
    ensures var r := WithoutIndex(s, index);
      && (0 <= index < |s| ==>
            && |r| == |s| - 1
            && (forall j :: 0 <= j < index ==> r[j] == s[j])
            && (forall j :: index <= j < |r| ==> r[j] == s[j + 1])
            && multiset(r) + multiset{s[index]} == multiset(s))
      && (index < 0 || index >= |s| ==> r == s)
  {
    if 0 <= index < |s| {
      assert s == s[..index] + [s[index]] + s[index + 1..];
    }
  }

  /** Appending an element and then removing the last index gives back the
      list. */
  lemma WithoutLastAppended<T>(s: seq<T>, x: T)
    ensures WithoutIndex(s + [x], |s|) == s
  {
    assert (s + [x])[..|s|] == s;
  }
}
