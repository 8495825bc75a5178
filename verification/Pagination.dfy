/** Page arithmetic: normalising a query, and the metadata of a page. */
module Pagination {
  import opened Wrappers

  /** `page` and `limit` are absent where `Number` finds no number in them. */
  datatype Query = Query(page: Option<int>, limit: Option<int>, sortBy: Option<string>, sortOrder: Option<string>)

  datatype Normalized = Normalized(page: int, limit: int, skip: int, sortBy: string, direction: int)

  datatype Meta = Meta(total: int, page: int, limit: int, totalPages: int, hasNext: bool, hasPrev: bool)

  datatype Paginated<T> = Paginated(data: seq<T>, meta: Meta)

  function Max(a: int, b: int): int { if a > b then a else b }

  function Min(a: int, b: int): int { if a < b then a else b }

  /** `Number(x) || otherwise` */
  function NumberOr(x: Option<int>, otherwise: int): int {
    if x.None? || x.value == 0 then otherwise else x.value
  }

  function TextOr(x: Option<string>, otherwise: string): string {
    if x.None? || x.value == "" then otherwise else x.value
  }

  function NormalizePagination(q: Query): Normalized {
    var page := Max(1, NumberOr(q.page, 1));
    var limit := Min(100, Max(1, NumberOr(q.limit, 20)));
    Normalized(page, limit, (page - 1) * limit, TextOr(q.sortBy, "createdAt"), if q.sortOrder == Some("asc") then 1 else -1)
  }

  /** `Math.ceil(total / limit)` */
  function Ceiling(total: int, limit: int): int
    requires limit > 0
  {
    -((-total) / limit)
  }

  function BuildPaginatedResult<T>(data: seq<T>, total: int, page: int, limit: int): Paginated<T>
    requires limit > 0
  {
    var totalPages := Max(1, Ceiling(total, limit));
    Paginated(data, Meta(total, page, limit, totalPages, page < totalPages, page > 1))
  }

  // -------------------------------------------------------------------------------------------

  /** Normalising says exactly which page and limit are used, keeps within bounds, and changes nothing the second
      time. */
  lemma NormalizedIsStable(q: Query)
    ensures var n := NormalizePagination(q);
            && n.page == (if q.page.Some? && q.page.value >= 1 then q.page.value else 1)
            && (q.limit.None? || q.limit.value == 0 ==> n.limit == 20)
            && (q.limit.Some? && q.limit.value < 0 ==> n.limit == 1)
            && (q.limit.Some? && 1 <= q.limit.value <= 100 ==> n.limit == q.limit.value)
            && (q.limit.Some? && q.limit.value > 100 ==> n.limit == 100)
            && n.skip == (n.page - 1) * n.limit && n.skip >= 0
            && n.sortBy == (if q.sortBy in {None, Some("")} then "createdAt" else q.sortBy.value)
            && (n.direction == 1 <==> q.sortOrder == Some("asc")) && n.direction in {1, -1}
            && NormalizePagination(Again(n)) == n
  {
    var n := NormalizePagination(q);
    ProductNonNegative(n.page - 1, n.limit);
  }

  /** A normalised query, asked for again. */
  function Again(n: Normalized): Query {
    Query(Some(n.page), Some(n.limit), Some(n.sortBy), if n.direction == 1 then Some("asc") else None)
  }

  lemma ProductNonNegative(a: int, b: int)
    requires a >= 0 && b >= 0
    ensures a * b >= 0
  {
  }

  /** The number of pages is the least that covers the total. */
  lemma CeilingCovers(total: int, limit: int)
    requires limit > 0
    ensures (Ceiling(total, limit) - 1) * limit < total <= Ceiling(total, limit) * limit
  {
    var c := Ceiling(total, limit);
    assert -total == (-c) * limit + (-total) % limit;
    assert c * limit == total + (-total) % limit;
    assert (c - 1) * limit == c * limit - limit;
  }

  lemma NextMultiple(a: int, b: int, limit: int)
    requires limit > 0 && a < b
    ensures a * limit + limit <= b * limit
  {
    ProductNonNegative(b - a - 1, limit);
    assert b * limit == a * limit + limit + (b - a - 1) * limit;
  }

  /** There is a next page exactly when something lies beyond this one. */
  lemma HasNextMeansMore<T>(data: seq<T>, total: int, page: int, limit: int)
    requires total >= 0 && limit > 0 && page >= 1
    ensures BuildPaginatedResult(data, total, page, limit).meta.hasNext <==> (page - 1) * limit + limit < total
  {
    var c := Ceiling(total, limit);
    CeilingCovers(total, limit);
    assert (page - 1) * limit + limit == page * limit;
    if page < c - 1 {
      NextMultiple(page, c - 1, limit);
    } else if c < page {
      NextMultiple(c, page, limit);
    }
    assert page < Max(1, c) <==> page < c;
  }

  /** What the rest of a page's metadata says: what was given; whether anything lies before the page; and the least
      positive number of pages that hold the total. */
  lemma MetadataMeans<T>(data: seq<T>, total: int, page: int, limit: int)
    requires total >= 0 && limit > 0 && page >= 1
    ensures var r := BuildPaginatedResult(data, total, page, limit);
            && r.data == data && r.meta.total == total && r.meta.page == page && r.meta.limit == limit
            && (r.meta.hasPrev <==> (page - 1) * limit > 0)
            && r.meta.totalPages >= 1 && total <= r.meta.totalPages * limit
            && (r.meta.totalPages > 1 ==> (r.meta.totalPages - 1) * limit < total)
  {
    CeilingCovers(total, limit);
    var c := Ceiling(total, limit);
    if page > 1 { NextMultiple(0, page - 1, limit); } else { assert (page - 1) * limit == 0; }
    if c < 1 { assert c * limit <= limit by { if c < 0 { NextMultiple(c, 0, limit); } } }
  }

  // -------------------------------------------------------------------------------------------
  // Following `hasNext`.

  /** What a collection gives for skip and limit. */
  function Slice<T>(all: seq<T>, skip: nat, limit: nat): seq<T> {
    all[Min(skip, |all|)..Min(skip + limit, |all|)]
  }

  /** Item `k` of a slice is item `skip + k`, and there are as many as there are, up to the limit. */
  lemma SliceAt<T>(all: seq<T>, skip: nat, limit: nat)
    ensures var n := |Slice(all, skip, limit)|;
            && n == (if |all| <= skip then 0 else if |all| - skip < limit then |all| - skip else limit)
            && forall k | 0 <= k < n :: Slice(all, skip, limit)[k] == all[skip + k]
  {
  }

  function PageOf<T>(all: seq<T>, page: int, limit: int): Paginated<T>
    requires page >= 1 && limit > 0
  {
    ProductNonNegative(page - 1, limit);
    BuildPaginatedResult(Slice(all, (page - 1) * limit, limit), |all|, page, limit)
  }

  /** The pages a client sees that starts at one and goes on while there is a next. */
  function Follow<T>(all: seq<T>, page: int, limit: int): (pages: seq<Paginated<T>>)
    requires page >= 1 && limit > 0
    ensures pages != []
    decreases Max(1, Ceiling(|all|, limit)) - page
  {
    var p := PageOf(all, page, limit);
    [p] + if p.meta.hasNext then Follow(all, page + 1, limit) else []
  }

  function Data<T>(pages: seq<Paginated<T>>): seq<T> {
    if pages == [] then [] else pages[0].data + Data(pages[1..])
  }

  lemma Stitch<T>(all: seq<T>, from: nat, to: nat)
    requires from <= to < |all|
    ensures all[from..to] + all[to..] == all[from..]
  {
  }

  /** One page and what comes after it. */
  lemma PageThenRest<T>(all: seq<T>, page: int, limit: int)
    requires page >= 1 && limit > 0 && (page - 1) * limit >= 0
    ensures var p := PageOf(all, page, limit);
            && (p.meta.hasNext ==> (page - 1) * limit <= page * limit < |all|
                                   && p.data + all[page * limit..] == all[(page - 1) * limit..])
            && (!p.meta.hasNext ==> p.data == all[Min((page - 1) * limit, |all|)..])
  {
    var p := PageOf(all, page, limit);
    HasNextMeansMore(p.data, |all|, page, limit);
    assert (page - 1) * limit + limit == page * limit;
    if p.meta.hasNext { Stitch(all, (page - 1) * limit, page * limit); }
  }

  lemma {:induction false} FollowFrom<T>(all: seq<T>, page: int, limit: int)
    requires page >= 1 && limit > 0 && (page - 1) * limit >= 0
    requires page <= Max(1, Ceiling(|all|, limit))
    ensures Data(Follow(all, page, limit)) == all[Min((page - 1) * limit, |all|)..]
    ensures |Follow(all, page, limit)| == Max(1, Ceiling(|all|, limit)) - page + 1
    decreases Max(1, Ceiling(|all|, limit)) - page
  {
    var p := PageOf(all, page, limit);
    var pages := Follow(all, page, limit);
    PageThenRest(all, page, limit);
    if p.meta.hasNext {
      FollowFrom(all, page + 1, limit);
      assert pages[1..] == Follow(all, page + 1, limit);
    } else {
      assert pages[1..] == [] && Data(pages[1..]) == [];
    }
  }

  /** Following `hasNext` from page 1 ends after `totalPages` pages, and their data, one after the other, is the
      whole result: every item once, in order. */
  lemma FollowingVisitsAll<T>(all: seq<T>, limit: int)
    requires limit > 0
    ensures Data(Follow(all, 1, limit)) == all
    ensures |Follow(all, 1, limit)| == PageOf(all, 1, limit).meta.totalPages
  {
    assert (1 - 1) * limit == 0;
    FollowFrom(all, 1, limit);
  }

  // -------------------------------------------------------------------------------------------
  // Pages that do not come from one and the same sequence: each query may find items in another order.

  /** Where page `i + 1` starts. */
  function Start(i: nat, limit: nat): nat {
    i * limit
  }

  function PageData<T>(all: seq<T>, limit: nat, i: nat): seq<T> {
    Slice(all, Start(i, limit), limit)
  }

  /** The data of pages `i + 1`, `i + 2` and so on, one after the other. */
  function Shown<T>(orders: seq<seq<T>>, limit: nat, i: nat): seq<T>
    requires i <= |orders|
    decreases |orders| - i
  {
    if i == |orders| then [] else PageData(orders[i], limit, i) + Shown(orders, limit, i + 1)
  }

  lemma ShownFirst<T>(orders: seq<seq<T>>, limit: nat, i: nat)
    requires i < |orders|
    ensures Shown(orders, limit, i) == PageData(orders[i], limit, i) + Shown(orders, limit, i + 1)
  {
  }

  lemma StartNext(i: nat, limit: nat)
    ensures Start(i + 1, limit) == Start(i, limit) + limit
  {
  }

  /** `totalPages` pages, at least one, reach to the end. */
  lemma PagesReach<T>(data: seq<T>, total: nat, limit: nat)
    requires limit > 0
    ensures var pages := BuildPaginatedResult(data, total, 1, limit).meta.totalPages;
            pages > 0 && total <= Start(pages, limit)
  {
    CeilingCovers(total, limit);
    var c := Ceiling(total, limit);
    if c >= 0 { StartGrows(c, Max(1, c), limit); }
  }

  lemma {:induction false} ShownFrom<T>(orders: seq<seq<T>>, limit: nat, i: nat, all: seq<T>)
    requires i <= |orders| && |all| <= Start(|orders|, limit)
    requires forall j | i <= j < |orders| :: orders[j] == all
    ensures Shown(orders, limit, i) == all[Min(Start(i, limit), |all|)..]
    decreases |orders| - i
  {
    if i < |orders| {
      StartNext(i, limit);
      ShownFrom(orders, limit, i + 1, all);
      if Start(i + 1, limit) < |all| { Stitch(all, Start(i, limit), Start(i + 1, limit)); }
    }
  }

  lemma Join<T>(all: seq<T>, a: nat, b: nat, c: nat)
    requires a <= b <= c <= |all|
    ensures all[a..b] + all[b..c] == all[a..c]
  {
  }

  lemma FullPage<T>(all: seq<T>, limit: nat, i: nat)
    requires Start(i + 1, limit) <= |all|
    ensures Start(i, limit) <= Start(i + 1, limit) && PageData(all, limit, i) == all[Start(i, limit)..Start(i + 1, limit)]
  {
    StartNext(i, limit);
  }

  lemma {:induction false} ShownPrefix<T>(orders: seq<seq<T>>, limit: nat, i: nat, upto: nat, all: seq<T>)
    requires i <= upto <= |orders| && Start(i, limit) <= Start(upto, limit) <= |all|
    requires forall j | i <= j < upto :: orders[j] == all
    ensures Shown(orders, limit, i) == all[Start(i, limit)..Start(upto, limit)] + Shown(orders, limit, upto)
    decreases upto - i
  {
    if i < upto {
      StartGrows(i + 1, upto, limit);
      ShownPrefix(orders, limit, i + 1, upto, all);
      ShownFirst(orders, limit, i);
      FullPage(all, limit, i);
      Join(all, Start(i, limit), Start(i + 1, limit), Start(upto, limit));
    }
  }

  lemma StartGrows(i: nat, j: nat, limit: nat)
    requires i <= j
    ensures Start(i, limit) <= Start(j, limit)
  {
    ProductNonNegative(j - i, limit);
    assert Start(j, limit) == Start(i, limit) + (j - i) * limit;
  }
}
