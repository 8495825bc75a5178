/** The three post listings: filter, newest first, skip and limit, and a total. Posts created at the same time may
    come in any order, and in another one in each query. */
module Listing {
  import opened Wrappers
  import opened Posts
  import Pagination

  datatype Query = ByUser(userId: string) | Public | ByTag(tag: string)

  predicate Selects(q: Query, p: Post) {
    && p.deletedAt.None?
    && match q
       case ByUser(userId) => p.userId == userId
       case Public => p.status == "published"
       case ByTag(tag) => tag in p.tags && p.status == "published"
  }

  function Filter(q: Query, docs: seq<Post>): (r: seq<Post>)
    ensures forall p :: p in r <==> p in docs && Selects(q, p)
  {
    if docs == [] then []
    else (if Selects(q, docs[0]) then [docs[0]] else []) + Filter(q, docs[1..])
  }

  /** `countDocuments` */
  function Count(q: Query, docs: seq<Post>): nat {
    if docs == [] then 0 else (if Selects(q, docs[0]) then 1 else 0) + Count(q, docs[1..])
  }

  predicate NewestFirst(posts: seq<Post>) {
    forall i, j | 0 <= i < j < |posts| :: posts[i].createdAt >= posts[j].createdAt
  }

  /** What a database may answer to the query without skip and limit. */
  ghost predicate IsListing(q: Query, docs: seq<Post>, posts: seq<Post>) {
    NewestFirst(posts) && multiset(posts) == multiset(Filter(q, docs))
  }

  datatype Page = Page(items: seq<Post>, total: nat)

  /** What `findByUser`, `findPublished` and `findByTag` may answer. */
  ghost predicate IsPage(q: Query, docs: seq<Post>, skip: nat, limit: nat, page: Page) {
    page.total == Count(q, docs)
    && exists posts :: IsListing(q, docs, posts) && page.items == Pagination.Slice(posts, skip, limit)
  }

  function Insert(p: Post, sorted: seq<Post>): (r: seq<Post>)
    ensures multiset(r) == multiset{p} + multiset(sorted)
  {
    if sorted == [] || p.createdAt >= sorted[0].createdAt then [p] + sorted
    else
      assert sorted == [sorted[0]] + sorted[1..];
      [sorted[0]] + Insert(p, sorted[1..])
  }

  function Sort(posts: seq<Post>): (r: seq<Post>)
    ensures multiset(r) == multiset(posts)
  {
    if posts == [] then []
    else
      assert posts == [posts[0]] + posts[1..];
      Insert(posts[0], Sort(posts[1..]))
  }

  /** One of the listings. */
  function All(q: Query, docs: seq<Post>): seq<Post> {
    Sort(Filter(q, docs))
  }

  function Find(q: Query, docs: seq<Post>, skip: nat, limit: nat): (page: Page)
    ensures IsPage(q, docs, skip, limit, page)
  {
    AllIsListing(q, docs);
    Page(Pagination.Slice(All(q, docs), skip, limit), Count(q, docs))
  }

  // -------------------------------------------------------------------------------------------
  // What is in a listing.

  function Selected(q: Query, docs: seq<Post>, p: Post): nat {
    if Selects(q, p) then multiset(docs)[p] else 0
  }

  /** Every selected post as often as it is in the collection. */
  lemma {:induction false} FilterKeeps(q: Query, docs: seq<Post>, p: Post)
    ensures multiset(Filter(q, docs))[p] == Selected(q, docs, p) && |Filter(q, docs)| == Count(q, docs)
  {
    if docs != [] {
      assert docs == [docs[0]] + docs[1..];
      FilterKeeps(q, docs[1..], p);
    }
  }

  lemma PrependInOrder(p: Post, sorted: seq<Post>)
    requires NewestFirst(sorted) && forall x | x in sorted :: x.createdAt <= p.createdAt
    ensures NewestFirst([p] + sorted)
  {
    assert forall i | 0 <= i < |sorted| :: sorted[i] in sorted;
  }

  lemma TailInOrder(sorted: seq<Post>)
    requires NewestFirst(sorted) && sorted != []
    ensures NewestFirst(sorted[1..]) && forall x | x in sorted[1..] :: x.createdAt <= sorted[0].createdAt
  {
    assert forall i | 0 <= i < |sorted[1..]| :: sorted[1..][i] == sorted[i + 1];
  }

  lemma InsertMembers(p: Post, sorted: seq<Post>, x: Post)
    ensures x in Insert(p, sorted) <==> x == p || x in sorted
  {
    assert x in Insert(p, sorted) <==> x in multiset(Insert(p, sorted));
    assert x in sorted <==> x in multiset(sorted);
  }

  lemma {:induction false} InsertInOrder(p: Post, sorted: seq<Post>)
    requires NewestFirst(sorted)
    ensures NewestFirst(Insert(p, sorted))
  {
    if sorted != [] {
      TailInOrder(sorted);
      if p.createdAt >= sorted[0].createdAt {
        PrependInOrder(p, sorted);
      } else {
        InsertInOrder(p, sorted[1..]);
        forall x | x in Insert(p, sorted[1..]) ensures x.createdAt <= sorted[0].createdAt {
          InsertMembers(p, sorted[1..], x);
        }
        PrependInOrder(sorted[0], Insert(p, sorted[1..]));
      }
    }
  }

  /** The same posts, newest first, whatever their creation times. */
  lemma {:induction false} SortSorts(posts: seq<Post>)
    ensures NewestFirst(Sort(posts)) && multiset(Sort(posts)) == multiset(posts)
  {
    if posts != [] {
      SortSorts(posts[1..]);
      InsertInOrder(posts[0], Sort(posts[1..]));
    }
  }

  lemma AllIsListing(q: Query, docs: seq<Post>)
    ensures IsListing(q, docs, All(q, docs))
  {
    SortSorts(Filter(q, docs));
  }

  /** What each listing is: posts that are not deleted, an author's own whatever their status, the published ones,
      or the published ones with a tag; none created before a later one. */
  lemma WhatIsListed(q: Query, docs: seq<Post>, posts: seq<Post>)
    requires IsListing(q, docs, posts)
    ensures forall p: Post ::
              (p in posts <==>
                 p in docs && p.deletedAt == None
                 && (match q
                     case ByUser(userId) => p.userId == userId
                     case Public => p.status == "published"
                     case ByTag(tag) => p.status == "published" && tag in p.tags))
    ensures forall i, j | 0 <= i < j < |posts| :: posts[i].createdAt >= posts[j].createdAt
  {
    forall p ensures p in posts <==> p in docs && Selects(q, p) { Listed(q, docs, posts, p); }
  }

  // -------------------------------------------------------------------------------------------
  // How far a listing is determined.

  function Times(posts: seq<Post>): (ts: seq<int>)
    ensures |ts| == |posts| && forall i | 0 <= i < |posts| :: ts[i] == posts[i].createdAt
  {
    seq(|posts|, i requires 0 <= i < |posts| => posts[i].createdAt)
  }

  predicate Descending(ts: seq<int>) {
    forall i, j | 0 <= i < j < |ts| :: ts[i] >= ts[j]
  }

  lemma SameHead(a: seq<int>, b: seq<int>)
    requires Descending(a) && Descending(b) && multiset(a) == multiset(b) && a != []
    ensures b != [] && b[0] == a[0]
  {
    assert a[0] in multiset(b);
    var j :| 0 <= j < |b| && b[j] == a[0];
    assert b[0] in multiset(a);
    var i :| 0 <= i < |a| && a[i] == b[0];
  }

  lemma SameTail<T>(a: seq<T>, b: seq<T>)
    requires multiset(a) == multiset(b) && a != [] && b != [] && a[0] == b[0]
    ensures multiset(a[1..]) == multiset(b[1..])
  {
    assert a == [a[0]] + a[1..] && b == [b[0]] + b[1..];
    assert multiset(a[1..]) == multiset(a) - multiset{a[0]};
    assert multiset(b[1..]) == multiset(b) - multiset{b[0]};
  }

  lemma {:induction false} DescendingUnique(a: seq<int>, b: seq<int>)
    requires Descending(a) && Descending(b) && multiset(a) == multiset(b)
    ensures a == b
    decreases |a|
  {
    if a == [] {
      SameSize(a, b);
    } else {
      SameHead(a, b);
      SameTail(a, b);
      DescendingUnique(a[1..], b[1..]);
      assert a == [a[0]] + a[1..] && b == [b[0]] + b[1..];
    }
  }

  lemma TimesSplit(a: seq<Post>, b: seq<Post>)
    ensures Times(a + b) == Times(a) + Times(b)
  {
  }

  function WithoutAt(b: seq<Post>, j: nat): seq<Post>
    requires j < |b|
  {
    b[..j] + b[j + 1..]
  }

  lemma TimesWithout(b: seq<Post>, j: nat)
    requires j < |b|
    ensures multiset(b) == multiset{b[j]} + multiset(WithoutAt(b, j))
    ensures multiset(Times(b)) == multiset{b[j].createdAt} + multiset(Times(WithoutAt(b, j)))
  {
    var left, right := b[..j], b[j + 1..];
    assert b == left + ([b[j]] + right);
    TimesSplit(left, right);
    TimesSplit(left, [b[j]] + right);
    TimesSplit([b[j]], right);
    assert Times([b[j]]) == [b[j].createdAt];
  }

  lemma Cancel<T>(x: T, a: multiset<T>, b: multiset<T>)
    requires multiset{x} + a == multiset{x} + b
    ensures a == b
  {
    assert (multiset{x} + a) - multiset{x} == a && (multiset{x} + b) - multiset{x} == b;
  }

  lemma Position(b: seq<Post>, p: Post) returns (j: nat)
    requires p in multiset(b)
    ensures j < |b| && b[j] == p
  {
    j :| 0 <= j < |b| && b[j] == p;
  }

  lemma {:induction false} SamePostsSameTimes(a: seq<Post>, b: seq<Post>)
    requires multiset(a) == multiset(b)
    ensures multiset(Times(a)) == multiset(Times(b))
    decreases |a|
  {
    SameSize(a, b);
    if a != [] {
      assert a[0] in multiset(a);
      var j := Position(b, a[0]);
      TimesWithout(a, 0);
      TimesWithout(b, j);
      Cancel(a[0], multiset(WithoutAt(a, 0)), multiset(WithoutAt(b, j)));
      SamePostsSameTimes(WithoutAt(a, 0), WithoutAt(b, j));
    }
  }

  /** Two listings of one query have the same creation times in the same places. */
  lemma ListingsAgree(q: Query, docs: seq<Post>, a: seq<Post>, b: seq<Post>)
    requires IsListing(q, docs, a) && IsListing(q, docs, b)
    ensures Times(a) == Times(b) && |a| == |b| == Count(q, docs)
  {
    SamePostsSameTimes(a, b);
    DescendingUnique(Times(a), Times(b));
    SameSize(a, Filter(q, docs));
    FilterSize(q, docs);
  }

  lemma SameSize<T>(a: seq<T>, b: seq<T>)
    requires multiset(a) == multiset(b)
    ensures |a| == |b|
  {
    assert |a| == |multiset(a)| == |multiset(b)| == |b|;
  }

  lemma Listed(q: Query, docs: seq<Post>, posts: seq<Post>, p: Post)
    requires IsListing(q, docs, posts)
    ensures p in posts <==> p in docs && Selects(q, p)
  {
    assert p in posts <==> p in multiset(posts);
    assert p in Filter(q, docs) <==> p in multiset(Filter(q, docs));
  }

  lemma {:induction false} FilterSize(q: Query, docs: seq<Post>)
    ensures |Filter(q, docs)| == Count(q, docs)
  {
    if docs != [] { FilterSize(q, docs[1..]); }
  }

  predicate TieFree(posts: seq<Post>) {
    forall p, r | p in posts && r in posts && p.createdAt == r.createdAt :: p == r
  }

  function Swapped(posts: seq<Post>, i: nat, j: nat): seq<Post>
    requires i < |posts| && j < |posts|
  {
    posts[i := posts[j]][j := posts[i]]
  }

  /** Posts created at the same time may change places. */
  lemma SwapIsListing(q: Query, docs: seq<Post>, posts: seq<Post>, i: nat, j: nat)
    requires IsListing(q, docs, posts) && i < j < |posts| && posts[i].createdAt == posts[j].createdAt
    ensures IsListing(q, docs, Swapped(posts, i, j))
  {
    var swapped := Swapped(posts, i, j);
    assert multiset(swapped) == multiset(posts);
    assert Times(swapped) == Times(posts);
    assert forall k | 0 <= k < |posts| :: swapped[k].createdAt == Times(swapped)[k];
  }

  /** A query's answer is determined up to the order of posts created at the same time: creation times and
      total are, the total is the number of posts, and the posts themselves are exactly when no two selected
      ones share a creation time. */
  lemma ListingIsUnique(q: Query, docs: seq<Post>)
    ensures IsListing(q, docs, All(q, docs)) && |All(q, docs)| == Count(q, docs)
    ensures forall a | IsListing(q, docs, a) :: Times(a) == Times(All(q, docs))
    ensures (forall a | IsListing(q, docs, a) :: a == All(q, docs)) <==> TieFree(Filter(q, docs))
  {
    var all := All(q, docs);
    AllIsListing(q, docs);
    ListingsAgree(q, docs, all, all);
    forall a | IsListing(q, docs, a) ensures Times(a) == Times(all) && (TieFree(Filter(q, docs)) ==> a == all) {
      ListingsAgree(q, docs, a, all);
      if TieFree(Filter(q, docs)) { TieFreeUnique(q, docs, a, all); }
    }
    if !TieFree(Filter(q, docs)) {
      var other := OtherListing(q, docs);
    }
  }

  lemma TieFreeUnique(q: Query, docs: seq<Post>, a: seq<Post>, b: seq<Post>)
    requires IsListing(q, docs, a) && IsListing(q, docs, b) && TieFree(Filter(q, docs)) && Times(a) == Times(b)
    ensures a == b
  {
    forall i | 0 <= i < |a| ensures a[i] == b[i] {
      assert a[i] in multiset(a) && b[i] in multiset(b);
      assert a[i].createdAt == Times(a)[i] == Times(b)[i] == b[i].createdAt;
    }
  }

  lemma TwoPlaces(posts: seq<Post>, p: Post, r: Post) returns (m: nat, n: nat)
    requires p in multiset(posts) && r in multiset(posts) && p != r
    ensures m < n < |posts| && (posts[m], posts[n]) in {(p, r), (r, p)}
  {
    var i := Position(posts, p);
    var j := Position(posts, r);
    m, n := if i < j then i else j, if i < j then j else i;
  }

  lemma OtherListing(q: Query, docs: seq<Post>) returns (other: seq<Post>)
    requires !TieFree(Filter(q, docs))
    ensures IsListing(q, docs, other) && other != All(q, docs)
  {
    var all := All(q, docs);
    AllIsListing(q, docs);
    var p, r :| p in Filter(q, docs) && r in Filter(q, docs) && p.createdAt == r.createdAt && p != r;
    assert p in multiset(all) && r in multiset(all);
    var m, n := TwoPlaces(all, p, r);
    SwapIsListing(q, docs, all, m, n);
    other := Swapped(all, m, n);
    assert other[m] != all[m];
  }

  // -------------------------------------------------------------------------------------------
  // Tags.

  function Tagged(tag: string, posts: seq<Post>): (r: seq<Post>)
    ensures forall p :: p in r <==> p in posts && tag in p.tags
  {
    if posts == [] then []
    else (if tag in posts[0].tags then [posts[0]] else []) + Tagged(tag, posts[1..])
  }

  lemma {:induction false} TaggedKeeps(tag: string, posts: seq<Post>, p: Post)
    ensures multiset(Tagged(tag, posts))[p] == if tag in p.tags then multiset(posts)[p] else 0
  {
    if posts != [] {
      assert posts == [posts[0]] + posts[1..];
      TaggedKeeps(tag, posts[1..], p);
    }
  }

  lemma {:induction false} TaggedInOrder(tag: string, posts: seq<Post>)
    requires NewestFirst(posts)
    ensures NewestFirst(Tagged(tag, posts))
  {
    if posts != [] {
      var rest := posts[1..];
      assert forall i | 0 <= i < |rest| :: rest[i] == posts[i + 1];
      TaggedInOrder(tag, rest);
      var kept := Tagged(tag, rest);
      forall i | 0 <= i < |kept| ensures kept[i].createdAt <= posts[0].createdAt {
        assert kept[i] in kept && kept[i] in rest;
      }
    }
  }

  /** The posts without the tag. */
  function Untagged(tag: string, posts: seq<Post>): (r: seq<Post>)
    ensures forall p | p in r :: tag !in p.tags
  {
    if posts == [] then []
    else (if tag in posts[0].tags then [] else [posts[0]]) + Untagged(tag, posts[1..])
  }

  lemma {:induction false} TagSplits(tag: string, posts: seq<Post>)
    ensures multiset(Tagged(tag, posts)) + multiset(Untagged(tag, posts)) == multiset(posts)
  {
    if posts != [] {
      assert posts == [posts[0]] + posts[1..];
      TagSplits(tag, posts[1..]);
    }
  }

  /** `some` put among the sorted posts. */
  function Merged(some: seq<Post>, sorted: seq<Post>): (r: seq<Post>)
    ensures multiset(r) == multiset(some) + multiset(sorted)
  {
    if some == [] then sorted
    else
      assert some == [some[0]] + some[1..];
      Insert(some[0], Merged(some[1..], sorted))
  }

  lemma {:induction false} InsertUntagged(tag: string, p: Post, sorted: seq<Post>)
    requires tag !in p.tags
    ensures Tagged(tag, Insert(p, sorted)) == Tagged(tag, sorted)
  {
    if sorted == [] || p.createdAt >= sorted[0].createdAt {
      assert ([p] + sorted)[1..] == sorted;
    } else {
      InsertUntagged(tag, p, sorted[1..]);
      assert Insert(p, sorted)[1..] == Insert(p, sorted[1..]);
    }
  }

  lemma {:induction false} MergeUntagged(tag: string, some: seq<Post>, sorted: seq<Post>)
    requires (forall p | p in some :: tag !in p.tags) && NewestFirst(sorted)
    ensures Tagged(tag, Merged(some, sorted)) == Tagged(tag, sorted) && NewestFirst(Merged(some, sorted))
  {
    if some != [] {
      MergeUntagged(tag, some[1..], sorted);
      InsertUntagged(tag, some[0], Merged(some[1..], sorted));
      InsertInOrder(some[0], Merged(some[1..], sorted));
    }
  }

  lemma {:induction false} AllTagged(tag: string, posts: seq<Post>)
    requires forall p | p in posts :: tag in p.tags
    ensures Tagged(tag, posts) == posts
  {
    if posts != [] {
      AllTagged(tag, posts[1..]);
      assert [posts[0]] + posts[1..] == posts;
    }
  }

  /** The posts of a tag are the public ones that have it. */
  lemma TagFilters(docs: seq<Post>, tag: string)
    ensures multiset(Tagged(tag, Filter(Public, docs))) == multiset(Filter(ByTag(tag), docs))
  {
    forall p ensures multiset(Tagged(tag, Filter(Public, docs)))[p] == multiset(Filter(ByTag(tag), docs))[p] {
      TaggedKeeps(tag, Filter(Public, docs), p);
      FilterKeeps(Public, docs, p);
      FilterKeeps(ByTag(tag), docs, p);
    }
  }

  lemma SameTagged(tag: string, a: seq<Post>, b: seq<Post>)
    requires multiset(a) == multiset(b)
    ensures multiset(Tagged(tag, a)) == multiset(Tagged(tag, b))
  {
    forall p ensures multiset(Tagged(tag, a))[p] == multiset(Tagged(tag, b))[p] {
      TaggedKeeps(tag, a, p);
      TaggedKeeps(tag, b, p);
    }
  }

  /** The public listing with a tag's posts in this order. */
  lemma PublicListingFor(docs: seq<Post>, tag: string, b: seq<Post>) returns (a: seq<Post>)
    requires IsListing(ByTag(tag), docs, b)
    ensures IsListing(Public, docs, a) && Tagged(tag, a) == b
  {
    var others := Untagged(tag, Filter(Public, docs));
    a := Merged(others, b);
    forall p | p in b ensures tag in p.tags { Listed(ByTag(tag), docs, b, p); }
    AllTagged(tag, b);
    TagFilters(docs, tag);
    TagSplits(tag, Filter(Public, docs));
    MergeUntagged(tag, others, b);
  }

  /** The listings of a tag are exactly the public listings with the other posts left out, and the total is the
      number of posts left. */
  lemma TagRefinesPublic(docs: seq<Post>, tag: string)
    ensures forall b :: IsListing(ByTag(tag), docs, b) <==> exists a :: IsListing(Public, docs, a) && Tagged(tag, a) == b
    ensures forall a | IsListing(Public, docs, a) :: Count(ByTag(tag), docs) == |Tagged(tag, a)|
  {
    forall a | IsListing(Public, docs, a)
      ensures IsListing(ByTag(tag), docs, Tagged(tag, a)) && Count(ByTag(tag), docs) == |Tagged(tag, a)|
    {
      TaggedInOrder(tag, a);
      SameTagged(tag, a, Filter(Public, docs));
      TagFilters(docs, tag);
      ListingsAgree(ByTag(tag), docs, Tagged(tag, a), Tagged(tag, a));
    }
    forall b | IsListing(ByTag(tag), docs, b) ensures exists a :: IsListing(Public, docs, a) && Tagged(tag, a) == b {
      var a := PublicListingFor(docs, tag, b);
    }
  }

  // -------------------------------------------------------------------------------------------
  // Pages.

  /** The metadata of a page does not depend on its data. */
  function TotalPages(q: Query, docs: seq<Post>, limit: nat): int
    requires limit > 0
  {
    Pagination.BuildPaginatedResult<Post>([], Count(q, docs), 1, limit).meta.totalPages
  }

  /** One listing for each page that following `hasNext` from the first asks for. */
  ghost predicate Orders(q: Query, docs: seq<Post>, limit: nat, orders: seq<seq<Post>>)
    requires limit > 0
  {
    && |orders| == TotalPages(q, docs, limit)
    && forall i | 0 <= i < |orders| :: IsListing(q, docs, orders[i])
  }

  /** No page ends between two posts created at the same time. */
  predicate CleanCuts(posts: seq<Post>, limit: nat) {
    forall i: nat | i <= |posts| && 0 < Pagination.Start(i, limit) < |posts| ::
      posts[Pagination.Start(i, limit) - 1].createdAt != posts[Pagination.Start(i, limit)].createdAt
  }

  /** A place at which two listings hold the same posts before it. */
  ghost predicate Cut(posts: seq<Post>, n: nat) {
    n == 0 || n >= |posts| || posts[n - 1].createdAt != posts[n].createdAt
  }

  lemma PrefixCounts(a: seq<Post>, b: seq<Post>, n: nat, p: Post)
    requires NewestFirst(a) && 0 < n < |a| && Times(a) == Times(b) && b[n - 1].createdAt != b[n].createdAt
    ensures multiset(a[..n])[p] == if p.createdAt > b[n].createdAt then multiset(a)[p] else 0
  {
    assert a[n].createdAt == Times(a)[n] == Times(b)[n] && a[n - 1].createdAt == Times(a)[n - 1] == Times(b)[n - 1];
    CutCounts(a, n, p);
  }

  lemma CutCounts(a: seq<Post>, n: nat, p: Post)
    requires NewestFirst(a) && 0 < n < |a| && a[n - 1].createdAt != a[n].createdAt
    ensures multiset(a[..n])[p] == if p.createdAt > a[n].createdAt then multiset(a)[p] else 0
  {
    assert a == a[..n] + a[n..];
    if p.createdAt > a[n].createdAt {
      forall i | 0 <= i < |a[n..]| ensures a[n..][i] != p { assert a[n..][i] == a[n + i]; }
      assert p !in multiset(a[n..]);
    } else {
      forall i | 0 <= i < n ensures a[..n][i] != p { assert a[..n][i] == a[i]; }
      assert p !in multiset(a[..n]);
    }
  }

  lemma SamePrefix(a: seq<Post>, b: seq<Post>, n: nat)
    requires NewestFirst(a) && NewestFirst(b) && multiset(a) == multiset(b) && Times(a) == Times(b) && n <= |a|
    requires Cut(b, n)
    ensures multiset(a[..n]) == multiset(b[..n])
  {
    if n == |a| {
      assert a[..n] == a && b[..n] == b;
    } else if n > 0 {
      forall p ensures multiset(a[..n])[p] == multiset(b[..n])[p] {
        PrefixCounts(a, b, n, p);
        PrefixCounts(b, b, n, p);
      }
    }
  }

  lemma BetweenPrefixes(a: seq<Post>, m: nat, n: nat)
    requires m <= n <= |a|
    ensures multiset(a[m..n]) == multiset(a[..n]) - multiset(a[..m])
  {
    assert a[..n] == a[..m] + a[m..n];
  }

  lemma SameSlice(a: seq<Post>, b: seq<Post>, skip: nat, limit: nat)
    requires NewestFirst(a) && NewestFirst(b) && multiset(a) == multiset(b) && Times(a) == Times(b)
    requires Cut(b, skip) && Cut(b, skip + limit)
    ensures multiset(Pagination.Slice(a, skip, limit)) == multiset(Pagination.Slice(b, skip, limit))
  {
    SamePrefixUpTo(a, b, skip);
    SamePrefixUpTo(a, b, skip + limit);
    SliceBetween(a, b, skip, limit);
  }

  lemma SliceBetween(a: seq<Post>, b: seq<Post>, skip: nat, limit: nat)
    requires |a| == |b|
    requires var m := Pagination.Min(skip, |a|); multiset(a[..m]) == multiset(b[..m])
    requires var n := Pagination.Min(skip + limit, |a|); multiset(a[..n]) == multiset(b[..n])
    ensures multiset(Pagination.Slice(a, skip, limit)) == multiset(Pagination.Slice(b, skip, limit))
  {
    var m, n := Pagination.Min(skip, |a|), Pagination.Min(skip + limit, |a|);
    BetweenPrefixes(a, m, n);
    BetweenPrefixes(b, m, n);
  }

  lemma SamePrefixUpTo(a: seq<Post>, b: seq<Post>, n: nat)
    requires NewestFirst(a) && NewestFirst(b) && multiset(a) == multiset(b) && Times(a) == Times(b)
    requires Cut(b, n)
    ensures |a| == |b| && multiset(a[..Pagination.Min(n, |a|)]) == multiset(b[..Pagination.Min(n, |a|)])
  {
    SameSize(a, b);
    SamePrefix(a, b, Pagination.Min(n, |a|));
  }

  /** Pages with the same times, one by one, have the same times together. */
  lemma {:induction false} ShownTimes(orders: seq<seq<Post>>, same: seq<seq<Post>>, limit: nat, i: nat)
    requires i <= |orders| == |same| && forall j | 0 <= j < |orders| :: Times(orders[j]) == Times(same[j])
    ensures Times(Pagination.Shown(orders, limit, i)) == Times(Pagination.Shown(same, limit, i))
    decreases |orders| - i
  {
    if i < |orders| {
      ShownTimes(orders, same, limit, i + 1);
      SliceTimes(orders[i], same[i], Pagination.Start(i, limit), limit);
      TimesSplit(Pagination.PageData(orders[i], limit, i), Pagination.Shown(orders, limit, i + 1));
      TimesSplit(Pagination.PageData(same[i], limit, i), Pagination.Shown(same, limit, i + 1));
    }
  }

  lemma JoinAlike(a: seq<Post>, b: seq<Post>, c: seq<Post>, d: seq<Post>)
    requires multiset(a) == multiset(b) && multiset(c) == multiset(d)
    ensures multiset(a + c) == multiset(b + d)
  {
  }

  /** Pages with the same posts, one by one, have the same posts together. */
  lemma {:induction false} ShownPosts(orders: seq<seq<Post>>, same: seq<seq<Post>>, limit: nat, i: nat)
    requires i <= |orders| == |same|
    requires forall j | 0 <= j < |orders| ::
               multiset(Pagination.PageData(orders[j], limit, j)) == multiset(Pagination.PageData(same[j], limit, j))
    ensures multiset(Pagination.Shown(orders, limit, i)) == multiset(Pagination.Shown(same, limit, i))
    decreases |orders| - i
  {
    if i < |orders| {
      ShownPosts(orders, same, limit, i + 1);
      Pagination.ShownFirst(orders, limit, i);
      Pagination.ShownFirst(same, limit, i);
      JoinAlike(Pagination.PageData(orders[i], limit, i), Pagination.PageData(same[i], limit, i),
                Pagination.Shown(orders, limit, i + 1), Pagination.Shown(same, limit, i + 1));
    }
  }

  lemma SliceTimes(a: seq<Post>, b: seq<Post>, skip: nat, limit: nat)
    requires Times(a) == Times(b)
    ensures Times(Pagination.Slice(a, skip, limit)) == Times(Pagination.Slice(b, skip, limit))
  {
    var x, y := Pagination.Slice(a, skip, limit), Pagination.Slice(b, skip, limit);
    var m := Pagination.Min(skip, |a|);
    assert |x| == |y|;
    forall i | 0 <= i < |x| ensures Times(x)[i] == Times(y)[i] {
      assert Times(x)[i] == Times(a)[m + i] && Times(y)[i] == Times(b)[m + i];
    }
  }

  lemma CutsEverywhere(posts: seq<Post>, limit: nat)
    requires limit > 0
    ensures CleanCuts(posts, limit) <==> forall j: nat :: Cut(posts, Pagination.Start(j, limit))
  {
    forall j: nat | !Cut(posts, Pagination.Start(j, limit)) ensures !CleanCuts(posts, limit) {
      Pagination.ProductNonNegative(j, limit - 1);
      assert Pagination.Start(j, limit) == j + j * (limit - 1);
      assert j <= |posts| && 0 < Pagination.Start(j, limit) < |posts|;
    }
    forall i: nat | i <= |posts| && 0 < Pagination.Start(i, limit) < |posts|
                    && posts[Pagination.Start(i, limit) - 1].createdAt == posts[Pagination.Start(i, limit)].createdAt
      ensures !Cut(posts, Pagination.Start(i, limit))
    {
    }
  }

  function Repeat(posts: seq<Post>, n: nat): (r: seq<seq<Post>>)
    ensures |r| == n && forall i | 0 <= i < n :: r[i] == posts
  {
    seq(n, _ => posts)
  }

  /** Up to page `i` the listing `all`, and from then on the same with the posts around the cut exchanged. */
  lemma ExchangedOrders(q: Query, docs: seq<Post>, limit: nat, i: nat, all: seq<Post>, other: seq<Post>)
    returns (orders: seq<seq<Post>>)
    requires limit > 0 && IsListing(q, docs, all) && IsListing(q, docs, other)
    requires Pagination.Start(i, limit) < Count(q, docs)
    ensures Orders(q, docs, limit, orders) && i <= |orders| && Count(q, docs) <= Pagination.Start(|orders|, limit)
    ensures forall j | 0 <= j < |orders| :: orders[j] == if j < i then all else other
  {
    var pages := TotalPages(q, docs, limit);
    Pagination.PagesReach<Post>([], Count(q, docs), limit);
    if pages < i { Pagination.StartGrows(pages, i, limit); }
    orders := Repeat(all, i) + Repeat(other, pages - i);
  }

  /** Where a page ends between posts created at the same time, the next page may repeat the last of this one. */
  lemma PagesRepeat(q: Query, docs: seq<Post>, limit: nat, i: nat) returns (orders: seq<seq<Post>>)
    requires limit > 0 && UniqueIds(docs)
    requires var all, n := All(q, docs), Pagination.Start(i, limit);
             0 < n < |all| && all[n - 1].createdAt == all[n].createdAt
    ensures Orders(q, docs, limit, orders)
    ensures multiset(Pagination.Shown(orders, limit, 0)) != multiset(All(q, docs))
  {
    var all, n := All(q, docs), Pagination.Start(i, limit);
    ListingIsUnique(q, docs);
    SwapIsListing(q, docs, all, n - 1, n);
    orders := ExchangedOrders(q, docs, limit, i, all, Swapped(all, n - 1, n));
    RepeatedShown(all, n, orders, limit, i);
    DistinctPosts(q, docs);
    ReplacedDiffers(all, n);
  }

  lemma SwappedTail(all: seq<Post>, n: nat)
    requires 0 < n < |all|
    ensures all[0..n] + Swapped(all, n - 1, n)[n..] == all[n := all[n - 1]]
  {
  }

  lemma RepeatedShown(all: seq<Post>, n: nat, orders: seq<seq<Post>>, limit: nat, i: nat)
    requires 0 < n < |all| <= Pagination.Start(|orders|, limit) && n == Pagination.Start(i, limit) && i <= |orders|
    requires forall j | 0 <= j < |orders| :: orders[j] == if j < i then all else Swapped(all, n - 1, n)
    ensures Pagination.Shown(orders, limit, 0) == all[n := all[n - 1]]
  {
    var other := Swapped(all, n - 1, n);
    assert Pagination.Start(0, limit) == 0;
    Pagination.ShownPrefix(orders, limit, 0, i, all);
    Pagination.ShownFrom(orders, limit, i, other);
    SwappedTail(all, n);
  }

  predicate NoneTwice(posts: seq<Post>) {
    forall i, j | 0 <= i < j < |posts| :: posts[i] != posts[j]
  }

  lemma DistinctPosts(q: Query, docs: seq<Post>)
    requires UniqueIds(docs)
    ensures NoneTwice(All(q, docs))
  {
    var all := All(q, docs);
    forall i, j | 0 <= i < j < |all| ensures all[i] != all[j] {
      if all[i] == all[j] {
        FilterKeeps(q, docs, all[i]);
        TwiceCounted(all, i, j);
        OnceCounted(docs, all[i]);
      }
    }
  }

  lemma TwiceCounted(posts: seq<Post>, i: nat, j: nat)
    requires i < j < |posts| && posts[i] == posts[j]
    ensures multiset(posts)[posts[i]] >= 2
  {
    assert posts == posts[..j] + ([posts[j]] + posts[j + 1..]);
    assert posts[i] == posts[..j][i] && posts[i] in posts[..j];
    assert posts[i] in multiset(posts[..j]);
  }

  lemma {:induction false} OnceCounted(docs: seq<Post>, p: Post)
    requires UniqueIds(docs)
    ensures multiset(docs)[p] <= 1
  {
    if docs != [] {
      var rest := docs[1..];
      assert docs == [docs[0]] + rest;
      assert forall i | 0 <= i < |rest| :: rest[i] == docs[i + 1];
      OnceCounted(rest, p);
      if p == docs[0] {
        assert p !in rest;
        assert p !in multiset(rest);
      }
    }
  }

  lemma ReplacedDiffers(all: seq<Post>, n: nat)
    requires 0 < n < |all| && all[n] != all[n - 1]
    ensures multiset(all[n := all[n - 1]]) != multiset(all)
  {
    assert multiset(all[n := all[n - 1]]) == multiset(all) - multiset{all[n]} + multiset{all[n - 1]};
    assert all[n] in multiset(all);
  }

  /** Following `hasNext`, with the order of equals chosen anew for each page: the number of items and their
      creation times are those of the whole listing; every post is shown, and as often as it is there, whatever
      the choices, exactly when no page ends between posts created at the same time; and when none share a
      creation time, it is the listing itself. */
  lemma PagesShowListing(q: Query, docs: seq<Post>, limit: nat)
    requires limit > 0 && UniqueIds(docs)
    ensures forall orders | Orders(q, docs, limit, orders) ::
              && Times(Pagination.Shown(orders, limit, 0)) == Times(All(q, docs))
              && (TieFree(Filter(q, docs)) ==> Pagination.Shown(orders, limit, 0) == All(q, docs))
    ensures (forall orders | Orders(q, docs, limit, orders) ::
               multiset(Pagination.Shown(orders, limit, 0)) == multiset(All(q, docs)))
            <==> CleanCuts(All(q, docs), limit)
  {
    var all := All(q, docs);
    forall orders | Orders(q, docs, limit, orders)
      ensures Times(Pagination.Shown(orders, limit, 0)) == Times(all)
      ensures TieFree(Filter(q, docs)) ==> Pagination.Shown(orders, limit, 0) == all
      ensures CleanCuts(all, limit) ==> multiset(Pagination.Shown(orders, limit, 0)) == multiset(all)
    {
      ShowOrders(q, docs, limit, orders);
    }
    if !CleanCuts(all, limit) {
      var i: nat :| i <= |all| && 0 < Pagination.Start(i, limit) < |all|
                    && all[Pagination.Start(i, limit) - 1].createdAt == all[Pagination.Start(i, limit)].createdAt;
      var orders := PagesRepeat(q, docs, limit, i);
    }
  }

  lemma ShowOrders(q: Query, docs: seq<Post>, limit: nat, orders: seq<seq<Post>>)
    requires limit > 0 && Orders(q, docs, limit, orders)
    ensures var shown, all := Pagination.Shown(orders, limit, 0), All(q, docs);
            && Times(shown) == Times(all)
            && (TieFree(Filter(q, docs)) ==> shown == all)
            && (CleanCuts(all, limit) ==> multiset(shown) == multiset(all))
  {
    var all := All(q, docs);
    var same := Repeat(all, |orders|);
    ListingIsUnique(q, docs);
    ShownAll(q, docs, limit, same);
    forall j | 0 <= j < |orders| ensures Times(orders[j]) == Times(same[j]) { assert IsListing(q, docs, orders[j]); }
    ShownTimes(orders, same, limit, 0);
    if TieFree(Filter(q, docs)) {
      assert orders == same;
    }
    if CleanCuts(all, limit) {
      PagesAlike(q, docs, limit, orders, same);
      ShownPosts(orders, same, limit, 0);
    }
  }

  /** Pages of one and the same listing. */
  lemma ShownAll(q: Query, docs: seq<Post>, limit: nat, same: seq<seq<Post>>)
    requires limit > 0 && Orders(q, docs, limit, same) && same == Repeat(All(q, docs), |same|)
    ensures Pagination.Shown(same, limit, 0) == All(q, docs)
  {
    var all := All(q, docs);
    ListingIsUnique(q, docs);
    Pagination.PagesReach<Post>([], Count(q, docs), limit);
    assert Pagination.Start(0, limit) == 0;
    Pagination.ShownFrom(same, limit, 0, all);
    assert all[0..] == all;
  }

  lemma PagesAlike(q: Query, docs: seq<Post>, limit: nat, orders: seq<seq<Post>>, same: seq<seq<Post>>)
    requires limit > 0 && Orders(q, docs, limit, orders) && same == Repeat(All(q, docs), |orders|)
    requires CleanCuts(All(q, docs), limit)
    ensures forall j | 0 <= j < |orders| ::
              multiset(Pagination.PageData(orders[j], limit, j)) == multiset(Pagination.PageData(same[j], limit, j))
  {
    var all := All(q, docs);
    AllIsListing(q, docs);
    CutsEverywhere(all, limit);
    forall j | 0 <= j < |orders|
      ensures multiset(Pagination.PageData(orders[j], limit, j)) == multiset(Pagination.PageData(same[j], limit, j))
    {
      ListingsAgree(q, docs, orders[j], all);
      PageAlike(orders[j], all, limit, j);
    }
  }

  lemma PageAlike(a: seq<Post>, b: seq<Post>, limit: nat, j: nat)
    requires NewestFirst(a) && NewestFirst(b) && multiset(a) == multiset(b) && Times(a) == Times(b)
    requires forall i: nat :: Cut(b, Pagination.Start(i, limit))
    ensures multiset(Pagination.PageData(a, limit, j)) == multiset(Pagination.PageData(b, limit, j))
  {
    Pagination.StartNext(j, limit);
    assert Cut(b, Pagination.Start(j, limit)) && Cut(b, Pagination.Start(j + 1, limit));
    SameSlice(a, b, Pagination.Start(j, limit), limit);
  }

  // -------------------------------------------------------------------------------------------
  // Soft deletion.

  /** The collection without one post. */
  function Without(docs: seq<Post>, id: string): (r: seq<Post>)
    ensures forall p :: p in r <==> p in docs && p.id != id
  {
    if docs == [] then []
    else (if docs[0].id == id then [] else [docs[0]]) + Without(docs[1..], id)
  }

  lemma CountFirst(q: Query, p: Post, rest: seq<Post>)
    ensures Count(q, [p] + rest) == (if Selects(q, p) then 1 else 0) + Count(q, rest)
  {
    assert ([p] + rest)[1..] == rest;
  }

  lemma {:induction false} CountWithout(q: Query, docs: seq<Post>, id: string)
    requires forall p | p in docs && p.id == id :: !Selects(q, p)
    ensures Count(q, docs) == Count(q, Without(docs, id))
  {
    if docs != [] {
      assert docs[0] in docs && forall p | p in docs[1..] :: p in docs;
      CountWithout(q, docs[1..], id);
      CountFirst(q, docs[0], Without(docs[1..], id));
      assert Without(docs, id) == if docs[0].id == id then Without(docs[1..], id) else [docs[0]] + Without(docs[1..], id);
    }
  }

  /** On no page of any listing, and in no total. */
  ghost predicate Hidden(docs: seq<Post>, id: string) {
    forall q, skip: nat, limit: nat, page | IsPage(q, docs, skip, limit, page) ::
      (forall p | p in page.items :: p.id != id) && page.total == Count(q, Without(docs, id))
  }

  ghost predicate Deleted(docs: seq<Post>, id: string) {
    forall p | p in docs && p.id == id :: p.deletedAt.Some?
  }

  lemma DeletedIsHidden(docs: seq<Post>, id: string)
    requires Deleted(docs, id)
    ensures Hidden(docs, id)
  {
    forall q, skip: nat, limit: nat, page | IsPage(q, docs, skip, limit, page)
      ensures (forall p | p in page.items :: p.id != id) && page.total == Count(q, Without(docs, id))
    {
      var posts :| IsListing(q, docs, posts) && page.items == Pagination.Slice(posts, skip, limit);
      forall p | p in page.items ensures p.id != id {
        assert p in posts;
        Listed(q, docs, posts, p);
      }
      CountWithout(q, docs, id);
    }
  }

  /** What is not deleted is listed with its author's posts. */
  lemma HiddenIsDeleted(docs: seq<Post>, p: Post)
    requires p in docs && p.deletedAt.None?
    ensures !Hidden(docs, p.id)
  {
    var q := ByUser(p.userId);
    AllIsListing(q, docs);
    var page := Find(q, docs, 0, |All(q, docs)|);
    Listed(q, docs, All(q, docs), p);
    assert page.items == All(q, docs);
    assert IsPage(q, docs, 0, |All(q, docs)|, page);
  }

  /** After any serial run, a deleted post is on no page of any listing and in no total exactly when no later
      update has set its `deletedAt` to null again. */
  lemma SoftDeleteIsPermanent(docs: seq<Post>, id: string, at: int, ops: seq<Operation>)
    requires UniqueIds(docs) && Posts.Find(docs, id).Some? && CreatesNew(ops, id)
    ensures Hidden(Run(Applied(docs, Delete(id, at)).0, ops), id) <==> LeftDeleted(ops, id, true)
  {
    var i := Posts.Find(docs, id).value;
    var deleted := Applied(docs, Delete(id, at)).0;
    AppliedToPost(docs, Delete(id, at), id);
    DeletionOverRun(deleted, ops, id);
    var after := Run(deleted, ops);
    IdsStayUnique(deleted, ops, id);
    if after[i].deletedAt.Some? {
      DeletedIsHidden(after, id);
    } else {
      HiddenIsDeleted(after, after[i]);
    }
  }

  /** Only one place has the id. */
  predicate Once(docs: seq<Post>, id: string) {
    forall i, j | 0 <= i < j < |docs| :: !(docs[i].id == id && docs[j].id == id)
  }

  lemma OnceMore(docs: seq<Post>, op: Operation, id: string)
    requires Once(docs, id) && (op.Create? ==> op.id != id)
    ensures Once(Applied(docs, op).0, id)
  {
    assert forall i | 0 <= i < |docs| :: Applied(docs, op).0[i].id == docs[i].id;
  }

  lemma {:induction false} IdsStayUnique(docs: seq<Post>, ops: seq<Operation>, id: string)
    requires Once(docs, id) && CreatesNew(ops, id)
    ensures Once(Run(docs, ops), id)
    decreases |ops|
  {
    if ops != [] {
      IdsStayUnique(docs, ops[..|ops| - 1], id);
      OnceMore(Run(docs, ops[..|ops| - 1]), ops[|ops| - 1], id);
    }
  }

  /** With the data the controller declares, a deletion is permanent. */
  lemma DeclaredSoftDelete(docs: seq<Post>, id: string, at: int, ops: seq<Operation>)
    requires UniqueIds(docs) && Posts.Find(docs, id).Some? && CreatesNew(ops, id)
    requires forall i | 0 <= i < |ops| && ops[i].Update? :: Declared(ops[i].data)
    ensures Hidden(Run(Applied(docs, Delete(id, at)).0, ops), id)
  {
    DeclaredLeavesDeleted(ops, id);
    SoftDeleteIsPermanent(docs, id, at, ops);
  }

  // -------------------------------------------------------------------------------------------
  // Publishing.

  lemma {:induction false} CountWithOne(q: Query, docs: seq<Post>, i: nat)
    requires i < |docs| && UniqueIds(docs) && Selects(q, docs[i])
    ensures Count(q, docs) == Count(q, Without(docs, docs[i].id)) + 1
    decreases |docs|
  {
    var rest := docs[1..];
    assert forall j | 0 <= j < |rest| :: rest[j] == docs[j + 1];
    if i == 0 {
      NothingToLeaveOut(rest, docs[0].id);
      assert Without(docs, docs[0].id) == Without(rest, docs[0].id);
    } else {
      CountWithOne(q, rest, i - 1);
      CountFirst(q, docs[0], Without(rest, docs[i].id));
      assert Without(docs, docs[i].id) == [docs[0]] + Without(rest, docs[i].id);
    }
  }

  lemma {:induction false} NothingToLeaveOut(docs: seq<Post>, id: string)
    requires forall p | p in docs :: p.id != id
    ensures Without(docs, id) == docs
  {
    if docs != [] {
      assert docs[0] in docs;
      NothingToLeaveOut(docs[1..], id);
      assert [docs[0]] + docs[1..] == docs;
    }
  }

  /** Publishing: after an update that sets the status, a post that is not deleted is in every public listing and
      counts in its total. */
  lemma PublishedIsListed(docs: seq<Post>, id: string, data: Fields)
    requires UniqueIds(docs) && Posts.Find(docs, id).Some? && data.status == Some("published")
    requires if data.deletedAt.Some? then data.deletedAt.value.None? else docs[Posts.Find(docs, id).value].deletedAt.None?
    ensures var after := Applied(docs, Update(id, data)).0;
            && (forall posts | IsListing(Public, after, posts) :: exists p: Post | p in posts :: p.id == id)
            && Count(Public, after) == Count(Public, Without(after, id)) + 1
  {
    var i := Posts.Find(docs, id).value;
    var after := Applied(docs, Update(id, data)).0;
    AppliedToPost(docs, Update(id, data), id);
    assert forall j | 0 <= j < |docs| :: after[j].id == docs[j].id;
    CountWithOne(Public, after, i);
    forall posts | IsListing(Public, after, posts) ensures exists p: Post | p in posts :: p.id == id {
      Listed(Public, after, posts, after[i]);
    }
  }
}
