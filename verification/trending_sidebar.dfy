/** The two ranked lists of components/trending-sidebar.tsx: the first five
    trending posts as given, and the five most viewed. */
module TrendingSidebar {
  import opened Posts
  import opened StableSort
  import JsText

  /** How many posts each list shows. */
  const TopCount: nat := 5

  /** `post.view_count ?? 0`. */
  function ViewCount(p: Post): int {
    p.viewCount.GetOr(0)
  }

  /** The popularity order: most viewed first. */
  function PopularKey(p: Post): SortKey {
    SortKey(0, -ViewCount(p))
  }

  /** The popularity comparator `(b.view_count ?? 0) - (a.view_count ?? 0)`. */
  function PopularComparator(a: Post, b: Post): int {
    ViewCount(b) - ViewCount(a)
  }

  lemma PopularKeyMatchesComparator(a: Post, b: Post)
    ensures KeyLe(PopularKey(a), PopularKey(b)) <==> PopularComparator(a, b) <= 0
  {
  }

  /** `topTrending`: the first five posts in the given order. */
  function TopTrending(posts: seq<Post>): (r: seq<Post>)
    ensures r <= posts
    ensures |r| == if |posts| < TopCount then |posts| else TopCount
  {
    if |posts| < TopCount then posts else posts[..TopCount]
  }

  /** `topPopular`: the first five of a copy sorted by views. */
  function TopPopular(posts: seq<Post>): (r: seq<Post>)
    ensures |r| == if |posts| < TopCount then |posts| else TopCount
    ensures multiset(r) <= multiset(posts)
    ensures forall i, j :: 0 <= i < j < |r| ==> ViewCount(r[i]) >= ViewCount(r[j])
    ensures forall p, q :: p in r && q in multiset(posts) - multiset(r) ==> ViewCount(p) >= ViewCount(q)
  {
    var sorted := SortBy(posts, PopularKey);
    var k := if |posts| < TopCount then |posts| else TopCount;
    TopOfSorted(sorted, k);
    sorted[..k]
  }

  lemma TopOfSorted(sorted: seq<Post>, k: nat)
    requires k <= |sorted|
    requires SortedBy(sorted, PopularKey)
    ensures multiset(sorted[..k]) <= multiset(sorted)
    ensures forall i, j :: 0 <= i < j < k ==> ViewCount(sorted[i]) >= ViewCount(sorted[j])
    ensures forall p, q :: p in sorted[..k] && q in multiset(sorted) - multiset(sorted[..k])
              ==> ViewCount(p) >= ViewCount(q)
  {
    assert sorted == sorted[..k] + sorted[k..];
    assert multiset(sorted) == multiset(sorted[..k]) + multiset(sorted[k..]);
    forall i, j | 0 <= i < j < k
      ensures ViewCount(sorted[i]) >= ViewCount(sorted[j])
    {
      assert KeyLe(PopularKey(sorted[i]), PopularKey(sorted[j]));
    }
    forall p, q | p in sorted[..k] && q in multiset(sorted) - multiset(sorted[..k])
      ensures ViewCount(p) >= ViewCount(q)
    {
      assert q in multiset(sorted[k..]);
      var i :| 0 <= i < k && sorted[..k][i] == p;
      var j :| 0 <= j < |sorted[k..]| && sorted[k..][j] == q;
      assert KeyLe(PopularKey(sorted[i]), PopularKey(sorted[k + j]));
    }
  }

  /** One row of a list: its post, its 1-based rank, and whether the rank
      badge is highlighted. */
  datatype RankedItem = RankedItem(post: Post, rank: nat, highlighted: bool)

  function Ranked(posts: seq<Post>, offset: nat): (r: seq<RankedItem>)
    ensures |r| == |posts|
    ensures forall i :: 0 <= i < |posts| ==> r[i].post == posts[i] && r[i].rank == offset + i + 1
    ensures forall i :: 0 <= i < |posts| ==> (r[i].highlighted <==> r[i].rank <= 3)
  {
    if posts == [] then []
    else [RankedItem(posts[0], offset + 1, offset + 1 <= 3)] + Ranked(posts[1..], offset + 1)
  }

  datatype SidebarView = SidebarView(trending: seq<RankedItem>, popular: seq<RankedItem>)

  function Sidebar(trendingPosts: seq<Post>): (v: SidebarView)
    ensures |v.trending| == |v.popular| == if |trendingPosts| < TopCount then |trendingPosts| else TopCount
    ensures forall i :: 0 <= i < |v.trending| ==> v.trending[i].post == trendingPosts[i]
    ensures forall i :: 0 <= i < |v.popular| ==> v.popular[i].post in multiset(trendingPosts)
  {
    SidebarView(Ranked(TopTrending(trendingPosts), 0), Ranked(TopPopular(trendingPosts), 0))
  }

  /** Both lists rank from 1 and highlight exactly the first three rows. */
  lemma SidebarRanks(trendingPosts: seq<Post>)
    ensures var v := Sidebar(trendingPosts);
            && |v.trending| <= TopCount && |v.popular| <= TopCount
            && (forall i :: 0 <= i < |v.trending| ==> v.trending[i].rank == i + 1 && (v.trending[i].highlighted <==> i < 3))
            && (forall i :: 0 <= i < |v.popular| ==> v.popular[i].rank == i + 1 && (v.popular[i].highlighted <==> i < 3))
  {
  }
}
