/** The list computation of the `useGongguFilters` hook
    (hooks/use-gonggu-filters.ts): the active tab picks the source list, the
    category filter narrows it, and the deadline tab sorts it. */
module GongguFilters {
  import opened Posts
  import opened StableSort

  /** The hook's state. The tab is any string (`handleTabChange` casts
      whatever it is given); only "trending" and "deadline" are special. */
  datatype FilterState = FilterState(category: CategorySelection, activeTab: string)

  const InitialState: FilterState := FilterState(AllCategories, "latest")

  /** `basePosts`: the trending tab draws from the trending list, every other
      tab from the latest list. */
  function BasePosts(latestPosts: seq<Post>, trendingPosts: seq<Post>, activeTab: string): (r: seq<Post>)
    ensures activeTab == "trending" ==> r == trendingPosts
    ensures activeTab != "trending" ==> r == latestPosts
  {
    if activeTab == "trending" then trendingPosts else latestPosts
  }

  /** `filteredPosts`. */
  function FilteredPosts(latestPosts: seq<Post>, trendingPosts: seq<Post>, state: FilterState): (r: seq<Post>)
    ensures var filtered := FilterByCategory(BasePosts(latestPosts, trendingPosts, state.activeTab), state.category);
            && multiset(r) == multiset(filtered)
            && (state.activeTab != "deadline" ==> r == filtered)
            && (state.activeTab == "deadline" ==> SortedBy(r, DeadlineKey))
  {
    var filtered := FilterByCategory(BasePosts(latestPosts, trendingPosts, state.activeTab), state.category);
    if state.activeTab == "deadline" then SortBy(filtered, DeadlineKey) else filtered
  }

  /** Filtering never adds a post: the result is a sub-multiset of the tab's
      source list, holding every occurrence of each post the filter keeps. */
  lemma FilteredPostsFromSource(latestPosts: seq<Post>, trendingPosts: seq<Post>, state: FilterState)
    ensures var base := BasePosts(latestPosts, trendingPosts, state.activeTab);
            var r := FilteredPosts(latestPosts, trendingPosts, state);
            && multiset(r) <= multiset(base)
            && forall p :: multiset(r)[p] == if Keeps(state.category, p) then multiset(base)[p] else 0
  {
  }

  /** With `all` selected the latest and trending tabs show their source
      list exactly as given. */
  lemma AllShowsSource(latestPosts: seq<Post>, trendingPosts: seq<Post>, tab: string)
    requires tab != "deadline"
    ensures FilteredPosts(latestPosts, trendingPosts, FilterState(AllCategories, tab))
            == if tab == "trending" then trendingPosts else latestPosts
  {
  }

  /** The deadline tab lists dated posts first, by ascending deadline, then
      the undated ones. Posts with equal keys (dated posts due at the same
      instant, or the undated ones) keep their filtered order. */
  lemma DeadlineTab(latestPosts: seq<Post>, trendingPosts: seq<Post>, category: CategorySelection, k: SortKey)
    ensures var r := FilteredPosts(latestPosts, trendingPosts, FilterState(category, "deadline"));
            forall i, j :: 0 <= i < j < |r| && r[j].deadline.Some? ==>
              r[i].deadline.Some? && r[i].deadline.value <= r[j].deadline.value
    ensures var filtered := FilterByCategory(latestPosts, category);
            var r := FilteredPosts(latestPosts, trendingPosts, FilterState(category, "deadline"));
            WithKey(r, DeadlineKey, k) == WithKey(filtered, DeadlineKey, k)
  {
    var r := FilteredPosts(latestPosts, trendingPosts, FilterState(category, "deadline"));
    DeadlineOrdered(r);
    SortByStable(FilterByCategory(latestPosts, category), DeadlineKey, k);
  }
}
