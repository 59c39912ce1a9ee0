/** The list computation of the `GongguList` component
    (components/gonggu-list.tsx): the category filter, then a sort by newest
    or by deadline, on a copy of the posts. */
module GongguList {
  import opened Posts
  import opened StableSort

  datatype SortOption = SortLatest | SortDeadline

  datatype ListState = ListState(category: CategorySelection, sort: SortOption)

  /** The component starts on `all`, newest first. */
  const InitialState: ListState := ListState(AllCategories, SortLatest)

  function SortKeyOf(sort: SortOption): Post -> SortKey {
    if sort == SortLatest then LatestKey else DeadlineKey
  }

  /** `filteredAndSorted`: a sorted permutation of the filtered posts. */
  function FilteredAndSorted(posts: seq<Post>, state: ListState): (r: seq<Post>)
    ensures multiset(r) == multiset(FilterByCategory(posts, state.category))
    ensures SortedBy(r, SortKeyOf(state.sort))
  {
    SortBy(FilterByCategory(posts, state.category), SortKeyOf(state.sort))
  }

  /** The latest sort lists posts by non-increasing creation time; posts
      created at the same instant keep their filtered order. */
  lemma LatestSort(posts: seq<Post>, category: CategorySelection, createdAt: int)
    ensures var r := FilteredAndSorted(posts, ListState(category, SortLatest));
            forall i, j :: 0 <= i < j < |r| ==> r[i].createdAt >= r[j].createdAt
    ensures WithKey(FilteredAndSorted(posts, ListState(category, SortLatest)), LatestKey, SortKey(0, -createdAt))
            == WithKey(FilterByCategory(posts, category), LatestKey, SortKey(0, -createdAt))
  {
    LatestOrdered(FilteredAndSorted(posts, ListState(category, SortLatest)));
    SortByStable(FilterByCategory(posts, category), LatestKey, SortKey(0, -createdAt));
  }

  /** The deadline sort lists dated posts first, ascending, and undated posts
      at the back, as the source's comment says. Posts with equal keys (dated
      posts due at the same instant, or the undated ones) keep their filtered
      order. */
  lemma DeadlineSort(posts: seq<Post>, category: CategorySelection, k: SortKey)
    ensures var r := FilteredAndSorted(posts, ListState(category, SortDeadline));
            forall i, j :: 0 <= i < j < |r| && r[j].deadline.Some? ==>
              r[i].deadline.Some? && r[i].deadline.value <= r[j].deadline.value
    ensures WithKey(FilteredAndSorted(posts, ListState(category, SortDeadline)), DeadlineKey, k)
            == WithKey(FilterByCategory(posts, category), DeadlineKey, k)
  {
    DeadlineOrdered(FilteredAndSorted(posts, ListState(category, SortDeadline)));
    SortByStable(FilterByCategory(posts, category), DeadlineKey, k);
  }

  /** Initially every post is shown, newest first. */
  lemma InitialView(posts: seq<Post>)
    ensures var r := FilteredAndSorted(posts, InitialState);
            && multiset(r) == multiset(posts)
            && forall i, j :: 0 <= i < j < |r| ==> r[i].createdAt >= r[j].createdAt
  {
    LatestOrdered(FilteredAndSorted(posts, InitialState));
  }

  /** `기타` keeps exactly the posts in no group, a group exactly its members. */
  lemma CategoryStep(posts: seq<Post>, state: ListState, p: Post)
    ensures multiset(FilteredAndSorted(posts, state))[p]
            == if Keeps(state.category, p) then multiset(posts)[p] else 0
  {
  }
}
