/** The listing rows shared by the list views (a `gonggu_posts` row joined with
    its seller's username and category), the category filter both list views
    apply, and the orders they sort by. Instants are milliseconds. */
module Posts {
  import opened Nullable
  import opened Categories
  import Seqs
  import opened StableSort

  datatype Status = Open | Closed | Upcoming

  datatype Post = Post(id: string, title: string, instagramUrl: string, sellerUsername: string,
                       sellerCategory: Option<string>, price: Option<int>, deadline: Option<int>,
                       status: Status, createdAt: int, viewCount: Option<int>)

  /** A value of the category filter: `all`, one group, or the reserved
      bucket `기타` for posts in no group. */
  datatype CategorySelection = AllCategories | InGroup(group: Group) | NoGroup

  /** The filter button value of a selection. */
  function SelectionValue(sel: CategorySelection): string {
    match sel
    case AllCategories => AllName
    case InGroup(g) => GroupName(g)
    case NoGroup => OtherName
  }

  /** `CATEGORY_GROUPS.some(group => isInCategoryGroup(category, group))`. */
  predicate InSomeGroup(category: Option<string>) {
    exists i :: 0 <= i < |Groups| && IsInGroup(category, Groups[i])
  }

  /** Whether the filter callback keeps a post. */
  predicate Keeps(sel: CategorySelection, p: Post) {
    match sel
    case AllCategories => true
    case InGroup(g) => IsInGroup(p.sellerCategory, g)
    case NoGroup => !InSomeGroup(p.sellerCategory)
  }

  /** The category step of both list views: `all` leaves the list as it is,
      any other selection filters it. */
  function FilterByCategory(posts: seq<Post>, sel: CategorySelection): (r: seq<Post>)
    ensures sel == AllCategories ==> r == posts
    ensures forall i :: 0 <= i < |r| ==> Keeps(sel, r[i])
    ensures forall p :: multiset(r)[p] == if Keeps(sel, p) then multiset(posts)[p] else 0
  {
    if sel == AllCategories then posts
    else
      Seqs.FilterMultiset(posts, p => Keeps(sel, p));
      Seqs.Filter(posts, p => Keeps(sel, p))
  }

  /** Kept posts keep their relative order: filtering a split list is
      filtering each part. */
  lemma FilterByCategoryConcat(a: seq<Post>, b: seq<Post>, sel: CategorySelection)
    ensures FilterByCategory(a + b, sel) == FilterByCategory(a, sel) + FilterByCategory(b, sel)
  {
    if sel != AllCategories {
      Seqs.FilterConcat(a, b, p => Keeps(sel, p));
    }
  }

  /** `CATEGORY_GROUPS.some(...)` holds exactly when the category has a group. */
  lemma InSomeGroupIffGroupOf(category: Option<string>)
    ensures InSomeGroup(category) <==> GroupOf(category).Some?
  {
    var r := GroupOf(category);
    if r.Some? {
      GroupsListed(r.value);
      var i :| 0 <= i < |Groups| && Groups[i] == r.value;
      assert IsInGroup(category, Groups[i]);
    }
  }

  /** `기타` keeps exactly the posts whose category has no group. */
  lemma NoGroupIffNoOwner(p: Post)
    ensures Keeps(NoGroup, p) <==> GroupOf(p.sellerCategory) == None
    ensures Keeps(NoGroup, p) <==> forall g :: !Keeps(InGroup(g), p)
  {
    var c := p.sellerCategory;
    InSomeGroupIffGroupOf(c);
    GroupOfMembership(c, Beauty);
    assert Keeps(NoGroup, p) <==> !InSomeGroup(c);
    forall g
      ensures Keeps(InGroup(g), p) <==> IsInGroup(c, g)
    {
    }
  }

  /** Every post passes exactly one of the five group filters or `기타`. */
  lemma ExactlyOneBucket(p: Post, g: Group, h: Group)
    ensures Keeps(InGroup(g), p) && Keeps(InGroup(h), p) ==> g == h
    ensures Keeps(NoGroup, p) || exists k :: Keeps(InGroup(k), p)
    ensures Keeps(NoGroup, p) ==> !Keeps(InGroup(g), p)
  {
    NoGroupIffNoOwner(p);
    if Keeps(InGroup(g), p) && Keeps(InGroup(h), p) {
      SubLabelsDisjoint(g, h, p.sellerCategory.value);
    }
  }

  /** The deadline order: dated posts first, by ascending deadline, then the
      undated ones. */
  function DeadlineKey(p: Post): SortKey {
    match p.deadline
    case Some(d) => SortKey(0, d)
    case None => SortKey(1, 0)
  }

  /** The latest order: newest `created_at` first. */
  function LatestKey(p: Post): SortKey {
    SortKey(0, -p.createdAt)
  }

  /** What a list sorted in deadline order looks like. */
  lemma DeadlineOrdered(s: seq<Post>)
    requires SortedBy(s, DeadlineKey)
    ensures forall i, j :: 0 <= i < j < |s| && s[j].deadline.Some? ==>
              s[i].deadline.Some? && s[i].deadline.value <= s[j].deadline.value
  {
    forall i, j | 0 <= i < j < |s| && s[j].deadline.Some?
      ensures s[i].deadline.Some? && s[i].deadline.value <= s[j].deadline.value
    {
      assert KeyLe(DeadlineKey(s[i]), DeadlineKey(s[j]));
    }
  }

  /** What a list sorted in latest order looks like. */
  lemma LatestOrdered(s: seq<Post>)
    requires SortedBy(s, LatestKey)
    ensures forall i, j :: 0 <= i < j < |s| ==> s[i].createdAt >= s[j].createdAt
  {
    forall i, j | 0 <= i < j < |s|
      ensures s[i].createdAt >= s[j].createdAt
    {
      assert KeyLe(LatestKey(s[i]), LatestKey(s[j]));
    }
  }

  /** The latest comparator `b.created_at - a.created_at`. */
  function LatestComparator(a: Post, b: Post): int {
    b.createdAt - a.createdAt
  }

  /** The latest key orders two posts as the source's comparator does. */
  lemma LatestKeyMatchesComparator(a: Post, b: Post)
    ensures KeyLe(LatestKey(a), LatestKey(b)) <==> LatestComparator(a, b) <= 0
  {
  }

  /** The deadline comparator as written: an undated `a` sorts after anything,
      else an undated `b` sorts after `a`, else the earlier deadline first. */
  function DeadlineComparatorAsWritten(a: Post, b: Post): int {
    if a.deadline.None? then 1
    else if b.deadline.None? then -1
    else a.deadline.value - b.deadline.value
  }

  /** The comparator is inconsistent: for two undated posts it answers "after"
      both ways round, so ECMAScript leaves the resulting order
      implementation-defined. */
  lemma DeadlineComparatorInconsistent(a: Post, b: Post)
    requires a.deadline.None? && b.deadline.None?
    ensures DeadlineComparatorAsWritten(a, b) > 0 && DeadlineComparatorAsWritten(b, a) > 0
  {
  }

  /** The deadline key is the intended order: it is total and consistent, and
      it agrees with the comparator as written on every pair that is not two
      undated posts, which it treats as equal (so they keep their order). */
  lemma DeadlineKeyMatchesComparator(a: Post, b: Post)
    ensures !(a.deadline.None? && b.deadline.None?) ==>
              (KeyLe(DeadlineKey(a), DeadlineKey(b)) <==> DeadlineComparatorAsWritten(a, b) <= 0)
    ensures a.deadline.None? && b.deadline.None? ==> DeadlineKey(a) == DeadlineKey(b)
    ensures KeyLe(DeadlineKey(a), DeadlineKey(b)) || KeyLe(DeadlineKey(b), DeadlineKey(a))
  {
  }
}
