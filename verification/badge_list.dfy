/** The badge grid of components/badges/badge-list.tsx: earned badges first,
    and the count shown in its header. */
module BadgeList {
  import opened Badges
  import Seqs
  import opened StableSort

  /** `earnedSet.has(badge.slug)`. */
  predicate IsEarned(b: Badge, earnedIds: seq<string>) {
    b.slug in earnedIds
  }

  /** The comparator's view of a badge: earned before unearned, ties equal. */
  function EarnedKey(earnedIds: seq<string>): Badge -> SortKey {
    b => if IsEarned(b, earnedIds) then SortKey(0, 0) else SortKey(1, 0)
  }

  /** The comparator of `sortedBadges`: 0 when both or neither are earned,
      otherwise -1 when `a` is the earned one and 1 when `b` is. */
  function EarnedComparator(a: Badge, b: Badge, earnedIds: seq<string>): int {
    var aEarned := IsEarned(a, earnedIds);
    var bEarned := IsEarned(b, earnedIds);
    if aEarned == bEarned then 0 else if aEarned then -1 else 1
  }

  /** The key orders two badges as the comparator does: `a` may precede `b`
      exactly when the comparator does not put `b` first, and the keys are
      equal exactly when the comparator answers 0. */
  lemma EarnedKeyMatchesComparator(a: Badge, b: Badge, earnedIds: seq<string>)
    ensures KeyLe(EarnedKey(earnedIds)(a), EarnedKey(earnedIds)(b)) <==> EarnedComparator(a, b, earnedIds) <= 0
    ensures EarnedKey(earnedIds)(a) == EarnedKey(earnedIds)(b) <==> EarnedComparator(a, b, earnedIds) == 0
  {
  }

  /** The earned badges of `badges`, in their given order. */
  function Earned(badges: seq<Badge>, earnedIds: seq<string>): seq<Badge> {
    Seqs.Filter(badges, b => IsEarned(b, earnedIds))
  }

  /** The unearned badges of `badges`, in their given order. */
  function Unearned(badges: seq<Badge>, earnedIds: seq<string>): seq<Badge> {
    Seqs.Filter(badges, b => !IsEarned(b, earnedIds))
  }

  lemma {:induction false} EarnedWithKey(badges: seq<Badge>, earnedIds: seq<string>)
    ensures WithKey(badges, EarnedKey(earnedIds), SortKey(0, 0)) == Earned(badges, earnedIds)
    ensures WithKey(badges, EarnedKey(earnedIds), SortKey(1, 0)) == Unearned(badges, earnedIds)
  {
    if badges != [] {
      EarnedWithKey(badges[1..], earnedIds);
    }
  }

  /** `sortedBadges`: the stable sort puts the earned badges first and the
      unearned after, each group in its given order. */
  function SortedBadges(badges: seq<Badge>, earnedIds: seq<string>): (r: seq<Badge>)
    ensures multiset(r) == multiset(badges)
    ensures r == Earned(badges, earnedIds) + Unearned(badges, earnedIds)
  {
    var key := EarnedKey(earnedIds);
    var r := SortBy(badges, key);
    SortedTwoKeys(r, key, SortKey(0, 0), SortKey(1, 0));
    SortByStable(badges, key, SortKey(0, 0));
    SortByStable(badges, key, SortKey(1, 0));
    EarnedWithKey(badges, earnedIds);
    r
  }

  /** Every earned badge precedes every unearned one. */
  lemma EarnedFirst(badges: seq<Badge>, earnedIds: seq<string>)
    ensures var r := SortedBadges(badges, earnedIds);
            forall i, j :: 0 <= i < |r| && 0 <= j < |r| && IsEarned(r[j], earnedIds) && !IsEarned(r[i], earnedIds)
              ==> j < i
  {
    var e := Earned(badges, earnedIds);
    var r := SortedBadges(badges, earnedIds);
    forall i | |e| <= i < |r|
      ensures !IsEarned(r[i], earnedIds)
    {
      assert r[i] == Unearned(badges, earnedIds)[i - |e|];
    }
  }

  /** `earnedCount`: how many of the listed badges are earned. */
  function EarnedCount(badges: seq<Badge>, earnedIds: seq<string>): (n: nat)
    ensures n <= |badges|
  {
    |Earned(badges, earnedIds)|
  }

  /** The count depends only on the set of earned ids: repeating an id does
      not inflate it. */
  lemma CountIgnoresDuplicates(badges: seq<Badge>, ids1: seq<string>, ids2: seq<string>)
    requires forall x :: x in ids1 <==> x in ids2
    ensures EarnedCount(badges, ids1) == EarnedCount(badges, ids2)
  {
    Seqs.FilterAgree(badges, b => IsEarned(b, ids1), b => IsEarned(b, ids2));
  }

  /** Ids that are no listed badge's slug do not change the count. */
  lemma CountIgnoresUnknownIds(badges: seq<Badge>, earnedIds: seq<string>, unknown: seq<string>)
    requires forall i :: 0 <= i < |badges| ==> badges[i].slug !in unknown
    ensures EarnedCount(badges, earnedIds + unknown) == EarnedCount(badges, earnedIds)
  {
    Seqs.FilterAgree(badges, b => IsEarned(b, earnedIds + unknown), b => IsEarned(b, earnedIds));
  }

  /** The count is the length of the earned block the grid starts with. */
  lemma CountIsEarnedPrefix(badges: seq<Badge>, earnedIds: seq<string>)
    ensures var r := SortedBadges(badges, earnedIds);
            forall i :: 0 <= i < |r| ==> (i < EarnedCount(badges, earnedIds) <==> IsEarned(r[i], earnedIds))
  {
    var e := Earned(badges, earnedIds);
    var u := Unearned(badges, earnedIds);
    var r := SortedBadges(badges, earnedIds);
    forall i | 0 <= i < |r|
      ensures i < |e| <==> IsEarned(r[i], earnedIds)
    {
      if i < |e| {
        assert r[i] == e[i];
      } else {
        assert r[i] == u[i - |e|];
      }
    }
  }

  datatype BadgeTile = BadgeTile(badge: Badge, earned: bool)

  /** What the component renders: the empty state, or a header `n/total`
      over the tiles in grid order. */
  datatype BadgeListView = EmptyState | Grid(earnedCount: nat, total: nat, tiles: seq<BadgeTile>)

  function Tiles(sorted: seq<Badge>, earnedIds: seq<string>): (tiles: seq<BadgeTile>)
    ensures |tiles| == |sorted|
    ensures forall i :: 0 <= i < |sorted| ==> tiles[i] == BadgeTile(sorted[i], sorted[i].slug in earnedIds)
  {
    if sorted == [] then [] else [BadgeTile(sorted[0], sorted[0].slug in earnedIds)] + Tiles(sorted[1..], earnedIds)
  }

  function Render(badges: seq<Badge>, earnedIds: seq<string>): (v: BadgeListView)
    ensures v.EmptyState? <==> badges == []
    ensures v.Grid? ==> v.total == |v.tiles| == |badges| && v.earnedCount <= v.total
  {
    if |badges| == 0 then EmptyState
    else Grid(EarnedCount(badges, earnedIds), |badges|, Tiles(SortedBadges(badges, earnedIds), earnedIds))
  }

  /** The empty state shows exactly when there are no badges, whatever the
      earned ids; otherwise the header's count is the number of tiles marked
      earned, and they are the first tiles. */
  lemma RenderShape(badges: seq<Badge>, earnedIds: seq<string>)
    ensures Render(badges, earnedIds).EmptyState? <==> badges == []
    ensures var v := Render(badges, earnedIds);
            v.Grid? ==> && v.total == |v.tiles| == |badges|
                        && forall i :: 0 <= i < |v.tiles| ==> (v.tiles[i].earned <==> i < v.earnedCount)
  {
    CountIsEarnedPrefix(badges, earnedIds);
  }
}
