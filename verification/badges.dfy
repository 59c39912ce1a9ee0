/** The badge award engine of lib/badges.ts: a fixed catalogue of badges, each
    earned once a user's activity counter reaches a threshold. */
module Badges {
  import opened Nullable
  import JsText

  /** A user's activity counters; the source does not reject negative values. */
  datatype UserStats = UserStats(postsCreated: int, postsViewed: int, bookmarksCount: int)

  datatype Counter = PostsCreated | PostsViewed | BookmarksCount

  /** A badge condition: the named counter is at least the threshold (inclusive). */
  datatype Condition = AtLeast(counter: Counter, threshold: int)

  /** The award-facing part of a badge: its display data without the rule. */
  datatype Badge = Badge(slug: string, name: string, description: string, icon: string)

  datatype BadgeDefinition = BadgeDefinition(slug: string, name: string, description: string,
                                             icon: string, condition: Condition)

  /** One property of `BADGE_DEFINITIONS`: the key and the definition under it. */
  datatype CatalogueEntry = CatalogueEntry(key: string, definition: BadgeDefinition)

  function CounterValue(stats: UserStats, c: Counter): int {
    match c
    case PostsCreated => stats.postsCreated
    case PostsViewed => stats.postsViewed
    case BookmarksCount => stats.bookmarksCount
  }

  predicate Holds(cond: Condition, stats: UserStats) {
    CounterValue(stats, cond.counter) >= cond.threshold
  }

  function ToBadge(d: BadgeDefinition): Badge {
    Badge(d.slug, d.name, d.description, d.icon)
  }

  /** `BADGE_DEFINITIONS`, in declaration order (the order `Object.entries` visits). */
  const BadgeDefinitions: seq<CatalogueEntry> := [
    CatalogueEntry("first_post", BadgeDefinition("first_post", "첫 공구", "첫 번째 공구를 등록했어요", "🎉",
                                                 AtLeast(PostsCreated, 1))),
    CatalogueEntry("active_poster", BadgeDefinition("active_poster", "활발한 판매자", "공구 5개 이상 등록했어요", "🔥",
                                                    AtLeast(PostsCreated, 5))),
    CatalogueEntry("explorer", BadgeDefinition("explorer", "탐험가", "공구 10개 이상 조회했어요", "🔍",
                                               AtLeast(PostsViewed, 10))),
    CatalogueEntry("collector", BadgeDefinition("collector", "수집가", "찜 5개 이상 저장했어요", "💎",
                                                AtLeast(BookmarksCount, 5)))
  ]

  /** A catalogue is well formed when each key is its definition's slug and no
      slug occurs twice. */
  ghost predicate WellFormed(entries: seq<CatalogueEntry>) {
    && (forall i :: 0 <= i < |entries| ==> entries[i].key == entries[i].definition.slug)
    && (forall i, j :: 0 <= i < j < |entries| ==> entries[i].key != entries[j].key)
  }

  lemma CatalogueWellFormed()
    ensures WellFormed(BadgeDefinitions)
    ensures |BadgeDefinitions| == 4
  {
  }

  /** `BADGE_DEFINITIONS[slug]` over the catalogue's own keys. */
  function Lookup(entries: seq<CatalogueEntry>, key: string): (r: Option<BadgeDefinition>)
    ensures r.Some? ==> CatalogueEntry(key, r.value) in entries
    ensures r.None? ==> forall i :: 0 <= i < |entries| ==> entries[i].key != key
  {
    if entries == [] then None
    else if entries[0].key == key then Some(entries[0].definition)
    else Lookup(entries[1..], key)
  }

  /** `checkBadgeCondition(slug, stats)`: false for a slug that is not a
      catalogue key, whatever the stats. */
  function CheckBadgeCondition(slug: string, stats: UserStats): (r: bool)
    ensures (forall i :: 0 <= i < |BadgeDefinitions| ==> BadgeDefinitions[i].key != slug) ==> !r
    ensures r ==> exists i :: 0 <= i < |BadgeDefinitions| && BadgeDefinitions[i].key == slug
                              && Holds(BadgeDefinitions[i].definition.condition, stats)
  {
    match Lookup(BadgeDefinitions, slug)
    case None => false
    case Some(d) => Holds(d.condition, stats)
  }

  /** Every threshold is inclusive: the boundary value itself qualifies. */
  lemma Thresholds(stats: UserStats)
    ensures CheckBadgeCondition("first_post", stats) <==> stats.postsCreated >= 1
    ensures CheckBadgeCondition("active_poster", stats) <==> stats.postsCreated >= 5
    ensures CheckBadgeCondition("explorer", stats) <==> stats.postsViewed >= 10
    ensures CheckBadgeCondition("collector", stats) <==> stats.bookmarksCount >= 5
  {
  }

  /** Whether the loop of `getBadgesToAward` pushes this entry's badge. */
  predicate Awards(e: CatalogueEntry, stats: UserStats, earned: seq<string>) {
    e.key !in earned && Holds(e.definition.condition, stats)
  }

  /** The badges of `entries` not yet earned whose condition holds, in order. */
  function AwardFrom(entries: seq<CatalogueEntry>, stats: UserStats, earned: seq<string>): (r: seq<Badge>)
    ensures |r| <= |entries|
    ensures forall b :: b in r ==> exists i :: 0 <= i < |entries| && Awards(entries[i], stats, earned)
                                               && b == ToBadge(entries[i].definition)
    ensures forall i :: 0 <= i < |entries| && Awards(entries[i], stats, earned) ==> ToBadge(entries[i].definition) in r
  {
    if entries == [] then []
    else
      var rest := AwardFrom(entries[1..], stats, earned);
      assert forall i :: 1 <= i < |entries| ==> entries[i] == entries[1..][i - 1];
      (if Awards(entries[0], stats, earned) then [ToBadge(entries[0].definition)] else []) + rest
  }

  /** Award order follows catalogue order: the awards of a split catalogue are
      the awards of the first part followed by those of the second. */
  lemma {:induction false} AwardFromConcat(a: seq<CatalogueEntry>, b: seq<CatalogueEntry>, stats: UserStats,
                                           earned: seq<string>)
    ensures AwardFrom(a + b, stats, earned) == AwardFrom(a, stats, earned) + AwardFrom(b, stats, earned)
  {
    if a == [] {
      assert a + b == b;
    } else {
      assert (a + b)[0] == a[0];
      assert (a + b)[1..] == a[1..] + b;
      AwardFromConcat(a[1..], b, stats, earned);
    }
  }

  /** The loop of `getBadgesToAward` over a catalogue: skip badges already
      earned, push those whose condition holds. */
  method AwardLoop(entries: seq<CatalogueEntry>, stats: UserStats, earned: seq<string>) returns (newBadges: seq<Badge>)
    ensures newBadges == AwardFrom(entries, stats, earned)
  {
    newBadges := [];
    var n := 0;
    while n < |entries|
      invariant n <= |entries|
      invariant newBadges == AwardFrom(entries[..n], stats, earned)
    {
      var entry := entries[n];
      AwardFromConcat(entries[..n], [entry], stats, earned);
      assert entries[..n + 1] == entries[..n] + [entry];
      if entry.key in earned {
        n := n + 1;
        continue;
      }
      if Holds(entry.definition.condition, stats) {
        newBadges := newBadges + [ToBadge(entry.definition)];
      }
      n := n + 1;
    }
    assert entries[..n] == entries;
  }

  /** `getBadgesToAward(stats, earned)`: the loop over `BADGE_DEFINITIONS`. */
  method GetBadgesToAward(stats: UserStats, earned: seq<string>) returns (newBadges: seq<Badge>)
    ensures newBadges == AwardFrom(BadgeDefinitions, stats, earned)
    ensures forall i :: 0 <= i < |BadgeDefinitions| ==>
              (ToBadge(BadgeDefinitions[i].definition) in newBadges <==> Awards(BadgeDefinitions[i], stats, earned))
  {
    newBadges := AwardLoop(BadgeDefinitions, stats, earned);
    CatalogueWellFormed();
    AwardedIffQualifies(BadgeDefinitions, stats, earned);
  }

  /** In a well-formed catalogue an entry's badge is awarded exactly when the
      entry qualifies (distinct slugs keep one entry's badge from standing in
      for another's). */
  lemma AwardedIffQualifies(entries: seq<CatalogueEntry>, stats: UserStats, earned: seq<string>)
    requires WellFormed(entries)
    ensures forall i :: 0 <= i < |entries| ==>
              (ToBadge(entries[i].definition) in AwardFrom(entries, stats, earned) <==> Awards(entries[i], stats, earned))
  {
    forall i | 0 <= i < |entries| && ToBadge(entries[i].definition) in AwardFrom(entries, stats, earned)
      ensures Awards(entries[i], stats, earned)
    {
      var j :| 0 <= j < |entries| && Awards(entries[j], stats, earned)
               && ToBadge(entries[i].definition) == ToBadge(entries[j].definition);
      assert entries[i].key == entries[j].key;
    }
  }

  function Slugs(bs: seq<Badge>): (r: seq<string>)
    ensures |r| == |bs| && forall i :: 0 <= i < |bs| ==> r[i] == bs[i].slug
  {
    if bs == [] then [] else [bs[0].slug] + Slugs(bs[1..])
  }

  /** No awarded badge is one the user already holds. */
  lemma AwardsAreNew(entries: seq<CatalogueEntry>, stats: UserStats, earned: seq<string>)
    requires WellFormed(entries)
    ensures forall b :: b in AwardFrom(entries, stats, earned) ==> b.slug !in earned
  {
  }

  ghost predicate DistinctSlugs(bs: seq<Badge>) {
    forall i, j :: 0 <= i < j < |bs| ==> bs[i].slug != bs[j].slug
  }

  /** The awarded slugs are pairwise distinct. */
  lemma {:induction false} AwardsDistinct(entries: seq<CatalogueEntry>, stats: UserStats, earned: seq<string>)
    requires WellFormed(entries)
    ensures DistinctSlugs(AwardFrom(entries, stats, earned))
  {
    if entries != [] {
      var tail := entries[1..];
      assert WellFormed(tail) by {
        assert forall i :: 0 <= i < |tail| ==> tail[i] == entries[i + 1];
      }
      AwardsDistinct(tail, stats, earned);
      var rest := AwardFrom(tail, stats, earned);
      var r := AwardFrom(entries, stats, earned);
      if !Awards(entries[0], stats, earned) {
        assert r == rest;
      } else {
        assert r == [ToBadge(entries[0].definition)] + rest;
        forall k | 0 <= k < |rest|
          ensures rest[k].slug != entries[0].definition.slug
        {
          assert rest[k] in rest;
          var m :| 0 <= m < |tail| && Awards(tail[m], stats, earned) && rest[k] == ToBadge(tail[m].definition);
          assert tail[m] == entries[m + 1];
        }
        forall i, j | 0 <= i < j < |r|
          ensures r[i].slug != r[j].slug
        {
          if i > 0 {
            assert r[i] == rest[i - 1] && r[j] == rest[j - 1];
            assert DistinctSlugs(rest);
          } else {
            assert r[0].slug == entries[0].definition.slug;
            assert r[j] == rest[j - 1];
            assert rest[j - 1].slug != entries[0].definition.slug;
          }
        }
      }
    }
  }

  /** Awarding is idempotent: with the awarded slugs added to the earned list,
      a second evaluation on the same stats awards nothing. */
  lemma AwardingIsIdempotent(entries: seq<CatalogueEntry>, stats: UserStats, earned: seq<string>)
    requires WellFormed(entries)
    ensures AwardFrom(entries, stats, earned + Slugs(AwardFrom(entries, stats, earned))) == []
  {
    var first := AwardFrom(entries, stats, earned);
    var again := earned + Slugs(first);
    forall i | 0 <= i < |entries|
      ensures !Awards(entries[i], stats, again)
    {
      if Awards(entries[i], stats, earned) {
        var b := ToBadge(entries[i].definition);
        assert b in first;
        var k :| 0 <= k < |first| && first[k] == b;
        assert Slugs(first)[k] == entries[i].key;
        assert again[|earned| + k] == entries[i].key;
      }
    }
    NothingAwarded(entries, stats, again);
  }

  lemma {:induction false} NothingAwarded(entries: seq<CatalogueEntry>, stats: UserStats, earned: seq<string>)
    requires forall i :: 0 <= i < |entries| ==> !Awards(entries[i], stats, earned)
    ensures AwardFrom(entries, stats, earned) == []
  {
    if entries != [] {
      NothingAwarded(entries[1..], stats, earned);
    }
  }

  /** Zero or negative counters earn nothing. */
  lemma NoActivityNoBadges(stats: UserStats, earned: seq<string>)
    requires stats.postsCreated <= 0 && stats.postsViewed <= 0 && stats.bookmarksCount <= 0
    ensures AwardFrom(BadgeDefinitions, stats, earned) == []
  {
    NothingAwarded(BadgeDefinitions, stats, earned);
  }

  /** The awards of the catalogue are those of its four entries, one at a time. */
  lemma AwardFromCatalogue(stats: UserStats, earned: seq<string>)
    ensures AwardFrom(BadgeDefinitions, stats, earned)
            == AwardFrom([BadgeDefinitions[0]], stats, earned) + AwardFrom([BadgeDefinitions[1]], stats, earned)
               + AwardFrom([BadgeDefinitions[2]], stats, earned) + AwardFrom([BadgeDefinitions[3]], stats, earned)
  {
    var e := BadgeDefinitions;
    assert e == [e[0]] + [e[1]] + [e[2]] + [e[3]];
    AwardFromConcat([e[0]] + [e[1]] + [e[2]], [e[3]], stats, earned);
    AwardFromConcat([e[0]] + [e[1]], [e[2]], stats, earned);
    AwardFromConcat([e[0]], [e[1]], stats, earned);
  }

  lemma AwardOne(e: CatalogueEntry, stats: UserStats, earned: seq<string>)
    ensures AwardFrom([e], stats, earned) == if Awards(e, stats, earned) then [ToBadge(e.definition)] else []
  {
    assert [e][1..] == [];
  }

  /** The badges of a catalogue, in catalogue order. */
  function AllBadges(entries: seq<CatalogueEntry>): (r: seq<Badge>)
    ensures |r| == |entries| && forall i :: 0 <= i < |entries| ==> r[i] == ToBadge(entries[i].definition)
  {
    if entries == [] then [] else [ToBadge(entries[0].definition)] + AllBadges(entries[1..])
  }

  /** When every entry qualifies, every badge is awarded, in catalogue order. */
  lemma {:induction false} EveryEntryAwarded(entries: seq<CatalogueEntry>, stats: UserStats, earned: seq<string>)
    requires forall i :: 0 <= i < |entries| ==> Awards(entries[i], stats, earned)
    ensures AwardFrom(entries, stats, earned) == AllBadges(entries)
  {
    if entries != [] {
      assert Awards(entries[0], stats, earned);
      EveryEntryAwarded(entries[1..], stats, earned);
    }
  }

  /** Counters at every threshold earn all four badges, in catalogue order. */
  lemma AllThresholdsMet()
    ensures AwardFrom(BadgeDefinitions, UserStats(5, 10, 5), []) == AllBadges(BadgeDefinitions)
  {
    EveryEntryAwarded(BadgeDefinitions, UserStats(5, 10, 5), []);
  }

  /** One below each threshold but the first earns only the first badge. */
  lemma OnlyFirstPost()
    ensures AwardFrom(BadgeDefinitions, UserStats(4, 9, 4), []) == [ToBadge(BadgeDefinitions[0].definition)]
  {
    var e := BadgeDefinitions;
    var s := UserStats(4, 9, 4);
    AwardFromCatalogue(s, []);
    AwardOne(e[0], s, []);
    AwardOne(e[1], s, []);
    AwardOne(e[2], s, []);
    AwardOne(e[3], s, []);
  }

  /** What `checkBadgeCondition` yields once inherited property names are
      counted: the call either returns or throws. */
  datatype Evaluation = Returned(value: bool) | ThrewTypeError

  /** `checkBadgeCondition(slug, stats)` as written: `BADGE_DEFINITIONS[slug]`
      also finds the members every object inherits ("toString",
      "constructor", ...), which are truthy and have no `condition`, so the
      call `badge.condition(stats)` throws. */
  function CheckBadgeConditionAsWritten(slug: string, stats: UserStats): (r: Evaluation)
    ensures Lookup(BadgeDefinitions, slug).None? && slug in JsText.InheritedPropertyNames ==> r == ThrewTypeError
    ensures !(Lookup(BadgeDefinitions, slug).None? && slug in JsText.InheritedPropertyNames)
            ==> r == Returned(CheckBadgeCondition(slug, stats))
  {
    match Lookup(BadgeDefinitions, slug)
    case Some(d) => Returned(Holds(d.condition, stats))
    case None => if slug in JsText.InheritedPropertyNames then ThrewTypeError else Returned(false)
  }

  /** The slug "toString" throws in the code as written, where an unknown slug
      is meant to give false. */
  lemma InheritedSlugThrows(stats: UserStats)
    ensures CheckBadgeConditionAsWritten("toString", stats) == ThrewTypeError
    ensures !CheckBadgeCondition("toString", stats)
  {
  }
}
