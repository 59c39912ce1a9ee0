# gonggu — a Dafny model of the listing, badge and request rules

gonggu is a Next.js site that lists Instagram group-buy posts (공구). Sellers
have a category, posts have a deadline, and signed-in users earn badges. This
project models the site's deterministic rules as pure Dafny functions over
immutable data, and proves what those rules promise:

- the badge catalogue and the award engine;
- the category normaliser: five groups, each with a sub-label list and a colour palette;
- the two listing views, which filter by category and sort by newest or by deadline;
- the fixed-window, in-memory rate limiter and its sweep;
- the badge grid: earned badges first, plus a header count;
- the trending sidebar: the first five posts, and the five most viewed;
- the deadline label and urgency flag on a post card;
- the OAuth callback's redirect decision;
- view tracking: the `POST /api/views` handler and the 30-minute de-duplication rule;
- the admin form action;
- the user menu's display name and initials;
- two developer hooks: the compaction reminder and the desktop notification command.

The model leaves some things to the caller, as parameters:

- **Time:** the clock is an integer millisecond value `now`. Where the source
  reads the clock more than once, or leaves a time to the database, one `now`
  stands for all of them (see "## Left out").
- **Outside services:** Supabase and the OAuth code exchange appear only
  through their replies. Those replies are a value, or a `Thrown` value that
  models a JavaScript exception. The view repository differs: it
  never reads the error a query reports (see "## Left out").
- **Mutable state:** the rate-limit map and the view store are explicit
  values. Each call returns the new state.

Shared building blocks:

- `Nullable`: `Option` and JavaScript truthiness for nullable strings.
- `JsText`: the string and number built-ins the source relies on:
  - `trim`, with the ECMAScript white-space set;
  - `parseInt` with radix 10;
  - `String(n)`;
  - `split` and `join`;
  - `slice`;
  - ASCII case mapping;
  - `includes`.
- `Seqs`: an order-preserving filter.
- `StableSort`: a stable insertion sort by a lexicographic key. Each
  comparator of the source becomes a key, and a lemma ties each key to the
  comparator it replaces. `Array.prototype.sort` has been required to be
  stable since ECMAScript 2019.

## Model

| member | source | states |
|---|---|---|
| Badges.CatalogueWellFormed | lib/badges.ts:7-36 | The catalogue has four entries, each entry's key equals its definition's slug, and the keys are distinct. |
| Badges.CheckBadgeCondition | lib/badges.ts:45-51 | A slug that is no catalogue key gives false whatever the stats. True means some entry with that key has a condition that holds. |
| Badges.Thresholds | lib/badges.ts:13-34 | The inclusive thresholds, as iffs: first_post iff postsCreated >= 1, active_poster iff postsCreated >= 5, explorer iff postsViewed >= 10, collector iff bookmarksCount >= 5. |
| Badges.AwardFrom | lib/badges.ts:64-79 | A badge is in the result exactly when it is an entry whose slug is not yet earned and whose condition holds. It carries that definition's slug, name, description and icon. |
| Badges.AwardFromConcat | lib/badges.ts:64-79 | Awarding over a split catalogue is awarding over each part, so the result follows catalogue order. |
| Badges.AwardLoop | lib/badges.ts:64-79 | The skip-earned, push-if-holds loop over any catalogue returns the catalogue's awards in order. |
| Badges.AwardedIffQualifies | lib/badges.ts:64-79 | In a catalogue with distinct slugs, an entry's badge is in the result iff that entry's slug is new and its condition holds. |
| Badges.GetBadgesToAward | lib/badges.ts:61-82 | The loop returns the awards over the whole catalogue. Each definition's badge is present iff its slug is new and its condition holds. |
| Badges.AwardsAreNew | lib/badges.ts:64-68 | No returned badge has an already earned slug. |
| Badges.AwardsDistinct | lib/badges.ts:64-68 | The returned slugs are pairwise distinct. |
| Badges.AwardingIsIdempotent | lib/badges.ts:66-71 | Re-running with the returned slugs added to the earned list awards nothing. |
| Badges.NothingAwarded | lib/badges.ts:64-79 | When no entry qualifies, the result is empty. |
| Badges.NoActivityNoBadges | __tests__/unit/badges.test.ts:239-247 | Zero or negative counters award nothing, whatever was earned. |
| Badges.EveryEntryAwarded | lib/badges.ts:64-79 | When every entry qualifies, the result is every badge of the catalogue, in catalogue order. |
| Badges.AllThresholdsMet | lib/badges.ts:8-35 | Stats (5, 10, 5) with nothing earned award all four badges in catalogue order. |
| Badges.OnlyFirstPost | lib/badges.ts:8-35 | Stats one below each threshold, (4, 9, 4), award only first_post. |
| Badges.CheckBadgeConditionAsWritten | lib/badges.ts:46-50 | An inherited property name such as toString gets past the missing-badge guard and throws a TypeError. Every other slug returns what the corrected check returns. |
| Badges.InheritedSlugThrows | lib/badges.ts:46-50 | "toString" throws as written, while the corrected check answers false. |
| Categories.GroupsListed | lib/categories.ts:94 | Every group is in the group list. |
| Categories.GroupOf | lib/categories.ts:97-107 | A found group lists the label. No group found means no group lists it. |
| Categories.SubLabelsDisjoint | lib/categories.ts:4-10 | A label listed by two groups forces the two groups to be the same, so the sub-label lists are pairwise disjoint. |
| Categories.GroupListsOwnName | lib/categories.ts:4-10 | Every group lists its own name, and looking that name up gives the group. |
| Categories.GroupOfMembership | lib/categories.ts:97-113 | The lookup gives g iff the membership test for g holds. It gives null iff no group's test holds. |
| Categories.NullLabelHasNoGroup | lib/categories.ts:97-111 | A null or empty label has no group and is in no group. |
| Categories.ColorKeyNamed | lib/categories.ts:13-80 | Only the seven colour keys (all, the five groups, 기타) name a palette, and each names its own. |
| Categories.IsInGroup | lib/categories.ts:110-113 | Membership needs a truthy label, and each group contains its own name. GroupOfMembership ties it to the group lookup. |
| Categories.ColorsInjective | lib/categories.ts:13-70 | Different colour keys have different palettes. |
| Categories.CategoryColor | lib/categories.ts:75-90 | The result is always one of the seven palettes, and it is the `all` palette iff the label is "all". |
| Categories.ColorOfNull | lib/categories.ts:75-76 | A null or empty label gets the 기타 palette. |
| Categories.ColorOfKey | lib/categories.ts:79-81 | A colour key gets its own palette. |
| Categories.ColorOfSubLabel | lib/categories.ts:83-87 | A sub-label gets its owning group's palette. |
| Categories.NoListHoldsAllOrOther | lib/categories.ts:4-10 | Neither "all" nor 기타 is a sub-label of any group. |
| Categories.ColorOfUnknown | lib/categories.ts:75-90 | A label that is neither a colour key nor in any group gets the 기타 palette. |
| Categories.ColorKeyNameInjective | lib/categories.ts:13-70 | Reading back a colour key's name gives that key. |
| Categories.CategoryColorAsWritten | lib/categories.ts:79-81 | With JavaScript's `in`, an inherited property name returns that inherited member instead of a palette. Every other label returns the corrected palette. |
| Categories.InheritedNameGetsNoPalette | lib/categories.ts:75-90 | "toString" yields the inherited member as written, and the 기타 palette when corrected. |
| Categories.KnownLabels | lib/categories.ts:4-10 | 스킨케어 and 뷰티 belong to 뷰티, 과일 to 식품, and 의류 to 패션. 스킨케어 is not in 패션. |
| Categories.GroupsAreTheKeys | lib/categories.ts:94 | The group list holds exactly the five map keys, distinct and in declaration order. |
| RateLimit.CheckRateLimit | lib/rate-limit.ts:35-71 | With no window, or an expired one (`resetTime < now`), the call succeeds, stores (1, now + windowMs) and leaves limit - 1. A full window fails with remaining 0 and the window's reset time, and leaves the store unchanged. Otherwise the count rises by one, the reset time is kept and the rest of the limit is reported. Other identifiers are untouched. |
| RateLimit.Sweep | lib/rate-limit.ts:14-21 | Exactly the entries with `resetTime < now` are removed. The others are kept unchanged. |
| RateLimit.SweepInvisible | lib/rate-limit.ts:14-21 | A sweep at or before a later call changes neither that call's result nor its identifier's new entry. |
| RateLimit.AdmittedInOpenWindow | lib/rate-limit.ts:56-70 | Inside one open window, at most limit - count further calls succeed. |
| RateLimit.AtMostLimitPerWindow | lib/rate-limit.ts:43-70 | For limit >= 1, at most limit calls succeed within one window. |
| RateLimit.CountStaysWithinLimit | lib/rate-limit.ts:43-70 | For limit >= 1, a call keeps every stored count at or below the limit. |
| RateLimit.NonPositiveLimit | lib/rate-limit.ts:43-53 | For limit <= 0, the first call of a window still succeeds with remaining limit - 1, and the next call in that window fails. |
| RateLimit.PresetsPerMinute | lib/rate-limit.ts:76-83 | Within one minute, an identifier gets at most 100 view calls, 10 admin calls and 20 auth calls admitted. |
| RateLimit.ThreePerSecond | lib/rate-limit.ts:43-70 | With limit 3 per second, three quick calls succeed with 2, 1, 0 remaining, a fourth at the window's last instant fails, and a call just after the window succeeds again. |
| Posts.FilterByCategory | hooks/use-gonggu-filters.ts:55-66 | `all` returns the list unchanged. Otherwise every kept post passes the selection, and each post the selection keeps appears as often as in the input. |
| Posts.FilterByCategoryConcat | components/gonggu-list.tsx:36-46 | Filtering a concatenation filters each part, so kept posts keep their relative order. |
| Posts.InSomeGroupIffGroupOf | hooks/use-gonggu-filters.ts:58-60 | `CATEGORY_GROUPS.some(isInCategoryGroup)` holds iff the category has a group. |
| Posts.NoGroupIffNoOwner | hooks/use-gonggu-filters.ts:55-61 | 기타 keeps a post iff its category has no group, iff no group filter keeps it. |
| Posts.ExactlyOneBucket | hooks/use-gonggu-filters.ts:55-66 | Every post passes exactly one of the five group filters or 기타. |
| Posts.DeadlineOrdered | hooks/use-gonggu-filters.ts:70-74 | In the deadline order, dated posts come before undated ones, with non-decreasing deadlines. |
| Posts.LatestOrdered | components/gonggu-list.tsx:51-54 | In the latest order, created_at does not increase. |
| Posts.LatestKeyMatchesComparator | components/gonggu-list.tsx:51-54 | `Posts.LatestKey` orders two posts exactly as `b.created_at - a.created_at` does. |
| Posts.DeadlineComparatorInconsistent | hooks/use-gonggu-filters.ts:70-74 | For two undated posts, the comparator as written (`Posts.DeadlineComparatorAsWritten`) answers "after" both ways round. |
| Posts.DeadlineKeyMatchesComparator | hooks/use-gonggu-filters.ts:70-74 | `Posts.DeadlineKey` is total. It agrees with the comparator on every pair except two undated posts, and treats those two as equal. |
| GongguFilters.BasePosts | hooks/use-gonggu-filters.ts:49 | The trending tab takes the trending list; every other tab takes the latest list. |
| GongguFilters.FilteredPosts | hooks/use-gonggu-filters.ts:48-79 | The result is a permutation of the tab's source list after the category filter. It is unchanged off the deadline tab, and in deadline order on it. |
| GongguFilters.FilteredPostsFromSource | hooks/use-gonggu-filters.ts:49-79 | The result is a sub-multiset of the tab's source list, holding every occurrence of each kept post. |
| GongguFilters.AllShowsSource | hooks/use-gonggu-filters.ts:49-67 | With `all` off the deadline tab, the trending tab shows the trending list as given and every other tab shows the latest list. |
| GongguFilters.DeadlineTab | hooks/use-gonggu-filters.ts:69-76 | On the deadline tab, dated posts come first with ascending deadlines, and undated posts follow. For every key, the posts with that key appear in their filtered order: dated posts due at the same instant keep their order, and so do the undated posts. |
| GongguList.FilteredAndSorted | components/gonggu-list.tsx:30-62 | The result is a permutation of the filtered posts, sorted by the chosen order. |
| GongguList.LatestSort | components/gonggu-list.tsx:50-54 | The latest sort gives non-increasing created_at. Posts created at the same instant keep their filtered order. |
| GongguList.DeadlineSort | components/gonggu-list.tsx:55-60 | The deadline sort puts dated posts first, ascending, and undated posts at the back. For every key, the posts with that key keep their filtered order, so equal deadlines and the undated posts stay as given. |
| GongguList.InitialView | components/gonggu-list.tsx:19-20 | The initial state shows every post, newest first. |
| GongguList.CategoryStep | components/gonggu-list.tsx:33-47 | A post appears as often as in the input when the selection keeps it, and otherwise not at all. |
| BadgeList.EarnedKeyMatchesComparator | components/badges/badge-list.tsx:23-28 | The earned key orders two badges as the comparator does. The keys are equal iff the comparator answers 0. |
| BadgeList.SortedBadges | components/badges/badge-list.tsx:21-29 | The result is a permutation of the badges: the earned badges in their given order, then the unearned ones in theirs. |
| BadgeList.EarnedFirst | components/badges/badge-list.tsx:23-28 | Every earned badge precedes every unearned badge. |
| BadgeList.EarnedCount | components/badges/badge-list.tsx:32-35 | The count is between 0 and the number of badges. |
| BadgeList.CountIgnoresDuplicates | components/badges/badge-list.tsx:31-35 | The count depends only on the set of earned ids, so a repeated id does not inflate it. |
| BadgeList.CountIgnoresUnknownIds | components/badges/badge-list.tsx:32-35 | Ids that are no listed badge's slug do not change the count. |
| BadgeList.CountIsEarnedPrefix | components/badges/badge-list.tsx:21-35 | Position i of the sorted grid holds an earned badge iff i is below the count. |
| BadgeList.Tiles | components/badges/badge-list.tsx:62-66 | One tile per badge, in grid order, marked earned iff its slug is among the earned ids. |
| BadgeList.Render | components/badges/badge-list.tsx:37-71 | The empty state shows iff there are no badges. Otherwise the header total is the badge count, with one tile per badge, and the earned count is at most the total. |
| BadgeList.RenderShape | components/badges/badge-list.tsx:37-66 | The empty state shows iff there are no badges, whatever the earned ids. Otherwise the header shows count/total over one tile per badge, and exactly the first count tiles are marked earned. |
| TrendingSidebar.PopularKeyMatchesComparator | components/trending-sidebar.tsx:74 | The popularity key orders posts as `(b.view_count ?? 0) - (a.view_count ?? 0)` does. |
| TrendingSidebar.TopTrending | components/trending-sidebar.tsx:70 | The first min(5, n) posts, as a prefix in the given order. |
| TrendingSidebar.TopPopular | components/trending-sidebar.tsx:73-75 | Has length min(5, n) and is drawn from the input multiset. View counts do not increase, with a missing count read as 0. Every chosen post has at least the views of every post left out. |
| TrendingSidebar.TopOfSorted | components/trending-sidebar.tsx:73-75 | The first k posts of a list sorted by views are non-increasing, and each one outranks every post after them. |
| TrendingSidebar.Ranked | components/trending-sidebar.tsx:35-40 | Each row keeps its post, has rank index + 1, and is highlighted iff its rank is at most 3. |
| TrendingSidebar.Sidebar | components/trending-sidebar.tsx:68-75 | Both lists have min(n, 5) rows. Trending row i is trending post i. Every popular row's post comes from the trending posts. |
| TrendingSidebar.SidebarRanks | components/trending-sidebar.tsx:94-118 | Both lists have at most five rows, rank from 1, and highlight exactly the first three. |
| GongguCard.CeilDiv | components/gonggu-card.tsx:22 | For a positive divisor, q is the least integer with a <= q * b, i.e. Math.ceil(a / b). |
| GongguCard.FormatDeadline | components/gonggu-card.tsx:16-28 | With D = deadline - now: no deadline gives the empty label. 마감 iff D <= -day, 오늘 마감 iff -day < D <= 0, 내일 마감 iff 0 < D <= day. Otherwise D-n with n = ceil(D / day) >= 2. |
| GongguCard.DeadlineAlwaysLabelled | components/gonggu-card.tsx:17-27 | Every present deadline gets a non-empty label. |
| GongguCard.DaysLeftLabel | components/gonggu-card.tsx:22-27 | A deadline within the n-th day ahead, for n >= 2, is labelled D-n. |
| GongguCard.IsUrgent | components/gonggu-card.tsx:55 | Urgency requires a deadline, and a deadline already passed is always urgent. |
| GongguCard.UrgencyBoundary | components/gonggu-card.tsx:55 | The boundary is strict: a deadline 3 days less 1 ms ahead is urgent, one exactly 3 days ahead is not. |
| GongguCard.UrgencyMonotone | components/gonggu-card.tsx:55 | An earlier deadline is urgent whenever a later one is. |
| GongguCard.UrgencyOnThirdDay | components/gonggu-card.tsx:17-55 | A `D-3` deadline is urgent iff it is not exactly 3 days ahead. Both readings of the clock are one `now`; see "## Left out". |
| GongguCard.UrgencyByLabel | components/gonggu-card.tsx:22-55 | 마감, 오늘 마감, 내일 마감 and D-2 are always urgent; D-4 and later never are; urgency implies at most D-3. Both readings of the clock are one `now`; see "## Left out". |
| GongguCard.UrgencyAcrossReadings | components/gonggu-card.tsx:17-55 | When the urgency flag reads the clock no earlier than the label did, a word label or `D-2` is still urgent. |
| GongguCard.TickShowsUrgentD4 | components/gonggu-card.tsx:17-55 | A deadline 3 days + 1 ms ahead is labelled D-4 at time 0, yet urgent when the flag reads the clock at 2 ms. |
| GongguCard.StatusBadge | components/gonggu-card.tsx:70-80 | A deadline badge carries the deadline label and the urgency flag. |
| GongguCard.StatusBadgeChoice | components/gonggu-card.tsx:70-80 | The deadline badge shows iff the post is open and has a deadline. The closed badge shows iff the post is closed. An upcoming post shows no badge. |
| AuthCallback.SafeNext | app/auth/callback/route.ts:8-28 | The target starts with "/", and is either "/" or the given `next`. |
| AuthCallback.Callback | app/auth/callback/route.ts:5-31 | A missing or empty code redirects to /?error=missing_code without an exchange. A failed exchange redirects to /?error=auth_error. Success goes to `next` when it is non-empty and starts with "/", and otherwise to "/". |
| AuthCallback.MissingCodeIgnoresExchange | app/auth/callback/route.ts:10-18 | Without a code, the exchange result plays no part. |
| AuthCallback.TargetIsOneOf | app/auth/callback/route.ts:5-31 | Every target is one of: the two error URLs, "/", or a `next` starting with "/". |
| AuthCallback.AbsoluteNextRejected | app/auth/callback/route.ts:25-28 | `next=https://evil.com` yields "/". |
| AuthCallback.EmptyNextGoesHome | app/auth/callback/route.ts:8 | A missing or empty `next` yields "/". |
| AuthCallback.ProtocolRelativeNextPasses | app/auth/callback/route.ts:26-28 | `next=//evil.com` passes the check unchanged, so the check does not rule out every off-site target. |
| ViewRepository.HasRecentView | lib/repositories/view-repository.ts:11-28 | True iff the store holds a view of this post from this address inside the window. |
| ViewRepository.HasRecent | lib/repositories/view-repository.ts:11-28 | True iff some record has the same post and address and `viewed_at >= now - 30 min`. The boundary is inclusive. |
| ViewRepository.Increment | lib/repositories/view-repository.ts:46-51 | The post's count rises by exactly one, and every other count is unchanged. |
| ViewRepository.TrackView | lib/repositories/view-repository.ts:56-67 | A recent view returns false and writes nothing. Otherwise it appends exactly one record, adds one to that post's count, and returns true. Other posts' counts never change. |
| ViewRepository.OtherRecordsIrrelevant | lib/repositories/view-repository.ts:21-22 | Records for other posts or other addresses do not change the decision. |
| ViewRepository.DuplicateWindow | lib/repositories/view-repository.ts:14-23 | After a counted view at t1, the same address and post at t2 is a duplicate iff t2 <= t1 + 30 min. The new record is stamped with the request's `now`; see "## Left out". |
| ViewRepository.AtMostOncePerWindow | lib/repositories/view-repository.ts:56-67 | Two calls for the same post and address within 30 minutes add at most one to the count. |
| ViewsRoute.ClientIp | app/api/views/route.ts:16-17 | An absent or empty header gives "unknown". Otherwise the address contains no comma. |
| ViewsRoute.ClientIpIsFirstHop | app/api/views/route.ts:17 | With several hops, the address is the trimmed text before the first comma. |
| ViewsRoute.ClientIpOfOneHop | app/api/views/route.ts:17 | A header naming one address yields that address, trimmed. |
| ViewsRoute.HandlePost | app/api/views/route.ts:4-34 | A falsy postId gives 400 "postId is required" and leaves the store untouched. Success gives 200 with isNewView equal to trackView's result and trackView's new store. A thrown error gives 500 "Failed to track view: " + its message, or "Unknown error". |
| ViewsRoute.ResponseShapes | app/api/views/route.ts:8-33 | Status 400 occurs iff a parsed body lacks a postId. Every 500 carries the failure prefix. Only a 200 changes the store, by at most one record. |
| ViewsRoute.NonErrorMessage | app/api/views/route.ts:27-32 | A thrown non-Error value is reported as "Unknown error". |
| AdminActions.OrNull | app/admin/actions.ts:28-39 | A non-empty value is kept, and an empty or missing one becomes null. |
| AdminActions.PriceOf | app/admin/actions.ts:38 | An empty price becomes null. Otherwise the price is NaN exactly when parseInt finds no number. |
| AdminActions.PriceOfNumber | app/admin/actions.ts:38 | A price typed as String(n) is stored as n. |
| AdminActions.PriceOfWords | app/admin/actions.ts:38 | Text without digits is stored as NaN. |
| AdminActions.AddGonggu | app/admin/actions.ts:11-49 | A missing username, URL or title gives the required-fields notice and no repository call. Otherwise the seller call comes first, with a normalised category. A thrown error stops the action with "공구 등록 실패: " + message. After the seller call, the post call carries the seller's id, the normalised price and deadline, and status open. After a stored post, `revalidatePath("/")` runs, and only if it does not throw is success reported. |
| AdminActions.StoredButReportedFailed | app/admin/actions.ts:34-47 | When the cache call throws after the post is sent, the form reports a prefixed failure although the post call was made. |
| AdminActions.SubmissionOutcomes | app/admin/actions.ts:22-48 | Success iff the form is complete and none of the three calls throws. A failure message is the notice or carries the prefix. A created post is open and belongs to the returned seller, and no empty category or deadline is stored. |
| AdminActions.EmptyOptionalsBecomeNull | app/admin/actions.ts:28-43 | An empty category, price and deadline are all sent as null, and the home page is revalidated afterwards. |
| UserMenu.DisplayName | components/auth/user-menu.tsx:21 | The metadata name if non-empty, else the email if non-empty, else "User". Missing metadata is tolerated, and the result is never empty. |
| UserMenu.HeadChars | components/auth/user-menu.tsx:34-41 | There is at most one character per part. |
| UserMenu.HeadCharsAreWordStarts | components/auth/user-menu.tsx:34-41 | Splitting on spaces and joining each part's first character gives exactly the characters that start a word. |
| UserMenu.GetInitials | components/auth/user-menu.tsx:34-41 | At most two characters: the upper-cased first characters of the space-separated words. |
| UserMenu.TwoWordInitials | components/auth/user-menu.tsx:34-41 | "kim mj" gives "KM". |
| UserMenu.SpacedInitials | components/auth/user-menu.tsx:34-41 | Repeated spaces add nothing: " a  b c" gives "AB". |
| UserMenu.AvatarOf | components/auth/user-menu.tsx:47-57 | The picture shows iff avatar_url is present, with the display name as its alt text. Otherwise the display name's initials show, at most two characters. |
| UserMenu.NoMetadata | components/auth/user-menu.tsx:21 | Without metadata, the email names the user, or else "User", whose initial is "U". |
| SuggestCompact.Setting | scripts/hooks/suggest-compact.js:5-6 | The setting is never zero. Each of these gives the default: an unset or empty variable; one that `parseInt` reads as NaN, such as "x5"; one that parses as 0; one without any digit. A variable that parses as a non-zero integer gives that integer. |
| SuggestCompact.JsRem | scripts/hooks/suggest-compact.js:30 | JavaScript's `%` as ECMA-262 defines Number::remainder: the dividend minus a whole multiple of the divisor, smaller than the divisor in magnitude, and zero or of the dividend's sign. |
| SuggestCompact.JsRemZero | scripts/hooks/suggest-compact.js:30 | The remainder is 0 exactly when the divisor divides the dividend, for either sign of either operand. |
| SuggestCompact.ShouldSuggest | scripts/hooks/suggest-compact.js:27-31 | No reminder below the threshold, and always one at the threshold; Schedule states the rest. |
| SuggestCompact.Schedule | scripts/hooks/suggest-compact.js:27-31 | A reminder is due iff count >= threshold and count - threshold is a multiple of the interval. |
| SuggestCompact.DefaultSchedule | scripts/hooks/suggest-compact.js:5-31 | With the defaults, a reminder is due exactly at 50, 75, 100, and so on. |
| SuggestCompact.DefaultScheduleExamples | scripts/hooks/suggest-compact.js:27-31 | 49 and 74 are not due; 50, 75 and 100 are. |
| SuggestCompact.ReadCounter | scripts/hooks/suggest-compact.js:14-21 | A missing or empty file reads as 0. So does content whose trimmed text `parseInt` reads as NaN, such as "abc5", and content without any digit. Otherwise the count is the integer that `parseInt` reads from the trimmed content. |
| SuggestCompact.IntToStringTrimmed | scripts/hooks/suggest-compact.js:14-25 | A written counter has no white space to trim. |
| SuggestCompact.ReadWhatWasWritten | scripts/hooks/suggest-compact.js:14-25 | Reading back a written counter gives the same number. |
| SuggestCompact.DefaultRunReminds | scripts/hooks/suggest-compact.js:33-40 | With neither variable set, a run prints the reminder iff its count is 50 or 50 plus a multiple of 25. |
| SuggestCompact.RunHook | scripts/hooks/suggest-compact.js:33-40 | A run counts the stored value + 1 and writes what reads back as that count. It prints the reminder exactly when `shouldSuggest` holds for that count under the two settings. |
| SuggestCompact.RunsCount | scripts/hooks/suggest-compact.js:33-34 | Starting without a file, the k-th run of a session counts k. |
| Notify.EscapeQuotes | scripts/hooks/notification/notify.js:90 | The escaped length is the input length plus 3 per quote. Text without quotes is unchanged. |
| Notify.UnquoteEscaped | scripts/hooks/notification/notify.js:90-96 | Inside single quotes, the escaped text followed by a closing quote reads back as the original. |
| Notify.QuotedRoundTrip | scripts/hooks/notification/notify.js:90-96 | The POSIX shell reads `'` + escapeQuotes(s) + `'` back as exactly s. |
| Notify.PromptContext | scripts/hooks/notification/notify.js:55-59 | The first 50 characters, each newline turned into a space and every other character kept. "..." is added iff the prompt is longer than 50. |
| Notify.ToolContext | scripts/hooks/notification/notify.js:62-80 | Bash gives "Bash: " + the first 40 characters of the command, plus "..." iff it is longer. Edit, Write and Read give the file's base name. Task gives the description. Any other tool gives its name. |
| Notify.Context | scripts/hooks/notification/notify.js:53-81 | A readable prompt file decides: an empty one gives no context, a non-empty one the prompt context. An unreadable file gives the tool context of the named tool, with missing tool input read as empty, and no context when no tool is named. |
| Notify.SessionId | scripts/hooks/notification/notify.js:43-47 | The first 8 characters of the stdin session id, else of the environment's, else "unknown". |
| Notify.Ide | scripts/hooks/notification/notify.js:31-37 | Zed iff ZED_TERM is set. Cursor iff not Zed and the lower-cased bundle id contains "cursor". VSCode iff neither and the VS Code IPC handle is set. CLI otherwise. |
| Notify.Title | scripts/hooks/notification/notify.js:87 | `Claude [` + ide + `:` + project + `:` + session id + `]`: the editor, the project and the session id each at their fixed places, separated by colons. |
| Notify.Command | scripts/hooks/notification/notify.js:90-96 | The command starts with the notifier path. The title and the message each sit in one quoted word, with a blank on either side, that the shell reads back as exactly that text. |
| Notify.NotifyCommand | scripts/hooks/notification/notify.js:29-96 | The title argument reads back as the title of the editor, project and session. The message argument reads back as the base message, `Notification` when none is given, followed by its context. |
| Notify.DefaultBaseMessage | scripts/hooks/notification/notify.js:29-96 | A missing or empty message argument gives the same command as `Notification`. |
| Notify.Message | scripts/hooks/notification/notify.js:84 | The base message alone when there is no context. Otherwise the base, a newline, then the context. |
| Notify.LongPromptTruncated | scripts/hooks/notification/notify.js:55-59 | A long prompt without newlines shows its first 50 characters and "...". |
| Notify.PromptFileWins | scripts/hooks/notification/notify.js:54-81 | A readable prompt file, even an empty one, decides the context regardless of the tool information. |

## Left out

- **Supabase and other I/O:** Supabase queries, RPCs and auth calls appear only as parameters and abstract replies.
  - The `increment_view_count` RPC is taken to add one to the post's count, with a missing count read as 0. Its SQL is not part of this model.
  - A failing `trackView` is assumed to leave the store as it was. A partial write, such as the row inserted but the count not incremented, is not modelled.
  - supabase-js reports a failed query in its result instead of throwing, and lib/repositories/view-repository.ts never reads that error. So a failed select reads as "no recent view" (lines 18-27). A failed insert or RPC still lets `trackView` return true without the record or the increment (lines 63-66). The view store's replies are modelled as always succeeding.
- **Next.js cache:** `revalidatePath("/")` is recorded as a call that may throw. What it does to the cached page is not modelled.
- **OAuth:** the Naver flows are left out, and so is an exception from the code exchange itself. Only the reported error is modelled.
- **React and timers:**
  - rendering, `useState` transitions and loading flags;
  - the `setTimeout` delays;
  - the five-minute `setInterval` that schedules the sweep. The sweep is a plain function with its own `now`.
- **Concurrency:** the check-then-act race in `trackView` and the unlocked rate-limit map under parallel requests. Calls are sequential.
- **Dates and floating point:** dates are integer milliseconds.
  - `new Date` string parsing is not modelled.
  - `Math.ceil(diff / day)` is exact integer ceiling division. Float rounding on huge differences is not modelled, and neither is `-0`, which behaves like 0 in the comparisons.
  - `formatPrice` and `toLocaleString` are left out.
- **Character encoding:** strings are sequences of Unicode scalar values, not UTF-16 code units. `slice` and `part[0]` on characters outside the Basic Multilingual Plane count differently in JavaScript.
- **Case mapping:** `toUpperCase` and `toLowerCase` are ASCII-only.
- **Basenames:** `path.basename` in the notification hook is a parameter.
- **Hook side effects:** the project name is a parameter. The `execSync` call, stdin reading and the stderr reminder text are left out.
- **Counter write failure:** a failing `writeFileSync` (scripts/hooks/suggest-compact.js:24) throws and ends the run before the reminder. `SuggestCompact.RunHook` takes the write to succeed.
- **Types:**
  - Only string values are modelled for JSON `postId` and for the form fields. `postId` values of other types are left out.
  - `File` form entries are left out.
  - `data.tool_name` values that are not strings are left out.
  - In the notification hook, stdin holding JSON `null` makes `data.session_id` throw a TypeError (scripts/hooks/notification/notify.js:44), so no notification is sent. `Notify.HookInput` has no such value.
  - Values that are not strings also throw there: a `session_id` at `.slice` (line 47), a `tool_input.command` at `.slice` (line 67), and a `file_path` at `path.basename` inside the catch (line 74). `Notify.HookInput` holds only strings, so these failures are not modelled.
- **Category filter values:** the category filter takes one of `all`, a group name or `기타` (`Posts.CategorySelection`). The filter buttons produce only these. Any other value, the empty string included, reaches `isInCategoryGroup(category, value)` (hooks/use-gonggu-filters.ts:62-64). That call indexes an undefined list and throws, but only for a post whose seller category is truthy; a post with a null or empty category is filtered out without a throw. That case is not modelled.
- **The `view_count` column:** the sidebar reads `view_count`, which the post type does not declare. It is modelled as an optional integer.
- **`AdminActions.PriceOfNumber`:** `parseInt` returns a double (app/admin/actions.ts:38), so a price above 2^53 is stored rounded to the nearest representable value. The lemma's "stored as n" holds only up to 2^53; the model's `PriceOf` keeps the exact integer.
- **`GongguCard.UrgencyByLabel`** and **`GongguCard.UrgencyOnThirdDay`**: both evaluate the label and the urgency flag at one `now`. The card reads the clock twice, in `formatDeadline` (components/gonggu-card.tsx:19) and again for `isUrgent` (line 55). Two of their clauses need both readings to agree: "D-4 and later are never urgent / urgency implies at most D-3", and "exactly 3 days ahead is not urgent". A tick between the readings breaks them, as `GongguCard.TickShowsUrgentD4` shows. `GongguCard.UrgencyAcrossReadings` states what holds for any two readings in order. `GongguCard.StatusBadge` likewise takes one `now`.
- **`ViewRepository.DuplicateWindow`:** the insert (lib/repositories/view-repository.ts:36-40) sends no `viewed_at`, so the database stamps the row when it inserts it, while the cutoff uses the app's `Date.now()` (lines 14-16). The model stamps the new record with the request's `now`. The exact boundary "duplicate iff t2 <= t1 + 30 min" is therefore off in the source by the insert latency and any clock skew between the app and the database. `ViewRepository.TrackView` and `ViewRepository.AtMostOncePerWindow` share this reading.
- **`JsText.Decimal`:** correct only below 10^21, where `String(n)` switches to exponent notation. Counters and prices stay far below that.
- **`Posts.DeadlineKey`:** the listings use this corrected order, not the source's comparator; see Findings. Under the source's comparator, the order of two undated posts is implementation-defined.
- **`Categories.CategoryColor` and `Badges.CheckBadgeCondition`:** both use only own catalogue keys, the corrected behaviour. Findings records the source as written.

## Findings

| source | as written | input that shows it | evidently intended | confidence | as-written member | corrected member |
|---|---|---|---|---|---|---|
| hooks/use-gonggu-filters.ts:70-74 | `if (!a.deadline) return 1; if (!b.deadline) return -1` (components/gonggu-list.tsx:57-58 has the same code) | two posts without a deadline: the comparator answers 1 both ways round, so it is not a consistent comparator, and ECMAScript leaves the sort order implementation-defined | dated posts first by deadline, undated posts after in their given order | not executed | Posts.DeadlineComparatorAsWritten, shown by Posts.DeadlineComparatorInconsistent | Posts.DeadlineKey, proved by Posts.DeadlineKeyMatchesComparator, GongguFilters.DeadlineTab and GongguList.DeadlineSort |
| lib/badges.ts:46-50 | `BADGE_DEFINITIONS[badgeSlug]` on a plain object | slug "toString": the lookup finds the inherited function, the guard passes, and `badge.condition` is undefined, so the call throws a TypeError | false for every slug that is not a catalogue key | not executed | Badges.CheckBadgeConditionAsWritten, shown by Badges.InheritedSlugThrows | Badges.CheckBadgeCondition |
| lib/categories.ts:79-80 | `category in CATEGORY_COLORS` | category "toString": `in` holds for the inherited name, and the inherited function is returned instead of a palette | the 기타 palette for any name that is not a colour key or a sub-label | not executed | Categories.CategoryColorAsWritten, shown by Categories.InheritedNameGetsNoPalette | Categories.CategoryColor, proved by Categories.ColorOfUnknown |
