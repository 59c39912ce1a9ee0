/** The view de-duplication rule of lib/repositories/view-repository.ts over
    an explicit store: the `post_views` records and each post's
    `view_count`. Calls run one after another; `now` is milliseconds. */
module ViewRepository {
  import opened Nullable

  /** How long a repeated view by the same address is ignored. */
  const DuplicateViewMinutes: int := 30
  const DuplicateWindowMs: int := DuplicateViewMinutes * 60 * 1000

  /** One `post_views` row; `viewedAt` is the time it was inserted. */
  datatype ViewRecord = ViewRecord(postId: string, viewerIp: Option<string>, viewedAt: int)

  /** The rows of `post_views` in insertion order, and the posts' view counts
      (a post without an entry counts 0). */
  datatype ViewStore = ViewStore(records: seq<ViewRecord>, viewCounts: map<string, nat>)

  function ViewCount(store: ViewStore, postId: string): nat {
    if postId in store.viewCounts then store.viewCounts[postId] else 0
  }

  /** The query's filter: same post, same address, viewed at or after the
      cutoff `now - 30 min`. */
  predicate IsRecent(r: ViewRecord, postId: string, viewerIp: string, now: int) {
    r.postId == postId && r.viewerIp == Some(viewerIp) && r.viewedAt >= now - DuplicateWindowMs
  }

  /** `hasRecentView`: whether any row passes the filter. */
  function HasRecent(records: seq<ViewRecord>, postId: string, viewerIp: string, now: int): (r: bool)
    ensures r <==> exists i :: 0 <= i < |records| && IsRecent(records[i], postId, viewerIp, now)
  {
    if records == [] then false
    else IsRecent(records[0], postId, viewerIp, now) || HasRecent(records[1..], postId, viewerIp, now)
  }

  /** `hasRecentView`: some stored view of this post from this address lies
      inside the window. */
  function HasRecentView(store: ViewStore, postId: string, viewerIp: string, now: int): (r: bool)
    ensures r <==> exists i :: 0 <= i < |store.records| && IsRecent(store.records[i], postId, viewerIp, now)
  {
    HasRecent(store.records, postId, viewerIp, now)
  }

  /** The result of `trackView` and the store after it. */
  datatype Tracked = Tracked(isNewView: bool, store: ViewStore)

  /** `incrementViewCount`. */
  function Increment(counts: map<string, nat>, postId: string): (r: map<string, nat>)
    ensures r.Keys == counts.Keys + {postId}
    ensures r[postId] == (if postId in counts then counts[postId] else 0) + 1
    ensures forall p :: p in counts && p != postId ==> r[p] == counts[p]
  {
    counts[postId := (if postId in counts then counts[postId] else 0) + 1]
  }

  /** `trackView`: a recent view makes it a no-op returning false; otherwise
      it inserts one row, adds one to the post's count and returns true. */
  function TrackView(store: ViewStore, postId: string, viewerIp: string, now: int): (t: Tracked)
    ensures t.isNewView <==> !HasRecentView(store, postId, viewerIp, now)
    ensures !t.isNewView ==> t.store == store
    ensures t.isNewView ==>
              && t.store.records == store.records + [ViewRecord(postId, Some(viewerIp), now)]
              && ViewCount(t.store, postId) == ViewCount(store, postId) + 1
    ensures forall p :: p != postId ==> ViewCount(t.store, p) == ViewCount(store, p)
  {
    if HasRecentView(store, postId, viewerIp, now) then Tracked(false, store)
    else Tracked(true, ViewStore(store.records + [ViewRecord(postId, Some(viewerIp), now)],
                                 Increment(store.viewCounts, postId)))
  }

  /** Rows for other posts or other addresses never change the decision. */
  lemma {:induction false} OtherRecordsIrrelevant(records: seq<ViewRecord>, others: seq<ViewRecord>,
                                                  postId: string, viewerIp: string, now: int)
    requires forall i :: 0 <= i < |others| ==> others[i].postId != postId || others[i].viewerIp != Some(viewerIp)
    ensures HasRecent(records + others, postId, viewerIp, now) == HasRecent(records, postId, viewerIp, now)
  {
    if records == [] {
      assert records + others == others;
    } else {
      assert (records + others)[1..] == records[1..] + others;
      OtherRecordsIrrelevant(records[1..], others, postId, viewerIp, now);
    }
  }

  /** After a view is counted at `t1`, the same address viewing the same post
      at `t2` is a duplicate exactly while `t2 <= t1 + 30 min`. */
  lemma DuplicateWindow(store: ViewStore, postId: string, viewerIp: string, t1: int, t2: int)
    requires !HasRecentView(store, postId, viewerIp, t2)
    requires TrackView(store, postId, viewerIp, t1).isNewView
    ensures HasRecentView(TrackView(store, postId, viewerIp, t1).store, postId, viewerIp, t2)
            <==> t2 <= t1 + DuplicateWindowMs
  {
    var s1 := TrackView(store, postId, viewerIp, t1).store;
    var n := |store.records|;
    assert s1.records[n] == ViewRecord(postId, Some(viewerIp), t1);
    if HasRecentView(s1, postId, viewerIp, t2) {
      var i :| 0 <= i < |s1.records| && IsRecent(s1.records[i], postId, viewerIp, t2);
      if i < n {
        assert s1.records[i] == store.records[i];
      }
    }
  }

  /** Two calls for the same post and address, the second within 30 minutes
      of the first, add at most one to the count. */
  lemma AtMostOncePerWindow(store: ViewStore, postId: string, viewerIp: string, t1: int, t2: int)
    requires t1 <= t2 <= t1 + DuplicateWindowMs
    ensures var a := TrackView(store, postId, viewerIp, t1);
            var b := TrackView(a.store, postId, viewerIp, t2);
            && !(a.isNewView && b.isNewView)
            && ViewCount(b.store, postId) <= ViewCount(store, postId) + 1
  {
    var a := TrackView(store, postId, viewerIp, t1);
    if a.isNewView {
      var n := |store.records|;
      assert IsRecent(a.store.records[n], postId, viewerIp, t2);
    }
  }
}
