/**
 * The live item list of the registry page and its expiry reclaimer
 * (src/hooks/useWishlistItems.ts).
 *
 * The feed delivers the whole item list on every change, or an error. Each
 * time the list changes, the reclaimer walks it and issues a forced release
 * for every claimed item whose expiry is at or before `now`, unless a
 * release for that item is still in flight; the in-flight set is kept in
 * `handlingExpired`. Releases run asynchronously: `ReclaimExpired` returns
 * the requests it issues, and `Complete` records that one has settled,
 * whether it succeeded or failed.
 */
module WishlistFeed {
  import opened Wrappers
  import opened Wishlist

  /** A claimed item whose expiry is at or before `now`: the reclaimer's test. */
  predicate Lapsed(item: WishlistItem, now: Millis): (lapsed: bool)
    ensures lapsed <==> item.isClaimed && item.claimExpiresAt.Some? && item.claimExpiresAt.value <= now
  {
    item.isClaimed && LeaseLapsed(item.claimExpiresAt, now)
  }

  /**
   * The identifiers one pass of the reclaimer issues a forced release for,
   * in list order, starting from the in-flight set `inFlight`: exactly the
   * lapsed items not in flight, each at most once.
   */
  function ReclaimTargets(items: seq<WishlistItem>, now: Millis, inFlight: set<Id>): (ids: seq<Id>)
    ensures forall k :: 0 <= k < |ids| ==> ids[k] !in inFlight
    ensures forall j, k :: 0 <= j < k < |ids| ==> ids[j] != ids[k]
    ensures forall id :: id in ids <==> id !in inFlight && exists item :: item in items && item.id == id && Lapsed(item, now)
    decreases |items|
  {
    if items == [] then []
    else
      var item := items[0];
      var rest := items[1..];
      assert forall it :: it in items <==> it == item || it in rest;
      if Lapsed(item, now) && item.id !in inFlight then [item.id] + ReclaimTargets(rest, now, inFlight + {item.id})
      else ReclaimTargets(rest, now, inFlight)
  }

  /** One step of a pass: the targets of a suffix of the list, unfolded at its first item. */
  lemma ReclaimTargetsStep(items: seq<WishlistItem>, i: nat, now: Millis, inFlight: set<Id>)
    requires i < |items|
    ensures ReclaimTargets(items[i..], now, inFlight)
         == if Lapsed(items[i], now) && items[i].id !in inFlight
            then [items[i].id] + ReclaimTargets(items[i + 1..], now, inFlight + {items[i].id})
            else ReclaimTargets(items[i + 1..], now, inFlight)
  {
    assert items[i..][0] == items[i] && items[i..][1..] == items[i + 1..];
  }

  /** The loop's step when the item at `i` is issued: the pass so far, extended by that item, still leads to the same targets. */
  lemma IssueStep(items: seq<WishlistItem>, i: nat, now: Millis, inFlight: set<Id>, issued: seq<Id>, total: seq<Id>)
    requires i < |items| && Lapsed(items[i], now) && items[i].id !in inFlight
    requires issued + ReclaimTargets(items[i..], now, inFlight) == total
    ensures (issued + [items[i].id]) + ReclaimTargets(items[i + 1..], now, inFlight + {items[i].id}) == total
  {
    ReclaimTargetsStep(items, i, now, inFlight);
    AppendAssociates(issued, items[i].id, ReclaimTargets(items[i + 1..], now, inFlight + {items[i].id}));
  }

  /** The loop's step when the item at `i` is skipped. */
  lemma SkipStep(items: seq<WishlistItem>, i: nat, now: Millis, inFlight: set<Id>, issued: seq<Id>, total: seq<Id>)
    requires i < |items| && !(Lapsed(items[i], now) && items[i].id !in inFlight)
    requires issued + ReclaimTargets(items[i..], now, inFlight) == total
    ensures issued + ReclaimTargets(items[i + 1..], now, inFlight) == total
  {
    ReclaimTargetsStep(items, i, now, inFlight);
  }

  lemma AppendAssociates<T>(a: seq<T>, x: T, b: seq<T>)
    ensures (a + [x]) + b == a + ([x] + b)
  {
  }

  /** The requests for a list of identifiers: each a forced release that carries no token. */
  function ForcedReleases(ids: seq<Id>): (requests: seq<ReleaseRequest>)
    ensures |requests| == |ids|
    ensures forall k :: 0 <= k < |ids| ==> requests[k] == ReleaseRequest(ids[k], None, true)
  {
    seq(|ids|, k requires 0 <= k < |ids| => ReleaseRequest(ids[k], None, true))
  }

  /** The state the hook returns (`items`, `loading`, `error`) and its in-flight set. */
  class ItemsFeed {
    var items: seq<WishlistItem>
    var loading: bool
    var error: Option<string>
    var handlingExpired: set<Id>

    constructor ()
      ensures items == [] && loading && error == None && handlingExpired == {}
    {
      items := [];
      loading := true;
      error := None;
      handlingExpired := {};
    }

    /** A delivery replaces the whole list and clears the loading flag and the error. */
    method OnItems(next: seq<WishlistItem>)
      modifies this
      ensures items == next && !loading && error == None
      ensures handlingExpired == old(handlingExpired)
    {
      items := next;
      loading := false;
      error := None;
    }

    /** A feed error records its message and clears the loading flag; the list stays as it was. */
    method OnError(message: string)
      modifies this
      ensures error == Some(message) && !loading
      ensures items == old(items) && handlingExpired == old(handlingExpired)
    {
      error := Some(message);
      loading := false;
    }

    /**
     * One pass of the reclaimer over the current list: a forced release,
     * without a token, for each lapsed item not already in flight, whose
     * identifier joins the in-flight set before the request is issued.
     */
    method ReclaimExpired(now: Millis) returns (requests: seq<ReleaseRequest>)
      modifies this`handlingExpired
      ensures requests == ForcedReleases(ReclaimTargets(items, now, old(handlingExpired)))
      ensures handlingExpired == old(handlingExpired) + set id | id in ReclaimTargets(items, now, old(handlingExpired))
    {
      var list := items;
      ghost var before := handlingExpired;
      ghost var total := ReclaimTargets(list, now, before);
      ghost var issued: seq<Id> := [];
      requests := [];
      var i := 0;
      while i < |list|
        invariant 0 <= i <= |list|
        invariant issued + ReclaimTargets(list[i..], now, handlingExpired) == total
        invariant handlingExpired == before + set id | id in issued
        invariant requests == ForcedReleases(issued)
      {
        var item := list[i];
        if item.isClaimed && item.claimExpiresAt.Some? {
          var expiryMs := item.claimExpiresAt.value;
          if expiryMs <= now && item.id !in handlingExpired {
            IssueStep(list, i, now, handlingExpired, issued, total);
            handlingExpired := handlingExpired + {item.id};
            requests := requests + [ReleaseRequest(item.id, None, true)];
            assert ForcedReleases(issued + [item.id]) == ForcedReleases(issued) + [ReleaseRequest(item.id, None, true)];
            issued := issued + [item.id];
          } else {
            SkipStep(list, i, now, handlingExpired, issued, total);
          }
        } else {
          SkipStep(list, i, now, handlingExpired, issued, total);
        }
        i := i + 1;
      }
    }

    /** A release issued by the reclaimer settled (resolved or rejected): the item leaves the in-flight set. */
    method Complete(id: Id)
      modifies this`handlingExpired
      ensures handlingExpired == old(handlingExpired) - {id}
    {
      handlingExpired := handlingExpired - {id};
    }
  }

  /**
   * After its release settles, an item that is still lapsed in the next
   * list is issued again.
   */
  lemma RetriedAfterCompletion(items: seq<WishlistItem>, now: Millis, inFlight: set<Id>, item: WishlistItem)
    requires item in items && Lapsed(item, now)
    ensures item.id in ReclaimTargets(items, now, inFlight - {item.id})
  {
  }

  /** An item with no expiry, or one not claimed, is never reclaimed, however late it is. */
  lemma OnlyLapsedItemsAreReclaimed(items: seq<WishlistItem>, now: Millis, inFlight: set<Id>, id: Id)
    requires forall item :: item in items && item.id == id ==> !item.isClaimed || item.claimExpiresAt.None?
    ensures id !in ReclaimTargets(items, now, inFlight)
  {
  }

  /**
   * Every request the reclaimer issues succeeds at the store for an item
   * that still exists: it is forced, so it is never refused.
   */
  lemma ReclaimRequestsSucceed(ids: seq<Id>, k: nat, d: Doc, now: Millis)
    requires k < |ids|
    ensures ReleaseTx(d, ForcedReleases(ids)[k].token, ForcedReleases(ids)[k].force, now).Ok?
  {
  }
}
