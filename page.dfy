/**
 * The guests' registry page (src/pages/WishlistPage.tsx): the map from item
 * identifier to the claim token this browser holds, pruned against every
 * new item list; the split of the list into available and claimed items,
 * each ordered by title; the "is this my claim" test; and the bookkeeping
 * around a claim or a release (the pending action per item, the stored
 * token, the notice shown). A claim or release call is asynchronous, so
 * each handler is split into the part before the call and the part after
 * it settles, whose outcome is a parameter.
 */
module WishlistPage {
  import opened Wrappers
  import opened Wishlist

  /** The claim tokens this browser holds, by item identifier. */
  type TokenMap = map<Id, Token>

  // ------------------------------------------------------------------
  // Token map

  /** `items.find(...)`: the first item with identifier `id`, if any. */
  function FindItem(items: seq<WishlistItem>, id: Id): (r: Option<WishlistItem>)
    ensures r.None? <==> forall item :: item in items ==> item.id != id
    ensures r.Some? ==> r.value in items && r.value.id == id
    ensures r.Some? && items != [] && items[0].id == id ==> r.value == items[0]
    ensures r.Some? ==> exists k | 0 <= k < |items| :: items[k] == r.value && forall j | 0 <= j < k :: items[j].id != id
  {
    if items == [] then None
    else if items[0].id == id then Some(items[0])
    else
      var rest := FindItem(items[1..], id);
      assert rest.Some? ==> exists k | 0 <= k < |items| :: items[k] == rest.value && forall j | 0 <= j < k :: items[j].id != id by {
        if rest.Some? {
          var k :| 0 <= k < |items[1..]| && items[1..][k] == rest.value && forall j | 0 <= j < k :: items[1..][j].id != id;
          assert items[k + 1] == rest.value;
          assert forall j | 0 <= j < k + 1 :: items[j].id != id by {
            forall j | 0 <= j < k + 1 ensures items[j].id != id {
              if j > 0 { assert items[j] == items[1..][j - 1]; }
            }
          }
        }
      }
      rest
  }

  /** The pruning test: the item for `id` is present, claimed, and holds exactly `token`. */
  predicate TokenStillHeld(items: seq<WishlistItem>, id: Id, token: Token): (held: bool)
    ensures held <==> exists k | 0 <= k < |items| ::
                        items[k].id == id && (forall j | 0 <= j < k :: items[j].id != id)
                        && items[k].isClaimed && items[k].claimToken == Some(token)
  {
    var current := FindItem(items, id);
    current.Some? && current.value.isClaimed && current.value.claimToken == Some(token)
  }

  /**
   * The token map after the pruning effect: unchanged for an empty list;
   * otherwise exactly the entries whose item still holds their token, each
   * with its value unchanged.
   */
  function Pruned(prev: TokenMap, items: seq<WishlistItem>): (next: TokenMap)
    ensures items == [] ==> next == prev
    ensures items != [] ==> forall id :: id in next <==> id in prev && TokenStillHeld(items, id, prev[id])
    ensures forall id | id in next :: id in prev && next[id] == prev[id]
  {
    if items == [] then prev
    else map id | id in prev && TokenStillHeld(items, id, prev[id]) :: prev[id]
  }

  /**
   * The pruning effect: copies the map, deletes every entry whose item is
   * missing, unclaimed or holds another token, and returns the original map
   * when nothing was deleted.
   */
  method PruneTokens(prev: TokenMap, items: seq<WishlistItem>) returns (next: TokenMap)
    ensures next == Pruned(prev, items)
  {
    if |items| == 0 {
      return prev;
    }
    next := prev;
    var changed := false;
    var entries := prev.Keys;
    while entries != {}
      invariant entries <= prev.Keys
      invariant forall id | id in prev && id !in entries :: id in next <==> TokenStillHeld(items, id, prev[id])
      invariant forall id | id in entries :: id in next
      invariant forall id | id in next :: id in prev && next[id] == prev[id]
      invariant !changed ==> next == prev
      decreases entries
    {
      var id :| id in entries;
      var token := prev[id];
      var current := FindItem(items, id);
      if current.None? || !current.value.isClaimed || current.value.claimToken != Some(token) {
        next := next - {id};
        changed := true;
      }
      entries := entries - {id};
    }
    if !changed {
      return prev;
    }
  }

  /** Pruning twice against the same list is pruning once. */
  lemma PrunedIdempotent(prev: TokenMap, items: seq<WishlistItem>)
    ensures Pruned(Pruned(prev, items), items) == Pruned(prev, items)
  {
  }

  /** `setToken`'s update: one key inserted or overwritten, every other entry kept. */
  function WithToken(prev: TokenMap, id: Id, token: Token): (next: TokenMap)
    ensures next.Keys == prev.Keys + {id} && next[id] == token
    ensures forall k | k in prev && k != id :: next[k] == prev[k]
  {
    prev[id := token]
  }

  /** `removeToken`'s update: one key deleted, every other entry kept; the same map when the key is absent. */
  function WithoutToken(prev: TokenMap, id: Id): (next: TokenMap)
    ensures next.Keys == prev.Keys - {id}
    ensures forall k | k in next :: next[k] == prev[k]
    ensures id !in prev ==> next == prev
  {
    if id !in prev then prev else prev - {id}
  }

  /** `isOwnClaim`: the item carries a non-empty token and it is the one stored for the item. */
  predicate IsOwnClaim(item: WishlistItem, tokens: TokenMap): (own: bool)
    ensures own <==> item.id in tokens && tokens[item.id] != "" && item.claimToken == Some(tokens[item.id])
  {
    HasToken(item.claimToken) && item.id in tokens && tokens[item.id] == item.claimToken.value
  }

  /** Pruning never takes away a claim of one's own on a claimed item the list shows. */
  lemma OwnClaimSurvivesPruning(tokens: TokenMap, items: seq<WishlistItem>, item: WishlistItem)
    requires FindItem(items, item.id) == Some(item) && item.isClaimed
    requires IsOwnClaim(item, tokens)
    ensures IsOwnClaim(item, Pruned(tokens, items))
  {
  }

  /** After pruning, an item shows as one's own claim exactly when it is claimed with the stored token. */
  lemma OwnClaimAfterPruning(tokens: TokenMap, items: seq<WishlistItem>, item: WishlistItem)
    requires FindItem(items, item.id) == Some(item)
    ensures IsOwnClaim(item, Pruned(tokens, items))
            <==> IsOwnClaim(item, tokens) && item.isClaimed
  {
  }

  /**
   * Pruning looks at the claim flag and the token, not at the expiry: the
   * token of a claim whose lease has lapsed stays until the item is
   * released.
   */
  lemma LapsedClaimKeepsToken(tokens: TokenMap, items: seq<WishlistItem>, item: WishlistItem, now: Millis)
    requires FindItem(items, item.id) == Some(item) && item.isClaimed
    requires item.id in tokens && item.claimToken == Some(tokens[item.id])
    requires LeaseLapsed(item.claimExpiresAt, now)
    ensures item.id in Pruned(tokens, items) && Pruned(tokens, items)[item.id] == tokens[item.id]
  {
  }

  // ------------------------------------------------------------------
  // Ordering by title

  /** Case folding of ASCII letters, standing in for the base-sensitivity collation. */
  function FoldChar(c: char): char {
    if 'A' <= c <= 'Z' then (c as int + 32) as char else c
  }

  function FoldCase(s: string): (r: string)
    ensures |r| == |s| && forall i :: 0 <= i < |s| ==> r[i] == FoldChar(s[i])
  {
    seq(|s|, i requires 0 <= i < |s| => FoldChar(s[i]))
  }

  /** Lexicographic order on strings, character by character. */
  predicate LexLe(a: string, b: string)
    decreases |a|
  {
    a == [] || (b != [] && (a[0] < b[0] || (a[0] == b[0] && LexLe(a[1..], b[1..]))))
  }

  lemma {:induction false} LexLeTotal(a: string, b: string)
    ensures LexLe(a, b) || LexLe(b, a)
    decreases |a|
  {
    if a != [] && b != [] && a[0] == b[0] {
      LexLeTotal(a[1..], b[1..]);
    }
  }

  lemma {:induction false} LexLeTransitive(a: string, b: string, c: string)
    requires LexLe(a, b) && LexLe(b, c)
    ensures LexLe(a, c)
    decreases |a|
  {
    if a != [] && a[0] == b[0] && b[0] == c[0] {
      LexLeTransitive(a[1..], b[1..], c[1..]);
    }
  }

  /** `sortByTitle`: compares titles with letter case ignored. */
  predicate TitleLe(x: WishlistItem, y: WishlistItem) {
    LexLe(FoldCase(x.title), FoldCase(y.title))
  }

  predicate SortedByTitle(s: seq<WishlistItem>) {
    forall i, j :: 0 <= i < j < |s| ==> TitleLe(s[i], s[j])
  }

  /** Inserts `x` before the first element it does not come after. */
  function InsertByTitle(x: WishlistItem, s: seq<WishlistItem>): (r: seq<WishlistItem>)
    ensures multiset(r) == multiset(s) + multiset{x}
  {
    if s == [] || TitleLe(x, s[0]) then [x] + s
    else
      assert s == [s[0]] + s[1..];
      [s[0]] + InsertByTitle(x, s[1..])
  }

  /** Inserting into an ordered list keeps it ordered. */
  lemma {:induction false} InsertKeepsSorted(x: WishlistItem, s: seq<WishlistItem>)
    requires SortedByTitle(s)
    ensures SortedByTitle(InsertByTitle(x, s))
  {
    if s == [] {
    } else if TitleLe(x, s[0]) {
      forall j | 0 <= j < |s| ensures TitleLe(x, s[j]) {
        if j > 0 { LexLeTransitive(FoldCase(x.title), FoldCase(s[0].title), FoldCase(s[j].title)); }
      }
    } else {
      var rest := InsertByTitle(x, s[1..]);
      InsertKeepsSorted(x, s[1..]);
      assert s == [s[0]] + s[1..];
      forall j | 0 <= j < |rest| ensures TitleLe(s[0], rest[j]) {
        assert rest[j] in multiset(rest);
        if rest[j] == x {
          LexLeTotal(FoldCase(x.title), FoldCase(s[0].title));
        } else {
          assert rest[j] in s[1..];
        }
      }
    }
  }

  /** The sort of `s` by title: ordered, and a permutation of `s`. */
  function SortByTitle(s: seq<WishlistItem>): (r: seq<WishlistItem>)
    ensures SortedByTitle(r)
    ensures multiset(r) == multiset(s)
  {
    if s == [] then []
    else
      assert s == [s[0]] + s[1..];
      InsertKeepsSorted(s[0], SortByTitle(s[1..]));
      InsertByTitle(s[0], SortByTitle(s[1..]))
  }

  /**
   * The `partitioned` memo: unclaimed items go to `available`, claimed ones
   * to `claimed`; together they hold every item exactly as often as the
   * list does, and each part is ordered by title.
   */
  method Partition(items: seq<WishlistItem>) returns (available: seq<WishlistItem>, claimed: seq<WishlistItem>)
    ensures forall item :: item in available ==> !item.isClaimed
    ensures forall item :: item in claimed ==> item.isClaimed
    ensures multiset(available) + multiset(claimed) == multiset(items)
    ensures SortedByTitle(available) && SortedByTitle(claimed)
  {
    available := [];
    claimed := [];
    var i := 0;
    while i < |items|
      invariant 0 <= i <= |items|
      invariant forall item :: item in available ==> !item.isClaimed
      invariant forall item :: item in claimed ==> item.isClaimed
      invariant multiset(available) + multiset(claimed) == multiset(items[..i])
    {
      var item := items[i];
      assert items[..i + 1] == items[..i] + [item];
      if item.isClaimed {
        claimed := claimed + [item];
      } else {
        available := available + [item];
      }
      i := i + 1;
    }
    assert items[..i] == items;
    var unsortedAvailable, unsortedClaimed := available, claimed;
    available := SortByTitle(unsortedAvailable);
    claimed := SortByTitle(unsortedClaimed);
    forall item | item in available ensures !item.isClaimed {
      assert item in multiset(unsortedAvailable);
    }
    forall item | item in claimed ensures item.isClaimed {
      assert item in multiset(unsortedClaimed);
    }
  }

  // ------------------------------------------------------------------
  // Claim and release bookkeeping

  datatype PendingAction = Claiming | Releasing

  datatype NoticeKind = Success | Failure | Info

  /** A notice: its kind and the translation key of its message. */
  datatype Notice = Notice(kind: NoticeKind, key: string)

  /** How a call to the store settled: resolved, or rejected with an error message. */
  datatype CallOutcome = Resolved | Rejected(message: string)

  /** The outcome a store operation's status produces at the caller. */
  function OutcomeOf(s: Status): CallOutcome {
    match s
    case Done => Resolved
    case Failed(e) => Rejected(Message(e))
  }

  /** The notice after a claim settles. */
  function ClaimNotice(outcome: CallOutcome): (n: Notice)
    ensures n.kind == Success <==> outcome == Resolved
    ensures n.key == "wishlist.error_already_claimed" <==> outcome == OutcomeOf(Failed(AlreadyClaimed))
    ensures outcome == Resolved ==> n == Notice(Success, "wishlist.claim_success")
    ensures outcome.Rejected? && outcome != OutcomeOf(Failed(AlreadyClaimed)) ==> n == Notice(Failure, "wishlist.error_generic")
  {
    match outcome
    case Resolved => Notice(Success, "wishlist.claim_success")
    case Rejected(message) =>
      if message == "wishlist/already-claimed" then Notice(Failure, "wishlist.error_already_claimed")
      else Notice(Failure, "wishlist.error_generic")
  }

  /** The notice after a release settles. */
  function ReleaseNotice(outcome: CallOutcome): (n: Notice)
    ensures n.kind == Success <==> outcome == Resolved
    ensures n.key == "wishlist.error_not_allowed" <==> outcome == OutcomeOf(Failed(NotAllowed))
    ensures outcome == Resolved ==> n == Notice(Success, "wishlist.release_success")
    ensures outcome.Rejected? && outcome != OutcomeOf(Failed(NotAllowed)) ==> n == Notice(Failure, "wishlist.error_generic")
  {
    match outcome
    case Resolved => Notice(Success, "wishlist.release_success")
    case Rejected(message) =>
      if message == "wishlist/not-allowed" then Notice(Failure, "wishlist.error_not_allowed")
      else Notice(Failure, "wishlist.error_generic")
  }

  /** The page's state: stored tokens, the action pending per item, and the notice shown. */
  class PageState {
    var tokens: TokenMap
    var pendingActions: map<Id, PendingAction>
    var notice: Option<Notice>

    /** `stored` is the token map read back from the browser's storage. */
    constructor (stored: TokenMap)
      ensures tokens == stored && pendingActions == map[] && notice == None
    {
      tokens := stored;
      pendingActions := map[];
      notice := None;
    }

    /** The pruning effect, run on every new item list. */
    method OnItems(items: seq<WishlistItem>)
      modifies this`tokens
      ensures tokens == Pruned(old(tokens), items)
    {
      tokens := PruneTokens(tokens, items);
    }

    method SetToken(id: Id, token: Token)
      modifies this`tokens
      ensures tokens == WithToken(old(tokens), id, token)
    {
      tokens := WithToken(tokens, id, token);
    }

    method RemoveToken(id: Id)
      modifies this`tokens
      ensures tokens == WithoutToken(old(tokens), id)
    {
      tokens := WithoutToken(tokens, id);
    }

    /**
     * `handleClaim` up to the call: marks the claim pending and issues it
     * with the fresh `token`; no token is stored yet.
     */
    method BeginClaim(id: Id, token: Token) returns (request: ClaimRequest)
      modifies this`pendingActions
      ensures pendingActions == old(pendingActions)[id := Claiming]
      ensures request == ClaimRequest(id, token, None)
    {
      pendingActions := pendingActions[id := Claiming];
      request := ClaimRequest(id, token, None);
    }

    /**
     * `handleClaim` after the call settles: the token is stored only when
     * the claim resolved; the notice reports the outcome; the pending
     * action is cleared either way.
     */
    method FinishClaim(id: Id, token: Token, outcome: CallOutcome)
      modifies this`tokens, this`pendingActions, this`notice
      ensures tokens == if outcome == Resolved then WithToken(old(tokens), id, token) else old(tokens)
      ensures notice == Some(ClaimNotice(outcome))
      ensures pendingActions == old(pendingActions) - {id}
    {
      if outcome == Resolved {
        SetToken(id, token);
      }
      notice := Some(ClaimNotice(outcome));
      pendingActions := pendingActions - {id};
    }

    /**
     * `handleRelease` up to the call: without a stored (non-empty) token it
     * shows an error and issues nothing; otherwise it marks the release
     * pending and issues an unforced release with that token.
     */
    method BeginRelease(id: Id) returns (request: Option<ReleaseRequest>)
      modifies this`pendingActions, this`notice
      ensures !(id in tokens && tokens[id] != "") ==>
                request == None && notice == Some(Notice(Failure, "wishlist.error_no_token"))
                && pendingActions == old(pendingActions)
      ensures id in tokens && tokens[id] != "" ==>
                request == Some(ReleaseRequest(id, Some(tokens[id]), false))
                && pendingActions == old(pendingActions)[id := Releasing] && notice == old(notice)
    {
      if id !in tokens || tokens[id] == "" {
        notice := Some(Notice(Failure, "wishlist.error_no_token"));
        return None;
      }
      var token := tokens[id];
      pendingActions := pendingActions[id := Releasing];
      request := Some(ReleaseRequest(id, Some(token), false));
    }

    /**
     * `handleRelease` after the call settles: the token is removed only
     * when the release resolved; the notice reports the outcome; the
     * pending action is cleared either way.
     */
    method FinishRelease(id: Id, outcome: CallOutcome)
      modifies this`tokens, this`pendingActions, this`notice
      ensures tokens == if outcome == Resolved then WithoutToken(old(tokens), id) else old(tokens)
      ensures notice == Some(ReleaseNotice(outcome))
      ensures pendingActions == old(pendingActions) - {id}
    {
      if outcome == Resolved {
        RemoveToken(id);
      }
      notice := Some(ReleaseNotice(outcome));
      pendingActions := pendingActions - {id};
    }
  }
}
