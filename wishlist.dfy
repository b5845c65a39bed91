/**
 * The claim/lease engine of the gift registry (src/lib/wishlist.ts).
 *
 * A registry item is a document in a store keyed by identifier. Guests
 * reserve ("claim") an item with a private token and a lease that expires
 * after a grace period; the holder of the token, or anyone once the lease
 * has lapsed, or a forced release, frees it again. Each claim and release is
 * one atomic read-decide-write on one document: here a pure function from
 * the document read to the document written (or the error raised), applied
 * to the store by a method of `Store`. Times are integer milliseconds and
 * the current time `now` is a parameter.
 */
module Wishlist {
  import opened Wrappers

  type Id = string
  type Token = string

  /** A point in time, in milliseconds since the epoch. */
  type Millis = int

  const MillisPerMinute: int := 60000

  /** The grace period, in minutes, used when none is configured or the configured one is not positive. */
  const FallbackGraceMinutes: int := 30

  // ------------------------------------------------------------------
  // Trimming and field sanitisation

  /** The characters that JavaScript's String.prototype.trim removes: WhiteSpace and LineTerminator. */
  const SpaceChars: set<char> := {
    '\U{0009}', '\U{000A}', '\U{000B}', '\U{000C}', '\U{000D}', '\U{0020}', '\U{00A0}', '\U{1680}',
    '\U{2000}', '\U{2001}', '\U{2002}', '\U{2003}', '\U{2004}', '\U{2005}', '\U{2006}', '\U{2007}',
    '\U{2008}', '\U{2009}', '\U{200A}', '\U{2028}', '\U{2029}', '\U{202F}', '\U{205F}', '\U{3000}',
    '\U{FEFF}'}

  predicate IsSpace(c: char) {
    c in SpaceChars
  }

  predicate AllSpace(s: string) {
    forall i :: 0 <= i < |s| ==> IsSpace(s[i])
  }

  /** Neither end of `s` is whitespace. */
  predicate Trimmed(s: string) {
    s == [] || (!IsSpace(s[0]) && !IsSpace(s[|s| - 1]))
  }

  /** The number of whitespace characters `s` starts with. */
  function LeadingSpaces(s: string): (n: nat)
    ensures n <= |s|
    ensures forall i :: 0 <= i < n ==> IsSpace(s[i])
    ensures n < |s| ==> !IsSpace(s[n])
  {
    if s != [] && IsSpace(s[0]) then
      var n := 1 + LeadingSpaces(s[1..]);
      assert forall i :: 1 <= i < |s| ==> s[i] == s[1..][i - 1];
      n
    else 0
  }

  /** The number of whitespace characters `s` ends with. */
  function TrailingSpaces(s: string): (n: nat)
    ensures n <= |s|
    ensures forall i :: |s| - n <= i < |s| ==> IsSpace(s[i])
    ensures n < |s| ==> !IsSpace(s[|s| - n - 1])
  {
    if s != [] && IsSpace(s[|s| - 1]) then
      var n := 1 + TrailingSpaces(s[..|s| - 1]);
      assert forall i :: 0 <= i < |s| - 1 ==> s[i] == s[..|s| - 1][i];
      n
    else 0
  }

  /** String.prototype.trim: `s` without its leading and trailing whitespace. */
  function Trim(s: string): (r: string)
    ensures Trimmed(r)
    ensures r == [] <==> AllSpace(s)
    ensures Trimmed(s) ==> r == s
    ensures exists a, b | 0 <= a <= b <= |s| :: r == s[a..b] && AllSpace(s[..a]) && AllSpace(s[b..])
  {
    var a := LeadingSpaces(s);
    if a == |s| then
      assert s[..|s|] == s && s[|s|..|s|] == [] && s[|s|..] == [];
      []
    else
      var b := TrailingSpaces(s);
      assert a < |s| - b;
      assert Trimmed(s) ==> a == 0 && b == 0;
      s[a..|s| - b]
  }

  /** `sanitizeOptional`: absent, or present but blank after trimming, becomes absent; otherwise the trimmed text. */
  function SanitizeOptional(value: Option<string>): (r: Option<string>)
    ensures r.None? <==> value.None? || AllSpace(value.value)
    ensures r.Some? ==> r.value == Trim(value.value) && r.value != [] && Trimmed(r.value)
    ensures Sanitized(r)
  {
    match value
    case None => None
    case Some(v) =>
      var trimmed := Trim(v);
      if |trimmed| > 0 then Some(trimmed) else None
  }

  /** Sanitising an already sanitised value changes nothing. */
  lemma SanitizeOptionalIdempotent(value: Option<string>)
    ensures SanitizeOptional(SanitizeOptional(value)) == SanitizeOptional(value)
  {
  }

  // ------------------------------------------------------------------
  // The stored document and the item the feed delivers

  /** An item document as the store holds it (server timestamps not modelled). */
  datatype Doc = Doc(
    title: string,
    description: Option<string>,
    link: Option<string>,
    imageUrl: Option<string>,
    priceRange: Option<string>,
    category: Option<string>,
    isClaimed: bool,
    claimToken: Option<Token>,
    claimExpiresAt: Option<Millis>)

  /** An item as delivered to clients: the document together with its identifier. */
  datatype WishlistItem = WishlistItem(
    id: Id,
    title: string,
    description: Option<string>,
    link: Option<string>,
    imageUrl: Option<string>,
    priceRange: Option<string>,
    category: Option<string>,
    isClaimed: bool,
    claimToken: Option<Token>,
    claimExpiresAt: Option<Millis>)

  /** The document behind an item: its fields without the identifier. */
  function DocOf(item: WishlistItem): Doc {
    Doc(item.title, item.description, item.link, item.imageUrl, item.priceRange, item.category,
        item.isClaimed, item.claimToken, item.claimExpiresAt)
  }

  /** `toWishlistItem`: attaches the document's identifier and keeps every field. */
  function ToWishlistItem(id: Id, d: Doc): (item: WishlistItem)
    ensures item.id == id && DocOf(item) == d
  {
    WishlistItem(id, d.title, d.description, d.link, d.imageUrl, d.priceRange, d.category,
                 d.isClaimed, d.claimToken, d.claimExpiresAt)
  }

  /** An optional field as sanitisation leaves it: absent or non-empty and trimmed. */
  predicate Sanitized(v: Option<string>) {
    v.None? || (v.value != [] && Trimmed(v.value))
  }

  /** The invariant on every stored document: a non-empty trimmed title and sanitised optional fields. */
  predicate WellFormed(d: Doc) {
    d.title != [] && Trimmed(d.title)
    && Sanitized(d.description) && Sanitized(d.link) && Sanitized(d.imageUrl)
    && Sanitized(d.priceRange) && Sanitized(d.category)
  }

  /** Two documents agree on everything that is not a claim field. */
  predicate SameContent(a: Doc, b: Doc) {
    a.title == b.title && a.description == b.description && a.link == b.link
    && a.imageUrl == b.imageUrl && a.priceRange == b.priceRange && a.category == b.category
  }

  /** Two documents agree on the three claim fields. */
  predicate SameClaim(a: Doc, b: Doc) {
    a.isClaimed == b.isClaimed && a.claimToken == b.claimToken && a.claimExpiresAt == b.claimExpiresAt
  }

  // ------------------------------------------------------------------
  // Errors and outcomes

  datatype Error = NotFound | AlreadyClaimed | NotAllowed | TitleRequired

  /** The message of the Error the source throws. */
  function Message(e: Error): string {
    match e
    case NotFound => "wishlist/not-found"
    case AlreadyClaimed => "wishlist/already-claimed"
    case NotAllowed => "wishlist/not-allowed"
    case TitleRequired => "wishlist/title-required"
  }

  /** The outcome of a store operation: resolved, or rejected with an error. */
  datatype Status = Done | Failed(error: Error)

  /** A request to claim an item, as the page issues it. */
  datatype ClaimRequest = ClaimRequest(id: Id, token: Token, graceMinutes: Option<int>)

  /** A request to release an item; the expiry reclaimer sends no token and forces. */
  datatype ReleaseRequest = ReleaseRequest(id: Id, token: Option<Token>, force: bool)

  // ------------------------------------------------------------------
  // Write payloads

  /** One field of an update payload: left out of the payload, or written with a value. */
  datatype Write<T> = Keep | Put(value: T)

  function Written<T>(w: Write<T>, current: T): T {
    match w
    case Keep => current
    case Put(v) => v
  }

  /** The payload of a document update: which fields it writes and with what. */
  datatype Patch = Patch(
    title: Write<string>,
    description: Write<Option<string>>,
    link: Write<Option<string>>,
    imageUrl: Write<Option<string>>,
    priceRange: Write<Option<string>>,
    category: Write<Option<string>>,
    isClaimed: Write<bool>,
    claimToken: Write<Option<Token>>,
    claimExpiresAt: Write<Option<Millis>>)

  const EmptyPatch: Patch := Patch(Keep, Keep, Keep, Keep, Keep, Keep, Keep, Keep, Keep)

  predicate WritesClaimFields(p: Patch) {
    p.isClaimed.Put? || p.claimToken.Put? || p.claimExpiresAt.Put?
  }

  /** The store's update: every field in the payload is overwritten, every other one kept. */
  function ApplyPatch(d: Doc, p: Patch): Doc {
    Doc(Written(p.title, d.title), Written(p.description, d.description), Written(p.link, d.link),
        Written(p.imageUrl, d.imageUrl), Written(p.priceRange, d.priceRange),
        Written(p.category, d.category), Written(p.isClaimed, d.isClaimed),
        Written(p.claimToken, d.claimToken), Written(p.claimExpiresAt, d.claimExpiresAt))
  }

  // ------------------------------------------------------------------
  // Create and update payload rules

  /** The fields an administrator supplies when creating an item. */
  datatype ItemInput = ItemInput(
    title: string,
    description: Option<string>,
    link: Option<string>,
    imageUrl: Option<string>,
    priceRange: Option<string>,
    category: Option<string>)

  /** A partial update: an absent field is not to be written. */
  datatype ItemUpdate = ItemUpdate(
    title: Option<string>,
    description: Option<string>,
    link: Option<string>,
    imageUrl: Option<string>,
    priceRange: Option<string>,
    category: Option<string>)

  /** The document `createWishlistItem` adds, or `TitleRequired` when the title is blank after trimming. */
  function CreatePayload(input: ItemInput): (r: Result<Doc, Error>)
    ensures r.Err? <==> AllSpace(input.title)
    ensures r.Err? ==> r.error == TitleRequired
    ensures r.Ok? ==> WellFormed(r.value) && r.value.title == Trim(input.title)
    ensures r.Ok? ==> !r.value.isClaimed && r.value.claimToken.None? && r.value.claimExpiresAt.None?
    ensures r.Ok? ==> r.value.description == SanitizeOptional(input.description)
                      && r.value.link == SanitizeOptional(input.link)
                      && r.value.imageUrl == SanitizeOptional(input.imageUrl)
                      && r.value.priceRange == SanitizeOptional(input.priceRange)
                      && r.value.category == SanitizeOptional(input.category)
  {
    var title := Trim(input.title);
    if title == [] then Err(TitleRequired)
    else
      Ok(Doc(title, SanitizeOptional(input.description), SanitizeOptional(input.link),
             SanitizeOptional(input.imageUrl), SanitizeOptional(input.priceRange),
             SanitizeOptional(input.category), false, None, None))
  }

  /** How an optional update field enters the payload: only when supplied, and then sanitised. */
  function SuppliedWrite(v: Option<string>): Write<Option<string>> {
    if v.Some? then Put(SanitizeOptional(v)) else Keep
  }

  /** True when the update supplies a title that is blank after trimming. */
  predicate BlankTitle(update: ItemUpdate) {
    update.title.Some? && AllSpace(update.title.value)
  }

  /**
   * The payload `updateWishlistItem` builds field by field. It fails with
   * `TitleRequired` before anything is written when a supplied title is
   * blank; otherwise it writes exactly the supplied fields and never a
   * claim field.
   */
  method BuildUpdate(update: ItemUpdate) returns (r: Result<Patch, Error>)
    ensures r.Err? <==> BlankTitle(update)
    ensures r.Err? ==> r.error == TitleRequired
    ensures r.Ok? ==> !WritesClaimFields(r.value)
    ensures r.Ok? ==> r.value.title == (if update.title.Some? then Put(Trim(update.title.value)) else Keep)
    ensures r.Ok? ==> r.value.description == SuppliedWrite(update.description)
                      && r.value.link == SuppliedWrite(update.link)
                      && r.value.imageUrl == SuppliedWrite(update.imageUrl)
                      && r.value.priceRange == SuppliedWrite(update.priceRange)
                      && r.value.category == SuppliedWrite(update.category)
  {
    var title: Write<string> := Keep;
    if update.title.Some? {
      var trimmed := Trim(update.title.value);
      if trimmed == [] {
        return Err(TitleRequired);
      }
      title := Put(trimmed);
    }
    var description: Write<Option<string>> := Keep;
    if update.description.Some? {
      description := Put(SanitizeOptional(update.description));
    }
    var link: Write<Option<string>> := Keep;
    if update.link.Some? {
      link := Put(SanitizeOptional(update.link));
    }
    var imageUrl: Write<Option<string>> := Keep;
    if update.imageUrl.Some? {
      imageUrl := Put(SanitizeOptional(update.imageUrl));
    }
    var priceRange: Write<Option<string>> := Keep;
    if update.priceRange.Some? {
      priceRange := Put(SanitizeOptional(update.priceRange));
    }
    var category: Write<Option<string>> := Keep;
    if update.category.Some? {
      category := Put(SanitizeOptional(update.category));
    }
    return Ok(Patch(title, description, link, imageUrl, priceRange, category, Keep, Keep, Keep));
  }

  /** An optional field after an update: the sanitised supplied value, or the current one when not supplied. */
  function UpdatedField(supplied: Option<string>, current: Option<string>): (r: Option<string>)
    ensures supplied.None? ==> r == current
    ensures supplied.Some? ==> r == SanitizeOptional(supplied)
    ensures Sanitized(current) ==> Sanitized(r)
  {
    Written(SuppliedWrite(supplied), current)
  }

  /** The document after an accepted update: supplied fields replaced, claim fields as they were. */
  function UpdatedDoc(d: Doc, update: ItemUpdate): (r: Doc)
    requires !BlankTitle(update)
    ensures SameClaim(r, d)
    ensures WellFormed(d) ==> WellFormed(r)
    ensures update.title.None? ==> r.title == d.title
    ensures update.title.Some? ==> r.title == Trim(update.title.value)
    ensures r.description == UpdatedField(update.description, d.description)
    ensures r.link == UpdatedField(update.link, d.link)
    ensures r.imageUrl == UpdatedField(update.imageUrl, d.imageUrl)
    ensures r.priceRange == UpdatedField(update.priceRange, d.priceRange)
    ensures r.category == UpdatedField(update.category, d.category)
  {
    var title := if update.title.Some? then Trim(update.title.value) else d.title;
    d.(title := title,
       description := UpdatedField(update.description, d.description),
       link := UpdatedField(update.link, d.link),
       imageUrl := UpdatedField(update.imageUrl, d.imageUrl),
       priceRange := UpdatedField(update.priceRange, d.priceRange),
       category := UpdatedField(update.category, d.category))
  }

  // ------------------------------------------------------------------
  // Leases

  /** `isClaimStillValid`: no expiry means still valid; otherwise valid only strictly before the expiry. */
  function IsClaimStillValid(expiresAt: Option<Millis>, now: Millis): (valid: bool)
    ensures expiresAt == Some(now) ==> !valid
  {
    expiresAt.None? || expiresAt.value > now
  }

  /** Release's `claimExpired`: the lease has an expiry and it is no longer valid. */
  predicate LeaseLapsed(expiresAt: Option<Millis>, now: Millis): (lapsed: bool)
    ensures lapsed <==> expiresAt.Some? && expiresAt.value <= now
    ensures lapsed ==> !IsClaimStillValid(expiresAt, now)
  {
    expiresAt.Some? && !IsClaimStillValid(expiresAt, now)
  }

  /** A token field that JavaScript treats as true: present and not the empty string. */
  predicate HasToken(t: Option<Token>) {
    t.Some? && t.value != ""
  }

  /** Claim's `alreadyClaimed`: claimed, with a non-empty token, and a lease that is still valid. */
  predicate ActiveLease(d: Doc, now: Millis): (active: bool)
    ensures active <==> d.isClaimed && d.claimToken.Some? && d.claimToken.value != ""
                        && (d.claimExpiresAt.None? || now < d.claimExpiresAt.value)
    ensures active ==> !LeaseLapsed(d.claimExpiresAt, now)
  {
    d.isClaimed && HasToken(d.claimToken) && IsClaimStillValid(d.claimExpiresAt, now)
  }

  /** `DEFAULT_GRACE_MINUTES`: the configured grace period when positive, else 30 minutes. */
  function DefaultGraceMinutes(configured: Option<int>): (g: int)
    ensures g > 0
    ensures configured.Some? && configured.value > 0 ==> g == configured.value
    ensures configured.None? ==> g == FallbackGraceMinutes
    ensures !(configured.Some? && configured.value > 0) ==> g == FallbackGraceMinutes
  {
    if configured.Some? && configured.value > 0 then configured.value else FallbackGraceMinutes
  }

  /** `effectiveGrace`: the requested grace period, or the default, but never less than one minute. */
  function EffectiveGrace(graceMinutes: Option<int>, defaultMinutes: int): (g: int)
    ensures g >= 1
    ensures graceMinutes.Some? ==> g == if graceMinutes.value >= 1 then graceMinutes.value else 1
    ensures graceMinutes.None? && defaultMinutes >= 1 ==> g == defaultMinutes
  {
    var requested := if graceMinutes.Some? then graceMinutes.value else defaultMinutes;
    if requested > 1 then requested else 1
  }

  /** The write of a successful claim. */
  function ClaimPatch(token: Token, expiresAt: Millis): Patch {
    EmptyPatch.(isClaimed := Put(true), claimToken := Put(Some(token)), claimExpiresAt := Put(Some(expiresAt)))
  }

  /**
   * The claim transaction on the document read: `AlreadyClaimed` exactly
   * when another token holds an active lease; otherwise the document is
   * claimed by `token` until `graceMinutes` minutes after `now`.
   */
  function ClaimTx(d: Doc, token: Token, graceMinutes: int, now: Millis): (r: Result<Doc, Error>)
    ensures r.Err? <==> ActiveLease(d, now) && d.claimToken != Some(token)
    ensures r.Err? ==> r.error == AlreadyClaimed
    ensures r.Ok? ==> r.value.isClaimed && r.value.claimToken == Some(token)
                      && r.value.claimExpiresAt == Some(now + graceMinutes * MillisPerMinute)
    ensures r.Ok? ==> SameContent(r.value, d)
  {
    var alreadyClaimed := ActiveLease(d, now);
    if alreadyClaimed && d.claimToken.value != token then Err(AlreadyClaimed)
    else Ok(ApplyPatch(d, ClaimPatch(token, now + graceMinutes * MillisPerMinute)))
  }

  /** The write of a release when the item is not claimed: only the token and the expiry are cleared. */
  const ClearStalePatch: Patch := EmptyPatch.(claimToken := Put(None), claimExpiresAt := Put(None))

  /** The write of a release when the item is claimed: all three claim fields are cleared. */
  const ReleasePatch: Patch := EmptyPatch.(isClaimed := Put(false), claimToken := Put(None), claimExpiresAt := Put(None))

  /**
   * The release transaction on the document read. It fails with
   * `NotAllowed` exactly when the item is claimed, the release is not
   * forced, the lease has not lapsed, and a non-empty stored token differs
   * from the one supplied; otherwise the item ends up free, with its
   * content untouched.
   */
  function ReleaseTx(d: Doc, token: Option<Token>, force: bool, now: Millis): (r: Result<Doc, Error>)
    ensures r.Err? <==> d.isClaimed && !force && !LeaseLapsed(d.claimExpiresAt, now)
                        && HasToken(d.claimToken) && d.claimToken != token
    ensures r.Err? ==> r.error == NotAllowed
    ensures r.Ok? ==> !r.value.isClaimed && r.value.claimToken.None? && r.value.claimExpiresAt.None?
    ensures r.Ok? ==> SameContent(r.value, d)
  {
    if !d.isClaimed then Ok(ApplyPatch(d, ClearStalePatch))
    else
      var claimExpired := if d.claimExpiresAt.Some? then !IsClaimStillValid(d.claimExpiresAt, now) else false;
      if !force && !claimExpired && HasToken(d.claimToken) && Some(d.claimToken.value) != token then Err(NotAllowed)
      else Ok(ApplyPatch(d, ReleasePatch))
  }

  // ------------------------------------------------------------------
  // Properties of the lease protocol

  /**
   * Mutual exclusion: once `a` has claimed, any other token claiming before
   * the new expiry is refused, whatever grace period it asks for.
   */
  lemma ClaimExcludesOthers(d: Doc, a: Token, b: Token, grace: int, grace': int, t: Millis, t': Millis)
    requires a != "" && a != b
    requires ClaimTx(d, a, grace, t).Ok?
    requires t' < t + grace * MillisPerMinute
    ensures ClaimTx(ClaimTx(d, a, grace, t).value, b, grace', t') == Err(AlreadyClaimed)
  {
  }

  /**
   * Of two claims with different tokens on an item without an active lease,
   * the first succeeds and the second, made before the first one's lease
   * expires, is refused.
   */
  lemma ExactlyOneOfTwoClaimsSucceeds(d: Doc, a: Token, b: Token, grace: int, grace': int, t: Millis, t': Millis)
    requires !ActiveLease(d, t)
    requires a != "" && a != b && grace >= 1
    requires t <= t' < t + grace * MillisPerMinute
    ensures ClaimTx(d, a, grace, t).Ok?
    ensures ClaimTx(ClaimTx(d, a, grace, t).value, b, grace', t') == Err(AlreadyClaimed)
  {
  }

  /** Idempotent re-claim: the holder's token never gets `AlreadyClaimed`, and the expiry is refreshed. */
  lemma ReclaimBySameToken(d: Doc, a: Token, grace: int, now: Millis)
    requires d.claimToken == Some(a)
    ensures ClaimTx(d, a, grace, now).Ok?
    ensures ClaimTx(d, a, grace, now).value == d.(isClaimed := true, claimExpiresAt := Some(now + grace * MillisPerMinute))
  {
  }

  /** Once the expiry is at or before `now`, any token may claim, the previous holder's new token included. */
  lemma LapsedLeaseIsClaimable(d: Doc, b: Token, grace: int, now: Millis)
    requires d.claimExpiresAt.Some? && d.claimExpiresAt.value <= now
    ensures ClaimTx(d, b, grace, now).Ok?
  {
  }

  /** The holder of the stored token may always release. */
  lemma HolderMayRelease(d: Doc, a: Token, now: Millis)
    requires d.claimToken == Some(a)
    ensures ReleaseTx(d, Some(a), false, now).Ok?
  {
  }

  /** Ownership enforcement: before expiry, a release with any other token (or none) is refused. */
  lemma OthersMayNotRelease(d: Doc, a: Token, token: Option<Token>, grace: int, t: Millis, t': Millis)
    requires a != "" && token != Some(a)
    requires ClaimTx(d, a, grace, t).Ok?
    requires t' < t + grace * MillisPerMinute
    ensures ReleaseTx(ClaimTx(d, a, grace, t).value, token, false, t') == Err(NotAllowed)
  {
  }

  /** Force bypasses the ownership check: a forced release of an existing item never fails. */
  lemma ForcedReleaseSucceeds(d: Doc, token: Option<Token>, now: Millis)
    ensures ReleaseTx(d, token, true, now).Ok?
  {
  }

  /** A lapsed lease may be released by anyone, without force and without the token. */
  lemma LapsedLeaseIsReleasable(d: Doc, token: Option<Token>, now: Millis)
    requires LeaseLapsed(d.claimExpiresAt, now)
    ensures ReleaseTx(d, token, false, now).Ok?
  {
  }

  /** Release is idempotent: releasing a released item succeeds and changes nothing. */
  lemma ReleaseIdempotent(d: Doc, token: Option<Token>, force: bool, now: Millis,
                          token': Option<Token>, force': bool, now': Millis)
    requires ReleaseTx(d, token, force, now).Ok?
    ensures ReleaseTx(ReleaseTx(d, token, force, now).value, token', force', now')
         == ReleaseTx(d, token, force, now)
  {
  }

  /** A released item can be claimed by any token. */
  lemma ReleasedItemIsClaimable(d: Doc, token: Option<Token>, force: bool, now: Millis, b: Token, grace: int, now': Millis)
    requires ReleaseTx(d, token, force, now).Ok?
    ensures ClaimTx(ReleaseTx(d, token, force, now).value, b, grace, now').Ok?
  {
  }

  // ------------------------------------------------------------------
  // The store

  /** How a transaction's result is committed: its document written back, or nothing written and its error raised. */
  ghost predicate Committed(r: Result<Doc, Error>, before: map<Id, Doc>, id: Id, s: Status, after: map<Id, Doc>) {
    match r
    case Ok(d) => s == Done && after == before[id := d]
    case Err(e) => s == Failed(e) && after == before
  }

  /** The `wishlistItems` collection, as an in-memory map from identifier to document. */
  class Store {
    var docs: map<Id, Doc>
    /** `DEFAULT_GRACE_MINUTES`, fixed by the configuration when the store is opened. */
    const defaultGrace: int

    ghost predicate Valid()
      reads this
    {
      defaultGrace > 0 && forall id | id in docs :: WellFormed(docs[id])
    }

    constructor (configuredGrace: Option<int>)
      ensures Valid()
      ensures docs == map[] && defaultGrace == DefaultGraceMinutes(configuredGrace)
    {
      docs := map[];
      defaultGrace := DefaultGraceMinutes(configuredGrace);
    }

    /**
     * `createWishlistItem`. `newId` is the identifier the store assigns to
     * the added document, distinct from every existing one.
     */
    method Create(input: ItemInput, newId: Id) returns (s: Status)
      requires Valid()
      requires newId !in docs
      modifies this
      ensures Valid()
      ensures AllSpace(input.title) ==> s == Failed(TitleRequired) && docs == old(docs)
      ensures !AllSpace(input.title) ==> s == Done && docs == old(docs)[newId := CreatePayload(input).value]
    {
      var payload := CreatePayload(input);
      if payload.Err? {
        return Failed(payload.error);
      }
      docs := docs[newId := payload.value];
      return Done;
    }

    /**
     * `updateWishlistItem`: a blank title fails before the store is
     * touched; a missing document fails with `NotFound`; otherwise the
     * supplied fields are merged. No claim field of any document changes.
     */
    method Update(id: Id, update: ItemUpdate) returns (s: Status)
      requires Valid()
      modifies this
      ensures Valid()
      ensures BlankTitle(update) ==> s == Failed(TitleRequired) && docs == old(docs)
      ensures !BlankTitle(update) && id !in old(docs) ==> s == Failed(NotFound) && docs == old(docs)
      ensures !BlankTitle(update) && id in old(docs) ==>
                s == Done && docs == old(docs)[id := UpdatedDoc(old(docs)[id], update)]
      ensures docs.Keys == old(docs).Keys
      ensures forall k | k in docs :: SameClaim(docs[k], old(docs)[k])
    {
      var payload := BuildUpdate(update);
      if payload.Err? {
        return Failed(payload.error);
      }
      if id !in docs {
        return Failed(NotFound);
      }
      var written := ApplyPatch(docs[id], payload.value);
      assert written == UpdatedDoc(docs[id], update);
      docs := docs[id := written];
      return Done;
    }

    /** `deleteWishlistItem`: removes the document; deleting a missing one is not an error. */
    method Delete(id: Id)
      requires Valid()
      modifies this
      ensures Valid()
      ensures docs == old(docs) - {id}
    {
      docs := docs - {id};
    }

    /** `claimWishlistItem`: `NotFound` for a missing document, otherwise the claim transaction, committed atomically. */
    method Claim(id: Id, token: Token, graceMinutes: Option<int>, now: Millis) returns (s: Status)
      requires Valid()
      modifies this
      ensures Valid()
      ensures id !in old(docs) ==> s == Failed(NotFound) && docs == old(docs)
      ensures id in old(docs) ==>
                Committed(ClaimTx(old(docs)[id], token, EffectiveGrace(graceMinutes, defaultGrace), now),
                          old(docs), id, s, docs)
    {
      var grace := EffectiveGrace(graceMinutes, defaultGrace);
      if id !in docs {
        return Failed(NotFound);
      }
      var outcome := ClaimTx(docs[id], token, grace, now);
      match outcome
      case Err(e) =>
        s := Failed(e);
      case Ok(d) =>
        docs := docs[id := d];
        s := Done;
    }

    /** `releaseWishlistItem`: `NotFound` for a missing document, otherwise the release transaction, committed atomically. */
    method Release(id: Id, token: Option<Token>, force: bool, now: Millis) returns (s: Status)
      requires Valid()
      modifies this
      ensures Valid()
      ensures id !in old(docs) ==> s == Failed(NotFound) && docs == old(docs)
      ensures id in old(docs) ==> Committed(ReleaseTx(old(docs)[id], token, force, now), old(docs), id, s, docs)
    {
      if id !in docs {
        return Failed(NotFound);
      }
      var outcome := ReleaseTx(docs[id], token, force, now);
      match outcome
      case Err(e) =>
        s := Failed(e);
      case Ok(d) =>
        docs := docs[id := d];
        s := Done;
    }
  }
}
