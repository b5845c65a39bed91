# Gift-registry invitation site: a verified model of its core

This project models the logic of a small invitation web site: a gift
registry where guests reserve ("claim") items, plus the pages around it.

## Claim/lease engine (`wishlist.dfy`, module `Wishlist`)

The store is a `Store` class that holds a map from item identifier to
document. Claiming and releasing are modelled as follows:

- Each is an atomic read-decide-write on one document.
- The decision is a pure transaction function (`ClaimTx`, `ReleaseTx`). It
  maps the document read to the document written, or to the error raised.
- `Store.Claim` and `Store.Release` commit that result to the map.
- A claim stores the caller's token and an expiry `now + grace` minutes.
- The holder of the token, anyone once the lease has lapsed, or a forced
  release can free the item again.

The module also covers the create and update payload rules, field
sanitisation and the lease-validity test.

## Expiry reclaimer and feed state (`feed.dfy`, module `WishlistFeed`)

- The item feed's `items`/`loading`/`error` state.
- The reclaimer pass. It issues one forced release, without a token, for
  every claimed item whose expiry is at or before `now`.
- The set of releases still in flight, which prevents duplicate releases.

## Guest page (`page.dfy`, module `WishlistPage`)

- The browser's map from item to claim token, pruned on every new item list.
- The "is this my claim" test.
- The split of the list into available and claimed items, each ordered by
  title.
- The bookkeeping around a claim or release call: the pending action, the
  stored token and the notice.

## The other modules

- `countdown.dfy` (`Countdown`): splits the time left until the event into
  days, hours, minutes and seconds.
- `calendar.dfy` (`Calendar`): builds the "add to calendar" file.
  - DATE-TIME values use the UTC form of section 3.3.5 of RFC 5545.
  - Content lines are joined with CRLF, as section 3.1 of RFC 5545 requires.
  - A placeholder link is used when the event time is missing or invalid.
- `rsvp.dfy` (`Rsvp`): the RSVP form.
  - The validation schema.
  - The stored payload.
  - The choice between merging into the invitee's own answer and adding a
    new one.
  - The prefill from a stored answer.
  - The form's loading/success/error state.

## Conventions

Times are integer milliseconds, and the current time is always a parameter.
Asynchronous calls are split into two methods: `Begin…` does the work up to
the call, and `Finish…` takes the call's outcome as a parameter.

Two behaviours of the code are worth knowing:

- **Token pruning ignores expiry.** Pruning keeps a token while its item is
  listed and claimed with that token, even after the lease has lapsed. An
  entry is dropped only when its item is no longer in the list (deleted),
  is no longer claimed (released), or is claimed with a different token.
  `WishlistPage.Pruned` states exactly this, and
  `WishlistPage.LapsedClaimKeepsToken` states the lapsed case.
- **Empty optional RSVP fields.** The schema tries the plain-string
  alternative first, and that alternative accepts `''`. So an empty phone,
  dietary note or message stays `''`. Only an empty e-mail, which fails the
  e-mail check, becomes `undefined`. The stored payload turns `undefined`
  into `''` anyway, so what is written is the same.

## Model

| member | source | states |
|---|---|---|
| Wishlist.Trim | src/lib/wishlist.ts:26 | The result is a slice of the input: all whitespace before it and after it is removed, and the result has no whitespace at either end. It is empty exactly when the input is all whitespace. An already-trimmed string is returned unchanged. |
| Wishlist.SanitizeOptional | src/lib/wishlist.ts:25-28 | Absent, or blank after trimming, gives null. Otherwise the result is the trimmed text, which is non-empty and has no whitespace at either end. |
| Wishlist.SanitizeOptionalIdempotent | src/lib/wishlist.ts:25-28 | Sanitising a sanitised value gives the same value. |
| Wishlist.ToWishlistItem | src/lib/wishlist.ts:30-47 | The item carries the document's identifier and every field of the document unchanged. |
| Wishlist.CreatePayload | src/lib/wishlist.ts:66-86 | Fails with `TitleRequired` exactly when the title is blank, before anything is written. Otherwise: the stored title is the trimmed title, every optional field is sanitised, the item starts unclaimed with a null token and a null expiry, and the document is well formed. |
| Wishlist.Store.constructor | src/lib/wishlist.ts:22-23 | An empty store whose default grace period is the configured one when positive, and 30 minutes otherwise. |
| Wishlist.Store.Create | src/lib/wishlist.ts:66-87 | A blank title leaves the store unchanged. Otherwise exactly one new document is added under the fresh identifier. The store invariant (every document well formed) is kept. |
| Wishlist.BuildUpdate | src/lib/wishlist.ts:91-107 | Fails with `TitleRequired` exactly when a supplied title is blank. Otherwise: the payload writes the trimmed title only if one was supplied, writes each optional field only if supplied (sanitised), and never writes `isClaimed`, `claimToken` or `claimExpiresAt`. |
| Wishlist.UpdatedField | src/lib/wishlist.ts:103-107 | A field that is not supplied keeps its value. A supplied one becomes its sanitised value. A sanitised field stays sanitised. |
| Wishlist.UpdatedDoc | src/lib/wishlist.ts:89-110 | The claim fields are unchanged. A well-formed document stays well formed. The title changes only when one is supplied, and then to its trimmed form. Each of description, link, image URL, price range and category becomes its updated field: unchanged when not supplied, otherwise its sanitised value. |
| Wishlist.Store.Update | src/lib/wishlist.ts:89-110 | A blank title fails before the store is touched, and a missing document gives `NotFound`. Otherwise only the one document changes, to its updated form. No document's claim fields change. The set of identifiers is unchanged. |
| Wishlist.Store.Delete | src/lib/wishlist.ts:112-114 | Exactly the one identifier is removed. Every other document is unchanged. |
| Wishlist.LeaseLapsed | src/lib/wishlist.ts:175 | Release's "claim expired": the item has an expiry and it is at or before `now`. A lapsed lease is never still valid. |
| Wishlist.ActiveLease | src/lib/wishlist.ts:135 | Claim's "already claimed": the item is claimed, has a non-empty token, and has no expiry or one after `now`. An active lease is never lapsed. |
| Wishlist.IsClaimStillValid | src/lib/wishlist.ts:116-120 | An expiry exactly at `now` already counts as expired. |
| Wishlist.DefaultGraceMinutes | src/lib/wishlist.ts:22-23 | Always positive. It is the configured value when that is positive, and 30 minutes otherwise: when nothing is configured, or the configured value is zero or negative. |
| Wishlist.EffectiveGrace | src/lib/wishlist.ts:124 | At least one minute. It is the requested period when one is given, clamped to 1, and otherwise the default. |
| Wishlist.ClaimTx | src/lib/wishlist.ts:133-149 | Fails with `AlreadyClaimed` exactly when the item is claimed, has a non-empty stored token, has a lease that is still valid, and the stored token differs from the caller's. Otherwise the item is claimed with the caller's token until `now + grace` minutes, and its content is unchanged. |
| Wishlist.Store.Claim | src/lib/wishlist.ts:122-151 | A missing identifier gives `NotFound` and changes nothing. Otherwise the claim transaction's document is written, or its error is raised with the store unchanged. The store invariant is kept. |
| Wishlist.ReleaseTx | src/lib/wishlist.ts:163-186 | Fails with `NotAllowed` exactly when: the item is claimed, the release is not forced, the lease has not lapsed, the stored token is non-empty, and it differs from the one supplied. Otherwise the item ends up unclaimed, with a null token and a null expiry, and its content is unchanged. |
| Wishlist.Store.Release | src/lib/wishlist.ts:153-188 | A missing identifier gives `NotFound` and changes nothing. Otherwise the release transaction is committed atomically. |
| Wishlist.ClaimExcludesOthers | src/lib/wishlist.ts:135-139 | Mutual exclusion: after a successful claim with a non-empty token, any other token claiming before the new expiry gets `AlreadyClaimed`. |
| Wishlist.ExactlyOneOfTwoClaimsSucceeds | src/lib/wishlist.ts:135-149 | Of two claims with different tokens on a free item, the first succeeds and the second, made before the first lease ends, is refused. |
| Wishlist.ReclaimBySameToken | src/lib/wishlist.ts:137-149 | A re-claim with the stored token never fails. It only refreshes the claim flag and the expiry. |
| Wishlist.LapsedLeaseIsClaimable | src/lib/wishlist.ts:116-120 | Once the expiry is at or before `now`, any token may claim. |
| Wishlist.HolderMayRelease | src/lib/wishlist.ts:177 | Releasing with the stored token always succeeds. |
| Wishlist.OthersMayNotRelease | src/lib/wishlist.ts:174-179 | Before expiry, an unforced release with any other token, or with none, gets `NotAllowed`. |
| Wishlist.ForcedReleaseSucceeds | src/lib/wishlist.ts:154 | A forced release never fails. |
| Wishlist.LapsedLeaseIsReleasable | src/lib/wishlist.ts:174-179 | A lapsed lease can be released by anyone without force. |
| Wishlist.ReleaseIdempotent | src/lib/wishlist.ts:165-172 | Releasing an item that was just released succeeds and yields the same document. |
| Wishlist.ReleasedItemIsClaimable | src/lib/wishlist.ts:135-139 | After a release, any token can claim. |
| WishlistFeed.ItemsFeed.constructor | src/hooks/useWishlistItems.ts:6-9 | Starts with no items, loading, no error and nothing in flight. |
| WishlistFeed.ItemsFeed.OnItems | src/hooks/useWishlistItems.ts:13-17 | A delivery replaces the whole list, stops loading and clears the error. The in-flight set is untouched. |
| WishlistFeed.ItemsFeed.OnError | src/hooks/useWishlistItems.ts:18-21 | An error records its message and stops loading. The list is unchanged. |
| WishlistFeed.Lapsed | src/hooks/useWishlistItems.ts:33-35 | The reclaimer's test: the item is claimed, has an expiry, and that expiry is at or before `now`. |
| WishlistFeed.ReclaimTargets | src/hooks/useWishlistItems.ts:32-36 | The identifiers one pass issues are exactly the lapsed items (claimed, with an expiry at or before `now`) that are not in flight. None repeats. |
| WishlistFeed.ForcedReleases | src/hooks/useWishlistItems.ts:37 | Every request is a forced release of one identifier, with no token. |
| WishlistFeed.ItemsFeed.ReclaimExpired | src/hooks/useWishlistItems.ts:29-44 | The loop issues exactly the forced releases for the pass's targets, in list order. Each issued identifier joins the in-flight set. |
| WishlistFeed.ItemsFeed.Complete | src/hooks/useWishlistItems.ts:38-41 | A settled release, successful or failed, removes its identifier from the in-flight set. |
| WishlistFeed.RetriedAfterCompletion | src/hooks/useWishlistItems.ts:38-41 | Once an item's release has settled, the item is issued again if it is still lapsed. |
| WishlistFeed.OnlyLapsedItemsAreReclaimed | src/hooks/useWishlistItems.ts:33 | An item that is unclaimed, or has no expiry, is never reclaimed. |
| WishlistFeed.ReclaimRequestsSucceed | src/hooks/useWishlistItems.ts:37 | Every request the reclaimer issues is accepted by the release transaction. |
| WishlistPage.FindItem | src/pages/WishlistPage.tsx:58 | Returns the first item with the identifier: no earlier item has it. Returns nothing exactly when no item has it. |
| WishlistPage.TokenStillHeld | src/pages/WishlistPage.tsx:58-59 | The first item with the identifier is claimed and carries exactly the stored token. |
| WishlistPage.Pruned | src/pages/WishlistPage.tsx:53-65 | An empty list changes nothing. Otherwise exactly the entries whose item is present, claimed, and holds that token are kept, each with its value unchanged. |
| WishlistPage.PruneTokens | src/pages/WishlistPage.tsx:53-65 | The loop with its `changed` flag computes the pruned map. When nothing is deleted, the original map is returned. |
| WishlistPage.PrunedIdempotent | src/pages/WishlistPage.tsx:53-65 | Pruning twice against the same list is the same as pruning once. |
| WishlistPage.WithToken | src/pages/WishlistPage.tsx:74-76 | Inserts or overwrites one key. Every other entry is kept. |
| WishlistPage.WithoutToken | src/pages/WishlistPage.tsx:78-85 | Deletes one key, or is a no-op when the key is absent. Every other entry is kept. |
| WishlistPage.IsOwnClaim | src/pages/WishlistPage.tsx:247 | An item is one's own claim exactly when a non-empty token is stored for it and the item carries that token. |
| WishlistPage.OwnClaimSurvivesPruning | src/pages/WishlistPage.tsx:59 | Pruning never removes one's own claim on a claimed item that the list shows. |
| WishlistPage.OwnClaimAfterPruning | src/pages/WishlistPage.tsx:247 | After pruning, an item is one's own claim exactly when it is claimed and carries the stored non-empty token. |
| WishlistPage.LapsedClaimKeepsToken | src/pages/WishlistPage.tsx:59 | The token of a claimed item whose lease has lapsed survives pruning. |
| WishlistPage.LexLeTotal | src/pages/WishlistPage.tsx:99-100 | The title comparison is total. |
| WishlistPage.LexLeTransitive | src/pages/WishlistPage.tsx:99-100 | The title comparison is transitive. |
| WishlistPage.InsertByTitle | src/pages/WishlistPage.tsx:102-103 | Inserting adds exactly one copy of the item. |
| WishlistPage.InsertKeepsSorted | src/pages/WishlistPage.tsx:102-103 | Inserting into an ordered list keeps it ordered. |
| WishlistPage.SortByTitle | src/pages/WishlistPage.tsx:99-103 | The result is ordered by case-insensitive title and is a permutation of the input. |
| WishlistPage.Partition | src/pages/WishlistPage.tsx:87-106 | Every unclaimed item is in `available` and every claimed item in `claimed`. Together they are a permutation of the list, and each is ordered by title. |
| WishlistPage.ClaimNotice | src/pages/WishlistPage.tsx:120-127 | Success exactly when the claim resolved. The "already claimed" message appears exactly for the store's `AlreadyClaimed` error. A resolved claim shows `claim_success`. Any other rejection shows `error_generic`. |
| WishlistPage.ReleaseNotice | src/pages/WishlistPage.tsx:153-160 | Success exactly when the release resolved. The "not allowed" message appears exactly for the store's `NotAllowed` error. A resolved release shows `release_success`. Any other rejection shows `error_generic`. |
| WishlistPage.PageState.constructor | src/pages/WishlistPage.tsx:43-45 | The page starts with the token map read back from storage, no pending actions and no notice. |
| WishlistPage.PageState.OnItems | src/pages/WishlistPage.tsx:52-66 | Each new list prunes the token map. |
| WishlistPage.PageState.SetToken | src/pages/WishlistPage.tsx:74-76 | The token map gets the one entry. |
| WishlistPage.PageState.RemoveToken | src/pages/WishlistPage.tsx:78-85 | The token map loses the one entry. |
| WishlistPage.PageState.BeginClaim | src/pages/WishlistPage.tsx:114-118 | Marks the claim pending and issues it with the fresh token and the default grace period. No token is stored yet. |
| WishlistPage.PageState.FinishClaim | src/pages/WishlistPage.tsx:118-133 | The token is stored only when the claim resolved. The notice reports the outcome. The pending action is cleared either way. |
| WishlistPage.PageState.BeginRelease | src/pages/WishlistPage.tsx:141-151 | Without a stored non-empty token, it shows `error_no_token` and issues nothing. Otherwise it marks the release pending and issues an unforced release with that token. |
| WishlistPage.PageState.FinishRelease | src/pages/WishlistPage.tsx:151-166 | The token is removed only when the release resolved. The notice reports the outcome. The pending action is cleared either way. |
| Countdown.DifferenceInSeconds | src/components/Countdown.tsx:6 | Whole seconds between the two instants, with the fraction dropped toward zero. |
| Countdown.Split | src/components/Countdown.tsx:6-10 | `days*86400 + hours*3600 + minutes*60 + seconds` equals the total clamped at 0. The parts are bounded: `0 <= hours < 24`, `0 <= minutes < 60` and `0 <= seconds < 60`. A total of 0 or less gives all zeros. |
| Countdown.SplitReconstructs | src/components/Countdown.tsx:7-10 | Division and remainder by day, hour and minute add back up to the total. |
| Countdown.GetTimeParts | src/components/Countdown.tsx:5-12 | A target less than a second ahead, or in the past, gives all zeros. Otherwise the parts add up to the whole seconds left and stay in range. |
| Countdown.CountsDown | src/components/Countdown.tsx:6 | One second later, the total shown is one less. |
| Calendar.DecimalString | src/components/AddToCalendar.tsx:5 | A non-negative integer is written as decimal digits with no leading zero. |
| Calendar.NumberString | src/components/AddToCalendar.tsx:6 | A negative year is written with a leading minus sign before its digits. |
| Calendar.DecimalRoundTrip | src/components/AddToCalendar.tsx:5 | Reading the digits back gives the number. |
| Calendar.Pad | src/components/AddToCalendar.tsx:5 | For 0 to 99, exactly two digits that denote the number. Larger numbers are left as they are. |
| Calendar.FormatICSDate | src/components/AddToCalendar.tsx:4-13 | With a four-digit year: length 16, `T` at index 8, `Z` last, and digits everywhere else. |
| Calendar.FormatICSDateFields | src/components/AddToCalendar.tsx:6-12 | Year, month (counted from 1), day, hours, minutes and seconds each read back from their fixed positions. |
| Calendar.FormatICSDateInjective | src/components/AddToCalendar.tsx:4-13 | Valid distinct fields render differently. |
| Calendar.ReplaceLF | src/components/AddToCalendar.tsx:44-46 | The result has the same length and no line feed. Every line feed becomes a space, and every other character is unchanged. |
| Calendar.SplitJoin | src/components/AddToCalendar.tsx:50 | Lines with no line feed are recovered exactly by splitting their CRLF-joined text. |
| Calendar.Uid | src/components/AddToCalendar.tsx:32 | The start in milliseconds, followed by `@gender-reveal-invite.local`. |
| Calendar.EndMs | src/components/AddToCalendar.tsx:30 | The end is the start plus the duration in minutes. It is at or after the start exactly when the duration is not negative. |
| Calendar.EventProperties | src/components/AddToCalendar.tsx:40-46 | Seven property lines, in order: UID, DTSTAMP, DTSTART and DTEND with the given values, then SUMMARY, DESCRIPTION and LOCATION with the title, description and address after line feeds are replaced. None of them is a `BEGIN` or `END` line. None contains a line feed when the identifier and date-times have none. |
| Calendar.IcsLines | src/components/AddToCalendar.tsx:33-49 | 16 lines. The first is `BEGIN:VCALENDAR`, the last two are `END:VCALENDAR` and an empty line, and exactly one line is `BEGIN:VEVENT` and exactly one `END:VEVENT`. |
| Calendar.IcsText | src/components/AddToCalendar.tsx:33-50 | The text starts with `BEGIN:VCALENDAR` and CR LF and ends with `END:VCALENDAR` and CR LF. Splitting at CR LF gives back its lines. |
| Calendar.EventIcs | src/components/AddToCalendar.tsx:32-50 | Splitting the file at CR LF gives exactly its 16 content lines. These are: the UID from the start; DTSTAMP from `nowMs`; DTSTART and DTEND from the given instants; SUMMARY, DESCRIPTION and LOCATION from the title, description and address with line feeds replaced by spaces. Line 7 is the UID, and lines 9 and 10 are DTSTART and DTEND. |
| Calendar.CalendarLink | src/components/AddToCalendar.tsx:19-55 | A missing, empty or unparseable date-time gives the placeholder `#` named `event.ics`. Otherwise the file is named `gender-reveal.ics`, and its DTEND is the start plus the duration (default 120 minutes). Its text is the event file stamped at `nowMs`, with the configured title (or the default title), the introduction as the description, and the configured address (or `''`). The link is disabled exactly in the placeholder case. |
| Calendar.Disabled | src/components/AddToCalendar.tsx:57 | The link is disabled exactly when it offers no file to download. |
| Rsvp.HeadCount | src/components/RSVPForm.tsx:12 | The head count is accepted exactly when it is an integer from 1 to 20, and it is kept as that integer. |
| Rsvp.OptionalOrEmpty | src/components/RSVPForm.tsx:10-16 | The first alternative wins: an accepted string is kept as it is, an empty string that the first alternative rejects becomes `undefined`, and anything else fails. |
| Rsvp.Validate | src/components/RSVPForm.tsx:8-18 | Succeeds exactly when all of these hold: the name is non-empty (not trimmed); the e-mail passes the e-mail check or is empty; the head count is an integer from 1 to 20; dietary is at most 200 characters; the message is at most 500; the honeypot is empty. The parsed answers keep every value, including an accepted e-mail. |
| Rsvp.BlankNameAccepted | src/components/RSVPForm.tsx:9 | Any non-empty name made only of blanks passes when the other fields do, and is kept untrimmed. |
| Rsvp.HeadCountRejected | src/components/RSVPForm.tsx:12 | Any fractional head count, or any outside 1 to 20, fails whatever the other fields hold. |
| Rsvp.HoneypotBranchUnreachable | src/components/RSVPForm.tsx:17 | A filled honeypot fails the schema, so a successful parse never has one. |
| Rsvp.ToPayload | src/components/RSVPForm.tsx:98-108 | Copies the name, head count, attendance, couch flag and language. An absent optional string becomes `''`. |
| Rsvp.UrlToken | src/components/RSVPForm.tsx:25 | An empty token counts as none. |
| Rsvp.WriteFor | src/components/RSVPForm.tsx:111-121 | With a token, the write merges into that document stamped `updatedAt`. Otherwise it adds a new document stamped `createdAt`. The payload is the same either way. |
| Rsvp.Prefill | src/components/RSVPForm.tsx:47-57 | Missing strings become `''`, a missing or non-number head count becomes 1, and missing flags become false. The honeypot is kept. |
| Rsvp.PrefillRoundTrip | src/components/RSVPForm.tsx:46-108 | Submitting an unchanged form prefilled from a stored answer stores the same answer. |
| Rsvp.RsvpForm.constructor | src/components/RSVPForm.tsx:22-37 | The initial form, not loading, no messages, and the URL token. |
| Rsvp.RsvpForm.ApplyPrefill | src/components/RSVPForm.tsx:39-65 | With a token and a stored answer, the form is prefilled and the prefill notice is shown. Otherwise nothing changes. |
| Rsvp.RsvpForm.BeginSubmit | src/components/RSVPForm.tsx:67-111 | An invalid form shows the error, stops loading and writes nothing. A valid one issues the write of its payload to the target its token selects. |
| Rsvp.RsvpForm.FinishSubmit | src/components/RSVPForm.tsx:122-128 | A settled write shows success or the error. Loading stops either way. |

## Left out

- The document store's plumbing is not modelled: subscriptions, transaction conflict and retry, server timestamps, `updatedAt`, `createdAt` and `lastClaimedAt`. Each transaction is one atomic step on the in-memory map.
- `Wishlist.Store.Update`: when the document is missing, the store's own update call rejects. The model reports this as `NotFound`.
- `Wishlist.ToWishlistItem`: the `?? ''` and `Boolean(...)` coercions for malformed documents are not modelled. Documents are typed here.
- The feed's `subscribeToWishlist` wiring and document order are not modelled. A delivery is just a list.
- `Wishlist.DefaultGraceMinutes` and `Wishlist.EffectiveGrace`: the grace period is an integer number of minutes. Fractional, infinite or NaN values from `Number(...)` are not modelled.
- Clocks (`Date.now`, `new Date()`) are not read: the current time is a parameter. The `isValid` guard on the expiry always holds for an integer instant.
- Token generation (randomness) is not modelled: tokens are parameters. An empty token is possible from the fallback generator, and then it protects nothing; the lemmas that state exclusion assume a non-empty token.
- Persistence of the token map in browser storage is not modelled, nor is the notice's 4-second timer.
- Sharing links, rendering and the admin page are not modelled.
- `WishlistPage.SortByTitle`: locale-aware collation with base sensitivity is modelled only as ASCII case folding followed by code-point order. Accents and other locale rules are not. The source sorts arrays in place; the model sorts sequences. Stability (items with equal titles keeping their list order) is not stated.
- `Countdown.GetTimeParts`: the interval timer that refreshes the parts is not modelled.
- `Calendar.CalendarLink`: parsing the configured date-time and reading an instant's UTC fields belong to the platform, so they are function parameters. The duration is an integer; a NaN duration is not modelled. The object URL is a value holding the file's text.
- `Calendar.FormatICSDate`: its fixed-width shape is stated only for years 1000 to 9999.
- `Rsvp.Validate`: the e-mail format check is a predicate parameter. String lengths count characters, not UTF-16 code units. A head count of NaN or infinity is not modelled; the schema would reject both.
- `Rsvp.Prefill`: stored flags are booleans or absent. Truthiness of other stored values is not modelled.
- Translation is not modelled: notices and messages are their translation keys.
