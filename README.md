# Dating app core: storage, match, gift and presence rules

This project models the core of a dating web application.

- **Storage.** The server's storage object holds users, profiles, likes, matches, messages, gifts and balances in relational tables. Here it is a class whose fields are those tables:
  - likes is a map keyed by the ordered pair (from, to);
  - matches, messages and gifts are append-only sequences with serial ids;
  - balances is a map keyed by user, holding money in integer cents;
  - every write takes its timestamp from a logical clock.
- **HTTP handlers.** The like handler decides when two users match and stores the pair with the smaller id first. The gift handler prices a gift from a fixed table and credits the recipient. The balance handler defaults to 0.00. The message and profile handlers post a message and save a profile.
- **Websocket presence.** One registry is shared by all connections, and each connection has a session. An auth frame binds a user, a message frame relays to an online recipient, and a close unbinds.
- **Client state machines.** The swipe card's drag gesture, with indicators past 50 pixels and a swipe committed past 100. The profile page's interest editing.

The model follows the code, including these behaviours:
- a repeated mutual like inserts a second match row for the same pair;
- a connection's close removes its user's registry entry even when a newer connection holds it;
- re-authenticating a connection leaves the entry under its previous id in place;
- posting a message does not check that the sender belongs to the match.

Modules:
- `Wrappers`: Option and Result.
- `Schema`: row types, insert payloads, column defaults.
- `Storage`: the storage class and its pure queries.
- `Routes`: the HTTP handlers.
- `Realtime`: connection, registry and session classes.
- `Swipe`: the swipe card.
- `ProfileForm`: the profile edit form.

Database constraints are checked as the database would check them:
- foreign keys;
- the likes primary key;
- unique email;
- unique balance user.

A violation returns a `DbError` and writes nothing.

## Model

| member | source | states |
|---|---|---|
| Schema.InsertDefaults | shared/schema.ts:51-112 | a profile insert without settings is visible with distance 50, ages 18-65, showing everyone; a balance starts at 0.00/0.00; a message without a type is "text" and an explicit null stays null; a null gift message id is stored as null |
| Schema.MergeUser | server/storage.ts:74-79 | the merged user keeps its id and createdAt and is stamped now; each column the payload leaves out keeps its stored value, and each column it gives (a value or null) is stored as given |
| Schema.PatchProfile | server/storage.ts:104-106 | the patched row keeps its id, owner and createdAt and is stamped now; each column the patch leaves out keeps its value, each column it gives is stored as given, and an empty patch changes only updatedAt |
| Storage.GetProfile | server/storage.ts:86-92 | returns a row of the user when one exists, and none exactly when no row belongs to the user |
| Storage.GetDiscoverableProfiles | server/storage.ts:112-158 | at most `limit` results; each result is visible, joined to an existing user, not the caller's own and not already liked or passed by the caller; fewer than `limit` results means every discoverable profile was returned |
| Storage.MutualLikeRowsCount | server/storage.ts:173-188 | the query finds exactly two rows iff the users differ and each has a positive like toward the other |
| Storage.CheckMutualLike | server/storage.ts:173-188 | true iff a differs from b and both directed likes exist with isLike true; a self-like is never mutual |
| Storage.UpsertLike | server/storage.ts:161-171 | exactly one row for (from, to) with the new isLike; on conflict only isLike changes and createdAt is kept; every other like is unchanged; keys stay consistent with rows |
| Storage.GetUserMatches | server/storage.ts:198-233 | a match is listed iff it involves the user, its user1 exists and has a profile row; newest first |
| Storage.UserMatchesMultiplicity | server/storage.ts:225-229 | the join lists each copy of a qualifying match once per profile row of its user1, and a match that does not qualify not at all |
| Storage.GetMatchMessages | server/storage.ts:236-261 | exactly the messages of that match whose sender exists, in ascending creation order |
| Storage.GetBalance | server/storage.ts:285-291 | finds a row iff the user has one, and it is the stored row of that user |
| Storage.AddCents | server/storage.ts:307-308 | SQL addition on a nullable column: null stays null, and a value grows by exactly the amount added |
| Storage.CreditRow | server/storage.ts:293-315 | with no row: a new row seeded with amount = totalEarned = value; otherwise both add the value, totalEarned - amount is unchanged, and a null column stays null |
| Storage.CreditAllAdds | server/storage.ts:293-315 | successive credits to an existing row add up to their sum in both columns |
| Storage.CreditsFromNoRow | server/storage.ts:293-315 | credits to a user with no row create one whose amount and totalEarned both equal the sum |
| Storage.PatchProfiles | server/storage.ts:102-109 | every profile row of the user is patched, every other row is untouched, ids and owners are kept |
| Storage.ProfileCountAppend | server/storage.ts:94-100 | appending a profile row adds one to its owner's row count only |
| Storage.PatchKeepsProfileCount | server/storage.ts:102-109 | an update never changes how many profile rows any user has |
| Storage.PatchedFirstRow | server/storage.ts:102-109 | the user's first row after the update is their first row before it, patched; a user with no row still has none |
| Storage.UpsertUserKeepsValid | server/storage.ts:70-83 | writing a user row whose email no other user holds keeps every table's keys, foreign keys and order |
| Storage.CreateProfileKeepsValid | server/storage.ts:94-100 | appending a profile with the next id for an existing user keeps the table invariants |
| Storage.UpdateProfileKeepsValid | server/storage.ts:102-109 | patching a user's profile rows keeps the table invariants |
| Storage.CreateLikeKeepsValid | server/storage.ts:161-171 | upserting a like between existing users keeps the table invariants |
| Storage.CreateMatchKeepsValid | server/storage.ts:190-196 | appending a match between existing users keeps the table invariants, whether or not the pair already has a match |
| Storage.CreateMessageKeepsValid | server/storage.ts:263-269 | appending a message of an existing match and sender keeps the table invariants |
| Storage.CreateGiftKeepsValid | server/storage.ts:272-282 | appending a gift whose users and linked message exist keeps the table invariants |
| Storage.WriteBalanceKeepsValid | server/storage.ts:293-323 | writing a user's balance row, with an id no larger than the ids handed out, keeps the table invariants |
| Storage.DatabaseStorage.constructor | server/storage.ts:326 | the store starts with every table empty and satisfies its invariants |
| Storage.DatabaseStorage.UpsertUser | server/storage.ts:70-83 | inserts, or on an id conflict overwrites the given columns and updatedAt; an email held by another user is a unique violation with no change |
| Storage.DatabaseStorage.CreateProfile | server/storage.ts:94-100 | appends a defaulted row with the next serial id; an unknown user is a foreign-key violation with no change |
| Storage.DatabaseStorage.UpdateProfile | server/storage.ts:102-109 | patches all the user's rows and stamps them; returns the user's old first row with the patch applied, or none when the user has no profile |
| Storage.DatabaseStorage.CreateLike | server/storage.ts:161-171 | the likes table becomes the upsert of the like; both users must exist |
| Storage.DatabaseStorage.CreateMatch | server/storage.ts:190-196 | always appends a fresh row with id count + 1, never deduplicating; the match count grows by one |
| Storage.DatabaseStorage.CreateMessage | server/storage.ts:263-269 | appends one message and changes nothing else; the match and sender must exist |
| Storage.DatabaseStorage.CreateBalance | server/storage.ts:317-323 | inserts a defaulted row; an unknown user or an existing row for the user is rejected with no change |
| Storage.DatabaseStorage.UpdateBalance | server/storage.ts:293-315 | the user's row becomes the credited row; only a new row consumes a balance id; the invariants (one row per user) are kept |
| Storage.DatabaseStorage.CreateGift | server/storage.ts:272-282 | appends one gift and credits only the recipient's balance, by the gift's value; missing references change nothing |
| Storage.DatabaseStorage.AppendGift | server/storage.ts:272-275 | inserts exactly one gift row with the next id, stamped now, and changes no other table |
| Routes.LexIrreflexive | server/routes.ts:114-115 | no id is smaller than itself under string comparison |
| Routes.LexAsymmetric | server/routes.ts:114-115 | string comparison never orders two ids both ways |
| Routes.LexTransitive | server/routes.ts:114-115 | string comparison is transitive |
| Routes.LexTotal | server/routes.ts:114-115 | any two different ids are ordered one way or the other |
| Routes.LexLess | server/routes.ts:113-115 | the `<` the pair is ordered by: a string is never below itself, and a proper prefix is below every longer string that extends it |
| Routes.CanonicalPair | server/routes.ts:113-116 | the pair is the two ids, smaller first when they differ |
| Routes.CanonicalPairSymmetric | server/routes.ts:113-116 | the stored pair does not depend on which user is the caller |
| Routes.LikeDecision | server/routes.ts:107-117 | a match is made iff the action is a like, not a self-like, and both directed likes are positive after the upsert; its pair is {caller, target} with user1 < user2 |
| Routes.MatchExactlyOnReciprocatedLike | server/routes.ts:107-117 | after the upsert, a match is made iff isLike holds, the users differ and the target already liked the caller; a pass never matches |
| Routes.SameMatchWhicheverSideSecond | server/routes.ts:113-116 | whichever of two users likes second, the match holds the same ordered pair |
| Routes.RepeatedLikeMatchesAgain | server/routes.ts:110-117 | once both like each other, every further like decides on a match again |
| Routes.HandleLike | server/routes.ts:98-125 | upserts the like; with no decision the response has no match and no match row is written; with one, a fresh match row with the canonical pair is appended and returned |
| Routes.GiftValue | server/routes.ts:172-180 | a price exists iff the type is one of the seven listed, and every price is positive |
| Routes.LinkedMessage | server/routes.ts:197 | a missing or zero message id becomes null, any other is kept |
| Routes.HandleGift | server/routes.ts:182-206 | an unknown type is rejected before any write; a known type stores the gift at its price and credits only the recipient, seeding a missing row with the price |
| Routes.GiftRaisesEarnings | server/routes.ts:172-180 | a gift always raises a non-null totalEarned |
| Routes.BalanceResponse | server/routes.ts:209-213 | with no row the response is 0.00 / 0.00, otherwise the row's amount and totalEarned |
| Routes.HandleSendMessage | server/routes.ts:151-169 | stores one message from the caller, typed "text" unless a non-empty type is given; it does not check that the caller belongs to the match |
| Routes.SaveProfile | server/routes.ts:50-67 | with a profile already stored, every row of the caller is patched with the posted fields and the caller's old first row, patched, is returned; with none, one defaulted row built from the posted fields is appended and returned; the caller never gets a second row, other users' counts and the other tables are unchanged, and an unknown caller is a foreign-key violation with no change |
| Routes.RoseScenario | server/routes.ts:172-206 | a rose to a user without a balance stores a 500-cent gift and leaves them at 5.00 / 5.00 |
| Routes.MatchOnDecision | server/routes.ts:108-117 | with a decision, appends exactly one match row holding the decided pair and returns it; with none, writes nothing |
| Routes.OneLikeStore | server/routes.ts:98-125 | a first like between two users records the like and creates no match |
| Routes.MutualLikeScenario | server/routes.ts:98-125 | b2 likes a1 (no match), then a1 likes b2: match 1 is ("a1", "b2") |
| Routes.DuplicateMatchScenario | server/storage.ts:190-196 | liking again after a match leaves two match rows, ids 1 and 2, for the same pair |
| Realtime.Registry.constructor | server/routes.ts:225 | the registry starts with no entries |
| Realtime.Registry.Get | server/routes.ts:242 | a lookup finds a connection iff the user id is registered |
| Realtime.Registry.Set | server/routes.ts:237 | the user's entry becomes the given connection, replacing any other, and every other entry stays |
| Realtime.Registry.Delete | server/routes.ts:258 | the user's entry is gone, whichever connection it held, and every other entry stays |
| Realtime.Connection.Send | server/routes.ts:244-248 | the frame is appended to what the socket has sent, and its state is unchanged |
| Realtime.Session.constructor | server/routes.ts:227-228 | a new connection's session belongs to no user |
| Realtime.Registration | server/routes.ts:234-238 | an event registers a user iff it is an auth frame with a non-empty id |
| Realtime.Forward | server/routes.ts:240-249 | a frame is forwarded iff it is a relay on an authenticated session with a recipient; the forwarded frame names the session's user as sender |
| Realtime.Session.OnMessage | server/routes.ts:230-254 | on a socket that has not closed: auth rebinds the session and overwrites the registry entry for a non-empty id, leaving other entries; a relay appends one frame to an open registered recipient and touches no other connection; anything else changes nothing |
| Realtime.Session.OnClose | server/routes.ts:256-261 | the socket is closed; an authenticated session deletes its user's entry whoever holds it, and an unauthenticated one leaves the registry alone |
| Realtime.StaleCloseScenario | server/routes.ts:256-261 | a superseded connection's close evicts the newer, still open connection of the same user |
| Realtime.ReauthScenario | server/routes.ts:234-238 | after auth as u1 then u2 and a close, u2 is gone and u1 still points at the closed connection |
| Realtime.RelayScenario | server/routes.ts:240-249 | a relay from a1 reaches b2 as exactly one frame with sender a1 |
| Realtime.UndeliveredScenario | server/routes.ts:240-249 | an unauthenticated relay and a relay to an absent user send nothing |
| Swipe.IndicatorsFor | components/SwipeCard.tsx:63-74 | the indicators are never both on; like iff deltaX > 50, nope iff deltaX < -50 |
| Swipe.Verdict | components/SwipeCard.tsx:82-95 | right iff x > 100, left iff x < -100, no swipe iff abs(x) <= 100 |
| Swipe.Invoked | components/SwipeCard.tsx:84-88 | a committed swipe calls at most its own direction's callback, and calls it iff that prop was passed |
| Swipe.StartDrag | components/SwipeCard.tsx:48-51 | dragging starts at the pressed point with the offset kept; a press that begins a drag captures the current offset for its listeners |
| Swipe.MoveTo | components/SwipeCard.tsx:53-75 | nothing changes when not dragging; otherwise the offset is the pointer minus the recorded start, with indicators and rotation following it |
| Swipe.Release | components/SwipeCard.tsx:77-96 | nothing changes when not dragging; otherwise dragging stops and the card either calls its callback in place or snaps back to 0 with indicators off |
| Swipe.RunKeepsConsistent | components/SwipeCard.tsx:53-96 | across any gestures the rotation and indicators keep following the offset |
| Swipe.AsWrittenStaysUncommitted | components/SwipeCard.tsx:129-143 | with the captured listener state, nothing ever fires and every drag starts from offset 0 |
| Swipe.AsWrittenNeverSwipes | components/SwipeCard.tsx:129-143 | as written, no gesture sequence from a fresh card calls a swipe callback |
| Swipe.StaleReleaseLosesSwipe | components/SwipeCard.tsx:129-143 | press at 0, drag to 200, release: as written nothing fires; on the current offset it swipes right |
| Swipe.DragCommitsPastThreshold | components/SwipeCard.tsx:48-96 | press, move, release commits in the move's direction iff it went more than 100 pixels, and otherwise recentres |
| Swipe.SwipeCard.constructor | components/SwipeCard.tsx:37-43 | a card starts at rest, centred, with indicators off |
| Swipe.SwipeCard.HandleStart | components/SwipeCard.tsx:48-51 | the new state is StartDrag of the old |
| Swipe.SwipeCard.HandleMove | components/SwipeCard.tsx:53-75 | the new state is MoveTo of the old |
| Swipe.SwipeCard.HandleEnd | components/SwipeCard.tsx:77-96 | the new state is the release decided on the current offset |
| Swipe.SwipeCard.HandleEndAsWritten | components/SwipeCard.tsx:129-143 | the new state is the release decided on the offset captured at drag start |
| Swipe.SwipeCard.ReleaseAt | components/SwipeCard.tsx:77-96 | the new state is Release of the old at the given offset |
| Swipe.Replay | components/SwipeCard.tsx:48-143 | driving the component through gestures yields the callbacks of the step functions, and none with the as-written release |
| ProfileForm.AddInterest | pages/Profile.tsx:67-74 | an empty or listed interest leaves the form unchanged; a new one is appended last; a duplicate-free list stays duplicate-free; bio, age and photos are untouched |
| ProfileForm.RemoveAll | pages/Profile.tsx:76-81 | the result holds exactly the other elements |
| ProfileForm.RemoveAllConcat | pages/Profile.tsx:76-81 | removal distributes over concatenation, so the remaining interests keep their order |
| ProfileForm.RemoveAbsent | pages/Profile.tsx:76-81 | removing an interest that is not listed changes nothing |
| ProfileForm.RemoveInterest | pages/Profile.tsx:76-81 | every occurrence goes and all other interests stay; bio, age and photos are untouched |
| ProfileForm.AddThenRemove | pages/Profile.tsx:67-81 | adding a fresh interest and then removing it restores the form |
| ProfileForm.NatStringValue | pages/Profile.tsx:52 | the digits of a natural number read back as that number |
| ProfileForm.DecimalStringValue | pages/Profile.tsx:52 | an age's decimal string reads back as the age |
| ProfileForm.FormFor | pages/Profile.tsx:48-58 | a missing bio or age becomes "", missing lists become [], a present age becomes its non-empty decimal string |
| ProfileForm.ProfilePage.constructor | pages/Profile.tsx:17-23 | the page starts not editing with an empty form |
| ProfileForm.ProfilePage.HandleEdit | pages/Profile.tsx:48-58 | editing starts; the form is filled from the profile when there is one and kept otherwise |
| ProfileForm.ProfilePage.HandleInterestAdd | pages/Profile.tsx:67-74 | the form becomes AddInterest of the old form; the editing flag is kept |
| ProfileForm.ProfilePage.HandleInterestRemove | pages/Profile.tsx:76-81 | the form becomes RemoveInterest of the old form; the editing flag is kept |
| ProfileForm.EditInterests | pages/Profile.tsx:48-81 | after editing, adding and removing, the form lists exactly the profile's and the added non-empty interests except the removed one |

## Left out

- Concurrency between requests and between connections is not modelled; execution is sequential. The check-then-insert in the like handler and the read-then-write in the balance credit have no race protection, and the model has nothing to say about races.
- HTTP status codes, request parsing, zod validation and the authentication middleware are not modelled. The authenticated user id is an input, and every failure is a returned error value.
- `GET /api/auth/user`, `GET /api/profile/:userId` and the storage `getUser` lookup are plain reads. They are not modelled separately.
- `parseInt` of the discovery limit, the match id and the form's age is not modelled. Neither is the `|| 10` fallback for the limit. These rely on library parsing semantics.
- `getUserMatches` and `getMatchMessages` return joined user and profile payloads, which are not modelled; only the filter and the order are. The match query joins only on user1Id, so user2 and profile2 repeat user1's data.
- Timestamps are a logical clock, not wall time. A timestamp a caller supplies in a payload is not modelled.
- A serial id consumed by a failed insert is not modelled: ids here are always the table length + 1.
- Cascading deletes are not modelled; no operation deletes.
- Storage.DatabaseStorage.UpdateProfile: a patch that changes the userId column is not modelled. Profile payloads here never carry a userId.
- Storage.GetDiscoverableProfiles: `LIMIT` without `ORDER BY` returns some `limit` rows in an order the database chooses. The model takes the first rows in table order, and its contract does not depend on which rows are taken.
- Storage.GetProfile: among several rows of one user, the database may return any. The model returns the first in table order.
- Storage.DatabaseStorage.UpdateProfile: the `returning()` of an update over several rows of one user lists them in an order the database chooses. The model returns the first patched row in table order.
- Routes.SaveProfile: it returns what the update returns, so it makes the same first-in-table-order choice among several rows of the caller.
- Decimal precision overflow (`decimal(10, 2)`) is not modelled: cents are unbounded integers.
- Routes.GiftValue: gift type names inherited from JavaScript's Object.prototype, such as "toString", are not modelled. The source rejects them with a different status after looking them up, and writes nothing either way.
- Realtime: JSON parsing and non-string ids in frames are not modelled. Neither are the transport and the logging. A frame that fails to parse is the `Malformed` event.
- Routes.LexLess compares per character. JavaScript compares UTF-16 code units, which differ from this only for characters outside the Basic Multilingual Plane.
- Swipe: rotation is kept in tenths of a degree, which equals the horizontal offset. Floating point, sub-pixel coordinates and CSS transforms are not modelled.
- Swipe: the listener registration itself (addEventListener and removal on cleanup) is not modelled. The model keeps only its effect: a release decides on the offset captured at drag start.
- The client reconnect timer, query caching, routing and rendering are not modelled.
- The chat page's placeholder relay target is not modelled, and neither is the gift modal's display-only price list.

## Findings

| source | as written | input that shows it | evidently intended | confidence | as-written member | corrected member |
|---|---|---|---|---|---|---|
| components/SwipeCard.tsx:129-143 | The effect keyed only on `isDragging` registers the mouse-up and touch-end listeners. Those listeners call the `handleEnd` of the render in which dragging began, which still reads that render's `dragOffset`. A release therefore decides on the offset at drag start, which is always 0, so the card always snaps back. | Press at (0, 0), move to (200, 0), release. | The release at offset 200 calls `onSwipeRight`. | not executed | Swipe.StaleReleaseLosesSwipe | Swipe.DragCommitsPastThreshold |
