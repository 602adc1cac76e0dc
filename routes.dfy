/**
 * The HTTP handlers that carry the application's rules: recording a like or
 * pass and creating a match on mutual likes, sending a priced gift, reading
 * a balance with its default, posting a chat message and saving a profile.
 * The authenticated caller's id is an input; request parsing and status
 * codes are not modelled.
 */
module Routes {
  import opened Wrappers
  import opened Schema
  import opened Storage

  // ===================== identifier order =====================

  /** JavaScript's `a < b` on strings: lexicographic, character by character. */
  predicate LexLess(a: string, b: string)
    ensures LexLess(a, b) ==> a != b
    ensures |a| < |b| && a == b[..|a|] ==> LexLess(a, b)
  {
    if a == [] then b != []
    else if b == [] then false
    else if a[0] != b[0] then a[0] < b[0]
    else LexLess(a[1..], b[1..])
  }

  lemma {:induction false} LexIrreflexive(a: string)
    ensures !LexLess(a, a)
  {
    if a != [] {
      LexIrreflexive(a[1..]);
    }
  }

  lemma {:induction false} LexAsymmetric(a: string, b: string)
    ensures LexLess(a, b) ==> !LexLess(b, a)
  {
    if a != [] && b != [] && a[0] == b[0] {
      LexAsymmetric(a[1..], b[1..]);
    }
  }

  lemma {:induction false} LexTransitive(a: string, b: string, c: string)
    ensures LexLess(a, b) && LexLess(b, c) ==> LexLess(a, c)
  {
    if a != [] && b != [] && c != [] && a[0] == b[0] && b[0] == c[0] {
      LexTransitive(a[1..], b[1..], c[1..]);
    }
  }

  lemma {:induction false} LexTotal(a: string, b: string)
    ensures a != b ==> LexLess(a, b) || LexLess(b, a)
  {
    if a != [] && b != [] && a[0] == b[0] {
      LexTotal(a[1..], b[1..]);
      if a[1..] == b[1..] {
        assert a == [a[0]] + a[1..] && b == [b[0]] + b[1..];
      }
    }
  }

  /**
   * The stored order of a match's pair: the smaller id first, as the like
   * handler computes user1Id and user2Id.
   */
  function CanonicalPair(a: UserId, b: UserId): (r: (UserId, UserId))
    ensures (r.0 == a && r.1 == b) || (r.0 == b && r.1 == a)
    ensures a != b ==> LexLess(r.0, r.1)
  {
    LexTotal(a, b);
    if LexLess(a, b) then (a, b) else (b, a)
  }

  /** The pair is the same whichever of the two users is the caller. */
  lemma CanonicalPairSymmetric(a: UserId, b: UserId)
    ensures CanonicalPair(a, b) == CanonicalPair(b, a)
  {
    LexAsymmetric(a, b);
    LexTotal(a, b);
  }

  // ===================== likes and matches =====================

  /**
   * The like handler's decision, on the likes table after the upsert: the
   * pair of a new match, or none. Only a like checks mutuality.
   */
  function LikeDecision(likes: LikeTable, caller: UserId, toUserId: UserId, isLike: bool)
    : (r: Option<(UserId, UserId)>)
    ensures r.Some? <==> isLike && caller != toUserId && Likes(likes, caller, toUserId) && Likes(likes, toUserId, caller)
    ensures r.Some? ==> LexLess(r.value.0, r.value.1)
    ensures r.Some? ==> r.value == (caller, toUserId) || r.value == (toUserId, caller)
  {
    if isLike && CheckMutualLike(likes, caller, toUserId) then Some(CanonicalPair(caller, toUserId)) else None
  }

  /**
   * A like creates a match exactly when it is a like, is not a self-like,
   * and the other user already has a like row toward the caller; a pass never does.
   */
  lemma MatchExactlyOnReciprocatedLike(likes: LikeTable, caller: UserId, toUserId: UserId, isLike: bool, now: Timestamp)
    ensures LikeDecision(UpsertLike(likes, InsertLike(caller, toUserId, isLike), now), caller, toUserId, isLike).Some?
        <==> isLike && caller != toUserId && Likes(likes, toUserId, caller)
  {
  }

  /** Whichever of a and b likes second, the match row holds the same ordered pair. */
  lemma {:induction false} SameMatchWhicheverSideSecond(likes: LikeTable, a: UserId, b: UserId, t1: Timestamp, t2: Timestamp)
    requires a != b
    ensures var afterA := UpsertLike(likes, InsertLike(a, b, true), t1);
      LikeDecision(UpsertLike(afterA, InsertLike(b, a, true), t2), b, a, true) == Some(CanonicalPair(a, b))
    ensures var afterB := UpsertLike(likes, InsertLike(b, a, true), t1);
      LikeDecision(UpsertLike(afterB, InsertLike(a, b, true), t2), a, b, true) == Some(CanonicalPair(a, b))
  {
    CanonicalPairSymmetric(a, b);
  }

  /**
   * Nothing looks at existing matches: liking again after a match exists
   * decides on a match again, and the handler inserts a second row.
   */
  lemma RepeatedLikeMatchesAgain(likes: LikeTable, a: UserId, b: UserId, now: Timestamp)
    requires a != b && Likes(likes, a, b) && Likes(likes, b, a)
    ensures LikeDecision(UpsertLike(likes, InsertLike(a, b, true), now), a, b, true) == Some(CanonicalPair(a, b))
  {
  }

  datatype LikeResponse = LikeResponse(like: Like, matched: Option<Match>)

  /** The second half of the like handler: insert the decided match, if any. */
  method MatchOnDecision(db: DatabaseStorage, decision: Option<(UserId, UserId)>) returns (matched: Option<Match>)
    requires db.Valid()
    requires decision.Some? ==> decision.value.0 in db.users && decision.value.1 in db.users
    modifies db
    ensures db.Valid()
    ensures decision.None? ==> matched.None? && db.Snapshot() == old(db.Snapshot())
    ensures decision.Some? ==>
      && matched == Some(Match(|old(db.matches)| + 1, decision.value.0, decision.value.1, old(db.clock)))
      && db.Snapshot() == old(db.Snapshot()).(matches := old(db.matches) + [matched.value], clock := old(db.clock) + 1)
  {
    matched := None;
    if decision.Some? {
      var created := db.CreateMatch(InsertMatch(decision.value.0, decision.value.1));
      matched := Some(created.value);
    }
  }

  /** `POST /api/like`: upsert the like, then on a mutual like insert a match. */
  method HandleLike(db: DatabaseStorage, userId: UserId, toUserId: UserId, isLike: bool)
    returns (r: Result<LikeResponse, DbError>)
    requires db.Valid()
    modifies db
    ensures db.Valid()
    ensures !(userId in old(db.users) && toUserId in old(db.users)) ==>
      r == Failure(ForeignKeyViolation) && db.Snapshot() == old(db.Snapshot())
    ensures userId in old(db.users) && toUserId in old(db.users) ==>
      var likes' := UpsertLike(old(db.likes), InsertLike(userId, toUserId, isLike), old(db.clock));
      var decision := LikeDecision(likes', userId, toUserId, isLike);
      && r.Success?
      && r.value.like == likes'[(userId, toUserId)]
      && (decision.None? ==>
            r.value.matched.None?
            && db.Snapshot() == old(db.Snapshot()).(likes := likes', clock := old(db.clock) + 1))
      && (decision.Some? ==>
            r.value.matched == Some(Match(|old(db.matches)| + 1, decision.value.0, decision.value.1, old(db.clock) + 1))
            && db.Snapshot() == old(db.Snapshot()).(likes := likes', matches := old(db.matches) + [r.value.matched.value],
                                                    clock := old(db.clock) + 2))
  {
    var like :- db.CreateLike(InsertLike(userId, toUserId, isLike));
    var matched := MatchOnDecision(db, LikeDecision(db.likes, userId, toUserId, isLike));
    return Success(LikeResponse(like, matched));
  }

  // ===================== gifts and balances =====================

  const GiftTypes: set<string> := {"coffee", "rose", "chocolate", "diamond", "surprise", "champagne", "superlike"}

  /** The `giftValues` price table, in cents. */
  function GiftValue(giftType: string): (r: Option<Cents>)
    ensures r.Some? <==> giftType in GiftTypes
    ensures r.Some? ==> r.value > 0
  {
    if giftType == "coffee" then Some(250)
    else if giftType == "rose" then Some(500)
    else if giftType == "chocolate" then Some(750)
    else if giftType == "diamond" then Some(1500)
    else if giftType == "surprise" then Some(1000)
    else if giftType == "champagne" then Some(2500)
    else if giftType == "superlike" then Some(750)
    else None
  }

  /** `messageId || null`: a missing or zero message id links no message. */
  function LinkedMessage(messageId: Option<int>): (r: Field<int>)
    ensures r.Null? <==> messageId.None? || messageId.value == 0
    ensures r.Given? ==> Some(r.value) == messageId
  {
    if messageId.None? || messageId.value == 0 then Null else Given(messageId.value)
  }

  datatype GiftError = InvalidGiftType | GiftStorageError(error: DbError)

  /**
   * `POST /api/gifts`: reject an unknown type before any write; otherwise
   * store the gift at its price and credit the recipient's balance.
   */
  method HandleGift(db: DatabaseStorage, userId: UserId, toUserId: UserId, giftType: string, messageId: Option<int>)
    returns (r: Result<Gift, GiftError>)
    requires db.Valid()
    modifies db
    ensures db.Valid()
    ensures giftType !in GiftTypes ==> r == Failure(InvalidGiftType) && db.Snapshot() == old(db.Snapshot())
    ensures giftType in GiftTypes ==>
      var g := InsertGift(userId, toUserId, giftType, GiftValue(giftType).value, LinkedMessage(messageId));
      if !GiftReferencesExist(old(db.users), old(db.messages), g) then
        r == Failure(GiftStorageError(ForeignKeyViolation)) && db.Snapshot() == old(db.Snapshot())
      else
        && r == Success(NewGift(|old(db.gifts)| + 1, g, old(db.clock)))
        && db.gifts == old(db.gifts) + [r.value]
        && (forall u :: u != toUserId ==> (u in db.balances <==> u in old(db.balances)))
        && (forall u :: u != toUserId && u in db.balances ==> db.balances[u] == old(db.balances)[u])
        && (toUserId !in old(db.balances) ==>
              toUserId in db.balances && db.balances[toUserId].amount == Some(g.value) && db.balances[toUserId].totalEarned == Some(g.value))
        && (toUserId in old(db.balances) ==>
              toUserId in db.balances && db.balances[toUserId].amount == AddCents(old(db.balances)[toUserId].amount, g.value)
              && db.balances[toUserId].totalEarned == AddCents(old(db.balances)[toUserId].totalEarned, g.value))
        && db.Snapshot().(gifts := old(db.gifts), balances := old(db.balances), balanceCount := old(db.balanceCount),
                          clock := old(db.clock)) == old(db.Snapshot())
  {
    var value := GiftValue(giftType);
    if value.None? {
      return Failure(InvalidGiftType);
    }
    var g := InsertGift(userId, toUserId, giftType, value.value, LinkedMessage(messageId));
    var created := db.CreateGift(g);
    match created
    case Failure(e) => return Failure(GiftStorageError(e));
    case Success(gift) => return Success(gift);
  }

  datatype BalanceView = BalanceView(amount: Option<Cents>, totalEarned: Option<Cents>)

  /** `GET /api/balance`: the caller's row, or 0.00 / 0.00 when there is none. */
  function BalanceResponse(balances: BalanceTable, u: UserId): (r: BalanceView)
    requires BalancesKeyed(balances)
    ensures u !in balances ==> r == BalanceView(Some(0), Some(0))
    ensures u in balances ==> r.amount == balances[u].amount && r.totalEarned == balances[u].totalEarned
  {
    match GetBalance(balances, u)
    case None => BalanceView(Some(DefaultAmount), Some(DefaultAmount))
    case Some(b) => BalanceView(b.amount, b.totalEarned)
  }

  // ===================== messages and profiles =====================

  /**
   * `POST /api/matches/:matchId/messages`: store the message from the caller,
   * typed "text" unless the request names a type. Nothing checks that the
   * caller belongs to the match.
   */
  method HandleSendMessage(db: DatabaseStorage, userId: UserId, matchId: int, content: string, messageType: Option<string>)
    returns (r: Result<Message, DbError>)
    requires db.Valid()
    modifies db
    ensures db.Valid()
    ensures var ty := if messageType.None? || messageType.value == "" then "text" else messageType.value;
      if 1 <= matchId <= |old(db.matches)| && userId in old(db.users) then
        && r == Success(Message(|old(db.messages)| + 1, matchId, userId, content, Some(ty), old(db.clock)))
        && db.Snapshot() == old(db.Snapshot()).(messages := old(db.messages) + [r.value], clock := old(db.clock) + 1)
      else r == Failure(ForeignKeyViolation) && db.Snapshot() == old(db.Snapshot())
  {
    var ty := if messageType.None? || messageType.value == "" then "text" else messageType.value;
    r := db.CreateMessage(InsertMessage(matchId, userId, content, Given(ty)));
  }

  /**
   * `POST /api/profile`: update the caller's profile rows when one exists,
   * otherwise create one. Run alone, it leaves a user with one profile row
   * when they had none and never adds a second.
   */
  method SaveProfile(db: DatabaseStorage, userId: UserId, fields: ProfileFields) returns (r: Result<Profile, DbError>)
    requires db.Valid()
    modifies db
    ensures db.Valid()
    ensures userId !in old(db.users) ==> r == Failure(ForeignKeyViolation) && db.Snapshot() == old(db.Snapshot())
    ensures userId in old(db.users) ==>
      && r.Success? && r.value.userId == userId && r.value in db.profiles
      && ProfileCount(db.profiles, userId) == (if ProfileCount(old(db.profiles), userId) == 0 then 1
                                               else ProfileCount(old(db.profiles), userId))
      && (forall v :: v != userId ==> ProfileCount(db.profiles, v) == ProfileCount(old(db.profiles), v))
    ensures userId in old(db.users) ==>
      var before := GetProfile(old(db.profiles), userId);
      && db.clock == old(db.clock) + 1
      && (before.Some? ==>
            && db.profiles == PatchProfiles(old(db.profiles), userId, fields, old(db.clock))
            && r == Success(PatchProfile(before.value, fields, old(db.clock))))
      && (before.None? ==>
            && r == Success(NewProfile(|old(db.profiles)| + 1, InsertProfile(userId, fields), old(db.clock)))
            && db.profiles == old(db.profiles) + [r.value])
    ensures db.Snapshot().(profiles := old(db.profiles), clock := old(db.clock)) == old(db.Snapshot())
  {
    var existing := GetProfile(db.profiles, userId);
    if existing.Some? {
      var updated := db.UpdateProfile(userId, fields);
      forall v {
        PatchKeepsProfileCount(old(db.profiles), userId, fields, old(db.clock), v);
      }
      assert existing.value in old(db.profiles);
      return Success(updated.value);
    }
    r := db.CreateProfile(InsertProfile(userId, fields));
    if r.Success? {
      forall v {
        ProfileCountAppend(old(db.profiles), r.value, v);
      }
    }
  }

  /** Every gift is worth more than nothing, so crediting one raises a non-null totalEarned. */
  lemma GiftRaisesEarnings(existing: Option<Balance>, freshId: nat, u: UserId, giftType: string, now: Timestamp)
    requires giftType in GiftTypes
    requires existing.Some? && existing.value.totalEarned.Some?
    ensures var r := CreditRow(existing, freshId, u, GiftValue(giftType).value, now);
      r.totalEarned.Some? && r.totalEarned.value > existing.value.totalEarned.value
  {
  }

  // ===================== end-to-end runs =====================

  /** A fresh store holding two users with no email and no other rows. */
  method StoreWithUsers(a: UserId, b: UserId) returns (db: DatabaseStorage)
    requires a != b
    ensures fresh(db) && db.Valid()
    ensures db.users.Keys == {a, b}
    ensures db.profiles == [] && db.likes == map[] && db.matches == [] && db.messages == []
    ensures db.gifts == [] && db.balances == map[] && db.balanceCount == 0
  {
    db := new DatabaseStorage();
    var ra := db.UpsertUser(UpsertUser(a, Omitted, Omitted, Omitted, Omitted));
    var rb := db.UpsertUser(UpsertUser(b, Omitted, Omitted, Omitted, Omitted));
  }

  /** A rose to a user without a balance row leaves them at 5.00 earned and 5.00 held. */
  method RoseScenario() returns (gift: Result<Gift, GiftError>, view: BalanceView)
    ensures gift.Success? && gift.value.value == 500 && gift.value.messageId.None?
    ensures view == BalanceView(Some(500), Some(500))
  {
    var db := StoreWithUsers("a1", "b2");
    gift := HandleGift(db, "a1", "b2", "rose", Some(0));
    view := BalanceResponse(db.balances, "b2");
  }

  /** Two users, and one like from `a` to `b`: no match yet. */
  method OneLikeStore(a: UserId, b: UserId) returns (db: DatabaseStorage, first: Option<Match>)
    requires a != b
    ensures fresh(db) && db.Valid()
    ensures a in db.users && b in db.users
    ensures Likes(db.likes, a, b) && db.matches == []
    ensures first.None?
  {
    db := StoreWithUsers(a, b);
    var r := HandleLike(db, a, b, true);
    first := r.value.matched;
  }

  /**
   * b2 likes a1, then a1 likes b2: the first like matches nothing, the
   * second creates match 1 with the smaller id "a1" first.
   */
  method MutualLikeScenario() returns (first: Option<Match>, second: Option<Match>)
    ensures first.None?
    ensures second.Some? && second.value.id == 1
    ensures second.value.user1Id == "a1" && second.value.user2Id == "b2"
  {
    var db;
    db, first := OneLikeStore("b2", "a1");
    assert LexLess("a1", "b2");
    assert LikeDecision(UpsertLike(db.likes, InsertLike("a1", "b2", true), db.clock), "a1", "b2", true) == Some(("a1", "b2"));
    var r := HandleLike(db, "a1", "b2", true);
    second := r.value.matched;
  }

  /** a1 and b2 after liking each other: one match row, ordered "a1" then "b2". */
  method MatchedStore() returns (db: DatabaseStorage)
    ensures fresh(db) && db.Valid()
    ensures "a1" in db.users && "b2" in db.users
    ensures Likes(db.likes, "a1", "b2") && Likes(db.likes, "b2", "a1")
    ensures |db.matches| == 1 && db.matches[0].id == 1
    ensures db.matches[0].user1Id == "a1" && db.matches[0].user2Id == "b2"
  {
    var first;
    db, first := OneLikeStore("a1", "b2");
    assert LexLess("a1", "b2");
    assert LikeDecision(UpsertLike(db.likes, InsertLike("b2", "a1", true), db.clock), "b2", "a1", true) == Some(("a1", "b2"));
    var r := HandleLike(db, "b2", "a1", true);
  }

  /** Liking again after a match inserts a second row for the same pair. */
  method DuplicateMatchScenario() returns (matches: seq<Match>)
    ensures |matches| == 2 && matches[0].id == 1 && matches[1].id == 2
    ensures matches[0].user1Id == matches[1].user1Id == "a1"
    ensures matches[0].user2Id == matches[1].user2Id == "b2"
  {
    var db := MatchedStore();
    assert LexLess("a1", "b2");
    assert LikeDecision(UpsertLike(db.likes, InsertLike("b2", "a1", true), db.clock), "b2", "a1", true) == Some(("a1", "b2"));
    var r := HandleLike(db, "b2", "a1", true);
    matches := db.matches;
  }
}
