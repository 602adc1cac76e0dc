/**
 * The storage layer: the tables held in memory by one object whose methods
 * are the repository's writes, and pure functions over the tables for its
 * queries. Foreign keys, the likes primary key and the unique columns are
 * checked as the database would check them, and a violation is returned as
 * an error with nothing written.
 */
module Storage {
  import opened Wrappers
  import opened Schema

  datatype DbError = ForeignKeyViolation | UniqueViolation

  type UserTable = map<UserId, User>
  /** Likes keyed by their composite primary key (fromUserId, toUserId). */
  type LikeTable = map<(UserId, UserId), Like>
  /** Balances keyed by their unique userId column. */
  type BalanceTable = map<UserId, Balance>

  ghost predicate UsersKeyed(users: UserTable) {
    forall k :: k in users ==> users[k].id == k
  }

  ghost predicate LikesKeyed(likes: LikeTable) {
    forall k :: k in likes ==> likes[k].fromUserId == k.0 && likes[k].toUserId == k.1
  }

  ghost predicate BalancesKeyed(balances: BalanceTable) {
    forall k :: k in balances ==> balances[k].userId == k
  }

  /** Unique email: two distinct users never share a non-null email. */
  ghost predicate EmailsUnique(users: UserTable) {
    forall a, b :: a in users && b in users && a != b && users[a].email.Some? ==> users[a].email != users[b].email
  }

  ghost predicate AscendingMatches(s: seq<Match>) {
    forall i, j :: 0 <= i < j < |s| ==> s[i].createdAt < s[j].createdAt
  }

  ghost predicate AscendingMessages(s: seq<Message>) {
    forall i, j :: 0 <= i < j < |s| ==> s[i].createdAt < s[j].createdAt
  }

  // ===================== queries =====================

  /** `getProfile`: the first profile row of `u` in table order, if any. */
  function GetProfile(profiles: seq<Profile>, u: UserId): (r: Option<Profile>)
    ensures r.Some? ==> r.value in profiles && r.value.userId == u
    ensures r.None? ==> forall p :: p in profiles ==> p.userId != u
  {
    if profiles == [] then None
    else if profiles[0].userId == u then Some(profiles[0])
    else GetProfile(profiles[1..], u)
  }

  /** The number of profile rows of `u`, which is how often a join on userId repeats a row. */
  function ProfileCount(profiles: seq<Profile>, u: UserId): (r: nat)
    ensures r <= |profiles|
    ensures r == 0 <==> forall p :: p in profiles ==> p.userId != u
  {
    if profiles == [] then 0
    else (if profiles[0].userId == u then 1 else 0) + ProfileCount(profiles[1..], u)
  }

  /** The subquery of `getDiscoverableProfiles`: `u` has a like or pass row toward `v`. */
  predicate Swiped(likes: LikeTable, u: UserId, v: UserId) {
    (u, v) in likes
  }

  /** The where clause and inner join of `getDiscoverableProfiles`. */
  predicate Discoverable(p: Profile, users: UserTable, likes: LikeTable, u: UserId) {
    && p.userId in users
    && p.isVisible == Some(true)
    && p.userId != u
    && !Swiped(likes, u, p.userId)
  }

  datatype DiscoveredProfile = DiscoveredProfile(profile: Profile, user: User)

  /**
   * `getDiscoverableProfiles(u, limit)`: at most `limit` discoverable
   * profiles joined with their users. The query has no order by; the model
   * returns them in table order.
   */
  function GetDiscoverableProfiles(profiles: seq<Profile>, users: UserTable, likes: LikeTable, u: UserId, limit: nat)
    : (r: seq<DiscoveredProfile>)
    ensures |r| <= limit
    ensures forall d :: d in r ==>
      d.profile in profiles && Discoverable(d.profile, users, likes, u) && d.user == users[d.profile.userId]
    ensures |r| < limit ==> forall p :: p in profiles && Discoverable(p, users, likes, u) ==>
      DiscoveredProfile(p, users[p.userId]) in r
  {
    if profiles == [] || limit == 0 then []
    else if Discoverable(profiles[0], users, likes, u) then
      [DiscoveredProfile(profiles[0], users[profiles[0].userId])]
        + GetDiscoverableProfiles(profiles[1..], users, likes, u, limit - 1)
    else GetDiscoverableProfiles(profiles[1..], users, likes, u, limit)
  }

  /** True when `a` has a like row toward `b` that is a like, not a pass. */
  predicate Likes(likes: LikeTable, a: UserId, b: UserId) {
    (a, b) in likes && likes[(a, b)].isLike
  }

  /** The rows `checkMutualLike(a, b)` selects, named by their primary keys. */
  function MutualLikeRows(likes: LikeTable, a: UserId, b: UserId): set<(UserId, UserId)> {
    set k | k in likes.Keys && (k == (a, b) || k == (b, a)) && likes[k].isLike
  }

  lemma MutualLikeRowsCount(likes: LikeTable, a: UserId, b: UserId)
    ensures |MutualLikeRows(likes, a, b)| == 2 <==> a != b && Likes(likes, a, b) && Likes(likes, b, a)
  {
    var s := MutualLikeRows(likes, a, b);
    if a == b {
      assert s == {} || s == {(a, a)};
    } else if Likes(likes, a, b) && Likes(likes, b, a) {
      assert s == {(a, b), (b, a)};
    } else if Likes(likes, a, b) {
      assert s == {(a, b)};
    } else if Likes(likes, b, a) {
      assert s == {(b, a)};
    } else {
      assert s == {};
    }
  }

  /**
   * `checkMutualLike(a, b)`: exactly two rows match. That is both directions
   * being likes, and never holds for a == b, where only one row can match.
   */
  function CheckMutualLike(likes: LikeTable, a: UserId, b: UserId): (r: bool)
    ensures r <==> a != b && Likes(likes, a, b) && Likes(likes, b, a)
  {
    MutualLikeRowsCount(likes, a, b);
    |MutualLikeRows(likes, a, b)| == 2
  }

  /**
   * The likes table after `createLike(l)`: insert, or on a primary-key
   * conflict set only isLike (the row keeps its createdAt).
   */
  function UpsertLike(likes: LikeTable, l: InsertLike, now: Timestamp): (r: LikeTable)
    ensures r.Keys == likes.Keys + {(l.fromUserId, l.toUserId)}
    ensures r[(l.fromUserId, l.toUserId)].isLike == l.isLike
    ensures (l.fromUserId, l.toUserId) in likes ==>
      r[(l.fromUserId, l.toUserId)] == likes[(l.fromUserId, l.toUserId)].(isLike := l.isLike)
    ensures (l.fromUserId, l.toUserId) !in likes ==> r[(l.fromUserId, l.toUserId)].createdAt == now
    ensures forall k :: k in likes && k != (l.fromUserId, l.toUserId) ==> r[k] == likes[k]
    ensures LikesKeyed(likes) ==> LikesKeyed(r)
  {
    var key := (l.fromUserId, l.toUserId);
    if key in likes then likes[key := likes[key].(isLike := l.isLike)]
    else likes[key := NewLike(l, now)]
  }

  predicate Involves(m: Match, u: UserId) {
    m.user1Id == u || m.user2Id == u
  }

  /** `k` copies of one row, as a join with k matching rows yields. */
  function Repeat(x: Match, k: nat): (r: seq<Match>)
    ensures |r| == k
    ensures forall i :: 0 <= i < k ==> r[i] == x
    ensures forall y :: y in r <==> k > 0 && y == x
  {
    if k == 0 then [] else [x] + Repeat(x, k - 1)
  }

  /**
   * `getUserMatches(u)`: the matches with u on either side, newest first. The
   * query joins users and profiles on user1Id only, so a match appears once
   * per profile row of its user1 and not at all when user1 has none.
   */
  function GetUserMatches(matches: seq<Match>, users: UserTable, profiles: seq<Profile>, u: UserId)
    : (r: seq<Match>)
    ensures forall m :: m in r <==>
      m in matches && Involves(m, u) && m.user1Id in users && ProfileCount(profiles, m.user1Id) > 0
    ensures AscendingMatches(matches) ==> forall i, j :: 0 <= i < j < |r| ==> r[i].createdAt >= r[j].createdAt
  {
    if matches == [] then []
    else
      var n := |matches| - 1;
      var last := matches[n];
      var copies := if Involves(last, u) && last.user1Id in users then ProfileCount(profiles, last.user1Id) else 0;
      var rest := GetUserMatches(matches[..n], users, profiles, u);
      var front := Repeat(last, copies);
      assert copies > 0 ==> front[0] == last;
      assert forall m :: m in front <==> copies > 0 && m == last;
      assert forall m :: m in matches <==> m in matches[..n] || m == last;
      assert AscendingMatches(matches) ==> forall i, j :: 0 <= i < j < |front + rest| ==>
        (front + rest)[i].createdAt >= (front + rest)[j].createdAt by {
        if AscendingMatches(matches) {
          forall i, j | 0 <= i < j < |front + rest|
            ensures (front + rest)[i].createdAt >= (front + rest)[j].createdAt
          {
            if j < |front| {
            } else if i < |front| {
              assert (front + rest)[j] == rest[j - |front|] && rest[j - |front|] in rest;
            } else {
              assert (front + rest)[i] == rest[i - |front|] && (front + rest)[j] == rest[j - |front|];
            }
          }
        }
      }
      front + rest
  }

  /** A row repeated k times holds k copies of that row and nothing else. */
  lemma {:induction false} RepeatCount(x: Match, k: nat, m: Match)
    ensures multiset(Repeat(x, k))[m] == if m == x then k else 0
  {
    if k > 0 {
      RepeatCount(x, k - 1, m);
    }
  }

  /** One unfolding of the query: the copies of the newest match come first. */
  lemma UserMatchesStep(matches: seq<Match>, users: UserTable, profiles: seq<Profile>, u: UserId)
    requires matches != []
    ensures var last := matches[|matches| - 1];
      GetUserMatches(matches, users, profiles, u) ==
        Repeat(last, if Involves(last, u) && last.user1Id in users then ProfileCount(profiles, last.user1Id) else 0)
        + GetUserMatches(matches[..|matches| - 1], users, profiles, u)
  {
  }

  /**
   * The join multiplies rows: each copy of a listed match appears once per
   * profile row of its user1.
   */
  lemma {:induction false} UserMatchesMultiplicity(matches: seq<Match>, users: UserTable, profiles: seq<Profile>,
                                                   u: UserId, m: Match)
    ensures multiset(GetUserMatches(matches, users, profiles, u))[m] ==
      if Involves(m, u) && m.user1Id in users then multiset(matches)[m] * ProfileCount(profiles, m.user1Id) else 0
  {
    if matches != [] {
      var n := |matches| - 1;
      var last := matches[n];
      var copies := if Involves(last, u) && last.user1Id in users then ProfileCount(profiles, last.user1Id) else 0;
      var rest := GetUserMatches(matches[..n], users, profiles, u);
      UserMatchesStep(matches, users, profiles, u);
      UserMatchesMultiplicity(matches[..n], users, profiles, u, m);
      RepeatCount(last, copies, m);
      var c := multiset(matches[..n])[m];
      var total := multiset(matches)[m];
      LastSplit(matches);
      assert total == c + (if m == last then 1 else 0);
      var got := multiset(GetUserMatches(matches, users, profiles, u))[m];
      assert got == multiset(Repeat(last, copies))[m] + multiset(rest)[m] by {
        assert multiset(Repeat(last, copies) + rest) == multiset(Repeat(last, copies)) + multiset(rest);
      }
      if Involves(m, u) && m.user1Id in users {
        var k := ProfileCount(profiles, m.user1Id);
        assert multiset(rest)[m] == c * k;
        if m == last {
          ProductStep(c, k);
          assert got == total * k;
        } else {
          assert total == c;
          assert got == total * k;
        }
      } else {
        assert got == 0;
      }
    }
  }

  lemma LastSplit(s: seq<Match>)
    requires s != []
    ensures multiset(s) == multiset(s[..|s| - 1]) + multiset{s[|s| - 1]}
  {
    assert s == s[..|s| - 1] + [s[|s| - 1]];
  }

  lemma ProductStep(c: nat, k: nat)
    ensures (c + 1) * k == c * k + k
  {
  }

  /**
   * `getMatchMessages(matchId)`: the messages of the match whose sender joins
   * a user, in ascending creation order.
   */
  function GetMatchMessages(messages: seq<Message>, users: UserTable, matchId: int): (r: seq<Message>)
    ensures forall m :: m in r <==> m in messages && m.matchId == matchId && m.senderId in users
    ensures AscendingMessages(messages) ==> AscendingMessages(r)
  {
    if messages == [] then []
    else
      var head := messages[0];
      var rest := GetMatchMessages(messages[1..], users, matchId);
      assert forall m :: m in messages <==> m == head || m in messages[1..];
      if head.matchId == matchId && head.senderId in users then
        assert AscendingMessages(messages) ==> AscendingMessages([head] + rest) by {
          if AscendingMessages(messages) {
            AscendingTail(messages);
            AscendingCons(head, rest);
          }
        }
        [head] + rest
      else rest
  }

  /** The tail of an ascending sequence is ascending and created after its head. */
  lemma AscendingTail(messages: seq<Message>)
    requires messages != [] && AscendingMessages(messages)
    ensures AscendingMessages(messages[1..])
    ensures forall m :: m in messages[1..] ==> messages[0].createdAt < m.createdAt
  {
    forall m | m in messages[1..]
      ensures messages[0].createdAt < m.createdAt
    {
      var k :| 0 <= k < |messages[1..]| && messages[1..][k] == m;
      assert messages[k + 1] == m;
    }
  }

  lemma AscendingCons(head: Message, rest: seq<Message>)
    requires AscendingMessages(rest)
    requires forall m :: m in rest ==> head.createdAt < m.createdAt
    ensures AscendingMessages([head] + rest)
  {
    forall i, j | 0 <= i < j < |[head] + rest|
      ensures ([head] + rest)[i].createdAt < ([head] + rest)[j].createdAt
    {
      assert ([head] + rest)[j] == rest[j - 1] && rest[j - 1] in rest;
      if i > 0 {
        assert ([head] + rest)[i] == rest[i - 1];
      }
    }
  }

  /** `getBalance(u)`: the one row of u, which the unique userId column allows at most. */
  function GetBalance(balances: BalanceTable, u: UserId): (r: Option<Balance>)
    requires BalancesKeyed(balances)
    ensures r.Some? <==> u in balances
    ensures r.Some? ==> r.value == balances[u] && r.value.userId == u
  {
    if u in balances then Some(balances[u]) else None
  }

  /** Numeric addition in SQL: null plus anything is null. */
  function AddCents(a: Option<Cents>, v: Cents): (r: Option<Cents>)
    ensures r.None? <==> a.None?
    ensures r.Some? ==> r.value - a.value == v
  {
    if a.Some? then Some(a.value + v) else None
  }

  /**
   * The balance row `updateBalance(u, v)` leaves: with no row, a new one
   * seeded with v in both columns; otherwise v added to both columns.
   */
  function CreditRow(existing: Option<Balance>, freshId: nat, u: UserId, v: Cents, now: Timestamp): (r: Balance)
    ensures existing.None? ==> r.id == freshId && r.userId == u && r.amount == Some(v) && r.totalEarned == Some(v)
    ensures existing.Some? ==> r.id == existing.value.id && r.userId == existing.value.userId
    ensures existing.Some? && existing.value.amount.Some? ==> r.amount == Some(existing.value.amount.value + v)
    ensures existing.Some? && existing.value.totalEarned.Some? ==>
      r.totalEarned == Some(existing.value.totalEarned.value + v)
    ensures existing.Some? && existing.value.amount.Some? && existing.value.totalEarned.Some? ==>
      r.totalEarned.value - r.amount.value == existing.value.totalEarned.value - existing.value.amount.value
    ensures existing.Some? && existing.value.amount.None? ==> r.amount.None?
    ensures existing.Some? && existing.value.totalEarned.None? ==> r.totalEarned.None?
    ensures r.updatedAt == now
  {
    match existing
    case None => NewBalance(freshId, InsertBalance(u, Given(v), Given(v)), now)
    case Some(b) => b.(amount := AddCents(b.amount, v), totalEarned := AddCents(b.totalEarned, v), updatedAt := now)
  }

  function Sum(vs: seq<Cents>): Cents {
    if vs == [] then 0 else vs[0] + Sum(vs[1..])
  }

  /** The row of one recipient after a run of credits of `vs`, in order. */
  function CreditAll(existing: Option<Balance>, freshId: nat, u: UserId, vs: seq<Cents>, now: Timestamp): Option<Balance>
    decreases |vs|
  {
    if vs == [] then existing
    else CreditAll(Some(CreditRow(existing, freshId, u, vs[0], now)), freshId, u, vs[1..], now)
  }

  /** Credits to an existing row add up: each column grows by the sum. */
  lemma {:induction false} CreditAllAdds(b: Balance, freshId: nat, u: UserId, vs: seq<Cents>, now: Timestamp)
    requires b.amount.Some? && b.totalEarned.Some?
    decreases |vs|
    ensures var r := CreditAll(Some(b), freshId, u, vs, now);
      && r.Some? && r.value.id == b.id && r.value.userId == b.userId
      && r.value.amount == Some(b.amount.value + Sum(vs))
      && r.value.totalEarned == Some(b.totalEarned.value + Sum(vs))
  {
    if vs != [] {
      var b' := CreditRow(Some(b), freshId, u, vs[0], now);
      CreditAllAdds(b', freshId, u, vs[1..], now);
    }
  }

  /**
   * Credits of v1..vN to a user with no balance row leave one row with
   * amount = totalEarned = v1 + … + vN.
   */
  lemma {:induction false} CreditsFromNoRow(freshId: nat, u: UserId, vs: seq<Cents>, now: Timestamp)
    requires vs != []
    ensures var r := CreditAll(None, freshId, u, vs, now);
      r.Some? && r.value.id == freshId && r.value.userId == u
      && r.value.amount == Some(Sum(vs)) && r.value.totalEarned == Some(Sum(vs))
  {
    CreditAllAdds(CreditRow(None, freshId, u, vs[0], now), freshId, u, vs[1..], now);
  }

  // ===================== the store =====================

  ghost predicate UsersValid(users: UserTable) {
    UsersKeyed(users) && EmailsUnique(users)
  }

  ghost predicate ProfilesValid(profiles: seq<Profile>, users: UserTable) {
    forall i :: 0 <= i < |profiles| ==> profiles[i].id == i + 1 && profiles[i].userId in users
  }

  ghost predicate LikesValid(likes: LikeTable, users: UserTable) {
    LikesKeyed(likes) && forall k :: k in likes ==> k.0 in users && k.1 in users
  }

  ghost predicate MatchesValid(matches: seq<Match>, users: UserTable, clock: Timestamp) {
    && (forall i :: 0 <= i < |matches| ==>
          matches[i].id == i + 1 && matches[i].user1Id in users && matches[i].user2Id in users
          && matches[i].createdAt < clock)
    && AscendingMatches(matches)
  }

  /** Match ids are 1..matchCount, so `matchId` references a match when it lies in that range. */
  ghost predicate MessagesValid(messages: seq<Message>, matchCount: nat, users: UserTable, clock: Timestamp) {
    && (forall i :: 0 <= i < |messages| ==>
          messages[i].id == i + 1 && 1 <= messages[i].matchId <= matchCount
          && messages[i].senderId in users && messages[i].createdAt < clock)
    && AscendingMessages(messages)
  }

  ghost predicate GiftsValid(gifts: seq<Gift>, users: UserTable, messageCount: nat) {
    forall i :: 0 <= i < |gifts| ==>
      gifts[i].id == i + 1 && gifts[i].fromUserId in users && gifts[i].toUserId in users
      && (gifts[i].messageId.Some? ==> 1 <= gifts[i].messageId.value <= messageCount)
  }

  ghost predicate BalancesValid(balances: BalanceTable, users: UserTable, balanceCount: nat) {
    BalancesKeyed(balances) && forall k :: k in balances ==> k in users && 1 <= balances[k].id <= balanceCount
  }

  /** All tables at one instant, to state what a write leaves unchanged. */
  datatype Tables = Tables(
    users: UserTable,
    profiles: seq<Profile>,
    likes: LikeTable,
    matches: seq<Match>,
    messages: seq<Message>,
    gifts: seq<Gift>,
    balances: BalanceTable,
    balanceCount: nat,
    clock: Timestamp)

  /** Keys, foreign keys, serial ids and creation order of every table. */
  ghost predicate TablesValid(t: Tables) {
    && UsersValid(t.users)
    && ProfilesValid(t.profiles, t.users)
    && LikesValid(t.likes, t.users)
    && MatchesValid(t.matches, t.users, t.clock)
    && MessagesValid(t.messages, |t.matches|, t.users, t.clock)
    && GiftsValid(t.gifts, t.users, |t.messages|)
    && BalancesValid(t.balances, t.users, t.balanceCount)
  }

  /** The email column of `row` collides with another user's. */
  predicate EmailTaken(users: UserTable, row: User) {
    row.email.Some? && exists k :: k in users && k != row.id && users[k].email == row.email
  }

  /** Every profile row of `u` patched with `f`, the others as they were. */
  function PatchProfiles(profiles: seq<Profile>, u: UserId, f: ProfileFields, now: Timestamp): (r: seq<Profile>)
    ensures |r| == |profiles|
    ensures forall i :: 0 <= i < |r| ==> r[i].id == profiles[i].id && r[i].userId == profiles[i].userId
    ensures forall i :: 0 <= i < |r| ==>
      r[i] == if profiles[i].userId == u then PatchProfile(profiles[i], f, now) else profiles[i]
  {
    seq(|profiles|, i requires 0 <= i < |profiles| =>
      if profiles[i].userId == u then PatchProfile(profiles[i], f, now) else profiles[i])
  }

  /** The database as one object; every write takes the next logical timestamp. */
  class DatabaseStorage {
    var users: UserTable
    var profiles: seq<Profile>
    var likes: LikeTable
    var matches: seq<Match>
    var messages: seq<Message>
    var gifts: seq<Gift>
    var balances: BalanceTable
    /** The last value the balances id sequence handed out. */
    var balanceCount: nat
    var clock: Timestamp

    ghost function Snapshot(): Tables
      reads this
    {
      Tables(users, profiles, likes, matches, messages, gifts, balances, balanceCount, clock)
    }

    /** Keys, foreign keys, serial ids and creation order of every table. */
    ghost predicate Valid()
      reads this
    {
      TablesValid(Snapshot())
    }

    constructor ()
      ensures Valid()
      ensures Snapshot() == Tables(map[], [], map[], [], [], [], map[], 0, 0)
    {
      users, profiles, likes := map[], [], map[];
      matches, messages, gifts := [], [], [];
      balances, balanceCount, clock := map[], 0, 0;
    }

    /** `upsertUser`: insert, or on an id conflict overwrite the given columns. */
    method UpsertUser(data: UpsertUser) returns (r: Result<User, DbError>)
      requires Valid()
      modifies this
      ensures Valid()
      ensures var row := if data.id in old(users) then MergeUser(old(users)[data.id], data, old(clock))
                         else NewUser(data, old(clock));
        if EmailTaken(old(users), row) then
          r == Failure(UniqueViolation) && Snapshot() == old(Snapshot())
        else
          (r == Success(row)
           && Snapshot() == old(Snapshot()).(users := old(users)[data.id := row], clock := old(clock) + 1))
    {
      var row := if data.id in users then MergeUser(users[data.id], data, clock) else NewUser(data, clock);
      if EmailTaken(users, row) {
        return Failure(UniqueViolation);
      }
      UpsertUserKeepsValid(Snapshot(), row);
      users := users[data.id := row];
      clock := clock + 1;
      return Success(row);
    }

    /** `createProfile`: append a row; the user must exist. */
    method CreateProfile(p: InsertProfile) returns (r: Result<Profile, DbError>)
      requires Valid()
      modifies this
      ensures Valid()
      ensures p.userId !in old(users) ==> r == Failure(ForeignKeyViolation) && Snapshot() == old(Snapshot())
      ensures p.userId in old(users) ==>
        && r == Success(NewProfile(|old(profiles)| + 1, p, old(clock)))
        && Snapshot() == old(Snapshot()).(profiles := old(profiles) + [r.value], clock := old(clock) + 1)
    {
      if p.userId !in users {
        return Failure(ForeignKeyViolation);
      }
      var row := NewProfile(|profiles| + 1, p, clock);
      CreateProfileKeepsValid(Snapshot(), row);
      profiles := profiles + [row];
      clock := clock + 1;
      return Success(row);
    }

    /** `updateProfile(u, f)`: patch every row of u and return the first, if any. */
    method UpdateProfile(u: UserId, f: ProfileFields) returns (r: Option<Profile>)
      requires Valid()
      modifies this
      ensures Valid()
      ensures Snapshot() == old(Snapshot()).(profiles := PatchProfiles(old(profiles), u, f, old(clock)),
                                             clock := old(clock) + 1)
      ensures r == GetProfile(profiles, u)
      ensures var before := GetProfile(old(profiles), u);
        r == if before.Some? then Some(PatchProfile(before.value, f, old(clock))) else None
    {
      PatchedFirstRow(profiles, u, f, clock);
      UpdateProfileKeepsValid(Snapshot(), u, f);
      profiles := PatchProfiles(profiles, u, f, clock);
      clock := clock + 1;
      r := GetProfile(profiles, u);
    }

    /** `createLike`: upsert on (fromUserId, toUserId); both users must exist. */
    method CreateLike(l: InsertLike) returns (r: Result<Like, DbError>)
      requires Valid()
      modifies this
      ensures Valid()
      ensures !(l.fromUserId in old(users) && l.toUserId in old(users)) ==>
        r == Failure(ForeignKeyViolation) && Snapshot() == old(Snapshot())
      ensures l.fromUserId in old(users) && l.toUserId in old(users) ==>
        && Snapshot() == old(Snapshot()).(likes := UpsertLike(old(likes), l, old(clock)), clock := old(clock) + 1)
        && r == Success(likes[(l.fromUserId, l.toUserId)])
    {
      if l.fromUserId !in users || l.toUserId !in users {
        return Failure(ForeignKeyViolation);
      }
      CreateLikeKeepsValid(Snapshot(), l);
      likes := UpsertLike(likes, l, clock);
      clock := clock + 1;
      return Success(likes[(l.fromUserId, l.toUserId)]);
    }

    /** `createMatch`: always append a new row; there is no uniqueness on the pair. */
    method CreateMatch(m: InsertMatch) returns (r: Result<Match, DbError>)
      requires Valid()
      modifies this
      ensures Valid()
      ensures !(m.user1Id in old(users) && m.user2Id in old(users)) ==>
        r == Failure(ForeignKeyViolation) && Snapshot() == old(Snapshot())
      ensures m.user1Id in old(users) && m.user2Id in old(users) ==>
        && r == Success(NewMatch(|old(matches)| + 1, m, old(clock)))
        && Snapshot() == old(Snapshot()).(matches := old(matches) + [r.value], clock := old(clock) + 1)
    {
      if m.user1Id !in users || m.user2Id !in users {
        return Failure(ForeignKeyViolation);
      }
      var row := NewMatch(|matches| + 1, m, clock);
      CreateMatchKeepsValid(Snapshot(), m);
      matches := matches + [row];
      clock := clock + 1;
      return Success(row);
    }

    /** `createMessage`: append a row; the match and the sender must exist. */
    method CreateMessage(m: InsertMessage) returns (r: Result<Message, DbError>)
      requires Valid()
      modifies this
      ensures Valid()
      ensures !(1 <= m.matchId <= |old(matches)| && m.senderId in old(users)) ==>
        r == Failure(ForeignKeyViolation) && Snapshot() == old(Snapshot())
      ensures 1 <= m.matchId <= |old(matches)| && m.senderId in old(users) ==>
        && r == Success(NewMessage(|old(messages)| + 1, m, old(clock)))
        && Snapshot() == old(Snapshot()).(messages := old(messages) + [r.value], clock := old(clock) + 1)
    {
      if !(1 <= m.matchId <= |matches|) || m.senderId !in users {
        return Failure(ForeignKeyViolation);
      }
      var row := NewMessage(|messages| + 1, m, clock);
      CreateMessageKeepsValid(Snapshot(), m);
      messages := messages + [row];
      clock := clock + 1;
      return Success(row);
    }

    /** `createBalance`: insert a row; the user must exist and have no row yet. */
    method CreateBalance(b: InsertBalance) returns (r: Result<Balance, DbError>)
      requires Valid()
      modifies this
      ensures Valid()
      ensures b.userId !in old(users) ==> r == Failure(ForeignKeyViolation) && Snapshot() == old(Snapshot())
      ensures b.userId in old(users) && b.userId in old(balances) ==>
        r == Failure(UniqueViolation) && Snapshot() == old(Snapshot())
      ensures b.userId in old(users) && b.userId !in old(balances) ==>
        && r == Success(NewBalance(old(balanceCount) + 1, b, old(clock)))
        && Snapshot() == old(Snapshot()).(balances := old(balances)[b.userId := r.value],
                                          balanceCount := old(balanceCount) + 1, clock := old(clock) + 1)
    {
      if b.userId !in users {
        return Failure(ForeignKeyViolation);
      }
      if b.userId in balances {
        return Failure(UniqueViolation);
      }
      var row := NewBalance(balanceCount + 1, b, clock);
      WriteBalanceKeepsValid(Snapshot(), row, balanceCount + 1);
      balances := balances[b.userId := row];
      balanceCount := balanceCount + 1;
      clock := clock + 1;
      return Success(row);
    }

    /**
     * `updateBalance(u, v)`: read the row; with none, create one seeded with
     * v, otherwise add v to amount and totalEarned.
     */
    method UpdateBalance(u: UserId, v: Cents) returns (r: Result<Balance, DbError>)
      requires Valid()
      modifies this
      ensures Valid()
      ensures u !in old(users) ==> r == Failure(ForeignKeyViolation) && Snapshot() == old(Snapshot())
      ensures u in old(users) ==>
        && r == Success(CreditRow(GetBalance(old(balances), u), old(balanceCount) + 1, u, v, old(clock)))
        && Snapshot() == old(Snapshot()).(balances := old(balances)[u := r.value],
                                          balanceCount := if u in old(balances) then old(balanceCount)
                                                          else old(balanceCount) + 1,
                                          clock := old(clock) + 1)
    {
      var existing := GetBalance(balances, u);
      if existing.None? {
        r := CreateBalance(InsertBalance(u, Given(v), Given(v)));
        return;
      }
      var row := CreditRow(existing, balanceCount + 1, u, v, clock);
      WriteBalanceKeepsValid(Snapshot(), row, balanceCount);
      balances := balances[u := row];
      clock := clock + 1;
      return Success(row);
    }

    /**
     * `createGift`: append the gift, then credit the recipient's balance by
     * its value. The sender, the recipient and a linked message must exist.
     */
    method CreateGift(g: InsertGift) returns (r: Result<Gift, DbError>)
      requires Valid()
      modifies this
      ensures Valid()
      ensures !GiftReferencesExist(old(users), old(messages), g) ==>
        r == Failure(ForeignKeyViolation) && Snapshot() == old(Snapshot())
      ensures GiftReferencesExist(old(users), old(messages), g) ==>
        && r == Success(NewGift(|old(gifts)| + 1, g, old(clock)))
        && Snapshot() == old(Snapshot()).(
             gifts := old(gifts) + [r.value],
             balances := old(balances)[g.toUserId :=
               CreditRow(GetBalance(old(balances), g.toUserId), old(balanceCount) + 1, g.toUserId, g.value, old(clock) + 1)],
             balanceCount := if g.toUserId in old(balances) then old(balanceCount) else old(balanceCount) + 1,
             clock := old(clock) + 2)
    {
      if !GiftReferencesExist(users, messages, g) {
        return Failure(ForeignKeyViolation);
      }
      var row := AppendGift(g);
      var credited := UpdateBalance(g.toUserId, g.value);
      return Success(row);
    }

    /** The insert half of `createGift`: the gift row, stamped now. */
    method AppendGift(g: InsertGift) returns (row: Gift)
      requires Valid() && GiftReferencesExist(users, messages, g)
      modifies this
      ensures Valid()
      ensures row == NewGift(|old(gifts)| + 1, g, old(clock))
      ensures Snapshot() == old(Snapshot()).(gifts := old(gifts) + [row], clock := old(clock) + 1)
    {
      row := NewGift(|gifts| + 1, g, clock);
      CreateGiftKeepsValid(Snapshot(), g);
      gifts := gifts + [row];
      clock := clock + 1;
    }
  }

  lemma {:induction false} ProfileCountAppend(profiles: seq<Profile>, p: Profile, u: UserId)
    ensures ProfileCount(profiles + [p], u) == ProfileCount(profiles, u) + (if p.userId == u then 1 else 0)
  {
    if profiles != [] {
      assert (profiles + [p])[1..] == profiles[1..] + [p];
      ProfileCountAppend(profiles[1..], p, u);
    }
  }

  /** Patching rows never changes whose they are, so no user's row count changes. */
  lemma {:induction false} PatchKeepsProfileCount(profiles: seq<Profile>, u: UserId, f: ProfileFields, now: Timestamp, v: UserId)
    ensures ProfileCount(PatchProfiles(profiles, u, f, now), v) == ProfileCount(profiles, v)
  {
    if profiles != [] {
      assert PatchProfiles(profiles, u, f, now)[1..] == PatchProfiles(profiles[1..], u, f, now);
      PatchKeepsProfileCount(profiles[1..], u, f, now, v);
    }
  }

  /** After an update, the user's first row is their old first row, patched. */
  lemma {:induction false} PatchedFirstRow(profiles: seq<Profile>, u: UserId, f: ProfileFields, now: Timestamp)
    ensures var before := GetProfile(profiles, u);
      GetProfile(PatchProfiles(profiles, u, f, now), u) == if before.Some? then Some(PatchProfile(before.value, f, now)) else None
  {
    if profiles != [] {
      assert PatchProfiles(profiles, u, f, now)[1..] == PatchProfiles(profiles[1..], u, f, now);
      PatchedFirstRow(profiles[1..], u, f, now);
    }
  }

  // ===================== what each write preserves =====================

  lemma UpsertUserKeepsValid(t: Tables, row: User)
    requires TablesValid(t) && !EmailTaken(t.users, row)
    ensures TablesValid(t.(users := t.users[row.id := row], clock := t.clock + 1))
  {
  }

  lemma CreateProfileKeepsValid(t: Tables, row: Profile)
    requires TablesValid(t) && row.id == |t.profiles| + 1 && row.userId in t.users
    ensures TablesValid(t.(profiles := t.profiles + [row], clock := t.clock + 1))
  {
  }

  lemma UpdateProfileKeepsValid(t: Tables, u: UserId, f: ProfileFields)
    requires TablesValid(t)
    ensures TablesValid(t.(profiles := PatchProfiles(t.profiles, u, f, t.clock), clock := t.clock + 1))
  {
  }

  lemma CreateLikeKeepsValid(t: Tables, l: InsertLike)
    requires TablesValid(t) && l.fromUserId in t.users && l.toUserId in t.users
    ensures TablesValid(t.(likes := UpsertLike(t.likes, l, t.clock), clock := t.clock + 1))
  {
  }

  lemma CreateMatchKeepsValid(t: Tables, m: InsertMatch)
    requires TablesValid(t) && m.user1Id in t.users && m.user2Id in t.users
    ensures TablesValid(t.(matches := t.matches + [NewMatch(|t.matches| + 1, m, t.clock)], clock := t.clock + 1))
  {
  }

  lemma CreateMessageKeepsValid(t: Tables, m: InsertMessage)
    requires TablesValid(t) && 1 <= m.matchId <= |t.matches| && m.senderId in t.users
    ensures TablesValid(t.(messages := t.messages + [NewMessage(|t.messages| + 1, m, t.clock)], clock := t.clock + 1))
  {
  }

  lemma CreateGiftKeepsValid(t: Tables, g: InsertGift)
    requires TablesValid(t) && GiftReferencesExist(t.users, t.messages, g)
    ensures TablesValid(t.(gifts := t.gifts + [NewGift(|t.gifts| + 1, g, t.clock)], clock := t.clock + 1))
  {
  }

  lemma WriteBalanceKeepsValid(t: Tables, row: Balance, count: nat)
    requires TablesValid(t) && row.userId in t.users && t.balanceCount <= count && 1 <= row.id <= count
    ensures TablesValid(t.(balances := t.balances[row.userId := row], balanceCount := count, clock := t.clock + 1))
  {
  }

  /** The foreign keys of a gift row: both users, and the message when one is linked. */
  predicate GiftReferencesExist(users: UserTable, messages: seq<Message>, g: InsertGift) {
    && g.fromUserId in users && g.toUserId in users
    && (g.messageId.Given? ==> 1 <= g.messageId.value <= |messages|)
  }
}
