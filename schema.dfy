/**
 * The relational tables of the dating application: one datatype per row
 * shape, one per insert payload, and the functions that build a stored row
 * from a payload by applying the column defaults.
 *
 * Timestamps are the values of a logical clock, and every `decimal(…, 2)`
 * money column is held in integer cents, which is exact at scale 2.
 */
module Schema {
  import opened Wrappers

  type UserId = string
  type Timestamp = nat
  /** A `decimal(p, 2)` value counted in hundredths. */
  type Cents = int

  /**
   * How a nullable column appears in an insert or update payload: left out
   * (on insert the column default applies, on update the stored value stays),
   * an explicit null, or a value.
   */
  datatype Field<T> = Omitted | Null | Given(value: T)

  /** The stored value of a column after an insert with default `default`. */
  function OnInsert<T>(f: Field<T>, default: Option<T>): Option<T> {
    match f
    case Omitted => default
    case Null => None
    case Given(v) => Some(v)
  }

  /** The stored value of a column after an update that was given `f`. */
  function OnUpdate<T>(f: Field<T>, current: Option<T>): Option<T> {
    match f
    case Omitted => current
    case Null => None
    case Given(v) => Some(v)
  }

  /**
   * A column after an update: kept when the payload leaves it out, and
   * otherwise stored exactly as an insert without a default would store it.
   */
  predicate Updated<T(==)>(f: Field<T>, before: Option<T>, after: Option<T>) {
    if f.Omitted? then after == before else after == OnInsert(f, None)
  }

  // ----- users: primary key id, unique email -----

  datatype User = User(
    id: UserId,
    email: Option<string>,
    firstName: Option<string>,
    lastName: Option<string>,
    profileImageUrl: Option<string>,
    createdAt: Timestamp,
    updatedAt: Timestamp)

  datatype UpsertUser = UpsertUser(
    id: UserId,
    email: Field<string>,
    firstName: Field<string>,
    lastName: Field<string>,
    profileImageUrl: Field<string>)

  function NewUser(u: UpsertUser, now: Timestamp): User {
    User(u.id, OnInsert(u.email, None), OnInsert(u.firstName, None), OnInsert(u.lastName, None),
         OnInsert(u.profileImageUrl, None), now, now)
  }

  /** The `on conflict (id) do update set …` branch: every given column, and updatedAt. */
  function MergeUser(stored: User, u: UpsertUser, now: Timestamp): (r: User)
    ensures r.id == stored.id && r.createdAt == stored.createdAt && r.updatedAt == now
    ensures Updated(u.email, stored.email, r.email) && Updated(u.firstName, stored.firstName, r.firstName)
    ensures Updated(u.lastName, stored.lastName, r.lastName)
    ensures Updated(u.profileImageUrl, stored.profileImageUrl, r.profileImageUrl)
  {
    stored.(email := OnUpdate(u.email, stored.email),
            firstName := OnUpdate(u.firstName, stored.firstName),
            lastName := OnUpdate(u.lastName, stored.lastName),
            profileImageUrl := OnUpdate(u.profileImageUrl, stored.profileImageUrl),
            updatedAt := now)
  }

  // ----- profiles: serial id; userId references users (not unique) -----

  const DefaultIsVisible := true
  const DefaultMaxDistance := 50
  const DefaultMinAge := 18
  const DefaultMaxAge := 65
  const DefaultShowMe := "everyone"

  /** Latitude and longitude are `decimal(…, 8)`, held in units of 10^-8 degree. */
  datatype Profile = Profile(
    id: nat,
    userId: UserId,
    bio: Option<string>,
    age: Option<int>,
    interests: Option<seq<string>>,
    photos: Option<seq<string>>,
    latitude: Option<int>,
    longitude: Option<int>,
    isVisible: Option<bool>,
    maxDistance: Option<int>,
    minAge: Option<int>,
    maxAge: Option<int>,
    showMe: Option<string>,
    createdAt: Timestamp,
    updatedAt: Timestamp)

  /** The profile columns a client may set, for insert and for update alike. */
  datatype ProfileFields = ProfileFields(
    bio: Field<string>,
    age: Field<int>,
    interests: Field<seq<string>>,
    photos: Field<seq<string>>,
    latitude: Field<int>,
    longitude: Field<int>,
    isVisible: Field<bool>,
    maxDistance: Field<int>,
    minAge: Field<int>,
    maxAge: Field<int>,
    showMe: Field<string>)

  datatype InsertProfile = InsertProfile(userId: UserId, fields: ProfileFields)

  const NoProfileFields := ProfileFields(Omitted, Omitted, Omitted, Omitted, Omitted, Omitted,
                                         Omitted, Omitted, Omitted, Omitted, Omitted)

  function NewProfile(id: nat, p: InsertProfile, now: Timestamp): Profile {
    var f := p.fields;
    Profile(id, p.userId,
            OnInsert(f.bio, None), OnInsert(f.age, None),
            OnInsert(f.interests, None), OnInsert(f.photos, None),
            OnInsert(f.latitude, None), OnInsert(f.longitude, None),
            OnInsert(f.isVisible, Some(DefaultIsVisible)),
            OnInsert(f.maxDistance, Some(DefaultMaxDistance)),
            OnInsert(f.minAge, Some(DefaultMinAge)),
            OnInsert(f.maxAge, Some(DefaultMaxAge)),
            OnInsert(f.showMe, Some(DefaultShowMe)),
            now, now)
  }

  /** `update profiles set …updates, updatedAt = now`: the key columns and createdAt stay. */
  function PatchProfile(p: Profile, f: ProfileFields, now: Timestamp): (r: Profile)
    ensures r.id == p.id && r.userId == p.userId && r.createdAt == p.createdAt && r.updatedAt == now
    ensures f == NoProfileFields ==> r == p.(updatedAt := now)
    ensures Updated(f.bio, p.bio, r.bio) && Updated(f.age, p.age, r.age)
    ensures Updated(f.interests, p.interests, r.interests) && Updated(f.photos, p.photos, r.photos)
    ensures Updated(f.latitude, p.latitude, r.latitude) && Updated(f.longitude, p.longitude, r.longitude)
    ensures Updated(f.isVisible, p.isVisible, r.isVisible) && Updated(f.maxDistance, p.maxDistance, r.maxDistance)
    ensures Updated(f.minAge, p.minAge, r.minAge) && Updated(f.maxAge, p.maxAge, r.maxAge)
    ensures Updated(f.showMe, p.showMe, r.showMe)
  {
    p.(bio := OnUpdate(f.bio, p.bio), age := OnUpdate(f.age, p.age),
       interests := OnUpdate(f.interests, p.interests), photos := OnUpdate(f.photos, p.photos),
       latitude := OnUpdate(f.latitude, p.latitude), longitude := OnUpdate(f.longitude, p.longitude),
       isVisible := OnUpdate(f.isVisible, p.isVisible), maxDistance := OnUpdate(f.maxDistance, p.maxDistance),
       minAge := OnUpdate(f.minAge, p.minAge), maxAge := OnUpdate(f.maxAge, p.maxAge),
       showMe := OnUpdate(f.showMe, p.showMe), updatedAt := now)
  }

  // ----- matches: serial id, no uniqueness on the user pair -----

  datatype Match = Match(id: nat, user1Id: UserId, user2Id: UserId, createdAt: Timestamp)

  datatype InsertMatch = InsertMatch(user1Id: UserId, user2Id: UserId)

  function NewMatch(id: nat, m: InsertMatch, now: Timestamp): Match {
    Match(id, m.user1Id, m.user2Id, now)
  }

  // ----- likes: composite primary key (fromUserId, toUserId) -----

  datatype Like = Like(fromUserId: UserId, toUserId: UserId, isLike: bool, createdAt: Timestamp)

  datatype InsertLike = InsertLike(fromUserId: UserId, toUserId: UserId, isLike: bool)

  function NewLike(l: InsertLike, now: Timestamp): Like {
    Like(l.fromUserId, l.toUserId, l.isLike, now)
  }

  // ----- messages: serial id, content required, messageType defaults to "text" -----

  const DefaultMessageType := "text"

  datatype Message = Message(
    id: nat,
    matchId: int,
    senderId: UserId,
    content: string,
    messageType: Option<string>,
    createdAt: Timestamp)

  datatype InsertMessage = InsertMessage(matchId: int, senderId: UserId, content: string, messageType: Field<string>)

  function NewMessage(id: nat, m: InsertMessage, now: Timestamp): Message {
    Message(id, m.matchId, m.senderId, m.content, OnInsert(m.messageType, Some(DefaultMessageType)), now)
  }

  // ----- gifts: serial id, optional messageId -----

  datatype Gift = Gift(
    id: nat,
    fromUserId: UserId,
    toUserId: UserId,
    giftType: string,
    value: Cents,
    messageId: Option<int>,
    createdAt: Timestamp)

  datatype InsertGift = InsertGift(fromUserId: UserId, toUserId: UserId, giftType: string, value: Cents, messageId: Field<int>)

  function NewGift(id: nat, g: InsertGift, now: Timestamp): Gift {
    Gift(id, g.fromUserId, g.toUserId, g.giftType, g.value, OnInsert(g.messageId, None), now)
  }

  // ----- balances: serial id, userId unique, amounts default to 0.00 -----

  const DefaultAmount: Cents := 0

  datatype Balance = Balance(
    id: nat,
    userId: UserId,
    amount: Option<Cents>,
    totalEarned: Option<Cents>,
    updatedAt: Timestamp)

  datatype InsertBalance = InsertBalance(userId: UserId, amount: Field<Cents>, totalEarned: Field<Cents>)

  function NewBalance(id: nat, b: InsertBalance, now: Timestamp): Balance {
    Balance(id, b.userId, OnInsert(b.amount, Some(DefaultAmount)), OnInsert(b.totalEarned, Some(DefaultAmount)), now)
  }

  /**
   * The declared column defaults: an insert that leaves a column out stores
   * its default, one that gives null stores null, one that gives a value
   * stores that value.
   */
  lemma InsertDefaults(id: nat, userId: UserId, now: Timestamp)
    ensures var p := NewProfile(id, InsertProfile(userId, NoProfileFields), now);
      && p.isVisible == Some(true) && p.maxDistance == Some(50) && p.minAge == Some(18)
      && p.maxAge == Some(65) && p.showMe == Some("everyone")
      && p.bio == None && p.age == None && p.interests == None && p.photos == None
    ensures var b := NewBalance(id, InsertBalance(userId, Omitted, Omitted), now);
      b.amount == Some(0) && b.totalEarned == Some(0)
    ensures forall m: int, c: string :: NewMessage(id, InsertMessage(m, userId, c, Omitted), now).messageType == Some("text")
    ensures forall m: int, c: string :: NewMessage(id, InsertMessage(m, userId, c, Null), now).messageType == None
    ensures forall g: InsertGift {:trigger NewGift(id, g, now)} :: g.messageId.Null? ==> NewGift(id, g, now).messageId == None
  {
  }
}
