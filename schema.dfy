/**
 * The tables of src/db/schema.ts. Tables with a uuid primary key are maps from the key to the
 * row; `walk_tags` and `refresh_tokens`, which have none, are sequences of rows. Column defaults
 * are applied by the row constructors below; NOT NULL, UNIQUE and REFERENCES are the invariants
 * of `Database.Valid`, and ON DELETE CASCADE is what `DeleteWalk` and `DeleteUser` do.
 */
module Schema {
  import opened Wrappers
  import opened Tables
  import Uuid

  type Id = string
  /** Milliseconds since the epoch. */
  type Timestamp = int

  datatype User = User(id: Id, email: string, username: string, password: string,
                       firstName: string, lastName: string, profilePicture: string, bio: string,
                       isActive: bool, isVerified: bool, isAdmin: bool, isSuperAdmin: bool,
                       isDeleted: bool, createdAt: Timestamp, updatedAt: Timestamp)

  /**
   * A row of `refresh_tokens`, whose definition is not among the schema's tables: (userId, token,
   * expiresAt). Its `userId` is taken to reference `users` with ON DELETE CASCADE, like every
   * other user reference of the schema.
   */
  datatype RefreshToken = RefreshToken(userId: Id, token: string, expiresAt: Timestamp)

  datatype Walk = Walk(id: Id, authorId: Id, name: string, description: string, coverImageUrl: string,
                       durationEstimate: Option<int>, distanceEstimate: Option<int>, isPublic: bool,
                       createdAt: Timestamp, updatedAt: Timestamp)

  datatype Spot = Spot(id: Id, walkId: Id, title: string, description: string,
                       latitude: real, longitude: real, reachRadius: int, positionOrder: int,
                       imageUrls: Option<seq<string>>, audioUrl: Option<string>,
                       createdAt: Timestamp, updatedAt: Timestamp)

  datatype Tag = Tag(id: Id, name: string, createdAt: Timestamp, updatedAt: Timestamp)

  datatype WalkTag = WalkTag(walkId: Id, tagId: Id, createdAt: Timestamp, updatedAt: Timestamp)

  datatype Review = Review(id: Id, walkId: Id, userId: Id, stars: int, textReview: Option<string>,
                           createdAt: Timestamp, updatedAt: Timestamp)

  datatype Comment = Comment(id: Id, walkId: Id, userId: Id, comment: string,
                             createdAt: Timestamp, updatedAt: Timestamp)

  datatype Subscription = Subscription(id: Id, walkId: Id, userId: Id, subscribedAt: Timestamp,
                                       startDate: Option<Timestamp>)

  datatype Progress = Progress(id: Id, userId: Id, walkId: Id, currentSpotId: Option<Id>,
                               visitedSpots: Option<seq<Id>>, completed: bool,
                               completedAt: Option<Timestamp>, startedAt: Option<Timestamp>,
                               createdAt: Timestamp, updatedAt: Timestamp)

  // ---------------------------------------------------------------------------------------------
  // Inserts: None leaves a column to its default.

  datatype NewUser = NewUser(email: string, username: string, password: string,
                             firstName: string, lastName: string,
                             profilePicture: Option<string>, bio: Option<string>,
                             isActive: Option<bool>, isVerified: Option<bool>, isAdmin: Option<bool>,
                             isSuperAdmin: Option<bool>, isDeleted: Option<bool>)

  /** The row `insert(users)` stores for `v` with the given password column. */
  function UserRow(id: Id, v: NewUser, password: string, now: Timestamp): User {
    User(id, v.email, v.username, password, v.firstName, v.lastName,
         v.profilePicture.GetOr(""), v.bio.GetOr(""),
         v.isActive.GetOr(true), v.isVerified.GetOr(false), v.isAdmin.GetOr(false),
         v.isSuperAdmin.GetOr(false), v.isDeleted.GetOr(false), now, now)
  }

  datatype NewWalk = NewWalk(name: string, description: Option<string>, coverImageUrl: Option<string>,
                             durationEstimate: Option<int>, distanceEstimate: Option<int>,
                             isPublic: Option<bool>)

  function WalkRow(id: Id, authorId: Id, v: NewWalk, now: Timestamp): Walk {
    Walk(id, authorId, v.name, v.description.GetOr(""), v.coverImageUrl.GetOr(""),
         v.durationEstimate, v.distanceEstimate, v.isPublic.GetOr(false), now, now)
  }

  /**
   * A spot as a request carries it. title, latitude and longitude are NOT NULL without a
   * default, so an insert without them fails; `walkId` is whatever the client sent.
   */
  datatype NewSpot = NewSpot(walkId: Option<Id>, title: Option<string>, description: Option<string>,
                             latitude: Option<real>, longitude: Option<real>,
                             reachRadius: Option<int>, positionOrder: Option<int>,
                             imageUrls: Option<seq<string>>, audioUrl: Option<string>)

  predicate HasRequiredColumns(v: NewSpot) {
    v.title.Some? && v.latitude.Some? && v.longitude.Some?
  }

  /**
   * The row inserted for `v`. Only spots with their required columns are ever inserted (a
   * missing one makes the insert fail), so the placeholders for them are never stored.
   */
  function SpotRow(id: Id, walkId: Id, v: NewSpot, now: Timestamp): Spot {
    Spot(id, walkId, v.title.GetOr(""), v.description.GetOr(""), v.latitude.GetOr(0.0), v.longitude.GetOr(0.0),
         v.reachRadius.GetOr(50), v.positionOrder.GetOr(0), v.imageUrls, v.audioUrl, now, now)
  }

  /** A user inserted with no optional column is active and carries no other flag. */
  lemma UserDefaults(id: Id, email: string, username: string, password: string, first: string, last: string, now: Timestamp)
    ensures var u := UserRow(id, NewUser(email, username, "", first, last, None, None, None, None, None, None, None), password, now);
            u.isActive && !u.isVerified && !u.isAdmin && !u.isSuperAdmin && !u.isDeleted &&
            u.profilePicture == "" && u.bio == "" && u.password == password
  {
  }

  /** A walk inserted with no optional column is private with empty description and cover image. */
  lemma WalkDefaults(id: Id, authorId: Id, name: string, now: Timestamp)
    ensures var w := WalkRow(id, authorId, NewWalk(name, None, None, None, None, None), now);
            w.description == "" && w.coverImageUrl == "" && !w.isPublic && w.authorId == authorId && w.name == name
  {
  }

  /** A spot inserted with only its required columns has description "", radius 50 and position 0. */
  lemma SpotDefaults(id: Id, walkId: Id, title: string, lat: real, lon: real, now: Timestamp)
    ensures var s := SpotRow(id, walkId, NewSpot(None, Some(title), None, Some(lat), Some(lon), None, None, None, None), now);
            s.description == "" && s.reachRadius == 50 && s.positionOrder == 0 && s.walkId == walkId
  {
  }

  // ---------------------------------------------------------------------------------------------
  // Integrity: primary keys, unique columns and references, one predicate per table.

  predicate UsersOk(users: map<Id, User>) {
    && (forall k :: k in users ==> users[k].id == k)
    && (forall a, b :: a in users && b in users && users[a].email == users[b].email ==> a == b)
    && (forall a, b :: a in users && b in users && users[a].username == users[b].username ==> a == b)
  }

  /** The assumed reference of `refresh_tokens.userId` to `users`. */
  predicate TokensOk(rows: seq<RefreshToken>, users: map<Id, User>) {
    forall i :: 0 <= i < |rows| ==> rows[i].userId in users
  }

  predicate WalksOk(walks: map<Id, Walk>, users: map<Id, User>) {
    forall k :: k in walks ==> walks[k].id == k && walks[k].authorId in users
  }

  predicate SpotsOk(spots: map<Id, Spot>, walks: map<Id, Walk>) {
    forall k :: k in spots ==> spots[k].id == k && spots[k].walkId in walks
  }

  predicate TagsOk(tags: map<Id, Tag>) {
    forall k :: k in tags ==> tags[k].id == k
  }

  predicate LinksOk(links: seq<WalkTag>, walks: map<Id, Walk>, tags: map<Id, Tag>) {
    forall i :: 0 <= i < |links| ==> links[i].walkId in walks && links[i].tagId in tags
  }

  predicate ReviewsOk(reviews: map<Id, Review>, walks: map<Id, Walk>, users: map<Id, User>) {
    forall k :: k in reviews ==> reviews[k].id == k && reviews[k].walkId in walks && reviews[k].userId in users
  }

  predicate CommentsOk(comments: map<Id, Comment>, walks: map<Id, Walk>, users: map<Id, User>) {
    forall k :: k in comments ==> comments[k].id == k && comments[k].walkId in walks && comments[k].userId in users
  }

  predicate SubscriptionsOk(subscriptions: map<Id, Subscription>, walks: map<Id, Walk>, users: map<Id, User>) {
    forall k :: k in subscriptions ==>
      subscriptions[k].id == k && subscriptions[k].walkId in walks && subscriptions[k].userId in users
  }

  /** `current_spot_id` references spots without ON DELETE, so a referenced spot cannot be deleted. */
  predicate ProgressOk(progress: map<Id, Progress>, walks: map<Id, Walk>, users: map<Id, User>, spots: map<Id, Spot>) {
    forall k :: k in progress ==>
      && progress[k].id == k && progress[k].walkId in walks && progress[k].userId in users
      && (progress[k].currentSpotId.Some? ==> progress[k].currentSpotId.value in spots)
  }

  /** Every uuid primary key is generated by the database (`defaultRandom`), in canonical form. */
  predicate CanonicalKeys<R>(table: map<Id, R>) {
    forall k {:trigger Uuid.IsCanonical(k)} :: k in table ==> Uuid.IsCanonical(k)
  }

  /** A table whose keys all come from two tables of canonical keys has canonical keys only. */
  lemma CanonicalFrom<R>(a: map<Id, R>, b: map<Id, R>, c: map<Id, R>)
    requires CanonicalKeys(a) && CanonicalKeys(b) && c.Keys <= a.Keys + b.Keys
    ensures CanonicalKeys(c)
  {
    forall k | k in c ensures Uuid.IsCanonical(k) {
      assert k in a.Keys + b.Keys;
    }
  }

  /** Every table keeps its keys, unique columns and references. */
  predicate Consistent(users: map<Id, User>, refreshTokens: seq<RefreshToken>, walks: map<Id, Walk>,
                       spots: map<Id, Spot>, tags: map<Id, Tag>, walkTags: seq<WalkTag>,
                       reviews: map<Id, Review>, comments: map<Id, Comment>,
                       subscriptions: map<Id, Subscription>, progress: map<Id, Progress>)
  {
    && UsersOk(users)
    && TokensOk(refreshTokens, users)
    && WalksOk(walks, users)
    && SpotsOk(spots, walks)
    && TagsOk(tags)
    && LinksOk(walkTags, walks, tags)
    && ReviewsOk(reviews, walks, users)
    && CommentsOk(comments, walks, users)
    && SubscriptionsOk(subscriptions, walks, users)
    && ProgressOk(progress, walks, users, spots)
    && CanonicalKeys(users) && CanonicalKeys(walks) && CanonicalKeys(spots) && CanonicalKeys(tags)
    && CanonicalKeys(reviews) && CanonicalKeys(comments) && CanonicalKeys(subscriptions) && CanonicalKeys(progress)
  }

  /**
   * Neither `walks.name` nor the (walk, user) pair of `walk_reviews` is unique: a consistent
   * database may hold two walks of one name and two reviews of one walk by one user.
   */
  lemma RepeatsAllowed(uid: Id, aid: Id, bid: Id, rid: Id, sid: Id)
    requires Uuid.IsCanonical(uid) && Uuid.IsCanonical(aid) && Uuid.IsCanonical(bid)
    requires Uuid.IsCanonical(rid) && Uuid.IsCanonical(sid)
    requires aid != bid && rid != sid
    ensures var u := User(uid, "e", "n", "p", "f", "l", "", "", true, false, false, false, false, 0, 0);
            var a := Walk(aid, uid, "Loop", "", "", None, None, false, 0, 0);
            var b := a.(id := bid);
            var r := Review(rid, aid, uid, 5, None, 0, 0);
            var s := r.(id := sid);
            && a.name == b.name && r.walkId == s.walkId && r.userId == s.userId
            && Consistent(map[uid := u], [], map[aid := a, bid := b], map[], map[], [],
                          map[rid := r, sid := s], map[], map[], map[])
  {
  }

  // ---------------------------------------------------------------------------------------------
  // ON DELETE CASCADE: the rows that survive deleting the users `du` and the walks `dw`.

  function UsersAfter(users: map<Id, User>, du: set<Id>): map<Id, User> {
    map k | k in users && k !in du :: users[k]
  }

  function TokensAfter(rows: seq<RefreshToken>, du: set<Id>): seq<RefreshToken> {
    Filter(rows, (r: RefreshToken) => r.userId !in du)
  }

  function WalksAfter(walks: map<Id, Walk>, dw: set<Id>): map<Id, Walk> {
    map k | k in walks && k !in dw :: walks[k]
  }

  function SpotsAfter(spots: map<Id, Spot>, dw: set<Id>): map<Id, Spot> {
    map k | k in spots && spots[k].walkId !in dw :: spots[k]
  }

  function LinksAfter(links: seq<WalkTag>, dw: set<Id>): seq<WalkTag> {
    Filter(links, (l: WalkTag) => l.walkId !in dw)
  }

  function ReviewsAfter(reviews: map<Id, Review>, du: set<Id>, dw: set<Id>): map<Id, Review> {
    map k | k in reviews && reviews[k].userId !in du && reviews[k].walkId !in dw :: reviews[k]
  }

  function CommentsAfter(comments: map<Id, Comment>, du: set<Id>, dw: set<Id>): map<Id, Comment> {
    map k | k in comments && comments[k].userId !in du && comments[k].walkId !in dw :: comments[k]
  }

  function SubscriptionsAfter(subscriptions: map<Id, Subscription>, du: set<Id>, dw: set<Id>): map<Id, Subscription> {
    map k | k in subscriptions && subscriptions[k].userId !in du && subscriptions[k].walkId !in dw :: subscriptions[k]
  }

  function ProgressAfter(progress: map<Id, Progress>, du: set<Id>, dw: set<Id>): map<Id, Progress> {
    map k | k in progress && progress[k].userId !in du && progress[k].walkId !in dw :: progress[k]
  }

  /** The walks the users `du` author: deleting a user deletes them. */
  function AuthoredBy(walks: map<Id, Walk>, du: set<Id>): set<Id> {
    set k | k in walks && walks[k].authorId in du
  }

  /**
   * The cascade is refused (and nothing is deleted) when a surviving progress row points at a
   * spot the cascade would delete: `current_spot_id` has no ON DELETE action.
   */
  predicate Blocked(progress: map<Id, Progress>, spots: map<Id, Spot>, du: set<Id>, dw: set<Id>) {
    exists k :: k in ProgressAfter(progress, du, dw) && progress[k].currentSpotId.Some?
                && progress[k].currentSpotId.value in spots
                && spots[progress[k].currentSpotId.value].walkId in dw
  }

  // The cascade keeps every reference intact, table by table.

  lemma CascadeKeepsUsers(users: map<Id, User>, du: set<Id>)
    requires UsersOk(users)
    ensures UsersOk(UsersAfter(users, du))
  {
  }

  lemma CascadeKeepsTokens(rows: seq<RefreshToken>, users: map<Id, User>, du: set<Id>)
    requires TokensOk(rows, users)
    ensures TokensOk(TokensAfter(rows, du), UsersAfter(users, du))
  {
    var r := TokensAfter(rows, du);
    forall i | 0 <= i < |r| ensures r[i].userId in UsersAfter(users, du) {
      assert r[i] in rows;
    }
  }

  lemma CascadeKeepsWalks(walks: map<Id, Walk>, users: map<Id, User>, du: set<Id>, dw: set<Id>)
    requires WalksOk(walks, users) && AuthoredBy(walks, du) <= dw
    ensures WalksOk(WalksAfter(walks, dw), UsersAfter(users, du))
  {
    var w := WalksAfter(walks, dw);
    forall k | k in w ensures w[k].authorId in UsersAfter(users, du) {
      assert k !in AuthoredBy(walks, du);
    }
  }

  lemma CascadeKeepsLinks(links: seq<WalkTag>, walks: map<Id, Walk>, tags: map<Id, Tag>, dw: set<Id>)
    requires LinksOk(links, walks, tags)
    ensures LinksOk(LinksAfter(links, dw), WalksAfter(walks, dw), tags)
  {
    var r := LinksAfter(links, dw);
    forall i | 0 <= i < |r| ensures r[i].walkId in WalksAfter(walks, dw) && r[i].tagId in tags {
      assert r[i] in links;
    }
  }

  lemma CascadeKeepsProgress(progress: map<Id, Progress>, walks: map<Id, Walk>, users: map<Id, User>,
                             spots: map<Id, Spot>, du: set<Id>, dw: set<Id>)
    requires ProgressOk(progress, walks, users, spots) && !Blocked(progress, spots, du, dw)
    ensures ProgressOk(ProgressAfter(progress, du, dw), WalksAfter(walks, dw), UsersAfter(users, du), SpotsAfter(spots, dw))
  {
    var p := ProgressAfter(progress, du, dw);
    forall k | k in p && p[k].currentSpotId.Some? ensures p[k].currentSpotId.value in SpotsAfter(spots, dw) {
    }
  }

  lemma CascadeKeepsSpots(spots: map<Id, Spot>, walks: map<Id, Walk>, dw: set<Id>)
    requires SpotsOk(spots, walks)
    ensures SpotsOk(SpotsAfter(spots, dw), WalksAfter(walks, dw))
  {
  }

  lemma CascadeKeepsReviews(reviews: map<Id, Review>, walks: map<Id, Walk>, users: map<Id, User>, du: set<Id>, dw: set<Id>)
    requires ReviewsOk(reviews, walks, users)
    ensures ReviewsOk(ReviewsAfter(reviews, du, dw), WalksAfter(walks, dw), UsersAfter(users, du))
  {
  }

  lemma CascadeKeepsComments(comments: map<Id, Comment>, walks: map<Id, Walk>, users: map<Id, User>, du: set<Id>, dw: set<Id>)
    requires CommentsOk(comments, walks, users)
    ensures CommentsOk(CommentsAfter(comments, du, dw), WalksAfter(walks, dw), UsersAfter(users, du))
  {
  }

  lemma CascadeKeepsSubscriptions(subscriptions: map<Id, Subscription>, walks: map<Id, Walk>, users: map<Id, User>,
                                  du: set<Id>, dw: set<Id>)
    requires SubscriptionsOk(subscriptions, walks, users)
    ensures SubscriptionsOk(SubscriptionsAfter(subscriptions, du, dw), WalksAfter(walks, dw), UsersAfter(users, du))
  {
  }

  /** Deleting the users `du` and the walks `dw`, with every cascade, leaves every reference intact. */
  lemma CascadeKeepsConsistent(users: map<Id, User>, refreshTokens: seq<RefreshToken>, walks: map<Id, Walk>,
                               spots: map<Id, Spot>, tags: map<Id, Tag>, walkTags: seq<WalkTag>,
                               reviews: map<Id, Review>, comments: map<Id, Comment>,
                               subscriptions: map<Id, Subscription>, progress: map<Id, Progress>, du: set<Id>, dw: set<Id>)
    requires Consistent(users, refreshTokens, walks, spots, tags, walkTags, reviews, comments, subscriptions, progress)
    requires AuthoredBy(walks, du) <= dw && !Blocked(progress, spots, du, dw)
    ensures Consistent(UsersAfter(users, du), TokensAfter(refreshTokens, du), WalksAfter(walks, dw),
                       SpotsAfter(spots, dw), tags, LinksAfter(walkTags, dw), ReviewsAfter(reviews, du, dw),
                       CommentsAfter(comments, du, dw), SubscriptionsAfter(subscriptions, du, dw),
                       ProgressAfter(progress, du, dw))
  {
    CascadeKeepsUsers(users, du);
    CascadeKeepsTokens(refreshTokens, users, du);
    CascadeKeepsWalks(walks, users, du, dw);
    CascadeKeepsSpots(spots, walks, dw);
    CascadeKeepsLinks(walkTags, walks, tags, dw);
    CascadeKeepsReviews(reviews, walks, users, du, dw);
    CascadeKeepsComments(comments, walks, users, du, dw);
    CascadeKeepsSubscriptions(subscriptions, walks, users, du, dw);
    CascadeKeepsProgress(progress, walks, users, spots, du, dw);
  }

  /** Rewriting walk rows without adding or removing any keeps every reference intact. */
  lemma SameWalksConsistent(users: map<Id, User>, refreshTokens: seq<RefreshToken>, walks: map<Id, Walk>,
                            walks': map<Id, Walk>, spots: map<Id, Spot>, tags: map<Id, Tag>, walkTags: seq<WalkTag>,
                            reviews: map<Id, Review>, comments: map<Id, Comment>,
                            subscriptions: map<Id, Subscription>, progress: map<Id, Progress>)
    requires Consistent(users, refreshTokens, walks, spots, tags, walkTags, reviews, comments, subscriptions, progress)
    requires walks'.Keys == walks.Keys && WalksOk(walks', users)
    ensures Consistent(users, refreshTokens, walks', spots, tags, walkTags, reviews, comments, subscriptions, progress)
  {
    assert forall k :: k in walks' <==> k in walks;
  }

  /** Replacing the tag links and the spots by tables whose own references hold keeps consistency. */
  lemma NewLinksAndSpotsConsistent(users: map<Id, User>, refreshTokens: seq<RefreshToken>, walks: map<Id, Walk>,
                                   spots: map<Id, Spot>, spots': map<Id, Spot>, tags: map<Id, Tag>,
                                   walkTags: seq<WalkTag>, walkTags': seq<WalkTag>, reviews: map<Id, Review>,
                                   comments: map<Id, Comment>, subscriptions: map<Id, Subscription>,
                                   progress: map<Id, Progress>)
    requires Consistent(users, refreshTokens, walks, spots, tags, walkTags, reviews, comments, subscriptions, progress)
    requires LinksOk(walkTags', walks, tags) && SpotsOk(spots', walks) && CanonicalKeys(spots')
    requires ProgressOk(progress, walks, users, spots')
    ensures Consistent(users, refreshTokens, walks, spots', tags, walkTags', reviews, comments, subscriptions, progress)
  {
  }

  /** Only the rows of the remaining users survive, so they still reference the same users. */
  lemma KeepTokensOk(rows: seq<RefreshToken>, users: map<Id, User>, du: set<Id>)
    requires TokensOk(rows, users)
    ensures TokensOk(TokensAfter(rows, du), users)
  {
    var r := TokensAfter(rows, du);
    forall i | 0 <= i < |r| ensures r[i].userId in users {
      assert r[i] in rows;
    }
  }

  /** Deleting no user keeps every refresh token. */
  lemma {:induction false} NobodyLeavesTokens(rows: seq<RefreshToken>)
    ensures TokensAfter(rows, {}) == rows
  {
    if rows != [] {
      NobodyLeavesTokens(rows[1..]);
    }
  }

  /** The whole database, as the controllers share it. */
  class Database {
    var users: map<Id, User>
    var refreshTokens: seq<RefreshToken>
    var walks: map<Id, Walk>
    var spots: map<Id, Spot>
    var tags: map<Id, Tag>
    var walkTags: seq<WalkTag>
    var reviews: map<Id, Review>
    var comments: map<Id, Comment>
    var subscriptions: map<Id, Subscription>
    var progress: map<Id, Progress>

    ghost predicate Valid()
      reads this
    {
      Consistent(users, refreshTokens, walks, spots, tags, walkTags, reviews, comments, subscriptions, progress)
    }

    constructor ()
      ensures Valid()
      ensures users == map[] && refreshTokens == [] && walks == map[] && spots == map[] && tags == map[]
      ensures walkTags == [] && reviews == map[] && comments == map[] && subscriptions == map[] && progress == map[]
    {
      users, refreshTokens, walks, spots, tags := map[], [], map[], map[], map[];
      walkTags, reviews, comments, subscriptions, progress := [], map[], map[], map[], map[];
    }

    /** `insert(users)`: the key is new and the email and username stay unique. */
    method InsertUser(row: User)
      requires Valid() && Uuid.IsCanonical(row.id) && row.id !in users && UsersOk(users[row.id := row])
      modifies this
      ensures Valid()
      ensures users == old(users)[row.id := row]
      ensures refreshTokens == old(refreshTokens) && walks == old(walks) && spots == old(spots) && tags == old(tags)
      ensures walkTags == old(walkTags) && reviews == old(reviews) && comments == old(comments)
      ensures subscriptions == old(subscriptions) && progress == old(progress)
    {
      users := users[row.id := row];
      assert Consistent(users, refreshTokens, walks, spots, tags, walkTags, reviews, comments, subscriptions, progress);
    }

    /** `insert(refreshTokens)`: the user must exist. */
    method InsertToken(row: RefreshToken)
      requires Valid() && row.userId in users
      modifies this
      ensures Valid()
      ensures refreshTokens == old(refreshTokens) + [row]
      ensures users == old(users) && walks == old(walks) && spots == old(spots) && tags == old(tags)
      ensures walkTags == old(walkTags) && reviews == old(reviews) && comments == old(comments)
      ensures subscriptions == old(subscriptions) && progress == old(progress)
    {
      refreshTokens := refreshTokens + [row];
      assert Consistent(users, refreshTokens, walks, spots, tags, walkTags, reviews, comments, subscriptions, progress);
    }

    /** A `delete(refreshTokens)`: what remains of the table, whose rows still name existing users. */
    method KeepTokens(rows: seq<RefreshToken>)
      requires Valid() && TokensOk(rows, users)
      modifies this
      ensures Valid()
      ensures refreshTokens == rows
      ensures users == old(users) && walks == old(walks) && spots == old(spots) && tags == old(tags)
      ensures walkTags == old(walkTags) && reviews == old(reviews) && comments == old(comments)
      ensures subscriptions == old(subscriptions) && progress == old(progress)
    {
      refreshTokens := rows;
      assert Consistent(users, refreshTokens, walks, spots, tags, walkTags, reviews, comments, subscriptions, progress);
    }

    /** `insert(walkReviews)`: the walk and the user must exist. */
    method InsertReview(row: Review)
      requires Valid() && Uuid.IsCanonical(row.id) && row.id !in reviews && row.walkId in walks && row.userId in users
      modifies this
      ensures Valid()
      ensures reviews == old(reviews)[row.id := row]
      ensures users == old(users) && refreshTokens == old(refreshTokens) && walks == old(walks) && spots == old(spots)
      ensures tags == old(tags) && walkTags == old(walkTags) && comments == old(comments)
      ensures subscriptions == old(subscriptions) && progress == old(progress)
    {
      reviews := reviews[row.id := row];
      assert Consistent(users, refreshTokens, walks, spots, tags, walkTags, reviews, comments, subscriptions, progress);
    }

    /** `insert(walkComments)`: the walk and the user must exist. */
    method InsertComment(row: Comment)
      requires Valid() && Uuid.IsCanonical(row.id) && row.id !in comments && row.walkId in walks && row.userId in users
      modifies this
      ensures Valid()
      ensures comments == old(comments)[row.id := row]
      ensures users == old(users) && refreshTokens == old(refreshTokens) && walks == old(walks) && spots == old(spots)
      ensures tags == old(tags) && walkTags == old(walkTags) && reviews == old(reviews)
      ensures subscriptions == old(subscriptions) && progress == old(progress)
    {
      comments := comments[row.id := row];
      assert Consistent(users, refreshTokens, walks, spots, tags, walkTags, reviews, comments, subscriptions, progress);
    }

    /** The commit of a transaction over a walk, its tag links and its spots. */
    method CommitWalks(walks': map<Id, Walk>, walkTags': seq<WalkTag>, spots': map<Id, Spot>)
      requires Consistent(users, refreshTokens, walks', spots', tags, walkTags', reviews, comments, subscriptions, progress)
      modifies this
      ensures Valid()
      ensures walks == walks' && walkTags == walkTags' && spots == spots'
      ensures users == old(users) && refreshTokens == old(refreshTokens) && tags == old(tags)
      ensures reviews == old(reviews) && comments == old(comments)
      ensures subscriptions == old(subscriptions) && progress == old(progress)
    {
      walks, walkTags, spots := walks', walkTags', spots';
      assert Consistent(users, refreshTokens, walks, spots, tags, walkTags, reviews, comments, subscriptions, progress);
    }

    /**
     * The rows that survive deleting the users `du` and the walks `dw`. Every walk a deleted
     * user authors must be among `dw`.
     */
    method Cascade(du: set<Id>, dw: set<Id>)
      requires Valid()
      requires AuthoredBy(walks, du) <= dw
      requires !Blocked(progress, spots, du, dw)
      modifies this
      ensures Valid()
      ensures users == UsersAfter(old(users), du) && refreshTokens == TokensAfter(old(refreshTokens), du)
      ensures walks == WalksAfter(old(walks), dw) && spots == SpotsAfter(old(spots), dw)
      ensures walkTags == LinksAfter(old(walkTags), dw) && tags == old(tags)
      ensures reviews == ReviewsAfter(old(reviews), du, dw) && comments == CommentsAfter(old(comments), du, dw)
      ensures subscriptions == SubscriptionsAfter(old(subscriptions), du, dw)
      ensures progress == ProgressAfter(old(progress), du, dw)
    {
      CascadeKeepsConsistent(users, refreshTokens, walks, spots, tags, walkTags, reviews, comments, subscriptions, progress, du, dw);
      users := UsersAfter(users, du);
      refreshTokens := TokensAfter(refreshTokens, du);
      walks := WalksAfter(walks, dw);
      spots := SpotsAfter(spots, dw);
      walkTags := LinksAfter(walkTags, dw);
      reviews := ReviewsAfter(reviews, du, dw);
      comments := CommentsAfter(comments, du, dw);
      subscriptions := SubscriptionsAfter(subscriptions, du, dw);
      progress := ProgressAfter(progress, du, dw);
      assert Consistent(users, refreshTokens, walks, spots, tags, walkTags, reviews, comments, subscriptions, progress);
    }

    /** `DELETE FROM walks WHERE id = walkId`: true when the delete (with its cascade) was applied, false when refused. */
    method DeleteWalk(walkId: Id) returns (deleted: bool)
      requires Valid()
      modifies this
      ensures Valid()
      ensures deleted <==> !Blocked(old(progress), old(spots), {}, {walkId})
      ensures !deleted ==> && users == old(users) && refreshTokens == old(refreshTokens) && walks == old(walks)
                           && spots == old(spots) && walkTags == old(walkTags) && reviews == old(reviews)
                           && comments == old(comments) && subscriptions == old(subscriptions) && progress == old(progress)
      ensures deleted ==> && users == old(users) && refreshTokens == old(refreshTokens)
                          && walks == WalksAfter(old(walks), {walkId}) && spots == SpotsAfter(old(spots), {walkId})
                          && walkTags == LinksAfter(old(walkTags), {walkId})
                          && reviews == ReviewsAfter(old(reviews), {}, {walkId})
                          && comments == CommentsAfter(old(comments), {}, {walkId})
                          && subscriptions == SubscriptionsAfter(old(subscriptions), {}, {walkId})
                          && progress == ProgressAfter(old(progress), {}, {walkId})
      ensures tags == old(tags)
    {
      if Blocked(progress, spots, {}, {walkId}) {
        return false;
      }
      ghost var u0, t0 := users, refreshTokens;
      Cascade({}, {walkId});
      assert users == u0 by {
        assert forall k :: k in u0 ==> k in users;
      }
      assert refreshTokens == t0 by {
        NobodyLeavesTokens(t0);
      }
      deleted := true;
    }

    /** `DELETE FROM users WHERE id = userId`: the cascade reaches the user's tokens, walks, reviews, comments, subscriptions and progress. */
    method DeleteUser(userId: Id) returns (deleted: bool)
      requires Valid()
      modifies this
      ensures Valid()
      ensures var dw := AuthoredBy(old(walks), {userId});
              && (deleted <==> !Blocked(old(progress), old(spots), {userId}, dw))
              && (!deleted ==> && users == old(users) && refreshTokens == old(refreshTokens) && walks == old(walks)
                               && spots == old(spots) && walkTags == old(walkTags) && reviews == old(reviews)
                               && comments == old(comments) && subscriptions == old(subscriptions)
                               && progress == old(progress))
              && (deleted ==> && users == UsersAfter(old(users), {userId})
                              && refreshTokens == TokensAfter(old(refreshTokens), {userId})
                              && walks == WalksAfter(old(walks), dw) && spots == SpotsAfter(old(spots), dw)
                              && walkTags == LinksAfter(old(walkTags), dw)
                              && reviews == ReviewsAfter(old(reviews), {userId}, dw)
                              && comments == CommentsAfter(old(comments), {userId}, dw)
                              && subscriptions == SubscriptionsAfter(old(subscriptions), {userId}, dw)
                              && progress == ProgressAfter(old(progress), {userId}, dw))
      ensures tags == old(tags)
    {
      var dw := AuthoredBy(walks, {userId});
      if Blocked(progress, spots, {userId}, dw) {
        return false;
      }
      Cascade({userId}, dw);
      deleted := true;
    }
  }
}
