/**
 * src/controllers/authController.ts: registration, login and refresh-token rotation over the
 * `users` and `refresh_tokens` tables. Hashing, password comparison, token signing and token
 * verification are parameters; `now` is the request's clock reading and `ttl` the configured
 * JWT_REFRESH_EXPIRES_IN.
 */
module Auth {
  import opened Wrappers
  import opened Tables
  import opened Errors
  import opened Duration
  import opened Jwt
  import opened Schema
  import Uuid

  /** The user as the responses show it: the password and the flags are not part of it. */
  datatype PublicUser = PublicUser(id: Id, email: string, username: string,
                                   firstName: string, lastName: string, createdAt: Timestamp)

  /** The JSON body of a successful register or login, with its status. */
  datatype Session = Session(status: int, message: string, user: PublicUser, token: string, refreshToken: string)

  /** The JSON body of a successful refresh, with its status. */
  datatype Rotation = Rotation(status: int, message: string, token: string, refreshToken: string)

  function PublicOf(u: User): (p: PublicUser)
    ensures p.id == u.id && p.email == u.email && p.username == u.username
    ensures p.firstName == u.firstName && p.lastName == u.lastName && p.createdAt == u.createdAt
  {
    PublicUser(u.id, u.email, u.username, u.firstName, u.lastName, u.createdAt)
  }

  predicate EmailTaken(users: map<Id, User>, email: string) {
    exists k :: k in users && users[k].email == email
  }

  predicate UsernameTaken(users: map<Id, User>, username: string) {
    exists k :: k in users && users[k].username == username
  }

  /** What a failing parseTimeToMs throws: a plain Error with no status. */
  function TtlError(ttl: string): CustomError {
    Raise(0, "Error", "Invalid time format: " + ttl)
  }

  const InvalidCredentials := Raise(401, "UnauthorizedError", "Invalid credentials")
  const InvalidRefresh := Raise(401, "UnauthorizedError", "Invalid or expired refresh token")
  const EmailInUse := Raise(400, "ValidationError", "Email already in use")
  const UsernameInUse := Raise(400, "ValidationError", "Username already in use")
  const TokenRequired := Raise(400, "ValidationError", "Refresh token is required")
  const UserInactive := Raise(401, "UnauthorizedError", "User not found or inactive")

  const UserCreated := "User created successfully"
  const LoggedIn := "Login successful"
  const TokenRefreshed := "Token refreshed successfully"

  // ---------------------------------------------------------------------------------------------
  // The refresh_tokens table, seen per user and per token.

  function OwnedBy(id: Id): RefreshToken -> bool {
    (r: RefreshToken) => r.userId == id
  }

  function NotToken(t: string): RefreshToken -> bool {
    (r: RefreshToken) => r.token != t
  }

  /** The rows of user `id`. */
  function RowsOf(rows: seq<RefreshToken>, id: Id): seq<RefreshToken> {
    Filter(rows, OwnedBy(id))
  }

  /** `delete(refreshTokens).where(eq(refreshTokens.token, t))`. */
  function WithoutToken(rows: seq<RefreshToken>, t: string): (r: seq<RefreshToken>)
    ensures forall i :: 0 <= i < |r| ==> r[i].token != t
    ensures forall x :: x in rows && x.token != t ==> x in r
  {
    Filter(rows, NotToken(t))
  }

  /** The lookup refreshToken makes: a row for token `t` of user `id` that expires after `now`. */
  predicate HasValidRow(rows: seq<RefreshToken>, t: string, id: Id, now: Timestamp) {
    exists i :: 0 <= i < |rows| && rows[i].token == t && rows[i].userId == id && rows[i].expiresAt > now
  }

  // ---------------------------------------------------------------------------------------------
  // Handlers.

  /** register: two uniqueness checks, the insert, then the refresh token of the new user. */
  method Register(db: Database, body: NewUser, hash: string -> string, newId: Id,
                  token: string, refreshToken: string, ttl: string, now: Timestamp)
    returns (r: Outcome<Session>)
    requires db.Valid() && Uuid.IsCanonical(newId) && newId !in db.users
    modifies db
    ensures db.Valid()
    ensures db.walks == old(db.walks) && db.spots == old(db.spots) && db.tags == old(db.tags)
    ensures db.walkTags == old(db.walkTags) && db.reviews == old(db.reviews) && db.comments == old(db.comments)
    ensures db.subscriptions == old(db.subscriptions) && db.progress == old(db.progress)
    ensures EmailTaken(old(db.users), body.email) ==>
              && r == Thrown(EmailInUse)
              && db.users == old(db.users) && db.refreshTokens == old(db.refreshTokens)
    ensures !EmailTaken(old(db.users), body.email) && UsernameTaken(old(db.users), body.username) ==>
              && r == Thrown(UsernameInUse)
              && db.users == old(db.users) && db.refreshTokens == old(db.refreshTokens)
    ensures !EmailTaken(old(db.users), body.email) && !UsernameTaken(old(db.users), body.username) ==>
              var row := UserRow(newId, body, hash(body.password), now);
              && db.users == old(db.users)[newId := row]
              && match ParseTimeToMs(ttl)
                 case InvalidFormat(_) =>
                   r == Thrown(TtlError(ttl)) && db.refreshTokens == old(db.refreshTokens)
                 case Millis(ms) =>
                   && r == Ok(Session(201, UserCreated, PublicOf(row), token, refreshToken))
                   && db.refreshTokens == old(db.refreshTokens) + [RefreshToken(newId, refreshToken, now + ms)]
  {
    var hashed := hash(body.password);
    if EmailTaken(db.users, body.email) {
      return Thrown(EmailInUse);
    }
    if UsernameTaken(db.users, body.username) {
      return Thrown(UsernameInUse);
    }
    var row := UserRow(newId, body, hashed, now);
    NewUserKeepsUnique(db.users, row);
    db.InsertUser(row);
    var ms := ParseTimeToMs(ttl);
    if ms.InvalidFormat? {
      return Thrown(TtlError(ttl));
    }
    db.InsertToken(RefreshToken(newId, refreshToken, now + ms.ms));
    r := Ok(Session(201, UserCreated, PublicOf(row), token, refreshToken));
  }

  /** login: the user with that email and a matching password get their tokens replaced by one new one. */
  method Login(db: Database, email: string, password: string, compare: (string, string) -> bool,
               token: string, refreshToken: string, ttl: string, now: Timestamp)
    returns (r: Outcome<Session>)
    requires db.Valid()
    modifies db
    ensures db.Valid()
    ensures db.users == old(db.users) && db.walks == old(db.walks) && db.spots == old(db.spots)
    ensures db.tags == old(db.tags) && db.walkTags == old(db.walkTags) && db.reviews == old(db.reviews)
    ensures db.comments == old(db.comments) && db.subscriptions == old(db.subscriptions)
    ensures db.progress == old(db.progress)
    ensures (forall k :: k in db.users && db.users[k].email == email ==> !compare(password, db.users[k].password)) ==>
              r == Thrown(InvalidCredentials) && db.refreshTokens == old(db.refreshTokens)
    ensures forall k :: k in db.users && db.users[k].email == email && compare(password, db.users[k].password) ==>
              var user := db.users[k];
              match ParseTimeToMs(ttl)
              case InvalidFormat(_) =>
                r == Thrown(TtlError(ttl)) && db.refreshTokens == TokensAfter(old(db.refreshTokens), {k})
              case Millis(ms) =>
                && r == Ok(Session(201, LoggedIn, PublicOf(user), token, refreshToken))
                && db.refreshTokens == TokensAfter(old(db.refreshTokens), {k}) + [RefreshToken(k, refreshToken, now + ms)]
  {
    if !EmailTaken(db.users, email) {
      return Thrown(InvalidCredentials);
    }
    var k :| k in db.users && db.users[k].email == email;
    var user := db.users[k];
    if !compare(password, user.password) {
      return Thrown(InvalidCredentials);
    }
    assert forall j :: j in db.users && db.users[j].email == email ==> j == k;
    KeepTokensOk(db.refreshTokens, db.users, {k});
    db.KeepTokens(TokensAfter(db.refreshTokens, {k}));
    var ms := ParseTimeToMs(ttl);
    if ms.InvalidFormat? {
      return Thrown(TtlError(ttl));
    }
    db.InsertToken(RefreshToken(k, refreshToken, now + ms.ms));
    r := Ok(Session(201, LoggedIn, PublicOf(user), token, refreshToken));
  }

  /**
   * refreshToken: a present token that verifies, is stored for the decoded user and unexpired,
   * and belongs to an active user, is replaced by a new one.
   */
  method RefreshTokens(db: Database, presented: Option<string>, verify: Verifier,
                       token: string, newRefreshToken: string, ttl: string, now: Timestamp)
    returns (r: Outcome<Rotation>)
    requires db.Valid()
    modifies db
    ensures db.Valid()
    ensures db.users == old(db.users) && db.walks == old(db.walks) && db.spots == old(db.spots)
    ensures db.tags == old(db.tags) && db.walkTags == old(db.walkTags) && db.reviews == old(db.reviews)
    ensures db.comments == old(db.comments) && db.subscriptions == old(db.subscriptions)
    ensures db.progress == old(db.progress)
    ensures presented.None? || presented == Some("") ==>
              r == Thrown(TokenRequired)
              && db.refreshTokens == old(db.refreshTokens)
    ensures presented.Some? && presented.value != "" ==>
              var t := presented.value;
              match verify(t)
              case None =>
                r == Thrown(InvalidRefresh) && db.refreshTokens == old(db.refreshTokens)
              case Some(decoded) =>
                if !HasValidRow(old(db.refreshTokens), t, decoded.id, now) then
                  r == Thrown(InvalidRefresh) && db.refreshTokens == old(db.refreshTokens)
                else if decoded.id !in db.users || !db.users[decoded.id].isActive then
                  r == Thrown(UserInactive)
                  && db.refreshTokens == old(db.refreshTokens)
                else match ParseTimeToMs(ttl)
                  case InvalidFormat(_) =>
                    r == Thrown(TtlError(ttl)) && db.refreshTokens == WithoutToken(old(db.refreshTokens), t)
                  case Millis(ms) =>
                    && r == Ok(Rotation(200, TokenRefreshed, token, newRefreshToken))
                    && db.refreshTokens == WithoutToken(old(db.refreshTokens), t)
                                           + [RefreshToken(decoded.id, newRefreshToken, now + ms)]
  {
    if presented.None? || presented.value == "" {
      return Thrown(TokenRequired);
    }
    var t := presented.value;
    var decoded := verify(t);
    if decoded.None? {
      return Thrown(InvalidRefresh);
    }
    var id := decoded.value.id;
    if !HasValidRow(db.refreshTokens, t, id, now) {
      return Thrown(InvalidRefresh);
    }
    if id !in db.users || !db.users[id].isActive {
      return Thrown(UserInactive);
    }
    var user := db.users[id];
    KeepUnrevokedOk(db.refreshTokens, db.users, t);
    db.KeepTokens(WithoutToken(db.refreshTokens, t));
    var ms := ParseTimeToMs(ttl);
    if ms.InvalidFormat? {
      return Thrown(TtlError(ttl));
    }
    db.InsertToken(RefreshToken(user.id, newRefreshToken, now + ms.ms));
    r := Ok(Rotation(200, TokenRefreshed, token, newRefreshToken));
  }

  // ---------------------------------------------------------------------------------------------
  // Integrity of the writes.

  /** A user whose email and username are both new keeps both columns unique. */
  lemma NewUserKeepsUnique(users: map<Id, User>, row: User)
    requires UsersOk(users) && row.id !in users
    requires !EmailTaken(users, row.email) && !UsernameTaken(users, row.username)
    ensures UsersOk(users[row.id := row])
  {
    var u := users[row.id := row];
    forall a, b | a in u && b in u && u[a].email == u[b].email ensures a == b {
      if a != b && (a == row.id || b == row.id) {
        assert false;
      }
    }
    forall a, b | a in u && b in u && u[a].username == u[b].username ensures a == b {
      if a != b && (a == row.id || b == row.id) {
        assert false;
      }
    }
  }

  /** Deleting the rows of one token leaves rows that still name existing users. */
  lemma KeepUnrevokedOk(rows: seq<RefreshToken>, users: map<Id, User>, t: string)
    requires TokensOk(rows, users)
    ensures TokensOk(WithoutToken(rows, t), users)
  {
    var r := WithoutToken(rows, t);
    forall i | 0 <= i < |r| ensures r[i].userId in users {
      assert r[i] in rows;
    }
  }

  // ---------------------------------------------------------------------------------------------
  // What the rotations promise.

  /** Deleting user `id`'s rows leaves none of them and every other user's rows as they were. */
  lemma DeleteByUser(rows: seq<RefreshToken>, id: Id, other: Id)
    requires other != id
    ensures RowsOf(TokensAfter(rows, {id}), id) == []
    ensures RowsOf(TokensAfter(rows, {id}), other) == RowsOf(rows, other)
  {
    var r := TokensAfter(rows, {id});
    assert forall i :: 0 <= i < |r| ==> !OwnedBy(id)(r[i]);
    FilterNone(r, OwnedBy(id));
    OtherRowsKept(rows, id, other);
  }

  lemma {:induction false} OtherRowsKept(rows: seq<RefreshToken>, id: Id, other: Id)
    requires other != id
    ensures RowsOf(TokensAfter(rows, {id}), other) == RowsOf(rows, other)
  {
    if rows != [] {
      var x, rest := rows[0], rows[1..];
      OtherRowsKept(rest, id, other);
      var head := if x.userId != id then [x] else [];
      assert TokensAfter(rows, {id}) == head + TokensAfter(rest, {id});
      FilterConcat(head, TokensAfter(rest, {id}), OwnedBy(other));
    }
  }

  /** After a login of user `id`, that user has exactly the one new token; every other user keeps theirs. */
  lemma LoginLeavesOneToken(rows: seq<RefreshToken>, id: Id, t: string, expiresAt: Timestamp, other: Id)
    requires other != id
    ensures var after := TokensAfter(rows, {id}) + [RefreshToken(id, t, expiresAt)];
            && RowsOf(after, id) == [RefreshToken(id, t, expiresAt)]
            && RowsOf(after, other) == RowsOf(rows, other)
  {
    var issued := RefreshToken(id, t, expiresAt);
    DeleteByUser(rows, id, other);
    FilterConcat(TokensAfter(rows, {id}), [issued], OwnedBy(id));
    FilterConcat(TokensAfter(rows, {id}), [issued], OwnedBy(other));
  }

  /**
   * As written, the rotation deletes the rows of `t` and inserts the new token. Signing is
   * deterministic (the same payload within one second gives the same string), so a refresh in
   * the second the presented token was minted inserts `t` itself again, and the token that
   * was meant to be rotated out still passes the lookup.
   */
  lemma ReissuedTokenReplays(rows: seq<RefreshToken>, t: string, owner: Id, expiresAt: Timestamp, later: Timestamp)
    requires expiresAt > later
    ensures HasValidRow(WithoutToken(rows, t) + [RefreshToken(owner, t, expiresAt)], t, owner, later)
  {
    var after := WithoutToken(rows, t) + [RefreshToken(owner, t, expiresAt)];
    assert after[|after| - 1] == RefreshToken(owner, t, expiresAt);
  }

  /**
   * With a new token different from the presented one (what a unique token id per signing
   * would guarantee), a rotated-out token never passes the lookup again, for any user and at
   * any time.
   */
  lemma ReplayRejected(rows: seq<RefreshToken>, t: string, newToken: string, owner: Id, expiresAt: Timestamp,
                       id: Id, later: Timestamp)
    requires newToken != t
    ensures !HasValidRow(WithoutToken(rows, t) + [RefreshToken(owner, newToken, expiresAt)], t, id, later)
  {
    var after := WithoutToken(rows, t) + [RefreshToken(owner, newToken, expiresAt)];
    forall i | 0 <= i < |after| ensures after[i].token != t {
      if i < |WithoutToken(rows, t)| {
        assert after[i] == WithoutToken(rows, t)[i];
      }
    }
  }

  /** The new token passes the lookup right away exactly when its lifetime is positive ("0s" gives a dead token). */
  lemma IssuedTokenValid(rows: seq<RefreshToken>, t: string, id: Id, now: Timestamp, ms: nat)
    requires forall i :: 0 <= i < |rows| ==> rows[i].token != t
    ensures HasValidRow(rows + [RefreshToken(id, t, now + ms)], t, id, now) <==> ms > 0
  {
    var after := rows + [RefreshToken(id, t, now + ms)];
    if ms > 0 {
      assert after[|rows|] == RefreshToken(id, t, now + ms);
    } else {
      forall i | 0 <= i < |after| && after[i].token == t ensures after[i].expiresAt <= now {
      }
    }
  }

  /** A row that expired, or one stored for another user, does not let a token through. */
  lemma ExpiredOrForeignRejected(rows: seq<RefreshToken>, t: string, id: Id, now: Timestamp)
    requires forall i :: 0 <= i < |rows| && rows[i].token == t ==> rows[i].expiresAt <= now || rows[i].userId != id
    ensures !HasValidRow(rows, t, id, now)
  {
  }
}
