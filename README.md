# Walks backend: a verified model of its core

This project models the core of a backend for guided walks. Users register, log in and rotate
refresh tokens. Authors create walks made of spots and tags, and update them. Other users
review and comment on them. Listings are paginated. Every error ends in one central
translation to an HTTP status and message.

The database is modelled as in-memory tables:

- `Schema.Database` is a class with one field per table.
- A table keyed by a uuid primary key is a `map` from the key to the row.
- `walk_tags` and `refresh_tokens` have no primary key, so each is a `seq` of rows.
- Column defaults are applied by the row constructors (`UserRow`, `WalkRow`, `SpotRow`).
- NOT NULL, UNIQUE and REFERENCES form the invariant `Database.Valid`, together with the
  canonical lower-case form of every generated uuid key (`Schema.CanonicalKeys`).
- ON DELETE CASCADE is what `Database.DeleteWalk` and `Database.DeleteUser` do.

The controllers are methods that take the database handle and change it step by step, as the
handlers do.

- **Transactions.** A transaction runs on copies of the tables it writes. `CommitWalks`
  installs the copies only when every step succeeded. So either every row of a request is
  written or none is.
- **Oracles as parameters.** Password hashing and comparison are function parameters. So are
  token signing and token verification (`Jwt.Verifier`). Fresh row ids and the clock reading
  `now` are also parameters.
- **Failures.** Each handler's error is stated through a pure function (`CreateFailure`,
  `UpdateFailure`, `ReviewFailure`, `CommentFailure`). That function lists, in the order the
  handler meets them, the conditions that make it throw. The handler's contract ties its
  result and the new state to that function.
- **Database errors.** The database errors the handlers can meet are modelled as the query
  builder's error whose `cause` is the driver's error:
  - a malformed uuid, code 22P02;
  - a missing referenced row, code 23503;
  - a spot without a required column, code 23502;
  - a spot still named by a progress row, code 23503.

Modules:

- `Errors` is the error handler and `notFound`.
- `Duration` is `parseTimeToMs`.
- `Bearer` is the bearer gate.
- `Uuid` is the identifier check of updateWalk, plus the canonical lower-case form in which
  the database stores and compares ids.
- `Pagination` is the page arithmetic of the three listings.
- `Schema` holds the tables, their integrity and their cascades.
- `Auth` is the auth controller.
- `Walks` is the walks controller.
- `Tables` and `Wrappers` are small generic helpers.

Behaviour of the code worth noting:

- login answers 201.
- The error handler applies the PostgreSQL rules first and the error-name rules after them.
  The name rules therefore win, and `Errors.Translate` states that precedence directly.
- updateWalk's catch wraps a database error into a 400 `DatabaseError` that no longer carries
  its cause. The central code mapping ("Invalid reference to related resource" and the like)
  therefore never applies to updateWalk's database errors (`Walks.UpdateHidesCodeMapping`).
- Walk names are unique only through createWalk's pre-check. The schema has no constraint on
  them (`Schema.RepeatsAllowed`), and updateWalk does not re-check the name.

## Model

| member | source | states |
|---|---|---|
| Errors.Or | src/middleware/errorHandler.ts:15-16 | JavaScript `a \|\| b` on strings. The result is one of the two operands, and it is non-empty exactly when one of them is. |
| Errors.ErrorHandler | src/middleware/errorHandler.ts:15-62 | The reply the chain of assignments ends with equals `Translate`, the rule table in order of precedence. First the four error names decide. Then a database cause with text maps 23505, 23503 or 22P02, or passes its text on. Otherwise the error keeps its own status and message, with 500 and "Internal Server Error" as defaults. |
| Errors.NotFound | src/middleware/errorHandler.ts:75-79 | The error for an unmatched route is answered 404 with "Not found - " followed by the URL. |
| Errors.DefaultReply | src/middleware/errorHandler.ts:15-16 | An ordinary error with no status, message or cause is answered 500 "Internal Server Error". |
| Errors.StatusKept | src/middleware/errorHandler.ts:15-16 | Without a database cause or a special name, the error's own status and message are the reply. |
| Errors.PgCodes | src/middleware/errorHandler.ts:19-38 | Whatever the error's status, a cause with code 23505 gives 409 "Resource already exists", 23503 gives 400 "Invalid reference to related resource" and 22P02 gives 400 "Invalid ID format". |
| Errors.PgOtherCode | src/middleware/errorHandler.ts:19-25 | Any other cause sets the message to its detail, else its message, else its code. The status is kept, or 500 when there is none. |
| Errors.NameRulesWin | src/middleware/errorHandler.ts:42-60 | The name rules override status and cause alike. ValidationError gives 400, UnauthorizedError 401 and NotFoundError 404, each with the error's message or a default. ForbiddenError always gives 403 "Forbidden". |
| Duration.Multiplier | src/utils/parseTimeToMs.ts:10-16 | Every unit of the table has a positive number of milliseconds. |
| Duration.ParseTimeToMs | src/utils/parseTimeToMs.ts:2-5 | A rejected string yields the message "Invalid time format: " followed by the input. |
| Duration.DigitsOfNatToString | src/utils/parseTimeToMs.ts:7 | Parsing the decimal text of a natural gives that natural back. |
| Duration.ParseRoundTrip | src/utils/parseTimeToMs.ts:7-18 | For every natural n and unit u, the text of n followed by u parses to n times the unit's multiplier. |
| Duration.ParseWithLeadingZeros | src/utils/parseTimeToMs.ts:2-7 | Leading zeros are accepted and do not change the value. |
| Duration.LeadingZerosExample | src/utils/parseTimeToMs.ts:2-18 | "007s" is 7000 ms. |
| Duration.ParseAccepted | src/utils/parseTimeToMs.ts:2-18 | Conversely, every accepted string is leading zeros, a natural's decimal text and a unit, and its value is that natural times the unit. |
| Duration.ParseZero | src/utils/parseTimeToMs.ts:7-18 | An accepted string yields 0 exactly when all of its digits are zeros. |
| Duration.ParseMonotone | src/utils/parseTimeToMs.ts:18 | For a fixed unit, the result grows with the number. |
| Duration.UnitRatios | src/utils/parseTimeToMs.ts:10-16 | 1w = 7 × 1d, 1d = 24 × 1h, 1h = 60 × 1m and 1m = 60 × 1s. |
| Duration.Rejections | src/utils/parseTimeToMs.ts:2-5 | "1ms", "1 h", "1H", "h" and "" are rejected with their message. |
| Bearer.Split | src/middleware/auth.ts:14 | JavaScript `split` on one character. There is at least one piece, and no piece contains the separator. |
| Bearer.JoinSplit | src/middleware/auth.ts:14 | Joining the pieces of a split gives the string back. |
| Bearer.SplitJoin | src/middleware/auth.ts:14 | Splitting a join of separator-free pieces gives the pieces back. |
| Bearer.TokenIsSecondField | src/middleware/auth.ts:14 | The token is the text between the first and the second space. The scheme word is not checked. |
| Bearer.NoSpaceNoToken | src/middleware/auth.ts:14-18 | A header without a space has no token. |
| Bearer.DoubleSpaceExample | src/middleware/auth.ts:14-18 | "Bearer  x", with two spaces, yields the empty token, which the gate refuses with 401. |
| Bearer.Exchange.constructor | src/middleware/auth.ts:14 | A fresh exchange carries the header, with no user, no response and no call to `next`. |
| Bearer.AuthenticateToken | src/middleware/auth.ts:14-26 | A missing or empty token gives 401 "Unauthorized". A token that fails verification gives 403 "Forbidden". In both cases `next` is not called and `req.user` is untouched. Otherwise `req.user` is the verified payload and `next` is called exactly once. Each case is an if-and-only-if. |
| Uuid.Lower | src/controllers/walksController.ts:115-116 | Lowering keeps the length and maps each character on its own. |
| Uuid.UuidFromGroups | src/controllers/walksController.ts:115-116 | Five hex groups of 8, 4, 4, 4 and 12 characters joined by dashes pass the test. |
| Uuid.UuidToGroups | src/controllers/walksController.ts:115-116 | Every string that passes is such a join of five hex groups. |
| Uuid.IsUuidIgnoresCase | src/controllers/walksController.ts:116 | The pattern has the `i` flag: lowering never changes the verdict. |
| Uuid.LowerIsCanonical | src/controllers/walksController.ts:115-117 | Lowering an accepted id gives the canonical stored form. |
| Uuid.NilUuidAccepted | src/controllers/walksController.ts:115-117 | The all-zero id passes. |
| Uuid.MixedCaseAccepted | src/controllers/walksController.ts:115-117 | An id with upper-case hex digits passes. |
| Uuid.MalformedRejected | src/controllers/walksController.ts:115-117 | "not-a-uuid" fails, and so does an id with a non-hex digit. |
| Pagination.PageOf | src/controllers/walksController.ts:282 | The page is at least 1. It is the given number when that is at least 1, and 1 otherwise (missing, empty, zero, negative or non-numeric). |
| Pagination.LimitOf | src/controllers/walksController.ts:283 | The limit lies in 1..100. A number in range is kept, one above 100 becomes 100 and a negative one becomes 1. A missing, empty, zero or non-numeric limit becomes 10. |
| Pagination.CeilDiv | src/controllers/walksController.ts:319 | `Math.ceil(total / limit)`: the least number of pages of `limit` rows that hold `total` rows. |
| Pagination.LinksOf | src/controllers/walksController.ts:327-332 | `next` is null exactly when there is no next page, and `previous` exactly when there is no previous page. The links point at page ± 1. The limit is carried exactly when one was supplied. |
| Pagination.OffsetOfPage | src/controllers/walksController.ts:284 | The offset is (page − 1) × limit and never negative. |
| Pagination.HasNextIffRowsRemain | src/controllers/walksController.ts:318-320 | `hasNext` holds exactly when rows remain after the current page. |
| Pagination.NextPageIff | src/controllers/walksController.ts:319-320 | For the least page count that holds `total`, a page is not the last exactly when rows remain after it. |
| Pagination.PageNonEmptyIff | src/controllers/walksController.ts:282-284 | The current page holds a row exactly when its number is at most the number of pages. |
| Pagination.WorkedExample | src/controllers/walksController.ts:282-321 | Five rows with page 1 and limit 2 give 3 pages, a next page and no previous page. |
| Pagination.Defaults | src/controllers/walksController.ts:282-283 | Missing, empty, zero or non-numeric parameters give page 1, limit 10 and no previous page. |
| Tables.Filter | src/controllers/authController.ts:132 | The rows a DELETE leaves are the rows that fail its condition, in order. None is added. |
| Tables.FirstFailing | src/controllers/walksController.ts:85 | The index of the first row that fails a check: every earlier row passes it. |
| Schema.UserDefaults | src/db/schema.ts:21-29 | A user inserted without the optional columns is active and carries no other flag. Its picture and bio are empty, and its password is the given one. |
| Schema.WalkDefaults | src/db/schema.ts:40-46 | A walk inserted without the optional columns is private, with an empty description and cover image. |
| Schema.SpotDefaults | src/db/schema.ts:57-61 | A spot inserted with only its required columns has an empty description, radius 50 and position 0. |
| Schema.RepeatsAllowed | src/db/schema.ts:39 | For any distinct canonical ids, a consistent database may hold two walks with one name, and two reviews of one walk by one user. Neither is a unique column. |
| Schema.CascadeKeepsUsers | src/db/schema.ts:16-17 | Deleting users keeps emails and usernames unique. |
| Schema.CascadeKeepsTokens | src/controllers/authController.ts:75-81 | Under the assumed users reference of `refresh_tokens` with ON DELETE CASCADE, the refresh tokens that survive a user delete still name existing users. |
| Schema.CascadeKeepsWalks | src/db/schema.ts:36-37 | When every walk a deleted user authors is deleted too, the surviving walks still have authors. |
| Schema.CascadeKeepsSpots | src/db/schema.ts:53-54 | The surviving spots belong to surviving walks. |
| Schema.CascadeKeepsLinks | src/db/schema.ts:76-81 | The surviving tag links name surviving walks and existing tags. |
| Schema.CascadeKeepsReviews | src/db/schema.ts:88-93 | The surviving reviews name a surviving walk and user. |
| Schema.CascadeKeepsComments | src/db/schema.ts:102-107 | The surviving comments name a surviving walk and user. |
| Schema.CascadeKeepsSubscriptions | src/db/schema.ts:115-120 | The surviving subscriptions name a surviving walk and user. |
| Schema.CascadeKeepsProgress | src/db/schema.ts:127-133 | When no surviving progress row points at a deleted spot, every progress reference stays intact. |
| Schema.CascadeKeepsConsistent | src/db/schema.ts:36-133 | A cascade that reaches every walk of the deleted users, and that no progress row blocks, keeps every key, unique column and reference. |
| Schema.SameWalksConsistent | src/db/schema.ts:34-38 | Rewriting walk rows without adding or removing any, with existing authors, keeps the database consistent. |
| Schema.KeepTokensOk | src/controllers/authController.ts:132 | Deleting a user's tokens leaves rows that name existing users. |
| Schema.NobodyLeavesTokens | src/db/schema.ts:53-133 | A cascade from walks only deletes no refresh token. |
| Schema.Database.constructor | src/db/schema.ts:14-140 | The empty database is valid. |
| Schema.Database.InsertUser | src/controllers/authController.ts:48-61 | Adds exactly the given row to `users`, keeps the database valid and changes no other table. |
| Schema.Database.InsertToken | src/controllers/authController.ts:75-81 | Appends exactly the given row to `refresh_tokens` and changes nothing else. |
| Schema.Database.KeepTokens | src/controllers/authController.ts:132 | `refresh_tokens` becomes exactly the given remainder, and every other table is unchanged. |
| Schema.Database.InsertReview | src/controllers/walksController.ts:575-583 | Adds exactly the given row to `walk_reviews` and changes nothing else. |
| Schema.Database.InsertComment | src/controllers/walksController.ts:521-528 | Adds exactly the given row to `walk_comments` and changes nothing else. |
| Schema.Database.CommitWalks | src/controllers/walksController.ts:46-93 | The commit of a transaction: walks, tag links and spots become the transaction's copies, and nothing else changes. |
| Schema.Database.Cascade | src/db/schema.ts:36-133 | Every table becomes exactly the rows that survive deleting the given users and walks, and the database stays valid. |
| Schema.Database.DeleteWalk | src/db/schema.ts:53-133 | Deleting a walk removes its spots, tag links, reviews, comments, subscriptions and progress rows. The delete is refused, with nothing changed, exactly when a surviving progress row's current spot is one of the walk's spots. |
| Schema.Database.DeleteUser | src/db/schema.ts:36-37 | Deleting a user removes the user's walks, with everything those walks cascade to, and the user's reviews, comments, subscriptions and progress, and (by the assumed cascade of `refresh_tokens`) the user's refresh tokens. The delete is refused exactly when a surviving progress row is blocked. |
| Auth.PublicOf | src/controllers/authController.ts:54-61 | The user as the response shows it: id, email, username, names and creation time, with no password. |
| Auth.WithoutToken | src/controllers/authController.ts:235 | After deleting by token string, no row carries that token, and every other row is still there. |
| Auth.Register | src/controllers/authController.ts:22-88 | A taken email gives 400 "Email already in use" whether or not the username is taken. A free email with a taken username gives 400 "Username already in use". Both leave the tables unchanged. Otherwise users gains exactly the new row, with the hashed password. On a valid TTL the token table gains exactly one row for the new user, expiring at now + parseTimeToMs(TTL), and the reply is 201 with the public projection. On a bad TTL the user row stays and the error is thrown. |
| Auth.Login | src/controllers/authController.ts:101-154 | An unknown email or a wrong password gives the same 401 "Invalid credentials", with the token table unchanged. Otherwise the user's token rows are deleted and, on a valid TTL, one new row is appended and the reply is 201. users never changes. |
| Auth.RefreshTokens | src/controllers/authController.ts:166-249 | A missing or empty token gives 400 "Refresh token is required". A failed verification, or no stored row with that token for the decoded user that expires after now, gives 401 "Invalid or expired refresh token". A missing or inactive user gives 401 "User not found or inactive". All of these leave the table unchanged. Otherwise the rows with the old token are deleted and, on a valid TTL, one row for the user is appended, and the reply is 200. |
| Auth.NewUserKeepsUnique | src/controllers/authController.ts:24-48 | A user whose email and username are both new keeps both columns unique. |
| Auth.KeepUnrevokedOk | src/controllers/authController.ts:235 | Deleting by token string leaves rows that name existing users. |
| Auth.DeleteByUser | src/controllers/authController.ts:132 | Deleting user `id`'s tokens leaves none of them, and every other user's rows exactly as they were. |
| Auth.OtherRowsKept | src/controllers/authController.ts:132 | Another user's rows, in order, survive the delete of user `id`'s rows. |
| Auth.LoginLeavesOneToken | src/controllers/authController.ts:132-140 | After a login, the user's rows are exactly the one new row, and other users' rows are unchanged. |
| Auth.ReissuedTokenReplays | src/controllers/authController.ts:187-243 | As written: when the rotation re-issues the presented token's own string (the same payload signed in the same second), that token still passes the lookup for its owner until the new row expires. |
| Auth.ReplayRejected | src/controllers/authController.ts:187-243 | Provided the new token differs from the presented one, a rotated-out token never passes the lookup again, for any user and at any time. |
| Auth.IssuedTokenValid | src/controllers/authController.ts:187-243 | The new token passes the lookup at once exactly when the TTL is positive. "0s" issues a dead token. |
| Auth.ExpiredOrForeignRejected | src/controllers/authController.ts:187-205 | A row that has expired, or one stored for another user, does not let a token through. |
| Walks.LinksFor | src/controllers/walksController.ts:60-68 | One link per tag id, in the given order, each for the walk and that tag id. |
| Walks.SpotRows | src/controllers/walksController.ts:70-85 | One spot per input, in order, each with its fresh id and all of the walk being written. |
| Walks.Keyed | src/controllers/walksController.ts:85 | The inserted spots as table entries: exactly their ids, each mapped to its row. |
| Walks.NothingAdded | src/controllers/walksController.ts:60-71 | An empty list of tag ids or of spots inserts nothing. |
| Walks.TagFailure | src/controllers/walksController.ts:60-68 | Linking the tags fails exactly when some id is malformed or names no tag. A malformed id gives code 22P02. With every id well formed, the failure is the tag foreign key. |
| Walks.StoredTagsLink | src/controllers/walksController.ts:60-68 | Stored tag keys are canonical, so any tag id, in any letter case, whose canonical form is a stored key passes both checks. |
| Walks.StoredKeyLinks | src/controllers/walksController.ts:60-68 | A stored tag key, given exactly as stored, links. |
| Walks.SpotFailure | src/controllers/walksController.ts:70-85 | Inserting the spots fails exactly when some spot lacks title, latitude or longitude, with code 23502. |
| Walks.DuplicateNameRejected | src/controllers/walksController.ts:34-45 | A walk with the same name, whoever authored it, makes createWalk fail with 400 "Walk name already exists". |
| Walks.CreateSucceedsIff | src/controllers/walksController.ts:34-93 | createWalk succeeds exactly when the name is free, the author exists, every tag id is well formed and names a tag, and every spot has its required columns. |
| Walks.CreateErrorsTranslated | src/controllers/walksController.ts:46-93 | A missing author or an unknown tag reaches the client as 400 "Invalid reference to related resource". |
| Walks.CreateWalk | src/controllers/walksController.ts:15-103 | On failure the walks, tag links and spots are unchanged and the error is the first failing step's. On success exactly one walk of the requester is added, one link per tag id and one spot per input (all of the new walk). The reply is 201 with the walk and exactly the created spots, or [] when none were given. No other table changes, and the database stays valid. |
| Walks.InsertInTransaction | src/controllers/walksController.ts:46-93 | The transaction on copies: the walk, then its links, then its spots. It ends with the first failing step's error, or with the three copies extended by exactly the new rows. |
| Walks.LinkTags | src/controllers/walksController.ts:60-68 | Inserting the links fails exactly as `TagFailure` says. Otherwise the links gain exactly one row per tag id. |
| Walks.InsertSpots | src/controllers/walksController.ts:70-86 | Inserting the spots fails exactly as `SpotFailure` says. Otherwise the spots gain exactly the rows built for the inputs, under distinct fresh ids. |
| Walks.DistinctRowIds | src/controllers/walksController.ts:85 | Spots built with distinct ids have distinct keys. |
| Walks.AddWalkKeepsConsistent | src/controllers/walksController.ts:46-93 | The rows createWalk writes keep every key and reference intact. |
| Walks.Patched | src/controllers/walksController.ts:128-132 | The update keeps the id, author and creation time, and sets `updatedAt` to now. |
| Walks.PatchedColumns | src/controllers/walksController.ts:124-130 | An empty patch only moves `updatedAt`. A given column is set, and an omitted one is kept. |
| Walks.Classify | src/controllers/walksController.ts:193-211 | An error with a status passes unchanged. One with a cause or a code becomes a 400 DatabaseError whose message is the cause's message, else its own, else "Database error occurred". Any other passes unchanged. |
| Walks.UpdateHidesCodeMapping | src/controllers/walksController.ts:199-207 | An unknown tag reaches updateWalk's client as 400 with the driver's message, where createWalk's client gets "Invalid reference to related resource". |
| Walks.MalformedIdRejected | src/controllers/walksController.ts:114-122 | An id that fails the pattern is answered 400 "Invalid walk ID format" before anything else is looked at. |
| Walks.ForeignWalkRejected | src/controllers/walksController.ts:126-141 | A missing walk, and a walk of another author, get the same 404 "Walk not found or you don't have permission to update it". |
| Walks.UpdateWalk | src/controllers/walksController.ts:105-212 | On failure the walks, tag links and spots are unchanged and the error is the classified one. On success the walk is patched. Given tag ids replace the walk's links, and given spots replace its spots; an omitted list leaves them as they were. The reply carries the inserted rows when the new list is not empty, and otherwise echoes the request's value. The database stays valid. |
| Walks.UpdateInTransaction | src/controllers/walksController.ts:126-185 | The transaction on copies: the owner-only update, then the tags, then the spots. It ends with the first failing step's error, or with exactly the replaced tables. |
| Walks.RelinkTags | src/controllers/walksController.ts:143-156 | With `tagIds` given, the walk's links are deleted and one is inserted per id, failing exactly as `TagFailure` says. Without it, the links are untouched. |
| Walks.RespotWalk | src/controllers/walksController.ts:158-179 | With `spots` given, a progress row naming one of the walk's spots refuses the delete. Otherwise the walk's spots are replaced by the new rows, failing exactly as `SpotFailure` says. Without it, the spots are untouched. |
| Walks.UpdateKeepsConsistent | src/controllers/walksController.ts:126-185 | The rows updateWalk writes keep every key and reference intact. |
| Walks.ReplacedLinksOk | src/controllers/walksController.ts:143-156 | Replacing a walk's links by links to existing tags keeps every link's references. |
| Walks.ReplacedSpotsOk | src/controllers/walksController.ts:158-172 | Replacing the spots of a walk that no progress row points into keeps spot and progress references. |
| Walks.TagsOfConcat | src/controllers/walksController.ts:145-154 | A walk's tags in two tables laid end to end are its tags in each, in order. |
| Walks.TagsOfWithout | src/controllers/walksController.ts:145 | After the delete, the walk has no tags and every other walk keeps its tags. |
| Walks.TagsOfFresh | src/controllers/walksController.ts:148-154 | The new links give the walk exactly the given ids and give no other walk any. |
| Walks.TagsReplaced | src/controllers/walksController.ts:143-156 | After an update with `tagIds`, including an empty list, the walk's tags are exactly those ids in order, and every other walk keeps its tags. |
| Walks.SpotsReplaced | src/controllers/walksController.ts:158-172 | After an update with `spots`, the walk's spots are exactly the new rows, and every other walk keeps its spots. |
| Walks.KeyedOfWalk | src/controllers/walksController.ts:169-172 | The inserted rows all belong to the walk and take no key already in use. |
| Walks.NewSpotsOfWalk | src/controllers/walksController.ts:160-172 | After the delete and the insert, the walk's spots are exactly the inserted ones. |
| Walks.OtherSpotsKept | src/controllers/walksController.ts:160-172 | Another walk's spots survive the delete and the insert unchanged. |
| Walks.EchoWhenEmpty | src/controllers/walksController.ts:163-184 | The reply carries inserted rows exactly when a non-empty spot list was given. |
| Walks.SpotRowsAsWritten | src/controllers/walksController.ts:164-167 | updateWalk's spot values as written, as far as `walkId` goes: one per input, in the walk the spot's own `walkId` names, or the updated walk when it names none. |
| Walks.SpotEscapesUpdatedWalk | src/controllers/walksController.ts:164-167 | As written, every spot that carries another walk's id is stored in that walk. The corrected rows belong to the walk being updated. |
| Walks.AsWrittenAgreesIff | src/controllers/walksController.ts:164-167 | The as-written rows equal the corrected ones exactly when no given spot names a walk other than the one being updated. |
| Walks.SpotEscapesExample | src/controllers/walksController.ts:164-167 | A spot `{walkId: B, title: "Fountain", latitude: 1, longitude: 2}` in an update of walk A lands in B as written, and in A when corrected. |
| Walks.AddReviewKeepsOnePerUser | src/controllers/walksController.ts:561-583 | Adding a review for a (walk, user) pair that has none keeps at most one review per pair. |
| Walks.ReviewReplies | src/controllers/walksController.ts:550-573 | A malformed id gets 400 "Invalid ID format", a missing walk 404 "Walk not found", and a second review 400 "You have already reviewed this walk". |
| Walks.CreateWalkReview | src/controllers/walksController.ts:539-592 | The review fails on a malformed id, a missing walk, an existing review by the user, or a missing user, leaving the reviews unchanged. Otherwise exactly one review is added, with stars defaulting to 0, and the reply is 201. It keeps one review per (walk, user), and no other table changes. |
| Walks.CommentsUnlimited | src/controllers/walksController.ts:509-528 | The comment checks read only the walk and the user, not the comments table: on an existing walk, an existing user always passes them, whatever comments already exist. |
| Walks.CreateWalkComment | src/controllers/walksController.ts:499-537 | The comment fails on a malformed id, a missing walk or a missing user, leaving the comments unchanged. Otherwise exactly one comment is added, defaulting to "", and the reply is 201. |
| Walks.GetAllWalks | src/controllers/walksController.ts:272-353 | The reply is 200. `total` counts every walk, the pagination block is `Paginate` of the parameters, and the links follow its flags. |
| Walks.GetWalkComments | src/controllers/walksController.ts:355-425 | A malformed id is a 22P02 error and a missing walk 404 "Walk not found". Otherwise the reply is 200, and `total` counts the walk's comments only. |
| Walks.GetWalkReviews | src/controllers/walksController.ts:427-497 | A malformed id is a 22P02 error and a missing walk 404 "Walk not found". Otherwise the reply is 200, and `total` counts the walk's reviews only. |

## Left out

- Token signing and verification, password hashing and comparison: these are parameters. src/utils/jwt.ts and src/utils/passwords.ts are not part of this model. src/utils/passwords.ts exports only `hashPassword`; `comparePasswords`, imported at src/controllers/authController.ts:10, is not defined there.
- The definition of `refresh_tokens`: it is not among the schema's tables. Its row is (userId, token, expiresAt), as the auth controller uses it. Its `userId` is taken to reference `users` with ON DELETE CASCADE, as every other user reference in the schema does; that reference and that cascade are assumptions.
- Schema.CascadeKeepsTokens: rests on the assumed users reference and cascade of `refresh_tokens`, which no schema line defines.
- Schema.Database.DeleteUser: deleting the user's refresh tokens is the assumed cascade of `refresh_tokens`; the other cascades are the schema's own.
- Schema.Database.InsertToken: the requirement that the token's user exists is the assumed reference of `refresh_tokens`.
- The clock and fresh ids: `now` and the new row ids are parameters, and each request reads one `now`. The source calls `Date.now()` and `new Date()` separately. The fresh ids of users, walks, spots, reviews and comments are taken to be in canonical lower-case form, as `defaultRandom` generates them.
- Concurrency: the check-then-act races, such as two requests creating the same name or the same review, and the parallel queries of the listings. Everything is sequential.
- The rows of the listings: joins, projections, ordering, `limit`/`offset` queries and updateWalk's `returning` order. Only the pagination block is modelled. The average star rating is floating point from a database aggregate. getWalkById and the users and AI controllers are outside the core.
- The pagination URLs: the scheme, host and path. Only the page number, and the limit when one was supplied, are kept.
- JavaScript `Number` coercion of fractional or huge page values: parameters are whole numbers or text. `parseTimeToMs` uses unbounded naturals, with no floating-point overflow.
- varchar length limits: they are not modelled.
- JSON bodies: beyond the modelled fields, the JSON bodies are left out. So are the dev and staging extras of the error body (stack, details, databaseError).
- A request validator in front of the controllers, outside the modelled files (its messages appear in tests/walks.test.ts:100, 344 and 415), with rules such as password length, stars range and empty comments: it is not modelled.
- The driver's `detail` texts: they are not modelled. Other string forms PostgreSQL accepts as a uuid (braces, no dashes) are treated as malformed. Every stored uuid key is canonical (`Schema.CanonicalKeys`), and a looked-up id is lowered before it is compared, which is how a differently cased id reaches its row.
- Walks.UpdateWalk and Walks.Patched: `id`, `authorId` and `createdAt` are kept even though a client could send them in the update body. As written, `.set({...walkData, updatedAt})` (src/controllers/walksController.ts:124-130) applies whatever of them the body carries, so the owner can change a walk's `authorId`.
- Walks.UpdateWalk, Walks.UpdateInTransaction and Walks.RespotWalk: they insert the corrected spot rows (`Walks.SpotRows`), not the source's `{walkId, ...spot}`. So the as-written outcomes of a spot that carries its own `walkId` are not modelled: the row landing in another walk whose owner is never checked, and the 23503 (no such walk), 22P02 (malformed id) and 23502 (`null`) failures that id could cause. The spread also copies any `id`, `createdAt` and `updatedAt` the client sends, and those are not modelled either: the client choosing the spot's primary key, a 23505 (400 `DatabaseError`) for an id another spot already holds, and a 22P02 for a malformed id. The as-written rows are `Walks.SpotRowsAsWritten`, and the finding below states the difference.
- Schema.SpotRow: the placeholders for title, latitude and longitude never reach a table, because a spot missing one of them makes the insert fail first.
- Timestamps: they are integers (milliseconds).
- Decimal columns: latitude and longitude are reals.

## Findings

| source | as written | input that shows it | evidently intended | confidence | as-written member | corrected member |
|---|---|---|---|---|---|---|
| src/controllers/walksController.ts:164-167 | updateWalk builds each new spot with the walk's id first and the client's spot spread after it. A `walkId` inside the spot therefore overrides the walk being updated. | updateWalk on walk A, owned by the requester, with `spots: [{walkId: B, title: "Fountain", latitude: 1, longitude: 2}]`, where B is any other walk. A's spots are deleted and the new spot is stored in B, which the requester need not own. | Every spot inserted by an update belongs to the walk being updated, as in createWalk, which sets the walk id explicitly. | not executed | Walks.SpotEscapesUpdatedWalk (with Walks.SpotRowsAsWritten, Walks.AsWrittenAgreesIff and Walks.SpotEscapesExample) | Walks.SpotRows, used by Walks.RespotWalk and Walks.UpdateWalk; Walks.SpotsReplaced proves the walk's spots are exactly the new rows |
| src/controllers/authController.ts:228-243 | refreshToken deletes the rows of the presented token and inserts the newly signed one. The new token is an HS256 signature of the same id, email and username, with whole-second issue and expiry times and no unique token id (src/utils/jwt.ts:22-31). | register or login, then refreshToken with the issued refresh token within the same second. The new token is the same string, so the delete is undone by the insert and the presented token passes the lookup again. | A rotated-out refresh token is never accepted again, which needs every signing to yield a new string (for example a unique `jti`). | not executed | Auth.ReissuedTokenReplays | Auth.ReplayRejected, which proves replay fails whenever the new token differs from the presented one; Auth.RefreshTokens itself leaves the new token unconstrained, as the source does |
