/**
 * src/controllers/walksController.ts: the walk aggregate (a walk, its tag links and its spots),
 * reviews and comments, over the tables of `Schema.Database`. A transaction is a snapshot of the
 * tables it writes, restored when a step fails. Fresh row ids and the clock are parameters.
 */
module Walks {
  import opened Wrappers
  import opened Tables
  import opened Errors
  import opened Pagination
  import opened Schema
  import Uuid

  // ---------------------------------------------------------------------------------------------
  // The driver errors the handlers can meet. The driver's `detail` text is not modelled.

  /** A value that is not uuid text, compared with or stored in a uuid column. */
  function IdSyntaxError(value: string): PgError {
    PgError(InvalidTextRepresentation, "", "invalid input syntax for type uuid: \"" + value + "\"")
  }

  /** A row inserted into `table` whose column `constraint` guards points at no row. */
  function ForeignKeyError(table: string, constraint: string): PgError {
    PgError(ForeignKeyViolation, "", "insert or update on table \"" + table + "\" violates foreign key constraint \"" + constraint + "\"")
  }

  /** Deleting spots that a progress row still names as its current spot. */
  const SpotStillReferenced := PgError(ForeignKeyViolation, "",
    "update or delete on table \"spots\" violates foreign key constraint \"user_walk_progress_current_spot_id_spots_id_fk\" on table \"user_walk_progress\"")

  /** A spot inserted without a value for the NOT NULL column `column`. */
  function NotNullError(column: string): PgError {
    PgError(NotNullViolation, "", "null value in column \"" + column + "\" of relation \"spots\" violates not-null constraint")
  }

  // ---------------------------------------------------------------------------------------------
  // The errors the handlers throw themselves, and the messages of their replies.

  const NameInUse := Raise(400, "ValidationError", "Walk name already exists")
  const AuthorMissing := QueryFailed(ForeignKeyError("walks", "walks_author_id_users_id_fk"))
  const UnknownTag := ForeignKeyError("walk_tags", "walk_tags_tag_id_tags_id_fk")
  const BadWalkId := Raise(400, "ValidationError", "Invalid walk ID format")
  const WalkNotOwned := Raise(404, "NotFoundError", "Walk not found or you don't have permission to update it")
  const WalkMissing := Raise(404, "NotFoundError", "Walk not found")
  const AlreadyReviewed := Raise(400, "ValidationError", "You have already reviewed this walk")
  const ReviewerMissing := QueryFailed(ForeignKeyError("walk_reviews", "walk_reviews_user_id_users_id_fk"))
  const CommenterMissing := QueryFailed(ForeignKeyError("walk_comments", "walk_comments_user_id_users_id_fk"))

  const WalkCreated := "Walk created successfully"
  const WalkUpdated := "Walk updated successfully"
  const ReviewCreated := "Review created successfully"
  const CommentCreated := "Comment created successfully"
  const WalksFetched := "Walks fetched successfully"
  const CommentsFetched := "Walk comments fetched successfully"
  const ReviewsFetched := "Walk reviews fetched successfully"

  // ---------------------------------------------------------------------------------------------
  // Requests and responses.

  /** The body of createWalk: the walk's columns, and optionally its spots and tag ids. */
  datatype WalkBody = WalkBody(walk: NewWalk, spots: Option<seq<NewSpot>>, tagIds: Option<seq<string>>)

  /** The columns an update sets; None leaves one as it is. The two estimates may be set to null. */
  datatype WalkPatch = WalkPatch(name: Option<string>, description: Option<string>, coverImageUrl: Option<string>,
                                 durationEstimate: Option<Option<int>>, distanceEstimate: Option<Option<int>>,
                                 isPublic: Option<bool>)

  /** The body of updateWalk: `spots` and `tagIds`, and the rest as the patch. */
  datatype UpdateBody = UpdateBody(patch: WalkPatch, spots: Option<seq<NewSpot>>, tagIds: Option<seq<string>>)

  datatype Created = Created(status: int, message: string, walk: Walk, spots: seq<Spot>)

  /** The `spots` of an update's response: the inserted rows, or the request's own value. */
  datatype SpotsEcho = Inserted(rows: seq<Spot>) | Echoed(given: Option<seq<NewSpot>>)

  datatype Updated = Updated(status: int, message: string, walk: Walk, spots: SpotsEcho)

  datatype Posted<T> = Posted(status: int, message: string, data: T)

  datatype Listing = Listing(status: int, message: string, pagination: Info, links: Links)

  datatype Page = Page(status: int, message: string, pagination: Info)

  /** `x && x.length > 0` on an optional list reads the same as the list, or [] when absent. */
  function Listed<T>(o: Option<seq<T>>): seq<T> {
    o.GetOr([])
  }

  // ---------------------------------------------------------------------------------------------
  // The rows a request writes.

  predicate NameTaken(walks: map<Id, Walk>, name: string) {
    exists k :: k in walks && walks[k].name == name
  }

  /** One link per tag id, for walk `walkId`, in the order given; the uuid is stored in canonical form. */
  function LinksFor(walkId: Id, tagIds: seq<string>, now: Timestamp): (links: seq<WalkTag>)
    ensures |links| == |tagIds|
    ensures forall i :: 0 <= i < |links| ==> links[i].walkId == walkId && links[i].tagId == Uuid.Lower(tagIds[i])
  {
    seq(|tagIds|, i requires 0 <= i < |tagIds| => WalkTag(walkId, Uuid.Lower(tagIds[i]), now, now))
  }

  /** One spot per input, all of walk `walkId`, with the ids supplied for them. */
  function SpotRows(ids: seq<Id>, walkId: Id, given: seq<NewSpot>, now: Timestamp): (rows: seq<Spot>)
    requires |ids| == |given|
    ensures |rows| == |given|
    ensures forall i :: 0 <= i < |rows| ==> rows[i].id == ids[i] && rows[i].walkId == walkId
  {
    seq(|given|, i requires 0 <= i < |given| => SpotRow(ids[i], walkId, given[i], now))
  }

  predicate DistinctIds(ids: seq<Id>) {
    forall i, j :: 0 <= i < |ids| && 0 <= j < |ids| && i != j ==> ids[i] != ids[j]
  }

  predicate DistinctRows(rows: seq<Spot>) {
    forall i, j :: 0 <= i < |rows| && 0 <= j < |rows| && i != j ==> rows[i].id != rows[j].id
  }

  /** The inserted spots as table entries. */
  function Keyed(rows: seq<Spot>): (m: map<Id, Spot>)
    requires DistinctRows(rows)
    ensures forall k :: k in m <==> exists i :: 0 <= i < |rows| && rows[i].id == k
    ensures forall i :: 0 <= i < |rows| ==> rows[i].id in m && m[rows[i].id] == rows[i]
  {
    map i | 0 <= i < |rows| :: rows[i].id := rows[i]
  }

  /** An empty list of tag ids or of spots inserts nothing. */
  lemma NothingAdded(links: seq<WalkTag>, spots: map<Id, Spot>, walkId: Id, now: Timestamp)
    ensures links + LinksFor(walkId, [], now) == links
    ensures spots + Keyed([]) == spots
  {
    assert LinksFor(walkId, [], now) == [];
    assert Keyed([]) == map[];
  }

  /** Fresh ids: distinct, in canonical form and not yet keys of `table`. */
  predicate FreshIds<R>(ids: seq<Id>, table: map<Id, R>) {
    DistinctIds(ids) && forall i :: 0 <= i < |ids| ==> ids[i] !in table && Uuid.IsCanonical(ids[i])
  }

  // ---------------------------------------------------------------------------------------------
  // What makes an insert of tag links or spots fail.

  function TagKnown(tags: map<Id, Tag>): string -> bool {
    (t: string) => Uuid.Lower(t) in tags
  }

  /** The uuid parse comes before any reference check: the first malformed id is reported. */
  function TagFailure(tags: map<Id, Tag>, tagIds: seq<string>): (e: Option<PgError>)
    ensures e.None? <==> forall i :: 0 <= i < |tagIds| ==> Uuid.IsUuid(tagIds[i]) && Uuid.Lower(tagIds[i]) in tags
    ensures e.Some? && (exists i :: 0 <= i < |tagIds| && !Uuid.IsUuid(tagIds[i])) ==> e.value.code == InvalidTextRepresentation
    ensures e.Some? && (forall i :: 0 <= i < |tagIds| ==> Uuid.IsUuid(tagIds[i])) ==>
              e == Some(UnknownTag)
  {
    var bad := FirstFailing(tagIds, Uuid.IsUuid);
    if bad < |tagIds| then Some(IdSyntaxError(tagIds[bad]))
    else
      var unknown := FirstFailing(tagIds, TagKnown(tags));
      if unknown < |tagIds| then Some(UnknownTag)
      else None
  }

  /**
   * Stored tag keys are canonical, so a tag id in any letter case whose canonical form is a
   * stored key links: in particular, each stored key itself.
   */
  lemma StoredTagsLink(tags: map<Id, Tag>, tagIds: seq<string>)
    requires CanonicalKeys(tags)
    requires forall i :: 0 <= i < |tagIds| ==> Uuid.Lower(tagIds[i]) in tags
    ensures TagFailure(tags, tagIds).None?
  {
    forall i | 0 <= i < |tagIds| ensures Uuid.IsUuid(tagIds[i]) {
      assert Uuid.IsCanonical(Uuid.Lower(tagIds[i]));
      Uuid.IsUuidIgnoresCase(tagIds[i]);
    }
  }

  /** A stored key, given as it is stored, is a tag id that links. */
  lemma StoredKeyLinks(tags: map<Id, Tag>, k: Id)
    requires CanonicalKeys(tags) && k in tags
    ensures TagFailure(tags, [k]).None?
  {
    assert Uuid.IsCanonical(k);
    StoredTagsLink(tags, [k]);
  }

  /** The first NOT NULL column without a default that `v` leaves out, in table order. */
  function MissingColumn(v: NewSpot): string
    requires !HasRequiredColumns(v)
  {
    if v.title.None? then "title" else if v.latitude.None? then "latitude" else "longitude"
  }

  /** The first spot that leaves out title, latitude or longitude makes the whole insert fail. */
  function SpotFailure(given: seq<NewSpot>): (e: Option<PgError>)
    ensures e.None? <==> forall i :: 0 <= i < |given| ==> HasRequiredColumns(given[i])
    ensures e.Some? ==> e.value.code == NotNullViolation
  {
    var bad := FirstFailing(given, HasRequiredColumns);
    if bad < |given| then Some(NotNullError(MissingColumn(given[bad]))) else None
  }

  /** A progress row names one of the spots of walk `walkId` as its current spot. */
  predicate SpotInUse(progress: map<Id, Progress>, spots: map<Id, Spot>, walkId: Id) {
    exists k :: k in progress && progress[k].currentSpotId.Some? && progress[k].currentSpotId.value in spots
                && spots[progress[k].currentSpotId.value].walkId == walkId
  }

  // ---------------------------------------------------------------------------------------------
  // createWalk.

  /** The error createWalk ends with, step by step: name check, then the transaction. */
  function CreateFailure(walks: map<Id, Walk>, users: map<Id, User>, tags: map<Id, Tag>,
                         userId: Id, body: WalkBody): Option<CustomError>
  {
    if NameTaken(walks, body.walk.name) then Some(NameInUse) else InsertFailure(users, tags, userId, body)
  }

  /** The error createWalk's transaction ends with: walk insert, tag links, spots. */
  function InsertFailure(users: map<Id, User>, tags: map<Id, Tag>, userId: Id, body: WalkBody): Option<CustomError> {
    if userId !in users then Some(AuthorMissing)
    else
      var tagFailure := TagFailure(tags, Listed(body.tagIds));
      if tagFailure.Some? then Some(QueryFailed(tagFailure.value))
      else
        var spotFailure := SpotFailure(Listed(body.spots));
        if spotFailure.Some? then Some(QueryFailed(spotFailure.value)) else None
  }

  /** Whoever owns it, a walk with the same name makes createWalk fail with 400. */
  lemma DuplicateNameRejected(walks: map<Id, Walk>, users: map<Id, User>, tags: map<Id, Tag>,
                              userId: Id, body: WalkBody, other: Id)
    requires other in walks && walks[other].name == body.walk.name
    ensures CreateFailure(walks, users, tags, userId, body) == Some(NameInUse)
    ensures Translate(CreateFailure(walks, users, tags, userId, body).value) == Reply(400, "Walk name already exists")
  {
  }

  /** createWalk succeeds exactly when the name is free, the author exists, every tag id names a tag and every spot is complete. */
  lemma CreateSucceedsIff(walks: map<Id, Walk>, users: map<Id, User>, tags: map<Id, Tag>, userId: Id, body: WalkBody)
    ensures CreateFailure(walks, users, tags, userId, body).None? <==>
              && !NameTaken(walks, body.walk.name) && userId in users
              && (forall i :: 0 <= i < |Listed(body.tagIds)| ==>
                    Uuid.IsUuid(Listed(body.tagIds)[i]) && Uuid.Lower(Listed(body.tagIds)[i]) in tags)
              && (forall i :: 0 <= i < |Listed(body.spots)| ==> HasRequiredColumns(Listed(body.spots)[i]))
  {
    var tagFailure, spotFailure := TagFailure(tags, Listed(body.tagIds)), SpotFailure(Listed(body.spots));
    assert InsertFailure(users, tags, userId, body).None? <==> userId in users && tagFailure.None? && spotFailure.None?;
  }

  /** A database error of createWalk reaches the client through the central handler's code mapping. */
  lemma CreateErrorsTranslated(walks: map<Id, Walk>, users: map<Id, User>, tags: map<Id, Tag>, userId: Id, body: WalkBody)
    requires !NameTaken(walks, body.walk.name)
    requires userId !in users || exists i :: 0 <= i < |Listed(body.tagIds)| && Uuid.IsUuid(Listed(body.tagIds)[i]) && Uuid.Lower(Listed(body.tagIds)[i]) !in tags
    requires forall i :: 0 <= i < |Listed(body.tagIds)| ==> Uuid.IsUuid(Listed(body.tagIds)[i])
    ensures Translate(CreateFailure(walks, users, tags, userId, body).value) == Reply(400, "Invalid reference to related resource")
  {
  }

  /**
   * createWalk: the name check outside the transaction, then the walk, its tag links and its
   * spots inside it. Either every row is written or none is.
   */
  method CreateWalk(db: Database, userId: Id, body: WalkBody, walkId: Id, spotIds: seq<Id>, now: Timestamp)
    returns (r: Outcome<Created>)
    requires db.Valid()
    requires Uuid.IsCanonical(walkId) && walkId !in db.walks
    requires FreshIds(spotIds, db.spots) && |spotIds| == |Listed(body.spots)|
    modifies db
    ensures db.Valid()
    ensures db.users == old(db.users) && db.refreshTokens == old(db.refreshTokens) && db.tags == old(db.tags)
    ensures db.reviews == old(db.reviews) && db.comments == old(db.comments)
    ensures db.subscriptions == old(db.subscriptions) && db.progress == old(db.progress)
    ensures match CreateFailure(old(db.walks), old(db.users), old(db.tags), userId, body)
            case Some(e) =>
              && r == Thrown(e)
              && db.walks == old(db.walks) && db.walkTags == old(db.walkTags) && db.spots == old(db.spots)
            case None =>
              var walk := WalkRow(walkId, userId, body.walk, now);
              var rows := SpotRows(spotIds, walkId, Listed(body.spots), now);
              && r == Ok(Created(201, WalkCreated, walk, rows))
              && db.walks == old(db.walks)[walkId := walk]
              && db.walkTags == old(db.walkTags) + LinksFor(walkId, Listed(body.tagIds), now)
              && db.spots == old(db.spots) + Keyed(rows)
  {
    if NameTaken(db.walks, body.walk.name) {
      return Thrown(NameInUse);
    }
    assert CreateFailure(db.walks, db.users, db.tags, userId, body) == InsertFailure(db.users, db.tags, userId, body);
    var result, walks, links, spots := InsertInTransaction(db.walks, db.walkTags, db.spots, db.users, db.tags,
                                                           walkId, userId, body, spotIds, now);
    match result {
      case Thrown(e) => r := Thrown(e);
      case Ok(created) =>
        FreshRowsCanonical(spotIds, db.spots, walkId, Listed(body.spots), now);
        AddWalkKeepsConsistent(db, walks, links, spots, created.walk, Listed(body.tagIds), created.spots, now);
        db.CommitWalks(walks, links, spots);
        r := result;
    }
  }

  /**
   * createWalk's transaction on copies of the tables, which the caller commits when it succeeds:
   * the walk row, then its tag links, then its spots.
   */
  method InsertInTransaction(walks: map<Id, Walk>, links: seq<WalkTag>, spots: map<Id, Spot>, users: map<Id, User>,
                             tags: map<Id, Tag>, walkId: Id, userId: Id, body: WalkBody, spotIds: seq<Id>,
                             now: Timestamp)
    returns (r: Outcome<Created>, walks': map<Id, Walk>, links': seq<WalkTag>, spots': map<Id, Spot>)
    requires FreshIds(spotIds, spots) && |spotIds| == |Listed(body.spots)|
    ensures match InsertFailure(users, tags, userId, body)
            case Some(e) => r == Thrown(e)
            case None =>
              var walk := WalkRow(walkId, userId, body.walk, now);
              var rows := SpotRows(spotIds, walkId, Listed(body.spots), now);
              && DistinctRows(rows)
              && r == Ok(Created(201, WalkCreated, walk, rows))
              && walks' == walks[walkId := walk]
              && links' == links + LinksFor(walkId, Listed(body.tagIds), now)
              && spots' == spots + Keyed(rows)
  {
    walks', links', spots' := walks, links, spots;
    if userId !in users {
      return Thrown(AuthorMissing), walks', links', spots';
    }
    var walk := WalkRow(walkId, userId, body.walk, now);
    walks' := walks[walkId := walk];
    var tagFailure;
    tagFailure, links' := LinkTags(links, tags, walkId, Listed(body.tagIds), now);
    if tagFailure.Some? {
      return Thrown(QueryFailed(tagFailure.value)), walks', links', spots';
    }
    var spotFailure, rows;
    spotFailure, rows, spots' := InsertSpots(spots, walkId, Listed(body.spots), spotIds, now);
    if spotFailure.Some? {
      return Thrown(QueryFailed(spotFailure.value)), walks', links', spots';
    }
    r := Ok(Created(201, WalkCreated, walk, rows));
  }

  /** Step two of createWalk's transaction: one link per tag id, refused when a tag is missing. */
  method LinkTags(links: seq<WalkTag>, tags: map<Id, Tag>, walkId: Id, tagIds: seq<string>, now: Timestamp)
    returns (failure: Option<PgError>, links': seq<WalkTag>)
    ensures failure == TagFailure(tags, tagIds)
    ensures failure.None? ==> links' == links + LinksFor(walkId, tagIds, now)
  {
    links', failure := links, None;
    if |tagIds| > 0 {
      failure := TagFailure(tags, tagIds);
      if failure.Some? {
        return;
      }
      links' := links + LinksFor(walkId, tagIds, now);
    } else {
      NothingAdded(links, map[], walkId, now);
    }
  }

  /** Step three of createWalk's transaction: one row per given spot, refused when one lacks a column. */
  method InsertSpots(spots: map<Id, Spot>, walkId: Id, given: seq<NewSpot>, spotIds: seq<Id>, now: Timestamp)
    returns (failure: Option<PgError>, rows: seq<Spot>, spots': map<Id, Spot>)
    requires FreshIds(spotIds, spots) && |spotIds| == |given|
    ensures failure == SpotFailure(given)
    ensures failure.None? ==>
              && rows == SpotRows(spotIds, walkId, given, now)
              && DistinctRows(rows)
              && spots' == spots + Keyed(rows)
  {
    spots', rows, failure := spots, [], None;
    if |given| > 0 {
      failure := SpotFailure(given);
      if failure.Some? {
        return;
      }
      rows := SpotRows(spotIds, walkId, given, now);
      DistinctRowIds(spotIds, rows);
      spots' := spots + Keyed(rows);
    } else {
      NothingAdded([], spots, walkId, now);
    }
  }

  lemma DistinctRowIds(ids: seq<Id>, rows: seq<Spot>)
    requires DistinctIds(ids) && |ids| == |rows|
    requires forall i :: 0 <= i < |rows| ==> rows[i].id == ids[i]
    ensures DistinctRows(rows)
  {
  }

  /** Spots built with fresh ids are keyed by canonical ids only. */
  lemma FreshRowsCanonical<R>(ids: seq<Id>, table: map<Id, R>, walkId: Id, given: seq<NewSpot>, now: Timestamp)
    requires FreshIds(ids, table) && |ids| == |given|
    ensures DistinctRows(SpotRows(ids, walkId, given, now))
    ensures CanonicalKeys(Keyed(SpotRows(ids, walkId, given, now)))
  {
    var rows := SpotRows(ids, walkId, given, now);
    DistinctRowIds(ids, rows);
    forall k | k in Keyed(rows) ensures Uuid.IsCanonical(k) {
      var i :| 0 <= i < |rows| && rows[i].id == k;
      assert k == ids[i];
    }
  }

  /** The rows createWalk writes keep every reference intact. */
  lemma AddWalkKeepsConsistent(db: Database, walks: map<Id, Walk>, links: seq<WalkTag>, spots: map<Id, Spot>,
                               walk: Walk, tagIds: seq<string>, rows: seq<Spot>, now: Timestamp)
    requires db.Valid()
    requires Uuid.IsCanonical(walk.id) && walk.id !in db.walks && walk.authorId in db.users
    requires walks == db.walks[walk.id := walk]
    requires links == db.walkTags + LinksFor(walk.id, tagIds, now)
    requires forall i :: 0 <= i < |tagIds| ==> Uuid.Lower(tagIds[i]) in db.tags
    requires forall i :: 0 <= i < |rows| ==> rows[i].walkId == walk.id && rows[i].id !in db.spots
    requires DistinctRows(rows) && CanonicalKeys(Keyed(rows))
    requires spots == db.spots + Keyed(rows)
    ensures Consistent(db.users, db.refreshTokens, walks, spots, db.tags, links, db.reviews, db.comments,
                       db.subscriptions, db.progress)
  {
    assert SpotsOk(spots, walks) by {
      forall s | s in spots ensures spots[s].id == s && spots[s].walkId in walks {
        if s !in db.spots {
          var i :| 0 <= i < |rows| && rows[i].id == s;
        }
      }
    }
    assert LinksOk(links, walks, db.tags) by {
      forall i | 0 <= i < |links| ensures links[i].walkId in walks && links[i].tagId in db.tags {
        if i >= |db.walkTags| {
          assert links[i] == LinksFor(walk.id, tagIds, now)[i - |db.walkTags|];
        }
      }
    }
    CanonicalFrom(db.spots, Keyed(rows), spots);
    CanonicalFrom(db.walks, map[walk.id := walk], walks);
  }

  // ---------------------------------------------------------------------------------------------
  // updateWalk.

  /** The walk after `.set({...patch, updatedAt})`. */
  function Patched(w: Walk, p: WalkPatch, now: Timestamp): (u: Walk)
    ensures u.id == w.id && u.authorId == w.authorId && u.createdAt == w.createdAt && u.updatedAt == now
  {
    w.(name := p.name.GetOr(w.name), description := p.description.GetOr(w.description),
       coverImageUrl := p.coverImageUrl.GetOr(w.coverImageUrl),
       durationEstimate := p.durationEstimate.GetOr(w.durationEstimate),
       distanceEstimate := p.distanceEstimate.GetOr(w.distanceEstimate),
       isPublic := p.isPublic.GetOr(w.isPublic), updatedAt := now)
  }

  /** An empty patch only moves `updatedAt`; a full one sets every column it names. */
  lemma PatchedColumns(w: Walk, p: WalkPatch, now: Timestamp)
    ensures p == WalkPatch(None, None, None, None, None, None) ==> Patched(w, p, now) == w.(updatedAt := now)
    ensures p.name.Some? ==> Patched(w, p, now).name == p.name.value
    ensures p.name.None? ==> Patched(w, p, now).name == w.name
    ensures p.isPublic.Some? ==> Patched(w, p, now).isPublic == p.isPublic.value
    ensures p.durationEstimate.Some? ==> Patched(w, p, now).durationEstimate == p.durationEstimate.value
  {
  }

  /**
   * The catch of updateWalk: an error with a status passes; one with a cause or a code becomes a
   * 400 DatabaseError carrying the cause's message; any other passes.
   */
  function Classify(err: CustomError): (c: CustomError)
    ensures err.status != 0 ==> c == err
    ensures err.status == 0 && (err.cause.Some? || err.code != "") ==>
              c == Raise(400, "DatabaseError",
                         Or(if err.cause.Some? then err.cause.value.message else "", Or(err.message, "Database error occurred")))
    ensures err.status == 0 && err.cause.None? && err.code == "" ==> c == err
  {
    if err.status != 0 then err
    else if err.cause.Some? || err.code != "" then
      Raise(400, "DatabaseError", Or(if err.cause.Some? then err.cause.value.message else "", Or(err.message, "Database error occurred")))
    else err
  }

  /**
   * A missing tag reaches the client of updateWalk as the driver's message with 400, not as the
   * "Invalid reference to related resource" createWalk gets for the same failure.
   */
  lemma UpdateHidesCodeMapping(pg: PgError)
    requires pg.code == ForeignKeyViolation && pg.message != ""
    ensures Translate(Classify(QueryFailed(pg))) == Reply(400, pg.message)
    ensures Translate(QueryFailed(pg)) == Reply(400, "Invalid reference to related resource")
  {
  }

  /** The error updateWalk's steps end with, before the catch classifies it. */
  function UpdateFailure(walks: map<Id, Walk>, spots: map<Id, Spot>, tags: map<Id, Tag>, progress: map<Id, Progress>,
                         walkId: string, userId: Id, body: UpdateBody): Option<CustomError>
  {
    if !Uuid.IsUuid(walkId) then Some(BadWalkId)
    else TransactionFailure(walks, spots, tags, progress, Uuid.Lower(walkId), userId, body)
  }

  /** The error the transaction of updateWalk ends with, on the walk with key `key`. */
  function TransactionFailure(walks: map<Id, Walk>, spots: map<Id, Spot>, tags: map<Id, Tag>, progress: map<Id, Progress>,
                              key: Id, userId: Id, body: UpdateBody): Option<CustomError>
  {
    if key !in walks || walks[key].authorId != userId then
      Some(WalkNotOwned)
    else
      var tagFailure := TagFailure(tags, Listed(body.tagIds));
      if tagFailure.Some? then Some(QueryFailed(tagFailure.value))
      else if body.spots.Some? && SpotInUse(progress, spots, key) then Some(QueryFailed(SpotStillReferenced))
      else
        var spotFailure := SpotFailure(Listed(body.spots));
        if spotFailure.Some? then Some(QueryFailed(spotFailure.value)) else None
  }

  /** A malformed id is refused with 400 before anything else is looked at. */
  lemma MalformedIdRejected(walks: map<Id, Walk>, spots: map<Id, Spot>, tags: map<Id, Tag>, progress: map<Id, Progress>,
                            walkId: string, userId: Id, body: UpdateBody)
    requires !Uuid.IsUuid(walkId)
    ensures var e := UpdateFailure(walks, spots, tags, progress, walkId, userId, body);
            e.Some? && Translate(Classify(e.value)) == Reply(400, "Invalid walk ID format")
  {
  }

  /** Someone else's walk and a missing walk get the same 404. */
  lemma ForeignWalkRejected(walks: map<Id, Walk>, spots: map<Id, Spot>, tags: map<Id, Tag>, progress: map<Id, Progress>,
                            walkId: string, userId: Id, body: UpdateBody)
    requires Uuid.IsUuid(walkId)
    requires Uuid.Lower(walkId) !in walks || walks[Uuid.Lower(walkId)].authorId != userId
    ensures var e := UpdateFailure(walks, spots, tags, progress, walkId, userId, body);
            e.Some? && Translate(Classify(e.value)) == Reply(404, "Walk not found or you don't have permission to update it")
  {
  }

  /** The tag links after replacing those of walk `walkId` by `tagIds`. */
  function ReplaceLinks(links: seq<WalkTag>, walkId: Id, tagIds: seq<string>, now: Timestamp): seq<WalkTag> {
    LinksAfter(links, {walkId}) + LinksFor(walkId, tagIds, now)
  }

  /** The spots after replacing those of walk `walkId` by `rows`. */
  function ReplaceSpots(spots: map<Id, Spot>, walkId: Id, rows: seq<Spot>): map<Id, Spot>
    requires DistinctRows(rows)
  {
    SpotsAfter(spots, {walkId}) + Keyed(rows)
  }

  /** What the transaction of updateWalk returns: the walk as updated and the spots to echo. */
  datatype Revision = Revision(walk: Walk, spots: SpotsEcho)

  /**
   * updateWalk: the uuid check, then the transaction; the catch classifies whatever error either
   * ends with.
   */
  method UpdateWalk(db: Database, walkId: string, userId: Id, body: UpdateBody, spotIds: seq<Id>, now: Timestamp)
    returns (r: Outcome<Updated>)
    requires db.Valid()
    requires FreshIds(spotIds, db.spots) && |spotIds| == |Listed(body.spots)|
    modifies db
    ensures db.Valid()
    ensures db.users == old(db.users) && db.refreshTokens == old(db.refreshTokens) && db.tags == old(db.tags)
    ensures db.reviews == old(db.reviews) && db.comments == old(db.comments)
    ensures db.subscriptions == old(db.subscriptions) && db.progress == old(db.progress)
    ensures match UpdateFailure(old(db.walks), old(db.spots), old(db.tags), old(db.progress), walkId, userId, body)
            case Some(e) =>
              && r == Thrown(Classify(e))
              && db.walks == old(db.walks) && db.walkTags == old(db.walkTags) && db.spots == old(db.spots)
            case None =>
              var key := Uuid.Lower(walkId);
              var walk := Patched(old(db.walks)[key], body.patch, now);
              var rows := SpotRows(spotIds, key, Listed(body.spots), now);
              && db.walks == old(db.walks)[key := walk]
              && db.walkTags == (if body.tagIds.Some? then ReplaceLinks(old(db.walkTags), key, body.tagIds.value, now)
                                 else old(db.walkTags))
              && DistinctRows(rows)
              && db.spots == (if body.spots.Some? then ReplaceSpots(old(db.spots), key, rows) else old(db.spots))
              && r == Ok(Updated(200, WalkUpdated, walk,
                                 if |rows| > 0 then Inserted(rows) else Echoed(body.spots)))
  {
    if !Uuid.IsUuid(walkId) {
      return Thrown(Classify(BadWalkId));
    }
    var key := Uuid.Lower(walkId);
    ghost var failure := TransactionFailure(db.walks, db.spots, db.tags, db.progress, key, userId, body);
    assert UpdateFailure(db.walks, db.spots, db.tags, db.progress, walkId, userId, body) == failure;
    var result, walks, links, spots := UpdateInTransaction(db.walks, db.walkTags, db.spots, db.tags, db.progress,
                                                           key, userId, body, spotIds, now);
    match result {
      case Thrown(e) =>
        r := Thrown(Classify(e));
      case Ok(revision) =>
        ghost var rows := SpotRows(spotIds, key, Listed(body.spots), now);
        FreshRowsCanonical(spotIds, db.spots, key, Listed(body.spots), now);
        UpdateKeepsConsistent(db, walks, links, spots, revision.walk, key, body, rows, now);
        db.CommitWalks(walks, links, spots);
        r := Ok(Updated(200, WalkUpdated, revision.walk, revision.spots));
    }
  }

  /**
   * The transaction of updateWalk, on its own copy of the walks, tag links and spots: the
   * owner-only update, then the replacement of the tag links when `tagIds` is given and of the
   * spots when `spots` is given. The copies it returns are committed only when it succeeds.
   */
  method UpdateInTransaction(walks: map<Id, Walk>, links: seq<WalkTag>, spots: map<Id, Spot>, tags: map<Id, Tag>,
                             progress: map<Id, Progress>, key: Id, userId: Id, body: UpdateBody, spotIds: seq<Id>,
                             now: Timestamp)
    returns (r: Outcome<Revision>, walks': map<Id, Walk>, links': seq<WalkTag>, spots': map<Id, Spot>)
    requires FreshIds(spotIds, spots) && |spotIds| == |Listed(body.spots)|
    ensures match TransactionFailure(walks, spots, tags, progress, key, userId, body)
            case Some(e) => r == Thrown(e)
            case None =>
              var walk := Patched(walks[key], body.patch, now);
              var rows := SpotRows(spotIds, key, Listed(body.spots), now);
              && walks' == walks[key := walk]
              && links' == (if body.tagIds.Some? then ReplaceLinks(links, key, body.tagIds.value, now) else links)
              && DistinctRows(rows)
              && spots' == (if body.spots.Some? then ReplaceSpots(spots, key, rows) else spots)
              && r == Ok(Revision(walk, if |rows| > 0 then Inserted(rows) else Echoed(body.spots)))
  {
    walks', links', spots' := walks, links, spots;
    if key !in walks || walks[key].authorId != userId {
      return Thrown(WalkNotOwned), walks', links', spots';
    }
    ghost var failure := TransactionFailure(walks, spots, tags, progress, key, userId, body);
    var walk := Patched(walks[key], body.patch, now);
    walks' := walks[key := walk];
    var tagFailure, spotFailure;
    tagFailure, links' := RelinkTags(links, tags, key, body.tagIds, now);
    if tagFailure.Some? {
      assert failure == Some(QueryFailed(tagFailure.value));
      return Thrown(QueryFailed(tagFailure.value)), walks', links', spots';
    }
    var rows;
    spotFailure, rows, spots' := RespotWalk(spots, progress, key, body.spots, spotIds, now);
    if spotFailure.Some? {
      assert failure == Some(QueryFailed(spotFailure.value));
      return Thrown(QueryFailed(spotFailure.value)), walks', links', spots';
    }
    assert failure.None?;
    r := Ok(Revision(walk, if |rows| > 0 then Inserted(rows) else Echoed(body.spots)));
  }

  /** Step two of updateWalk's transaction: when `tagIds` is given, the walk's links are replaced by new ones. */
  method RelinkTags(links: seq<WalkTag>, tags: map<Id, Tag>, key: Id, tagIds: Option<seq<string>>, now: Timestamp)
    returns (failure: Option<PgError>, links': seq<WalkTag>)
    ensures failure == TagFailure(tags, Listed(tagIds))
    ensures failure.None? ==> links' == (if tagIds.Some? then ReplaceLinks(links, key, tagIds.value, now) else links)
  {
    links' := links;
    failure := None;
    if tagIds.Some? {
      links' := LinksAfter(links', {key});
      if |tagIds.value| > 0 {
        failure := TagFailure(tags, tagIds.value);
        if failure.Some? {
          return;
        }
        links' := links' + LinksFor(key, tagIds.value, now);
      } else {
        NothingAdded(links', map[], key, now);
      }
    }
  }

  /**
   * Step three of updateWalk's transaction: when `spots` is given, the walk's spots are deleted,
   * which a progress row pointing at one of them refuses, and the new ones are inserted.
   */
  method RespotWalk(spots: map<Id, Spot>, progress: map<Id, Progress>, key: Id, given: Option<seq<NewSpot>>,
                    spotIds: seq<Id>, now: Timestamp)
    returns (failure: Option<PgError>, rows: seq<Spot>, spots': map<Id, Spot>)
    requires FreshIds(spotIds, spots) && |spotIds| == |Listed(given)|
    ensures failure == (if given.Some? && SpotInUse(progress, spots, key) then Some(SpotStillReferenced)
                        else SpotFailure(Listed(given)))
    ensures failure.None? ==>
              && rows == SpotRows(spotIds, key, Listed(given), now)
              && DistinctRows(rows)
              && spots' == (if given.Some? then ReplaceSpots(spots, key, rows) else spots)
  {
    spots', rows, failure := spots, [], None;
    if given.Some? {
      if SpotInUse(progress, spots, key) {
        return Some(SpotStillReferenced), rows, spots';
      }
      spots' := SpotsAfter(spots, {key});
      if |given.value| > 0 {
        failure := SpotFailure(given.value);
        if failure.Some? {
          return;
        }
        rows := SpotRows(spotIds, key, given.value, now);
        DistinctRowIds(spotIds, rows);
        spots' := spots' + Keyed(rows);
      } else {
        NothingAdded([], spots', key, now);
      }
    }
  }

  /** The rows updateWalk writes keep every reference intact. */
  lemma UpdateKeepsConsistent(db: Database, walks: map<Id, Walk>, links: seq<WalkTag>, spots: map<Id, Spot>,
                              walk: Walk, key: Id, body: UpdateBody, rows: seq<Spot>, now: Timestamp)
    requires db.Valid()
    requires key in db.walks && walk.id == key && walk.authorId == db.walks[key].authorId
    requires walks == db.walks[key := walk]
    requires TagFailure(db.tags, Listed(body.tagIds)).None?
    requires links == (if body.tagIds.Some? then ReplaceLinks(db.walkTags, key, body.tagIds.value, now) else db.walkTags)
    requires DistinctRows(rows) && forall i :: 0 <= i < |rows| ==> rows[i].walkId == key
    requires CanonicalKeys(Keyed(rows))
    requires body.spots.Some? ==> !SpotInUse(db.progress, db.spots, key)
    requires spots == (if body.spots.Some? then ReplaceSpots(db.spots, key, rows) else db.spots)
    ensures Consistent(db.users, db.refreshTokens, walks, spots, db.tags, links, db.reviews, db.comments,
                       db.subscriptions, db.progress)
  {
    assert walks.Keys == db.walks.Keys;
    SameWalksConsistent(db.users, db.refreshTokens, db.walks, walks, db.spots, db.tags, db.walkTags, db.reviews,
                        db.comments, db.subscriptions, db.progress);
    if body.tagIds.Some? {
      ReplacedLinksOk(db.walkTags, walks, db.tags, key, body.tagIds.value, now);
    }
    if body.spots.Some? {
      ReplacedSpotsOk(db.spots, walks, db.users, db.progress, key, rows);
      CanonicalFrom(db.spots, Keyed(rows), spots);
    }
    NewLinksAndSpotsConsistent(db.users, db.refreshTokens, walks, db.spots, spots, db.tags, db.walkTags, links,
                               db.reviews, db.comments, db.subscriptions, db.progress);
  }

  lemma ReplacedLinksOk(links: seq<WalkTag>, walks: map<Id, Walk>, tags: map<Id, Tag>, key: Id,
                        tagIds: seq<string>, now: Timestamp)
    requires LinksOk(links, walks, tags) && key in walks
    requires forall i :: 0 <= i < |tagIds| ==> Uuid.Lower(tagIds[i]) in tags
    ensures LinksOk(ReplaceLinks(links, key, tagIds, now), walks, tags)
  {
    var kept := LinksAfter(links, {key});
    var added := LinksFor(key, tagIds, now);
    var r := kept + added;
    forall i | 0 <= i < |r| ensures r[i].walkId in walks && r[i].tagId in tags {
      if i < |kept| {
        assert r[i] == kept[i] && kept[i] in links;
      } else {
        assert r[i] == added[i - |kept|];
      }
    }
  }

  lemma ReplacedSpotsOk(spots: map<Id, Spot>, walks: map<Id, Walk>, users: map<Id, User>,
                        progress: map<Id, Progress>, key: Id, rows: seq<Spot>)
    requires SpotsOk(spots, walks) && ProgressOk(progress, walks, users, spots) && key in walks
    requires !SpotInUse(progress, spots, key)
    requires DistinctRows(rows) && forall i :: 0 <= i < |rows| ==> rows[i].walkId == key
    ensures SpotsOk(ReplaceSpots(spots, key, rows), walks)
    ensures ProgressOk(progress, walks, users, ReplaceSpots(spots, key, rows))
  {
    var after := ReplaceSpots(spots, key, rows);
    forall s | s in after ensures after[s].id == s && after[s].walkId in walks {
      if s in Keyed(rows) {
        var i :| 0 <= i < |rows| && rows[i].id == s;
      }
    }
  }

  // ---------------------------------------------------------------------------------------------
  // The replacements touch no other walk.

  /** The tag ids linked to walk `walkId`, in table order. */
  function TagsOf(links: seq<WalkTag>, walkId: Id): seq<Id> {
    if links == [] then []
    else (if links[0].walkId == walkId then [links[0].tagId] else []) + TagsOf(links[1..], walkId)
  }

  lemma {:induction false} TagsOfConcat(a: seq<WalkTag>, b: seq<WalkTag>, walkId: Id)
    ensures TagsOf(a + b, walkId) == TagsOf(a, walkId) + TagsOf(b, walkId)
  {
    if a != [] {
      var x, rest := a[0], a[1..];
      TagsOfConcat(rest, b, walkId);
      assert a + b == [x] + (rest + b);
    } else {
      assert a + b == b;
    }
  }

  lemma {:induction false} TagsOfWithout(links: seq<WalkTag>, walkId: Id, other: Id)
    requires other != walkId
    ensures TagsOf(LinksAfter(links, {walkId}), walkId) == []
    ensures TagsOf(LinksAfter(links, {walkId}), other) == TagsOf(links, other)
  {
    if links != [] {
      TagsOfWithout(links[1..], walkId, other);
      var head := if links[0].walkId !in {walkId} then [links[0]] else [];
      assert LinksAfter(links, {walkId}) == head + LinksAfter(links[1..], {walkId});
      TagsOfConcat(head, LinksAfter(links[1..], {walkId}), walkId);
      TagsOfConcat(head, LinksAfter(links[1..], {walkId}), other);
    }
  }

  lemma {:induction false} TagsOfFresh(walkId: Id, tagIds: seq<string>, now: Timestamp, other: Id)
    requires other != walkId
    ensures TagsOf(LinksFor(walkId, tagIds, now), walkId) == seq(|tagIds|, i requires 0 <= i < |tagIds| => Uuid.Lower(tagIds[i]))
    ensures TagsOf(LinksFor(walkId, tagIds, now), other) == []
  {
    if tagIds != [] {
      TagsOfFresh(walkId, tagIds[1..], now, other);
      var l := LinksFor(walkId, tagIds, now);
      assert l == [l[0]] + LinksFor(walkId, tagIds[1..], now);
      TagsOfConcat([l[0]], LinksFor(walkId, tagIds[1..], now), walkId);
      TagsOfConcat([l[0]], LinksFor(walkId, tagIds[1..], now), other);
    }
  }

  /** After an update with `tagIds`, the walk's tags are exactly those ids, in order; other walks keep theirs. */
  lemma TagsReplaced(links: seq<WalkTag>, walkId: Id, tagIds: seq<string>, now: Timestamp, other: Id)
    requires other != walkId
    ensures TagsOf(ReplaceLinks(links, walkId, tagIds, now), walkId) == seq(|tagIds|, i requires 0 <= i < |tagIds| => Uuid.Lower(tagIds[i]))
    ensures TagsOf(ReplaceLinks(links, walkId, tagIds, now), other) == TagsOf(links, other)
  {
    TagsOfWithout(links, walkId, other);
    TagsOfFresh(walkId, tagIds, now, other);
    TagsOfConcat(LinksAfter(links, {walkId}), LinksFor(walkId, tagIds, now), walkId);
    TagsOfConcat(LinksAfter(links, {walkId}), LinksFor(walkId, tagIds, now), other);
  }

  /** The spots of walk `walkId`. */
  function SpotsOf(spots: map<Id, Spot>, walkId: Id): map<Id, Spot> {
    map k | k in spots && spots[k].walkId == walkId :: spots[k]
  }

  /** After an update with `spots`, the walk's spots are exactly the new rows; other walks keep theirs. */
  lemma SpotsReplaced(spots: map<Id, Spot>, walkId: Id, rows: seq<Spot>, other: Id)
    requires other != walkId
    requires DistinctRows(rows)
    requires forall i :: 0 <= i < |rows| ==> rows[i].walkId == walkId && rows[i].id !in spots
    ensures SpotsOf(ReplaceSpots(spots, walkId, rows), walkId) == Keyed(rows)
    ensures SpotsOf(ReplaceSpots(spots, walkId, rows), other) == SpotsOf(spots, other)
  {
    KeyedOfWalk(spots, rows, walkId);
    NewSpotsOfWalk(spots, walkId, Keyed(rows));
    OtherSpotsKept(spots, walkId, Keyed(rows), other);
  }

  /** The inserted rows, as entries: all of walk `walkId`, none under a key already in use. */
  lemma KeyedOfWalk(spots: map<Id, Spot>, rows: seq<Spot>, walkId: Id)
    requires DistinctRows(rows)
    requires forall i :: 0 <= i < |rows| ==> rows[i].walkId == walkId && rows[i].id !in spots
    ensures forall s :: s in Keyed(rows) ==> Keyed(rows)[s].walkId == walkId && s !in spots
  {
    var k := Keyed(rows);
    forall s | s in k ensures k[s].walkId == walkId && s !in spots {
      var i :| 0 <= i < |rows| && rows[i].id == s;
    }
  }

  lemma NewSpotsOfWalk(spots: map<Id, Spot>, walkId: Id, added: map<Id, Spot>)
    requires forall s :: s in added ==> added[s].walkId == walkId
    ensures SpotsOf(SpotsAfter(spots, {walkId}) + added, walkId) == added
  {
    var l := SpotsOf(SpotsAfter(spots, {walkId}) + added, walkId);
    assert l.Keys == added.Keys;
  }

  lemma OtherSpotsKept(spots: map<Id, Spot>, walkId: Id, added: map<Id, Spot>, other: Id)
    requires other != walkId
    requires forall s :: s in added ==> added[s].walkId == walkId && s !in spots
    ensures SpotsOf(SpotsAfter(spots, {walkId}) + added, other) == SpotsOf(spots, other)
  {
    var l := SpotsOf(SpotsAfter(spots, {walkId}) + added, other);
    assert l.Keys == SpotsOf(spots, other).Keys;
  }

  /** The returned spots are the inserted rows exactly when the new list is not empty. */
  lemma EchoWhenEmpty(spotIds: seq<Id>, key: Id, given: Option<seq<NewSpot>>, now: Timestamp)
    requires |spotIds| == |Listed(given)|
    ensures var rows := SpotRows(spotIds, key, Listed(given), now);
            (|rows| > 0 <==> given.Some? && |given.value| > 0)
  {
  }

  // ---------------------------------------------------------------------------------------------
  // Finding: the spot rows as updateWalk builds them.

  /** `{ walkId: updatedWalk.id, ...spot }`: a `walkId` in the spot itself overrides the walk's. */
  function SpotWalkAsWritten(walkId: Id, v: NewSpot): Id {
    v.walkId.GetOr(walkId)
  }

  /** updateWalk's spot values, as written: each goes to the walk its own `walkId` names, if any. */
  function SpotRowsAsWritten(ids: seq<Id>, walkId: Id, given: seq<NewSpot>, now: Timestamp): (rows: seq<Spot>)
    requires |ids| == |given|
    ensures |rows| == |given|
    ensures forall i :: 0 <= i < |rows| ==> rows[i].id == ids[i] && rows[i].walkId == given[i].walkId.GetOr(walkId)
  {
    seq(|given|, i requires 0 <= i < |given| => SpotRow(ids[i], SpotWalkAsWritten(walkId, given[i]), given[i], now))
  }

  /** A given spot that names a walk other than `walkId`. */
  predicate NamesOtherWalk(v: NewSpot, walkId: Id) {
    v.walkId.Some? && v.walkId.value != walkId
  }

  /**
   * Every spot that carries another walk's id is written into that walk, not into the walk
   * being updated; the corrected rows (`SpotRows`) always belong to the updated walk.
   */
  lemma SpotEscapesUpdatedWalk(ids: seq<Id>, walkId: Id, given: seq<NewSpot>, now: Timestamp, i: int)
    requires |ids| == |given| && 0 <= i < |given| && NamesOtherWalk(given[i], walkId)
    ensures SpotRowsAsWritten(ids, walkId, given, now)[i].walkId == given[i].walkId.value != walkId
    ensures SpotRows(ids, walkId, given, now)[i].walkId == walkId
  {
  }

  /** The two builders agree exactly when no given spot names another walk. */
  lemma AsWrittenAgreesIff(ids: seq<Id>, walkId: Id, given: seq<NewSpot>, now: Timestamp)
    requires |ids| == |given|
    ensures SpotRowsAsWritten(ids, walkId, given, now) == SpotRows(ids, walkId, given, now)
            <==> forall i :: 0 <= i < |given| ==> !NamesOtherWalk(given[i], walkId)
  {
    var a, c := SpotRowsAsWritten(ids, walkId, given, now), SpotRows(ids, walkId, given, now);
    if forall i :: 0 <= i < |given| ==> !NamesOtherWalk(given[i], walkId) {
      forall i | 0 <= i < |given| ensures a[i] == c[i] {
      }
    } else {
      var i :| 0 <= i < |given| && NamesOtherWalk(given[i], walkId);
      assert a[i].walkId != c[i].walkId;
    }
  }

  /** For instance, a spot naming walk `other` in an update of walk `walkId` lands in `other`. */
  lemma SpotEscapesExample(id: Id, walkId: Id, other: Id, now: Timestamp)
    requires other != walkId
    ensures var v := NewSpot(Some(other), Some("Fountain"), None, Some(1.0), Some(2.0), None, None, None, None);
            && SpotRowsAsWritten([id], walkId, [v], now)[0].walkId == other
            && SpotRows([id], walkId, [v], now)[0].walkId == walkId
  {
  }

  // ---------------------------------------------------------------------------------------------
  // Reviews and comments.

  /** At most one review per (walk, user): what createWalkReview's check maintains. */
  predicate OneReviewPerUser(reviews: map<Id, Review>) {
    forall a, b ::
      (a in reviews && b in reviews && reviews[a].walkId == reviews[b].walkId && reviews[a].userId == reviews[b].userId)
      ==> a == b
  }

  predicate HasReviewed(reviews: map<Id, Review>, walkId: Id, userId: Id) {
    exists k :: k in reviews && reviews[k].walkId == walkId && reviews[k].userId == userId
  }

  /** Adding a review for a (walk, user) pair without one keeps one review per pair. */
  lemma AddReviewKeepsOnePerUser(reviews: map<Id, Review>, row: Review)
    requires OneReviewPerUser(reviews) && row.id !in reviews
    requires !HasReviewed(reviews, row.walkId, row.userId)
    ensures OneReviewPerUser(reviews[row.id := row])
  {
    var after := reviews[row.id := row];
    forall a, b | a in after && b in after && after[a].walkId == after[b].walkId && after[a].userId == after[b].userId
      ensures a == b
    {
      if a != b && (a == row.id || b == row.id) {
        assert false;
      }
    }
  }

  /** The error createWalkReview ends with: malformed id, missing walk, second review, missing user. */
  function ReviewFailure(walks: map<Id, Walk>, users: map<Id, User>, reviews: map<Id, Review>,
                         walkId: string, userId: Id): Option<CustomError>
  {
    if !Uuid.IsUuid(walkId) then Some(QueryFailed(IdSyntaxError(walkId)))
    else if Uuid.Lower(walkId) !in walks then Some(WalkMissing)
    else if HasReviewed(reviews, Uuid.Lower(walkId), userId) then
      Some(AlreadyReviewed)
    else if userId !in users then Some(ReviewerMissing)
    else None
  }

  /** The client sees 400 for a malformed id, 404 for a missing walk and 400 for a second review. */
  lemma ReviewReplies(walks: map<Id, Walk>, users: map<Id, User>, reviews: map<Id, Review>, walkId: string, userId: Id)
    ensures !Uuid.IsUuid(walkId) ==>
              Translate(ReviewFailure(walks, users, reviews, walkId, userId).value) == Reply(400, "Invalid ID format")
    ensures Uuid.IsUuid(walkId) && Uuid.Lower(walkId) !in walks ==>
              Translate(ReviewFailure(walks, users, reviews, walkId, userId).value) == Reply(404, "Walk not found")
    ensures Uuid.IsUuid(walkId) && Uuid.Lower(walkId) in walks && HasReviewed(reviews, Uuid.Lower(walkId), userId) ==>
              Translate(ReviewFailure(walks, users, reviews, walkId, userId).value) == Reply(400, "You have already reviewed this walk")
  {
  }

  /** createWalkReview: at most one review per user and walk; `stars` defaults to 0. */
  method CreateWalkReview(db: Database, walkId: string, userId: Id, stars: Option<int>, textReview: Option<string>,
                          reviewId: Id, now: Timestamp)
    returns (r: Outcome<Posted<Review>>)
    requires db.Valid() && Uuid.IsCanonical(reviewId) && reviewId !in db.reviews
    modifies db
    ensures db.Valid()
    ensures db.users == old(db.users) && db.refreshTokens == old(db.refreshTokens) && db.walks == old(db.walks)
    ensures db.spots == old(db.spots) && db.tags == old(db.tags) && db.walkTags == old(db.walkTags)
    ensures db.comments == old(db.comments) && db.subscriptions == old(db.subscriptions) && db.progress == old(db.progress)
    ensures OneReviewPerUser(old(db.reviews)) ==> OneReviewPerUser(db.reviews)
    ensures match ReviewFailure(old(db.walks), old(db.users), old(db.reviews), walkId, userId)
            case Some(e) => r == Thrown(e) && db.reviews == old(db.reviews)
            case None =>
              var row := Review(reviewId, Uuid.Lower(walkId), userId, stars.GetOr(0), textReview, now, now);
              && db.reviews == old(db.reviews)[reviewId := row]
              && r == Ok(Posted(201, ReviewCreated, row))
  {
    if !Uuid.IsUuid(walkId) {
      return Thrown(QueryFailed(IdSyntaxError(walkId)));
    }
    var key := Uuid.Lower(walkId);
    if key !in db.walks {
      return Thrown(WalkMissing);
    }
    if HasReviewed(db.reviews, key, userId) {
      return Thrown(AlreadyReviewed);
    }
    if userId !in db.users {
      return Thrown(ReviewerMissing);
    }
    var row := Review(reviewId, key, userId, stars.GetOr(0), textReview, now, now);
    if OneReviewPerUser(db.reviews) {
      AddReviewKeepsOnePerUser(db.reviews, row);
    }
    db.InsertReview(row);
    r := Ok(Posted(201, ReviewCreated, row));
  }

  /** The error createWalkComment ends with: malformed id, missing walk, missing user. */
  function CommentFailure(walks: map<Id, Walk>, users: map<Id, User>, walkId: string, userId: Id): Option<CustomError> {
    if !Uuid.IsUuid(walkId) then Some(QueryFailed(IdSyntaxError(walkId)))
    else if Uuid.Lower(walkId) !in walks then Some(WalkMissing)
    else if userId !in users then Some(CommenterMissing)
    else None
  }

  /**
   * Unlike reviews, comments are not limited: the checks read only the walk and the user, never
   * the comments table, so an existing user on an existing walk always passes them, however
   * many comments that user has already left.
   */
  lemma CommentsUnlimited(walks: map<Id, Walk>, users: map<Id, User>, walkId: string, userId: Id)
    requires Uuid.IsUuid(walkId) && Uuid.Lower(walkId) in walks && userId in users
    ensures CommentFailure(walks, users, walkId, userId).None?
  {
  }

  /** createWalkComment: one new comment on an existing walk; `comment` defaults to "". */
  method CreateWalkComment(db: Database, walkId: string, userId: Id, comment: Option<string>,
                           commentId: Id, now: Timestamp)
    returns (r: Outcome<Posted<Comment>>)
    requires db.Valid() && Uuid.IsCanonical(commentId) && commentId !in db.comments
    modifies db
    ensures db.Valid()
    ensures db.users == old(db.users) && db.refreshTokens == old(db.refreshTokens) && db.walks == old(db.walks)
    ensures db.spots == old(db.spots) && db.tags == old(db.tags) && db.walkTags == old(db.walkTags)
    ensures db.reviews == old(db.reviews) && db.subscriptions == old(db.subscriptions) && db.progress == old(db.progress)
    ensures match CommentFailure(old(db.walks), old(db.users), walkId, userId)
            case Some(e) => r == Thrown(e) && db.comments == old(db.comments)
            case None =>
              var row := Comment(commentId, Uuid.Lower(walkId), userId, comment.GetOr(""), now, now);
              && db.comments == old(db.comments)[commentId := row]
              && r == Ok(Posted(201, CommentCreated, row))
  {
    if !Uuid.IsUuid(walkId) {
      return Thrown(QueryFailed(IdSyntaxError(walkId)));
    }
    var key := Uuid.Lower(walkId);
    if key !in db.walks {
      return Thrown(WalkMissing);
    }
    if userId !in db.users {
      return Thrown(CommenterMissing);
    }
    var row := Comment(commentId, key, userId, comment.GetOr(""), now, now);
    db.InsertComment(row);
    r := Ok(Posted(201, CommentCreated, row));
  }

  // ---------------------------------------------------------------------------------------------
  // The listings: their pagination block.

  /** getAllWalks: every walk is counted; the links follow the flags. */
  method GetAllWalks(db: Database, pageParam: QueryParam, limitParam: QueryParam) returns (r: Listing)
    ensures r.status == 200 && r.pagination.total == |db.walks|
    ensures r.pagination == Paginate(pageParam, limitParam, |db.walks|)
    ensures r.links == LinksOf(r.pagination, limitParam)
  {
    var info := Paginate(pageParam, limitParam, |db.walks|);
    r := Listing(200, WalksFetched, info, LinksOf(info, limitParam));
  }

  function CommentCount(comments: map<Id, Comment>, walkId: Id): nat {
    |set k | k in comments && comments[k].walkId == walkId|
  }

  function ReviewCount(reviews: map<Id, Review>, walkId: Id): nat {
    |set k | k in reviews && reviews[k].walkId == walkId|
  }

  /** getWalkComments: the walk must exist; `total` counts its comments only. */
  method GetWalkComments(db: Database, walkId: string, pageParam: QueryParam, limitParam: QueryParam)
    returns (r: Outcome<Page>)
    ensures !Uuid.IsUuid(walkId) ==> r == Thrown(QueryFailed(IdSyntaxError(walkId)))
    ensures Uuid.IsUuid(walkId) && Uuid.Lower(walkId) !in db.walks ==> r == Thrown(WalkMissing)
    ensures Uuid.IsUuid(walkId) && Uuid.Lower(walkId) in db.walks ==>
              r == Ok(Page(200, CommentsFetched,
                           Paginate(pageParam, limitParam, CommentCount(db.comments, Uuid.Lower(walkId)))))
  {
    if !Uuid.IsUuid(walkId) {
      return Thrown(QueryFailed(IdSyntaxError(walkId)));
    }
    var key := Uuid.Lower(walkId);
    if key !in db.walks {
      return Thrown(WalkMissing);
    }
    var total := |set k | k in db.comments && db.comments[k].walkId == key|;
    r := Ok(Page(200, CommentsFetched, Paginate(pageParam, limitParam, total)));
  }

  /** getWalkReviews: the walk must exist; `total` counts its reviews only. */
  method GetWalkReviews(db: Database, walkId: string, pageParam: QueryParam, limitParam: QueryParam)
    returns (r: Outcome<Page>)
    ensures !Uuid.IsUuid(walkId) ==> r == Thrown(QueryFailed(IdSyntaxError(walkId)))
    ensures Uuid.IsUuid(walkId) && Uuid.Lower(walkId) !in db.walks ==> r == Thrown(WalkMissing)
    ensures Uuid.IsUuid(walkId) && Uuid.Lower(walkId) in db.walks ==>
              r == Ok(Page(200, ReviewsFetched,
                           Paginate(pageParam, limitParam, ReviewCount(db.reviews, Uuid.Lower(walkId)))))
  {
    if !Uuid.IsUuid(walkId) {
      return Thrown(QueryFailed(IdSyntaxError(walkId)));
    }
    var key := Uuid.Lower(walkId);
    if key !in db.walks {
      return Thrown(WalkMissing);
    }
    var total := |set k | k in db.reviews && db.reviews[k].walkId == key|;
    r := Ok(Page(200, ReviewsFetched, Paginate(pageParam, limitParam, total)));
  }
}
