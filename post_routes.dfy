/** The /posts routes: POST, GET, GET /{id}, PUT /{id} and DELETE /{id}.
    Each handler is a method over the post repository (and, for POST, the
    user table the author is looked up in). UUID.randomUUID() and
    Instant.now() are the parameters `freshId` and `now`; a request body that
    cannot be received is `None`, and a missing path parameter is `None`.
    GET, GET /{id}, and the lookups of PUT and DELETE run outside any `try`,
    so an exception there reaches the server's default 500 answer. */
module PostRoutes {
  import opened Common
  import opened Models
  import opened Http
  import opened PostValidation
  import UserRepo
  import opened PostRepo

  const PostIdRequiredMessage: string := "Post ID is required"
  const PostNotFoundMessage: string := "Post not found"
  const PostDeletedMessage: string := "Post deleted successfully"
  const CreatePostFailurePrefix: string := "Failed to create post: "
  const InvalidBodyPrefix: string := "Invalid request body: "

  function AuthorNotFoundMessage(authorId: string): string {
    "User '" + authorId + "' not found. Please create a user first."
  }

  /** The post POST /posts builds from a request: its fields, a fresh id,
      the author id as given (a username), created now, open. */
  function NewPost(req: CreatePostRequest, id: string, now: string): (p: Post)
    ensures p.id == Some(id) && p.authorId == Some(req.authorId) && p.createdAt == Some(now)
    ensures p.status == Open
    ensures p.title == req.title && p.description == req.description && p.location == req.location
    ensures p.tag == req.tag && p.dueDate == req.dueDate && p.femaleOnly == req.femaleOnly && p.images == req.images
  {
    Post(Some(id), req.title, req.description, req.location, req.tag, req.dueDate, req.femaleOnly,
         req.images, Some(req.authorId), Some(now), Open)
  }

  /** The post PUT /posts/{id} stores: the request's fields under the path
      id, keeping the stored post's author, creation time and status. */
  function UpdatedPost(existing: Post, req: CreatePostRequest, id: string): (p: Post)
    ensures p.id == Some(id)
    ensures p.authorId == existing.authorId && p.createdAt == existing.createdAt && p.status == existing.status
    ensures p.title == req.title && p.description == req.description && p.location == req.location
    ensures p.tag == req.tag && p.dueDate == req.dueDate && p.femaleOnly == req.femaleOnly && p.images == req.images
  {
    Post(Some(id), req.title, req.description, req.location, req.tag, req.dueDate, req.femaleOnly,
         req.images, existing.authorId, existing.createdAt, existing.status)
  }

  /** A post inserted with PostgreSQL is found again by its id as it was
      given: the row and the image rows together read back as the post, its
      id and author id in canonical uuid text, which they already were when
      canonical. */
  lemma PgInsertThenFind(pgRows: seq<PgRow>, imageRows: seq<ImageRow>, post: Post)
    requires post.id.Some? && post.authorId.Some? && post.createdAt.Some?
    requires CastsToUuid(post.id.value) && CastsToUuid(post.authorId.value)
    requires !PgHasId(pgRows, CanonUuid(post.id.value))
    requires forall k :: 0 <= k < |imageRows| ==> PgHasId(pgRows, imageRows[k].postId)
    ensures PgLookup(pgRows + [ToPgRow(post.id.value, post, post.authorId.value, post.createdAt.value)],
                     imageRows + ImageRowsFor(CanonUuid(post.id.value), post.images), post.id.value)
      == Ok(Some(post.(id := Some(CanonUuid(post.id.value)), authorId := Some(CanonUuid(post.authorId.value)))))
    ensures IsCanonicalUuid(post.id.value) && IsCanonicalUuid(post.authorId.value) ==>
      PgLookup(pgRows + [ToPgRow(post.id.value, post, post.authorId.value, post.createdAt.value)],
               imageRows + ImageRowsFor(CanonUuid(post.id.value), post.images), post.id.value) == Ok(Some(post))
  {
    var key := CanonUuid(post.id.value);
    var newImages := imageRows + ImageRowsFor(key, post.images);
    forall k | 0 <= k < |imageRows|
      ensures imageRows[k].postId != key
    {
      assert PgHasId(pgRows, imageRows[k].postId);
    }
    ImagesOfNone(imageRows, key);
    ImagesOfAppend(imageRows, ImageRowsFor(key, post.images), key);
    ImagesOfAll(ImageRowsFor(key, post.images), key);
    PgRoundTrip(post, newImages);
    PgFindLast(pgRows, newImages, ToPgRow(post.id.value, post, post.authorId.value, post.createdAt.value));
  }

  /** POST /posts. After validation, the author is looked up; with SQLite
      that lookup throws, so no post can be created there and the answer is
      500. With PostgreSQL the author id, a username, goes through a uuid
      cast, so the insert fails with 500 unless the username is uuid text;
      the post then reads back with that author id in canonical form.
      UUID.randomUUID().toString() is canonical uuid text. */
  method CreatePost(
    posts: PostRepository, users: UserRepo.UserRepository, body: Option<CreatePostRequest>,
    isInstant: string -> bool, freshId: string, now: string)
    returns (resp: Response)
    requires posts.Valid()
    requires posts.usePostgreSQL == users.usePostgreSQL
    requires IsCanonicalUuid(freshId) && !posts.HasPost(freshId)
    modifies posts
    ensures posts.Valid()
    ensures body.None? ==> resp == Response(InternalServerError, FailureBody(CreatePostFailurePrefix)) && unchanged(posts)
    ensures body.Some? && ValidationError(body.value, isInstant).Some? ==>
      resp == Response(BadRequest, ErrorBody(ValidationError(body.value, isInstant).value)) && unchanged(posts)
    ensures body.Some? && ValidationError(body.value, isInstant).None? && !posts.usePostgreSQL ==>
      resp == Response(InternalServerError, FailureBody(CreatePostFailurePrefix)) && unchanged(posts)
    ensures (body.Some? && ValidationError(body.value, isInstant).None? && posts.usePostgreSQL
      && !UserRepo.Taken(users.rows, body.value.authorId)) ==>
      resp == Response(BadRequest, ErrorBody(AuthorNotFoundMessage(body.value.authorId))) && unchanged(posts)
    ensures (body.Some? && ValidationError(body.value, isInstant).None? && posts.usePostgreSQL
      && UserRepo.Taken(users.rows, body.value.authorId) && !CastsToUuid(body.value.authorId)) ==>
      resp == Response(InternalServerError, FailureBody(CreatePostFailurePrefix)) && unchanged(posts)
    ensures (body.Some? && ValidationError(body.value, isInstant).None? && posts.usePostgreSQL
      && UserRepo.Taken(users.rows, body.value.authorId) && CastsToUuid(body.value.authorId)) ==>
      && resp == Response(Created, CreatedPostBody(DefaultCreatePostResponse(NewPost(body.value, freshId, now))))
      && posts.sqliteRows == old(posts.sqliteRows)
      && posts.pgRows == old(posts.pgRows) + [ToPgRow(freshId, NewPost(body.value, freshId, now), body.value.authorId, now)]
      && posts.imageRows == old(posts.imageRows) + ImageRowsFor(freshId, body.value.images)
    ensures resp.status == Created ==>
      && body.Some? && CastsToUuid(body.value.authorId)
      && posts.Lookup(freshId) == Ok(Some(resp.body.createdPost.post.(authorId := Some(CanonUuid(body.value.authorId)))))
  {
    if body.None? {
      return Response(InternalServerError, FailureBody(CreatePostFailurePrefix));
    }
    var req := body.value;
    var validationError := ValidateCreatePostRequest(req, isInstant);
    if validationError.Some? {
      return Response(BadRequest, ErrorBody(validationError.value));
    }
    var author := users.UserExists(req.authorId);
    if author.Err? {
      return Response(InternalServerError, FailureBody(CreatePostFailurePrefix));
    }
    if !author.value {
      return Response(BadRequest, ErrorBody(AuthorNotFoundMessage(req.authorId)));
    }
    var newPost := NewPost(req, freshId, now);
    ghost var oldPg := posts.pgRows;
    ghost var oldImages := posts.imageRows;
    PgHasUuidIff(posts.pgRows, freshId);
    var err := posts.InsertPost(newPost);
    if err.Some? {
      return Response(InternalServerError, FailureBody(CreatePostFailurePrefix));
    }
    PgInsertThenFind(oldPg, oldImages, newPost);
    return Response(Created, CreatedPostBody(DefaultCreatePostResponse(newPost)));
  }

  /** GET /posts: every post with their number. */
  method ListPosts(posts: PostRepository) returns (resp: Response)
    ensures posts.AllPosts().Ok? ==> resp == Response(OK, PostListBody(ListOf(posts.AllPosts().value)))
    ensures posts.AllPosts().Err? ==> resp == Response(InternalServerError, Unhandled)
    ensures resp.status == OK ==> resp.body.postList.count == |resp.body.postList.posts|
  {
    var all := posts.GetAllPosts();
    if all.Err? {
      return Response(InternalServerError, Unhandled);
    }
    return Response(OK, PostListBody(ListOf(all.value)));
  }

  /** GET /posts/{id}: the post, or 404 exactly when no post has that id
      (with PostgreSQL, that uuid value); a post found carries the key. */
  method GetPost(posts: PostRepository, id: Option<string>) returns (resp: Response)
    requires posts.Valid()
    ensures id.None? ==> resp == Response(BadRequest, ErrorBody(PostIdRequiredMessage))
    ensures id.Some? ==> resp == match posts.Lookup(id.value)
      case Ok(Some(p)) => Response(OK, PostBody(p))
      case Ok(None) => Response(NotFound, ErrorBody(PostNotFoundMessage))
      case Err(_) => Response(InternalServerError, Unhandled)
    ensures resp.status == NotFound <==> id.Some? && posts.Key(id.value).Some? && !posts.HasPost(id.value)
    ensures resp.status == OK ==> posts.HasPost(id.value) && resp.body.post.id == posts.Key(id.value)
  {
    if id.None? {
      return Response(BadRequest, ErrorBody(PostIdRequiredMessage));
    }
    var found := posts.GetPostById(id.value);
    match found {
      case Ok(Some(p)) =>
        return Response(OK, PostBody(p));
      case Ok(None) =>
        return Response(NotFound, ErrorBody(PostNotFoundMessage));
      case Err(_) =>
        return Response(InternalServerError, Unhandled);
    }
  }

  /** PUT /posts/{id}: 404 before the body is read when no post has the id;
      otherwise the validated request replaces the post's fields, keeping its
      id, author, creation time and status. */
  method UpdatePostRoute(posts: PostRepository, id: Option<string>, body: Option<CreatePostRequest>, isInstant: string -> bool)
    returns (resp: Response)
    requires posts.Valid()
    modifies posts
    ensures posts.Valid()
    ensures id.None? ==> resp == Response(BadRequest, ErrorBody(PostIdRequiredMessage)) && unchanged(posts)
    ensures id.Some? && old(posts.Lookup(id.value)).Err? ==> resp == Response(InternalServerError, Unhandled) && unchanged(posts)
    ensures id.Some? && old(posts.Lookup(id.value)) == Ok(None) ==>
      resp == Response(NotFound, ErrorBody(PostNotFoundMessage)) && unchanged(posts)
    ensures id.Some? && old(posts.Lookup(id.value)).Ok? && old(posts.Lookup(id.value)).value.Some? && body.None? ==>
      resp == Response(BadRequest, FailureBody(InvalidBodyPrefix)) && unchanged(posts)
    ensures (id.Some? && old(posts.Lookup(id.value)).Ok? && old(posts.Lookup(id.value)).value.Some? && body.Some?
      && ValidationError(body.value, isInstant).Some?) ==>
      resp == Response(BadRequest, ErrorBody(ValidationError(body.value, isInstant).value)) && unchanged(posts)
    ensures (id.Some? && old(posts.Lookup(id.value)).Ok? && old(posts.Lookup(id.value)).value.Some? && body.Some?
      && ValidationError(body.value, isInstant).None?) ==>
      var updated := UpdatedPost(old(posts.Lookup(id.value)).value.value, body.value, id.value);
      && resp == Response(OK, UpdatedPostBody(updated))
      && (posts.usePostgreSQL ==>
            CastsToUuid(id.value)
            && posts.pgRows == PgUpdateRows(old(posts.pgRows), CanonUuid(id.value), updated)
            && posts.imageRows == RemoveImagesOf(old(posts.imageRows), CanonUuid(id.value))
                                  + ImageRowsFor(CanonUuid(id.value), updated.images)
            && posts.sqliteRows == old(posts.sqliteRows))
      && (!posts.usePostgreSQL ==>
            posts.sqliteRows == SqliteRemove(old(posts.sqliteRows), id.value)
              + [ToSqliteRow(id.value, updated, updated.authorId.value, updated.createdAt.value)]
            && posts.pgRows == old(posts.pgRows) && posts.imageRows == old(posts.imageRows))
  {
    if id.None? {
      return Response(BadRequest, ErrorBody(PostIdRequiredMessage));
    }
    var existing := posts.GetPostById(id.value);
    if existing.Err? {
      return Response(InternalServerError, Unhandled);
    }
    if existing.value.None? {
      return Response(NotFound, ErrorBody(PostNotFoundMessage));
    }
    if body.None? {
      return Response(BadRequest, FailureBody(InvalidBodyPrefix));
    }
    var req := body.value;
    var validationError := ValidateCreatePostRequest(req, isInstant);
    if validationError.Some? {
      return Response(BadRequest, ErrorBody(validationError.value));
    }
    var updated := UpdatedPost(existing.value.value, req, id.value);
    var err := posts.UpdatePost(id.value, updated);
    if err.Some? {
      return Response(BadRequest, FailureBody(InvalidBodyPrefix));
    }
    return Response(OK, UpdatedPostBody(updated));
  }

  /** DELETE /posts/{id}: 404 when no post has the id; otherwise the post is
      gone afterwards, every other key reads back as before, and the answer
      names the id. */
  method DeletePost(posts: PostRepository, id: Option<string>) returns (resp: Response)
    requires posts.Valid()
    modifies posts
    ensures posts.Valid()
    ensures id.None? ==> resp == Response(BadRequest, ErrorBody(PostIdRequiredMessage)) && unchanged(posts)
    ensures id.Some? && old(posts.Lookup(id.value)).Err? ==> resp == Response(InternalServerError, Unhandled) && unchanged(posts)
    ensures id.Some? && old(posts.Lookup(id.value)) == Ok(None) ==>
      resp == Response(NotFound, ErrorBody(PostNotFoundMessage)) && unchanged(posts)
    ensures id.Some? && old(posts.Lookup(id.value)).Ok? && old(posts.Lookup(id.value)).value.Some? ==>
      && resp == Response(OK, DeletedBody(PostDeletedMessage, id.value))
      && posts.Lookup(id.value) == Ok(None)
      && (forall other :: posts.Key(other) != posts.Key(id.value) ==> posts.Lookup(other) == old(posts.Lookup(other)))
      && (posts.usePostgreSQL ==>
            CastsToUuid(id.value)
            && posts.pgRows == PgRemove(old(posts.pgRows), CanonUuid(id.value))
            && posts.imageRows == RemoveImagesOf(old(posts.imageRows), CanonUuid(id.value)))
      && (!posts.usePostgreSQL ==> posts.sqliteRows == SqliteRemove(old(posts.sqliteRows), id.value))
  {
    if id.None? {
      return Response(BadRequest, ErrorBody(PostIdRequiredMessage));
    }
    var existing := posts.GetPostById(id.value);
    if existing.Err? {
      return Response(InternalServerError, Unhandled);
    }
    if existing.value.None? {
      return Response(NotFound, ErrorBody(PostNotFoundMessage));
    }
    var err := posts.DeletePostById(id.value);
    if err.Some? {
      return Response(InternalServerError, Unhandled);
    }
    return Response(OK, DeletedBody(PostDeletedMessage, id.value));
  }
}
