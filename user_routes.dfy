/** The /users routes: POST /users with its ordered checks, GET /users and
    GET /users/{username}. Each handler is a method over the user table; the
    creation time Instant.now() is the parameter `now`, and a request body
    that cannot be received is `None`. */
module UserRoutes {
  import opened Common
  import opened Models
  import opened Http
  import opened UserRepo

  const UsernameBlankMessage: string := "Username cannot be blank"
  const UsernameTooLongMessage: string := "Username must be 100 characters or less"
  const AgeRangeMessage: string := "Age must be between 1 and 150"
  const UsernameRequiredMessage: string := "Username parameter is required"
  const CreateUserFailurePrefix: string := "Failed to create user: "
  const FetchUsersFailurePrefix: string := "Failed to fetch users: "
  const FetchUserFailurePrefix: string := "Failed to fetch user: "

  const MaxUsernameLength: nat := 100

  function DuplicateUsernameMessage(username: string): string {
    "Username '" + username + "' already exists"
  }

  function UserNotFoundMessage(username: string): string {
    "User '" + username + "' not found"
  }

  /** The two username checks that run before the table is consulted. */
  function UsernameRejection(req: CreateUserRequest): Option<Response> {
    if IsBlank(req.username) then Some(Response(BadRequest, ErrorBody(UsernameBlankMessage)))
    else if |req.username| > MaxUsernameLength then Some(Response(BadRequest, ErrorBody(UsernameTooLongMessage)))
    else None
  }

  /** Every check of POST /users in its order, given whether the username is
      already taken: blank, too long, taken, age out of range. */
  function CreateUserRejection(req: CreateUserRequest, taken: bool): Option<Response> {
    if UsernameRejection(req).Some? then UsernameRejection(req)
    else if taken then Some(Response(Conflict, ErrorBody(DuplicateUsernameMessage(req.username))))
    else if req.age.Some? && (req.age.value < 1 || req.age.value > 150) then
      Some(Response(BadRequest, ErrorBody(AgeRangeMessage)))
    else None
  }

  /** A request passes exactly when its username is non-blank, at most 100
      characters and free, and its age, if any, is between 1 and 150. */
  lemma CreateUserAccepts(req: CreateUserRequest, taken: bool)
    ensures CreateUserRejection(req, taken).None? <==>
      !IsBlank(req.username) && |req.username| <= 100 && !taken
      && (req.age.None? || 1 <= req.age.value <= 150)
  {
  }

  /** The checks run in order: a taken username is reported as a conflict
      even when the age is also out of range, and a blank one as blank even
      when it is also taken. */
  lemma CreateUserCheckOrder(req: CreateUserRequest)
    ensures IsBlank(req.username) ==>
      CreateUserRejection(req, true) == Some(Response(BadRequest, ErrorBody(UsernameBlankMessage)))
    ensures !IsBlank(req.username) && |req.username| <= 100 ==>
      CreateUserRejection(req, true) == Some(Response(Conflict, ErrorBody(DuplicateUsernameMessage(req.username))))
  {
  }

  /** A username of 100 characters passes the length check; one of 101 fails it. */
  lemma UsernameLengthBoundary(req: CreateUserRequest, taken: bool)
    requires !IsBlank(req.username)
    ensures CreateUserRejection(req, taken) == Some(Response(BadRequest, ErrorBody(UsernameTooLongMessage)))
      <==> |req.username| > 100
  {
  }

  /** The user POST /users builds: the request's fields, score 0, the
      beginner title, no goodwill, created `now`. */
  function NewUser(req: CreateUserRequest, now: string): (u: User)
    ensures u.username == req.username && u.displayName == req.displayName && u.role == req.role
    ensures u.age == req.age && u.gender == req.gender && u.hasPets == req.hasPets
    ensures u.petTypes == req.petTypes && u.bio == req.bio
    ensures u.sustainabilityScore == 0 && u.greenTitle == Beginner && u.goodwillPoints == 0
    ensures u.createdAt == Some(now)
    ensures TitleConsistent(u)
  {
    User(req.username, req.displayName, req.role, req.age, req.gender, req.hasPets, req.petTypes,
         0, Beginner, 0, req.bio, Some(now))
  }

  /** POST /users. With SQLite, userExists throws and the handler answers 500
      once the username checks have passed. */
  method CreateUser(users: UserRepository, body: Option<CreateUserRequest>, now: string) returns (resp: Response)
    modifies users
    ensures body.None? ==> resp == Response(InternalServerError, FailureBody(CreateUserFailurePrefix)) && unchanged(users)
    ensures body.Some? && UsernameRejection(body.value).Some? ==> resp == UsernameRejection(body.value).value && unchanged(users)
    ensures body.Some? && UsernameRejection(body.value).None? && !users.usePostgreSQL ==>
      resp == Response(InternalServerError, FailureBody(CreateUserFailurePrefix)) && unchanged(users)
    ensures body.Some? && users.usePostgreSQL && CreateUserRejection(body.value, Taken(old(users.rows), body.value.username)).Some? ==>
      resp == CreateUserRejection(body.value, Taken(old(users.rows), body.value.username)).value && unchanged(users)
    ensures body.Some? && users.usePostgreSQL && CreateUserRejection(body.value, Taken(old(users.rows), body.value.username)).None? ==>
      && users.rows == old(users.rows) + [ToRow(NewUser(body.value, now), now)]
      && resp == Response(Created, CreatedUserBody(CreateUserResponse(NewUser(body.value, now), UserCreatedMessage)))
    ensures DistinctUsernames(old(users.rows)) ==> DistinctUsernames(users.rows)
    ensures AllTitlesConsistent(old(users.rows)) ==> AllTitlesConsistent(users.rows)
  {
    if body.None? {
      return Response(InternalServerError, FailureBody(CreateUserFailurePrefix));
    }
    var req := body.value;
    if IsBlank(req.username) {
      return Response(BadRequest, ErrorBody(UsernameBlankMessage));
    }
    if |req.username| > MaxUsernameLength {
      return Response(BadRequest, ErrorBody(UsernameTooLongMessage));
    }
    var found := users.UserExists(req.username);
    if found.Err? {
      return Response(InternalServerError, FailureBody(CreateUserFailurePrefix));
    }
    if found.value {
      return Response(Conflict, ErrorBody(DuplicateUsernameMessage(req.username)));
    }
    if req.age.Some? && (req.age.value < 1 || req.age.value > 150) {
      return Response(BadRequest, ErrorBody(AgeRangeMessage));
    }
    var newUser := NewUser(req, now);
    var err := users.InsertUser(newUser, now);
    if err.Some? {
      return Response(InternalServerError, FailureBody(CreateUserFailurePrefix));
    }
    assert users.rows[|users.rows| - 1] == ToRow(newUser, now);
    return Response(Created, CreatedUserBody(CreateUserResponse(newUser, UserCreatedMessage)));
  }

  /** GET /users: every user with their number, or 500 when the table cannot be read. */
  method GetUsers(users: UserRepository) returns (resp: Response)
    ensures !users.usePostgreSQL ==> resp == Response(InternalServerError, FailureBody(FetchUsersFailurePrefix))
    ensures users.usePostgreSQL && DecodeAll(users.rows).Ok? ==>
      resp == Response(OK, UserListBody(UserListResponse(DecodeAll(users.rows).value, |users.rows|)))
    ensures users.usePostgreSQL && DecodeAll(users.rows).Err? ==>
      resp == Response(InternalServerError, FailureBody(FetchUsersFailurePrefix))
    ensures resp.status == OK ==> resp.body.userList.count == |resp.body.userList.users| == |users.rows|
  {
    var all := users.GetAllUsers();
    if all.Err? {
      return Response(InternalServerError, FailureBody(FetchUsersFailurePrefix));
    }
    return Response(OK, UserListBody(UserListResponse(all.value, |all.value|)));
  }

  /** GET /users/{username}: 400 for a missing or blank parameter, then the
      user, 404 when no row has the name, 500 when the table cannot be read. */
  method GetUser(users: UserRepository, username: Option<string>) returns (resp: Response)
    ensures username.None? || IsBlank(username.value) ==>
      resp == Response(BadRequest, ErrorBody(UsernameRequiredMessage))
    ensures username.Some? && !IsBlank(username.value) && !users.usePostgreSQL ==>
      resp == Response(InternalServerError, FailureBody(FetchUserFailurePrefix))
    ensures username.Some? && !IsBlank(username.value) && users.usePostgreSQL ==>
      resp == match FindUser(users.rows, username.value)
        case Ok(Some(u)) => Response(OK, UserBody(u))
        case Ok(None) => Response(NotFound, ErrorBody(UserNotFoundMessage(username.value)))
        case Err(_) => Response(InternalServerError, FailureBody(FetchUserFailurePrefix))
    ensures resp.status == NotFound <==>
      username.Some? && !IsBlank(username.value) && users.usePostgreSQL && !Taken(users.rows, username.value)
    ensures resp.status == OK ==> resp.body.user.username == username.value
  {
    if username.None? || IsBlank(username.value) {
      return Response(BadRequest, ErrorBody(UsernameRequiredMessage));
    }
    var name := username.value;
    var found := users.GetUserByUsername(name);
    FindUserSpec(users.rows, name);
    match found {
      case Ok(Some(u)) =>
        return Response(OK, UserBody(u));
      case Ok(None) =>
        return Response(NotFound, ErrorBody(UserNotFoundMessage(name)));
      case Err(_) =>
        return Response(InternalServerError, FailureBody(FetchUserFailurePrefix));
    }
  }
}
