/** UserRepository: the users table of the PostgreSQL backend, kept here as
    a sequence of rows in insertion order. Every operation first checks the
    backend; with SQLite it throws an UnsupportedOperationException and
    touches nothing. Enumerations are stored by name, absent values as SQL
    NULL. The table has no uniqueness constraint on usernames. */
module UserRepo {
  import opened Common
  import opened Models

  /** The exceptions a user-table operation can throw. `BadEnumName` is the
      IllegalArgumentException of `valueOf` on a stored name it does not know. */
  datatype UserRepoError = Unsupported | BadEnumName(name: string)

  /** One row of the users table, column by column. */
  datatype UserRow = UserRow(
    username: string,
    displayName: Option<string>,
    role: string,
    bio: Option<string>,
    age: Option<int>,
    gender: Option<string>,
    hasPets: bool,
    petTypes: seq<string>,
    sustainabilityScore: int,
    greenTitle: string,
    goodwillPoints: int,
    createdAt: string)

  /** The row insertUser writes for `user`: every field verbatim, the title
      as stored on the user (not recomputed), and the creation time falling
      back to `now`. */
  function ToRow(user: User, now: string): (row: UserRow)
    ensures row.username == user.username && row.hasPets == user.hasPets && row.petTypes == user.petTypes
    ensures row.sustainabilityScore == user.sustainabilityScore && row.goodwillPoints == user.goodwillPoints
    ensures row.role == RoleName(user.role) && row.greenTitle == TitleName(user.greenTitle)
    ensures row.age == user.age && row.displayName == user.displayName && row.bio == user.bio
    ensures row.gender.None? <==> user.gender.None?
    ensures user.gender.Some? ==> row.gender == Some(GenderName(user.gender.value))
    ensures row.createdAt == if user.createdAt.Some? then user.createdAt.value else now
  {
    UserRow(
      user.username, user.displayName, RoleName(user.role), user.bio, user.age,
      if user.gender.Some? then Some(GenderName(user.gender.value)) else None,
      user.hasPets, user.petTypes, user.sustainabilityScore, TitleName(user.greenTitle),
      user.goodwillPoints,
      if user.createdAt.Some? then user.createdAt.value else now)
  }

  /** resultSetToUser: decodes the gender first, then the role, then the
      title; the first unknown name throws. The age is read with getInt,
      which yields 0 for NULL, and wasNull then turns it back into absent. */
  function ResultSetToUser(row: UserRow): Result<User, UserRepoError> {
    var gender := if row.gender.Some? then GenderValueOf(row.gender.value) else None;
    if row.gender.Some? && gender.None? then Err(BadEnumName(row.gender.value))
    else
      var ageInt := if row.age.Some? then row.age.value else 0;
      var age := if row.age.None? then None else Some(ageInt);
      var role := RoleValueOf(row.role);
      if role.None? then Err(BadEnumName(row.role))
      else
        var title := TitleValueOf(row.greenTitle);
        if title.None? then Err(BadEnumName(row.greenTitle))
        else Ok(User(row.username, row.displayName, role.value, age, gender, row.hasPets, row.petTypes,
                     row.sustainabilityScore, title.value, row.goodwillPoints, row.bio, Some(row.createdAt)))
  }

  /** A user written by insertUser reads back as itself, with its creation
      time filled in; an absent age or gender comes back absent. */
  lemma UserRowRoundTrip(user: User, now: string)
    ensures ResultSetToUser(ToRow(user, now))
      == Ok(user.(createdAt := Some(if user.createdAt.Some? then user.createdAt.value else now)))
  {
  }

  /** A row decodes exactly when its stored names are known. */
  predicate WellFormedRow(row: UserRow) {
    RoleValueOf(row.role).Some? && TitleValueOf(row.greenTitle).Some?
    && (row.gender.Some? ==> GenderValueOf(row.gender.value).Some?)
  }

  lemma ResultSetToUserFailsIff(row: UserRow)
    ensures ResultSetToUser(row).Ok? <==> WellFormedRow(row)
  {
  }

  /** SELECT ... WHERE username = ? followed by one rs.next(): the first
      matching row, decoded, or absent. */
  function FindUser(rows: seq<UserRow>, username: string): Result<Option<User>, UserRepoError> {
    if rows == [] then Ok(None)
    else if rows[0].username == username then
      match ResultSetToUser(rows[0])
      case Ok(u) => Ok(Some(u))
      case Err(e) => Err(e)
    else FindUser(rows[1..], username)
  }

  /** The lookup finds a user exactly when some row has that username, and
      what it finds has that username. */
  lemma {:induction false} FindUserSpec(rows: seq<UserRow>, username: string)
    ensures FindUser(rows, username) == Ok(None) <==> forall i :: 0 <= i < |rows| ==> rows[i].username != username
    ensures FindUser(rows, username).Ok? && FindUser(rows, username).value.Some? ==>
      FindUser(rows, username).value.value.username == username
  {
    if rows != [] {
      FindUserSpec(rows[1..], username);
      if rows[0].username != username {
        assert forall i :: 1 <= i < |rows| ==> rows[i] == rows[1..][i - 1];
      }
    }
  }

  /** SELECT COUNT(*) FROM users WHERE username = ? */
  function CountUsername(rows: seq<UserRow>, username: string): nat {
    if rows == [] then 0
    else (if rows[0].username == username then 1 else 0) + CountUsername(rows[1..], username)
  }

  lemma {:induction false} CountPositiveIff(rows: seq<UserRow>, username: string)
    ensures CountUsername(rows, username) > 0 <==> exists i :: 0 <= i < |rows| && rows[i].username == username
  {
    if rows != [] {
      CountPositiveIff(rows[1..], username);
      if CountUsername(rows[1..], username) > 0 {
        var i :| 0 <= i < |rows[1..]| && rows[1..][i].username == username;
        assert rows[i + 1].username == username;
      }
      if exists i :: 0 <= i < |rows| && rows[i].username == username {
        var i :| 0 <= i < |rows| && rows[i].username == username;
        if i > 0 {
          assert rows[1..][i - 1].username == username;
        }
      }
    }
  }

  lemma {:induction false} CountAppend(rows: seq<UserRow>, row: UserRow, username: string)
    ensures CountUsername(rows + [row], username)
      == CountUsername(rows, username) + (if row.username == username then 1 else 0)
  {
    if rows == [] {
      assert rows + [row] == [row];
    } else {
      assert (rows + [row])[1..] == rows[1..] + [row];
      CountAppend(rows[1..], row, username);
    }
  }

  /** The UPDATE of addSustainabilityPoints, one row at a time: a matching
      row gets score + points and the title of the CASE expression, which is
      evaluated on the incremented score. */
  function CaseTitle(score: int): string {
    if score >= 1000 then "PLANET_CHAMPION"
    else if score >= 500 then "SUSTAINABILITY_HERO"
    else if score >= 250 then "GREEN_WARRIOR"
    else if score >= 100 then "ECO_CONSCIOUS"
    else "BEGINNER"
  }

  /** The SQL CASE computes exactly the stored name of calculateGreenTitle. */
  lemma CaseTitleIsCalculateGreenTitle(score: int)
    ensures CaseTitle(score) == TitleName(CalculateGreenTitle(score))
  {
  }

  function AddScoreToRow(row: UserRow, username: string, points: int): UserRow {
    if row.username == username then
      row.(sustainabilityScore := row.sustainabilityScore + points,
           greenTitle := CaseTitle(row.sustainabilityScore + points))
    else row
  }

  function AddScoreToRows(rows: seq<UserRow>, username: string, points: int): seq<UserRow> {
    seq(|rows|, i requires 0 <= i < |rows| => AddScoreToRow(rows[i], username, points))
  }

  function AddGoodwillToRow(row: UserRow, username: string, points: int): UserRow {
    if row.username == username then row.(goodwillPoints := row.goodwillPoints + points) else row
  }

  function AddGoodwillToRows(rows: seq<UserRow>, username: string, points: int): seq<UserRow> {
    seq(|rows|, i requires 0 <= i < |rows| => AddGoodwillToRow(rows[i], username, points))
  }

  /** Some row of the table has this username. */
  predicate Taken(rows: seq<UserRow>, username: string) {
    exists i :: 0 <= i < |rows| && rows[i].username == username
  }

  /** No two rows share a username; the table itself does not enforce it. */
  predicate DistinctUsernames(rows: seq<UserRow>) {
    forall i, j :: 0 <= i < j < |rows| ==> rows[i].username != rows[j].username
  }

  /** The row form of greenTitle == calculateGreenTitle(sustainabilityScore). */
  predicate RowTitleConsistent(row: UserRow) {
    row.greenTitle == TitleName(CalculateGreenTitle(row.sustainabilityScore))
  }

  predicate AllTitlesConsistent(rows: seq<UserRow>) {
    forall i :: 0 <= i < |rows| ==> RowTitleConsistent(rows[i])
  }

  /** Adding sustainability points to a user: every matching row gets the
      new score and the title of the new score; every other row, and every
      other column, stays as it was. */
  lemma AddScoreEffect(rows: seq<UserRow>, username: string, points: int)
    ensures |AddScoreToRows(rows, username, points)| == |rows|
    ensures forall i :: 0 <= i < |rows| && rows[i].username == username ==>
      && AddScoreToRows(rows, username, points)[i].sustainabilityScore == rows[i].sustainabilityScore + points
      && AddScoreToRows(rows, username, points)[i].greenTitle
           == TitleName(CalculateGreenTitle(rows[i].sustainabilityScore + points))
      && AddScoreToRows(rows, username, points)[i]
           == rows[i].(sustainabilityScore := AddScoreToRows(rows, username, points)[i].sustainabilityScore,
                       greenTitle := AddScoreToRows(rows, username, points)[i].greenTitle)
    ensures forall i :: 0 <= i < |rows| && rows[i].username != username ==>
      AddScoreToRows(rows, username, points)[i] == rows[i]
  {
    forall i | 0 <= i < |rows| && rows[i].username == username {
      CaseTitleIsCalculateGreenTitle(rows[i].sustainabilityScore + points);
    }
  }

  /** Adding goodwill points changes the goodwill of the matching rows and
      nothing else; score and title are left as they were. */
  lemma AddGoodwillEffect(rows: seq<UserRow>, username: string, points: int)
    ensures |AddGoodwillToRows(rows, username, points)| == |rows|
    ensures forall i :: 0 <= i < |rows| && rows[i].username == username ==>
      AddGoodwillToRows(rows, username, points)[i] == rows[i].(goodwillPoints := rows[i].goodwillPoints + points)
    ensures forall i :: 0 <= i < |rows| && rows[i].username != username ==>
      AddGoodwillToRows(rows, username, points)[i] == rows[i]
  {
  }

  /** Neither point update touches anything when no row has the username. */
  lemma PointUpdatesUnknownUser(rows: seq<UserRow>, username: string, points: int)
    requires forall i :: 0 <= i < |rows| ==> rows[i].username != username
    ensures AddScoreToRows(rows, username, points) == rows
    ensures AddGoodwillToRows(rows, username, points) == rows
  {
  }

  /** Both point updates keep every row's title consistent with its score. */
  lemma PointUpdatesKeepTitles(rows: seq<UserRow>, username: string, points: int)
    requires AllTitlesConsistent(rows)
    ensures AllTitlesConsistent(AddScoreToRows(rows, username, points))
    ensures AllTitlesConsistent(AddGoodwillToRows(rows, username, points))
  {
    AddScoreEffect(rows, username, points);
  }

  /** The list getAllUsers builds: every row decoded, in order; the first
      row that does not decode aborts the whole list. */
  function DecodeAll(rows: seq<UserRow>): Result<seq<User>, UserRepoError> {
    MapAll(rows, ResultSetToUser)
  }

  class UserRepository {
    /** DatabaseFactory.isPostgreSQL at construction time. */
    const usePostgreSQL: bool
    var rows: seq<UserRow>

    constructor(usePostgreSQL: bool, rows: seq<UserRow>)
      ensures this.usePostgreSQL == usePostgreSQL && this.rows == rows
    {
      this.usePostgreSQL := usePostgreSQL;
      this.rows := rows;
    }

    /** insertUser: appends the user's row, without a duplicate check. */
    method InsertUser(user: User, now: string) returns (err: Option<UserRepoError>)
      modifies this
      ensures !usePostgreSQL ==> err == Some(Unsupported) && rows == old(rows)
      ensures usePostgreSQL ==> err == None && rows == old(rows) + [ToRow(user, now)]
    {
      if !usePostgreSQL {
        return Some(Unsupported);
      }
      rows := rows + [ToRow(user, now)];
      return None;
    }

    method GetUserByUsername(username: string) returns (r: Result<Option<User>, UserRepoError>)
      ensures !usePostgreSQL ==> r == Err(Unsupported)
      ensures usePostgreSQL ==> r == FindUser(rows, username)
    {
      if !usePostgreSQL {
        return Err(Unsupported);
      }
      return FindUser(rows, username);
    }

    /** getAllUsers: the while loop over the result set. */
    method GetAllUsers() returns (r: Result<seq<User>, UserRepoError>)
      ensures !usePostgreSQL ==> r == Err(Unsupported)
      ensures usePostgreSQL ==> r == DecodeAll(rows)
    {
      if !usePostgreSQL {
        return Err(Unsupported);
      }
      var all := rows;
      var users: seq<User> := [];
      var i := 0;
      while i < |all|
        invariant 0 <= i <= |all|
        invariant MapAll(all[..i], ResultSetToUser) == Ok(users)
      {
        MapAllSnoc(all, ResultSetToUser, i, users);
        var decoded := ResultSetToUser(all[i]);
        if decoded.Err? {
          MapAllErrPersists(all, ResultSetToUser, i + 1);
          return Err(decoded.error);
        }
        users := users + [decoded.value];
        i := i + 1;
      }
      assert all[..i] == all;
      return Ok(users);
    }

    method UserExists(username: string) returns (r: Result<bool, UserRepoError>)
      ensures !usePostgreSQL ==> r == Err(Unsupported)
      ensures usePostgreSQL ==> r == Ok(Taken(rows, username))
    {
      if !usePostgreSQL {
        return Err(Unsupported);
      }
      CountPositiveIff(rows, username);
      return Ok(CountUsername(rows, username) > 0);
    }

    method AddSustainabilityPoints(username: string, points: int) returns (err: Option<UserRepoError>)
      modifies this
      ensures !usePostgreSQL ==> err == Some(Unsupported) && rows == old(rows)
      ensures usePostgreSQL ==> err == None && rows == AddScoreToRows(old(rows), username, points)
    {
      if !usePostgreSQL {
        return Some(Unsupported);
      }
      rows := AddScoreToRows(rows, username, points);
      return None;
    }

    method AddGoodwillPoints(username: string, points: int) returns (err: Option<UserRepoError>)
      modifies this
      ensures !usePostgreSQL ==> err == Some(Unsupported) && rows == old(rows)
      ensures usePostgreSQL ==> err == None && rows == AddGoodwillToRows(old(rows), username, points)
    {
      if !usePostgreSQL {
        return Some(Unsupported);
      }
      rows := AddGoodwillToRows(rows, username, points);
      return None;
    }
  }

  /** After insertUser(u), userExists(u.username) is true. */
  lemma ExistsAfterInsert(rows: seq<UserRow>, user: User, now: string)
    ensures exists i :: 0 <= i < |rows + [ToRow(user, now)]| && (rows + [ToRow(user, now)])[i].username == user.username
  {
    assert (rows + [ToRow(user, now)])[|rows|].username == user.username;
  }
}
