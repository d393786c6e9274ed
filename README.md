# SusCommunity in Dafny

SusCommunity is a neighbourhood help board for Munich. Newcomers ("new
Muenchers") and locals ("old Muenchers") post requests and offers, and they
collect sustainability and goodwill points. This project models its core
logic in Dafny and proves properties of that model:

- **Shared models.** The user and post records with their defaults, the
  enums with their stored names, and the green-title rule
  (`calculateGreenTitle`) that maps a sustainability score to one of five
  titles.
- **Server.** The Ktor routes under `/posts` and `/users` are methods over
  the repositories. Each one returns the HTTP status and body it answers
  with, and states what it writes.
- **Repositories.** Each is a class whose fields are tables:
  - Users: one sequence of rows, PostgreSQL only. Under SQLite every
    operation throws.
  - Posts: two encodings. SQLite stores images comma-joined and
    `female_only` as 0/1. PostgreSQL stores a PostGIS point plus a
    `post_images` table with display orders.
- **Client.** The Compose screens' state as classes whose methods are the
  click callbacks:
  - the common app, the Android tabbed app and the web dashboard
  - the create form, the feed filter and the map
  - the pure view logic of the saved tab, the profile screen and the
    details screen

`Instant.parse`, `UUID.randomUUID()` and `Instant.now()` become parameters:
a predicate `isInstant`, and `freshId` and `now`. The backend choice
(`DatabaseFactory.isPostgreSQL`) is a field of each repository. A request
body that cannot be received is `None`. An exception is a `Result` error.
An exception that escapes a handler is the server's default 500 answer
(`Unhandled`).

What is written here follows the code where the code and its comments
disagree. Two examples:
- The users table is reached only through PostgreSQL, so under SQLite both
  POST /posts and POST /users answer 500 once validation has passed.
- Under PostgreSQL the author id, a username, goes through a `uuid` cast. So
  POST /posts fails with 500 unless the username is uuid text
  (`PostRepo.ShortTextIsNotUuid`).
- Under PostgreSQL every id is bound as `?::uuid`. The table therefore holds
  canonical uuid text (lower case, 8-4-4-4-12), and a query matches by uuid
  value: an upper-case or braced spelling of a stored id finds the same
  post, and reads back in canonical form.

## Model

| member | source | states |
|---|---|---|
| Models.CalculateGreenTitle | shared/src/commonMain/kotlin/com/sustech/sus_community/models/User.kt:81-89 | each title holds exactly on its score range: 1000 and up, 500-999, 250-499, 100-249, below 100 |
| Models.GreenTitleBoundaries | shared/src/commonMain/kotlin/com/sustech/sus_community/models/User.kt:29-35 | lower cut-offs are inclusive (99/100, 249/250, 499/500, 999/1000); negative scores give BEGINNER |
| Models.GreenTitleMonotone | shared/src/commonMain/kotlin/com/sustech/sus_community/models/User.kt:29-35 | a higher score never gives an earlier title |
| Models.NextTitle | shared/src/commonMain/kotlin/com/sustech/sus_community/models/User.kt:29-35 | every title but PLANET_CHAMPION has a successor one rank up |
| Models.IsElderly | shared/src/commonMain/kotlin/com/sustech/sus_community/models/User.kt:94-96 | true exactly when an age is present and at least 65 |
| Models.DefaultUser | shared/src/commonMain/kotlin/com/sustech/sus_community/models/User.kt:58-77 | a user built from a username alone: NEW_MUENCHER, score 0, BEGINNER, no goodwill, no pets, nothing optional |
| Models.DefaultUserTitleConsistent | shared/src/commonMain/kotlin/com/sustech/sus_community/models/User.kt:70-71 | the default title agrees with calculateGreenTitle(0) |
| Models.RoleValueOf | shared/src/commonMain/kotlin/com/sustech/sus_community/models/User.kt:10-13 | valueOf finds the role with that name, and only it |
| Models.GenderValueOf | shared/src/commonMain/kotlin/com/sustech/sus_community/models/User.kt:19-23 | valueOf finds the gender with that name, and only it |
| Models.TitleValueOf | shared/src/commonMain/kotlin/com/sustech/sus_community/models/User.kt:29-35 | valueOf finds the title with that name, and only it |
| Models.PostTagsExactlyEight | shared/src/commonMain/kotlin/com/sustech/sus_community/models/Post.kt:10-19 | the server PostTag has eight distinct values, and every tag is one of them |
| Models.TagValueOf | shared/src/commonMain/kotlin/com/sustech/sus_community/models/Post.kt:10-19 | valueOf finds the tag with that name, and only it |
| Models.PostStatusesExactlyFour | shared/src/commonMain/kotlin/com/sustech/sus_community/models/Post.kt:70-75 | PostStatus has four distinct values, and every status is one of them |
| Models.StatusValueOf | shared/src/commonMain/kotlin/com/sustech/sus_community/models/Post.kt:70-75 | valueOf finds the status with that name, and only it |
| Models.DefaultLocation | shared/src/commonMain/kotlin/com/sustech/sus_community/models/Post.kt:29-33 | a location built without an address has none |
| Models.DefaultPost | shared/src/commonMain/kotlin/com/sustech/sus_community/models/Post.kt:52-64 | a post built without the defaulted fields: no id, author or creation time; OPEN, not female-only, no images |
| Models.DefaultCreatePostResponse | shared/src/commonMain/kotlin/com/sustech/sus_community/models/Post.kt:107-110 | the response message defaults to "Post created successfully" |
| Models.ListOf | shared/src/commonMain/kotlin/com/sustech/sus_community/models/Post.kt:119-122 | a post list response pairs the posts with their number |
| Models.DefaultCreatePostRequest | shared/src/commonMain/kotlin/com/sustech/sus_community/models/Requests.kt:18-27 | authorId must be given; femaleOnly defaults to false and images to none |
| Models.DefaultCreateUserRequest | shared/src/commonMain/kotlin/com/sustech/sus_community/models/Requests.kt:42-51 | only the username must be given; NEW_MUENCHER, no pets, everything optional absent |
| PostValidation.ValidateCreatePostRequest | server/src/main/kotlin/com/sustech/sus_community/routes/PostRoutes.kt:309-365 | the early-return method with its image loop computes the validator's result, rule after rule |
| PostValidation.ValidationIsFirstFailingRule | server/src/main/kotlin/com/sustech/sus_community/routes/PostRoutes.kt:309-365 | the result is the message of the first failing rule in the fixed order author, title, description, latitude, longitude, due date, image count, each URL |
| PostValidation.ValidationPassesIff | server/src/main/kotlin/com/sustech/sus_community/routes/PostRoutes.kt:309-365 | null is returned exactly when every rule holds |
| PostValidation.FirstFailing | server/src/main/kotlin/com/sustech/sus_community/routes/PostRoutes.kt:309-365 | fail-fast evaluation returns None exactly when all rules pass, else a failing rule's message with all earlier rules passing |
| PostValidation.TitleLengthBoundary | server/src/main/kotlin/com/sustech/sus_community/routes/PostRoutes.kt:316-321 | once author and title are non-blank, the title-length message is the answer exactly when the title is longer than 200 characters |
| PostValidation.DescriptionLengthBoundary | server/src/main/kotlin/com/sustech/sus_community/routes/PostRoutes.kt:324-329 | once the rules before it pass, the description-length message is the answer exactly when the description is longer than 2000 characters |
| PostValidation.CoordinateBounds | server/src/main/kotlin/com/sustech/sus_community/routes/PostRoutes.kt:332-337 | once the text rules pass, the latitude message is the answer exactly outside [-90, 90]; with a valid latitude, the longitude message exactly outside [-180, 180] |
| PostValidation.ImageCountLimit | server/src/main/kotlin/com/sustech/sus_community/routes/PostRoutes.kt:350-352 | once every earlier rule passes, the image-count message is the answer exactly for more than ten images, whatever the URLs |
| PostValidation.FirstImageErrorMessages | server/src/main/kotlin/com/sustech/sus_community/routes/PostRoutes.kt:355-362 | the image loop reports nothing, the blank-URL message or the scheme message |
| PostValidation.ImageUrlRule | server/src/main/kotlin/com/sustech/sus_community/routes/PostRoutes.kt:356-361 | a blank URL is reported as blank; a non-blank one passes exactly when it starts with http:// or https:// |
| PostRoutes.NewPost | server/src/main/kotlin/com/sustech/sus_community/routes/PostRoutes.kt:102-114 | the created post copies the request, takes the fresh id and now, keeps the username as author, and is OPEN |
| PostRoutes.UpdatedPost | server/src/main/kotlin/com/sustech/sus_community/routes/PostRoutes.kt:233-245 | the stored post gets the request's fields under the path id, keeping its author, creation time and status |
| PostRoutes.PgInsertThenFind | server/src/main/kotlin/com/sustech/sus_community/database/PostRepository.kt:171-253 | a post inserted with PostgreSQL is found again by its id with id and author id in canonical uuid text; a post whose ids are already canonical comes back exactly as given |
| PostRoutes.CreatePost | server/src/main/kotlin/com/sustech/sus_community/routes/PostRoutes.kt:80-139 | 400 with the validator's message; 500 under SQLite; 400 for an unknown author; 500 for an author that is not uuid text; else 201 with one post row and its image rows added, and the post found under the fresh id with the author id in canonical form |
| PostRoutes.ListPosts | server/src/main/kotlin/com/sustech/sus_community/routes/PostRoutes.kt:157-166 | 200 with every stored post and a count equal to their number |
| PostRoutes.GetPost | server/src/main/kotlin/com/sustech/sus_community/routes/PostRoutes.kt:173-193 | 400 without an id; 404 exactly when the id is well-formed for the backend and no post has it (with PostgreSQL, no post has that uuid value); 200 with the post carrying the id's key |
| PostRoutes.UpdatePostRoute | server/src/main/kotlin/com/sustech/sus_community/routes/PostRoutes.kt:202-257 | 404 before the body is read; 400 for a bad body or a failing rule, nothing written; else 200 and the tables rewritten as updatePost does, under the uuid's canonical key |
| PostRoutes.DeletePost | server/src/main/kotlin/com/sustech/sus_community/routes/PostRoutes.kt:264-291 | 404 for a missing post; else 200 with the id, the post and its images removed, the post no longer found, and every id with another key found as before |
| UserRoutes.CreateUserAccepts | server/src/main/kotlin/com/sustech/sus_community/routes/UserRoutes.kt:61-84 | a request passes exactly when the username is non-blank, at most 100 characters and free, and any age is in 1..150 |
| UserRoutes.CreateUserCheckOrder | server/src/main/kotlin/com/sustech/sus_community/routes/UserRoutes.kt:61-84 | blank first, then length, then a taken name (409) before the age, so a duplicate with a bad age gives 409 |
| UserRoutes.UsernameLengthBoundary | server/src/main/kotlin/com/sustech/sus_community/routes/UserRoutes.kt:65-68 | a 101-character username is rejected with 400 whatever else holds; 100 characters pass the length check |
| UserRoutes.NewUser | server/src/main/kotlin/com/sustech/sus_community/routes/UserRoutes.kt:87-100 | the new user copies the request and starts with score 0, BEGINNER and no goodwill, so its title is consistent |
| UserRoutes.CreateUser | server/src/main/kotlin/com/sustech/sus_community/routes/UserRoutes.kt:56-120 | each rejection leaves the table unchanged; under SQLite 500; on success exactly one row is appended; distinct usernames and consistent titles are preserved |
| UserRoutes.GetUsers | server/src/main/kotlin/com/sustech/sus_community/routes/UserRoutes.kt:133-150 | 200 with every user and their number, or 500 when the table cannot be read |
| UserRoutes.GetUser | server/src/main/kotlin/com/sustech/sus_community/routes/UserRoutes.kt:160-187 | 400 for a missing or blank name; 404 exactly when no row has it; 200 with the user of that name |
| UserRepo.ToRow | server/src/main/kotlin/com/sustech/sus_community/database/UserRepository.kt:39-67 | the inserted row holds the user's fields verbatim (title not recomputed), absent age and gender as NULL, createdAt defaulting to now |
| UserRepo.UserRowRoundTrip | server/src/main/kotlin/com/sustech/sus_community/database/UserRepository.kt:214-242 | a user written by insertUser reads back as itself, with its creation time filled in |
| UserRepo.ResultSetToUserFailsIff | server/src/main/kotlin/com/sustech/sus_community/database/UserRepository.kt:214-242 | a row decodes exactly when its stored enum names are known |
| UserRepo.FindUserSpec | server/src/main/kotlin/com/sustech/sus_community/database/UserRepository.kt:77-95 | the lookup finds nothing exactly when no row has the username, and what it finds has that username |
| UserRepo.CountPositiveIff | server/src/main/kotlin/com/sustech/sus_community/database/UserRepository.kt:196-209 | COUNT(*) > 0 exactly when some row has the username |
| UserRepo.CaseTitleIsCalculateGreenTitle | server/src/main/kotlin/com/sustech/sus_community/database/UserRepository.kt:139-151 | the SQL CASE on the incremented score stores exactly calculateGreenTitle's name |
| UserRepo.AddScoreEffect | server/src/main/kotlin/com/sustech/sus_community/database/UserRepository.kt:139-151 | matching rows get score old+p and the title of old+p; other rows are unchanged |
| UserRepo.AddGoodwillEffect | server/src/main/kotlin/com/sustech/sus_community/database/UserRepository.kt:176-181 | matching rows get goodwill old+p, score and title untouched; other rows are unchanged |
| UserRepo.PointUpdatesUnknownUser | server/src/main/kotlin/com/sustech/sus_community/database/UserRepository.kt:150 | neither point update changes anything for an unknown username |
| UserRepo.PointUpdatesKeepTitles | server/src/main/kotlin/com/sustech/sus_community/database/UserRepository.kt:139-151 | both point updates preserve "every title matches its score" |
| Common.MapAll | server/src/main/kotlin/com/sustech/sus_community/database/UserRepository.kt:115-121 | decoding a listing row by row gives every row decoded, in order and one per row, or the error of a row that does not decode |
| Common.MapAllErrPersists | server/src/main/kotlin/com/sustech/sus_community/database/UserRepository.kt:118-120 | once a row fails to decode, the whole listing fails with that error whatever rows follow |
| UserRepo.ExistsAfterInsert | server/src/main/kotlin/com/sustech/sus_community/database/UserRepository.kt:196-209 | after insertUser(u), some row has u's username |
| UserRepo.UserRepository.InsertUser | server/src/main/kotlin/com/sustech/sus_community/database/UserRepository.kt:25-68 | under SQLite throws and changes nothing; else appends the user's row |
| UserRepo.UserRepository.GetUserByUsername | server/src/main/kotlin/com/sustech/sus_community/database/UserRepository.kt:77-95 | under SQLite throws; else the first row with the username, decoded |
| UserRepo.UserRepository.GetAllUsers | server/src/main/kotlin/com/sustech/sus_community/database/UserRepository.kt:102-123 | the result-set loop computes the decoded table |
| UserRepo.UserRepository.UserExists | server/src/main/kotlin/com/sustech/sus_community/database/UserRepository.kt:196-209 | under SQLite throws; else true exactly when some row has the username |
| UserRepo.UserRepository.AddSustainabilityPoints | server/src/main/kotlin/com/sustech/sus_community/database/UserRepository.kt:131-162 | under SQLite throws and changes nothing; else the table becomes the single UPDATE's result |
| UserRepo.UserRepository.AddGoodwillPoints | server/src/main/kotlin/com/sustech/sus_community/database/UserRepository.kt:170-188 | under SQLite throws and changes nothing; else the table becomes the single UPDATE's result |
| UserRepo.UserRepository.constructor | server/src/main/kotlin/com/sustech/sus_community/database/UserRepository.kt:17-20 | a repository over the given table and backend |
| PostRepo.ShortTextIsNotUuid | server/src/main/kotlin/com/sustech/sus_community/database/PostRepository.kt:175 | text shorter than 32 characters never casts to uuid |
| PostRepo.UuidDigitsLowerHex | server/src/main/kotlin/com/sustech/sus_community/database/PostRepository.kt:175 | the value of castable uuid text is 32 lower-case hex digits |
| PostRepo.HyphenateDigits | server/src/main/kotlin/com/sustech/sus_community/database/PostRepository.kt:175 | canonical 8-4-4-4-12 text of 32 lower-case hex digits casts to uuid and denotes those digits |
| PostRepo.CanonUuidFacts | server/src/main/kotlin/com/sustech/sus_community/database/PostRepository.kt:175 | what `::uuid` stores is canonical and denotes the same uuid; two texts store the same key exactly when they denote the same uuid |
| PostRepo.PgKeyFacts | server/src/main/kotlin/com/sustech/sus_community/database/PostRepository.kt:244 | a query's key exists exactly for castable text, is canonical, and two texts share it exactly when they denote the same uuid |
| PostRepo.SplitJoin | server/src/main/kotlin/com/sustech/sus_community/database/PostRepository.kt:42 | splitting a non-empty comma-joined list of comma-free URLs gives it back |
| PostRepo.ImagesRoundTrip | server/src/main/kotlin/com/sustech/sus_community/database/PostRepository.kt:42 | the SQLite images column round-trips when no URL has a comma and the list is not one blank URL (also line 368) |
| PostRepo.ImagesRoundTripCounterexamples | server/src/main/kotlin/com/sustech/sus_community/database/PostRepository.kt:42 | a URL with a comma comes back split, and a single blank URL comes back as no images (also line 368) |
| PostRepo.FemaleOnlyRoundTrip | server/src/main/kotlin/com/sustech/sus_community/database/PostRepository.kt:41 | the 1/0 column read back as "not 0" recovers the flag (also line 367) |
| PostRepo.ToSqliteRow | server/src/main/kotlin/com/sustech/sus_community/database/PostRepository.kt:32-46 | the SQLite row: enums by name, images comma-joined, femaleOnly as 1/0, coordinates as given |
| PostRepo.SqliteRoundTrip | server/src/main/kotlin/com/sustech/sus_community/database/PostRepository.kt:32-46 | a post stored in SQLite reads back as itself when its images survive the comma encoding (also lines 355-373) |
| PostRepo.MakePoint | server/src/main/kotlin/com/sustech/sus_community/database/PostRepository.kt:184-185 | the point's x is the longitude and y the latitude |
| PostRepo.PointRoundTrip | server/src/main/kotlin/com/sustech/sus_community/database/PostRepository.kt:184-185 | reading ST_Y as latitude and ST_X as longitude recovers the location untransposed (also lines 213-214, 267-270) |
| PostRepo.ToPgRow | server/src/main/kotlin/com/sustech/sus_community/database/PostRepository.kt:174-191 | the PostgreSQL row: id and author id in canonical uuid text, point built as (longitude, latitude), enums by name |
| PostRepo.ImageRowsFor | server/src/main/kotlin/com/sustech/sus_community/database/PostRepository.kt:195-205 | one image row per URL, in order, with display_order equal to its index |
| PostRepo.ImagesOfAfterRemove | server/src/main/kotlin/com/sustech/sus_community/database/PostRepository.kt:286 | deleting one post's images leaves every other post's images as they were |
| PostRepo.InsertByOrder | server/src/main/kotlin/com/sustech/sus_community/database/PostRepository.kt:216 | inserting a row gives the old rows plus that row, one longer |
| PostRepo.InsertByOrderSorted | server/src/main/kotlin/com/sustech/sus_community/database/PostRepository.kt:216 | inserting a row into rows sorted by display order keeps them sorted |
| PostRepo.SortByOrder | server/src/main/kotlin/com/sustech/sus_community/database/PostRepository.kt:216 | ORDER BY display_order yields a sorted permutation of the rows |
| PostRepo.SortByOrderIncreasing | server/src/main/kotlin/com/sustech/sus_community/database/PostRepository.kt:216 | rows already in increasing display order stay in place |
| PostRepo.ImageRowsRoundTrip | server/src/main/kotlin/com/sustech/sus_community/database/PostRepository.kt:195-205 | the images a post gets from the insert loop read back as the list it had, in order (also lines 216, 256-260) |
| PostRepo.PgRoundTrip | server/src/main/kotlin/com/sustech/sus_community/database/PostRepository.kt:171-206 | a post stored with PostgreSQL reads back as itself, location and images included, except that id and author id come back as canonical uuid text; canonical ids come back unchanged (also lines 255-280) |
| PostRepo.SqliteRemove | server/src/main/kotlin/com/sustech/sus_community/database/PostRepository.kt:114 | the rows without the id, every other row kept |
| PostRepo.PgRemove | server/src/main/kotlin/com/sustech/sus_community/database/PostRepository.kt:293-297 | the rows without the id, every other row kept |
| PostRepo.SqliteRemoveKeepsUnique | server/src/main/kotlin/com/sustech/sus_community/database/PostRepository.kt:114 | deleting keeps ids unique |
| PostRepo.PgRemoveKeepsUnique | server/src/main/kotlin/com/sustech/sus_community/database/PostRepository.kt:293-297 | deleting keeps ids unique |
| PostRepo.PgOverwrite | server/src/main/kotlin/com/sustech/sus_community/database/PostRepository.kt:304-330 | the UPDATE keeps the row's id, author_id and created_at and takes every other column from the post |
| PostRepo.SqliteFind | server/src/main/kotlin/com/sustech/sus_community/database/PostRepository.kt:75-77 | a found post carries the id looked up, an author and a creation time |
| PostRepo.PgFind | server/src/main/kotlin/com/sustech/sus_community/database/PostRepository.kt:233-253 | a found post carries the id looked up, an author and a creation time |
| PostRepo.SqliteFindAbsent | server/src/main/kotlin/com/sustech/sus_community/database/PostRepository.kt:71-79 | getPostById returns null exactly when no row has the id |
| PostRepo.PgFindAbsent | server/src/main/kotlin/com/sustech/sus_community/database/PostRepository.kt:233-253 | with the exact key text, the lookup returns null exactly when no row has that key |
| PostRepo.SqliteFindLast | server/src/main/kotlin/com/sustech/sus_community/database/PostRepository.kt:75-77 | an appended row with a new id is what the lookup decodes |
| PostRepo.PgFindLast | server/src/main/kotlin/com/sustech/sus_community/database/PostRepository.kt:233-253 | an appended row with a new id is what the lookup decodes |
| PostRepo.PgHasUuidIff | server/src/main/kotlin/com/sustech/sus_community/database/PostRepository.kt:244 | with canonical keys stored, a row has the canonical text of an id exactly when some row denotes the same uuid |
| PostRepo.PgFindAbsentByUuid | server/src/main/kotlin/com/sustech/sus_community/database/PostRepository.kt:233-253 | getPostByIdPostgreSQL returns null exactly when no row denotes the id's uuid value |
| PostRepo.SqliteFindRemove | server/src/main/kotlin/com/sustech/sus_community/database/PostRepository.kt:114 | after deleting an id, that id reads back null and every other id reads back as before |
| PostRepo.PgFindRemove | server/src/main/kotlin/com/sustech/sus_community/database/PostRepository.kt:282-298 | after deleting a key and its image rows, that key reads back null and every other key reads back as before, images included |
| PostRepo.SqliteFindSetStatus | server/src/main/kotlin/com/sustech/sus_community/database/PostRepository.kt:155-167 | after the status update the post under the id reads back with only its status changed; every other id reads back as before |
| PostRepo.PgFindSetStatus | server/src/main/kotlin/com/sustech/sus_community/database/PostRepository.kt:155-167 | the same for PostgreSQL rows, images included |
| PostRepo.PgLookupAfterRemove | server/src/main/kotlin/com/sustech/sus_community/database/PostRepository.kt:282-298 | deletePostPostgreSQL by lookups: the uuid of the id reads back null; any text with another key reads back as before |
| PostRepo.PgLookupAfterSetStatus | server/src/main/kotlin/com/sustech/sus_community/database/PostRepository.kt:158 | updatePostStatus (PostgreSQL) by lookups: the post under the uuid of the id gets the new status; any text with another key reads back as before |
| PostRepo.SqliteLookupAfterRemove | server/src/main/kotlin/com/sustech/sus_community/database/PostRepository.kt:114 | deletePostById (SQLite) by lookups: the id reads back null; every other id reads back as before |
| PostRepo.SqliteLookupAfterSetStatus | server/src/main/kotlin/com/sustech/sus_community/database/PostRepository.kt:155-167 | updatePostStatus (SQLite) by lookups: the post gets the new status; every other id reads back as before |
| PostRepo.RemoveKeepsImageInvariant | server/src/main/kotlin/com/sustech/sus_community/database/PostRepository.kt:282-298 | deleting a post and its images keeps every image row attached to a post and every post's display orders 0, 1, 2, ... |
| PostRepo.UpdateKeepsPgInvariant | server/src/main/kotlin/com/sustech/sus_community/database/PostRepository.kt:304-330 | the UPDATE keeps ids unique and every stored id present |
| PostRepo.ReinsertKeepsUnique | server/src/main/kotlin/com/sustech/sus_community/database/PostRepository.kt:130-145 | the SQLite delete-and-reinsert leaves ids unique |
| PostRepo.ReplaceImagesKeepsInvariant | server/src/main/kotlin/com/sustech/sus_community/database/PostRepository.kt:300-350 | the PostgreSQL update keeps ids unique, every image row attached to a post and every post's images indexed 0, 1, 2, ... |
| PostRepo.DeleteRemovesOnlyThatPost | server/src/main/kotlin/com/sustech/sus_community/database/PostRepository.kt:282-298 | after the delete no row holds the uuid value of the id, and the lookup of any id denoting another uuid is unchanged (also line 293) |
| PostRepo.PgUpdateReadBack | server/src/main/kotlin/com/sustech/sus_community/database/PostRepository.kt:300-350 | an updated post reads back with the new fields but the stored id, author and creation time |
| PostRepo.OverwriteColumns | server/src/main/kotlin/com/sustech/sus_community/database/PostRepository.kt:304-330 | each column the UPDATE writes reads back as the field it came from: tag, status, location and the replaced images |
| PostRepo.InsertKeepsPgInvariant | server/src/main/kotlin/com/sustech/sus_community/database/PostRepository.kt:171-206 | appending a post row with a new key and its image rows keeps ids unique, every image row attached to a post and every post's images indexed 0, 1, 2, ... |
| PostRepo.RemoveKeepsCanonical | server/src/main/kotlin/com/sustech/sus_community/database/PostRepository.kt:293 | deleting rows keeps every stored key canonical uuid text |
| PostRepo.PostRepository.constructor | server/src/main/kotlin/com/sustech/sus_community/database/PostRepository.kt:19-21 | a repository over empty tables for the given backend |
| PostRepo.PostRepository.InsertImages | server/src/main/kotlin/com/sustech/sus_community/database/PostRepository.kt:195-205 | the forEachIndexed loop appends exactly the post's image rows |
| PostRepo.PostRepository.InsertPost | server/src/main/kotlin/com/sustech/sus_community/database/PostRepository.kt:28-48 | a missing id, author or time throws and writes nothing; a taken id (with PostgreSQL, a taken uuid value) fails; SQLite appends the row; PostgreSQL appends the row and its image rows under the canonical key, or fails the uuid cast of id or author and writes nothing |
| PostRepo.PostRepository.InsertPostPg | server/src/main/kotlin/com/sustech/sus_community/database/PostRepository.kt:171-206 | insertPostPostgreSQL: a failed cast of id or author id or a taken uuid value writes nothing; else the row and its image rows are appended under the canonical key |
| PostRepo.PostRepository.GetAllPosts | server/src/main/kotlin/com/sustech/sus_community/database/PostRepository.kt:55-63 | the stored posts decoded, one per row of the active backend |
| PostRepo.PostRepository.DecodePgRows | server/src/main/kotlin/com/sustech/sus_community/database/PostRepository.kt:223-230 | the result-set loop yields every post row decoded with its images, or the first decoding error |
| PostRepo.PostRepository.GetPostById | server/src/main/kotlin/com/sustech/sus_community/database/PostRepository.kt:71-79 | null exactly when the id is well-formed for the backend and no post has it; with PostgreSQL, matched by uuid value and read back as canonical text (also lines 233-253) |
| PostRepo.PostRepository.DeletePostById | server/src/main/kotlin/com/sustech/sus_community/database/PostRepository.kt:110-116 | removes the post and, with PostgreSQL, its image rows first; the id is then absent and every id with another key looks up as before |
| PostRepo.PostRepository.DeletePostPg | server/src/main/kotlin/com/sustech/sus_community/database/PostRepository.kt:282-298 | deletePostPostgreSQL: the image rows and the row of the id's uuid are removed, and no row then denotes that uuid |
| PostRepo.PostRepository.UpdatePost | server/src/main/kotlin/com/sustech/sus_community/database/PostRepository.kt:124-147 | SQLite deletes and re-inserts from the argument; PostgreSQL overwrites the row under the uuid's canonical key but keeps author and time, and replaces the images |
| PostRepo.PostRepository.UpdatePostPg | server/src/main/kotlin/com/sustech/sus_community/database/PostRepository.kt:300-350 | updatePostPostgreSQL: the row under the canonical key is overwritten except id, author and creation time, and its image rows are replaced by the new list; an unknown uuid changes nothing |
| PostRepo.PostRepository.UpdatePostStatus | server/src/main/kotlin/com/sustech/sus_community/database/PostRepository.kt:155-167 | on both backends the post found under the id reads back with the new status and nothing else changed, and every id with another key looks up as before |
| Profile.ThresholdsMatchTitles | composeApp/src/commonMain/kotlin/com/sustech/sus_community/screens/ProfileScreen.kt:254-260 | the threshold table rises strictly and each threshold begins the title calculateGreenTitle gives it |
| Profile.IndexOfLastReached | composeApp/src/commonMain/kotlin/com/sustech/sus_community/screens/ProfileScreen.kt:261 | indexOfLast: the last reached threshold, with none reached after it, or -1 |
| Profile.NextStep | composeApp/src/commonMain/kotlin/com/sustech/sus_community/screens/ProfileScreen.kt:253-271 | the top title is reported exactly for scores of 1000 and up |
| Profile.NextStepIsNextTitle | composeApp/src/commonMain/kotlin/com/sustech/sus_community/screens/ProfileScreen.kt:261-269 | below 1000 at least one point is missing; from 0 the next title is the successor of the score's own; a negative score counts up to ECO_CONSCIOUS |
| Profile.ProgressLabel | composeApp/src/commonMain/kotlin/com/sustech/sus_community/screens/ProfileScreen.kt:263-269 | from 1000 up the label reads "Max title reached: Planet champion"; below, the points missing and the readable name of the next title from nextThreshold |
| Profile.ProgressLabelNamesNextTitle | composeApp/src/commonMain/kotlin/com/sustech/sus_community/screens/ProfileScreen.kt:263-269 | from 0 to 999 the label gives a positive number of points to the title after the score's own, by its readable name, e.g. "130 points to Green warrior" for 120 |
| Profile.PrettyGreenTitle | composeApp/src/commonMain/kotlin/com/sustech/sus_community/screens/ProfileScreen.kt:273-274 | same length as the name; first letter kept upper-case, the rest lower-cased with '_' turned into ' ' |
| Profile.PrettyGreenTitleValues | composeApp/src/commonMain/kotlin/com/sustech/sus_community/screens/ProfileScreen.kt:273-274 | the five readable titles, e.g. "Green warrior" |
| Profile.AvatarName | composeApp/src/commonMain/kotlin/com/sustech/sus_community/screens/ProfileScreen.kt:277 | the display name unless it is absent or blank, else the username |
| Profile.WordInitials | composeApp/src/commonMain/kotlin/com/sustech/sus_community/screens/ProfileScreen.kt:278-284 | at most two characters; for a non-blank name the first is the upper-cased first non-whitespace character |
| Profile.InitialsFor | composeApp/src/commonMain/kotlin/com/sustech/sus_community/screens/ProfileScreen.kt:276-285 | one or two characters, never empty: the word initials, else the name's first character, else "U" |
| Profile.TwoWordInitials | composeApp/src/commonMain/kotlin/com/sustech/sus_community/screens/ProfileScreen.kt:278-284 | two words separated by a space give both first letters, upper-cased |
| Profile.GenderLabelInjective | composeApp/src/commonMain/kotlin/com/sustech/sus_community/screens/ProfileScreen.kt:287-291 | the gender labels M, F and NB are distinct |
| Profile.RoleLabelInjective | composeApp/src/commonMain/kotlin/com/sustech/sus_community/screens/ProfileScreen.kt:293-296 | the role labels Newcomer and Local are distinct |
| Profile.GoodwillBadge | composeApp/src/commonMain/kotlin/com/sustech/sus_community/screens/ProfileScreen.kt:366-376 | a badge exactly from 10 points, its tier the highest of 500/200/100/50/10 reached, the points as subtitle |
| Profile.PetIcon | composeApp/src/commonMain/kotlin/com/sustech/sus_community/screens/ProfileScreen.kt:380-384 | a pet type containing "dog" (any case) wins over "cat", and neither gives paw prints |
| Profile.OnlyThePetBadgeIsPetLover | composeApp/src/commonMain/kotlin/com/sustech/sus_community/screens/ProfileScreen.kt:349-395 | the title, goodwill and role badges never carry the "Pet Lover" title |
| Profile.BadgesFor | composeApp/src/commonMain/kotlin/com/sustech/sus_community/screens/ProfileScreen.kt:349-395 | 2 to 4 badges: the title badge first, the role badge last, a goodwill badge exactly from 10 points, "Pet Lover" exactly when the user has pets |
| ClientData.ClientTagsExactlyFive | composeApp/src/commonMain/kotlin/com/sustech/sus_community/data/Post.kt:5-11 | five distinct client tags with five different labels, and every tag is one of them |
| ClientData.NewClientPost | composeApp/src/commonMain/kotlin/com/sustech/sus_community/data/Post.kt:13-22 | a post built without `accepted` is not accepted; every other field is as given |
| ClientApp.FakePosts | composeApp/src/commonMain/kotlin/com/sustech/sus_community/App.kt:11-44 | four starting posts with ids 1..4, none accepted |
| ClientApp.SequentialIdsAreDistinct | composeApp/src/commonMain/kotlin/com/sustech/sus_community/App.kt:11-44 | ids 1, 2, ... are distinct |
| ClientApp.FirstNewIdUnused | composeApp/src/commonMain/kotlin/com/sustech/sus_community/App.kt:11-44 | the first id handed out, 5, is not a starting id (also line 68) |
| ClientApp.Accept | composeApp/src/commonMain/kotlin/com/sustech/sus_community/App.kt:56-58 | same length and order; a post is accepted afterwards exactly when it was or has the id; nothing else changes |
| ClientApp.AcceptIdempotent | composeApp/src/commonMain/kotlin/com/sustech/sus_community/App.kt:56-58 | accepting twice is accepting once |
| ClientApp.AcceptKeepsIds | composeApp/src/commonMain/kotlin/com/sustech/sus_community/App.kt:56-58 | accepting keeps every id, so sequential and distinct ids stay so |
| ClientApp.ToggleSaved | composeApp/src/commonMain/kotlin/com/sustech/sus_community/App.kt:61-63 | the id flips membership; no other id does |
| ClientApp.ToggleSavedTwice | composeApp/src/commonMain/kotlin/com/sustech/sus_community/App.kt:62 | toggling twice restores the saved set |
| ClientApp.AppendSubmitted | composeApp/src/commonMain/kotlin/com/sustech/sus_community/App.kt:67-75 | one post appended at the end with id size+1, author "You", not accepted, carrying the submitted fields |
| ClientApp.AppendKeepsSequentialIds | composeApp/src/commonMain/kotlin/com/sustech/sus_community/App.kt:68 | numbering by length keeps ids 1, 2, ... and so distinct |
| ClientApp.App.constructor | composeApp/src/commonMain/kotlin/com/sustech/sus_community/App.kt:49-51 | home screen, the fake posts, nothing saved |
| ClientApp.App.OnAccept | composeApp/src/commonMain/kotlin/com/sustech/sus_community/App.kt:56-58 | the posts become Accept(posts, id); screen and saved ids unchanged |
| ClientApp.App.OnToggleSaved | composeApp/src/commonMain/kotlin/com/sustech/sus_community/App.kt:61-63 | the saved ids become ToggleSaved(savedIds, id); nothing else changes |
| ClientApp.App.OnCreatePost | composeApp/src/commonMain/kotlin/com/sustech/sus_community/App.kt:59 | home to create |
| ClientApp.App.OnSubmit | composeApp/src/commonMain/kotlin/com/sustech/sus_community/App.kt:67-77 | the submitted post is appended and the screen returns home, keeping ids sequential |
| ClientApp.App.OnCancel | composeApp/src/commonMain/kotlin/com/sustech/sus_community/App.kt:78 | create to home, nothing else changes |
| ViewPosts.FilteredPosts | composeApp/src/commonMain/kotlin/com/sustech/sus_community/screens/ViewPostsScreen.kt:45-49 | no filter shows every post; a tag shows exactly the posts carrying it |
| ViewPosts.FilteredPostsAppend | composeApp/src/commonMain/kotlin/com/sustech/sus_community/screens/ViewPostsScreen.kt:45-49 | filtering keeps the original order |
| ViewPosts.FilteredPostsMultiplicity | composeApp/src/commonMain/kotlin/com/sustech/sus_community/screens/ViewPostsScreen.kt:47-49 | a post with the tag appears as often as in the list, any other not at all |
| ViewPosts.FeedCards | composeApp/src/commonMain/kotlin/com/sustech/sus_community/screens/ViewPostsScreen.kt:56-60 | one card per shown post, saved exactly when its id is in savedIds |
| ViewPosts.FilterRowChips | composeApp/src/commonMain/kotlin/com/sustech/sus_community/screens/ViewPostsScreen.kt:70-93 | "All" selects no filter, "Events" Event, "Requests" AskHelp; a chip is selected exactly when it selects the current filter |
| ViewPosts.OneChipSelected | composeApp/src/commonMain/kotlin/com/sustech/sus_community/screens/ViewPostsScreen.kt:77-91 | at most one chip is selected, exactly one for a filter the row can choose |
| ViewPosts.ChipText | composeApp/src/commonMain/kotlin/com/sustech/sus_community/screens/ViewPostsScreen.kt:103 | selected: a check mark then the caption; otherwise the bare caption |
| ViewPosts.ChipTextShowsSelection | composeApp/src/commonMain/kotlin/com/sustech/sus_community/screens/ViewPostsScreen.kt:103 | a selected chip reads differently from an unselected one |
| ViewPosts.FeedFilter.constructor | composeApp/src/commonMain/kotlin/com/sustech/sus_community/screens/ViewPostsScreen.kt:28 | the filter starts absent |
| ViewPosts.FeedFilter.ClickChip | composeApp/src/commonMain/kotlin/com/sustech/sus_community/screens/ViewPostsScreen.kt:38-41 | the filter becomes the clicked chip's, which is then the selected chip |
| SavedPosts.SavedPosts | composeApp/src/commonMain/kotlin/com/sustech/sus_community/screens/SavedPostsScreen.kt:37 | exactly the posts whose id is saved, in order, never more than the posts; nothing when nothing is saved |
| SavedPosts.SavedIdsWithoutPostIgnored | composeApp/src/commonMain/kotlin/com/sustech/sus_community/screens/SavedPostsScreen.kt:37 | saved ids without a post contribute nothing |
| SavedPosts.SavedScreen | composeApp/src/commonMain/kotlin/com/sustech/sus_community/screens/SavedPostsScreen.kt:47-66 | the empty-state card exactly when there are no saved posts, else one card per saved post, each drawn as saved |
| SavedPosts.EmptyStateIff | composeApp/src/commonMain/kotlin/com/sustech/sus_community/screens/SavedPostsScreen.kt:37 | the empty state shows exactly when no post's id is saved (also lines 47-59) |
| SavedPosts.ToggleMovesPostInOrOut | composeApp/src/commonMain/kotlin/com/sustech/sus_community/App.kt:61-63 | saving a post from the feed puts it on the saved tab; unsaving takes it off |
| CreatePostForm.RemoveFirst | composeApp/src/commonMain/kotlin/com/sustech/sus_community/screens/CreatePostScreen.kt:138 | `list - element` removes one occurrence when there is one, else nothing |
| CreatePostForm.RemoveFirstDropsFirstOccurrence | composeApp/src/commonMain/kotlin/com/sustech/sus_community/screens/CreatePostScreen.kt:138 | `list - element` drops the first occurrence and keeps the other elements in order |
| CreatePostForm.ToggleTag | composeApp/src/commonMain/kotlin/com/sustech/sus_community/screens/CreatePostScreen.kt:137-139 | a present tag is removed; an absent one is appended at the end |
| CreatePostForm.ToggleTagDropsInPlace | composeApp/src/commonMain/kotlin/com/sustech/sus_community/screens/CreatePostScreen.kt:137-139 | a click on a selected tag drops it where it stood, the other tags keeping their order |
| CreatePostForm.RemoveFirstNoDuplicates | composeApp/src/commonMain/kotlin/com/sustech/sus_community/screens/CreatePostScreen.kt:138 | removing from a list without repetitions leaves one without the element |
| CreatePostForm.ToggleTagNoDuplicates | composeApp/src/commonMain/kotlin/com/sustech/sus_community/screens/CreatePostScreen.kt:29 | tags never repeat; the clicked tag flips and no other does (also lines 137-139) |
| CreatePostForm.ToggleAbsentTwice | composeApp/src/commonMain/kotlin/com/sustech/sus_community/screens/CreatePostScreen.kt:137-139 | toggling an unselected tag twice restores the list exactly |
| CreatePostForm.TogglePresentTwiceMovesToEnd | composeApp/src/commonMain/kotlin/com/sustech/sus_community/screens/CreatePostScreen.kt:137-139 | in a list without repetitions, toggling a selected tag twice moves it to the end, the others keeping their order: [Event, Volunteer] becomes [Volunteer, Event] |
| CreatePostForm.CreatePostForm.constructor | composeApp/src/commonMain/kotlin/com/sustech/sus_community/screens/CreatePostScreen.kt:26-30 | every field starts empty |
| CreatePostForm.CreatePostForm.EditTitle | composeApp/src/commonMain/kotlin/com/sustech/sus_community/screens/CreatePostScreen.kt:85-89 | only the title changes |
| CreatePostForm.CreatePostForm.EditDesc | composeApp/src/commonMain/kotlin/com/sustech/sus_community/screens/CreatePostScreen.kt:93-97 | only the description changes |
| CreatePostForm.CreatePostForm.EditLocation | composeApp/src/commonMain/kotlin/com/sustech/sus_community/screens/CreatePostScreen.kt:85-101 | only the location changes |
| CreatePostForm.CreatePostForm.EditImageUrl | composeApp/src/commonMain/kotlin/com/sustech/sus_community/screens/CreatePostScreen.kt:85-101 | only the image URL changes |
| CreatePostForm.CreatePostForm.ClickTag | composeApp/src/commonMain/kotlin/com/sustech/sus_community/screens/CreatePostScreen.kt:136-139 | the clicked chip's selection flips and no other's; tags stay free of repeats |
| CreatePostForm.CreatePostForm.ClickSubmit | composeApp/src/commonMain/kotlin/com/sustech/sus_community/screens/CreatePostScreen.kt:161-168 | submits exactly when neither title nor description is blank, with every field as held |
| DashboardWeb.MaxId | composeApp/src/webMain/kotlin/com/sustech/sus_community/DashboardScreenWeb.kt:141 | the largest id of a non-empty list, attained by some post |
| DashboardWeb.AppendWithNextId | composeApp/src/webMain/kotlin/com/sustech/sus_community/DashboardScreenWeb.kt:140-152 | one post appended at the end with an id above every existing one, author "sfsjdk", not accepted |
| DashboardWeb.AppendWithNextIdKeepsDistinct | composeApp/src/webMain/kotlin/com/sustech/sus_community/DashboardScreenWeb.kt:141 | numbering past the largest id keeps ids distinct |
| DashboardWeb.Dashboard.constructor | composeApp/src/webMain/kotlin/com/sustech/sus_community/DashboardScreenWeb.kt:53-57 | the posts grid, the fake posts, no selected post |
| DashboardWeb.Dashboard.Content | composeApp/src/webMain/kotlin/com/sustech/sus_community/DashboardScreenWeb.kt:126-167 | nothing is shown exactly in the details view without a selected post |
| DashboardWeb.Dashboard.OnAccept | composeApp/src/webMain/kotlin/com/sustech/sus_community/DashboardScreenWeb.kt:76-78 | only posts with the id become accepted; the view stays |
| DashboardWeb.Dashboard.OnClickDetails | composeApp/src/webMain/kotlin/com/sustech/sus_community/DashboardScreenWeb.kt:128-131 | the post is selected and the middle column shows its details |
| DashboardWeb.Dashboard.OnCreatePost | composeApp/src/webMain/kotlin/com/sustech/sus_community/DashboardScreenWeb.kt:132 | posts to create |
| DashboardWeb.Dashboard.OnSubmit | composeApp/src/webMain/kotlin/com/sustech/sus_community/DashboardScreenWeb.kt:138-153 | the post is appended with the next id and the view returns to the grid; ids stay distinct |
| DashboardWeb.Dashboard.OnCancel | composeApp/src/webMain/kotlin/com/sustech/sus_community/DashboardScreenWeb.kt:155-157 | create back to posts |
| DashboardWeb.Dashboard.OnBack | composeApp/src/webMain/kotlin/com/sustech/sus_community/DashboardScreenWeb.kt:160-166 | details back to posts |
| AndroidTabs.IconFor | composeApp/src/androidMain/kotlin/com/sustech/sus_community/AndroidTabbedApp.kt:59-65 | a tab's own glyph, filled exactly when it is the selected tab |
| AndroidTabs.TabLabelInjective | composeApp/src/androidMain/kotlin/com/sustech/sus_community/AndroidTabbedApp.kt:36-42 | the five tab labels are distinct |
| AndroidTabs.OneFilledTab | composeApp/src/androidMain/kotlin/com/sustech/sus_community/AndroidTabbedApp.kt:36-42 | five distinct tabs; exactly the selected one is filled; no two share a glyph (also lines 59-65) |
| AndroidTabs.AndroidApp.constructor | composeApp/src/androidMain/kotlin/com/sustech/sus_community/AndroidTabbedApp.kt:46-47 | Feed selected, the fake posts |
| AndroidTabs.AndroidApp.ClickTab | composeApp/src/androidMain/kotlin/com/sustech/sus_community/AndroidTabbedApp.kt:55 | any navigation item selects its tab |
| AndroidTabs.AndroidApp.OnAccept | composeApp/src/androidMain/kotlin/com/sustech/sus_community/AndroidTabbedApp.kt:77-79 | only matching posts become accepted |
| AndroidTabs.AndroidApp.OnCreatePost | composeApp/src/androidMain/kotlin/com/sustech/sus_community/AndroidTabbedApp.kt:80 | Feed to Create |
| AndroidTabs.AndroidApp.OnSubmit | composeApp/src/androidMain/kotlin/com/sustech/sus_community/AndroidTabbedApp.kt:84-93 | one post appended with id size+1 and author "You"; back to Feed |
| AndroidTabs.AndroidApp.OnCancel | composeApp/src/androidMain/kotlin/com/sustech/sus_community/AndroidTabbedApp.kt:95 | Create back to Feed |
| AndroidTabs.AndroidApp.OnMapBack | composeApp/src/androidMain/kotlin/com/sustech/sus_community/AndroidTabbedApp.kt:100 | Map back to Feed |
| MapScreen.AllCategoriesComplete | composeApp/src/androidMain/kotlin/com/sustech/sus_community/screens/MapScreen.android.kt:36-49 | the initial selection holds every category |
| MapScreen.CategoryLabelInjective | composeApp/src/androidMain/kotlin/com/sustech/sus_community/screens/MapScreen.android.kt:41-48 | no two categories share a chip label |
| MapScreen.ToggleCategory | composeApp/src/androidMain/kotlin/com/sustech/sus_community/screens/MapScreen.android.kt:145-151 | the category flips membership; no other does |
| MapScreen.ToggleCategoryTwice | composeApp/src/androidMain/kotlin/com/sustech/sus_community/screens/MapScreen.android.kt:145-151 | toggling twice restores the selection |
| MapScreen.FilteredLocations | composeApp/src/androidMain/kotlin/com/sustech/sus_community/screens/MapScreen.android.kt:104 | exactly the locations whose category is selected |
| MapScreen.AllSelectedShowsAll | composeApp/src/androidMain/kotlin/com/sustech/sus_community/screens/MapScreen.android.kt:72 | with every category selected every location passes, in order (also line 104) |
| MapScreen.MarkerHue | composeApp/src/androidMain/kotlin/com/sustech/sus_community/screens/MapScreen.android.kt:114-126 | yellow exactly for the highlighted location; otherwise the category's hue |
| MapScreen.SampleLocations | composeApp/src/androidMain/kotlin/com/sustech/sus_community/screens/MapScreen.android.kt:437-562 | fourteen fixed locations with distinct ids: the first six are places without an author, the last eight are posts, each with an author |
| MapScreen.MapState.constructor | composeApp/src/androidMain/kotlin/com/sustech/sus_community/screens/MapScreen.android.kt:72-79 | the samples, every category selected, sheet collapsed, nothing highlighted |
| MapScreen.MapState.ClickCategory | composeApp/src/androidMain/kotlin/com/sustech/sus_community/screens/MapScreen.android.kt:145-151 | the selection is toggled; sheet and highlight unchanged |
| MapScreen.MapState.ClickMarker | composeApp/src/androidMain/kotlin/com/sustech/sus_community/screens/MapScreen.android.kt:133-136 | the marker's location is highlighted (drawn yellow) and the sheet expands |
| MapScreen.MapState.ClickCard | composeApp/src/androidMain/kotlin/com/sustech/sus_community/screens/MapScreen.android.kt:163-164 | the card's location is highlighted; the sheet stays |
| MapScreen.MapState.SetSheetExpanded | composeApp/src/androidMain/kotlin/com/sustech/sus_community/screens/MapScreen.android.kt:161 | the sheet takes the reported state |
| PostDetails.ActionLabel | composeApp/src/commonMain/kotlin/com/sustech/sus_community/screens/PostDetailsScreen.kt:116-121 | "Join Event" exactly with Event; else "Offer Help" exactly with AskHelp; else "Get Help" with OfferHelp; else "Contact" |
| PostDetails.ChipLabels | composeApp/src/commonMain/kotlin/com/sustech/sus_community/screens/PostDetailsScreen.kt:74-79 | one chip per tag, in order, with the tag's label |
| PostDetails.ChipLabelsInjective | composeApp/src/commonMain/kotlin/com/sustech/sus_community/screens/PostDetailsScreen.kt:74-79 | the chips identify the tag list |
| PostDetails.Details | composeApp/src/commonMain/kotlin/com/sustech/sus_community/screens/PostDetailsScreen.kt:31-121 | header image exactly for a non-blank URL, "By " + author, one chip per tag in order, the location line exactly for a non-blank location, and the action label |

## Left out

- Lengths count characters, not UTF-16 code units. Case mapping (`uppercase`, `lowercase`, `ignoreCase`) covers ASCII letters only. Kotlin's whitespace set is used for `isBlank` and `trim`.
- Timestamps are opaque strings stored and read back verbatim. PostgreSQL's reformatting of `timestamp` values is not modelled.
- Row order: results come back in table order. `ORDER BY p.created_at DESC` and the SQLite query's own order are not modelled.
- `getPostsByTag` and `getPostsByStatus` are not modelled. Their SQL is not visible, and under PostgreSQL they dereference a null `queries`.
- Concurrency is not modelled, which leaves out the check-then-insert race on usernames. Transactions are not modelled either: the multi-statement PostgreSQL writes happen all at once or not at all (a uuid cast failure writes nothing).
- Kotlin `Int` overflow of scores, points and ids is not modelled; integers are unbounded.
- Exception messages are not modelled: a 500 or 400 body carries only its fixed prefix. JSON (de)serialisation and Ktor's `call.receive`/`call.respond` are not modelled.
- Schema: posts.id is assumed to be a primary key, and `post_images.post_id` a foreign key with cascade. The schema file is not part of this model.
- DatabaseFactory.kt is not part of this model. The backend choice and the SQLite tables' existence are inputs.
- Rendering is not modelled: colours, sizes, fonts, image loading. The profile progress fraction (a float), the map camera and `LatLng` values, and the sheet auto-scroll are also left out. Emoji are named by enumerations.
- Client posts carry an `image` string everywhere. Where App.kt, AndroidTabbedApp.kt and `fakePosts` omit it, the model uses "".
- The web grid's filter (PostsGridScreen.kt:36, 57-69) is the same state and filter as the feed's, modelled once as `ViewPosts.FeedFilter`.
- The web dashboard's `currentUser` and profile column are not modelled; only the middle column's state is.
- MapScreen.MapState.constructor: does not state that every sample is shown at the start. `MapScreen.AllSelectedShowsAll` proves it for any list.
- PostDetails.ActionLabelDependsOnTagSet: verifies without proof steps, and states only that the button ignores tag order and repetition.
- PostRepo.PostRepository.UpdatePostStatus: does not model the `updated_at = CURRENT_TIMESTAMP` the PostgreSQL UPDATE also writes, because the rows carry no `updated_at` column (timestamps are opaque and the column is never read back). The same holds for PostRepo.PostRepository.UpdatePost.
- PostRoutes.CreatePost: requires the fresh id to be canonical uuid text not yet stored. `UUID.randomUUID().toString()` is canonical, and its uniqueness is assumed of the generator.
