/** The shared domain model: users with their roles and green titles, posts
    with their locations, tags and statuses, and the request and response
    records the client and the server exchange. Each enumeration comes with
    its `name` text and the matching `valueOf`, which the repositories use to
    store enumerations by name. */
module Models {
  import opened Common

  // ---------------------------------------------------------------- users

  datatype UserRole = NewMuencher | OldMuencher

  datatype Gender = Male | Female | NonBinary

  /** Declared from the lowest to the highest title. */
  datatype GreenTitle = Beginner | EcoConscious | GreenWarrior | SustainabilityHero | PlanetChampion

  function RoleName(r: UserRole): string {
    match r
    case NewMuencher => "NEW_MUENCHER"
    case OldMuencher => "OLD_MUENCHER"
  }

  /** Kotlin's UserRole.valueOf; None stands for its IllegalArgumentException. */
  function RoleValueOf(s: string): (r: Option<UserRole>)
    ensures r.Some? ==> RoleName(r.value) == s
    ensures forall x :: RoleName(x) == s ==> r == Some(x)
  {
    if s == "NEW_MUENCHER" then Some(NewMuencher)
    else if s == "OLD_MUENCHER" then Some(OldMuencher)
    else None
  }

  function GenderName(g: Gender): string {
    match g
    case Male => "MALE"
    case Female => "FEMALE"
    case NonBinary => "NON_BINARY"
  }

  function GenderValueOf(s: string): (r: Option<Gender>)
    ensures r.Some? ==> GenderName(r.value) == s
    ensures forall x :: GenderName(x) == s ==> r == Some(x)
  {
    if s == "MALE" then Some(Male)
    else if s == "FEMALE" then Some(Female)
    else if s == "NON_BINARY" then Some(NonBinary)
    else None
  }

  function TitleName(t: GreenTitle): string {
    match t
    case Beginner => "BEGINNER"
    case EcoConscious => "ECO_CONSCIOUS"
    case GreenWarrior => "GREEN_WARRIOR"
    case SustainabilityHero => "SUSTAINABILITY_HERO"
    case PlanetChampion => "PLANET_CHAMPION"
  }

  function TitleValueOf(s: string): (r: Option<GreenTitle>)
    ensures r.Some? ==> TitleName(r.value) == s
    ensures forall x :: TitleName(x) == s ==> r == Some(x)
  {
    if s == "BEGINNER" then Some(Beginner)
    else if s == "ECO_CONSCIOUS" then Some(EcoConscious)
    else if s == "GREEN_WARRIOR" then Some(GreenWarrior)
    else if s == "SUSTAINABILITY_HERO" then Some(SustainabilityHero)
    else if s == "PLANET_CHAMPION" then Some(PlanetChampion)
    else None
  }

  /** Position of a title in declaration order (Kotlin's ordinal). */
  function TitleRank(t: GreenTitle): nat {
    match t
    case Beginner => 0
    case EcoConscious => 1
    case GreenWarrior => 2
    case SustainabilityHero => 3
    case PlanetChampion => 4
  }

  /** The title declared right after `t`, if there is one. */
  function NextTitle(t: GreenTitle): (r: Option<GreenTitle>)
    ensures r.None? <==> t == PlanetChampion
    ensures r.Some? ==> TitleRank(r.value) == TitleRank(t) + 1
  {
    match t
    case Beginner => Some(EcoConscious)
    case EcoConscious => Some(GreenWarrior)
    case GreenWarrior => Some(SustainabilityHero)
    case SustainabilityHero => Some(PlanetChampion)
    case PlanetChampion => None
  }

  datatype User = User(
    username: string,
    displayName: Option<string>,
    role: UserRole,
    age: Option<int>,
    gender: Option<Gender>,
    hasPets: bool,
    petTypes: seq<string>,
    sustainabilityScore: int,
    greenTitle: GreenTitle,
    goodwillPoints: int,
    bio: Option<string>,
    createdAt: Option<string>)

  /** `User(username = ...)` with every other parameter left at its default. */
  function DefaultUser(username: string): (u: User)
    ensures u.username == username
    ensures u.role == NewMuencher && u.sustainabilityScore == 0 && u.goodwillPoints == 0
    ensures u.greenTitle == Beginner && !u.hasPets && u.petTypes == []
    ensures u.displayName.None? && u.age.None? && u.gender.None? && u.bio.None? && u.createdAt.None?
  {
    User(username, None, NewMuencher, None, None, false, [], 0, Beginner, 0, None, None)
  }

  /** User.calculateGreenTitle: the title of a sustainability score. The
      bands are half-open, closed at their lower end; a negative score is a
      beginner's. */
  function CalculateGreenTitle(score: int): (t: GreenTitle)
    ensures t == PlanetChampion <==> 1000 <= score
    ensures t == SustainabilityHero <==> 500 <= score < 1000
    ensures t == GreenWarrior <==> 250 <= score < 500
    ensures t == EcoConscious <==> 100 <= score < 250
    ensures t == Beginner <==> score < 100
  {
    if score >= 1000 then PlanetChampion
    else if score >= 500 then SustainabilityHero
    else if score >= 250 then GreenWarrior
    else if score >= 100 then EcoConscious
    else Beginner
  }

  lemma GreenTitleBoundaries()
    ensures CalculateGreenTitle(99) == Beginner && CalculateGreenTitle(100) == EcoConscious
    ensures CalculateGreenTitle(249) == EcoConscious && CalculateGreenTitle(250) == GreenWarrior
    ensures CalculateGreenTitle(499) == GreenWarrior && CalculateGreenTitle(500) == SustainabilityHero
    ensures CalculateGreenTitle(999) == SustainabilityHero && CalculateGreenTitle(1000) == PlanetChampion
    ensures CalculateGreenTitle(-1) == Beginner && CalculateGreenTitle(0) == Beginner
  {
  }

  /** A higher score never earns a lower title. */
  lemma GreenTitleMonotone(s1: int, s2: int)
    requires s1 <= s2
    ensures TitleRank(CalculateGreenTitle(s1)) <= TitleRank(CalculateGreenTitle(s2))
  {
  }

  /** The denormalised title agrees with the score. */
  predicate TitleConsistent(u: User) {
    u.greenTitle == CalculateGreenTitle(u.sustainabilityScore)
  }

  lemma DefaultUserTitleConsistent(username: string)
    ensures TitleConsistent(DefaultUser(username))
  {
  }

  /** User.isElderly. */
  function IsElderly(u: User): (b: bool)
    ensures b <==> u.age.Some? && u.age.value >= 65
  {
    match u.age
    case None => false
    case Some(a) => a >= 65
  }

  // ---------------------------------------------------------------- posts

  datatype PostTag = PetSitting | Tutoring | ElderlyCompany | Mowing | MovingHelp | Event | Volunteering | Other

  const AllPostTags: seq<PostTag> :=
    [PetSitting, Tutoring, ElderlyCompany, Mowing, MovingHelp, Event, Volunteering, Other]

  lemma PostTagsExactlyEight()
    ensures |AllPostTags| == 8 && NoDuplicates(AllPostTags)
    ensures forall t: PostTag :: t in AllPostTags
  {
    forall t: PostTag ensures t in AllPostTags {
      match t
      case PetSitting => assert AllPostTags[0] == t;
      case Tutoring => assert AllPostTags[1] == t;
      case ElderlyCompany => assert AllPostTags[2] == t;
      case Mowing => assert AllPostTags[3] == t;
      case MovingHelp => assert AllPostTags[4] == t;
      case Event => assert AllPostTags[5] == t;
      case Volunteering => assert AllPostTags[6] == t;
      case Other => assert AllPostTags[7] == t;
    }
  }

  function TagName(t: PostTag): string {
    match t
    case PetSitting => "PET_SITTING"
    case Tutoring => "TUTORING"
    case ElderlyCompany => "ELDERLY_COMPANY"
    case Mowing => "MOWING"
    case MovingHelp => "MOVING_HELP"
    case Event => "EVENT"
    case Volunteering => "VOLUNTEERING"
    case Other => "OTHER"
  }

  function TagValueOf(s: string): (r: Option<PostTag>)
    ensures r.Some? ==> TagName(r.value) == s
    ensures forall x :: TagName(x) == s ==> r == Some(x)
  {
    if s == "PET_SITTING" then Some(PetSitting)
    else if s == "TUTORING" then Some(Tutoring)
    else if s == "ELDERLY_COMPANY" then Some(ElderlyCompany)
    else if s == "MOWING" then Some(Mowing)
    else if s == "MOVING_HELP" then Some(MovingHelp)
    else if s == "EVENT" then Some(Event)
    else if s == "VOLUNTEERING" then Some(Volunteering)
    else if s == "OTHER" then Some(Other)
    else None
  }

  /** The four lifecycle states. Nothing in the system restricts which
      status may follow which: any status may overwrite any other. */
  datatype PostStatus = Open | InProgress | Completed | Cancelled

  const AllPostStatuses: seq<PostStatus> := [Open, InProgress, Completed, Cancelled]

  lemma PostStatusesExactlyFour()
    ensures |AllPostStatuses| == 4 && NoDuplicates(AllPostStatuses)
    ensures forall s: PostStatus :: s in AllPostStatuses
  {
    forall s: PostStatus ensures s in AllPostStatuses {
      match s
      case Open => assert AllPostStatuses[0] == s;
      case InProgress => assert AllPostStatuses[1] == s;
      case Completed => assert AllPostStatuses[2] == s;
      case Cancelled => assert AllPostStatuses[3] == s;
    }
  }

  function StatusName(s: PostStatus): string {
    match s
    case Open => "OPEN"
    case InProgress => "IN_PROGRESS"
    case Completed => "COMPLETED"
    case Cancelled => "CANCELLED"
  }

  function StatusValueOf(s: string): (r: Option<PostStatus>)
    ensures r.Some? ==> StatusName(r.value) == s
    ensures forall x :: StatusName(x) == s ==> r == Some(x)
  {
    if s == "OPEN" then Some(Open)
    else if s == "IN_PROGRESS" then Some(InProgress)
    else if s == "COMPLETED" then Some(Completed)
    else if s == "CANCELLED" then Some(Cancelled)
    else None
  }

  /** Coordinates are doubles in the source; they are only compared with
      constant bounds and copied, so they are reals here. */
  datatype Location = Location(latitude: real, longitude: real, address: Option<string>)

  /** `Location(latitude, longitude)` with the address left at its default. */
  function DefaultLocation(latitude: real, longitude: real): (l: Location)
    ensures l.latitude == latitude && l.longitude == longitude && l.address.None?
  {
    Location(latitude, longitude, None)
  }

  datatype Post = Post(
    id: Option<string>,
    title: string,
    description: string,
    location: Location,
    tag: PostTag,
    dueDate: string,
    femaleOnly: bool,
    images: seq<string>,
    authorId: Option<string>,
    createdAt: Option<string>,
    status: PostStatus)

  /** A post built from its required fields only: no id, author or creation
      time yet (the server fills them), open, not female-only, no images. */
  function DefaultPost(title: string, description: string, location: Location, tag: PostTag, dueDate: string): (p: Post)
    ensures p.title == title && p.description == description && p.location == location
    ensures p.tag == tag && p.dueDate == dueDate
    ensures p.id.None? && p.authorId.None? && p.createdAt.None?
    ensures p.status == Open && !p.femaleOnly && p.images == []
  {
    Post(None, title, description, location, tag, dueDate, false, [], None, None, Open)
  }

  const PostCreatedMessage: string := "Post created successfully"

  datatype CreatePostResponse = CreatePostResponse(post: Post, message: string)

  /** `CreatePostResponse(post = ...)` with the default message. */
  function DefaultCreatePostResponse(post: Post): (r: CreatePostResponse)
    ensures r.post == post && r.message == "Post created successfully"
  {
    CreatePostResponse(post, PostCreatedMessage)
  }

  datatype PostListResponse = PostListResponse(posts: seq<Post>, count: int)

  /** The list response the server builds: the posts with their number. */
  function ListOf(posts: seq<Post>): (r: PostListResponse)
    ensures r.posts == posts && r.count == |posts|
  {
    PostListResponse(posts, |posts|)
  }

  // ------------------------------------------------------------- requests

  /** The request body of POST and PUT /posts. `authorId` has no default. */
  datatype CreatePostRequest = CreatePostRequest(
    title: string,
    description: string,
    location: Location,
    tag: PostTag,
    dueDate: string,
    femaleOnly: bool,
    images: seq<string>,
    authorId: string)

  /** A request built from its required fields only. */
  function DefaultCreatePostRequest(
    title: string, description: string, location: Location, tag: PostTag, dueDate: string, authorId: string)
    : (r: CreatePostRequest)
    ensures r.title == title && r.description == description && r.location == location
    ensures r.tag == tag && r.dueDate == dueDate && r.authorId == authorId
    ensures !r.femaleOnly && r.images == []
  {
    CreatePostRequest(title, description, location, tag, dueDate, false, [], authorId)
  }

  /** The request body of POST /users. Only `username` is required. */
  datatype CreateUserRequest = CreateUserRequest(
    username: string,
    displayName: Option<string>,
    role: UserRole,
    age: Option<int>,
    gender: Option<Gender>,
    hasPets: bool,
    petTypes: seq<string>,
    bio: Option<string>)

  function DefaultCreateUserRequest(username: string): (r: CreateUserRequest)
    ensures r.username == username && r.role == NewMuencher
    ensures r.displayName.None? && r.age.None? && r.gender.None? && r.bio.None?
    ensures !r.hasPets && r.petTypes == []
  {
    CreateUserRequest(username, None, NewMuencher, None, None, false, [], None)
  }

  const UserCreatedMessage: string := "User created successfully"

  /** Response of POST /users; its message defaults to UserCreatedMessage. */
  datatype CreateUserResponse = CreateUserResponse(user: User, message: string)

  /** Response of GET /users. */
  datatype UserListResponse = UserListResponse(users: seq<User>, count: int)
}
