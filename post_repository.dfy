/** PostRepository: the posts of either backend.

    With SQLite a post is one row: tag and status by name, femaleOnly as
    1 or 0, the image URLs joined with ",". With PostgreSQL a post is a row
    of `posts` whose location is a PostGIS point (x = longitude, y =
    latitude) plus one row of `post_images` per URL carrying its index as
    `display_order`; ids, author ids and image post ids go through a
    `::uuid` cast. The tables are kept here as sequences in insertion order.
    `posts.id` is taken to be the primary key, and `post_images.post_id` a
    foreign key to it with ON DELETE CASCADE. */
module PostRepo {
  import opened Common
  import opened Models

  /** The exceptions a post operation can throw: the NullPointerException of
      `!!`, a failed `::uuid` cast, a primary or foreign key violation, and the
      IllegalArgumentException of `valueOf` on an unknown stored name. */
  datatype PostRepoError = NullPointer | InvalidUuid | DuplicateKey | ForeignKeyViolation | BadEnumName(name: string)

  // ------------------------------------------------------------ uuid text

  predicate HexDigit(c: char) {
    '0' <= c <= '9' || 'a' <= c <= 'f' || 'A' <= c <= 'F'
  }

  predicate AllHex(s: string) {
    forall i :: 0 <= i < |s| ==> HexDigit(s[i])
  }

  lemma AllHexSlice(s: string, i: nat, j: nat)
    requires i <= j <= |s| && AllHex(s)
    ensures AllHex(s[i..j])
  {
    assert forall k :: 0 <= k < j - i ==> s[i..j][k] == s[i + k];
  }

  /** `s` is `groups` groups of four hex digits, where a hyphen may follow
      any group but the last. */
  predicate HexGroups(s: string, groups: nat)
    decreases groups
  {
    if groups == 0 then s == []
    else
      |s| >= 4 && HexDigit(s[0]) && HexDigit(s[1]) && HexDigit(s[2]) && HexDigit(s[3])
      && (HexGroups(s[4..], groups - 1)
          || (groups > 1 && |s| > 4 && s[4] == '-' && HexGroups(s[5..], groups - 1)))
  }

  /** The text PostgreSQL's uuid input accepts (section 8.12 of the
      PostgreSQL manual): 32 hex digits of either case, a hyphen allowed after
      any group of four, the whole optionally in braces. */
  predicate CastsToUuid(s: string) {
    HexGroups(s, 8) || (|s| >= 2 && s[0] == '{' && s[|s| - 1] == '}' && HexGroups(s[1..|s| - 1], 8))
  }

  /** The hex digits of text that HexGroups accepts, hyphens dropped. */
  function GroupDigits(s: string, groups: nat): (d: string)
    requires HexGroups(s, groups)
    ensures |d| == 4 * groups
    decreases groups
  {
    if groups == 0 then []
    else if HexGroups(s[4..], groups - 1) then s[..4] + GroupDigits(s[4..], groups - 1)
    else s[..4] + GroupDigits(s[5..], groups - 1)
  }

  /** The value of uuid text: its 32 hex digits in lower case, braces and
      hyphens dropped. Two texts denote the same uuid exactly when these agree. */
  function UuidDigits(s: string): (d: string)
    requires CastsToUuid(s)
    ensures |d| == 32
  {
    var inner := if HexGroups(s, 8) then s else s[1..|s| - 1];
    Lowercase(GroupDigits(inner, 8))
  }

  /** Only hex digits survive the grouping. */
  lemma {:induction false} GroupDigitsHex(s: string, groups: nat)
    requires HexGroups(s, groups)
    ensures AllHex(GroupDigits(s, groups))
    decreases groups
  {
    if groups > 0 {
      var rest := if HexGroups(s[4..], groups - 1) then s[4..] else s[5..];
      GroupDigitsHex(rest, groups - 1);
      var d := GroupDigits(s, groups);
      assert d == s[..4] + GroupDigits(rest, groups - 1);
      forall i | 0 <= i < |d|
        ensures HexDigit(d[i])
      {
        if i >= 4 {
          assert d[i] == GroupDigits(rest, groups - 1)[i - 4];
        }
      }
    }
  }

  /** A uuid's value is 32 lower-case hex digits. */
  lemma UuidDigitsLowerHex(s: string)
    requires CastsToUuid(s)
    ensures forall i :: 0 <= i < 32 ==> HexDigit(UuidDigits(s)[i]) && !('A' <= UuidDigits(s)[i] <= 'Z')
  {
    var inner := if HexGroups(s, 8) then s else s[1..|s| - 1];
    GroupDigitsHex(inner, 8);
  }

  /** The canonical text of a uuid, which PostgreSQL stores and hands back:
      lower-case digits grouped 8-4-4-4-12. */
  function Hyphenate(d: string): (c: string)
    requires |d| == 32
    ensures |c| == 36 && c[8] == '-' && c[13] == '-' && c[18] == '-' && c[23] == '-'
  {
    d[..4] + (d[4..8] + "-" + (d[8..12] + "-" + (d[12..16] + "-" + (d[16..20] + "-" + d[20..]))))
  }

  /** What `::uuid` makes of castable text, read back by getString. */
  function CanonUuid(s: string): string
    requires CastsToUuid(s)
  {
    Hyphenate(UuidDigits(s))
  }

  predicate IsCanonicalUuid(s: string) {
    CastsToUuid(s) && CanonUuid(s) == s
  }

  /** Two castable texts that denote the same uuid. */
  predicate SameUuid(s: string, t: string)
    requires CastsToUuid(s) && CastsToUuid(t)
  {
    UuidDigits(s) == UuidDigits(t)
  }

  /** Four hex digits per group and nothing else is a run of groups. */
  lemma {:induction false} PlainGroups(s: string, groups: nat)
    requires |s| == 4 * groups && AllHex(s)
    ensures HexGroups(s, groups) && GroupDigits(s, groups) == s
    decreases groups
  {
    if groups > 0 {
      PlainGroups(s[4..], groups - 1);
      assert s[..4] + s[4..] == s;
    }
  }

  /** A group of four hex digits in front of a run of groups. */
  lemma ConsGroup(h: string, rest: string, groups: nat)
    requires |h| == 4 && AllHex(h) && HexGroups(rest, groups)
    ensures HexGroups(h + rest, groups + 1) && GroupDigits(h + rest, groups + 1) == h + GroupDigits(rest, groups)
  {
    var t := h + rest;
    assert t[..4] == h && t[4..] == rest;
  }

  /** A group of four hex digits and a hyphen in front of a run of groups. */
  lemma ConsGroupHyphen(h: string, rest: string, groups: nat)
    requires |h| == 4 && AllHex(h) && groups >= 1 && HexGroups(rest, groups)
    ensures HexGroups(h + "-" + rest, groups + 1) && GroupDigits(h + "-" + rest, groups + 1) == h + GroupDigits(rest, groups)
  {
    var t := h + "-" + rest;
    assert t[..4] == h && t[4] == '-' && t[5..] == rest;
    assert !HexGroups(t[4..], groups) by {
      assert t[4..][0] == '-';
    }
  }

  lemma SliceJoin(s: string, i: nat, j: nat)
    requires i <= j <= |s|
    ensures s[i..j] + s[j..] == s[i..]
  {
  }

  /** The canonical grouping is a run of eight groups holding the digits. */
  lemma HyphenateGroups(d: string)
    requires |d| == 32 && AllHex(d)
    ensures HexGroups(Hyphenate(d), 8) && GroupDigits(Hyphenate(d), 8) == d
  {
    var g0, g1, g2, g3, g4, g5 := d[..4], d[4..8], d[8..12], d[12..16], d[16..20], d[20..];
    AllHexSlice(d, 0, 4);
    AllHexSlice(d, 4, 8);
    AllHexSlice(d, 8, 12);
    AllHexSlice(d, 12, 16);
    AllHexSlice(d, 16, 20);
    AllHexSlice(d, 20, 32);
    PlainGroups(g5, 3);
    var r4 := g4 + "-" + g5;
    ConsGroupHyphen(g4, g5, 3);
    var r3 := g3 + "-" + r4;
    ConsGroupHyphen(g3, r4, 4);
    var r2 := g2 + "-" + r3;
    ConsGroupHyphen(g2, r3, 5);
    var r1 := g1 + "-" + r2;
    ConsGroupHyphen(g1, r2, 6);
    ConsGroup(g0, r1, 7);
    SliceJoin(d, 16, 20);
    SliceJoin(d, 12, 16);
    SliceJoin(d, 8, 12);
    SliceJoin(d, 4, 8);
    SliceJoin(d, 0, 4);
  }

  /** Canonical text casts, and its value is the digits it was made from. */
  lemma HyphenateDigits(d: string)
    requires |d| == 32 && forall i :: 0 <= i < 32 ==> HexDigit(d[i]) && !('A' <= d[i] <= 'Z')
    ensures CastsToUuid(Hyphenate(d)) && UuidDigits(Hyphenate(d)) == d
  {
    HyphenateGroups(d);
    assert Lowercase(d) == d;
  }

  /** The canonical text is canonical, casts, and denotes the same uuid;
      texts share it exactly when they denote the same uuid. */
  lemma CanonUuidFacts(s: string, t: string)
    requires CastsToUuid(s) && CastsToUuid(t)
    ensures IsCanonicalUuid(CanonUuid(s)) && SameUuid(CanonUuid(s), s)
    ensures CanonUuid(s) == CanonUuid(t) <==> SameUuid(s, t)
  {
    UuidDigitsLowerHex(s);
    UuidDigitsLowerHex(t);
    HyphenateDigits(UuidDigits(s));
    HyphenateDigits(UuidDigits(t));
  }

  lemma {:induction false} HexGroupsLength(s: string, groups: nat)
    requires HexGroups(s, groups)
    ensures 4 * groups <= |s|
    decreases groups
  {
    if groups > 0 {
      if HexGroups(s[4..], groups - 1) {
        HexGroupsLength(s[4..], groups - 1);
      } else {
        HexGroupsLength(s[5..], groups - 1);
      }
    }
  }

  /** Text shorter than 32 characters never casts; a username such as
      "alice" is not a uuid. */
  lemma ShortTextIsNotUuid(s: string)
    requires |s| < 32
    ensures !CastsToUuid(s)
  {
    if HexGroups(s, 8) {
      HexGroupsLength(s, 8);
    }
    if |s| >= 2 && s[0] == '{' && s[|s| - 1] == '}' && HexGroups(s[1..|s| - 1], 8) {
      HexGroupsLength(s[1..|s| - 1], 8);
    }
  }

  // ---------------------------------------------------------- SQLite rows

  datatype SqliteRow = SqliteRow(
    id: string,
    title: string,
    description: string,
    latitude: real,
    longitude: real,
    address: Option<string>,
    tag: string,
    dueDate: string,
    femaleOnly: int,
    images: string,
    authorId: string,
    createdAt: string,
    status: string)

  /** Kotlin's joinToString(","). */
  function JoinComma(parts: seq<string>): (r: string)
    ensures parts == [] ==> r == []
  {
    if parts == [] then []
    else if |parts| == 1 then parts[0]
    else parts[0] + "," + JoinComma(parts[1..])
  }

  predicate NoComma(s: string) {
    forall i :: 0 <= i < |s| ==> s[i] != ','
  }

  /** Splitting the joined list gives the list back when no URL contains a
      comma (the empty list aside, which the blank check handles). */
  lemma {:induction false} SplitJoin(parts: seq<string>)
    requires parts != []
    requires forall i :: 0 <= i < |parts| ==> NoComma(parts[i])
    ensures Split(JoinComma(parts), ',') == parts
  {
    if |parts| == 1 {
      assert ',' !in parts[0];
    } else {
      SplitJoin(parts[1..]);
      assert ',' !in parts[0];
      SplitAfterPiece(parts[0], ',', JoinComma(parts[1..]));
    }
  }

  /** The images column as toPost reads it back. */
  function SplitImages(column: string): seq<string> {
    if IsBlank(column) then [] else Split(column, ',')
  }

  /** A joined list of two or more URLs contains a comma, so it is not blank. */
  lemma JoinedManyNotBlank(parts: seq<string>)
    requires |parts| >= 2
    ensures !IsBlank(JoinComma(parts))
  {
    var j := JoinComma(parts);
    assert j[|parts[0]|] == ',';
  }

  /** The SQLite image encoding round-trips exactly when no URL contains a
      comma and the list is not a single blank URL. */
  lemma ImagesRoundTrip(images: seq<string>)
    requires forall i :: 0 <= i < |images| ==> NoComma(images[i])
    requires !(|images| == 1 && IsBlank(images[0]))
    ensures SplitImages(JoinComma(images)) == images
  {
    if images != [] {
      if |images| >= 2 {
        JoinedManyNotBlank(images);
      }
      SplitJoin(images);
    }
  }

  /** The two ways the SQLite encoding loses images: a URL with a comma
      comes back as two, and a single blank URL comes back as none. */
  lemma ImagesRoundTripCounterexamples()
    ensures SplitImages(JoinComma(["a,b"])) == ["a", "b"]
    ensures SplitImages(JoinComma([" "])) == []
  {
    var empty: string := [];
    assert Split(empty, ',') == [empty];
    var b: string := ['b'];
    assert b[1..] == empty;
    assert Split(b, ',') == [[b[0]] + empty] + [];
    assert [b[0]] + empty == "b";
    var cb: string := [','] + b;
    assert cb[1..] == b;
    assert Split(cb, ',') == [empty, "b"];
    var acb: string := ['a'] + cb;
    assert acb[1..] == cb;
    assert Split(acb, ',') == [[acb[0]] + empty] + ["b"];
    assert [acb[0]] + empty == "a";
    assert JoinComma(["a,b"]) == acb;
    assert !IsBlank(acb) by { assert acb[0] == 'a'; }
  }

  function FemaleOnlyToColumn(femaleOnly: bool): int {
    if femaleOnly then 1 else 0
  }

  /** `femaleOnly != 0L` recovers the flag. */
  lemma FemaleOnlyRoundTrip(femaleOnly: bool)
    ensures (FemaleOnlyToColumn(femaleOnly) != 0) == femaleOnly
  {
  }

  /** The SQLite row insertPost writes, once `!!` has found id, authorId and
      createdAt present. */
  function ToSqliteRow(id: string, post: Post, authorId: string, createdAt: string): (row: SqliteRow)
    ensures row.id == id && row.authorId == authorId && row.createdAt == createdAt
    ensures row.tag == TagName(post.tag) && row.status == StatusName(post.status)
    ensures row.images == JoinComma(post.images) && row.femaleOnly == FemaleOnlyToColumn(post.femaleOnly)
    ensures row.latitude == post.location.latitude && row.longitude == post.location.longitude
  {
    SqliteRow(id, post.title, post.description, post.location.latitude, post.location.longitude,
              post.location.address, TagName(post.tag), post.dueDate, FemaleOnlyToColumn(post.femaleOnly),
              JoinComma(post.images), authorId, createdAt, StatusName(post.status))
  }

  /** toPost: the tag is decoded before the status. */
  function SqliteToPost(row: SqliteRow): Result<Post, PostRepoError> {
    var tag := TagValueOf(row.tag);
    if tag.None? then Err(BadEnumName(row.tag))
    else
      var status := StatusValueOf(row.status);
      if status.None? then Err(BadEnumName(row.status))
      else Ok(Post(Some(row.id), row.title, row.description,
                   Location(row.latitude, row.longitude, row.address),
                   tag.value, row.dueDate, row.femaleOnly != 0, SplitImages(row.images),
                   Some(row.authorId), Some(row.createdAt), status.value))
  }

  /** A post stored in SQLite reads back as itself when its images survive
      the comma encoding. */
  lemma SqliteRoundTrip(post: Post)
    requires post.id.Some? && post.authorId.Some? && post.createdAt.Some?
    requires forall i :: 0 <= i < |post.images| ==> NoComma(post.images[i])
    requires !(|post.images| == 1 && IsBlank(post.images[0]))
    ensures SqliteToPost(ToSqliteRow(post.id.value, post, post.authorId.value, post.createdAt.value)) == Ok(post)
  {
    ImagesRoundTrip(post.images);
  }

  // ------------------------------------------------------ PostgreSQL rows

  /** A PostGIS point: x is the longitude, y the latitude. */
  datatype Point = Point(x: real, y: real)

  /** ST_MakePoint(longitude, latitude). */
  function MakePoint(loc: Location): (p: Point)
    ensures p.x == loc.longitude && p.y == loc.latitude
  {
    Point(loc.longitude, loc.latitude)
  }

  /** ST_Y read back as the latitude and ST_X as the longitude. */
  function PointToLocation(p: Point, address: Option<string>): Location {
    Location(p.y, p.x, address)
  }

  /** The axes are not swapped: a location survives the point. */
  lemma PointRoundTrip(loc: Location)
    ensures PointToLocation(MakePoint(loc), loc.address) == loc
  {
  }

  datatype PgRow = PgRow(
    id: string,
    authorId: string,
    title: string,
    description: string,
    tag: string,
    location: Point,
    address: Option<string>,
    dueDate: string,
    femaleOnly: bool,
    status: string,
    createdAt: string)

  datatype ImageRow = ImageRow(postId: string, imageUrl: string, displayOrder: int)

  /** The row insertPostPostgreSQL writes: id and author id go through
      `::uuid`, so the table holds their canonical text. */
  function ToPgRow(id: string, post: Post, authorId: string, createdAt: string): (row: PgRow)
    requires CastsToUuid(id) && CastsToUuid(authorId)
    ensures row.id == CanonUuid(id) && row.authorId == CanonUuid(authorId) && row.createdAt == createdAt
    ensures row.location == MakePoint(post.location)
    ensures row.tag == TagName(post.tag) && row.status == StatusName(post.status)
  {
    PgRow(CanonUuid(id), CanonUuid(authorId), post.title, post.description, TagName(post.tag), MakePoint(post.location),
          post.location.address, post.dueDate, post.femaleOnly, StatusName(post.status), createdAt)
  }

  /** The image rows the forEachIndexed loop inserts: one per URL, in order,
      with its index as display order. */
  function ImageRowsFor(postId: string, images: seq<string>): (rs: seq<ImageRow>)
    ensures |rs| == |images|
    ensures forall k :: 0 <= k < |rs| ==> rs[k] == ImageRow(postId, images[k], k)
  {
    seq(|images|, k requires 0 <= k < |images| => ImageRow(postId, images[k], k))
  }

  /** The image rows of one post, in table order. */
  function ImagesOf(rows: seq<ImageRow>, postId: string): (r: seq<ImageRow>)
    ensures forall k :: 0 <= k < |r| ==> r[k].postId == postId && r[k] in rows
  {
    if rows == [] then []
    else if rows[0].postId == postId then [rows[0]] + ImagesOf(rows[1..], postId)
    else ImagesOf(rows[1..], postId)
  }

  lemma {:induction false} ImagesOfAppend(a: seq<ImageRow>, b: seq<ImageRow>, postId: string)
    ensures ImagesOf(a + b, postId) == ImagesOf(a, postId) + ImagesOf(b, postId)
  {
    if a == [] {
      assert a + b == b;
    } else {
      assert (a + b)[0] == a[0] && (a + b)[1..] == a[1..] + b;
      ImagesOfAppend(a[1..], b, postId);
    }
  }

  lemma {:induction false} ImagesOfNone(rows: seq<ImageRow>, postId: string)
    requires forall k :: 0 <= k < |rows| ==> rows[k].postId != postId
    ensures ImagesOf(rows, postId) == []
  {
    if rows != [] {
      ImagesOfNone(rows[1..], postId);
    }
  }

  lemma {:induction false} ImagesOfAll(rows: seq<ImageRow>, postId: string)
    requires forall k :: 0 <= k < |rows| ==> rows[k].postId == postId
    ensures ImagesOf(rows, postId) == rows
  {
    if rows != [] {
      ImagesOfAll(rows[1..], postId);
    }
  }

  /** DELETE FROM post_images WHERE post_id = ? */
  function RemoveImagesOf(rows: seq<ImageRow>, postId: string): (r: seq<ImageRow>)
    ensures forall k :: 0 <= k < |r| ==> r[k].postId != postId && r[k] in rows
  {
    if rows == [] then []
    else if rows[0].postId == postId then RemoveImagesOf(rows[1..], postId)
    else [rows[0]] + RemoveImagesOf(rows[1..], postId)
  }

  /** Removing one post's images leaves every other post's images as they were. */
  lemma {:induction false} ImagesOfAfterRemove(rows: seq<ImageRow>, removed: string, postId: string)
    ensures ImagesOf(RemoveImagesOf(rows, removed), postId) == if postId == removed then [] else ImagesOf(rows, postId)
  {
    if rows != [] {
      ImagesOfAfterRemove(rows[1..], removed, postId);
    }
  }

  /** Insertion of one row in front of the first row with a larger or
      equal display order. */
  function InsertByOrder(r: ImageRow, sorted: seq<ImageRow>): (out: seq<ImageRow>)
    ensures multiset(out) == multiset(sorted) + multiset{r}
    ensures |out| == |sorted| + 1
    ensures forall k :: 0 <= k < |out| ==> out[k] == r || out[k] in sorted
  {
    if sorted == [] then [r]
    else if r.displayOrder <= sorted[0].displayOrder then [r] + sorted
    else
      assert sorted == [sorted[0]] + sorted[1..];
      [sorted[0]] + InsertByOrder(r, sorted[1..])
  }

  /** A row no later than any row of a sorted list can go in front of it. */
  lemma SortedCons(x: ImageRow, rows: seq<ImageRow>)
    requires SortedByOrder(rows)
    requires forall k :: 0 <= k < |rows| ==> x.displayOrder <= rows[k].displayOrder
    ensures SortedByOrder([x] + rows)
  {
    var out := [x] + rows;
    forall i, j | 0 <= i < j < |out|
      ensures out[i].displayOrder <= out[j].displayOrder
    {
      assert out[j] == rows[j - 1];
      if i > 0 {
        assert out[i] == rows[i - 1];
      }
    }
  }

  /** Insertion into a sorted list keeps it sorted. */
  lemma {:induction false} InsertByOrderSorted(r: ImageRow, sorted: seq<ImageRow>)
    requires SortedByOrder(sorted)
    ensures SortedByOrder(InsertByOrder(r, sorted))
  {
    if sorted == [] {
    } else if r.displayOrder <= sorted[0].displayOrder {
      SortedCons(r, sorted);
    } else {
      var rest := sorted[1..];
      assert SortedByOrder(rest) by {
        forall i, j | 0 <= i < j < |rest|
          ensures rest[i].displayOrder <= rest[j].displayOrder
        {
          assert rest[i] == sorted[i + 1] && rest[j] == sorted[j + 1];
        }
      }
      InsertByOrderSorted(r, rest);
      var tail := InsertByOrder(r, rest);
      forall k | 0 <= k < |tail|
        ensures sorted[0].displayOrder <= tail[k].displayOrder
      {
        if tail[k] != r {
          var m :| 0 <= m < |rest| && rest[m] == tail[k];
          assert sorted[m + 1] == tail[k];
        }
      }
      SortedCons(sorted[0], tail);
    }
  }

  predicate SortedByOrder(rows: seq<ImageRow>) {
    forall i, j :: 0 <= i < j < |rows| ==> rows[i].displayOrder <= rows[j].displayOrder
  }

  /** array_agg(... ORDER BY display_order): the rows sorted by display
      order, a permutation of what was there. */
  function SortByOrder(rows: seq<ImageRow>): (out: seq<ImageRow>)
    ensures multiset(out) == multiset(rows)
    ensures SortedByOrder(out)
  {
    if rows == [] then []
    else
      assert rows == [rows[0]] + rows[1..];
      var rest := SortByOrder(rows[1..]);
      InsertByOrderSorted(rows[0], rest);
      InsertByOrder(rows[0], rest)
  }

  /** Rows whose display orders already increase are left in place. */
  lemma {:induction false} SortByOrderIncreasing(rows: seq<ImageRow>)
    requires forall i, j :: 0 <= i < j < |rows| ==> rows[i].displayOrder < rows[j].displayOrder
    ensures SortByOrder(rows) == rows
  {
    if rows != [] {
      SortByOrderIncreasing(rows[1..]);
      assert rows == [rows[0]] + rows[1..];
    }
  }

  /** The display orders of one post's rows are 0, 1, 2, ... in table order. */
  predicate Indexed(rows: seq<ImageRow>) {
    forall k :: 0 <= k < |rows| ==> rows[k].displayOrder == k
  }

  function Urls(rows: seq<ImageRow>): (urls: seq<string>)
    ensures |urls| == |rows| && forall k :: 0 <= k < |rows| ==> urls[k] == rows[k].imageUrl
  {
    seq(|rows|, k requires 0 <= k < |rows| => rows[k].imageUrl)
  }

  /** The images column of the PostgreSQL queries for one post. */
  function PgImages(imageRows: seq<ImageRow>, postId: string): seq<string> {
    Urls(SortByOrder(ImagesOf(imageRows, postId)))
  }

  /** When a post's rows are indexed, its images read back in insertion order. */
  lemma PgImagesIndexed(imageRows: seq<ImageRow>, postId: string)
    requires Indexed(ImagesOf(imageRows, postId))
    ensures PgImages(imageRows, postId) == Urls(ImagesOf(imageRows, postId))
  {
    SortByOrderIncreasing(ImagesOf(imageRows, postId));
  }

  /** The images a post gets from the loop read back as the list it had. */
  lemma ImageRowsRoundTrip(postId: string, images: seq<string>)
    ensures PgImages(ImageRowsFor(postId, images), postId) == images
  {
    ImagesOfAll(ImageRowsFor(postId, images), postId);
    PgImagesIndexed(ImageRowsFor(postId, images), postId);
  }

  /** resultSetToPost: the tag is decoded before the status. */
  function PgToPost(row: PgRow, imageRows: seq<ImageRow>): Result<Post, PostRepoError> {
    var tag := TagValueOf(row.tag);
    if tag.None? then Err(BadEnumName(row.tag))
    else
      var status := StatusValueOf(row.status);
      if status.None? then Err(BadEnumName(row.status))
      else Ok(Post(Some(row.id), row.title, row.description, PointToLocation(row.location, row.address),
                   tag.value, row.dueDate, row.femaleOnly, PgImages(imageRows, row.id),
                   Some(row.authorId), Some(row.createdAt), status.value))
  }

  /** A post stored in PostgreSQL reads back as itself, location
      untransposed and images in order, except that its id and author id come
      back as canonical uuid text; text already canonical comes back unchanged. */
  lemma PgRoundTrip(post: Post, imageRows: seq<ImageRow>)
    requires post.id.Some? && post.authorId.Some? && post.createdAt.Some?
    requires CastsToUuid(post.id.value) && CastsToUuid(post.authorId.value)
    requires ImagesOf(imageRows, CanonUuid(post.id.value)) == ImageRowsFor(CanonUuid(post.id.value), post.images)
    ensures PgToPost(ToPgRow(post.id.value, post, post.authorId.value, post.createdAt.value), imageRows)
      == Ok(post.(id := Some(CanonUuid(post.id.value)), authorId := Some(CanonUuid(post.authorId.value))))
    ensures IsCanonicalUuid(post.id.value) && IsCanonicalUuid(post.authorId.value) ==>
      PgToPost(ToPgRow(post.id.value, post, post.authorId.value, post.createdAt.value), imageRows) == Ok(post)
  {
    var id := CanonUuid(post.id.value);
    ImageRowsRoundTrip(id, post.images);
    ImagesOfAll(ImageRowsFor(id, post.images), id);
  }

  // ------------------------------------------------------- table queries

  predicate SqliteHasId(rows: seq<SqliteRow>, id: string) {
    exists k :: 0 <= k < |rows| && rows[k].id == id
  }

  predicate PgHasId(rows: seq<PgRow>, id: string) {
    exists k :: 0 <= k < |rows| && rows[k].id == id
  }

  predicate SqliteIdsUnique(rows: seq<SqliteRow>) {
    forall i, j :: 0 <= i < j < |rows| ==> rows[i].id != rows[j].id
  }

  predicate PgIdsUnique(rows: seq<PgRow>) {
    forall i, j :: 0 <= i < j < |rows| ==> rows[i].id != rows[j].id
  }

  /** DELETE FROM posts WHERE id = ? (SQLite). */
  function SqliteRemove(rows: seq<SqliteRow>, id: string): (r: seq<SqliteRow>)
    ensures forall k :: 0 <= k < |r| ==> r[k].id != id && r[k] in rows
    ensures forall k :: 0 <= k < |rows| && rows[k].id != id ==> rows[k] in r
    ensures |r| <= |rows|
  {
    if rows == [] then []
    else if rows[0].id == id then SqliteRemove(rows[1..], id)
    else [rows[0]] + SqliteRemove(rows[1..], id)
  }

  /** DELETE FROM posts WHERE id = ?::uuid (PostgreSQL). */
  function PgRemove(rows: seq<PgRow>, id: string): (r: seq<PgRow>)
    ensures forall k :: 0 <= k < |r| ==> r[k].id != id && r[k] in rows
    ensures forall k :: 0 <= k < |rows| && rows[k].id != id ==> rows[k] in r
  {
    if rows == [] then []
    else if rows[0].id == id then PgRemove(rows[1..], id)
    else [rows[0]] + PgRemove(rows[1..], id)
  }

  lemma {:induction false} SqliteRemoveKeepsUnique(rows: seq<SqliteRow>, id: string)
    requires SqliteIdsUnique(rows)
    ensures SqliteIdsUnique(SqliteRemove(rows, id))
  {
    if rows != [] {
      SqliteRemoveKeepsUnique(rows[1..], id);
      var tail := SqliteRemove(rows[1..], id);
      assert forall k :: 0 <= k < |tail| ==> tail[k] in rows[1..];
    }
  }

  lemma {:induction false} PgRemoveKeepsUnique(rows: seq<PgRow>, id: string)
    requires PgIdsUnique(rows)
    ensures PgIdsUnique(PgRemove(rows, id))
  {
    if rows != [] {
      PgRemoveKeepsUnique(rows[1..], id);
      var tail := PgRemove(rows[1..], id);
      assert forall k :: 0 <= k < |tail| ==> tail[k] in rows[1..];
    }
  }

  /** UPDATE posts SET status = ? WHERE id = ? */
  function SqliteSetStatus(rows: seq<SqliteRow>, id: string, status: PostStatus): (r: seq<SqliteRow>)
    ensures |r| == |rows|
  {
    seq(|rows|, k requires 0 <= k < |rows| => if rows[k].id == id then rows[k].(status := StatusName(status)) else rows[k])
  }

  function PgSetStatus(rows: seq<PgRow>, id: string, status: PostStatus): (r: seq<PgRow>)
    ensures |r| == |rows| && forall k :: 0 <= k < |r| ==> r[k].id == rows[k].id
  {
    seq(|rows|, k requires 0 <= k < |rows| => if rows[k].id == id then rows[k].(status := StatusName(status)) else rows[k])
  }

  /** The UPDATE of updatePostPostgreSQL: every column of the post but its
      id, author and creation time. */
  function PgOverwrite(row: PgRow, post: Post): (r: PgRow)
    ensures r.id == row.id && r.authorId == row.authorId && r.createdAt == row.createdAt
  {
    PgRow(row.id, row.authorId, post.title, post.description, TagName(post.tag), MakePoint(post.location),
          post.location.address, post.dueDate, post.femaleOnly, StatusName(post.status), row.createdAt)
  }

  function PgUpdateRows(rows: seq<PgRow>, id: string, post: Post): (r: seq<PgRow>)
    ensures |r| == |rows| && forall k :: 0 <= k < |r| ==> r[k].id == rows[k].id
  {
    seq(|rows|, k requires 0 <= k < |rows| => if rows[k].id == id then PgOverwrite(rows[k], post) else rows[k])
  }

  /** getPostById (SQLite): executeAsOneOrNull on the matching row. */
  function SqliteFind(rows: seq<SqliteRow>, id: string): (r: Result<Option<Post>, PostRepoError>)
    ensures r.Ok? && r.value.Some? ==>
      && SqliteHasId(rows, id) && r.value.value.id == Some(id)
      && r.value.value.authorId.Some? && r.value.value.createdAt.Some?
  {
    if rows == [] then Ok(None)
    else if rows[0].id == id then
      match SqliteToPost(rows[0]) case Ok(p) => Ok(Some(p)) case Err(e) => Err(e)
    else SqliteFind(rows[1..], id)
  }

  /** getPostByIdPostgreSQL after the cast: the matching row with its images. */
  function PgFind(rows: seq<PgRow>, imageRows: seq<ImageRow>, id: string): (r: Result<Option<Post>, PostRepoError>)
    ensures r.Ok? && r.value.Some? ==>
      && PgHasId(rows, id) && r.value.value.id == Some(id)
      && r.value.value.authorId.Some? && r.value.value.createdAt.Some?
  {
    if rows == [] then Ok(None)
    else if rows[0].id == id then
      match PgToPost(rows[0], imageRows) case Ok(p) => Ok(Some(p)) case Err(e) => Err(e)
    else PgFind(rows[1..], imageRows, id)
  }

  lemma {:induction false} SqliteFindAbsent(rows: seq<SqliteRow>, id: string)
    ensures SqliteFind(rows, id) == Ok(None) <==> !SqliteHasId(rows, id)
  {
    if rows != [] {
      SqliteFindAbsent(rows[1..], id);
      if SqliteHasId(rows[1..], id) {
        var k :| 0 <= k < |rows[1..]| && rows[1..][k].id == id;
        assert rows[k + 1].id == id;
      }
      if rows[0].id != id && SqliteHasId(rows, id) {
        var k :| 0 <= k < |rows| && rows[k].id == id;
        assert rows[1..][k - 1].id == id;
      }
    }
  }

  lemma {:induction false} PgFindAbsent(rows: seq<PgRow>, imageRows: seq<ImageRow>, id: string)
    ensures PgFind(rows, imageRows, id) == Ok(None) <==> !PgHasId(rows, id)
  {
    if rows != [] {
      PgFindAbsent(rows[1..], imageRows, id);
      if PgHasId(rows[1..], id) {
        var k :| 0 <= k < |rows[1..]| && rows[1..][k].id == id;
        assert rows[k + 1].id == id;
      }
      if rows[0].id != id && PgHasId(rows, id) {
        var k :| 0 <= k < |rows| && rows[k].id == id;
        assert rows[1..][k - 1].id == id;
      }
    }
  }

  /** Looking up the last row, when no earlier row has its id, decodes it. */
  lemma {:induction false} SqliteFindLast(rows: seq<SqliteRow>, row: SqliteRow)
    requires !SqliteHasId(rows, row.id)
    ensures SqliteFind(rows + [row], row.id) == match SqliteToPost(row) case Ok(p) => Ok(Some(p)) case Err(e) => Err(e)
  {
    if rows == [] {
      assert rows + [row] == [row];
    } else {
      assert (rows + [row])[0] == rows[0] && (rows + [row])[1..] == rows[1..] + [row];
      assert !SqliteHasId(rows[1..], row.id) by {
        forall k | 0 <= k < |rows[1..]|
          ensures rows[1..][k].id != row.id
        {
          assert rows[1..][k] == rows[k + 1];
        }
      }
      SqliteFindLast(rows[1..], row);
    }
  }

  lemma {:induction false} PgFindLast(rows: seq<PgRow>, imageRows: seq<ImageRow>, row: PgRow)
    requires !PgHasId(rows, row.id)
    ensures PgFind(rows + [row], imageRows, row.id) == match PgToPost(row, imageRows) case Ok(p) => Ok(Some(p)) case Err(e) => Err(e)
  {
    if rows == [] {
      assert rows + [row] == [row];
    } else {
      assert (rows + [row])[0] == rows[0] && (rows + [row])[1..] == rows[1..] + [row];
      assert !PgHasId(rows[1..], row.id) by {
        forall k | 0 <= k < |rows[1..]|
          ensures rows[1..][k].id != row.id
        {
          assert rows[1..][k] == rows[k + 1];
        }
      }
      PgFindLast(rows[1..], imageRows, row);
    }
  }

  /** Every stored post id is canonical uuid text: the column has type uuid,
      and PostgreSQL writes a uuid back out in canonical form. */
  predicate PgKeysCanonical(rows: seq<PgRow>) {
    forall k {:trigger KeyCanonical(rows[k])} :: 0 <= k < |rows| ==> KeyCanonical(rows[k])
  }

  predicate KeyCanonical(row: PgRow) {
    IsCanonicalUuid(row.id)
  }

  /** Some stored post has the uuid value of `id`, however `id` is written. */
  predicate PgHasUuid(rows: seq<PgRow>, id: string)
    requires CastsToUuid(id)
  {
    exists k :: 0 <= k < |rows| && CastsToUuid(rows[k].id) && SameUuid(rows[k].id, id)
  }

  /** With canonical keys, `id = ?::uuid` compares uuid values: the row whose
      text is the canonical text of `id` is the row with the same value. */
  lemma PgHasUuidIff(rows: seq<PgRow>, id: string)
    requires PgKeysCanonical(rows) && CastsToUuid(id)
    ensures PgHasId(rows, CanonUuid(id)) <==> PgHasUuid(rows, id)
  {
    if PgHasId(rows, CanonUuid(id)) {
      var k :| 0 <= k < |rows| && rows[k].id == CanonUuid(id);
      assert KeyCanonical(rows[k]);
      CanonUuidFacts(rows[k].id, id);
      assert CastsToUuid(rows[k].id) && SameUuid(rows[k].id, id);
    }
    if PgHasUuid(rows, id) {
      var k :| 0 <= k < |rows| && CastsToUuid(rows[k].id) && SameUuid(rows[k].id, id);
      assert KeyCanonical(rows[k]);
      CanonUuidFacts(rows[k].id, id);
    }
  }

  /** getPostByIdPostgreSQL finds nothing exactly when no stored post has the
      uuid value of `id`. */
  lemma PgFindAbsentByUuid(rows: seq<PgRow>, imageRows: seq<ImageRow>, id: string)
    requires PgKeysCanonical(rows) && CastsToUuid(id)
    ensures PgFind(rows, imageRows, CanonUuid(id)) == Ok(None) <==> !PgHasUuid(rows, id)
  {
    PgFindAbsent(rows, imageRows, CanonUuid(id));
    PgHasUuidIff(rows, id);
  }

  /** After a delete the id is gone and every other id reads as before. */
  lemma {:induction false} SqliteFindRemove(rows: seq<SqliteRow>, id: string, other: string)
    ensures SqliteFind(SqliteRemove(rows, id), other) == if other == id then Ok(None) else SqliteFind(rows, other)
  {
    if rows != [] {
      SqliteFindRemove(rows[1..], id, other);
      if rows[0].id != id {
        assert ([rows[0]] + SqliteRemove(rows[1..], id))[1..] == SqliteRemove(rows[1..], id);
      }
    }
  }

  /** Deleting a post and its image rows: the id is gone and every other id
      reads back as before, images included. */
  lemma {:induction false} PgFindRemove(rows: seq<PgRow>, imageRows: seq<ImageRow>, id: string, other: string)
    ensures PgFind(PgRemove(rows, id), RemoveImagesOf(imageRows, id), other)
      == if other == id then Ok(None) else PgFind(rows, imageRows, other)
  {
    if rows != [] {
      PgFindRemove(rows[1..], imageRows, id, other);
      if rows[0].id != id {
        assert ([rows[0]] + PgRemove(rows[1..], id))[1..] == PgRemove(rows[1..], id);
        if rows[0].id == other {
          ImagesOfAfterRemove(imageRows, id, other);
          assert PgImages(RemoveImagesOf(imageRows, id), other) == PgImages(imageRows, other);
        }
      }
    }
  }

  /** Deleting by uuid value: no post with that value is left, and every post
      with another value reads back as before. */
  lemma DeleteRemovesOnlyThatPost(rows: seq<PgRow>, imageRows: seq<ImageRow>, id: string, other: string)
    requires PgKeysCanonical(rows) && CastsToUuid(id) && CastsToUuid(other)
    ensures !PgHasUuid(PgRemove(rows, CanonUuid(id)), id)
    ensures !SameUuid(id, other) ==>
      PgFind(PgRemove(rows, CanonUuid(id)), RemoveImagesOf(imageRows, CanonUuid(id)), CanonUuid(other))
        == PgFind(rows, imageRows, CanonUuid(other))
  {
    var r := PgRemove(rows, CanonUuid(id));
    RemoveKeepsCanonical(rows, CanonUuid(id));
    PgHasUuidIff(r, id);
    CanonUuidFacts(id, other);
    PgFindRemove(rows, imageRows, CanonUuid(id), CanonUuid(other));
  }

  /** Setting a status: the post with that id reads back with the new status
      and every other id reads as before. */
  lemma {:induction false} SqliteFindSetStatus(rows: seq<SqliteRow>, id: string, status: PostStatus, other: string)
    ensures other != id ==> SqliteFind(SqliteSetStatus(rows, id, status), other) == SqliteFind(rows, other)
    ensures other == id && SqliteFind(rows, id).Ok? && SqliteFind(rows, id).value.Some? ==>
      SqliteFind(SqliteSetStatus(rows, id, status), id) == Ok(Some(SqliteFind(rows, id).value.value.(status := status)))
  {
    if rows != [] {
      SqliteFindSetStatus(rows[1..], id, status, other);
      assert SqliteSetStatus(rows, id, status)[1..] == SqliteSetStatus(rows[1..], id, status);
    }
  }

  lemma {:induction false} PgFindSetStatus(rows: seq<PgRow>, imageRows: seq<ImageRow>, id: string, status: PostStatus, other: string)
    ensures other != id ==> PgFind(PgSetStatus(rows, id, status), imageRows, other) == PgFind(rows, imageRows, other)
    ensures other == id && PgFind(rows, imageRows, id).Ok? && PgFind(rows, imageRows, id).value.Some? ==>
      PgFind(PgSetStatus(rows, id, status), imageRows, id)
        == Ok(Some(PgFind(rows, imageRows, id).value.value.(status := status)))
  {
    if rows != [] {
      PgFindSetStatus(rows[1..], imageRows, id, status, other);
      assert PgSetStatus(rows, id, status)[1..] == PgSetStatus(rows[1..], id, status);
    }
  }

  /** getAllPosts (SQLite): `.map { it.toPost() }`; the first row that does
      not decode aborts the list. */
  function SqliteDecodeAll(rows: seq<SqliteRow>): Result<seq<Post>, PostRepoError> {
    MapAll(rows, SqliteToPost)
  }

  /** resultSetToPost with the image table at hand. */
  function PgDecoder(imageRows: seq<ImageRow>): PgRow -> Result<Post, PostRepoError> {
    row => PgToPost(row, imageRows)
  }

  /** getAllPostsPostgreSQL: every post row with its images, in order. */
  function PgDecodeAll(rows: seq<PgRow>, imageRows: seq<ImageRow>): Result<seq<Post>, PostRepoError> {
    MapAll(rows, PgDecoder(imageRows))
  }

  /** What `?::uuid` makes of a text: its canonical uuid text, or nothing
      when the cast throws. */
  function PgKey(id: string): (key: Option<string>)
    ensures key.Some? <==> CastsToUuid(id)
  {
    if CastsToUuid(id) then Some(CanonUuid(id)) else None
  }

  /** The key is canonical uuid text denoting the same uuid, and two texts
      share a key exactly when they denote the same uuid. */
  lemma PgKeyFacts(id: string, other: string)
    requires CastsToUuid(id) && CastsToUuid(other)
    ensures IsCanonicalUuid(PgKey(id).value) && SameUuid(PgKey(id).value, id)
    ensures PgKey(id) == PgKey(other) <==> SameUuid(id, other)
  {
    CanonUuidFacts(id, other);
  }

  /** getPostByIdPostgreSQL: the cast throws on a text that is no uuid;
      otherwise the row under the uuid's canonical text. */
  function PgLookup(rows: seq<PgRow>, imageRows: seq<ImageRow>, id: string): Result<Option<Post>, PostRepoError> {
    if CastsToUuid(id) then PgFind(rows, imageRows, CanonUuid(id)) else Err(InvalidUuid)
  }

  /** deletePostPostgreSQL by lookups: the uuid of `id` is gone and every
      other text reads back as before. */
  lemma PgLookupAfterRemove(rows: seq<PgRow>, imageRows: seq<ImageRow>, id: string)
    requires CastsToUuid(id)
    ensures PgLookup(PgRemove(rows, CanonUuid(id)), RemoveImagesOf(imageRows, CanonUuid(id)), id) == Ok(None)
    ensures forall other :: PgKey(other) != PgKey(id) ==>
      PgLookup(PgRemove(rows, CanonUuid(id)), RemoveImagesOf(imageRows, CanonUuid(id)), other) == PgLookup(rows, imageRows, other)
  {
    var key := CanonUuid(id);
    PgFindRemove(rows, imageRows, key, key);
    forall other | PgKey(other) != PgKey(id)
      ensures PgLookup(PgRemove(rows, key), RemoveImagesOf(imageRows, key), other) == PgLookup(rows, imageRows, other)
    {
      if CastsToUuid(other) {
        PgFindRemove(rows, imageRows, key, CanonUuid(other));
      }
    }
  }

  /** updatePostStatus (PostgreSQL) by lookups: the post under the uuid of
      `id` reads back with the new status and every other text as before. */
  lemma PgLookupAfterSetStatus(rows: seq<PgRow>, imageRows: seq<ImageRow>, id: string, status: PostStatus)
    requires CastsToUuid(id)
    ensures PgLookup(rows, imageRows, id).Ok? && PgLookup(rows, imageRows, id).value.Some? ==>
      PgLookup(PgSetStatus(rows, CanonUuid(id), status), imageRows, id)
        == Ok(Some(PgLookup(rows, imageRows, id).value.value.(status := status)))
    ensures forall other :: PgKey(other) != PgKey(id) ==>
      PgLookup(PgSetStatus(rows, CanonUuid(id), status), imageRows, other) == PgLookup(rows, imageRows, other)
  {
    var key := CanonUuid(id);
    PgFindSetStatus(rows, imageRows, key, status, key);
    forall other | PgKey(other) != PgKey(id)
      ensures PgLookup(PgSetStatus(rows, key, status), imageRows, other) == PgLookup(rows, imageRows, other)
    {
      if CastsToUuid(other) {
        PgFindSetStatus(rows, imageRows, key, status, CanonUuid(other));
      }
    }
  }

  /** deletePostById (SQLite) by lookups. */
  lemma SqliteLookupAfterRemove(rows: seq<SqliteRow>, id: string)
    ensures SqliteFind(SqliteRemove(rows, id), id) == Ok(None)
    ensures forall other :: other != id ==> SqliteFind(SqliteRemove(rows, id), other) == SqliteFind(rows, other)
  {
    SqliteFindRemove(rows, id, id);
    forall other | other != id
      ensures SqliteFind(SqliteRemove(rows, id), other) == SqliteFind(rows, other)
    {
      SqliteFindRemove(rows, id, other);
    }
  }

  /** updatePostStatus (SQLite) by lookups. */
  lemma SqliteLookupAfterSetStatus(rows: seq<SqliteRow>, id: string, status: PostStatus)
    ensures SqliteFind(rows, id).Ok? && SqliteFind(rows, id).value.Some? ==>
      SqliteFind(SqliteSetStatus(rows, id, status), id) == Ok(Some(SqliteFind(rows, id).value.value.(status := status)))
    ensures forall other :: other != id ==> SqliteFind(SqliteSetStatus(rows, id, status), other) == SqliteFind(rows, other)
  {
    SqliteFindSetStatus(rows, id, status, id);
    forall other | other != id
      ensures SqliteFind(SqliteSetStatus(rows, id, status), other) == SqliteFind(rows, other)
    {
      SqliteFindSetStatus(rows, id, status, other);
    }
  }

  // --------------------------------------------------------- repository

  class PostRepository {
    /** DatabaseFactory.isPostgreSQL at construction time. */
    const usePostgreSQL: bool
    /** The SQLite posts table. */
    var sqliteRows: seq<SqliteRow>
    /** The PostgreSQL posts table. */
    var pgRows: seq<PgRow>
    /** The PostgreSQL post_images table. */
    var imageRows: seq<ImageRow>

    /** Primary key on posts.id; PostgreSQL ids are canonical uuid text;
        every image row belongs to a post; each post's image rows carry the
        display orders 0, 1, 2, ... in table order. */
    ghost predicate Valid()
      reads this
    {
      && SqliteIdsUnique(sqliteRows)
      && PgIdsUnique(pgRows)
      && PgKeysCanonical(pgRows)
      && (forall k :: 0 <= k < |imageRows| ==> PgHasId(pgRows, imageRows[k].postId))
      && (forall id :: Indexed(ImagesOf(imageRows, id)))
    }

    /** The key a query with `id` matches: with SQLite the text itself; with
        PostgreSQL the canonical text of the uuid that `?::uuid` makes of it,
        and none when the cast throws. */
    function Key(id: string): Option<string> {
      if usePostgreSQL then PgKey(id) else Some(id)
    }

    /** What getPostById returns for `id` in the current state. */
    function Lookup(id: string): Result<Option<Post>, PostRepoError>
      reads this
    {
      if usePostgreSQL then PgLookup(pgRows, imageRows, id) else SqliteFind(sqliteRows, id)
    }

    /** What getAllPosts returns in the current state. */
    function AllPosts(): Result<seq<Post>, PostRepoError>
      reads this
    {
      if usePostgreSQL then PgDecodeAll(pgRows, imageRows) else SqliteDecodeAll(sqliteRows)
    }

    /** Whether a post with `id` is stored; with PostgreSQL, one with the
        same uuid value. */
    predicate HasPost(id: string)
      reads this
    {
      if usePostgreSQL then CastsToUuid(id) && PgHasUuid(pgRows, id) else SqliteHasId(sqliteRows, id)
    }

    /** Empty tables. */
    constructor(usePostgreSQL: bool)
      ensures this.usePostgreSQL == usePostgreSQL && Valid()
      ensures sqliteRows == [] && pgRows == [] && imageRows == []
    {
      this.usePostgreSQL := usePostgreSQL;
      sqliteRows := [];
      pgRows := [];
      imageRows := [];
    }

    /** The image loop of insertPostPostgreSQL and updatePostPostgreSQL. */
    method InsertImages(postId: string, images: seq<string>)
      modifies this
      ensures imageRows == old(imageRows) + ImageRowsFor(postId, images)
      ensures sqliteRows == old(sqliteRows) && pgRows == old(pgRows)
    {
      for i := 0 to |images|
        invariant imageRows == old(imageRows) + ImageRowsFor(postId, images[..i])
        invariant sqliteRows == old(sqliteRows) && pgRows == old(pgRows)
      {
        assert ImageRowsFor(postId, images[..i + 1]) == ImageRowsFor(postId, images[..i]) + [ImageRow(postId, images[i], i)];
        imageRows := imageRows + [ImageRow(postId, images[i], i)];
      }
      assert images[..|images|] == images;
    }

    /** insertPost. With SQLite, the `!!` on id, authorId and createdAt
        throws before anything is written; with PostgreSQL, see InsertPostPg. */
    method InsertPost(post: Post) returns (err: Option<PostRepoError>)
      requires Valid()
      modifies this
      ensures Valid()
      ensures post.id.None? || post.authorId.None? || post.createdAt.None? ==>
        err == Some(NullPointer) && unchanged(this)
      ensures !usePostgreSQL && post.id.Some? && post.authorId.Some? && post.createdAt.Some? ==>
        if SqliteHasId(old(sqliteRows), post.id.value) then err == Some(DuplicateKey) && unchanged(this)
        else (err == None && pgRows == old(pgRows) && imageRows == old(imageRows)
          && sqliteRows == old(sqliteRows) + [ToSqliteRow(post.id.value, post, post.authorId.value, post.createdAt.value)])
      ensures usePostgreSQL && post.id.Some? && post.authorId.Some? && post.createdAt.Some? ==>
        if !CastsToUuid(post.id.value) || !CastsToUuid(post.authorId.value) then err == Some(InvalidUuid) && unchanged(this)
        else if PgHasId(old(pgRows), CanonUuid(post.id.value)) then err == Some(DuplicateKey) && unchanged(this)
        else (err == None && sqliteRows == old(sqliteRows)
          && pgRows == old(pgRows) + [ToPgRow(post.id.value, post, post.authorId.value, post.createdAt.value)]
          && imageRows == old(imageRows) + ImageRowsFor(CanonUuid(post.id.value), post.images))
      ensures (post.id.Some? && post.authorId.Some? && post.createdAt.Some?
               && Key(post.id.value).Some? && (usePostgreSQL ==> CastsToUuid(post.authorId.value))) ==>
        (err == Some(DuplicateKey) <==> old(HasPost(post.id.value)))
    {
      if usePostgreSQL {
        err := InsertPostPg(post);
        return;
      }
      if post.id.None? || post.authorId.None? || post.createdAt.None? {
        return Some(NullPointer);
      }
      var id := post.id.value;
      if SqliteHasId(sqliteRows, id) {
        return Some(DuplicateKey);
      }
      var row := ToSqliteRow(id, post, post.authorId.value, post.createdAt.value);
      sqliteRows := sqliteRows + [row];
      return None;
    }

    /** insertPostPostgreSQL: the `!!` on id, authorId and createdAt, a failed
        cast of the id or the author id and a taken uuid each throw before
        anything is written; the post row holds the canonical uuids, and the
        image rows, under the same key, follow it. */
    method InsertPostPg(post: Post) returns (err: Option<PostRepoError>)
      requires Valid() && usePostgreSQL
      modifies this
      ensures Valid()
      ensures post.id.None? || post.authorId.None? || post.createdAt.None? ==>
        err == Some(NullPointer) && unchanged(this)
      ensures post.id.Some? && post.authorId.Some? && post.createdAt.Some? ==>
        if !CastsToUuid(post.id.value) || !CastsToUuid(post.authorId.value) then err == Some(InvalidUuid) && unchanged(this)
        else if PgHasId(old(pgRows), CanonUuid(post.id.value)) then err == Some(DuplicateKey) && unchanged(this)
        else (err == None && sqliteRows == old(sqliteRows)
          && pgRows == old(pgRows) + [ToPgRow(post.id.value, post, post.authorId.value, post.createdAt.value)]
          && imageRows == old(imageRows) + ImageRowsFor(CanonUuid(post.id.value), post.images))
      ensures (post.id.Some? && post.authorId.Some? && post.createdAt.Some?
               && CastsToUuid(post.id.value) && CastsToUuid(post.authorId.value)) ==>
        (err == Some(DuplicateKey) <==> old(PgHasUuid(pgRows, post.id.value)))
    {
      if post.id.None? || post.authorId.None? || post.createdAt.None? {
        return Some(NullPointer);
      }
      var id := post.id.value;
      if !CastsToUuid(id) || !CastsToUuid(post.authorId.value) {
        return Some(InvalidUuid);
      }
      var key := CanonUuid(id);
      PgHasUuidIff(pgRows, id);
      if PgHasId(pgRows, key) {
        return Some(DuplicateKey);
      }
      var row := ToPgRow(id, post, post.authorId.value, post.createdAt.value);
      CanonUuidFacts(id, id);
      InsertKeepsPgInvariant(pgRows, imageRows, row, post.images);
      CanonicalKeysAppend(pgRows, row);
      pgRows := pgRows + [row];
      InsertImages(key, post.images);
      return None;
    }

    /** getAllPosts. */
    method GetAllPosts() returns (r: Result<seq<Post>, PostRepoError>)
      ensures r == AllPosts()
      ensures r.Ok? ==> |r.value| == if usePostgreSQL then |pgRows| else |sqliteRows|
    {
      if !usePostgreSQL {
        return SqliteDecodeAll(sqliteRows);
      }
      r := DecodePgRows();
    }

    /** getAllPostsPostgreSQL's while loop over the result set. */
    method DecodePgRows() returns (r: Result<seq<Post>, PostRepoError>)
      ensures r == PgDecodeAll(pgRows, imageRows)
    {
      var rows, decode := pgRows, PgDecoder(imageRows);
      var posts: seq<Post> := [];
      var i := 0;
      while i < |rows|
        invariant 0 <= i <= |rows|
        invariant MapAll(rows[..i], decode) == Ok(posts)
      {
        MapAllSnoc(rows, decode, i, posts);
        var decoded := decode(rows[i]);
        if decoded.Err? {
          MapAllErrPersists(rows, decode, i + 1);
          return Err(decoded.error);
        }
        posts := posts + [decoded.value];
        i := i + 1;
      }
      assert rows[..i] == rows;
      return Ok(posts);
    }

    /** getPostById: absent exactly when no post has the key of `id`, with
        PostgreSQL the same uuid value; a text that is not a uuid makes the
        cast throw. A post found carries the key as its id. */
    method GetPostById(id: string) returns (r: Result<Option<Post>, PostRepoError>)
      requires Valid()
      ensures r == Lookup(id)
      ensures r == Ok(None) <==> Key(id).Some? && !HasPost(id)
      ensures r.Ok? && r.value.Some? ==> r.value.value.id == Key(id)
    {
      if !usePostgreSQL {
        SqliteFindAbsent(sqliteRows, id);
        return SqliteFind(sqliteRows, id);
      }
      if !CastsToUuid(id) {
        return Err(InvalidUuid);
      }
      PgFindAbsentByUuid(pgRows, imageRows, id);
      return PgLookup(pgRows, imageRows, id);
    }

    /** deletePostById. Afterwards no post has the key of `id`, and every
        other key reads back as before. */
    method DeletePostById(id: string) returns (err: Option<PostRepoError>)
      requires Valid()
      modifies this
      ensures Valid()
      ensures !usePostgreSQL ==>
        err == None && sqliteRows == SqliteRemove(old(sqliteRows), id)
        && pgRows == old(pgRows) && imageRows == old(imageRows)
      ensures usePostgreSQL && !CastsToUuid(id) ==> err == Some(InvalidUuid) && unchanged(this)
      ensures usePostgreSQL && CastsToUuid(id) ==>
        err == None && sqliteRows == old(sqliteRows)
        && pgRows == PgRemove(old(pgRows), CanonUuid(id)) && imageRows == RemoveImagesOf(old(imageRows), CanonUuid(id))
      ensures !HasPost(id) && (Key(id).Some? ==> Lookup(id) == Ok(None))
      ensures forall other :: Key(other) != Key(id) ==> Lookup(other) == old(Lookup(other))
    {
      if usePostgreSQL {
        err := DeletePostPg(id);
        return;
      }
      SqliteRemoveKeepsUnique(sqliteRows, id);
      SqliteLookupAfterRemove(sqliteRows, id);
      sqliteRows := SqliteRemove(sqliteRows, id);
      return None;
    }

    /** deletePostPostgreSQL: the image rows go first, then the post, both
        matched by the uuid value of `id`. */
    method DeletePostPg(id: string) returns (err: Option<PostRepoError>)
      requires Valid() && usePostgreSQL
      modifies this
      ensures Valid()
      ensures !CastsToUuid(id) ==> err == Some(InvalidUuid) && unchanged(this)
      ensures CastsToUuid(id) ==>
        err == None && sqliteRows == old(sqliteRows)
        && pgRows == PgRemove(old(pgRows), CanonUuid(id)) && imageRows == RemoveImagesOf(old(imageRows), CanonUuid(id))
      ensures !HasPost(id) && (Key(id).Some? ==> Lookup(id) == Ok(None))
      ensures forall other :: Key(other) != Key(id) ==> Lookup(other) == old(Lookup(other))
    {
      if !CastsToUuid(id) {
        return Some(InvalidUuid);
      }
      var key := CanonUuid(id);
      RemoveKeepsImageInvariant(pgRows, imageRows, key);
      PgRemoveKeepsUnique(pgRows, key);
      RemoveKeepsCanonical(pgRows, key);
      PgLookupAfterRemove(pgRows, imageRows, id);
      imageRows := RemoveImagesOf(imageRows, key);
      pgRows := PgRemove(pgRows, key);
      PgHasUuidIff(pgRows, id);
      return None;
    }

    /** updatePost. With SQLite: the row is deleted, and only then do the
        `!!` on authorId and createdAt run, so a missing one leaves the post
        deleted; otherwise the argument is inserted under `id`, status
        included. With PostgreSQL, see UpdatePostPg. */
    method UpdatePost(id: string, post: Post) returns (err: Option<PostRepoError>)
      requires Valid()
      modifies this
      ensures Valid()
      ensures !usePostgreSQL && (post.authorId.None? || post.createdAt.None?) ==>
        err == Some(NullPointer) && sqliteRows == SqliteRemove(old(sqliteRows), id)
        && pgRows == old(pgRows) && imageRows == old(imageRows)
      ensures !usePostgreSQL && post.authorId.Some? && post.createdAt.Some? ==>
        err == None && pgRows == old(pgRows) && imageRows == old(imageRows)
        && sqliteRows == SqliteRemove(old(sqliteRows), id) + [ToSqliteRow(id, post, post.authorId.value, post.createdAt.value)]
      ensures usePostgreSQL && !CastsToUuid(id) ==> err == Some(InvalidUuid) && unchanged(this)
      ensures usePostgreSQL && CastsToUuid(id) && !PgHasId(old(pgRows), CanonUuid(id)) ==>
        unchanged(this) && (err == if post.images == [] then None else Some(ForeignKeyViolation))
      ensures usePostgreSQL && CastsToUuid(id) && PgHasId(old(pgRows), CanonUuid(id)) ==>
        err == None && sqliteRows == old(sqliteRows)
        && pgRows == PgUpdateRows(old(pgRows), CanonUuid(id), post)
        && imageRows == RemoveImagesOf(old(imageRows), CanonUuid(id)) + ImageRowsFor(CanonUuid(id), post.images)
    {
      if usePostgreSQL {
        err := UpdatePostPg(id, post);
        return;
      }
      SqliteRemoveKeepsUnique(sqliteRows, id);
      sqliteRows := SqliteRemove(sqliteRows, id);
      if post.authorId.None? || post.createdAt.None? {
        return Some(NullPointer);
      }
      var row := ToSqliteRow(id, post, post.authorId.value, post.createdAt.value);
      ReinsertKeepsUnique(old(sqliteRows), row);
      sqliteRows := sqliteRows + [row];
      return None;
    }

    /** updatePostPostgreSQL: the row with the uuid value of `id` keeps its
        id, author and creation time and takes every other column from the
        argument, then its images are replaced; inserting images for a uuid
        with no post violates the foreign key. */
    method UpdatePostPg(id: string, post: Post) returns (err: Option<PostRepoError>)
      requires Valid() && usePostgreSQL
      modifies this
      ensures Valid()
      ensures !CastsToUuid(id) ==> err == Some(InvalidUuid) && unchanged(this)
      ensures CastsToUuid(id) && !PgHasId(old(pgRows), CanonUuid(id)) ==>
        unchanged(this) && (err == if post.images == [] then None else Some(ForeignKeyViolation))
      ensures CastsToUuid(id) && PgHasId(old(pgRows), CanonUuid(id)) ==>
        err == None && sqliteRows == old(sqliteRows)
        && pgRows == PgUpdateRows(old(pgRows), CanonUuid(id), post)
        && imageRows == RemoveImagesOf(old(imageRows), CanonUuid(id)) + ImageRowsFor(CanonUuid(id), post.images)
    {
      if !CastsToUuid(id) {
        return Some(InvalidUuid);
      }
      var key := CanonUuid(id);
      if !PgHasId(pgRows, key) {
        // The UPDATE and the DELETE of images match no row.
        UpdateAbsentNoChange(pgRows, imageRows, key, post);
        if post.images != [] {
          return Some(ForeignKeyViolation);
        }
        return None;
      }
      ReplaceImagesKeepsInvariant(pgRows, imageRows, key, post);
      SameKeysCanonical(pgRows, PgUpdateRows(pgRows, key, post));
      pgRows := PgUpdateRows(pgRows, key, post);
      imageRows := RemoveImagesOf(imageRows, key);
      InsertImages(key, post.images);
      return None;
    }

    /** updatePostStatus: the post with the key of `id` reads back with the
        new status, and every other key reads back as before. */
    method UpdatePostStatus(id: string, status: PostStatus) returns (err: Option<PostRepoError>)
      requires Valid()
      modifies this
      ensures Valid()
      ensures !usePostgreSQL ==>
        err == None && sqliteRows == SqliteSetStatus(old(sqliteRows), id, status)
        && pgRows == old(pgRows) && imageRows == old(imageRows)
      ensures usePostgreSQL && !CastsToUuid(id) ==> err == Some(InvalidUuid) && unchanged(this)
      ensures usePostgreSQL && CastsToUuid(id) ==>
        err == None && sqliteRows == old(sqliteRows)
        && pgRows == PgSetStatus(old(pgRows), CanonUuid(id), status) && imageRows == old(imageRows)
      ensures old(Lookup(id)).Ok? && old(Lookup(id)).value.Some? ==>
        Lookup(id) == Ok(Some(old(Lookup(id)).value.value.(status := status)))
      ensures forall other :: Key(other) != Key(id) ==> Lookup(other) == old(Lookup(other))
    {
      if !usePostgreSQL {
        SqliteLookupAfterSetStatus(sqliteRows, id, status);
        sqliteRows := SqliteSetStatus(sqliteRows, id, status);
        return None;
      }
      if !CastsToUuid(id) {
        return Some(InvalidUuid);
      }
      var key := CanonUuid(id);
      SameKeysCanonical(pgRows, PgSetStatus(pgRows, key, status));
      SameKeysKeepImages(pgRows, PgSetStatus(pgRows, key, status), imageRows);
      PgLookupAfterSetStatus(pgRows, imageRows, id, status);
      pgRows := PgSetStatus(pgRows, key, status);
      return None;
    }
  }

  /** Inserting a post row under a new key, its image rows after the
      others, keeps the keys unique and every post's display orders. */
  lemma InsertKeepsPgInvariant(pgRows: seq<PgRow>, imageRows: seq<ImageRow>, row: PgRow, images: seq<string>)
    requires PgIdsUnique(pgRows) && !PgHasId(pgRows, row.id)
    requires forall k :: 0 <= k < |imageRows| ==> PgHasId(pgRows, imageRows[k].postId)
    requires forall other :: Indexed(ImagesOf(imageRows, other))
    ensures PgIdsUnique(pgRows + [row])
    ensures forall k :: 0 <= k < |imageRows + ImageRowsFor(row.id, images)| ==>
      PgHasId(pgRows + [row], (imageRows + ImageRowsFor(row.id, images))[k].postId)
    ensures forall other :: Indexed(ImagesOf(imageRows + ImageRowsFor(row.id, images), other))
  {
    var rows := pgRows + [row];
    var added := ImageRowsFor(row.id, images);
    var all := imageRows + added;
    forall k | 0 <= k < |imageRows|
      ensures imageRows[k].postId != row.id
    {
      assert PgHasId(pgRows, imageRows[k].postId);
    }
    ImagesOfNone(imageRows, row.id);
    forall other
      ensures Indexed(ImagesOf(all, other))
    {
      ImagesOfAppend(imageRows, added, other);
      if other == row.id {
        ImagesOfAll(added, row.id);
      } else {
        ImagesOfNone(added, other);
      }
    }
    assert PgHasId(rows, row.id) by {
      assert rows[|rows| - 1] == row;
    }
    forall k | 0 <= k < |all|
      ensures PgHasId(rows, all[k].postId)
    {
      if k < |imageRows| {
        assert all[k] == imageRows[k];
        var j :| 0 <= j < |pgRows| && pgRows[j].id == imageRows[k].postId;
        assert rows[j] == pgRows[j];
      } else {
        assert all[k] == added[k - |imageRows|];
      }
    }
  }

  /** A row with a canonical id keeps the keys canonical. */
  lemma CanonicalKeysAppend(rows: seq<PgRow>, row: PgRow)
    requires PgKeysCanonical(rows) && IsCanonicalUuid(row.id)
    ensures PgKeysCanonical(rows + [row])
  {
    forall k | 0 <= k < |rows + [row]|
      ensures KeyCanonical((rows + [row])[k])
    {
      if k < |rows| {
        assert (rows + [row])[k] == rows[k];
      }
    }
  }

  /** Rows that keep their ids one for one keep the ids canonical. */
  lemma SameKeysCanonical(rows: seq<PgRow>, updated: seq<PgRow>)
    requires PgKeysCanonical(rows)
    requires |updated| == |rows| && forall k :: 0 <= k < |rows| ==> updated[k].id == rows[k].id
    ensures PgKeysCanonical(updated)
  {
    forall k | 0 <= k < |updated|
      ensures KeyCanonical(updated[k])
    {
      assert KeyCanonical(rows[k]) && updated[k].id == rows[k].id;
    }
  }

  /** Rows that keep their ids one for one keep them unique and still own
      every image row. */
  lemma SameKeysKeepImages(rows: seq<PgRow>, updated: seq<PgRow>, imageRows: seq<ImageRow>)
    requires |updated| == |rows| && forall k :: 0 <= k < |rows| ==> updated[k].id == rows[k].id
    requires PgIdsUnique(rows)
    requires forall k :: 0 <= k < |imageRows| ==> PgHasId(rows, imageRows[k].postId)
    ensures PgIdsUnique(updated)
    ensures forall k :: 0 <= k < |imageRows| ==> PgHasId(updated, imageRows[k].postId)
  {
    forall k | 0 <= k < |imageRows|
      ensures PgHasId(updated, imageRows[k].postId)
    {
      var j :| 0 <= j < |rows| && rows[j].id == imageRows[k].postId;
      assert updated[j].id == rows[j].id;
    }
  }

  /** An update under a key no row has changes no row: no post, and so no
      image, has that key. */
  lemma UpdateAbsentNoChange(pgRows: seq<PgRow>, imageRows: seq<ImageRow>, key: string, post: Post)
    requires !PgHasId(pgRows, key)
    requires forall k :: 0 <= k < |imageRows| ==> PgHasId(pgRows, imageRows[k].postId)
    ensures PgUpdateRows(pgRows, key, post) == pgRows && RemoveImagesOf(imageRows, key) == imageRows
  {
    forall k | 0 <= k < |imageRows|
      ensures imageRows[k].postId != key
    {
      assert PgHasId(pgRows, imageRows[k].postId);
    }
    NoImagesNoRemove(imageRows, key);
    assert PgUpdateRows(pgRows, key, post) == pgRows;
  }

  /** A delete keeps only stored rows, so the keys stay canonical. */
  lemma RemoveKeepsCanonical(rows: seq<PgRow>, id: string)
    requires PgKeysCanonical(rows)
    ensures PgKeysCanonical(PgRemove(rows, id))
  {
    var r := PgRemove(rows, id);
    forall k | 0 <= k < |r|
      ensures KeyCanonical(r[k])
    {
      var j :| 0 <= j < |rows| && rows[j] == r[k];
    }
  }

  lemma {:induction false} NoImagesNoRemove(rows: seq<ImageRow>, id: string)
    requires forall k :: 0 <= k < |rows| ==> rows[k].postId != id
    ensures RemoveImagesOf(rows, id) == rows
  {
    if rows != [] {
      NoImagesNoRemove(rows[1..], id);
    }
  }

  /** Deleting a post and its images keeps the keys and the display orders. */
  lemma RemoveKeepsImageInvariant(pgRows: seq<PgRow>, imageRows: seq<ImageRow>, id: string)
    requires forall k :: 0 <= k < |imageRows| ==> PgHasId(pgRows, imageRows[k].postId)
    requires forall other :: Indexed(ImagesOf(imageRows, other))
    ensures forall k :: 0 <= k < |RemoveImagesOf(imageRows, id)| ==>
      PgHasId(PgRemove(pgRows, id), RemoveImagesOf(imageRows, id)[k].postId)
    ensures forall other :: Indexed(ImagesOf(RemoveImagesOf(imageRows, id), other))
  {
    var kept := RemoveImagesOf(imageRows, id);
    var remaining := PgRemove(pgRows, id);
    forall k | 0 <= k < |kept|
      ensures PgHasId(remaining, kept[k].postId)
    {
      var m :| 0 <= m < |imageRows| && imageRows[m] == kept[k];
      var j :| 0 <= j < |pgRows| && pgRows[j].id == kept[k].postId;
      assert pgRows[j] in remaining;
      var i :| 0 <= i < |remaining| && remaining[i] == pgRows[j];
    }
    forall other
      ensures Indexed(ImagesOf(kept, other))
    {
      ImagesOfAfterRemove(imageRows, id, other);
    }
  }

  /** Overwriting a post row keeps the ids, so the keys still hold. */
  lemma UpdateKeepsPgInvariant(pgRows: seq<PgRow>, imageRows: seq<ImageRow>, id: string, post: Post)
    requires PgIdsUnique(pgRows)
    ensures PgIdsUnique(PgUpdateRows(pgRows, id, post))
    ensures forall s :: PgHasId(pgRows, s) ==> PgHasId(PgUpdateRows(pgRows, id, post), s)
  {
    var updated := PgUpdateRows(pgRows, id, post);
    assert forall k :: 0 <= k < |pgRows| ==> updated[k].id == pgRows[k].id;
    forall s | PgHasId(pgRows, s)
      ensures PgHasId(updated, s)
    {
      var j :| 0 <= j < |pgRows| && pgRows[j].id == s;
      assert updated[j].id == s;
    }
  }

  /** SQLite's delete-then-insert under the same id keeps ids unique. */
  lemma ReinsertKeepsUnique(rows: seq<SqliteRow>, row: SqliteRow)
    requires SqliteIdsUnique(rows)
    ensures SqliteIdsUnique(SqliteRemove(rows, row.id) + [row])
  {
    var removed := SqliteRemove(rows, row.id);
    SqliteRemoveKeepsUnique(rows, row.id);
    var all := removed + [row];
    forall i, j | 0 <= i < j < |all|
      ensures all[i].id != all[j].id
    {
      if j == |removed| {
        assert all[i] == removed[i];
      }
    }
  }

  /** PostgreSQL's update of an existing post, with its images deleted and
      inserted again, keeps every image row attached to a post and every
      post's display orders 0, 1, 2, ... */
  lemma ReplaceImagesKeepsInvariant(pgRows: seq<PgRow>, imageRows: seq<ImageRow>, id: string, post: Post)
    requires PgIdsUnique(pgRows) && PgHasId(pgRows, id)
    requires forall k :: 0 <= k < |imageRows| ==> PgHasId(pgRows, imageRows[k].postId)
    requires forall other :: Indexed(ImagesOf(imageRows, other))
    ensures PgIdsUnique(PgUpdateRows(pgRows, id, post))
    ensures forall k :: 0 <= k < |RemoveImagesOf(imageRows, id) + ImageRowsFor(id, post.images)| ==>
      PgHasId(PgUpdateRows(pgRows, id, post), (RemoveImagesOf(imageRows, id) + ImageRowsFor(id, post.images))[k].postId)
    ensures forall other :: Indexed(ImagesOf(RemoveImagesOf(imageRows, id) + ImageRowsFor(id, post.images), other))
  {
    UpdateKeepsPgInvariant(pgRows, imageRows, id, post);
    var updated := PgUpdateRows(pgRows, id, post);
    var kept := RemoveImagesOf(imageRows, id);
    var added := ImageRowsFor(id, post.images);
    var all := kept + added;
    forall other
      ensures Indexed(ImagesOf(all, other))
    {
      ImagesOfAppend(kept, added, other);
      ImagesOfAfterRemove(imageRows, id, other);
      if other == id {
        ImagesOfAll(added, id);
      } else {
        ImagesOfNone(added, other);
      }
    }
    forall k | 0 <= k < |all|
      ensures PgHasId(updated, all[k].postId)
    {
      if k >= |kept| {
        assert all[k] == added[k - |kept|];
      } else {
        assert all[k] == kept[k];
        assert kept[k] in imageRows;
        var m :| 0 <= m < |imageRows| && imageRows[m] == kept[k];
      }
    }
  }

  // ------------------------------------------------------------- effects

  /** The PostgreSQL update keeps the id, author and creation time of the
      stored post and takes everything else from the argument: reading it back
      gives the argument with those three fields from the stored post. */
  lemma PgUpdateReadBack(row: PgRow, post: Post, imageRows: seq<ImageRow>)
    requires ImagesOf(imageRows, row.id) == ImageRowsFor(row.id, post.images)
    ensures PgToPost(PgOverwrite(row, post), imageRows)
      == Ok(post.(id := Some(row.id), authorId := Some(row.authorId), createdAt := Some(row.createdAt)))
  {
    var r := PgOverwrite(row, post);
    OverwriteColumns(row, post, imageRows);
    assert PgToPost(r, imageRows)
      == Ok(Post(Some(row.id), post.title, post.description, post.location, post.tag, post.dueDate,
                 post.femaleOnly, post.images, Some(row.authorId), Some(row.createdAt), post.status));
  }

  /** Each column the update writes reads back as the field it came from. */
  lemma OverwriteColumns(row: PgRow, post: Post, imageRows: seq<ImageRow>)
    requires ImagesOf(imageRows, row.id) == ImageRowsFor(row.id, post.images)
    ensures TagValueOf(PgOverwrite(row, post).tag) == Some(post.tag)
    ensures StatusValueOf(PgOverwrite(row, post).status) == Some(post.status)
    ensures PointToLocation(PgOverwrite(row, post).location, PgOverwrite(row, post).address) == post.location
    ensures PgImages(imageRows, row.id) == post.images
  {
    ImageRowsRoundTrip(row.id, post.images);
    ImagesOfAll(ImageRowsFor(row.id, post.images), row.id);
    PointRoundTrip(post.location);
  }
}
