/** validateCreatePostRequest: the ordered, fail-fast checks on the body of
    POST and PUT /posts. The first rule that fails decides the message; when
    every rule passes there is no message. Whether a due date parses as an
    ISO 8601 instant (the UTC date-time of section 5.6 of RFC 3339) is
    decided by the date library, so it is a parameter, `isInstant`. */
module PostValidation {
  import opened Common
  import opened Models

  const AuthorBlankMessage: string := "AuthorID cannot be blank"
  const TitleBlankMessage: string := "Title cannot be blank"
  const TitleTooLongMessage: string := "Title must be 200 characters or less"
  const DescriptionBlankMessage: string := "Description cannot be blank"
  const DescriptionTooLongMessage: string := "Description must be 2000 characters or less"
  const LatitudeMessage: string := "Latitude must be between -90 and 90"
  const LongitudeMessage: string := "Longitude must be between -180 and 180"
  const DueDateBlankMessage: string := "Due date cannot be blank"
  const DueDateFormatMessage: string := "Due date must be in ISO 8601 format (e.g., 2025-12-25T14:00:00Z)"
  const TooManyImagesMessage: string := "Maximum 10 images allowed per post"
  const ImageBlankMessage: string := "Image URLs cannot be blank"
  const ImageSchemeMessage: string := "Image URLs must start with http:// or https://"

  const MaxTitleLength: nat := 200
  const MaxDescriptionLength: nat := 2000
  const MaxImages: nat := 10

  /** The two checks on one image URL, in order. */
  function ImageUrlError(url: string): Option<string> {
    if IsBlank(url) then Some(ImageBlankMessage)
    else if !StartsWith(url, "http://") && !StartsWith(url, "https://") then Some(ImageSchemeMessage)
    else None
  }

  /** What the loop over the image URLs reports: the error of the first URL
      that has one. */
  function FirstImageError(images: seq<string>): Option<string> {
    if images == [] then None
    else if ImageUrlError(images[0]).Some? then ImageUrlError(images[0])
    else FirstImageError(images[1..])
  }

  /** The validator's result, rule after rule. */
  function ValidationError(req: CreatePostRequest, isInstant: string -> bool): Option<string> {
    if IsBlank(req.authorId) then Some(AuthorBlankMessage)
    else if IsBlank(req.title) then Some(TitleBlankMessage)
    else if |req.title| > MaxTitleLength then Some(TitleTooLongMessage)
    else if IsBlank(req.description) then Some(DescriptionBlankMessage)
    else if |req.description| > MaxDescriptionLength then Some(DescriptionTooLongMessage)
    else if req.location.latitude < -90.0 || req.location.latitude > 90.0 then Some(LatitudeMessage)
    else if req.location.longitude < -180.0 || req.location.longitude > 180.0 then Some(LongitudeMessage)
    else if IsBlank(req.dueDate) then Some(DueDateBlankMessage)
    else if !isInstant(req.dueDate) then Some(DueDateFormatMessage)
    else if |req.images| > MaxImages then Some(TooManyImagesMessage)
    else FirstImageError(req.images)
  }

  /** validateCreatePostRequest, with its early returns and its loop over
      the image URLs. */
  method ValidateCreatePostRequest(req: CreatePostRequest, isInstant: string -> bool) returns (err: Option<string>)
    ensures err == ValidationError(req, isInstant)
  {
    if IsBlank(req.authorId) { return Some(AuthorBlankMessage); }
    if IsBlank(req.title) { return Some(TitleBlankMessage); }
    if |req.title| > MaxTitleLength { return Some(TitleTooLongMessage); }
    if IsBlank(req.description) { return Some(DescriptionBlankMessage); }
    if |req.description| > MaxDescriptionLength { return Some(DescriptionTooLongMessage); }
    if req.location.latitude < -90.0 || req.location.latitude > 90.0 { return Some(LatitudeMessage); }
    if req.location.longitude < -180.0 || req.location.longitude > 180.0 { return Some(LongitudeMessage); }
    if IsBlank(req.dueDate) { return Some(DueDateBlankMessage); }
    if !isInstant(req.dueDate) { return Some(DueDateFormatMessage); }
    if |req.images| > MaxImages { return Some(TooManyImagesMessage); }
    var i := 0;
    while i < |req.images|
      invariant 0 <= i <= |req.images|
      invariant FirstImageError(req.images) == FirstImageError(req.images[i..])
    {
      var url := req.images[i];
      assert req.images[i..][0] == url && req.images[i..][1..] == req.images[i + 1..];
      if IsBlank(url) { return Some(ImageBlankMessage); }
      if !StartsWith(url, "http://") && !StartsWith(url, "https://") { return Some(ImageSchemeMessage); }
      i := i + 1;
    }
    return None;
  }

  // ------------------------------------------------ an independent reading

  /** One rule: whether it passes and the message it reports when it does not. */
  datatype Rule = Rule(passes: bool, message: string)

  /** The rules on the image URLs, flattened: for each URL, non-blank, then the scheme. */
  function ImageRules(images: seq<string>): (rs: seq<Rule>)
    ensures |rs| == 2 * |images|
  {
    if images == [] then []
    else
      [Rule(!IsBlank(images[0]), ImageBlankMessage),
       Rule(StartsWith(images[0], "http://") || StartsWith(images[0], "https://"), ImageSchemeMessage)]
      + ImageRules(images[1..])
  }

  /** Every rule of the validator as one flat list, in the order they run. */
  function Rules(req: CreatePostRequest, isInstant: string -> bool): seq<Rule> {
    [ Rule(!IsBlank(req.authorId), AuthorBlankMessage),
      Rule(!IsBlank(req.title), TitleBlankMessage),
      Rule(|req.title| <= MaxTitleLength, TitleTooLongMessage),
      Rule(!IsBlank(req.description), DescriptionBlankMessage),
      Rule(|req.description| <= MaxDescriptionLength, DescriptionTooLongMessage),
      Rule(-90.0 <= req.location.latitude <= 90.0, LatitudeMessage),
      Rule(-180.0 <= req.location.longitude <= 180.0, LongitudeMessage),
      Rule(!IsBlank(req.dueDate), DueDateBlankMessage),
      Rule(isInstant(req.dueDate), DueDateFormatMessage),
      Rule(|req.images| <= MaxImages, TooManyImagesMessage) ]
    + ImageRules(req.images)
  }

  /** Fail-fast evaluation of a rule list: the message of the first failing rule. */
  function FirstFailing(rules: seq<Rule>): (r: Option<string>)
    ensures r.None? <==> forall i :: 0 <= i < |rules| ==> rules[i].passes
  {
    if rules == [] then None
    else if !rules[0].passes then Some(rules[0].message)
    else FirstFailing(rules[1..])
  }

  lemma {:induction false} FirstFailingAppend(a: seq<Rule>, b: seq<Rule>)
    ensures FirstFailing(a + b) == if FirstFailing(a).Some? then FirstFailing(a) else FirstFailing(b)
  {
    if a == [] {
      assert a + b == b;
    } else {
      assert (a + b)[0] == a[0] && (a + b)[1..] == a[1..] + b;
      FirstFailingAppend(a[1..], b);
    }
  }

  /** Rules that all pass can be skipped. */
  lemma {:induction false} FirstFailingSkip(rules: seq<Rule>, k: nat)
    requires k <= |rules|
    requires forall j :: 0 <= j < k ==> rules[j].passes
    ensures FirstFailing(rules) == FirstFailing(rules[k..])
  {
    if k > 0 {
      FirstFailingSkip(rules[1..], k - 1);
      assert rules[1..][k - 1..] == rules[k..];
    }
  }

  /** The first failing rule decides the message. */
  lemma FirstFailingAt(rules: seq<Rule>, k: nat)
    requires k < |rules| && !rules[k].passes
    requires forall j :: 0 <= j < k ==> rules[j].passes
    ensures FirstFailing(rules) == Some(rules[k].message)
  {
    FirstFailingSkip(rules, k);
  }

  lemma {:induction false} ImageRulesAgree(images: seq<string>)
    ensures FirstImageError(images) == FirstFailing(ImageRules(images))
  {
    if images != [] {
      ImageRulesAgree(images[1..]);
      var head := [Rule(!IsBlank(images[0]), ImageBlankMessage),
                   Rule(StartsWith(images[0], "http://") || StartsWith(images[0], "https://"), ImageSchemeMessage)];
      FirstFailingAppend(head, ImageRules(images[1..]));
      assert head[1..][1..] == [];
    }
  }

  /** The validator reports exactly the message of the first failing rule of
      the flat list, and nothing when all of the rules pass. */
  lemma ValidationIsFirstFailingRule(req: CreatePostRequest, isInstant: string -> bool)
    ensures ValidationError(req, isInstant) == FirstFailing(Rules(req, isInstant))
  {
    var rs := Rules(req, isInstant);
    if IsBlank(req.authorId) { FirstFailingAt(rs, 0); }
    else if IsBlank(req.title) { FirstFailingAt(rs, 1); }
    else if |req.title| > MaxTitleLength { FirstFailingAt(rs, 2); }
    else if IsBlank(req.description) { FirstFailingAt(rs, 3); }
    else if |req.description| > MaxDescriptionLength { FirstFailingAt(rs, 4); }
    else if req.location.latitude < -90.0 || req.location.latitude > 90.0 { FirstFailingAt(rs, 5); }
    else if req.location.longitude < -180.0 || req.location.longitude > 180.0 { FirstFailingAt(rs, 6); }
    else if IsBlank(req.dueDate) { FirstFailingAt(rs, 7); }
    else if !isInstant(req.dueDate) { FirstFailingAt(rs, 8); }
    else if |req.images| > MaxImages { FirstFailingAt(rs, 9); }
    else {
      FirstFailingSkip(rs, 10);
      assert rs[10..] == ImageRules(req.images);
      ImageRulesAgree(req.images);
    }
  }

  /** The rules a valid request satisfies, stated directly. */
  predicate ValidRequest(req: CreatePostRequest, isInstant: string -> bool) {
    && !IsBlank(req.authorId)
    && !IsBlank(req.title) && |req.title| <= MaxTitleLength
    && !IsBlank(req.description) && |req.description| <= MaxDescriptionLength
    && -90.0 <= req.location.latitude <= 90.0
    && -180.0 <= req.location.longitude <= 180.0
    && !IsBlank(req.dueDate) && isInstant(req.dueDate)
    && |req.images| <= MaxImages
    && forall i :: 0 <= i < |req.images| ==>
         !IsBlank(req.images[i]) && (StartsWith(req.images[i], "http://") || StartsWith(req.images[i], "https://"))
  }

  lemma {:induction false} FirstImageErrorNoneIff(images: seq<string>)
    ensures FirstImageError(images).None? <==>
      forall i :: 0 <= i < |images| ==>
        !IsBlank(images[i]) && (StartsWith(images[i], "http://") || StartsWith(images[i], "https://"))
  {
    if images != [] {
      FirstImageErrorNoneIff(images[1..]);
      assert forall i :: 1 <= i < |images| ==> images[i] == images[1..][i - 1];
    }
  }

  /** The validator returns null exactly for valid requests. */
  lemma ValidationPassesIff(req: CreatePostRequest, isInstant: string -> bool)
    ensures ValidationError(req, isInstant).None? <==> ValidRequest(req, isInstant)
  {
    FirstImageErrorNoneIff(req.images);
  }

  /** Once the author and a non-blank title have passed, the title-length
      message appears exactly when the title is longer than 200: a title of
      200 characters passes that rule, one of 201 fails it. */
  lemma TitleLengthBoundary(req: CreatePostRequest, isInstant: string -> bool)
    requires !IsBlank(req.authorId) && !IsBlank(req.title)
    ensures ValidationError(req, isInstant) == Some(TitleTooLongMessage) <==> |req.title| > 200
  {
    FirstImageErrorMessages(req.images);
  }

  /** Likewise for the description at 2000 characters, once the rules before it pass. */
  lemma DescriptionLengthBoundary(req: CreatePostRequest, isInstant: string -> bool)
    requires !IsBlank(req.authorId) && !IsBlank(req.title) && |req.title| <= 200 && !IsBlank(req.description)
    ensures ValidationError(req, isInstant) == Some(DescriptionTooLongMessage) <==> |req.description| > 2000
  {
    FirstImageErrorMessages(req.images);
  }

  /** Latitude -90 and 90 pass, anything outside [-90, 90] fails; likewise
      longitude with [-180, 180]; once the rules before each pass. */
  lemma CoordinateBounds(req: CreatePostRequest, isInstant: string -> bool)
    requires !IsBlank(req.authorId) && !IsBlank(req.title) && |req.title| <= 200
    requires !IsBlank(req.description) && |req.description| <= 2000
    ensures ValidationError(req, isInstant) == Some(LatitudeMessage) <==>
      (req.location.latitude < -90.0 || req.location.latitude > 90.0)
    ensures -90.0 <= req.location.latitude <= 90.0 ==>
      (ValidationError(req, isInstant) == Some(LongitudeMessage) <==>
        (req.location.longitude < -180.0 || req.location.longitude > 180.0))
  {
    FirstImageErrorMessages(req.images);
  }

  /** Once the author, title, description, coordinates and due date have
      passed, the image-count message appears exactly when there are more
      than ten images, before any URL is looked at. */
  lemma ImageCountLimit(req: CreatePostRequest, isInstant: string -> bool)
    requires !IsBlank(req.authorId) && !IsBlank(req.title) && |req.title| <= 200
    requires !IsBlank(req.description) && |req.description| <= 2000
    requires -90.0 <= req.location.latitude <= 90.0 && -180.0 <= req.location.longitude <= 180.0
    requires !IsBlank(req.dueDate) && isInstant(req.dueDate)
    ensures ValidationError(req, isInstant) == Some(TooManyImagesMessage) <==> |req.images| > 10
  {
    FirstImageErrorMessages(req.images);
  }

  /** The image loop only ever reports one of the two URL messages. */
  lemma {:induction false} FirstImageErrorMessages(images: seq<string>)
    ensures FirstImageError(images).None? || FirstImageError(images) == Some(ImageBlankMessage)
      || FirstImageError(images) == Some(ImageSchemeMessage)
  {
    if images != [] {
      FirstImageErrorMessages(images[1..]);
    }
  }

  /** A blank URL is reported as blank rather than as lacking a scheme, and a
      URL is accepted exactly when it is non-blank and starts with http:// or
      https://. */
  lemma ImageUrlRule(url: string)
    ensures ImageUrlError(url).None? <==> !IsBlank(url) && (StartsWith(url, "http://") || StartsWith(url, "https://"))
    ensures IsBlank(url) ==> ImageUrlError(url) == Some(ImageBlankMessage)
  {
  }
}
