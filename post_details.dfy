/** The details screen of one client post: what it shows, in order, and the
    label of its action button. Images are shown by their URL; fonts,
    spacing and the image loader are not part of this model. */
module PostDetails {
  import opened Common
  import opened ClientData

  /** The action button's label: an event is joined, a request for help is
      answered, an offer of help is taken up, anything else is a contact. */
  function ActionLabel(tags: seq<ClientTag>): (s: string)
    ensures s == "Join Event" <==> Event in tags
    ensures s == "Offer Help" <==> Event !in tags && AskHelp in tags
    ensures s == "Get Help" <==> Event !in tags && AskHelp !in tags && OfferHelp in tags
    ensures s == "Contact" <==> Event !in tags && AskHelp !in tags && OfferHelp !in tags
  {
    if Event in tags then "Join Event"
    else if AskHelp in tags then "Offer Help"
    else if OfferHelp in tags then "Get Help"
    else "Contact"
  }

  /** Only which tags are present matters to the button, not their order or
      repetitions. */
  lemma ActionLabelDependsOnTagSet(a: seq<ClientTag>, b: seq<ClientTag>)
    requires forall t :: t in a <==> t in b
    ensures ActionLabel(a) == ActionLabel(b)
  {
  }

  /** The screen, top to bottom. */
  datatype DetailsView = DetailsView(
    topBarTitle: string,
    headerImage: Option<string>,
    authorLine: string,
    chipLabels: seq<string>,
    description: string,
    locationLine: Option<string>,
    action: string)

  const LocationPin: string := "\U{1F4CD} "

  function ChipLabels(tags: seq<ClientTag>): (labels: seq<string>)
    ensures |labels| == |tags|
    ensures forall i :: 0 <= i < |tags| ==> labels[i] == TagLabel(tags[i])
  {
    if tags == [] then [] else [TagLabel(tags[0])] + ChipLabels(tags[1..])
  }

  /** What the screen shows for a post: the header image only when its URL
      is not blank, the location line only when the location is not blank,
      one chip per tag in the post's order. */
  function Details(post: ClientPost): (v: DetailsView)
    ensures v.topBarTitle == post.title && v.description == post.description
    ensures v.headerImage.Some? <==> !IsBlank(post.image)
    ensures v.headerImage.Some? ==> v.headerImage.value == post.image
    ensures v.authorLine == "By " + post.author
    ensures v.chipLabels == ChipLabels(post.tags)
    ensures v.locationLine.Some? <==> !IsBlank(post.location)
    ensures v.locationLine.Some? ==> v.locationLine.value == LocationPin + post.location
    ensures v.action == ActionLabel(post.tags)
  {
    DetailsView(
      post.title,
      if IsBlank(post.image) then None else Some(post.image),
      "By " + post.author,
      ChipLabels(post.tags),
      post.description,
      if IsBlank(post.location) then None else Some(LocationPin + post.location),
      ActionLabel(post.tags))
  }

  /** The chips identify the tags: two tag lists that read the same chips
      are the same list. */
  lemma {:induction false} ChipLabelsInjective(a: seq<ClientTag>, b: seq<ClientTag>)
    requires ChipLabels(a) == ChipLabels(b)
    ensures a == b
  {
    ClientTagsExactlyFive();
    assert |a| == |b|;
    forall i | 0 <= i < |a|
      ensures a[i] == b[i]
    {
      assert TagLabel(a[i]) == ChipLabels(a)[i] == ChipLabels(b)[i] == TagLabel(b[i]);
    }
  }
}
