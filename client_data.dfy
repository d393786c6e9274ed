/** The client's own post record, which the screens of the app share. It is
    not the server's Post: tags are a list over five client-side kinds, ids
    are client-chosen integers, and a post carries an accepted flag. */
module ClientData {
  import opened Common

  datatype ClientTag = OfferHelp | AskHelp | Event | Volunteer | Newcomer

  /** Declaration order, as `PostTag.values()` lists them. */
  const AllClientTags: seq<ClientTag> := [OfferHelp, AskHelp, Event, Volunteer, Newcomer]

  function TagLabel(t: ClientTag): string {
    match t
    case OfferHelp => "Offer help"
    case AskHelp => "Ask help"
    case Event => "Event"
    case Volunteer => "Volunteer"
    case Newcomer => "Newcomer"
  }

  /** Five kinds, each listed once, with five different labels. */
  lemma ClientTagsExactlyFive()
    ensures |AllClientTags| == 5 && NoDuplicates(AllClientTags)
    ensures forall t :: t in AllClientTags
    ensures forall t, u :: TagLabel(t) == TagLabel(u) ==> t == u
  {
    forall t: ClientTag ensures t in AllClientTags {
      match t
      case OfferHelp => assert AllClientTags[0] == t;
      case AskHelp => assert AllClientTags[1] == t;
      case Event => assert AllClientTags[2] == t;
      case Volunteer => assert AllClientTags[3] == t;
      case Newcomer => assert AllClientTags[4] == t;
    }
  }

  datatype ClientPost = ClientPost(
    id: int,
    author: string,
    title: string,
    description: string,
    tags: seq<ClientTag>,
    location: string,
    accepted: bool,
    image: string)

  /** A post built without an `accepted` argument: not yet accepted. Any
      number of tags, none included, is allowed. */
  function NewClientPost(id: int, author: string, title: string, description: string,
                         tags: seq<ClientTag>, location: string, image: string): (p: ClientPost)
    ensures !p.accepted
    ensures p.id == id && p.author == author && p.title == title && p.description == description
    ensures p.tags == tags && p.location == location && p.image == image
  {
    ClientPost(id, author, title, description, tags, location, false, image)
  }

  /** No two posts share an id. */
  predicate DistinctIds(posts: seq<ClientPost>) {
    forall i, j :: 0 <= i < j < |posts| ==> posts[i].id != posts[j].id
  }
}
