/** The common client's top-level state: which screen is shown, the list of
    posts and the set of saved post ids, with the callbacks the feed and the
    create form call to change them. */
module ClientApp {
  import opened Common
  import opened ClientData

  const HomeScreen: string := "home"
  const CreateScreen: string := "create"

  /** The author a post created on this device is shown under. */
  const LocalAuthor: string := "You"

  /** The four posts the app starts with. */
  function FakePosts(): (posts: seq<ClientPost>)
    ensures |posts| == 4
    ensures SequentialIds(posts)
    ensures forall i :: 0 <= i < |posts| ==> !posts[i].accepted
  {
    [ NewClientPost(1, "Alice", "Campus cleanup", "Join us for cleaning!", [AskHelp, Newcomer], "Dorm 3", ""),
      NewClientPost(2, "Ben", "Community cleanup event", "Join our cleanup event", [Event, Volunteer], "Riverside Park", ""),
      NewClientPost(3, "Chen", "Offering free German help", "If you need help", [OfferHelp, Newcomer], "Library", ""),
      NewClientPost(4, "Dana", "Volleyball players", "Looking for two players!", [Event, Volunteer], "Sports Center", "") ]
  }

  /** The ids are 1, 2, ..., in list order. */
  predicate SequentialIds(posts: seq<ClientPost>) {
    forall i :: 0 <= i < |posts| ==> posts[i].id == i + 1
  }

  lemma SequentialIdsAreDistinct(posts: seq<ClientPost>)
    requires SequentialIds(posts)
    ensures DistinctIds(posts)
  {
  }

  /** The first id the create form hands out, 5, is not one of the starting posts' ids. */
  lemma FirstNewIdUnused()
    ensures forall i :: 0 <= i < |FakePosts()| ==> FakePosts()[i].id != |FakePosts()| + 1
    ensures DistinctIds(FakePosts())
  {
    SequentialIdsAreDistinct(FakePosts());
  }

  /** onAccept: every post with the id becomes accepted; nothing else about
      any post changes, and the list keeps its length and order. */
  function Accept(posts: seq<ClientPost>, id: int): (r: seq<ClientPost>)
    ensures |r| == |posts|
    ensures forall i :: 0 <= i < |posts| ==> r[i].accepted == (posts[i].accepted || posts[i].id == id)
    ensures forall i :: 0 <= i < |posts| ==> r[i].(accepted := posts[i].accepted) == posts[i]
  {
    seq(|posts|, i requires 0 <= i < |posts| => if posts[i].id == id then posts[i].(accepted := true) else posts[i])
  }

  /** Accepting twice is accepting once. */
  lemma AcceptIdempotent(posts: seq<ClientPost>, id: int)
    ensures Accept(Accept(posts, id), id) == Accept(posts, id)
  {
  }

  /** Accepting leaves every id where it was. */
  lemma AcceptKeepsIds(posts: seq<ClientPost>, id: int)
    ensures forall i :: 0 <= i < |posts| ==> Accept(posts, id)[i].id == posts[i].id
    ensures SequentialIds(posts) ==> SequentialIds(Accept(posts, id))
    ensures DistinctIds(posts) ==> DistinctIds(Accept(posts, id))
  {
  }

  /** onToggleSaved: the id changes membership; no other id does. */
  function ToggleSaved(saved: set<int>, id: int): (r: set<int>)
    ensures id in r <==> id !in saved
    ensures forall x :: x != id ==> (x in r <==> x in saved)
  {
    if id in saved then saved - {id} else saved + {id}
  }

  /** Toggling the same id twice gives back the saved set. */
  lemma ToggleSavedTwice(saved: set<int>, id: int)
    ensures ToggleSaved(ToggleSaved(saved, id), id) == saved
  {
  }

  /** The create-form submission as App appends it: one post at the end,
      numbered one past the list's length, by the local author, not accepted. */
  function AppendSubmitted(posts: seq<ClientPost>, title: string, desc: string, tags: seq<ClientTag>, location: string)
    : (r: seq<ClientPost>)
    ensures |r| == |posts| + 1 && r[..|posts|] == posts
    ensures r[|posts|].id == |posts| + 1 && r[|posts|].author == LocalAuthor && !r[|posts|].accepted
    ensures r[|posts|].title == title && r[|posts|].description == desc
    ensures r[|posts|].tags == tags && r[|posts|].location == location
  {
    posts + [NewClientPost(|posts| + 1, LocalAuthor, title, desc, tags, location, "")]
  }

  /** Numbering by length keeps the ids 1, 2, ... when they were before. */
  lemma AppendKeepsSequentialIds(posts: seq<ClientPost>, title: string, desc: string, tags: seq<ClientTag>, location: string)
    requires SequentialIds(posts)
    ensures SequentialIds(AppendSubmitted(posts, title, desc, tags, location))
    ensures DistinctIds(AppendSubmitted(posts, title, desc, tags, location))
  {
    var r := AppendSubmitted(posts, title, desc, tags, location);
    forall i | 0 <= i < |r|
      ensures r[i].id == i + 1
    {
      if i < |posts| {
        assert r[i] == r[..|posts|][i];
      }
    }
    SequentialIdsAreDistinct(r);
  }

  /** App's remembered state. The callbacks of the home screen can only be
      called while it is shown, and those of the create form likewise. */
  class App {
    var screen: string
    var posts: seq<ClientPost>
    var savedIds: set<int>

    /** The states the callbacks can reach: one of the two screens, and
        posts numbered 1, 2, ... (so no two share an id). */
    ghost predicate Valid()
      reads this
    {
      (screen == HomeScreen || screen == CreateScreen) && SequentialIds(posts)
    }

    constructor()
      ensures screen == HomeScreen && posts == FakePosts() && savedIds == {}
      ensures Valid()
    {
      screen := HomeScreen;
      posts := FakePosts();
      savedIds := {};
    }

    method OnAccept(id: int)
      requires Valid() && screen == HomeScreen
      modifies this
      ensures Valid()
      ensures posts == Accept(old(posts), id)
      ensures screen == old(screen) && savedIds == old(savedIds)
    {
      AcceptKeepsIds(posts, id);
      posts := Accept(posts, id);
    }

    method OnToggleSaved(id: int)
      requires Valid() && screen == HomeScreen
      modifies this
      ensures Valid()
      ensures savedIds == ToggleSaved(old(savedIds), id)
      ensures screen == old(screen) && posts == old(posts)
    {
      savedIds := ToggleSaved(savedIds, id);
    }

    method OnCreatePost()
      requires Valid() && screen == HomeScreen
      modifies this
      ensures Valid()
      ensures screen == CreateScreen && posts == old(posts) && savedIds == old(savedIds)
    {
      screen := CreateScreen;
    }

    method OnSubmit(title: string, desc: string, tags: seq<ClientTag>, location: string)
      requires Valid() && screen == CreateScreen
      modifies this
      ensures Valid()
      ensures posts == AppendSubmitted(old(posts), title, desc, tags, location)
      ensures screen == HomeScreen && savedIds == old(savedIds)
    {
      AppendKeepsSequentialIds(posts, title, desc, tags, location);
      posts := AppendSubmitted(posts, title, desc, tags, location);
      screen := HomeScreen;
    }

    method OnCancel()
      requires Valid() && screen == CreateScreen
      modifies this
      ensures Valid()
      ensures screen == HomeScreen && posts == old(posts) && savedIds == old(savedIds)
    {
      screen := HomeScreen;
    }
  }
}
