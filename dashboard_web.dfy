/** The web dashboard's middle column: a state machine over the post grid,
    the create form and the details of one post, with the dashboard's own
    list of posts. */
module DashboardWeb {
  import opened Common
  import opened ClientData
  import ClientApp

  datatype MiddleView = Posts | Create | Details

  /** The author the dashboard gives to a post created in it. */
  const DashboardAuthor: string := "sfsjdk"

  /** `maxOf { it.id }`: the largest id of a non-empty list. */
  function MaxId(posts: seq<ClientPost>): (m: int)
    requires posts != []
    ensures forall i :: 0 <= i < |posts| ==> posts[i].id <= m
    ensures exists i :: 0 <= i < |posts| && posts[i].id == m
  {
    if |posts| == 1 then posts[0].id
    else
      var rest := MaxId(posts[1..]);
      assert forall i :: 1 <= i < |posts| ==> posts[i] == posts[1..][i - 1];
      if posts[0].id >= rest then posts[0].id else rest
  }

  /** The submitted post, numbered one past the largest id, goes at the end,
      not accepted. */
  function AppendWithNextId(posts: seq<ClientPost>, title: string, desc: string, tags: seq<ClientTag>,
                            location: string, image: string): (r: seq<ClientPost>)
    requires posts != []
    ensures |r| == |posts| + 1 && r[..|posts|] == posts
    ensures forall i :: 0 <= i < |posts| ==> posts[i].id < r[|posts|].id
    ensures !r[|posts|].accepted && r[|posts|].author == DashboardAuthor
    ensures r[|posts|].title == title && r[|posts|].description == desc && r[|posts|].tags == tags
    ensures r[|posts|].location == location && r[|posts|].image == image
  {
    posts + [NewClientPost(MaxId(posts) + 1, DashboardAuthor, title, desc, tags, location, image)]
  }

  /** Numbering past the largest id keeps the ids distinct. */
  lemma AppendWithNextIdKeepsDistinct(posts: seq<ClientPost>, title: string, desc: string, tags: seq<ClientTag>,
                                      location: string, image: string)
    requires posts != [] && DistinctIds(posts)
    ensures DistinctIds(AppendWithNextId(posts, title, desc, tags, location, image))
  {
    var r := AppendWithNextId(posts, title, desc, tags, location, image);
    forall i, j | 0 <= i < j < |r|
      ensures r[i].id != r[j].id
    {
      assert r[i] == r[..|posts|][i];
      if j < |posts| {
        assert r[j] == r[..|posts|][j];
      }
    }
  }

  /** What the middle column shows. */
  datatype MiddleContent = PostsGrid | CreateForm | PostDetails(post: ClientPost) | Nothing

  class Dashboard {
    var posts: seq<ClientPost>
    var middleView: MiddleView
    var selectedPost: Option<ClientPost>

    /** The list is never empty and its ids are distinct, and the details view
        always has a post to show. */
    ghost predicate Valid()
      reads this
    {
      posts != [] && DistinctIds(posts) && (middleView == Details ==> selectedPost.Some?)
    }

    constructor()
      ensures posts == ClientApp.FakePosts() && middleView == Posts && selectedPost == None
      ensures Valid()
    {
      posts := ClientApp.FakePosts();
      middleView := Posts;
      selectedPost := None;
      ClientApp.FirstNewIdUnused();
    }

    /** The middle column: in the details view with no selected post, nothing. */
    function Content(): (c: MiddleContent)
      reads this
      ensures c == Nothing <==> middleView == Details && selectedPost.None?
    {
      match middleView
      case Posts => PostsGrid
      case Create => CreateForm
      case Details => if selectedPost.Some? then PostDetails(selectedPost.value) else Nothing
    }

    method OnAccept(id: int)
      requires Valid() && middleView == Posts
      modifies this
      ensures Valid()
      ensures posts == ClientApp.Accept(old(posts), id)
      ensures middleView == old(middleView) && selectedPost == old(selectedPost)
    {
      ClientApp.AcceptKeepsIds(posts, id);
      posts := ClientApp.Accept(posts, id);
    }

    method OnClickDetails(post: ClientPost)
      requires Valid() && middleView == Posts
      modifies this
      ensures Valid()
      ensures selectedPost == Some(post) && middleView == Details && posts == old(posts)
      ensures Content() == PostDetails(post)
    {
      selectedPost := Some(post);
      middleView := Details;
    }

    method OnCreatePost()
      requires Valid() && middleView == Posts
      modifies this
      ensures Valid()
      ensures middleView == Create && posts == old(posts) && selectedPost == old(selectedPost)
    {
      middleView := Create;
    }

    method OnSubmit(title: string, desc: string, tags: seq<ClientTag>, location: string, image: string)
      requires Valid() && middleView == Create
      modifies this
      ensures Valid()
      ensures posts == AppendWithNextId(old(posts), title, desc, tags, location, image)
      ensures middleView == Posts && selectedPost == old(selectedPost)
    {
      AppendWithNextIdKeepsDistinct(posts, title, desc, tags, location, image);
      posts := AppendWithNextId(posts, title, desc, tags, location, image);
      middleView := Posts;
    }

    method OnCancel()
      requires Valid() && middleView == Create
      modifies this
      ensures Valid()
      ensures middleView == Posts && posts == old(posts) && selectedPost == old(selectedPost)
    {
      middleView := Posts;
    }

    method OnBack()
      requires Valid() && middleView == Details
      modifies this
      ensures Valid()
      ensures middleView == Posts && posts == old(posts) && selectedPost == old(selectedPost)
    {
      middleView := Posts;
    }
  }
}
