/** The saved tab: the posts whose ids are saved, or an empty-state card
    when there are none. */
module SavedPosts {
  import opened Common
  import opened ClientData
  import opened ViewPosts
  import ClientApp

  /** The saved posts, in their original order. */
  function SavedPosts(posts: seq<ClientPost>, savedIds: set<int>): (r: seq<ClientPost>)
    ensures forall p :: p in r <==> p in posts && p.id in savedIds
    ensures |r| <= |posts|
    ensures savedIds == {} ==> r == []
  {
    var r := Filter(posts, (p: ClientPost) => p.id in savedIds);
    assert |r| > 0 ==> r[0] in r;
    r
  }

  /** The ids of a list of posts. */
  function PostIds(posts: seq<ClientPost>): (ids: set<int>)
    ensures forall x :: x in ids <==> exists i :: 0 <= i < |posts| && posts[i].id == x
  {
    set i | 0 <= i < |posts| :: posts[i].id
  }

  /** A saved id that no post has changes nothing. */
  lemma SavedIdsWithoutPostIgnored(posts: seq<ClientPost>, savedIds: set<int>)
    ensures SavedPosts(posts, savedIds) == SavedPosts(posts, savedIds * PostIds(posts))
  {
    var ids := PostIds(posts);
    forall i | 0 <= i < |posts|
      ensures (posts[i].id in savedIds) == (posts[i].id in savedIds * ids)
    {
      assert posts[i].id in ids;
    }
    FilterCongruence(posts, (p: ClientPost) => p.id in savedIds, (p: ClientPost) => p.id in savedIds * ids);
  }

  /** What the saved tab shows. */
  datatype SavedView = EmptyState | SavedList(cards: seq<FeedCard>)

  function SavedScreen(posts: seq<ClientPost>, savedIds: set<int>): (v: SavedView)
    ensures v.EmptyState? <==> SavedPosts(posts, savedIds) == []
    ensures v.SavedList? ==>
      && |v.cards| == |SavedPosts(posts, savedIds)|
      && forall i :: 0 <= i < |v.cards| ==> v.cards[i] == FeedCard(SavedPosts(posts, savedIds)[i], true)
  {
    var saved := SavedPosts(posts, savedIds);
    if saved == [] then EmptyState
    else SavedList(seq(|saved|, i requires 0 <= i < |saved| => FeedCard(saved[i], true)))
  }

  /** The empty-state card shows exactly when no post's id is saved. */
  lemma EmptyStateIff(posts: seq<ClientPost>, savedIds: set<int>)
    ensures SavedScreen(posts, savedIds).EmptyState? <==> forall i :: 0 <= i < |posts| ==> posts[i].id !in savedIds
  {
    var saved := SavedPosts(posts, savedIds);
    assert |saved| > 0 ==> saved[0] in saved;
    if !(forall i :: 0 <= i < |posts| ==> posts[i].id !in savedIds) {
      var i :| 0 <= i < |posts| && posts[i].id in savedIds;
      assert posts[i] in saved;
    }
  }

  /** Toggling a post's saved state on the feed adds it to the saved tab when
      it was not saved and removes it when it was. */
  lemma ToggleMovesPostInOrOut(posts: seq<ClientPost>, savedIds: set<int>, k: nat)
    requires k < |posts|
    ensures posts[k].id !in savedIds ==> posts[k] in SavedPosts(posts, ClientApp.ToggleSaved(savedIds, posts[k].id))
    ensures posts[k].id in savedIds ==> posts[k] !in SavedPosts(posts, ClientApp.ToggleSaved(savedIds, posts[k].id))
  {
  }
}
