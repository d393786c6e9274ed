/** The feed: a tag filter chosen with a row of three chips, the posts that
    pass it, and for each card whether its post is saved. The web grid of
    posts keeps the same filter state and shows the same selection. */
module ViewPosts {
  import opened Common
  import opened ClientData

  /** The posts shown under a filter: all of them with no filter, else those
      carrying the tag, in their original order. */
  function FilteredPosts(posts: seq<ClientPost>, filter: Option<ClientTag>): (r: seq<ClientPost>)
    ensures filter.None? ==> r == posts
    ensures forall p :: p in r <==> p in posts && (filter.None? || filter.value in p.tags)
    ensures |r| <= |posts|
  {
    if filter.None? then posts
    else
      var t := filter.value;
      Filter(posts, (p: ClientPost) => t in p.tags)
  }

  /** Order is kept: filtering a list made of two parts filters each part
      and keeps the first part's posts before the second's. */
  lemma FilteredPostsAppend(a: seq<ClientPost>, b: seq<ClientPost>, filter: Option<ClientTag>)
    ensures FilteredPosts(a + b, filter) == FilteredPosts(a, filter) + FilteredPosts(b, filter)
  {
    if filter.Some? {
      var t := filter.value;
      FilterAppend(a, b, (p: ClientPost) => t in p.tags);
    }
  }

  /** A post carrying the tag is shown as often as it occurs; any other not at all. */
  lemma FilteredPostsMultiplicity(posts: seq<ClientPost>, t: ClientTag, p: ClientPost)
    ensures multiset(FilteredPosts(posts, Some(t)))[p] == if t in p.tags then multiset(posts)[p] else 0
  {
    FilterMultiplicity(posts, (q: ClientPost) => t in q.tags, p);
  }

  /** A card of the feed: the post and whether its id is among the saved ones. */
  datatype FeedCard = FeedCard(post: ClientPost, isSaved: bool)

  function FeedCards(posts: seq<ClientPost>, filter: Option<ClientTag>, savedIds: set<int>): (cards: seq<FeedCard>)
    ensures |cards| == |FilteredPosts(posts, filter)|
    ensures forall i :: 0 <= i < |cards| ==>
      cards[i].post == FilteredPosts(posts, filter)[i] && (cards[i].isSaved <==> cards[i].post.id in savedIds)
  {
    var shown := FilteredPosts(posts, filter);
    seq(|shown|, i requires 0 <= i < |shown| => FeedCard(shown[i], shown[i].id in savedIds))
  }

  /** One chip of the filter row: its caption, whether it is drawn selected,
      and the filter a click on it selects. */
  datatype FilterChipView = FilterChipView(caption: string, selected: bool, selects: Option<ClientTag>)

  /** The filter row: "All" for no filter, "Events" and "Requests" (the
      ask-help tag). */
  function FilterRowChips(filter: Option<ClientTag>): (chips: seq<FilterChipView>)
    ensures |chips| == 3
    ensures chips[0].caption == "All" && chips[0].selects == None
    ensures chips[1].caption == "Events" && chips[1].selects == Some(Event)
    ensures chips[2].caption == "Requests" && chips[2].selects == Some(AskHelp)
    ensures forall i :: 0 <= i < 3 ==> (chips[i].selected <==> chips[i].selects == filter)
  {
    [ FilterChipView("All", filter == None, None),
      FilterChipView("Events", filter == Some(Event), Some(Event)),
      FilterChipView("Requests", filter == Some(AskHelp), Some(AskHelp)) ]
  }

  /** The filters the row can select. */
  predicate Selectable(filter: Option<ClientTag>) {
    filter == None || filter == Some(Event) || filter == Some(AskHelp)
  }

  /** At most one chip is drawn selected; exactly one when the filter is one
      the row can select, and then it is the chip that selects it. */
  lemma OneChipSelected(filter: Option<ClientTag>)
    ensures forall i, j :: 0 <= i < j < 3 ==> !(FilterRowChips(filter)[i].selected && FilterRowChips(filter)[j].selected)
    ensures Selectable(filter) <==> exists i :: 0 <= i < 3 && FilterRowChips(filter)[i].selected
  {
    var chips := FilterRowChips(filter);
    if filter == None {
      assert chips[0].selected;
    } else if filter == Some(Event) {
      assert chips[1].selected;
    } else if filter == Some(AskHelp) {
      assert chips[2].selected;
    }
  }

  const CheckMark: string := "\U{2714} "

  /** The chip's text: the label behind a check mark when selected, bare otherwise. */
  function ChipText(caption: string, selected: bool): (r: string)
    ensures selected ==> StartsWith(r, CheckMark) && r[|CheckMark|..] == caption
    ensures !selected ==> r == caption
  {
    if selected then CheckMark + caption else caption
  }

  /** A selected chip reads differently from an unselected one. */
  lemma ChipTextShowsSelection(caption: string)
    ensures ChipText(caption, true) != ChipText(caption, false)
  {
    assert |ChipText(caption, true)| == |caption| + 2;
  }

  /** The filter state of the feed (and of the web grid): no filter at
      first, then whatever chip was last clicked. */
  class FeedFilter {
    var filter: Option<ClientTag>

    ghost predicate Valid()
      reads this
    {
      Selectable(filter)
    }

    constructor()
      ensures filter == None && Valid()
    {
      filter := None;
    }

    /** A click on the chip at `index` of the filter row. */
    method ClickChip(index: nat)
      requires index < 3
      modifies this
      ensures filter == FilterRowChips(old(filter))[index].selects
      ensures Valid() && FilterRowChips(filter)[index].selected
    {
      filter := FilterRowChips(filter)[index].selects;
    }

    function Shown(posts: seq<ClientPost>): seq<ClientPost>
      reads this
    {
      FilteredPosts(posts, filter)
    }
  }
}
