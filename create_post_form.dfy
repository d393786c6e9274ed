/** The create-post form: five text and tag fields held as state, the
    required-field errors, the tag chips and the submit guard. */
module CreatePostForm {
  import opened Common
  import opened ClientData

  /** Kotlin's `list - element`: the list without the first occurrence of
      the element, or the list itself when it does not occur. */
  function RemoveFirst<T(==)>(s: seq<T>, x: T): (r: seq<T>)
    ensures x in s ==> |r| == |s| - 1 && multiset(r) == multiset(s) - multiset{x}
    ensures x !in s ==> r == s
    ensures forall y :: y in r ==> y in s
  {
    if s == [] then []
    else
      assert s == [s[0]] + s[1..];
      if s[0] == x then s[1..]
      else [s[0]] + RemoveFirst(s[1..], x)
  }

  /** A click on a tag chip: the tag leaves the list when it is in it, else
      it joins at the end. */
  function ToggleTag(tags: seq<ClientTag>, t: ClientTag): (r: seq<ClientTag>)
    ensures t in tags ==> multiset(r) == multiset(tags) - multiset{t}
    ensures t !in tags ==> r == tags + [t]
  {
    if t in tags then RemoveFirst(tags, t) else tags + [t]
  }

  /** The occurrence removed is the first one, and the rest keep their order. */
  lemma {:induction false} RemoveFirstDropsFirstOccurrence<T>(s: seq<T>, x: T)
    requires x in s
    ensures exists k :: 0 <= k < |s| && s[k] == x && x !in s[..k] && RemoveFirst(s, x) == s[..k] + s[k + 1..]
  {
    if s[0] == x {
      assert s[..0] == [] && s[0 + 1..] == s[1..];
    } else {
      var t := s[1..];
      assert x in t by { assert s == [s[0]] + t; }
      RemoveFirstDropsFirstOccurrence(t, x);
      var j :| 0 <= j < |t| && t[j] == x && x !in t[..j] && RemoveFirst(t, x) == t[..j] + t[j + 1..];
      var k := j + 1;
      assert s[k] == x;
      SlicesPastHead(s, j);
      assert x !in s[..k] by {
        assert s[..k] == [s[0]] + t[..j];
      }
      var r := RemoveFirst(s, x);
      assert r == [s[0]] + (t[..j] + t[j + 1..]);
      AppendAssociative([s[0]], t[..j], t[j + 1..]);
      assert r == s[..k] + s[k + 1..];
    }
  }

  lemma AppendAssociative<T>(a: seq<T>, b: seq<T>, c: seq<T>)
    ensures a + (b + c) == (a + b) + c
  {
  }

  /** Slices of `s` around position `j + 1`, seen through `s[1..]`. */
  lemma SlicesPastHead<T>(s: seq<T>, j: nat)
    requires j + 1 < |s|
    ensures s[..j + 1] == [s[0]] + s[1..][..j]
    ensures s[j + 2..] == s[1..][j + 1..]
  {
  }

  /** A click on a selected tag drops it from where it stood; the other tags
      keep their order. */
  lemma ToggleTagDropsInPlace(tags: seq<ClientTag>, t: ClientTag)
    requires t in tags
    ensures exists k :: 0 <= k < |tags| && tags[k] == t && t !in tags[..k] && ToggleTag(tags, t) == tags[..k] + tags[k + 1..]
  {
    RemoveFirstDropsFirstOccurrence(tags, t);
  }

  /** Removing from a list without repetitions leaves one without
      repetitions, and without the element. */
  lemma {:induction false} RemoveFirstNoDuplicates<T>(s: seq<T>, x: T)
    requires NoDuplicates(s)
    ensures NoDuplicates(RemoveFirst(s, x)) && x !in RemoveFirst(s, x)
  {
    if s != [] && s[0] != x {
      var rest := RemoveFirst(s[1..], x);
      assert NoDuplicates(s[1..]) by {
        forall i, j | 0 <= i < j < |s[1..]|
          ensures s[1..][i] != s[1..][j]
        {
          assert s[1..][i] == s[i + 1] && s[1..][j] == s[j + 1];
        }
      }
      RemoveFirstNoDuplicates(s[1..], x);
      var r := [s[0]] + rest;
      forall i, j | 0 <= i < j < |r|
        ensures r[i] != r[j]
      {
        assert r[j] == rest[j - 1];
        if i == 0 {
          assert rest[j - 1] in s[1..];
          var m :| 0 <= m < |s[1..]| && s[1..][m] == rest[j - 1];
          assert s[m + 1] == rest[j - 1];
        } else {
          assert r[i] == rest[i - 1];
        }
      }
    }
  }

  /** Starting from a list without repetitions, a click leaves a list
      without repetitions, in which the tag's chip has flipped. */
  lemma ToggleTagNoDuplicates(tags: seq<ClientTag>, t: ClientTag)
    requires NoDuplicates(tags)
    ensures NoDuplicates(ToggleTag(tags, t))
    ensures t in ToggleTag(tags, t) <==> t !in tags
    ensures forall u :: u != t ==> (u in ToggleTag(tags, t) <==> u in tags)
  {
    var r := ToggleTag(tags, t);
    if t in tags {
      RemoveFirstNoDuplicates(tags, t);
      forall u | u != t
        ensures u in r <==> u in tags
      {
        assert multiset(r)[u] == multiset(tags)[u];
      }
    }
  }

  /** Removing an element from the end of a list that had no other copy of it. */
  lemma {:induction false} RemoveFirstAppended<T>(s: seq<T>, x: T)
    requires x !in s
    ensures RemoveFirst(s + [x], x) == s
  {
    if s == [] {
      assert s + [x] == [x];
    } else {
      assert (s + [x])[0] == s[0];
      assert (s + [x])[1..] == s[1..] + [x];
      RemoveFirstAppended(s[1..], x);
      assert [s[0]] + s[1..] == s;
    }
  }

  /** Clicking an unselected tag twice gives back the list exactly. */
  lemma ToggleAbsentTwice(tags: seq<ClientTag>, t: ClientTag)
    requires t !in tags
    ensures ToggleTag(ToggleTag(tags, t), t) == tags
  {
    RemoveFirstAppended(tags, t);
  }

  /** Clicking a selected tag twice keeps the same tags but moves it to the
      end: [Event, Volunteer] becomes [Volunteer, Event]. */
  lemma TogglePresentTwiceMovesToEnd(tags: seq<ClientTag>, t: ClientTag)
    requires NoDuplicates(tags) && t in tags
    ensures ToggleTag(ToggleTag(tags, t), t) == RemoveFirst(tags, t) + [t]
  {
    RemoveFirstNoDuplicates(tags, t);
  }

  /** What the form hands to its submit callback, exactly as held. */
  datatype Submission = Submission(title: string, desc: string, tags: seq<ClientTag>, location: string, imageUrl: string)

  /** The form's remembered state. */
  class CreatePostForm {
    var title: string
    var desc: string
    var location: string
    var tags: seq<ClientTag>
    var imageUrl: string

    ghost predicate Valid()
      reads this
    {
      NoDuplicates(tags)
    }

    constructor()
      ensures title == "" && desc == "" && location == "" && tags == [] && imageUrl == ""
      ensures Valid()
    {
      title, desc, location, tags, imageUrl := "", "", "", [], "";
    }

    /** The title field is marked as an error exactly when it is blank. */
    predicate TitleError()
      reads this
    {
      IsBlank(title)
    }

    /** The description field is marked as an error exactly when it is blank. */
    predicate DescError()
      reads this
    {
      IsBlank(desc)
    }

    /** Whether the chip of a tag is drawn selected. */
    predicate ChipSelected(t: ClientTag)
      reads this
    {
      t in tags
    }

    method EditTitle(s: string)
      modifies this
      ensures title == s && desc == old(desc) && location == old(location) && tags == old(tags) && imageUrl == old(imageUrl)
    {
      title := s;
    }

    method EditDesc(s: string)
      modifies this
      ensures desc == s && title == old(title) && location == old(location) && tags == old(tags) && imageUrl == old(imageUrl)
    {
      desc := s;
    }

    method EditLocation(s: string)
      modifies this
      ensures location == s && title == old(title) && desc == old(desc) && tags == old(tags) && imageUrl == old(imageUrl)
    {
      location := s;
    }

    method EditImageUrl(s: string)
      modifies this
      ensures imageUrl == s && title == old(title) && desc == old(desc) && location == old(location) && tags == old(tags)
    {
      imageUrl := s;
    }

    /** A click on the chip of `t`: its selection flips and no other chip's does. */
    method ClickTag(t: ClientTag)
      requires Valid()
      modifies this
      ensures Valid()
      ensures tags == ToggleTag(old(tags), t)
      ensures ChipSelected(t) <==> !old(ChipSelected(t))
      ensures forall u :: u != t ==> (ChipSelected(u) <==> old(ChipSelected(u)))
      ensures title == old(title) && desc == old(desc) && location == old(location) && imageUrl == old(imageUrl)
    {
      ToggleTagNoDuplicates(tags, t);
      tags := ToggleTag(tags, t);
    }

    /** A click on Submit: the callback runs, with the fields as held, only
        when neither required field is blank; location and image URL are not
        checked. */
    method ClickSubmit() returns (submitted: Option<Submission>)
      ensures submitted.Some? <==> !TitleError() && !DescError()
      ensures submitted.Some? ==> submitted.value == Submission(title, desc, tags, location, imageUrl)
    {
      if !IsBlank(title) && !IsBlank(desc) {
        return Some(Submission(title, desc, tags, location, imageUrl));
      }
      return None;
    }
  }
}
