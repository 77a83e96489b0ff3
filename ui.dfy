/**
 * The deterministic decisions of the page script: host-name extraction, the
 * favourite test, and what each rendered list holds. Markup is modelled as
 * records carrying only the decisions the page makes about each story.
 */
module Ui {
  import opened JsString
  import opened ApiClasses

  /**
   * `hostName.slice(0, 4) === "www." ? hostName.slice(4) : hostName`: one
   * leading "www." is removed, and a string that does not start with it is
   * returned unchanged.
   */
  function StripWww(h: string): (r: string)
    ensures |h| >= 4 && h[..4] == "www." ==> r == h[4..]
    ensures !(|h| >= 4 && h[..4] == "www.") ==> r == h
  {
    if Slice(h, 0, 4) == "www." then Slice(h, 4, |h|) else h
  }

  /**
   * `getHostName(url)`: with "://" in the url, the third "/"-separated
   * piece, otherwise the first, with one leading "www." removed. The result
   * never contains "/".
   */
  function HostName(url: string): (host: string)
    ensures '/' !in host
  {
    var parts := Split(url, '/');
    SplitPiecesHaveNoSeparator(url, '/');
    var hostName :=
      if IndexOf(url, "://") > -1 then
        SchemeGivesThreeSegments(url);
        parts[2]
      else
        parts[0];
    assert |hostName| >= 4 && hostName[..4] == "www." ==> forall c :: c in hostName[4..] ==> c in hostName;
    StripWww(hostName)
  }


  /**
   * An occurrence of "://" puts at least two separators in the url, so
   * `url.split("/")[2]` always exists and `getHostName` is total.
   */
  lemma SchemeGivesThreeSegments(url: string)
    requires IndexOf(url, "://") > -1
    ensures |Split(url, '/')| >= 3
  {
    var j := IndexOf(url, "://");
    assert url == url[..j] + ("://" + url[j + 3..]);
    CountAppend(url[..j], "://" + url[j + 3..], '/');
    CountAppend("://", url[j + 3..], '/');
    assert Count("/", '/') == 1 by { assert "/"[1..] == ""; }
    assert Count("//", '/') == 2 by { assert "//"[1..] == "/"; }
    assert Count("://", '/') == 2 by { assert "://"[1..] == "//"; }
    SplitLength(url, '/');
  }

  /**
   * A url with "://" written as `a/b/h` followed by nothing or by "/...",
   * where `a`, `b` and `h` hold no "/", has host name `h` without its
   * leading "www.".
   */
  lemma HostNameWithScheme(url: string, a: string, b: string, h: string, rest: string)
    requires IndexOf(url, "://") > -1
    requires url == a + "/" + b + "/" + h + rest
    requires '/' !in a && '/' !in b && '/' !in h
    requires rest == [] || rest[0] == '/'
    ensures HostName(url) == StripWww(h)
  {
    assert url == a + ['/'] + (b + ['/'] + (h + rest));
    SplitCons(a, '/', b + ['/'] + (h + rest));
    SplitCons(b, '/', h + rest);
    SplitFirstPiece(h, '/', rest);
  }

  /**
   * A url without "://" written as `h` followed by nothing or by "/...",
   * where `h` holds no "/", has host name `h` without its leading "www.".
   */
  lemma HostNameWithoutScheme(url: string, h: string, rest: string)
    requires IndexOf(url, "://") == -1
    requires url == h + rest
    requires '/' !in h
    requires rest == [] || rest[0] == '/'
    ensures HostName(url) == StripWww(h)
  {
    SplitFirstPiece(h, '/', rest);
  }

  /**
   * The usual shape `scheme://host` followed by nothing or by "/...": the
   * host name is `host` without its leading "www.".
   */
  lemma HostNameOfSchemeAndHost(scheme: string, host: string, path: string)
    requires '/' !in scheme && '/' !in host
    requires path == [] || path[0] == '/'
    ensures HostName(scheme + "://" + host + path) == StripWww(host)
  {
    var url := scheme + "://" + host + path;
    assert OccursAt(url, "://", |scheme|) by {
      assert url[|scheme|..|scheme| + 3] == (scheme + "://")[|scheme|..];
    }
    assert url == (scheme + ":") + "/" + "" + "/" + host + path;
    assert '/' !in scheme + ":" by {
      assert forall c :: c in scheme + ":" ==> c in scheme || c == ':';
    }
    HostNameWithScheme(url, scheme + ":", "", host, path);
  }

  /**
   * "https://www.example.com" followed by a path, such as "/a", has host
   * name "example.com".
   */
  lemma HostNameOfSchemeUrl(path: string)
    requires path == [] || path[0] == '/'
    ensures HostName("https://www.example.com" + path) == "example.com"
  {
    assert StripWww("www.example.com") == "example.com";
    assert "https://www.example.com" == "https" + "://" + "www.example.com";
    HostNameOfSchemeAndHost("https", "www.example.com", path);
  }

  /**
   * "example.com" followed by a path without ":", such as "/a", has host
   * name "example.com".
   */
  lemma HostNameOfBareUrl(path: string)
    requires path == [] || path[0] == '/'
    requires ':' !in path
    ensures HostName("example.com" + path) == "example.com"
  {
    var url := "example.com" + path;
    assert ':' !in url by {
      assert forall c :: c in url ==> c in "example.com" || c in path;
    }
    IndexOfMissingFirstChar(url, "://");
    HostNameWithoutScheme(url, "example.com", path);
    assert StripWww("example.com") == "example.com";
  }

  /** Only one "www." is stripped: "www.www.x" becomes "www.x". */
  lemma StripWwwOnce()
    ensures StripWww("www.www.x") == "www.x"
  {
  }

  /** `stories.map(obj => obj.storyId)`. */
  function StoryIds(ss: seq<Story>): (ids: seq<string>)
    ensures |ids| == |ss|
    ensures forall i :: 0 <= i < |ss| ==> ids[i] == ss[i].storyId
  {
    if ss == [] then [] else [ss[0].storyId] + StoryIds(ss[1..])
  }

  /**
   * `isFavorite(story)`: the id is in the set of the current user's
   * favourite ids, and there are none when nobody is logged in.
   */
  function IsFavorite(currentUser: User?, story: Story): (r: bool)
    reads currentUser
    ensures currentUser == null ==> !r
    ensures currentUser != null ==>
      (r <==> exists i :: 0 <= i < |currentUser.favorites| && currentUser.favorites[i].storyId == story.storyId)
  {
    var favStoryIds: set<string> :=
      if currentUser != null then set id | id in StoryIds(currentUser.favorites) else {};
    story.storyId in favStoryIds
  }

  /** Every story in the current user's favourites is a favourite. */
  lemma FavoritesAreFavorite(currentUser: User, story: Story)
    requires story in currentUser.favorites
    ensures IsFavorite(currentUser, story)
  {
  }

  /** The star icon: filled ("fas") or empty ("far"). */
  datatype Star = Fas | Far

  /** What `generateStoryHTML` decides about one story. */
  datatype StoryItem = StoryItem(storyId: string, hostName: string, star: Star, trashCan: bool)

  /** An entry of a rendered list: a placeholder message or a story. */
  datatype Entry = Placeholder(message: string) | Listed(item: StoryItem)

  const NoFavoritesMessage := "No favorites added!"
  const NoOwnStoriesMessage := "No stories added by user yet!"

  /**
   * `generateStoryHTML(story, isOwnStory)`: the star is filled exactly when
   * the story is a favourite, and the trash can appears exactly for own
   * stories; the two decisions are independent.
   */
  function StoryHtml(currentUser: User?, story: Story, isOwnStory: bool): (item: StoryItem)
    reads currentUser, story
    ensures item.storyId == story.storyId && item.hostName == HostName(story.url)
    ensures item.star == Fas <==> IsFavorite(currentUser, story)
    ensures item.trashCan <==> isOwnStory
  {
    var starType := if IsFavorite(currentUser, story) then Fas else Far;
    StoryItem(story.storyId, HostName(story.url), starType, isOwnStory)
  }

  /** A favourite rendered as in the favourites list has a filled star and no trash can. */
  lemma FavoriteItemHasFilledStar(currentUser: User, k: nat)
    requires k < |currentUser.favorites|
    ensures StoryHtml(currentUser, currentUser.favorites[k], false).star == Fas
    ensures !StoryHtml(currentUser, currentUser.favorites[k], false).trashCan
  {
    FavoritesAreFavorite(currentUser, currentUser.favorites[k]);
  }

  /**
   * The rendering loop of `generateStories`, over the already fetched list:
   * one item per story, in order, none with a trash can.
   */
  method GenerateStories(currentUser: User?, stories: seq<Story>) returns (out: seq<StoryItem>)
    ensures |out| == |stories|
    ensures forall i :: 0 <= i < |stories| ==> out[i] == StoryHtml(currentUser, stories[i], false)
    ensures forall i :: 0 <= i < |out| ==> !out[i].trashCan
  {
    out := [];
    for i := 0 to |stories|
      invariant |out| == i
      invariant forall k :: 0 <= k < i ==> out[k] == StoryHtml(currentUser, stories[k], false)
    {
      out := out + [StoryHtml(currentUser, stories[i], false)];
    }
  }

  /**
   * `generateFaves()`: only the placeholder when there are no favourites,
   * otherwise one item per favourite in order, each with a filled star and
   * no trash can.
   */
  method GenerateFaves(currentUser: User) returns (out: seq<Entry>)
    ensures currentUser.favorites == [] ==> out == [Placeholder(NoFavoritesMessage)]
    ensures currentUser.favorites != [] ==>
      |out| == |currentUser.favorites| &&
      forall i :: 0 <= i < |out| ==> out[i] == Listed(StoryHtml(currentUser, currentUser.favorites[i], false))
    ensures currentUser.favorites != [] ==>
      forall i :: 0 <= i < |out| ==> out[i].Listed? && out[i].item.star == Fas && !out[i].item.trashCan
  {
    var favorites := currentUser.favorites;
    if |favorites| == 0 {
      out := [Placeholder(NoFavoritesMessage)];
    } else {
      out := [];
      for i := 0 to |favorites|
        invariant |out| == i
        invariant forall k :: 0 <= k < i ==> out[k] == Listed(StoryHtml(currentUser, favorites[k], false))
      {
        out := out + [Listed(StoryHtml(currentUser, favorites[i], false))];
      }
      forall k | 0 <= k < |out|
        ensures out[k].Listed? && out[k].item.star == Fas && !out[k].item.trashCan
      {
        FavoriteItemHasFilledStar(currentUser, k);
      }
    }
  }

  /**
   * `generateMyStories()`: only the placeholder when the user has no own
   * stories, otherwise one item per own story in order, each with a trash can.
   */
  method GenerateMyStories(currentUser: User) returns (out: seq<Entry>)
    ensures currentUser.ownStories == [] ==> out == [Placeholder(NoOwnStoriesMessage)]
    ensures currentUser.ownStories != [] ==>
      |out| == |currentUser.ownStories| &&
      forall i :: 0 <= i < |out| ==> out[i] == Listed(StoryHtml(currentUser, currentUser.ownStories[i], true))
    ensures currentUser.ownStories != [] ==>
      forall i :: 0 <= i < |out| ==> out[i].Listed? && out[i].item.trashCan
  {
    var own := currentUser.ownStories;
    if |own| == 0 {
      out := [Placeholder(NoOwnStoriesMessage)];
    } else {
      out := [];
      for i := 0 to |own|
        invariant |out| == i
        invariant forall k :: 0 <= k < i ==> out[k] == Listed(StoryHtml(currentUser, own[k], true))
      {
        out := out + [Listed(StoryHtml(currentUser, own[i], true))];
      }
    }
  }
}
