/**
 * The entity classes of the client: Story, User and StoryList. Every method
 * that talks to the server is modelled from the point where the response has
 * arrived: the response body is a parameter and the request is not modelled.
 */
module ApiClasses {
  import opened Wrappers

  /** The JSON shape of a story in a response body. */
  datatype StoryObj = StoryObj(
    author: string, title: string, url: string, username: string,
    storyId: string, createdAt: string, updatedAt: string)

  /** The JSON shape of a user in a response body; `stories` are the user's own stories. */
  datatype UserObj = UserObj(
    username: string, name: string, createdAt: string, updatedAt: string,
    favorites: seq<StoryObj>, stories: seq<StoryObj>)

  /** The body returned by signup and login: the user and a fresh token. */
  datatype AuthResponse = AuthResponse(user: UserObj, token: string)

  class Story {
    var author: string
    var title: string
    var url: string
    var username: string
    /** Server-assigned and never reassigned once the story is constructed. */
    const storyId: string
    var createdAt: string
    var updatedAt: string

    /** The story's fields, as a value. */
    function Snapshot(): StoryObj
      reads this
    {
      StoryObj(author, title, url, username, storyId, createdAt, updatedAt)
    }

    /** `new Story(storyObj)` copies all seven fields. */
    constructor (obj: StoryObj)
      ensures Snapshot() == obj
    {
      author, title, url, username := obj.author, obj.title, obj.url, obj.username;
      storyId := obj.storyId;
      createdAt, updatedAt := obj.createdAt, obj.updatedAt;
    }

    /**
     * `story.update(user, storyData)` once the PATCH response `response`
     * has arrived: author, title, url and updatedAt are overwritten, and the
     * id, the owner and the creation time stay.
     */
    method Update(response: StoryObj)
      modifies this`author, this`title, this`url, this`updatedAt
      ensures author == response.author && title == response.title
      ensures url == response.url && updatedAt == response.updatedAt
      ensures username == old(username) && createdAt == old(createdAt)
    {
      author, title, url, updatedAt := response.author, response.title, response.url, response.updatedAt;
    }
  }

  /** The stories hold, in order, exactly the field values in `objs`. */
  predicate Mirrors(ss: seq<Story>, objs: seq<StoryObj>)
    reads ss
  {
    |ss| == |objs| && forall i :: 0 <= i < |ss| ==> ss[i].Snapshot() == objs[i]
  }

  /**
   * `objs.map(s => new Story(s))`: one freshly allocated story per object,
   * in order, all distinct.
   */
  method NewStories(objs: seq<StoryObj>) returns (ss: seq<Story>)
    ensures Mirrors(ss, objs)
    ensures forall s :: s in ss ==> fresh(s)
    ensures forall i, j :: 0 <= i < j < |ss| ==> ss[i] != ss[j]
  {
    ss := [];
    var i := 0;
    while i < |objs|
      invariant 0 <= i <= |objs|
      invariant |ss| == i
      invariant forall k :: 0 <= k < i ==> ss[k].Snapshot() == objs[k]
      invariant forall s :: s in ss ==> fresh(s)
      invariant forall k, l :: 0 <= k < l < |ss| ==> ss[k] != ss[l]
    {
      var s := new Story(objs[i]);
      ss := ss + [s];
      i := i + 1;
    }
  }

  /** `ss.filter(s => s.storyId !== id)`. */
  function WithoutId(ss: seq<Story>, id: string): (r: seq<Story>)
    ensures forall s :: s in r ==> s in ss && s.storyId != id
  {
    if ss == [] then []
    else if ss[0].storyId != id then [ss[0]] + WithoutId(ss[1..], id)
    else WithoutId(ss[1..], id)
  }

  /** `a` is `b` with some elements left out, the rest in their original order. */
  predicate IsSubsequence<T(==)>(a: seq<T>, b: seq<T>)
  {
    if a == [] then true
    else if b == [] then false
    else if a[0] == b[0] then IsSubsequence(a[1..], b[1..])
    else IsSubsequence(a, b[1..])
  }

  /** Every story with a different id survives the filter. */
  lemma {:induction false} WithoutIdKeepsOthers(ss: seq<Story>, id: string, s: Story)
    requires s in ss && s.storyId != id
    ensures s in WithoutId(ss, id)
  {
    if ss[0] != s {
      WithoutIdKeepsOthers(ss[1..], id, s);
    }
  }

  /**
   * The filter drops exactly the stories with that id: every other story
   * keeps its number of occurrences.
   */
  lemma {:induction false} WithoutIdCounts(ss: seq<Story>, id: string)
    ensures forall s: Story :: multiset(WithoutId(ss, id))[s] == if s.storyId == id then 0 else multiset(ss)[s]
  {
    if ss != [] {
      WithoutIdCounts(ss[1..], id);
      assert ss == [ss[0]] + ss[1..];
    }
  }

  /** The survivors keep their relative order: nothing is added or reordered. */
  lemma {:induction false} WithoutIdIsSubsequence(ss: seq<Story>, id: string)
    ensures IsSubsequence(WithoutId(ss, id), ss)
  {
    if ss != [] {
      WithoutIdIsSubsequence(ss[1..], id);
      if ss[0].storyId == id {
        SubsequenceOfTail(WithoutId(ss[1..], id), ss);
      }
    }
  }

  /** A subsequence of the tail is a subsequence of the whole. */
  lemma {:induction false} SubsequenceOfTail<T>(a: seq<T>, b: seq<T>)
    requires b != [] && IsSubsequence(a, b[1..])
    ensures IsSubsequence(a, b)
    decreases |a| + |b|
  {
    if a != [] && a[0] == b[0] {
      SubsequenceDropHead(a, b[1..]);
    }
  }

  /** Dropping the first element of a subsequence leaves a subsequence. */
  lemma {:induction false} SubsequenceDropHead<T>(a: seq<T>, c: seq<T>)
    requires a != [] && IsSubsequence(a, c)
    ensures IsSubsequence(a[1..], c)
    decreases |a| + |c|
  {
    if a[0] == c[0] {
      SubsequenceOfTail(a[1..], c);
    } else {
      SubsequenceDropHead(a, c[1..]);
      SubsequenceOfTail(a[1..], c);
    }
  }

  /** Filtering twice by the same id is filtering once. */
  lemma {:induction false} WithoutIdIdempotent(ss: seq<Story>, id: string)
    ensures WithoutId(WithoutId(ss, id), id) == WithoutId(ss, id)
  {
    WithoutIdUnchanged(WithoutId(ss, id), id);
  }

  /** A list that holds no story with the id is left as it is. */
  lemma {:induction false} WithoutIdUnchanged(ss: seq<Story>, id: string)
    requires forall s :: s in ss ==> s.storyId != id
    ensures WithoutId(ss, id) == ss
  {
    if ss != [] {
      WithoutIdUnchanged(ss[1..], id);
      assert [ss[0]] + ss[1..] == ss;
    }
  }

  /**
   * Every own story of the user is listed in the global list under its id.
   * The two lists may hold distinct objects for the same server story, so
   * the comparison is by id, not by object.
   */
  predicate OwnStoriesListed(all: seq<Story>, own: seq<Story>)
  {
    forall s :: s in own ==> exists t :: t in all && t.storyId == s.storyId
  }

  /**
   * Lists built from two responses (say `getStories` and `login`) satisfy
   * the listing invariant when every own story's id occurs in the global
   * response, even though the objects are distinct.
   */
  lemma MirroredListsListed(all: seq<Story>, own: seq<Story>, allObjs: seq<StoryObj>, ownObjs: seq<StoryObj>)
    requires Mirrors(all, allObjs) && Mirrors(own, ownObjs)
    requires forall o :: o in ownObjs ==> exists p :: p in allObjs && p.storyId == o.storyId
    ensures OwnStoriesListed(all, own)
  {
    forall s | s in own
      ensures exists t :: t in all && t.storyId == s.storyId
    {
      var i :| 0 <= i < |own| && own[i] == s;
      assert ownObjs[i] in ownObjs;
      var p :| p in allObjs && p.storyId == ownObjs[i].storyId;
      var j :| 0 <= j < |allObjs| && allObjs[j] == p;
      assert all[j] in all && all[j].storyId == s.storyId;
    }
  }

  /** Filtering both lists by the same id keeps the own stories listed. */
  lemma RemovePreservesOwnStoriesListed(all: seq<Story>, own: seq<Story>, id: string)
    requires OwnStoriesListed(all, own)
    ensures OwnStoriesListed(WithoutId(all, id), WithoutId(own, id))
  {
    forall s | s in WithoutId(own, id)
      ensures exists t :: t in WithoutId(all, id) && t.storyId == s.storyId
    {
      var t :| t in all && t.storyId == s.storyId;
      WithoutIdKeepsOthers(all, id, t);
    }
  }

  class User {
    var username: string
    var name: string
    var createdAt: string
    var updatedAt: string
    var loginToken: string
    var favorites: seq<Story>
    var ownStories: seq<Story>

    /**
     * `new User(userObj)`: the four profile fields come from the object;
     * the token starts empty and both story lists start empty.
     */
    constructor (obj: UserObj)
      ensures username == obj.username && name == obj.name
      ensures createdAt == obj.createdAt && updatedAt == obj.updatedAt
      ensures loginToken == "" && favorites == [] && ownStories == []
    {
      username, name := obj.username, obj.name;
      createdAt, updatedAt := obj.createdAt, obj.updatedAt;
      loginToken := "";
      favorites, ownStories := [], [];
    }

    /**
     * `User.create` once the signup response has arrived: a new user with
     * the returned token and, as the constructor leaves them, no stories.
     */
    static method Create(response: AuthResponse) returns (u: User)
      ensures fresh(u)
      ensures u.username == response.user.username && u.name == response.user.name
      ensures u.createdAt == response.user.createdAt && u.updatedAt == response.user.updatedAt
      ensures u.loginToken == response.token
      ensures u.favorites == [] && u.ownStories == []
    {
      u := new User(response.user);
      u.loginToken := response.token;
    }

    /**
     * `User.login` once the login response has arrived: a new user with the
     * returned token and fresh stories mirroring both returned lists.
     */
    static method Login(response: AuthResponse) returns (u: User)
      ensures fresh(u)
      ensures u.username == response.user.username && u.name == response.user.name
      ensures u.createdAt == response.user.createdAt && u.updatedAt == response.user.updatedAt
      ensures u.loginToken == response.token
      ensures Mirrors(u.favorites, response.user.favorites)
      ensures Mirrors(u.ownStories, response.user.stories)
      ensures forall s :: s in u.favorites || s in u.ownStories ==> fresh(s)
    {
      u := new User(response.user);
      var favorites := NewStories(response.user.favorites);
      var own := NewStories(response.user.stories);
      u.favorites, u.ownStories := favorites, own;
      u.loginToken := response.token;
    }

    /**
     * `User.getLoggedInUser(token, username)`: null when either stored value
     * is missing or empty, with no request made; otherwise the user built
     * from `response` (the body of the request that is then made), carrying
     * the supplied token.
     */
    static method GetLoggedInUser(token: Option<string>, username: Option<string>, response: UserObj)
      returns (u: User?)
      ensures u == null <==> !HasSession(token, username)
      ensures u != null ==> fresh(u) && u.loginToken == token.value
      ensures u != null ==> u.username == response.username && u.name == response.name
      ensures u != null ==> u.createdAt == response.createdAt && u.updatedAt == response.updatedAt
      ensures u != null ==> Mirrors(u.favorites, response.favorites)
      ensures u != null ==> Mirrors(u.ownStories, response.stories)
      ensures u != null ==> forall s :: s in u.favorites || s in u.ownStories ==> fresh(s)
    {
      if !HasSession(token, username) {
        return null;
      }
      u := new User(response);
      u.loginToken := token.value;
      var favorites := NewStories(response.favorites);
      var own := NewStories(response.stories);
      u.favorites, u.ownStories := favorites, own;
    }

    /**
     * `user.retrieveDetails()` once the response has arrived: the profile
     * fields and both story lists are rebuilt from it; the username and the
     * token stay as they were.
     */
    method RetrieveDetails(response: UserObj)
      modifies this`name, this`createdAt, this`updatedAt, this`favorites, this`ownStories
      ensures name == response.name
      ensures createdAt == response.createdAt && updatedAt == response.updatedAt
      ensures Mirrors(favorites, response.favorites)
      ensures Mirrors(ownStories, response.stories)
      ensures forall s :: s in favorites ==> fresh(s)
      ensures forall s :: s in ownStories ==> fresh(s)
      ensures username == old(username) && loginToken == old(loginToken)
    {
      var favs := NewStories(response.favorites);
      var own := NewStories(response.stories);
      name, createdAt, updatedAt, favorites, ownStories :=
        response.name, response.createdAt, response.updatedAt, favs, own;
    }

    /** `user.update(userData)` once the PATCH response has arrived: only the name changes. */
    method Update(response: UserObj)
      modifies this`name
      ensures name == response.name
      ensures username == old(username) && createdAt == old(createdAt) && updatedAt == old(updatedAt)
      ensures loginToken == old(loginToken) && favorites == old(favorites) && ownStories == old(ownStories)
    {
      name := response.name;
    }
  }

  /** JavaScript truthiness of a value read from storage: present and not empty. */
  predicate Truthy(v: Option<string>)
  {
    v.Some? && v.value != ""
  }

  /** The guard of `getLoggedInUser`: both stored values are truthy. */
  predicate HasSession(token: Option<string>, username: Option<string>)
  {
    Truthy(token) && Truthy(username)
  }

  class StoryList {
    /** All stories, most recent first. */
    var stories: seq<Story>

    constructor (stories: seq<Story>)
      ensures this.stories == stories
    {
      this.stories := stories;
    }

    /** `StoryList.getStories()` once the response has arrived: one fresh story per returned object. */
    static method GetStories(response: seq<StoryObj>) returns (list: StoryList)
      ensures fresh(list)
      ensures Mirrors(list.stories, response)
      ensures forall s :: s in list.stories ==> fresh(s)
    {
      var ss := NewStories(response);
      list := new StoryList(ss);
    }

    /**
     * `storyList.addStory(user, newStory)` once the POST response has
     * arrived: the returned story, as one new object, goes to the front of
     * both the global list and the user's own stories, and is returned.
     */
    method AddStory(user: User, response: StoryObj) returns (s: Story)
      modifies this`stories, user`ownStories
      ensures fresh(s) && s.Snapshot() == response
      ensures stories == [s] + old(stories)
      ensures user.ownStories == [s] + old(user.ownStories)
      ensures old(OwnStoriesListed(stories, user.ownStories)) ==> OwnStoriesListed(stories, user.ownStories)
    {
      s := new Story(response);
      stories := [s] + stories;
      user.ownStories := [s] + user.ownStories;
    }

    /**
     * `storyList.removeStory(user, storyId)` once the DELETE has succeeded:
     * both lists lose every story with that id and keep the rest in order.
     */
    method RemoveStory(user: User, storyId: string)
      modifies this`stories, user`ownStories
      ensures stories == WithoutId(old(stories), storyId)
      ensures user.ownStories == WithoutId(old(user.ownStories), storyId)
      ensures old(OwnStoriesListed(stories, user.ownStories)) ==> OwnStoriesListed(stories, user.ownStories)
    {
      if OwnStoriesListed(stories, user.ownStories) {
        RemovePreservesOwnStoriesListed(stories, user.ownStories, storyId);
      }
      stories := WithoutId(stories, storyId);
      user.ownStories := WithoutId(user.ownStories, storyId);
    }
  }
}
