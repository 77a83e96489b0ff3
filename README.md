# Hack-or-Snooze client core in Dafny

Hack-or-Snooze is a browser client for a story-sharing REST service. Users
sign up, log in, post story links, mark favourites and delete their own
stories. This project models what the client does locally with the data it
holds and with each server response:

- **Entity classes** (`ApiClasses`, from `api-classes.js`). `Story`, `User`
  and `StoryList` are Dafny classes whose methods assign fields in place.
  Each method that makes a request is modelled from the moment the response
  body has arrived: the body is a parameter (`StoryObj`, `UserObj`,
  `AuthResponse`), and the request is not modelled. `StoryList.AddStory`
  prepends the one new story object to the global list and to the user's own
  stories. `StoryList.RemoveStory` filters the id out of both lists.
  `WithoutId` is that filter, and lemmas beside it show what it keeps and
  drops, that it preserves order, that applying it twice is the same as once,
  and that it keeps every own story's id listed in the global list.
- **Page decisions** (`Ui`, from `ui.js`). `HostName` is `getHostName`,
  written over a model of JavaScript's `split`, `indexOf` and `slice`
  (`JsString`). `IsFavorite` is the favourite test. `StoryHtml` records the
  two icon decisions `generateStoryHTML` makes for a story. The list
  builders `GenerateStories`, `GenerateFaves` and `GenerateMyStories` are
  loops that return a sequence of entries instead of appending markup.
- `Wrappers.Option` stands for JavaScript's `null`, as returned by
  `localStorage.getItem`.

`Story.storyId` is a `const` field. No code reassigns it after construction,
so filtering by id reads no mutable state.

## Model

| member | source | states |
|---|---|---|
| JsString.IndexOf | ui.js:377 | `url.indexOf("://")` gives -1 exactly when there is no occurrence, and otherwise the index of the first one |
| JsString.Slice | ui.js:382-383 | `slice` with clamped bounds: between in-range bounds it is that part of the string; with `end` past the length it is the rest from `start`; with `start >= end` or `start` at or past the length it is "" |
| JsString.Split | ui.js:378-380 | `split("/")` always gives at least one piece; SplitLength, JoinSplit and SplitJoin give the piece count, the round trip and that the split is unique |
| JsString.SplitLength | ui.js:378-380 | `split("/")` gives one more piece than there are slashes |
| JsString.SplitPiecesHaveNoSeparator | ui.js:378-380 | no piece of `split("/")` contains a slash |
| JsString.JoinSplit | ui.js:378-380 | joining the pieces with "/" gives back the url, so no character is lost |
| JsString.SplitJoin | ui.js:378-380 | splitting a join of slash-free pieces gives back those pieces, so the split is unique |
| Ui.StripWww | ui.js:382-384 | a leading "www." is removed once; a string that does not start with "www." is returned unchanged |
| Ui.StripWwwOnce | ui.js:382-384 | "www.www.x" becomes "www.x" |
| Ui.SchemeGivesThreeSegments | ui.js:377-378 | when "://" occurs there are at least three pieces, so `split("/")[2]` exists and `getHostName` is total |
| Ui.HostName | ui.js:375-386 | `getHostName`: its own contract says the host name never contains "/"; SchemeGivesThreeSegments, HostNameWithScheme and HostNameWithoutScheme state which piece it returns for every url |
| Ui.HostNameWithScheme | ui.js:377-385 | with "://" present, for a url `a/b/h` followed by nothing or by "/...", the host name is `h` with one "www." removed |
| Ui.HostNameWithoutScheme | ui.js:379-385 | without "://", for a url `h` followed by nothing or by "/...", the host name is `h` with one "www." removed |
| Ui.HostNameOfSchemeAndHost | ui.js:375-386 | `scheme://host` followed by nothing or by a path has host name `host` with one "www." removed |
| Ui.HostNameOfSchemeUrl | ui.js:375-386 | "https://www.example.com" followed by a path such as "/a" gives "example.com" |
| Ui.HostNameOfBareUrl | ui.js:375-386 | "example.com" followed by a path without ":" such as "/a" gives "example.com" |
| Ui.StoryIds | ui.js:368 | the ids of the favourites, one per story, in order |
| Ui.IsFavorite | ui.js:365-371 | false when nobody is logged in; otherwise true exactly when some favourite has the story's id |
| Ui.FavoritesAreFavorite | ui.js:365-371 | every story in the user's favourites passes the favourite test |
| Ui.FavoriteItemHasFilledStar | ui.js:316-318 | a favourite rendered as `generateFaves` renders it has a filled star and no trash can |
| Ui.StoryHtml | ui.js:279-287 | the star is "fas" exactly when the story is a favourite and "far" otherwise; the trash can appears exactly when `isOwnStory` holds; the item carries the story's id and host name |
| Ui.GenerateStories | ui.js:269-275 | one item per story of the fetched list, in order, none with a trash can |
| Ui.GenerateFaves | ui.js:308-321 | only the "No favorites added!" placeholder when there are no favourites; otherwise one item per favourite in order, each with a filled star and no trash can |
| Ui.GenerateMyStories | ui.js:323-339 | only the "No stories added by user yet!" placeholder when there are no own stories; otherwise one item per own story in order, each with a trash can |
| ApiClasses.Story.constructor | api-classes.js:245-253 | all seven fields are copied from the object |
| ApiClasses.Story.Update | api-classes.js:266-273 | author, title, url and updatedAt are taken from the response; username and createdAt stay, and storyId is constant |
| ApiClasses.NewStories | api-classes.js:15 | `map(s => new Story(s))`: one fresh, distinct story per object, in order, with that object's fields |
| ApiClasses.WithoutId | api-classes.js:58-62 | the filtered list holds only stories that came from the input and do not have the id |
| ApiClasses.WithoutIdKeepsOthers | api-classes.js:58-62 | every story with a different id survives the filter |
| ApiClasses.WithoutIdCounts | api-classes.js:58-62 | stories with the id are dropped, and every other story keeps its number of occurrences |
| ApiClasses.WithoutIdIsSubsequence | api-classes.js:58-62 | the survivors keep their relative order, and nothing is added |
| ApiClasses.WithoutIdIdempotent | api-classes.js:58-62 | removing the same id twice has the same effect as removing it once |
| ApiClasses.WithoutIdUnchanged | api-classes.js:58-62 | a list with no story of that id is left unchanged |
| ApiClasses.MirroredListsListed | api-classes.js:15 | lists built from the stories response and from a user response, as distinct objects, satisfy the by-id listing invariant when every own story's id occurs in the stories response |
| ApiClasses.RemovePreservesOwnStoriesListed | api-classes.js:58-62 | if every own story's id is the id of some story in the global list before removal, the same holds after |
| ApiClasses.User.constructor | api-classes.js:69-79 | username, name, createdAt and updatedAt are copied; the token is "" and both story lists are empty |
| ApiClasses.User.Create | api-classes.js:94-100 | a fresh user built from the signup response, carrying the returned token, with no stories |
| ApiClasses.User.Login | api-classes.js:112-122 | a fresh user built from the login response, carrying the returned token, whose favourites and own stories are fresh copies of the returned lists |
| ApiClasses.User.GetLoggedInUser | api-classes.js:127-147 | null exactly when the token or username is missing or empty; otherwise a fresh user whose token is the stored token, whose fields come from the response, and whose favourites and own stories are fresh copies of the returned lists |
| ApiClasses.User.RetrieveDetails | api-classes.js:157-166 | name, createdAt, updatedAt and both lists are replaced from the response; username and loginToken are unchanged |
| ApiClasses.User.Update | api-classes.js:216-220 | only the name changes, and it is set from the response |
| ApiClasses.StoryList.constructor | api-classes.js:5-7 | the list holds the given stories |
| ApiClasses.StoryList.GetStories | api-classes.js:14-19 | a fresh list of fresh stories copied from the response, in order |
| ApiClasses.StoryList.AddStory | api-classes.js:36-43 | the returned story is one fresh object built from the response; it is at index 0 of both the global list and the user's own stories, each followed by its previous contents; if every own story's id was listed in the global list, it still is |
| ApiClasses.StoryList.RemoveStory | api-classes.js:57-62 | both lists become their `WithoutId` filter by the id; if every own story's id was listed in the global list, it still is |

## Left out

- HTTP requests (`axios`, `BASE_URL`): each request is absent, and its response body is a method parameter. The request arguments are therefore not parameters either: `newStory` of `addStory`, `storyData` of `Story.update`, `userData` of `User.update`, and the passwords.
- The error path of each request: a failed request throws before any local update, so the model only covers the case where the request succeeded.
- `User.remove`: it only makes a request.
- `addFavorite`, `removeFavorite` and `_toggleFavorite`: they make a request and then call `retrieveDetails`, which is modelled as `User.RetrieveDetails`.
- The `return this` of `retrieveDetails`, `User.update` and `Story.update`: the methods return nothing, and the updated object is the receiver.
- async/await ordering and overlapping event handlers. They affect only event-loop interleaving.
- The jQuery event handlers, `hideElements`, `showNavForLoggedInUser`, `loginAndSubmitForm` and `checkIfLoggedIn`. They only show and hide page sections or chain modelled operations.
- `generateProfile` (ui.js:248-259): it writes the name, the username and `createdAt.slice(0, 10)` into the page as text. That is presentation only.
- `localStorage` and `location.reload`. The stored token and username enter `User.GetLoggedInUser` as `Option<string>` parameters.
- Ui.StoryHtml: records only the story id, the host name and the two icon decisions, not the markup text or its escaping.
- Ui.GenerateStories: models only the rendering loop over an already fetched list; the fetch is `StoryList.GetStories`.
- The markup built by the story-submit handler (ui.js:94-106): it is presentation only.
- JSON fields missing from a response, which JavaScript reads as `undefined`: every field is modelled as a string.
- JavaScript strings are sequences of UTF-16 code units; here they are sequences of Dafny `char`, which are Unicode scalar values. `JsString.Slice` therefore counts differently from JavaScript's `slice` on text outside the Basic Multilingual Plane. `HostName` still agrees with `getHostName`: its only slicing compares the first four units with the ASCII "www." and, when they match, drops exactly those four, and `split` and `indexOf` work on the ASCII characters "/" and "://", whose code units never occur inside a surrogate pair.
