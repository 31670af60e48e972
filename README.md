# Community marketplace store, modelled in Dafny

This project models the part of a small community-marketplace web app that
holds its data. Residents post listings ("posts") of goods and services. Other
residents react to a post with a toggleable "thumbs up", comment on it, and
browse the list through a search/tag/status filter. The model covers:

- **The current in-memory store** (`app/lib/data.js`), as the class
  `AppStore.Store`. It has two list fields, `posts` and `users`. Its methods
  create and delete posts, create users, toggle a reaction and append a
  comment. Its functions are the read-only queries: lookup by id, user lookup,
  the owner-or-admin permission check, the reaction membership test and the
  filter. Each post is a record value. A `Valid()` invariant says that every
  post keeps its reaction counter equal to the length of its reaction list,
  has no repeated reactor, and numbers its comments 1..n. Every mutating method
  preserves that invariant.
- **The earlier store revision** (`lib/data.js`), as the class
  `LegacyStore.Store`. It is the same kind of store without reactions,
  comments or tags. The module `Revisions` proves that on the fields both
  revisions share, the two agree:
  - the seed data is the same;
  - creating a post gives the same shared fields;
  - deleting by id removes the same posts;
  - finding by id picks the same position.
- **User normalisation** (`app/lib/userUtils.js`), as the pure functions of
  `UserUtils`. They bridge the legacy `apartment` field and the newer
  `discord_name` field.

Supporting modules:

- `Wrappers` holds `Option`.
- `ArrayOps` holds the JavaScript array built-ins the stores use (`find`,
  `indexOf`, `filter`). Each is specified by what it promises: the first match,
  or an order-preserving subsequence of exactly the passing elements.
  `FindIndex` gives the position of the object `find` returns. `toggleThumbsUp`
  and `addComment` change that object in place, and the model uses the position
  to replace the record in the `posts` list.
- `Text` holds ASCII lower-casing and substring search.
- `Records` holds the user record both stores share.

Modelling conventions:

- A JavaScript field that may be missing is an `Option`.
- The truthiness of a text field is `Present` (present and not `""`).
- `null` results are `None`.
- Clock readings (`createdAt`) are parameters.

## Model

| member | source | states |
|---|---|---|
| `UserUtils.NormalizeRecord` | app/lib/userUtils.js:12-24 | Username, password and role are copied. When only `apartment` is set, `discord_name` takes its value; when only `discord_name` is set, `apartment` takes its value. When both or neither are set, the record comes back unchanged. Afterwards `apartment` is set iff `discord_name` is set. |
| `UserUtils.NormalizeUserData` | app/lib/userUtils.js:9-25 | A missing user gives a missing result. A present user gives a record whose two display fields are both set or both unset, and which normalising leaves unchanged (a fixed point). |
| `UserUtils.NormalizeIdempotent` | app/lib/userUtils.js:9-25 | Normalising twice equals normalising once. |
| `UserUtils.GetDisplayName` | app/lib/userUtils.js:32-35 | The result is `discord_name` if set, else `apartment` if set, else `""`. It is `""` exactly for a missing user or one with neither field. |
| `UserUtils.DisplayNameSurvivesNormalization` | app/lib/userUtils.js:9-35 | Normalising a user never changes their display name. |
| `AppStore.WithDefaults` | app/lib/data.js:88-96 | The returned copy has a reaction counter (missing or 0 reads as 0), a reaction list (missing reads as empty), a comment list (missing reads as empty) and a tag (missing or empty becomes `"general"`). Every other field is unchanged, and the copy satisfies the per-post invariant exactly when the stored post does. |
| `AppStore.NewPost` | app/lib/data.js:101-111 | The new record has the given id, status `"Available"`, the given timestamp, counter 0, no reactions, no comments, and the caller's tag or `"general"`. The caller's title, type, description, price, time and poster are kept. The record satisfies the per-post invariant. |
| `AppStore.Toggle` | app/lib/data.js:168-177 | When the user is absent, the user is appended at the end. When present, the first occurrence is spliced out and the rest keep their order. Either way the multiset gains or loses exactly that user. |
| `AppStore.ToggleThumbsUpOn` | app/lib/data.js:165-177 | The reaction list becomes `Toggle` of the old list. The counter rises by 1 when the user was absent and falls by 1 when present, and both fields are present afterwards. No other field changes. |
| `AppStore.ToggleKeepsNoDuplicates` | app/lib/data.js:168-177 | A toggle never makes a reaction list contain the same user twice. |
| `AppStore.ToggleFlipsMembership` | app/lib/data.js:168-177 | On a reaction list without duplicates, the user is in the list after a toggle exactly when they were not in it before. |
| `AppStore.ToggleKeepsInStep` | app/lib/data.js:160-180 | If the counter equals the list length and the list has no duplicates, both facts still hold after a toggle. |
| `AppStore.ToggleTwiceWhenAbsent` | app/lib/data.js:168-177 | Toggling twice a user who had not reacted restores the exact list. |
| `AppStore.ToggleTwiceWhenPresent` | app/lib/data.js:168-177 | Toggling twice a user who had reacted, on a list without duplicates, moves that user from their position to the end. |
| `AppStore.ToggleTwiceRestores` | app/lib/data.js:160-180 | On a consistent post, two toggles by one user restore the counter and the multiset of reactors, and the exact list when the user was absent. |
| `AppStore.ToggleTwiceOnStore` | app/lib/data.js:160-180 | Two toggles by one user on the same id, each as `AppStore.Store.ToggleThumbsUp` describes it, reach the same post. Its counter and its multiset of reactors are restored, and every other post is unchanged. |
| `AppStore.NextComment` | app/lib/data.js:190-195 | The new comment's id is the previous comment count plus one, and it carries the given text, author and timestamp. |
| `AppStore.WithComment` | app/lib/data.js:188-197 | The comment is appended after the earlier comments, which are kept. Nothing else changes. When the new id is count + 1, ids 1..n stay sequential. |
| `AppStore.TwoCommentsNumberedOneTwo` | app/lib/data.js:188-199 | Two comments added to a post without comments get ids 1 then 2, in that order. |
| `AppStore.AvailableTags` | app/lib/data.js:78 | Five distinct tags, among them the default `"general"` and not the empty string. |
| `AppStore.AvailableStatuses` | app/lib/data.js:81 | Three distinct statuses, among them `"Available"`, the status of every new post, and not `"Completed"`. |
| `AppStore.TagOrGeneral` | app/lib/data.js:95 | `tag \|\| "general"` is never empty. A present, non-empty tag is kept; a missing or empty one becomes `"general"`, which is among `availableTags`, and a listed tag stays listed. |
| `AppStore.MatchesSearch` | app/lib/data.js:213-215 | The empty search term matches every post. A post matches a term only if the term is no longer than its title or its description. |
| `AppStore.Matches` | app/lib/data.js:212-221 | Every post that passes satisfies the search test, carries the tag when a tag is given and has the status when a status is given. With tag and status off, the test is the search test alone; with all three off, every post passes. |
| `AppStore.SeedPosts` | app/lib/data.js:4-54 | The seed has three posts with ids 1, 2, 3. Each satisfies the per-post invariant, has a status from `availableStatuses` and a tag from `availableTags`, has a price exactly when it is "For Sale", and has a time exactly when it is a "Service". |
| `AppStore.FilterWithNoCriteria` | app/lib/data.js:211-223 | With search, tag and status all `""`, the filter returns the whole list in order. |
| `AppStore.AllIsAnOrdinaryTag` | app/lib/data.js:217 | `"all"` is not a wildcard: if no post has tag `"all"`, filtering by it returns nothing. |
| `AppStore.SearchChairOnSeed` | app/lib/data.js:211-216 | On the seeded posts, searching `"chair"` returns only "Selling Chair - $10", matched case-insensitively. |
| `AppStore.IdRepeatsAfterDeletion` | app/lib/data.js:104-117 | Ids come from the list length, so they are not unique. From the seed, deleting post 1 and creating a post gives a second post with id 3. |
| `AppStore.Store.constructor` | app/lib/data.js:4-75 | The store starts with the three seeded posts and three seeded users, and satisfies `Valid()`. |
| `AppStore.Store.GetAllPosts` | app/lib/data.js:84 | The returned list equals the filter's result with every criterion off. |
| `AppStore.Store.GetPostById` | app/lib/data.js:86-99 | The result is missing exactly when no post has the id. Otherwise it is the first such post with defaults filled in. |
| `AppStore.Store.GetUser` | app/lib/data.js:120-122 | The result is missing exactly when no user has the name. Otherwise it is the first such user. |
| `AppStore.Store.CanModifyPost` | app/lib/data.js:134-140 | True iff a user with the name and a post with the id both exist, and the first such user is an admin or the first such post was posted by that name. |
| `AppStore.Store.HasUserThumbsUp` | app/lib/data.js:203-208 | True iff a post with the id exists and the first such post's reaction list contains the user. A missing list counts as not containing it. |
| `AppStore.Store.FilterPosts` | app/lib/data.js:211-223 | The result is an order-preserving subsequence of `posts`. It holds exactly the posts that pass the three tests: the search term is empty or found, ignoring case, in the title or description; the tag is empty or equal; the status is empty or equal. Each passing post occurs as often as in `posts`. |
| `AppStore.Store.CreatePost` | app/lib/data.js:101-114 | The new post goes in front, with id = old length + 1, status `"Available"` and a defaulted tag. The old posts follow unchanged, users are untouched, and `Valid()` is kept. |
| `AppStore.Store.DeletePost` | app/lib/data.js:116-118 | Every post with the id is removed and the others stay in order. When no post has the id, nothing changes. Users are untouched and `Valid()` is kept. |
| `AppStore.Store.CreateUser` | app/lib/data.js:124-131 | The input goes at the end with its role forced to `"user"`, the other fields copied. Earlier users and all posts are unchanged. |
| `AppStore.Store.ToggleThumbsUp` | app/lib/data.js:160-180 | Returns false, changing nothing, when no post has the id. Otherwise the first such post is toggled and no other post changes. Users are untouched and `Valid()` is kept. On a store satisfying `Valid()`, a successful toggle flips `HasUserThumbsUp` for that user and id. |
| `AppStore.Store.AddComment` | app/lib/data.js:183-200 | Returns `None` (the source's `false`), changing nothing, when no post has the id. Otherwise it appends the next-numbered comment to the first such post only and returns that comment. `Valid()` is kept. |
| `LegacyStore.SeedPosts` | lib/data.js:2-33 | The earlier seed has three posts with ids 1, 2, 3, all `"Available"`, each with a price exactly when "For Sale" and a time exactly when a "Service". |
| `Records.SeedUsers` | app/lib/data.js:56-75 | Three users with distinct usernames. Exactly the first is an admin, the others have role `"user"`, and each has an apartment and no Discord name. |
| `Records.AsRegularUser` | app/lib/data.js:125-128 | The stored record has role `"user"`; every other field is the input's (`{...user, role: "user"}`, also lib/data.js:79-82). |
| `LegacyStore.NewPost` | lib/data.js:59-65 | The new record has the given id, status `"Available"` and the given timestamp. These override anything the caller supplied; every other field is the caller's. |
| `LegacyStore.Store.constructor` | lib/data.js:2-54 | The store starts with the three seeded posts and the three seeded users. |
| `LegacyStore.Store.GetUser` | lib/data.js:74-76 | The result is the first user with the name, or missing exactly when there is none. |
| `LegacyStore.Store.CanModifyPost` | lib/data.js:88-94 | False when the user or the post is missing. Otherwise true iff the first such user is an admin or the first such post was posted by that name. |
| `LegacyStore.Store.CreatePost` | lib/data.js:59-68 | The new post goes in front with id = old length + 1 and status `"Available"`. The caller's other fields are copied, the old posts follow unchanged, and users are untouched. |
| `LegacyStore.Store.DeletePost` | lib/data.js:70-72 | Exactly the posts with the id are removed and the others keep their order. It is a no-op when no post has the id, and users are untouched. |
| `LegacyStore.Store.CreateUser` | lib/data.js:78-85 | Exactly one user is appended at the end, with role `"user"` whatever the input carried. Existing users and posts are unchanged. |
| `Revisions.SeedsAgree` | lib/data.js:2-33 | The current seed posts, seen through the earlier revision's fields, are the earlier seed posts. |
| `Revisions.CreateAgrees` | lib/data.js:59-68 | Creating a post in either revision gives the same shared fields. |
| `Revisions.DeleteAgrees` | lib/data.js:70-72 | Deleting by id removes the same posts in either revision. |
| `Revisions.FindAgrees` | lib/data.js:90 | Finding a post by id picks the same position in either revision. |
| `Text.Lower` | app/lib/data.js:214-215 | Lower-casing keeps the length and folds each ASCII capital to its small letter, leaving every other character alone. |
| `Text.Contains` | app/lib/data.js:214-215 | `includes` always finds the empty string, and finds a needle only if it is no longer than the haystack. |
| `Text.ContainsMeansOccurs` | app/lib/data.js:214-215 | `includes` holds exactly when the needle occurs at some position of the haystack. |
| `ArrayOps.Filter` | app/lib/data.js:212 | `filter` returns an order-preserving subsequence. It holds every element that passes the test and nothing else, each passing element exactly as often as in the input. |
| `ArrayOps.FilterConcat` | app/lib/data.js:212 | Filtering distributes over concatenation. Together with the one-element case, this determines the result completely. |
| `ArrayOps.Find` | app/lib/data.js:121 | `find` returns nothing exactly when no element passes the test; otherwise it returns the element at the first passing position. |
| `ArrayOps.FindIndex` | app/lib/data.js:161 | The position of the object `find` returns (also app/lib/data.js:184): the first position whose element passes the test, or nothing when no element passes. |
| `ArrayOps.IndexOf` | app/lib/data.js:168 | `indexOf` reports the first position holding the value, or nothing exactly when the value is absent. |

## Left out

- `saveToLocalStorage` and `loadFromLocalStorage` (app/lib/data.js:143-157, lib/data.js:97-111) are left out. They are browser storage and JSON parsing. The calls to `saveToLocalStorage` inside `toggleThumbsUp` and `addComment` are treated as no-ops. A store reloaded from storage may hold posts without reaction, comment or tag fields; such posts are modelled as the optional fields of `AppStore.Post`.
- Timestamps (`new Date().toISOString()`) are parameters of `CreatePost`, `AddComment` and the constructors, because they read the clock.
- `Number(id)` coercion is not modelled: ids are integers throughout. So the model does not show that `deletePost` and `canModifyPost` compare strictly, without coercion, and would miss a string id.
- Case folding is not modelled beyond ASCII: `Text.Lower` folds only `A`-`Z`, whereas `toLowerCase` also folds other Unicode letters.
- JavaScript truthiness is not modelled for values other than strings and numbers. The fields that may be missing are `Option`: `price`, `time` and `tag` and the counter `thumbsUp` (`Option<int>`), the lists `thumbsUpBy` and `comments` on `AppStore.Post`, and `apartment` and `discord_name` on `Records.User`. The other fields are always present: `id`, `title`, `kind` (`type`), `description`, `status`, `postedBy` and `createdAt` on a post, and `username`, `password` and `role` on a user. `NaN` and non-string field values are not represented.
- `filterPosts`'s default arguments are not modelled: the model's callers always pass all three strings.
- Object aliasing is not modelled. `toggleThumbsUp` and `addComment` mutate the found post object in place. The model replaces that record in the `posts` list instead, which gives the same store contents. However, a caller holding a reference from `getAllPosts` would see the mutation in JavaScript, and the arrays in `getPostById`'s shallow copy are shared with the stored post. Neither effect is captured.
- `getAllPosts` of the earlier revision (lib/data.js:57) has no member of its own. It returns the `posts` list itself, which is the field `LegacyStore.Store.posts`.
- Lost updates between concurrent read-modify-write callers are not modelled: the model is sequential.
- `app/lib/supabaseData.js` is not part of this model. Every function in it is a round trip through a hosted database client whose code is not available. The local logic it has (toggle, comment append, search) repeats what `app/lib/data.js` does.
- The pages, headers and status-badge components are not part of this model. They are rendering code. That includes `formatDate` in `app/page.js`, which reads the clock and uses floating-point arithmetic.
- `AppStore.Post` requires `title` and `description`; in the source, `filterPosts` throws on a post lacking either (app/lib/data.js:214-215), and `createPost` stores whatever the caller spreads without checking (app/lib/data.js:103). The model cannot express that error path.
- Fields outside `Records.User` and `AppStore.Post` are not represented. The source copies records with object spread (app/lib/userUtils.js:12, app/lib/data.js:103, app/lib/data.js:126), so any extra column a record carries, such as those of rows from a hosted database, would be passed through; the model's records have exactly the listed fields.
- Observations on the code, which the model follows:
  - `filterPosts` switches a criterion off only for `""`; `"all"` is an ordinary value (`AppStore.AllIsAnOrdinaryTag`). app/page.js:57-58 maps `'all'` to `""`, but app/page.js:88 and app/page.js:112 pass the raw selection, whose initial value is `'all'` (app/page.js:30-31). So with the default filters, the list shown after a delete or a thumbs-up is empty unless a post carries tag and status `"all"`.
  - `getAllPosts` (app/lib/data.js:84) returns insertion order, with new posts prepended (app/lib/data.js:112). It does not sort.
  - `availableStatuses` (app/lib/data.js:81) is `Available`, `Sold`, `Pending`. The badge components also style `Completed` (components/ui/status-badge.jsx:14, components/ui/status-select-item.jsx:8).
