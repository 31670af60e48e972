/**
 * The current in-memory marketplace store (app/lib/data.js): a list of posts
 * and a list of users, with reactions ("thumbs up"), comments, tags and a
 * three-way filter. Posts are records; the store object holds the two lists
 * and every operation reads or replaces them.
 */
module AppStore {
  import opened Wrappers
  import opened ArrayOps
  import opened Text
  import opened Records

  /** `availableTags`: the tags the create form offers; `filterPosts` does not restrict itself to them. */
  function AvailableTags(): (r: seq<string>)
    ensures |r| == 5 && NoDuplicates(r)
    ensures "general" in r && "" !in r
  {
    ["goods", "services", "education", "money", "general"]
  }

  /** `availableStatuses`: the statuses the status picker offers. */
  function AvailableStatuses(): (r: seq<string>)
    ensures |r| == 3 && NoDuplicates(r)
    ensures "Available" in r && "Completed" !in r
  {
    ["Available", "Sold", "Pending"]
  }

  datatype Comment = Comment(id: int, text: string, postedBy: string, createdAt: string)

  /**
   * A listing. `kind` is the source's `type` ("For Sale" or "Service"); `price`
   * belongs to the first and `time` to the second. The reaction, comment and tag
   * fields are optional because records saved by the earlier revision lack them.
   */
  datatype Post = Post(
    id: int,
    title: string,
    kind: string,
    description: string,
    price: Option<string>,
    time: Option<string>,
    status: string,
    postedBy: string,
    createdAt: string,
    thumbsUp: Option<int>,
    thumbsUpBy: Option<seq<string>>,
    comments: Option<seq<Comment>>,
    tag: Option<string>)

  /** The users who reacted; a missing list reads as empty. */
  function Likes(p: Post): seq<string> {
    p.thumbsUpBy.GetOr([])
  }

  /** The reaction counter; a missing counter reads as 0. */
  function LikeCount(p: Post): int {
    p.thumbsUp.GetOr(0)
  }

  /** The comments; a missing list reads as empty. */
  function CommentsOf(p: Post): seq<Comment> {
    p.comments.GetOr([])
  }

  /** `tag || "general"`. */
  function TagOrGeneral(tag: Option<string>): (r: string)
    ensures r != ""
    ensures Present(tag) ==> r == tag.value
    ensures tag.None? || tag.value == "" ==> r == "general" && r in AvailableTags()
    ensures tag.Some? && tag.value in AvailableTags() ==> r in AvailableTags()
  {
    if Present(tag) then tag.value else "general"
  }

  /** The counter equals the number of reacting users, and nobody reacts twice. */
  predicate ReactionsInStep(p: Post) {
    LikeCount(p) == |Likes(p)| && NoDuplicates(Likes(p))
  }

  /** Comment ids run 1, 2, ..., n in list order. */
  predicate SequentialIds(cs: seq<Comment>) {
    forall i :: 0 <= i < |cs| ==> cs[i].id == i + 1
  }

  /** The per-post invariant every operation of the store keeps. */
  predicate WellFormed(p: Post) {
    ReactionsInStep(p) && SequentialIds(CommentsOf(p))
  }

  /** The test `p => p.id === id`. */
  function HasId(id: int): Post -> bool {
    (p: Post) => p.id == id
  }

  /** The test `post => post.id !== id`. */
  function LacksId(id: int): Post -> bool {
    (p: Post) => p.id != id
  }

  // ---------------------------------------------------------------------
  // Records built by the operations
  // ---------------------------------------------------------------------

  /** The copy `getPostById` returns: missing reaction, comment and tag fields filled in. */
  function WithDefaults(p: Post): (r: Post)
    ensures r.thumbsUp == Some(LikeCount(p)) && r.thumbsUpBy == Some(Likes(p))
    ensures r.comments == Some(CommentsOf(p)) && r.tag == Some(TagOrGeneral(p.tag))
    ensures r.(thumbsUp := p.thumbsUp, thumbsUpBy := p.thumbsUpBy, comments := p.comments, tag := p.tag) == p
    ensures WellFormed(r) <==> WellFormed(p)
  {
    p.(thumbsUp := Some(LikeCount(p)), thumbsUpBy := Some(Likes(p)),
       comments := Some(CommentsOf(p)), tag := Some(TagOrGeneral(p.tag)))
  }

  /** The record `createPost` stores: the caller's fields, then the store's own. */
  function NewPost(input: Post, id: int, createdAt: string): (r: Post)
    ensures r.id == id && r.status == "Available" && r.createdAt == createdAt
    ensures r.status in AvailableStatuses()
    ensures r.thumbsUp == Some(0) && r.thumbsUpBy == Some([]) && r.comments == Some([])
    ensures r.tag == Some(TagOrGeneral(input.tag))
    ensures r.title == input.title && r.kind == input.kind && r.description == input.description
    ensures r.price == input.price && r.time == input.time && r.postedBy == input.postedBy
    ensures WellFormed(r)
  {
    input.(id := id, status := "Available", createdAt := createdAt,
           thumbsUp := Some(0), thumbsUpBy := Some([]), comments := Some([]),
           tag := Some(TagOrGeneral(input.tag)))
  }

  /** The reaction list after one toggle by `name`: appended when absent, first occurrence spliced out when present. */
  function Toggle(likes: seq<string>, name: string): (r: seq<string>)
    ensures name !in likes ==> r == likes + [name]
    ensures name in likes ==>
              exists i :: 0 <= i < |likes| && likes[i] == name && name !in likes[..i] &&
                          r == likes[..i] + likes[i + 1..]
    ensures name in likes ==> multiset(r) == multiset(likes) - multiset{name}
  {
    match IndexOf(likes, name)
    case None => likes + [name]
    case Some(i) =>
      assert likes == likes[..i] + [likes[i]] + likes[i + 1..];
      likes[..i] + likes[i + 1..]
  }

  /** The post after `toggleThumbsUp` by `name`: list and counter move together. */
  function ToggleThumbsUpOn(p: Post, name: string): (r: Post)
    ensures Likes(r) == Toggle(Likes(p), name)
    ensures name !in Likes(p) ==> LikeCount(r) == LikeCount(p) + 1
    ensures name in Likes(p) ==> LikeCount(r) == LikeCount(p) - 1
    ensures r.thumbsUp.Some? && r.thumbsUpBy.Some?
    ensures r.(thumbsUp := p.thumbsUp, thumbsUpBy := p.thumbsUpBy) == p
  {
    var likes := Likes(p);
    p.(thumbsUpBy := Some(Toggle(likes, name)),
       thumbsUp := Some(if name in likes then LikeCount(p) - 1 else LikeCount(p) + 1))
  }

  /** The comment `addComment` appends: the next id in the post's sequence. */
  function NextComment(p: Post, text: string, author: string, createdAt: string): (c: Comment)
    ensures c.id == |CommentsOf(p)| + 1
    ensures c.text == text && c.postedBy == author && c.createdAt == createdAt
  {
    Comment(|CommentsOf(p)| + 1, text, author, createdAt)
  }

  /** The post with `c` pushed onto its comments; everything else is kept. */
  function WithComment(p: Post, c: Comment): (r: Post)
    ensures CommentsOf(r) == CommentsOf(p) + [c]
    ensures r.(comments := p.comments) == p
    ensures WellFormed(p) && c.id == |CommentsOf(p)| + 1 ==> WellFormed(r)
  {
    p.(comments := Some(CommentsOf(p) + [c]))
  }

  /** The search test: empty, or found case-insensitively in the title or the description. */
  predicate MatchesSearch(p: Post, term: string)
    ensures term == "" ==> MatchesSearch(p, term)
    ensures MatchesSearch(p, term) ==> |term| <= |p.title| || |term| <= |p.description|
  {
    term == "" || ContainsIgnoringCase(p.title, term) || ContainsIgnoringCase(p.description, term)
  }

  /** The test `filterPosts` applies; "" switches a criterion off, nothing else does. */
  function Matches(term: string, tag: string, status: string): (r: Post -> bool)
    ensures forall p :: r(p) ==> MatchesSearch(p, term)
    ensures tag != "" ==> forall p :: r(p) ==> p.tag == Some(tag)
    ensures status != "" ==> forall p :: r(p) ==> p.status == status
    ensures tag == "" && status == "" ==> forall p :: r(p) == MatchesSearch(p, term)
    ensures term == "" && tag == "" && status == "" ==> forall p :: r(p)
  {
    (p: Post) => MatchesSearch(p, term) && (tag == "" || p.tag == Some(tag)) &&
                 (status == "" || p.status == status)
  }

  // ---------------------------------------------------------------------
  // Properties of reactions and comments
  // ---------------------------------------------------------------------

  /** A toggle never makes a user appear twice. */
  lemma ToggleKeepsNoDuplicates(likes: seq<string>, name: string)
    requires NoDuplicates(likes)
    ensures NoDuplicates(Toggle(likes, name))
  {
    var r := Toggle(likes, name);
    if name in likes {
      var i := IndexOf(likes, name).value;
      assert r == likes[..i] + likes[i + 1..];
      forall a, b | 0 <= a < b < |r|
        ensures r[a] != r[b]
      {
        var a' := if a < i then a else a + 1;
        var b' := if b < i then b else b + 1;
        assert r[a] == likes[a'] && r[b] == likes[b'] && a' < b';
      }
    }
  }

  /** A toggle keeps the counter equal to the list length and the list free of duplicates. */
  lemma ToggleKeepsInStep(p: Post, name: string)
    requires ReactionsInStep(p)
    ensures ReactionsInStep(ToggleThumbsUpOn(p, name))
  {
    ToggleKeepsNoDuplicates(Likes(p), name);
  }

  /** Two toggles by a user who had not reacted give back the exact list. */
  lemma ToggleTwiceWhenAbsent(likes: seq<string>, name: string)
    requires name !in likes
    ensures Toggle(Toggle(likes, name), name) == likes
  {
    var once := likes + [name];
    var i := IndexOf(once, name).value;
    assert forall k :: 0 <= k < |likes| ==> once[k] == likes[k];
    assert once[..i] == likes;
  }

  /** Two toggles by a user who had reacted move that user to the end of the list. */
  lemma ToggleTwiceWhenPresent(likes: seq<string>, name: string)
    requires name in likes && NoDuplicates(likes)
    ensures exists i :: 0 <= i < |likes| && likes[i] == name &&
                        Toggle(Toggle(likes, name), name) == likes[..i] + likes[i + 1..] + [name]
  {
    var i := IndexOf(likes, name).value;
    var once := likes[..i] + likes[i + 1..];
    assert Toggle(likes, name) == once;
    forall k | 0 <= k < |once|
      ensures once[k] != name
    {
      var k' := if k < i then k else k + 1;
      assert once[k] == likes[k'] && k' != i;
    }
    assert Toggle(once, name) == once + [name];
  }

  /** Toggling the same user twice restores the counter and who has reacted. */
  lemma ToggleTwiceRestores(p: Post, name: string)
    requires ReactionsInStep(p)
    ensures var twice := ToggleThumbsUpOn(ToggleThumbsUpOn(p, name), name);
            LikeCount(twice) == LikeCount(p) &&
            multiset(Likes(twice)) == multiset(Likes(p)) &&
            (name !in Likes(p) ==> Likes(twice) == Likes(p))
  {
    var once := ToggleThumbsUpOn(p, name);
    var likes := Likes(p);
    if name in likes {
      ToggleKeepsNoDuplicates(likes, name);
      assert name !in Likes(once) by {
        assert multiset(Likes(once)) == multiset(likes) - multiset{name};
        assert multiset(likes)[name] == 1 by {
          NoDuplicatesCountsOnce(likes, name);
        }
      }
    } else {
      ToggleTwiceWhenAbsent(likes, name);
    }
  }

  /**
   * Two `toggleThumbsUp` calls by one user on the same id, each described as
   * `Store.ToggleThumbsUp` describes it, hit the same post and restore its
   * counter and reactors; every other post is untouched.
   */
  lemma ToggleTwiceOnStore(posts: seq<Post>, id: int, name: string, j: int, k: int)
    requires IsFirst(posts, j, HasId(id)) && ReactionsInStep(posts[j])
    requires IsFirst(posts[j := ToggleThumbsUpOn(posts[j], name)], k, HasId(id))
    ensures var mid := posts[j := ToggleThumbsUpOn(posts[j], name)];
            var twice := mid[k := ToggleThumbsUpOn(mid[k], name)];
            |twice| == |posts| &&
            LikeCount(twice[j]) == LikeCount(posts[j]) &&
            multiset(Likes(twice[j])) == multiset(Likes(posts[j])) &&
            forall m :: 0 <= m < |posts| && m != j ==> twice[m] == posts[m]
  {
    var mid := posts[j := ToggleThumbsUpOn(posts[j], name)];
    assert IsFirst(mid, j, HasId(id));
    FirstIsUnique(mid, j, k, HasId(id));
    ToggleTwiceRestores(posts[j], name);
  }

  /** On a list without duplicates, a toggle flips whether the user has reacted. */
  lemma ToggleFlipsMembership(likes: seq<string>, name: string)
    requires NoDuplicates(likes)
    ensures name in Toggle(likes, name) <==> name !in likes
  {
    if name in likes {
      NoDuplicatesCountsOnce(likes, name);
      assert multiset(Toggle(likes, name))[name] == 0;
    }
  }

  /** In a list without duplicates an element that occurs, occurs once. */
  lemma {:induction false} NoDuplicatesCountsOnce(s: seq<string>, x: string)
    requires NoDuplicates(s) && x in s
    ensures multiset(s)[x] == 1
  {
    assert s == [s[0]] + s[1..];
    if s[0] == x {
      assert x !in s[1..];
    } else {
      NoDuplicatesCountsOnce(s[1..], x);
    }
  }

  /** Two comments on a post without comments get ids 1 and 2, in that order. */
  lemma TwoCommentsNumberedOneTwo(p: Post, t1: string, a1: string, c1: string, t2: string, a2: string, c2: string)
    requires CommentsOf(p) == []
    ensures var first := NextComment(p, t1, a1, c1);
            var p1 := WithComment(p, first);
            var second := NextComment(p1, t2, a2, c2);
            first.id == 1 && second.id == 2 &&
            CommentsOf(WithComment(p1, second)) == [first, second]
  {
  }

  // ---------------------------------------------------------------------
  // Properties of creation, deletion and filtering
  // ---------------------------------------------------------------------

  /** With every criterion off, the filter returns the whole list in order. */
  lemma FilterWithNoCriteria(posts: seq<Post>)
    ensures Filter(posts, Matches("", "", "")) == posts
  {
    FilterKeepsAll(posts, Matches("", "", ""));
  }

  /** "all" is an ordinary tag value: if no post carries it, filtering by it keeps nothing. */
  lemma AllIsAnOrdinaryTag(posts: seq<Post>, term: string, status: string)
    requires forall k :: 0 <= k < |posts| ==> posts[k].tag != Some("all")
    ensures Filter(posts, Matches(term, "all", status)) == []
  {
    FilterKeepsNone(posts, Matches(term, "all", status));
  }

  /**
   * Ids are derived from the list length, so after a deletion a new post can
   * repeat an id still in use: from the three seeded posts, deleting post 1
   * and creating one gives a second post with id 3.
   */
  lemma IdRepeatsAfterDeletion(t1: string, t2: string, t3: string, c1: string, input: Post, at: string)
    ensures var after := Filter(SeedPosts(t1, t2, t3, c1), LacksId(1));
            var created := NewPost(input, |after| + 1, at);
            |after| == 2 && after[1].id == 3 && created.id == 3
  {
    var seed := SeedPosts(t1, t2, t3, c1);
    assert seed == [seed[0], seed[1], seed[2]];
    FilterDropsFirstOfThree(seed[0], seed[1], seed[2], LacksId(1));
  }

  /** "chair" is found, ignoring case, in the first seeded title. */
  lemma ChairInFirstTitle(s: string)
    requires s == "Selling Chair - $10"
    ensures ContainsIgnoringCase(s, "chair")
  {
    var l := Lower(s);
    assert s[8] == 'C' && s[9] == 'h' && s[10] == 'a' && s[11] == 'i' && s[12] == 'r';
    assert l[8..13] == "chair";
    var n := Lower("chair");
    assert n[0] == 'c' && n[1] == 'h' && n[2] == 'a' && n[3] == 'i' && n[4] == 'r';
    assert n == "chair";
    assert OccursAt(l, n, 8);
    ContainsMeansOccurs(l, n);
  }

  /** The other seeded titles and descriptions have no letter h in either case. */
  lemma NoLetterH(s: string)
    requires s == "Ride to city - 6 PM" || s == "Going downtown, can take 2 people" ||
             s == "Old Lamp - $5" || s == "Working desk lamp"
    ensures 'h' !in s && 'H' !in s
  {
  }

  /** A post with no h in its title or description does not match the search "chair". */
  lemma NoChairWithoutH(p: Post)
    requires 'h' !in p.title && 'H' !in p.title && 'h' !in p.description && 'H' !in p.description
    ensures !Matches("chair", "", "")(p)
  {
    var n := Lower("chair");
    assert n[1] == 'h';
    LowerLacksLetter(p.title, 'h');
    LowerLacksLetter(p.description, 'h');
    MissingCharacterRulesOut(Lower(p.title), n, 'h');
    MissingCharacterRulesOut(Lower(p.description), n, 'h');
  }

  /** Searching the seeded posts for "chair" finds only "Selling Chair - $10". */
  lemma SearchChairOnSeed(posts: seq<Post>, t1: string, t2: string, t3: string, c1: string)
    requires posts == SeedPosts(t1, t2, t3, c1)
    ensures Filter(posts, Matches("chair", "", "")) == [posts[0]]
  {
    ChairInFirstTitle(posts[0].title);
    NoLetterH(posts[1].title);
    NoLetterH(posts[1].description);
    NoLetterH(posts[2].title);
    NoLetterH(posts[2].description);
    NoChairWithoutH(posts[1]);
    NoChairWithoutH(posts[2]);
    assert posts == [posts[0], posts[1], posts[2]];
    FilterFirstOfThree(posts[0], posts[1], posts[2], Matches("chair", "", ""));
  }

  /** The posts the store starts with; clock readings are parameters. */
  function SeedPosts(t1: string, t2: string, t3: string, c1: string): (r: seq<Post>)
    ensures |r| == 3 && forall k :: 0 <= k < |r| ==> r[k].id == k + 1
    ensures forall k :: 0 <= k < |r| ==> WellFormed(r[k])
    ensures forall k :: 0 <= k < |r| ==> r[k].status in AvailableStatuses()
    ensures forall k :: 0 <= k < |r| ==> Present(r[k].tag) && r[k].tag.value in AvailableTags()
    ensures forall k :: 0 <= k < |r| ==> (r[k].price.Some? <==> r[k].kind == "For Sale")
    ensures forall k :: 0 <= k < |r| ==> (r[k].time.Some? <==> r[k].kind == "Service")
  {
    var r := [ Post(1, "Selling Chair - $10", "For Sale", "Comfortable wooden chair, barely used",
           Some("10"), None, "Available", "maria4b", t1,
           Some(3), Some(["admin", "john12a", "user123"]),
           Some([Comment(1, "Is this still available?", "john12a", c1)]), Some("goods")),
      Post(2, "Ride to city - 6 PM", "Service", "Going downtown, can take 2 people",
           None, Some("6 PM"), "Available", "john12a", t2,
           Some(1), Some(["maria4b"]), Some([]), Some("services")),
      Post(3, "Old Lamp - $5", "For Sale", "Working desk lamp",
           Some("5"), None, "Available", "admin", t3,
           Some(0), Some([]), Some([]), Some("goods")) ];
    assert WellFormed(r[0]) by {
      var likes := Likes(r[0]);
      assert likes == ["admin", "john12a", "user123"];
      assert likes[0] != likes[1] && likes[0] != likes[2] && likes[1] != likes[2];
    }
    r
  }

  // ---------------------------------------------------------------------
  // The store
  // ---------------------------------------------------------------------

  class Store {
    var posts: seq<Post>
    var users: seq<User>

    /** Every post keeps its reactions in step and its comment ids sequential. */
    ghost predicate Valid()
      reads this
    {
      forall k :: 0 <= k < |posts| ==> WellFormed(posts[k])
    }

    /** The module-level lists as the program starts with them. */
    constructor (t1: string, t2: string, t3: string, c1: string)
      ensures posts == SeedPosts(t1, t2, t3, c1) && users == SeedUsers()
      ensures Valid()
    {
      posts := SeedPosts(t1, t2, t3, c1);
      users := SeedUsers();
    }

    /** `getAllPosts`: the live list, which is what the filter returns with every criterion off. */
    function GetAllPosts(): (r: seq<Post>)
      reads this
      ensures r == FilterPosts("", "", "")
    {
      FilterWithNoCriteria(posts);
      posts
    }

    /** `getPostById`: the first post with the id, with defaults filled in, or nothing. */
    function GetPostById(id: int): (r: Option<Post>)
      reads this
      ensures r.None? <==> forall k :: 0 <= k < |posts| ==> posts[k].id != id
      ensures r.Some? ==> exists j :: IsFirst(posts, j, HasId(id)) && r.value == WithDefaults(posts[j])
      ensures r.Some? ==> r.value.id == id && r.value.thumbsUpBy.Some? && r.value.comments.Some? && Present(r.value.tag)
    {
      match Find(posts, HasId(id))
      case None => None
      case Some(p) => Some(WithDefaults(p))
    }

    /** `getUser`: the first user with the name, or nothing. */
    function GetUser(name: string): (r: Option<User>)
      reads this
      ensures r.None? <==> forall k :: 0 <= k < |users| ==> users[k].username != name
      ensures r.Some? ==> exists i :: IsFirst(users, i, NamedUser(name)) && r.value == users[i]
    {
      Find(users, NamedUser(name))
    }

    /** `canModifyPost`: the user and the post exist, and the user is an admin or the poster. */
    function CanModifyPost(name: string, postId: int): (r: bool)
      reads this
      ensures r <==> exists i, j :: IsFirst(users, i, NamedUser(name)) && IsFirst(posts, j, HasId(postId)) &&
                                    (users[i].role == "admin" || posts[j].postedBy == name)
    {
      var user := GetUser(name);
      var post := Find(posts, HasId(postId));
      if user.None? || post.None? then false
      else user.value.role == "admin" || post.value.postedBy == name
    }

    /** `hasUserThumbsUp`: the first post with the id has the user in its reaction list. */
    function HasUserThumbsUp(postId: int, name: string): (r: bool)
      reads this
      ensures r <==> exists j :: IsFirst(posts, j, HasId(postId)) && name in Likes(posts[j])
    {
      match Find(posts, HasId(postId))
      case None => false
      case Some(p) => p.thumbsUpBy.Some? && name in p.thumbsUpBy.value
    }

    /** `filterPosts`: exactly the posts passing all three tests, in list order. */
    function FilterPosts(term: string, tag: string, status: string): (r: seq<Post>)
      reads this
      ensures IsSubsequence(r, posts)
      ensures forall p :: p in r <==>
                p in posts && MatchesSearch(p, term) && (tag == "" || p.tag == Some(tag)) &&
                (status == "" || p.status == status)
      ensures forall p :: p in posts ==>
                multiset(r)[p] == if Matches(term, tag, status)(p) then multiset(posts)[p] else 0
    {
      Filter(posts, Matches(term, tag, status))
    }

    /** `createPost`: the new record goes in front, with the next id by list length. */
    method CreatePost(input: Post, createdAt: string) returns (p: Post)
      modifies this
      ensures p == NewPost(input, |old(posts)| + 1, createdAt)
      ensures p.id == |old(posts)| + 1 && p.status == "Available" && p.tag == Some(TagOrGeneral(input.tag))
      ensures posts == [p] + old(posts) && users == old(users)
      ensures old(Valid()) ==> Valid()
    {
      p := NewPost(input, |posts| + 1, createdAt);
      posts := [p] + posts;
    }

    /** `deletePost`: every post with the id goes, the others stay in order. */
    method DeletePost(id: int)
      modifies this
      ensures posts == Filter(old(posts), LacksId(id)) && users == old(users)
      ensures IsSubsequence(posts, old(posts))
      ensures forall p :: p in posts <==> p in old(posts) && p.id != id
      ensures (forall k :: 0 <= k < |old(posts)| ==> old(posts)[k].id != id) ==> posts == old(posts)
      ensures old(Valid()) ==> Valid()
    {
      ghost var before := posts;
      posts := Filter(posts, LacksId(id));
      if forall k :: 0 <= k < |before| ==> before[k].id != id {
        FilterKeepsAll(before, LacksId(id));
      }
    }

    /** `createUser`: the record goes at the end with its role forced to "user". */
    method CreateUser(u: User) returns (r: User)
      modifies this
      ensures r.role == "user" && r.(role := u.role) == u
      ensures users == old(users) + [r] && posts == old(posts)
      ensures old(Valid()) ==> Valid()
    {
      r := AsRegularUser(u);
      users := users + [r];
    }

    /** `toggleThumbsUp`: toggles the user on the first post with the id; false when there is none. */
    method ToggleThumbsUp(postId: int, name: string) returns (ok: bool)
      modifies this
      ensures users == old(users)
      ensures ok <==> exists j :: IsFirst(old(posts), j, HasId(postId))
      ensures !ok ==> posts == old(posts)
      ensures ok ==> exists j :: IsFirst(old(posts), j, HasId(postId)) &&
                                 posts == old(posts)[j := ToggleThumbsUpOn(old(posts)[j], name)]
      ensures old(Valid()) ==> Valid()
      ensures ok && old(Valid()) ==> HasUserThumbsUp(postId, name) == !old(HasUserThumbsUp(postId, name))
    {
      match FindIndex(posts, HasId(postId))
      case None =>
        ok := false;
      case Some(j) =>
        ghost var before := posts;
        ghost var had := HasUserThumbsUp(postId, name);
        if ReactionsInStep(posts[j]) {
          ToggleKeepsInStep(posts[j], name);
          ToggleFlipsMembership(Likes(posts[j]), name);
        }
        forall j' | IsFirst(before, j', HasId(postId))
          ensures j' == j
        {
          FirstIsUnique(before, j', j, HasId(postId));
        }
        posts := posts[j := ToggleThumbsUpOn(posts[j], name)];
        ok := true;
        assert IsFirst(before, j, HasId(postId));
        assert IsFirst(posts, j, HasId(postId));
        forall j' | IsFirst(posts, j', HasId(postId))
          ensures j' == j
        {
          FirstIsUnique(posts, j', j, HasId(postId));
        }
        assert had == (name in Likes(before[j]));
    }

    /** `addComment`: appends the next-numbered comment to the first post with the id; nothing when there is none. */
    method AddComment(postId: int, text: string, author: string, createdAt: string) returns (r: Option<Comment>)
      modifies this
      ensures users == old(users)
      ensures r.None? <==> forall k :: 0 <= k < |old(posts)| ==> old(posts)[k].id != postId
      ensures r.None? ==> posts == old(posts)
      ensures r.Some? ==> exists j :: IsFirst(old(posts), j, HasId(postId)) &&
                                      r.value == NextComment(old(posts)[j], text, author, createdAt) &&
                                      posts == old(posts)[j := WithComment(old(posts)[j], r.value)]
      ensures r.Some? ==> r.value.text == text && r.value.postedBy == author
      ensures old(Valid()) ==> Valid()
    {
      match FindIndex(posts, HasId(postId))
      case None =>
        r := None;
      case Some(j) =>
        ghost var before := posts;
        var c := NextComment(posts[j], text, author, createdAt);
        posts := posts[j := WithComment(posts[j], c)];
        r := Some(c);
        assert IsFirst(before, j, HasId(postId));
    }
  }
}
