/**
 * The earlier in-memory store (lib/data.js): the same two lists, with posts
 * that carry no reactions, comments or tags, and only create, delete and the
 * user lookups.
 */
module LegacyStore {
  import opened Wrappers
  import opened ArrayOps
  import opened Records

  /** A listing of the earlier revision; `kind` is the source's `type`. */
  datatype Post = Post(
    id: int,
    title: string,
    kind: string,
    description: string,
    price: Option<string>,
    time: Option<string>,
    status: string,
    postedBy: string,
    createdAt: string)

  /** The test `p => p.id === id`. */
  function HasId(id: int): Post -> bool {
    (p: Post) => p.id == id
  }

  /** The test `post => post.id !== id`. */
  function LacksId(id: int): Post -> bool {
    (p: Post) => p.id != id
  }

  /** `{ ...post, id, status: "Available", createdAt }`: the caller's fields, with the store's three on top. */
  function NewPost(input: Post, id: int, createdAt: string): (r: Post)
    ensures r.id == id && r.status == "Available" && r.createdAt == createdAt
    ensures r.(id := input.id, status := input.status, createdAt := input.createdAt) == input
  {
    input.(id := id, status := "Available", createdAt := createdAt)
  }

  /** The posts the store starts with; clock readings are parameters. */
  function SeedPosts(t1: string, t2: string, t3: string): (r: seq<Post>)
    ensures |r| == 3 && forall k :: 0 <= k < |r| ==> r[k].id == k + 1
    ensures forall k :: 0 <= k < |r| ==> r[k].status == "Available"
    ensures forall k :: 0 <= k < |r| ==> (r[k].price.Some? <==> r[k].kind == "For Sale")
    ensures forall k :: 0 <= k < |r| ==> (r[k].time.Some? <==> r[k].kind == "Service")
  {
    [ Post(1, "Selling Chair - $10", "For Sale", "Comfortable wooden chair, barely used",
           Some("10"), None, "Available", "maria4b", t1),
      Post(2, "Ride to city - 6 PM", "Service", "Going downtown, can take 2 people",
           None, Some("6 PM"), "Available", "john12a", t2),
      Post(3, "Old Lamp - $5", "For Sale", "Working desk lamp",
           Some("5"), None, "Available", "admin", t3) ]
  }

  class Store {
    var posts: seq<Post>
    var users: seq<User>

    /** The module-level lists as the program starts with them. */
    constructor (t1: string, t2: string, t3: string)
      ensures posts == SeedPosts(t1, t2, t3) && users == SeedUsers()
    {
      posts := SeedPosts(t1, t2, t3);
      users := SeedUsers();
    }

    /** `getUser`: the first user with the name, or nothing. */
    function GetUser(name: string): (r: Option<User>)
      reads this
      ensures r.None? <==> forall k :: 0 <= k < |users| ==> users[k].username != name
      ensures r.Some? ==> exists i :: IsFirst(users, i, NamedUser(name)) && r.value == users[i]
    {
      Find(users, NamedUser(name))
    }

    /** `canModifyPost`: false when the user or the post is missing; else admin or poster. */
    function CanModifyPost(name: string, postId: int): (r: bool)
      reads this
      ensures (forall k :: 0 <= k < |users| ==> users[k].username != name) ==> !r
      ensures (forall k :: 0 <= k < |posts| ==> posts[k].id != postId) ==> !r
      ensures r <==> exists i, j :: IsFirst(users, i, NamedUser(name)) && IsFirst(posts, j, HasId(postId)) &&
                                    (users[i].role == "admin" || posts[j].postedBy == name)
    {
      var user := GetUser(name);
      var post := Find(posts, HasId(postId));
      if user.None? || post.None? then false
      else user.value.role == "admin" || post.value.postedBy == name
    }

    /** `createPost`: the new record goes in front with the next id by list length. */
    method CreatePost(input: Post, createdAt: string) returns (p: Post)
      modifies this
      ensures p.id == |old(posts)| + 1 && p.status == "Available" && p.createdAt == createdAt
      ensures p.(id := input.id, status := input.status, createdAt := input.createdAt) == input
      ensures posts == [p] + old(posts) && users == old(users)
    {
      p := NewPost(input, |posts| + 1, createdAt);
      posts := [p] + posts;
    }

    /** `deletePost`: exactly the posts with the id go, the others stay in order. */
    method DeletePost(id: int)
      modifies this
      ensures posts == Filter(old(posts), LacksId(id)) && users == old(users)
      ensures IsSubsequence(posts, old(posts))
      ensures forall p :: p in posts <==> p in old(posts) && p.id != id
      ensures (forall k :: 0 <= k < |old(posts)| ==> old(posts)[k].id != id) ==> posts == old(posts)
    {
      ghost var before := posts;
      posts := Filter(posts, LacksId(id));
      if forall k :: 0 <= k < |before| ==> before[k].id != id {
        FilterKeepsAll(before, LacksId(id));
      }
    }

    /** `createUser`: the record goes at the end with its role forced to "user". */
    method CreateUser(u: User) returns (r: User)
      modifies this
      ensures r.role == "user" && r.(role := u.role) == u
      ensures users == old(users) + [r] && posts == old(posts)
    {
      r := AsRegularUser(u);
      users := users + [r];
    }
  }
}
