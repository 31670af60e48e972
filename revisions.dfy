/**
 * How the current store relates to the earlier one: on the fields both
 * revisions have, creating, deleting and finding posts agree.
 */
module Revisions {
  import opened ArrayOps
  import AppStore
  import LegacyStore

  /** A current-revision post seen through the earlier revision's fields. */
  function Project(p: AppStore.Post): (r: LegacyStore.Post)
    ensures r.id == p.id && r.title == p.title && r.kind == p.kind && r.description == p.description
    ensures r.price == p.price && r.time == p.time && r.status == p.status
    ensures r.postedBy == p.postedBy && r.createdAt == p.createdAt
  {
    LegacyStore.Post(p.id, p.title, p.kind, p.description, p.price, p.time,
                     p.status, p.postedBy, p.createdAt)
  }

  /** `Project` applied to every post, in order. */
  function ProjectAll(ps: seq<AppStore.Post>): (r: seq<LegacyStore.Post>)
    ensures |r| == |ps|
    ensures forall k :: 0 <= k < |ps| ==> r[k] == Project(ps[k])
  {
    if ps == [] then [] else [Project(ps[0])] + ProjectAll(ps[1..])
  }

  /** Both revisions start from the same three posts. */
  lemma SeedsAgree(t1: string, t2: string, t3: string, c1: string)
    ensures ProjectAll(AppStore.SeedPosts(t1, t2, t3, c1)) == LegacyStore.SeedPosts(t1, t2, t3)
  {
  }

  /** Creating a post gives the same shared fields in both revisions. */
  lemma CreateAgrees(input: AppStore.Post, id: int, createdAt: string)
    ensures Project(AppStore.NewPost(input, id, createdAt)) ==
            LegacyStore.NewPost(Project(input), id, createdAt)
  {
  }

  /** Deleting by id removes the same posts in both revisions. */
  lemma {:induction false} DeleteAgrees(ps: seq<AppStore.Post>, id: int)
    ensures ProjectAll(Filter(ps, AppStore.LacksId(id))) ==
            Filter(ProjectAll(ps), LegacyStore.LacksId(id))
  {
    if ps != [] {
      DeleteAgrees(ps[1..], id);
      assert ProjectAll(ps)[1..] == ProjectAll(ps[1..]);
      if ps[0].id != id {
        assert Filter(ps, AppStore.LacksId(id)) == [ps[0]] + Filter(ps[1..], AppStore.LacksId(id));
        var rest := Filter(ps[1..], AppStore.LacksId(id));
        assert ([ps[0]] + rest)[1..] == rest;
      }
    }
  }

  /** Finding a post by id picks the same position in both revisions. */
  lemma {:induction false} FindAgrees(ps: seq<AppStore.Post>, id: int)
    ensures FindIndex(ps, AppStore.HasId(id)) == FindIndex(ProjectAll(ps), LegacyStore.HasId(id))
  {
    if ps != [] {
      FindAgrees(ps[1..], id);
      assert ProjectAll(ps)[1..] == ProjectAll(ps[1..]);
    }
  }
}
