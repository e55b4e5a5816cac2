/** The follow graph of `User` (app/models.py): the `follows` table as a set
    of directed edges `(follower_id, followed_id)` — the composite primary
    key makes it a set — with `follow`, `unfollow`, `is_following`,
    `is_followed_by` and the `followed_posts` feed. Edge timestamps are left
    out. */
module Follows {
  import opened Base
  import opened Users
  import opened Posts

  type Edge = (int, int)

  type Graph = set<Edge>

  /** `u.is_following(t)`: u's outgoing edges include one to t. */
  predicate IsFollowing(g: Graph, u: User, t: User): (r: bool)
    ensures r <==> exists e :: e in g && e.0 == u.id && e.1 == t.id
  {
    (u.id, t.id) in g
  }

  /** `u.is_followed_by(t)`: u's incoming edges include one from t, which
      is to say t follows u. */
  predicate IsFollowedBy(g: Graph, u: User, t: User): (r: bool)
    ensures r <==> IsFollowing(g, t, u)
  {
    exists e :: e in g && e.1 == u.id && e.0 == t.id
  }

  /** `u.follow(t)`: add the edge only when it is missing. Following
      oneself is not refused. */
  function Follow(g: Graph, u: User, t: User): (g': Graph)
    ensures IsFollowing(g', u, t)
    ensures forall e :: e != (u.id, t.id) ==> (e in g' <==> e in g)
    ensures IsFollowing(g, u, t) ==> g' == g
    ensures |g'| == if IsFollowing(g, u, t) then |g| else |g| + 1
  {
    if !IsFollowing(g, u, t) then g + {(u.id, t.id)} else g
  }

  /** `u.unfollow(t)`: delete the edge when there is one; otherwise
      nothing happens. */
  function Unfollow(g: Graph, u: User, t: User): (g': Graph)
    ensures !IsFollowing(g', u, t)
    ensures forall e :: e != (u.id, t.id) ==> (e in g' <==> e in g)
    ensures !IsFollowing(g, u, t) ==> g' == g
    ensures |g'| == if IsFollowing(g, u, t) then |g| - 1 else |g|
  {
    if IsFollowing(g, u, t) then g - {(u.id, t.id)} else g
  }

  /** `is_followed_by` is the converse of `is_following`. */
  lemma FollowedByIsConverse(g: Graph, u: User, t: User)
    ensures IsFollowedBy(g, u, t) <==> IsFollowing(g, t, u)
  {
  }

  /** Following twice leaves the graph as following once. */
  lemma FollowIdempotent(g: Graph, u: User, t: User)
    ensures Follow(Follow(g, u, t), u, t) == Follow(g, u, t)
  {
  }

  /** Unfollow undoes a fresh follow, and follow undoes an unfollow of an
      existing edge. */
  lemma FollowUnfollowInverse(g: Graph, u: User, t: User)
    ensures !IsFollowing(g, u, t) ==> Unfollow(Follow(g, u, t), u, t) == g
    ensures IsFollowing(g, u, t) ==> Follow(Unfollow(g, u, t), u, t) == g
  {
  }

  /** `p` is written by someone `u` follows: the join of `posts.author_id`
      with `follows.followed_id`, filtered on `follows.follower_id`. A post
      without an author never joins. */
  predicate InFeed(g: Graph, u: User, p: Post) {
    p.authorId.Some? && (u.id, p.authorId.value) in g
  }

  /** `u.followed_posts` over the `posts` table: every post whose author u
      follows, as often as it occurs and in the table's order. */
  function FollowedPosts(g: Graph, u: User, posts: seq<Post>): (r: seq<Post>)
    ensures |r| <= |posts|
    ensures forall p :: p in r <==> p in posts && InFeed(g, u, p)
    ensures forall p :: multiset(r)[p] == if InFeed(g, u, p) then multiset(posts)[p] else 0
  {
    if |posts| == 0 then []
    else
      assert posts == [posts[0]] + posts[1..];
      var rest := FollowedPosts(g, u, posts[1..]);
      if InFeed(g, u, posts[0]) then [posts[0]] + rest else rest
  }

  /** After `u.follow(t)`, every post t wrote is in u's feed. */
  lemma FollowShowsPosts(g: Graph, u: User, t: User, posts: seq<Post>)
    ensures forall p :: p in posts && p.authorId == Some(t.id) ==> p in FollowedPosts(Follow(g, u, t), u, posts)
  {
  }

  /** After `u.unfollow(t)`, no post by t is in u's feed, and the feed
      otherwise keeps every post it had. */
  lemma UnfollowHidesPosts(g: Graph, u: User, t: User, posts: seq<Post>)
    ensures forall p :: p in FollowedPosts(Unfollow(g, u, t), u, posts) ==> p.authorId != Some(t.id)
    ensures forall p :: p in FollowedPosts(g, u, posts) && p.authorId != Some(t.id)
              ==> p in FollowedPosts(Unfollow(g, u, t), u, posts)
  {
  }

  /** A self-follow puts a user's own posts in their feed. */
  lemma SelfFollowShowsOwnPosts(g: Graph, u: User, posts: seq<Post>)
    ensures forall p :: p in posts && p.authorId == Some(u.id) ==> p in FollowedPosts(Follow(g, u, u), u, posts)
  {
  }

  /** The feed depends only on u's own outgoing edges: another user's
      follow or unfollow does not change it. */
  lemma FeedIgnoresOthers(g: Graph, u: User, v: User, t: User, posts: seq<Post>)
    requires v.id != u.id
    ensures FollowedPosts(Follow(g, v, t), u, posts) == FollowedPosts(g, u, posts)
    ensures FollowedPosts(Unfollow(g, v, t), u, posts) == FollowedPosts(g, u, posts)
  {
    FeedSameEdges(g, Follow(g, v, t), u, posts);
    FeedSameEdges(g, Unfollow(g, v, t), u, posts);
  }

  /** Two graphs that agree on u's outgoing edges give u the same feed. */
  lemma {:induction false} FeedSameEdges(g: Graph, h: Graph, u: User, posts: seq<Post>)
    requires forall x :: (u.id, x) in g <==> (u.id, x) in h
    ensures FollowedPosts(g, u, posts) == FollowedPosts(h, u, posts)
  {
    if |posts| > 0 {
      FeedSameEdges(g, h, u, posts[1..]);
      if posts[0].authorId.Some? {
        assert InFeed(g, u, posts[0]) == InFeed(h, u, posts[0]);
      }
    }
  }
}
