/** The home page's selections: the feed of the current user's and followed
    users' posts newest first, the suggested users and the story users. */
module Feed {
  import opened Seqs
  import opened Store

  predicate NewestFirst(ps: seq<Post>) {
    forall i, j :: 0 <= i < j < |ps| ==> ps[i].timestamp >= ps[j].timestamp
  }

  /** Inserts `p` before the first post older than it. */
  function InsertByTime(p: Post, ps: seq<Post>): (r: seq<Post>)
    ensures multiset(r) == multiset(ps) + multiset{p}
    ensures forall x :: x in r ==> x == p || x in ps
  {
    if ps == [] || ps[0].timestamp < p.timestamp then [p] + ps
    else
      assert ps == [ps[0]] + ps[1..];
      [ps[0]] + InsertByTime(p, ps[1..])
  }

  /** Inserting into a newest-first sequence keeps it newest first. */
  lemma {:induction false} InsertKeepsNewestFirst(p: Post, ps: seq<Post>)
    requires NewestFirst(ps)
    ensures NewestFirst(InsertByTime(p, ps))
  {
    if ps != [] && ps[0].timestamp >= p.timestamp {
      var rest := InsertByTime(p, ps[1..]);
      InsertKeepsNewestFirst(p, ps[1..]);
      forall x | x in rest ensures x.timestamp <= ps[0].timestamp {
        if x != p {
          var k :| 0 <= k < |ps[1..]| && ps[1..][k] == x;
          assert ps[k + 1] == x;
        }
      }
      var r := [ps[0]] + rest;
      assert forall j :: 0 < j < |r| ==> r[j] == rest[j - 1];
    }
  }

  /** Orders posts newest first (`order_by(Post.timestamp.desc())`). Posts
      with equal timestamps keep no particular order. */
  function SortNewestFirst(ps: seq<Post>): (r: seq<Post>)
    ensures NewestFirst(r)
    ensures multiset(r) == multiset(ps)
  {
    if ps == [] then []
    else
      assert ps == [ps[0]] + ps[1..];
      InsertKeepsNewestFirst(ps[0], SortNewestFirst(ps[1..]));
      InsertByTime(ps[0], SortNewestFirst(ps[1..]))
  }

  /** The ids whose posts the feed shows: the users `me` follows, and `me`. */
  predicate InFeed(s: Store, me: int, author: int) {
    author == me || IsFollowing(s, me, author)
  }

  /** The feed: the posts of `me` and of the users they follow, newest first. */
  function HomeFeed(s: Store, me: int): (r: seq<Post>)
    ensures NewestFirst(r)
    ensures multiset(r) == multiset(Filter(s.posts, (p: Post) => InFeed(s, me, p.userId)))
  {
    SortNewestFirst(Filter(s.posts, (p: Post) => InFeed(s, me, p.userId)))
  }

  /** A post is in the feed exactly when it is stored and its author is
      `me` or someone `me` follows. */
  lemma HomeFeedMembers(s: Store, me: int, p: Post)
    ensures p in HomeFeed(s, me) <==> p in s.posts && InFeed(s, me, p.userId)
  {
    var f := Filter(s.posts, (q: Post) => InFeed(s, me, q.userId));
    assert p in HomeFeed(s, me) <==> p in multiset(HomeFeed(s, me));
    assert p in f <==> p in multiset(f);
  }

  /** Following a user brings their posts into the feed. */
  lemma FollowAddsPostsToFeed(s: Store, me: int, other: int, p: Post)
    requires p in s.posts && p.userId == other
    ensures p in HomeFeed(Follow(s, me, other), me)
  {
    HomeFeedMembers(Follow(s, me, other), me, p);
  }

  /** The post ids `me` has liked (the heart icons). */
  function LikedPosts(s: Store, me: int): (r: set<int>)
    ensures forall p :: p in r <==> Likes(s, me, p)
  {
    set l | l in s.likes && l.0 == me :: l.1
  }

  /** Up to five users outside the feed's authors, in row order. */
  function SuggestedUsers(s: Store, me: int): (r: seq<User>)
    ensures |r| <= 5
    ensures forall u :: u in r ==> u in s.users && u.id != me && !IsFollowing(s, me, u.id)
    ensures |r| < 5 ==> forall u :: u in s.users && !InFeed(s, me, u.id) ==> u in r
  {
    Take(Filter(s.users, (u: User) => !InFeed(s, me, u.id)), 5)
  }

  /** Up to six of the users `me` follows, in row order. */
  function StoryUsers(s: Store, me: int): (r: seq<User>)
    ensures |r| <= 6
    ensures forall u :: u in r ==> u in s.users && IsFollowing(s, me, u.id)
    ensures |r| < 6 ==> forall u :: u in s.users && IsFollowing(s, me, u.id) ==> u in r
  {
    Take(Filter(s.users, (u: User) => IsFollowing(s, me, u.id)), 6)
  }

  /** The user themself never appears among the suggestions, and no user is
      both suggested and a story user. */
  lemma SuggestionsAndStoriesDisjoint(s: Store, me: int, u: User)
    ensures !(u in SuggestedUsers(s, me) && u in StoryUsers(s, me))
  {
  }
}
