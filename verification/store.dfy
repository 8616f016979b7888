/** The application's data: users, posts, comments, likes and the follower
    relation, with the operations of the model classes and the cascades the
    relationships declare. */
module Store {
  import opened Wrappers
  import opened Seqs
  import opened Json

  /** A salted one-way password hash. The salt is opaque; `secret` is the
      password it was made from, which only `CheckPassword` consults. */
  datatype PasswordHash = PasswordHash(salt: int, secret: string)

  datatype User = User(id: int, username: string, passwordHash: PasswordHash)

  /** A post; `timestamp` orders posts by creation time. */
  datatype Post = Post(id: int, caption: string, timestamp: int, userId: int)

  datatype Comment = Comment(id: int, text: string, timestamp: int, userId: int, postId: int)

  /** The tables. Users, posts and comments keep row order; a like is a
      `(user, post)` pair and a follow edge a `(follower, followed)` pair,
      each stored at most once (the unique constraint on likes, the
      composite primary key of the follower table). */
  datatype Store = Store(
    users: seq<User>,
    posts: seq<Post>,
    comments: seq<Comment>,
    likes: set<(int, int)>,
    follows: set<(int, int)>)

  const Empty: Store := Store([], [], [], {}, {})

  function UserIds(users: seq<User>): set<int> { set u | u in users :: u.id }
  function PostIds(posts: seq<Post>): set<int> { set p | p in posts :: p.id }
  function CommentIds(comments: seq<Comment>): set<int> { set c | c in comments :: c.id }

  /** The primary key and the unique username of users. */
  predicate UniqueUsers(users: seq<User>) {
    forall i, j :: 0 <= i < j < |users| ==>
      users[i].id != users[j].id && users[i].username != users[j].username
  }

  predicate UniquePosts(posts: seq<Post>) {
    forall i, j :: 0 <= i < j < |posts| ==> posts[i].id != posts[j].id
  }

  predicate UniqueComments(comments: seq<Comment>) {
    forall i, j :: 0 <= i < j < |comments| ==> comments[i].id != comments[j].id
  }

  /** Foreign keys: every reference names an existing row. */
  predicate PostRefs(posts: seq<Post>, users: seq<User>) {
    forall p :: p in posts ==> p.userId in UserIds(users)
  }

  predicate CommentRefs(comments: seq<Comment>, users: seq<User>, posts: seq<Post>) {
    forall c :: c in comments ==> c.userId in UserIds(users) && c.postId in PostIds(posts)
  }

  predicate LikeRefs(likes: set<(int, int)>, users: seq<User>, posts: seq<Post>) {
    forall l :: l in likes ==> l.0 in UserIds(users) && l.1 in PostIds(posts)
  }

  predicate FollowRefs(follows: set<(int, int)>, users: seq<User>) {
    forall e :: e in follows ==> e.0 in UserIds(users) && e.1 in UserIds(users)
  }

  predicate Valid(s: Store) {
    UniqueUsers(s.users) && UniquePosts(s.posts) && UniqueComments(s.comments)
    && PostRefs(s.posts, s.users) && CommentRefs(s.comments, s.users, s.posts)
    && LikeRefs(s.likes, s.users, s.posts) && FollowRefs(s.follows, s.users)
  }

  // ----------------------------------------------------------- lookups

  /** The first user with that id (`User.query.get`). */
  function FindUser(s: Store, id: int): (r: Option<User>)
    ensures r.Some? ==> r.value in s.users && r.value.id == id
    ensures r.None? <==> id !in UserIds(s.users)
  {
    var hits := Filter(s.users, (u: User) => u.id == id);
    if hits == [] then None else Some(hits[0])
  }

  /** The first user with that name (`filter_by(username=...).first()`). */
  function FindUserByName(s: Store, name: string): (r: Option<User>)
    ensures r.Some? ==> r.value in s.users && r.value.username == name
    ensures r.None? <==> forall u :: u in s.users ==> u.username != name
  {
    var hits := Filter(s.users, (u: User) => u.username == name);
    if hits == [] then None else Some(hits[0])
  }

  function FindPost(s: Store, id: int): (r: Option<Post>)
    ensures r.Some? ==> r.value in s.posts && r.value.id == id
    ensures r.None? <==> id !in PostIds(s.posts)
  {
    var hits := Filter(s.posts, (p: Post) => p.id == id);
    if hits == [] then None else Some(hits[0])
  }

  function FindComment(s: Store, id: int): (r: Option<Comment>)
    ensures r.Some? ==> r.value in s.comments && r.value.id == id
    ensures r.None? <==> id !in CommentIds(s.comments)
  {
    var hits := Filter(s.comments, (c: Comment) => c.id == id);
    if hits == [] then None else Some(hits[0])
  }

  /** With unique usernames, a lookup by name finds the one user with it. */
  lemma FindUserByNameUnique(s: Store, u: User)
    requires UniqueUsers(s.users) && u in s.users
    ensures FindUserByName(s, u.username) == Some(u)
  {
    var v := FindUserByName(s, u.username).value;
    var i :| 0 <= i < |s.users| && s.users[i] == u;
    var j :| 0 <= j < |s.users| && s.users[j] == v;
    assert i == j;
  }

  /** With unique ids, a lookup finds the one row with that id. */
  lemma FindPostUnique(s: Store, p: Post)
    requires UniquePosts(s.posts) && p in s.posts
    ensures FindPost(s, p.id) == Some(p)
  {
    var q := FindPost(s, p.id).value;
    var i :| 0 <= i < |s.posts| && s.posts[i] == p;
    var j :| 0 <= j < |s.posts| && s.posts[j] == q;
    assert i == j;
  }

  lemma FindCommentUnique(s: Store, c: Comment)
    requires UniqueComments(s.comments) && c in s.comments
    ensures FindComment(s, c.id) == Some(c)
  {
    var d := FindComment(s, c.id).value;
    var i :| 0 <= i < |s.comments| && s.comments[i] == c;
    var j :| 0 <= j < |s.comments| && s.comments[j] == d;
    assert i == j;
  }

  // ------------------------------------------------------------ fresh ids

  function MaxKey<T>(xs: seq<T>, key: T -> int): (m: int)
    ensures forall i :: 0 <= i < |xs| ==> key(xs[i]) <= m
  {
    if xs == [] then 0
    else var rest := MaxKey(xs[1..], key); if key(xs[0]) > rest then key(xs[0]) else rest
  }

  /** The id the database assigns to a new row: one past the largest in
      use, and at least 1. */
  function NextKey<T>(xs: seq<T>, key: T -> int): (r: int)
    ensures r >= 1
    ensures forall i :: 0 <= i < |xs| ==> key(xs[i]) != r
  {
    var m := MaxKey(xs, key);
    if m + 1 >= 1 then m + 1 else 1
  }

  function NextUserId(users: seq<User>): (r: int)
    ensures r !in UserIds(users)
  {
    var r := NextKey(users, (u: User) => u.id);
    assert forall u :: u in users ==> u.id != r by {
      forall u | u in users ensures u.id != r {
        var i :| 0 <= i < |users| && users[i] == u;
      }
    }
    r
  }

  function NextPostId(posts: seq<Post>): (r: int)
    ensures r !in PostIds(posts)
  {
    var r := NextKey(posts, (p: Post) => p.id);
    assert forall p :: p in posts ==> p.id != r by {
      forall p | p in posts ensures p.id != r {
        var i :| 0 <= i < |posts| && posts[i] == p;
      }
    }
    r
  }

  function NextCommentId(comments: seq<Comment>): (r: int)
    ensures r !in CommentIds(comments)
  {
    var r := NextKey(comments, (c: Comment) => c.id);
    assert forall c :: c in comments ==> c.id != r by {
      forall c | c in comments ensures c.id != r {
        var i :| 0 <= i < |comments| && comments[i] == c;
      }
    }
    r
  }

  // ------------------------------------------------------------ passwords

  /** `set_password`: the user now holds a hash of `password`, which from
      then on accepts that password and no other. */
  function SetPassword(u: User, password: string, salt: int): (r: User)
    ensures r.id == u.id && r.username == u.username
    ensures forall q :: CheckPassword(r, q) <==> q == password
  {
    u.(passwordHash := PasswordHash(salt, password))
  }

  /** `check_password`: does `password` match the stored hash? */
  predicate CheckPassword(u: User, password: string) {
    u.passwordHash.secret == password
  }

  /** After `set_password(p)`, exactly `p` checks, whatever the salt. */
  lemma PasswordCheckIffSet(u: User, p: string, q: string, salt: int)
    ensures CheckPassword(SetPassword(u, p, salt), q) <==> q == p
  {
  }

  // -------------------------------------------------------------- follows

  /** `is_following`: whether the follower's followed users, filtered to
      the other user, count more than zero rows; that is, whether the
      directed edge is stored. */
  function IsFollowing(s: Store, follower: int, followed: int): (r: bool)
    ensures r <==> (follower, followed) in s.follows
  {
    var rows := set e | e in s.follows && e.0 == follower && e.1 == followed;
    if (follower, followed) in s.follows then
      assert (follower, followed) in rows;
      |rows| > 0
    else
      assert rows == {};
      |rows| > 0
  }

  /** `follow`: adds the edge unless present. Following oneself is not refused here. */
  function Follow(s: Store, follower: int, followed: int): (r: Store)
    ensures r.follows == s.follows + {(follower, followed)}
    ensures IsFollowing(s, follower, followed) ==> r == s
    ensures !IsFollowing(s, follower, followed) ==> |r.follows| == |s.follows| + 1
    ensures r == s.(follows := r.follows)
  {
    if IsFollowing(s, follower, followed) then s
    else s.(follows := s.follows + {(follower, followed)})
  }

  /** `unfollow`: removes the edge if present, touching no other edge. */
  function Unfollow(s: Store, follower: int, followed: int): (r: Store)
    ensures r.follows == s.follows - {(follower, followed)}
    ensures !IsFollowing(s, follower, followed) ==> r == s
    ensures r == s.(follows := r.follows)
  {
    if IsFollowing(s, follower, followed) then s.(follows := s.follows - {(follower, followed)})
    else s
  }

  lemma FollowIdempotent(s: Store, a: int, b: int)
    ensures Follow(Follow(s, a, b), a, b) == Follow(s, a, b)
    ensures IsFollowing(Follow(s, a, b), a, b)
  {
  }

  /** Following then unfollowing a user not yet followed restores the edges. */
  lemma UnfollowUndoesFollow(s: Store, a: int, b: int)
    requires !IsFollowing(s, a, b)
    ensures Unfollow(Follow(s, a, b), a, b) == s
  {
  }

  /** Following is directed: it does not make the other user follow back. */
  lemma FollowIsDirected(s: Store, a: int, b: int)
    requires a != b
    ensures IsFollowing(Follow(s, a, b), b, a) == IsFollowing(s, b, a)
  {
  }

  lemma FollowKeepsValid(s: Store, a: int, b: int)
    requires Valid(s) && a in UserIds(s.users) && b in UserIds(s.users)
    ensures Valid(Follow(s, a, b))
  {
  }

  lemma UnfollowKeepsValid(s: Store, a: int, b: int)
    requires Valid(s)
    ensures Valid(Unfollow(s, a, b))
  {
  }

  // ---------------------------------------------------------------- likes

  predicate Likes(s: Store, userId: int, postId: int) {
    (userId, postId) in s.likes
  }

  /** Inserting a like row: the unique constraint rejects a second like of
      the same post by the same user. */
  function InsertLike(s: Store, userId: int, postId: int): (r: Result<Store, string>)
    ensures r.Failure? <==> Likes(s, userId, postId)
    ensures r.Success? ==> r.value == s.(likes := s.likes + {(userId, postId)})
  {
    if Likes(s, userId, postId) then Failure("UNIQUE constraint failed: unique_user_post_like")
    else Success(s.(likes := s.likes + {(userId, postId)}))
  }

  /** Deleting a like row: that like goes, every other like and every
      other table stay. */
  function RemoveLike(s: Store, userId: int, postId: int): (r: Store)
    ensures forall l :: l in r.likes <==> l in s.likes && l != (userId, postId)
    ensures r == s.(likes := r.likes)
  {
    s.(likes := s.likes - {(userId, postId)})
  }

  /** The users who like a post. */
  function LikersOf(s: Store, postId: int): (r: set<int>)
    ensures forall u :: u in r <==> (u, postId) in s.likes
  {
    set l | l in s.likes && l.1 == postId :: l.0
  }

  function CommentsOn(s: Store, postId: int): (r: seq<Comment>)
    ensures forall c :: c in r <==> c in s.comments && c.postId == postId
  {
    Filter(s.comments, (c: Comment) => c.postId == postId)
  }

  /** A successful like adds one to the post's count; removing it takes one away. */
  lemma LikeCountsChangeByOne(s: Store, userId: int, postId: int)
    requires !Likes(s, userId, postId)
    ensures InsertLike(s, userId, postId).Success?
    ensures |LikersOf(InsertLike(s, userId, postId).value, postId)| == |LikersOf(s, postId)| + 1
    ensures RemoveLike(InsertLike(s, userId, postId).value, userId, postId) == s
  {
    var t := InsertLike(s, userId, postId).value;
    assert LikersOf(t, postId) == LikersOf(s, postId) + {userId};
  }

  lemma InsertLikeKeepsValid(s: Store, userId: int, postId: int)
    requires Valid(s) && userId in UserIds(s.users) && postId in PostIds(s.posts)
    ensures InsertLike(s, userId, postId).Success? ==> Valid(InsertLike(s, userId, postId).value)
  {
  }

  // -------------------------------------------------------- rows created

  /** Adds a user with a fresh id; a taken username violates its unique
      constraint. */
  function AddUser(s: Store, username: string, hash: PasswordHash): (r: Result<(Store, User), string>)
    ensures r.Failure? <==> FindUserByName(s, username).Some?
    ensures r.Success? ==> var (t, u) := r.value;
              u.id !in UserIds(s.users) && u.username == username && u.passwordHash == hash
              && t == s.(users := s.users + [u])
  {
    if FindUserByName(s, username).Some? then Failure("UNIQUE constraint failed: user.username")
    else
      var u := User(NextUserId(s.users), username, hash);
      Success((s.(users := s.users + [u]), u))
  }

  /** Adds a post with a fresh id. */
  function AddPost(s: Store, caption: string, timestamp: int, userId: int): (r: (Store, Post))
    ensures r.1.id !in PostIds(s.posts)
    ensures r.1 == Post(r.1.id, caption, timestamp, userId)
    ensures r.0 == s.(posts := s.posts + [r.1])
  {
    var p := Post(NextPostId(s.posts), caption, timestamp, userId);
    (s.(posts := s.posts + [p]), p)
  }

  /** Adds a comment with a fresh id. */
  function AddComment(s: Store, text: string, timestamp: int, userId: int, postId: int): (r: (Store, Comment))
    ensures r.1.id !in CommentIds(s.comments)
    ensures r.1 == Comment(r.1.id, text, timestamp, userId, postId)
    ensures r.0 == s.(comments := s.comments + [r.1])
  {
    var c := Comment(NextCommentId(s.comments), text, timestamp, userId, postId);
    (s.(comments := s.comments + [c]), c)
  }

  lemma AddUserKeepsValid(s: Store, username: string, hash: PasswordHash)
    requires Valid(s)
    ensures AddUser(s, username, hash).Success? ==> Valid(AddUser(s, username, hash).value.0)
  {
    var r := AddUser(s, username, hash);
    if r.Success? {
      var (t, u) := r.value;
      assert UserIds(t.users) == UserIds(s.users) + {u.id};
      forall i, j | 0 <= i < j < |t.users|
        ensures t.users[i].id != t.users[j].id && t.users[i].username != t.users[j].username
      {
        if j == |s.users| {
          assert t.users[i] in s.users;
        }
      }
    }
  }

  lemma AddPostKeepsValid(s: Store, caption: string, timestamp: int, userId: int)
    requires Valid(s) && userId in UserIds(s.users)
    ensures Valid(AddPost(s, caption, timestamp, userId).0)
  {
    var (t, p) := AddPost(s, caption, timestamp, userId);
    assert PostIds(t.posts) == PostIds(s.posts) + {p.id};
    forall i, j | 0 <= i < j < |t.posts| ensures t.posts[i].id != t.posts[j].id {
      if j == |s.posts| {
        assert t.posts[i] in s.posts;
      }
    }
  }

  lemma AddCommentKeepsValid(s: Store, text: string, timestamp: int, userId: int, postId: int)
    requires Valid(s) && userId in UserIds(s.users) && postId in PostIds(s.posts)
    ensures Valid(AddComment(s, text, timestamp, userId, postId).0)
  {
    var (t, c) := AddComment(s, text, timestamp, userId, postId);
    assert CommentIds(t.comments) == CommentIds(s.comments) + {c.id};
    forall i, j | 0 <= i < j < |t.comments| ensures t.comments[i].id != t.comments[j].id {
      if j == |s.comments| {
        assert t.comments[i] in s.comments;
      }
    }
  }

  // ---------------------------------------------------------------- edits

  /** Replaces the caption of every post with that id (there is one in a
      valid store). */
  function SetCaption(s: Store, postId: int, caption: string): (r: Store)
    ensures |r.posts| == |s.posts|
    ensures forall i :: 0 <= i < |s.posts| ==>
              r.posts[i] == if s.posts[i].id == postId then s.posts[i].(caption := caption) else s.posts[i]
    ensures r == s.(posts := r.posts)
  {
    s.(posts := seq(|s.posts|, i requires 0 <= i < |s.posts| =>
                      if s.posts[i].id == postId then s.posts[i].(caption := caption) else s.posts[i]))
  }

  /** After a caption edit, the post is found under its id with the new caption. */
  lemma SetCaptionFinds(s: Store, p: Post, caption: string)
    requires UniquePosts(s.posts) && p in s.posts
    ensures FindPost(SetCaption(s, p.id, caption), p.id) == Some(p.(caption := caption))
  {
    var t := SetCaption(s, p.id, caption);
    var i :| 0 <= i < |s.posts| && s.posts[i] == p;
    assert t.posts[i] == p.(caption := caption);
    assert forall j :: 0 <= j < |t.posts| ==> t.posts[j].id == s.posts[j].id;
    assert UniquePosts(t.posts);
    FindPostUnique(t, t.posts[i]);
  }

  function SetCommentText(s: Store, commentId: int, text: string): (r: Store)
    ensures |r.comments| == |s.comments|
    ensures forall i :: 0 <= i < |s.comments| ==>
              r.comments[i] == if s.comments[i].id == commentId then s.comments[i].(text := text) else s.comments[i]
    ensures r == s.(comments := r.comments)
  {
    s.(comments := seq(|s.comments|, i requires 0 <= i < |s.comments| =>
                         if s.comments[i].id == commentId then s.comments[i].(text := text) else s.comments[i]))
  }

  /** After a text edit, the comment is found under its id with the new text. */
  lemma SetCommentTextFinds(s: Store, c: Comment, text: string)
    requires UniqueComments(s.comments) && c in s.comments
    ensures FindComment(SetCommentText(s, c.id, text), c.id) == Some(c.(text := text))
  {
    var t := SetCommentText(s, c.id, text);
    var i :| 0 <= i < |s.comments| && s.comments[i] == c;
    assert t.comments[i] == c.(text := text);
    assert forall j :: 0 <= j < |t.comments| ==> t.comments[j].id == s.comments[j].id;
    assert UniqueComments(t.comments);
    FindCommentUnique(t, t.comments[i]);
  }

  lemma SetCaptionKeepsValid(s: Store, postId: int, caption: string)
    requires Valid(s)
    ensures Valid(SetCaption(s, postId, caption))
  {
    var t := SetCaption(s, postId, caption);
    assert PostIds(t.posts) == PostIds(s.posts) by {
      forall x | x in PostIds(t.posts) ensures x in PostIds(s.posts) {
        var p :| p in t.posts && p.id == x;
        var i :| 0 <= i < |t.posts| && t.posts[i] == p;
        assert s.posts[i].id == x;
      }
      forall x | x in PostIds(s.posts) ensures x in PostIds(t.posts) {
        var p :| p in s.posts && p.id == x;
        var i :| 0 <= i < |s.posts| && s.posts[i] == p;
        assert t.posts[i].id == x;
      }
    }
    forall p | p in t.posts ensures p.userId in UserIds(t.users) {
      var i :| 0 <= i < |t.posts| && t.posts[i] == p;
      assert s.posts[i].userId == p.userId;
    }
  }

  lemma SetCommentTextKeepsValid(s: Store, commentId: int, text: string)
    requires Valid(s)
    ensures Valid(SetCommentText(s, commentId, text))
  {
    var t := SetCommentText(s, commentId, text);
    forall c | c in t.comments ensures c.userId in UserIds(t.users) && c.postId in PostIds(t.posts) {
      var i :| 0 <= i < |t.comments| && t.comments[i] == c;
      assert s.comments[i].userId == c.userId && s.comments[i].postId == c.postId;
    }
  }

  // -------------------------------------------------------------- deletes

  /** Deleting a comment row. */
  function DeleteComment(s: Store, commentId: int): (r: Store)
    ensures forall c :: c in r.comments <==> c in s.comments && c.id != commentId
    ensures r == s.(comments := r.comments)
  {
    s.(comments := Filter(s.comments, (c: Comment) => c.id != commentId))
  }

  /** A deleted comment is no longer found, every other comment still is,
      and the store stays valid. */
  lemma DeleteCommentKeepsValid(s: Store, commentId: int)
    requires Valid(s)
    ensures Valid(DeleteComment(s, commentId))
    ensures FindComment(DeleteComment(s, commentId), commentId).None?
    ensures forall c :: c in s.comments && c.id != commentId ==>
              FindComment(DeleteComment(s, commentId), c.id) == Some(c)
  {
    var t := DeleteComment(s, commentId);
    FilterKeepsDistinct(s.comments, (c: Comment) => c.id != commentId, (c: Comment) => c.id);
    forall c | c in s.comments && c.id != commentId
      ensures FindComment(t, c.id) == Some(c)
    {
      FindCommentUnique(t, c);
    }
  }

  /** Deleting a post also deletes its likes and comments (the post's
      `all, delete-orphan` relationships). */
  function DeletePost(s: Store, postId: int): (r: Store)
    ensures forall p :: p in r.posts <==> p in s.posts && p.id != postId
    ensures forall c :: c in r.comments <==> c in s.comments && c.postId != postId
    ensures forall l :: l in r.likes <==> l in s.likes && l.1 != postId
    ensures r.users == s.users && r.follows == s.follows
  {
    Store(s.users,
          Filter(s.posts, (p: Post) => p.id != postId),
          Filter(s.comments, (c: Comment) => c.postId != postId),
          (set l | l in s.likes && l.1 != postId),
          s.follows)
  }

  /** The ids of a user's posts. */
  function PostsBy(s: Store, userId: int): set<int> {
    set p | p in s.posts && p.userId == userId :: p.id
  }

  /** Deleting a user also deletes their posts (with those posts' likes and
      comments), their likes and their comments, and the follower rows that
      name them. */
  function DeleteUser(s: Store, userId: int): (r: Store)
    ensures forall u :: u in r.users <==> u in s.users && u.id != userId
    ensures forall p :: p in r.posts <==> p in s.posts && p.userId != userId
    ensures forall c :: c in r.comments <==>
              c in s.comments && c.userId != userId && c.postId !in PostsBy(s, userId)
    ensures forall l :: l in r.likes <==> l in s.likes && l.0 != userId && l.1 !in PostsBy(s, userId)
    ensures forall e :: e in r.follows <==> e in s.follows && e.0 != userId && e.1 != userId
  {
    var doomed := PostsBy(s, userId);
    Store(Filter(s.users, (u: User) => u.id != userId),
          Filter(s.posts, (p: Post) => p.userId != userId),
          Filter(s.comments, (c: Comment) => c.userId != userId && c.postId !in doomed),
          (set l | l in s.likes && l.0 != userId && l.1 !in doomed),
          (set e | e in s.follows && e.0 != userId && e.1 != userId))
  }

  /** Filtering a sequence keeps pairwise-distinct keys distinct. */
  lemma {:induction false} FilterKeepsDistinct<T(!new)>(xs: seq<T>, keep: T -> bool, key: T -> int)
    requires forall i, j :: 0 <= i < j < |xs| ==> key(xs[i]) != key(xs[j])
    ensures forall i, j :: 0 <= i < j < |Filter(xs, keep)| ==>
              key(Filter(xs, keep)[i]) != key(Filter(xs, keep)[j])
  {
    if xs != [] {
      FilterKeepsDistinct(xs[1..], keep, key);
      var rest := Filter(xs[1..], keep);
      forall x | x in rest ensures key(x) != key(xs[0]) {
        var k :| 0 <= k < |xs[1..]| && xs[1..][k] == x;
        assert xs[k + 1] == x;
      }
    }
  }

  lemma FilterKeepsDistinctUsers(xs: seq<User>, keep: User -> bool)
    requires forall i, j :: 0 <= i < j < |xs| ==> xs[i].id != xs[j].id && xs[i].username != xs[j].username
    ensures forall i, j :: 0 <= i < j < |Filter(xs, keep)| ==>
              Filter(xs, keep)[i].id != Filter(xs, keep)[j].id
              && Filter(xs, keep)[i].username != Filter(xs, keep)[j].username
    decreases |xs|
  {
    if xs != [] {
      FilterKeepsDistinctUsers(xs[1..], keep);
      var rest := Filter(xs[1..], keep);
      forall x | x in rest ensures x.id != xs[0].id && x.username != xs[0].username {
        var k :| 0 <= k < |xs[1..]| && xs[1..][k] == x;
        assert xs[k + 1] == x;
      }
    }
  }

  lemma DeletePostKeepsValid(s: Store, postId: int)
    requires Valid(s)
    ensures Valid(DeletePost(s, postId))
  {
    var t := DeletePost(s, postId);
    FilterKeepsDistinct(s.posts, (p: Post) => p.id != postId, (p: Post) => p.id);
    FilterKeepsDistinct(s.comments, (c: Comment) => c.postId != postId, (c: Comment) => c.id);
    forall c | c in t.comments ensures c.postId in PostIds(t.posts) {
      var p :| p in s.posts && p.id == c.postId;
      assert p in t.posts;
    }
    forall l | l in t.likes ensures l.1 in PostIds(t.posts) {
      var p :| p in s.posts && p.id == l.1;
      assert p in t.posts;
    }
  }

  lemma DeleteUserKeepsValid(s: Store, userId: int)
    requires Valid(s)
    ensures Valid(DeleteUser(s, userId))
  {
    var t := DeleteUser(s, userId);
    var doomed := PostsBy(s, userId);
    FilterKeepsDistinctUsers(s.users, (u: User) => u.id != userId);
    FilterKeepsDistinct(s.posts, (p: Post) => p.userId != userId, (p: Post) => p.id);
    FilterKeepsDistinct(s.comments, (c: Comment) => c.userId != userId && c.postId !in doomed,
                        (c: Comment) => c.id);
    forall p | p in t.posts ensures p.userId in UserIds(t.users) {
      var u :| u in s.users && u.id == p.userId;
      assert u in t.users;
    }
    forall c | c in t.comments ensures c.userId in UserIds(t.users) && c.postId in PostIds(t.posts) {
      var u :| u in s.users && u.id == c.userId;
      assert u in t.users;
      var p :| p in s.posts && p.id == c.postId;
      assert p in t.posts;
    }
    forall l | l in t.likes ensures l.0 in UserIds(t.users) && l.1 in PostIds(t.posts) {
      var u :| u in s.users && u.id == l.0;
      assert u in t.users;
      var p :| p in s.posts && p.id == l.1;
      assert p in t.posts;
    }
    forall e | e in t.follows ensures e.0 in UserIds(t.users) && e.1 in UserIds(t.users) {
      var u :| u in s.users && u.id == e.0;
      assert u in t.users;
      var v :| v in s.users && v.id == e.1;
      assert v in t.users;
    }
  }

  // ---------------------------------------------------------- projections

  /** `User.to_dict`: the id and the username, never the password hash. */
  function UserToDict(u: User): (r: Value)
    ensures r.Obj? && Keys(r.fields) == ["id", "username"]
    ensures r.fields[0].value == Int(u.id) && r.fields[1].value == Str(u.username)
  {
    Obj([Field("id", Int(u.id)), Field("username", Str(u.username))])
  }

  /** The dictionary does not depend on the password: two users that differ
      only in their hash project to the same dictionary. */
  lemma UserToDictHidesPassword(u: User, h: PasswordHash)
    ensures UserToDict(u.(passwordHash := h)) == UserToDict(u)
  {
  }

  /** `Post.to_dict`; `iso` renders a timestamp. The author must exist
      (`post.author.username` fails otherwise). */
  function PostToDict(s: Store, p: Post, iso: int -> string): (r: Option<Value>)
    ensures r.None? <==> FindUser(s, p.userId).None?
    ensures r.Some? ==> r.value.Obj? && |r.value.fields| == 7
    ensures r.Some? ==> r.value.fields[5] == Field("likes_count", Int(|LikersOf(s, p.id)|))
    ensures r.Some? ==> r.value.fields[6] == Field("comments_count", Int(|CommentsOn(s, p.id)|))
    ensures r.Some? ==> r.value.fields[4] == Field("author", Str(FindUser(s, p.userId).value.username))
  {
    match FindUser(s, p.userId)
    case None => None
    case Some(author) =>
      Some(Obj([Field("id", Int(p.id)),
                Field("caption", Str(p.caption)),
                Field("timestamp", Str(iso(p.timestamp))),
                Field("user_id", Int(p.userId)),
                Field("author", Str(author.username)),
                Field("likes_count", Int(|LikersOf(s, p.id)|)),
                Field("comments_count", Int(|CommentsOn(s, p.id)|))]))
  }

  /** `Comment.to_dict`. */
  function CommentToDict(s: Store, c: Comment, iso: int -> string): (r: Option<Value>)
    ensures r.None? <==> FindUser(s, c.userId).None?
    ensures r.Some? ==> r.value.Obj? && |r.value.fields| == 6
    ensures r.Some? ==> r.value.fields[4] == Field("author", Str(FindUser(s, c.userId).value.username))
    ensures r.Some? ==> r.value.fields[5] == Field("post_id", Int(c.postId))
  {
    match FindUser(s, c.userId)
    case None => None
    case Some(author) =>
      Some(Obj([Field("id", Int(c.id)),
                Field("text", Str(c.text)),
                Field("timestamp", Str(iso(c.timestamp))),
                Field("user_id", Int(c.userId)),
                Field("author", Str(author.username)),
                Field("post_id", Int(c.postId))]))
  }

  /** In a valid store every post and comment projects. */
  lemma ProjectionsDefined(s: Store, p: Post, c: Comment, iso: int -> string)
    requires Valid(s) && p in s.posts && c in s.comments
    ensures PostToDict(s, p, iso).Some? && CommentToDict(s, c, iso).Some?
  {
  }
}
