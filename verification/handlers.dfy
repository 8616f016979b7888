/** The application's view functions as state transitions: each takes the
    store, the session, the flashed-message queue, the current user and the
    form, and yields the response together with the new store, session and
    queue and any records logged. */
module Handlers {
  import opened Wrappers
  import opened Seqs
  import opened Text
  import opened Records
  import opened Store
  import opened Auth
  import opened Feed

  /** Where a redirect goes: the login page, the home page, or the home page
      scrolled to one post (`url_for('home') + '#post-<id>'`). */
  datatype Target = ToLogin | ToHome | ToPost(postId: int)

  datatype HomePage = HomePage(posts: seq<Post>, userLikes: set<int>, suggested: seq<User>, stories: seq<User>)

  /** `ServerError` is the 500 a view answers with when it dereferences a
      missing current user. */
  datatype Response =
    | Redirect(target: Target)
    | Render(template: string)
    | RenderHome(page: HomePage)
    | NotFoundPage
    | ForbiddenPage
    | ServerError

  datatype Reply = Reply(response: Response, store: Store, session: Session,
                         flashes: seq<Flash>, logged: seq<Record>)

  const LoginPage: string := "auth/login.html"
  const RegisterPage: string := "auth/register.html"
  const EditPostPage: string := "edit_post.html"
  const EditCommentPage: string := "edit_comment.html"

  /** The check every unguarded view starts with: is there a user id in the session? */
  predicate SignedIn(session: Session) {
    session.userId.Some?
  }

  // ------------------------------------------------------------ sign in

  /** `index`: to the home page when the session has a user, else to login. */
  function IndexView(session: Session): (r: Response)
    ensures r == Redirect(ToHome) || r == Redirect(ToLogin)
    ensures r == Redirect(ToHome) <==> SignedIn(session)
  {
    if !SignedIn(session) then Redirect(ToLogin) else Redirect(ToHome)
  }

  /** `login`. A POST needs both fields; then the user found by name must
      accept the password. Only a successful login touches the session. */
  function LoginView(s: Store, session: Session, pending: seq<Flash>, isPost: bool,
                     username: Option<string>, password: Option<string>): (r: Reply)
    ensures r.store == s && r.logged == []
    ensures !isPost ==> r == Reply(Render(LoginPage), s, session, pending, [])
    ensures isPost && !(Truthy(username) && Truthy(password)) ==>
              r == Reply(Render(LoginPage), s, session,
                         pending + [Flash("error", "Username and password required")], [])
    ensures r.response == Redirect(ToHome) <==>
              isPost && Truthy(username) && Truthy(password)
              && FindUserByName(s, username.value).Some?
              && CheckPassword(FindUserByName(s, username.value).value, password.value)
    ensures r.response == Redirect(ToHome) ==>
              r.session == session.(userId := Some(FindUserByName(s, username.value).value.id))
              && r.flashes == pending + [Flash("success", "Login successful!")]
    ensures r.response != Redirect(ToHome) ==> r.session == session
    ensures isPost && Truthy(username) && Truthy(password) && r.response != Redirect(ToHome) ==>
              r.flashes == pending + [Flash("error", "Invalid credentials")]
  {
    var denied := Reply(Render(LoginPage), s, session, pending + [Flash("error", "Invalid credentials")], []);
    if !isPost then Reply(Render(LoginPage), s, session, pending, [])
    else if !Truthy(username) || !Truthy(password) then
      Reply(Render(LoginPage), s, session, pending + [Flash("error", "Username and password required")], [])
    else
      match FindUserByName(s, username.value)
      case None => denied
      case Some(u) =>
        if CheckPassword(u, password.value) then
          Reply(Redirect(ToHome), s, session.(userId := Some(u.id)),
                pending + [Flash("success", "Login successful!")], [])
        else denied
  }

  /** With unique usernames, a login succeeds exactly when some user has
      that name and accepts the password, and the session then names that
      user. */
  lemma LoginIffCredentials(s: Store, session: Session, pending: seq<Flash>, name: string, pw: string)
    requires UniqueUsers(s.users) && name != [] && pw != []
    ensures var r := LoginView(s, session, pending, true, Some(name), Some(pw));
            (r.response == Redirect(ToHome) <==>
               exists u :: u in s.users && u.username == name && CheckPassword(u, pw))
            && forall u :: u in s.users && u.username == name && CheckPassword(u, pw) ==>
                 r.session.userId == Some(u.id)
  {
    forall u | u in s.users && u.username == name {
      FindUserByNameUnique(s, u);
    }
  }

  /** `register`. A POST checks, in order: all three fields present, the
      passwords match, the username is unused. Only then is the user created
      (with a hash of the password) and the session set to it. */
  function RegisterView(s: Store, session: Session, pending: seq<Flash>, isPost: bool,
                        username: Option<string>, password: Option<string>,
                        confirm: Option<string>, salt: int): (r: Reply)
    ensures r.logged == []
    ensures !isPost ==> r == Reply(Render(RegisterPage), s, session, pending, [])
    ensures isPost && !(Truthy(username) && Truthy(password) && Truthy(confirm)) ==>
              r == Reply(Render(RegisterPage), s, session,
                         pending + [Flash("error", "All fields are required")], [])
    ensures isPost && Truthy(username) && Truthy(password) && Truthy(confirm)
            && password.value != confirm.value ==>
              r == Reply(Render(RegisterPage), s, session,
                         pending + [Flash("error", "Passwords do not match")], [])
    ensures isPost && Truthy(username) && Truthy(password) && Truthy(confirm)
            && password.value == confirm.value && FindUserByName(s, username.value).Some? ==>
              r == Reply(Render(RegisterPage), s, session,
                         pending + [Flash("error", "Username already exists")], [])
    ensures r.response == Redirect(ToHome) <==>
              isPost && Truthy(username) && Truthy(password) && Truthy(confirm)
              && password.value == confirm.value && FindUserByName(s, username.value).None?
    ensures r.response == Redirect(ToHome) ==>
              |r.store.users| == |s.users| + 1 && r.store.users[..|s.users|] == s.users
              && r.store == s.(users := r.store.users)
              && var u := r.store.users[|s.users|];
                 u.username == username.value && CheckPassword(u, password.value)
                 && u.id !in UserIds(s.users) && r.session == session.(userId := Some(u.id))
                 && r.flashes == pending + [Flash("success", "Registration successful! Welcome to Photo App!")]
    ensures r.response != Redirect(ToHome) ==> r.store == s && r.session == session
  {
    if !isPost then Reply(Render(RegisterPage), s, session, pending, [])
    else if !Truthy(username) || !Truthy(password) || !Truthy(confirm) then
      Reply(Render(RegisterPage), s, session, pending + [Flash("error", "All fields are required")], [])
    else if password.value != confirm.value then
      Reply(Render(RegisterPage), s, session, pending + [Flash("error", "Passwords do not match")], [])
    else
      match AddUser(s, username.value, PasswordHash(salt, password.value))
      case Failure(_) =>
        Reply(Render(RegisterPage), s, session, pending + [Flash("error", "Username already exists")], [])
      case Success((t, u)) =>
        assert t.users[..|s.users|] == s.users;
        Reply(Redirect(ToHome), t, session.(userId := Some(u.id)),
              pending + [Flash("success", "Registration successful! Welcome to Photo App!")], [])
  }

  lemma RegisterKeepsValid(s: Store, session: Session, pending: seq<Flash>, isPost: bool,
                           username: Option<string>, password: Option<string>,
                           confirm: Option<string>, salt: int)
    requires Valid(s)
    ensures Valid(RegisterView(s, session, pending, isPost, username, password, confirm, salt).store)
  {
    if isPost && Truthy(username) && Truthy(password) && Truthy(confirm) && password.value == confirm.value {
      AddUserKeepsValid(s, username.value, PasswordHash(salt, password.value));
    }
  }

  /** `logout`: the pending messages are discarded, the user id leaves the
      session, and only the logout notice is queued. */
  function LogoutView(s: Store, session: Session, pending: seq<Flash>): (r: Reply)
    ensures r.response == Redirect(ToLogin) && r.store == s && r.logged == []
    ensures r.session == session.(userId := None)
    ensures r.flashes == [Flash("info", "You have been logged out")]
  {
    Reply(Redirect(ToLogin), s, session.(userId := None), [Flash("info", "You have been logged out")], [])
  }

  // ---------------------------------------------------------------- home

  lemma HomeFeedExactly(s: Store, me: int)
    ensures forall p :: p in HomeFeed(s, me) <==> p in s.posts && InFeed(s, me, p.userId)
  {
    forall p | true ensures p in HomeFeed(s, me) <==> p in s.posts && InFeed(s, me, p.userId) {
      HomeFeedMembers(s, me, p);
    }
  }

  /** `home`: the feed, the liked posts, the suggestions and the stories of
      the current user. */
  function HomeView(s: Store, session: Session, me: Option<User>, pending: seq<Flash>): (r: Reply)
    ensures r.store == s && r.session == session && r.flashes == pending && r.logged == []
    ensures !SignedIn(session) ==> r.response == Redirect(ToLogin)
    ensures SignedIn(session) && me.None? ==> r.response == ServerError
    ensures SignedIn(session) && me.Some? ==> r.response.RenderHome?
    ensures r.response.RenderHome? ==>
              var page := r.response.page;
              NewestFirst(page.posts)
              && (forall p :: p in page.posts <==> p in s.posts && InFeed(s, me.value.id, p.userId))
              && (forall p :: p in page.userLikes <==> Likes(s, me.value.id, p))
              && |page.suggested| <= 5
              && (forall u :: u in page.suggested ==> u in s.users && !InFeed(s, me.value.id, u.id))
              && (|page.suggested| < 5 ==>
                    forall u :: u in s.users && !InFeed(s, me.value.id, u.id) ==> u in page.suggested)
              && |page.stories| <= 6
              && (forall u :: u in page.stories ==> u in s.users && IsFollowing(s, me.value.id, u.id))
              && (|page.stories| < 6 ==>
                    forall u :: u in s.users && IsFollowing(s, me.value.id, u.id) ==> u in page.stories)
  {
    if !SignedIn(session) then Reply(Redirect(ToLogin), s, session, pending, [])
    else match me
      case None => Reply(ServerError, s, session, pending, [])
      case Some(u) =>
        HomeFeedExactly(s, u.id);
        var page := HomePage(HomeFeed(s, u.id), LikedPosts(s, u.id), SuggestedUsers(s, u.id), StoryUsers(s, u.id));
        Reply(RenderHome(page), s, session, pending, [])
  }

  // ------------------------------------------------------------- follows

  /** `follow_user`: a missing target is a 404, decided before the self
      check; following oneself adds no edge; otherwise the edge is added. */
  function FollowUserView(s: Store, session: Session, me: Option<User>, pending: seq<Flash>,
                          userId: int): (r: Reply)
    ensures r.session == session && r.logged == []
    ensures !SignedIn(session) ==> r.response == Redirect(ToLogin) && r.store == s
    ensures SignedIn(session) && userId !in UserIds(s.users) ==> r.response == NotFoundPage && r.store == s
    ensures SignedIn(session) && userId in UserIds(s.users) && me.None? ==> r.response == ServerError
    ensures SignedIn(session) && userId in UserIds(s.users) && me.Some? && me.value.id == userId ==>
              r == Reply(Redirect(ToHome), s, session, pending + [Flash("error", "You cannot follow yourself")], [])
    ensures SignedIn(session) && userId in UserIds(s.users) && me.Some? && me.value.id != userId ==>
              r.response == Redirect(ToHome) && r.store == Follow(s, me.value.id, userId)
              && r.flashes == pending + [Flash("success", "You are now following " + FindUser(s, userId).value.username)]
    ensures r.store != s ==> me.Some? && me.value.id != userId && r.store.follows == s.follows + {(me.value.id, userId)}
  {
    if !SignedIn(session) then Reply(Redirect(ToLogin), s, session, pending, [])
    else match FindUser(s, userId)
      case None => Reply(NotFoundPage, s, session, pending, [])
      case Some(target) =>
        match me
        case None => Reply(ServerError, s, session, pending, [])
        case Some(u) =>
          if u.id == userId then
            Reply(Redirect(ToHome), s, session, pending + [Flash("error", "You cannot follow yourself")], [])
          else
            Reply(Redirect(ToHome), Follow(s, u.id, userId), session,
                  pending + [Flash("success", "You are now following " + target.username)], [])
  }

  /** The refusal of a self-follow lives in the view: the store operation
      itself would add the edge. */
  lemma SelfFollowRefusedOnlyByView(s: Store, session: Session, me: User, pending: seq<Flash>)
    requires SignedIn(session) && me.id in UserIds(s.users) && !IsFollowing(s, me.id, me.id)
    ensures FollowUserView(s, session, Some(me), pending, me.id).store == s
    ensures IsFollowing(Follow(s, me.id, me.id), me.id, me.id)
  {
  }

  /** `unfollow_user`: a missing target is a 404; otherwise the edge, if
      any, is removed. */
  function UnfollowUserView(s: Store, session: Session, me: Option<User>, pending: seq<Flash>,
                            userId: int): (r: Reply)
    ensures r.session == session && r.logged == []
    ensures !SignedIn(session) ==> r.response == Redirect(ToLogin) && r.store == s
    ensures SignedIn(session) && userId !in UserIds(s.users) ==> r.response == NotFoundPage && r.store == s
    ensures SignedIn(session) && userId in UserIds(s.users) && me.None? ==> r.response == ServerError
    ensures SignedIn(session) && userId in UserIds(s.users) && me.Some? ==>
              r.response == Redirect(ToHome) && r.store == Unfollow(s, me.value.id, userId)
              && r.flashes == pending + [Flash("info", "You unfollowed " + FindUser(s, userId).value.username)]
  {
    if !SignedIn(session) then Reply(Redirect(ToLogin), s, session, pending, [])
    else match FindUser(s, userId)
      case None => Reply(NotFoundPage, s, session, pending, [])
      case Some(target) =>
        match me
        case None => Reply(ServerError, s, session, pending, [])
        case Some(u) =>
          Reply(Redirect(ToHome), Unfollow(s, u.id, userId), session,
                pending + [Flash("info", "You unfollowed " + target.username)], [])
  }

  // --------------------------------------------------- likes and comments

  /** `toggle_like`: a missing post is a 404; otherwise the current user's
      like of it is removed if present and inserted if not. */
  function ToggleLikeView(s: Store, session: Session, me: Option<User>, pending: seq<Flash>,
                          postId: int): (r: Reply)
    ensures r.session == session && r.flashes == pending && r.logged == []
    ensures !SignedIn(session) ==> r.response == Redirect(ToLogin) && r.store == s
    ensures SignedIn(session) && postId !in PostIds(s.posts) ==> r.response == NotFoundPage && r.store == s
    ensures SignedIn(session) && postId in PostIds(s.posts) && me.None? ==> r.response == ServerError && r.store == s
    ensures SignedIn(session) && postId in PostIds(s.posts) && me.Some? ==>
              r.response == Redirect(ToPost(postId))
              && r.store == s.(likes := r.store.likes)
              && (Likes(s, me.value.id, postId) ==> r.store.likes == s.likes - {(me.value.id, postId)})
              && (!Likes(s, me.value.id, postId) ==> r.store.likes == s.likes + {(me.value.id, postId)})
  {
    if !SignedIn(session) then Reply(Redirect(ToLogin), s, session, pending, [])
    else if FindPost(s, postId).None? then Reply(NotFoundPage, s, session, pending, [])
    else match me
      case None => Reply(ServerError, s, session, pending, [])
      case Some(u) =>
        var t := if Likes(s, u.id, postId) then RemoveLike(s, u.id, postId)
                 else InsertLike(s, u.id, postId).value;
        Reply(Redirect(ToPost(postId)), t, session, pending, [])
  }

  /** Toggling a like twice restores the store. */
  lemma ToggleLikeTwice(s: Store, session: Session, me: User, pending: seq<Flash>, postId: int)
    requires SignedIn(session) && postId in PostIds(s.posts)
    ensures var once := ToggleLikeView(s, session, Some(me), pending, postId).store;
            ToggleLikeView(once, session, Some(me), pending, postId).store == s
  {
    var once := ToggleLikeView(s, session, Some(me), pending, postId).store;
    assert once.posts == s.posts;
  }

  lemma ToggleLikeKeepsValid(s: Store, session: Session, me: User, pending: seq<Flash>, postId: int)
    requires Valid(s) && me.id in UserIds(s.users)
    ensures Valid(ToggleLikeView(s, session, Some(me), pending, postId).store)
  {
  }

  /** `add_comment`: a missing post is a 404; a blank text changes nothing;
      otherwise a comment with the stripped text, by the current user, on
      that post, is added. */
  function AddCommentView(s: Store, session: Session, me: Option<User>, pending: seq<Flash>,
                          postId: int, text: Option<string>, now: int): (r: Reply)
    ensures r.session == session && r.logged == []
    ensures !SignedIn(session) ==> r.response == Redirect(ToLogin) && r.store == s
    ensures SignedIn(session) && postId !in PostIds(s.posts) ==> r.response == NotFoundPage && r.store == s
    ensures SignedIn(session) && postId in PostIds(s.posts) && !HasContent(text) ==>
              r == Reply(Redirect(ToPost(postId)), s, session, pending, [])
    ensures SignedIn(session) && postId in PostIds(s.posts) && HasContent(text) && me.None? ==>
              r.response == ServerError && r.store == s
    ensures SignedIn(session) && postId in PostIds(s.posts) && HasContent(text) && me.Some? ==>
              r.response == Redirect(ToPost(postId))
              && r.flashes == pending + [Flash("success", "Comment added!")]
              && |r.store.comments| == |s.comments| + 1 && r.store.comments[..|s.comments|] == s.comments
              && r.store == s.(comments := r.store.comments)
              && var c := r.store.comments[|s.comments|];
                 c.text == Strip(text.value) && c.userId == me.value.id && c.postId == postId
                 && c.id !in CommentIds(s.comments)
  {
    if !SignedIn(session) then Reply(Redirect(ToLogin), s, session, pending, [])
    else if FindPost(s, postId).None? then Reply(NotFoundPage, s, session, pending, [])
    else if !HasContent(text) then Reply(Redirect(ToPost(postId)), s, session, pending, [])
    else match me
      case None => Reply(ServerError, s, session, pending, [])
      case Some(u) =>
        var (t, c) := AddComment(s, Strip(text.value), now, u.id, postId);
        assert t.comments[..|s.comments|] == s.comments;
        Reply(Redirect(ToPost(postId)), t, session, pending + [Flash("success", "Comment added!")], [])
  }

  /** Commenting keeps the store consistent. */
  lemma AddCommentViewKeepsValid(s: Store, session: Session, me: User, pending: seq<Flash>,
                                 postId: int, text: Option<string>, now: int)
    requires Valid(s) && me.id in UserIds(s.users)
    ensures Valid(AddCommentView(s, session, Some(me), pending, postId, text, now).store)
  {
    if SignedIn(session) && postId in PostIds(s.posts) && HasContent(text) {
      AddCommentKeepsValid(s, Strip(text.value), now, me.id, postId);
    }
  }

  /** `create_post`: a blank caption changes nothing; otherwise a post with
      the stripped caption, by the current user, is added. */
  function CreatePostView(s: Store, session: Session, me: Option<User>, pending: seq<Flash>,
                          caption: Option<string>, now: int): (r: Reply)
    ensures r.session == session && r.logged == []
    ensures !SignedIn(session) ==> r.response == Redirect(ToLogin) && r.store == s
    ensures SignedIn(session) && !HasContent(caption) ==>
              r == Reply(Redirect(ToHome), s, session, pending, [])
    ensures SignedIn(session) && HasContent(caption) && me.None? ==> r.response == ServerError && r.store == s
    ensures SignedIn(session) && HasContent(caption) && me.Some? ==>
              r.response == Redirect(ToHome)
              && r.flashes == pending + [Flash("success", "Post created!")]
              && |r.store.posts| == |s.posts| + 1 && r.store.posts[..|s.posts|] == s.posts
              && r.store == s.(posts := r.store.posts)
              && var p := r.store.posts[|s.posts|];
                 p.caption == Strip(caption.value) && p.userId == me.value.id && p.timestamp == now
                 && p.id !in PostIds(s.posts)
  {
    if !SignedIn(session) then Reply(Redirect(ToLogin), s, session, pending, [])
    else if !HasContent(caption) then Reply(Redirect(ToHome), s, session, pending, [])
    else match me
      case None => Reply(ServerError, s, session, pending, [])
      case Some(u) =>
        var (t, p) := AddPost(s, Strip(caption.value), now, u.id);
        assert t.posts[..|s.posts|] == s.posts;
        Reply(Redirect(ToHome), t, session, pending + [Flash("success", "Post created!")], [])
  }

  /** Posting keeps the store consistent. */
  lemma CreatePostViewKeepsValid(s: Store, session: Session, me: User, pending: seq<Flash>,
                                 caption: Option<string>, now: int)
    requires Valid(s) && me.id in UserIds(s.users)
    ensures Valid(CreatePostView(s, session, Some(me), pending, caption, now).store)
  {
    if SignedIn(session) && HasContent(caption) {
      AddPostKeepsValid(s, Strip(caption.value), now, me.id);
    }
  }

  /** A stored caption or comment is never blank: it is the stripped text,
      which is non-empty. */
  lemma StoredTextNotBlank(text: Option<string>)
    requires HasContent(text)
    ensures Strip(text.value) != [] && Strip(Strip(text.value)) == Strip(text.value)
  {
    StripIdempotent(text.value);
  }

  // ------------------------------------------------------ guarded views

  /** The reply of a guarded view: the decorator's rejection, or the
      view's own reply. A rejection leaves the store and the session as
      they were; only a 403 logs (the one warning), and only the login
      redirect queues a message; each rejection has its own response. */
  function Settle(g: Guarded<Reply>, s: Store, session: Session, pending: seq<Flash>): (r: Reply)
    ensures !g.Ran? ==> r.store == s && r.session == session
    ensures g.Ran? ==> r == g.result
    ensures r.logged != [] <==> g.Forbidden? || (g.Ran? && g.result.logged != [])
    ensures g.Forbidden? ==> r.logged == [g.logged]
    ensures !g.Ran? ==>
              (r.response == Redirect(ToLogin) <==> g == LoginRedirect)
              && (r.response == NotFoundPage <==> g == NotFound)
              && (r.response == ForbiddenPage <==> g.Forbidden?)
    ensures !g.Ran? ==>
              r.flashes == if g == LoginRedirect then pending + [Flash("error", LoginFlash)] else pending
  {
    match g
    case LoginRedirect => Reply(Redirect(ToLogin), s, session, pending + [Flash("error", LoginFlash)], [])
    case NotFound => Reply(NotFoundPage, s, session, pending, [])
    case Forbidden(rec) => Reply(ForbiddenPage, s, session, pending, [rec])
    case Ran(reply) => reply
  }

  /** The body of `edit_post`, run once the owner check has passed: a
      missing post is a 404; a GET shows the form; a POST with a non-blank
      caption stores it stripped and goes to the post; a blank one shows the
      form again with an error. */
  function EditPostBody(s: Store, session: Session, pending: seq<Flash>, postId: int,
                        isPost: bool, caption: Option<string>): (r: Reply)
    ensures r.session == session && r.logged == []
    ensures r.store != s ==> isPost && HasContent(caption) && r.store == SetCaption(s, postId, Strip(caption.value))
    ensures postId !in PostIds(s.posts) ==> r.response == NotFoundPage && r.store == s && r.flashes == pending
    ensures postId in PostIds(s.posts) && isPost && HasContent(caption) ==>
              r.response == Redirect(ToPost(postId)) && r.store == SetCaption(s, postId, Strip(caption.value))
              && r.flashes == pending + [Flash("success", "Post updated successfully!")]
    ensures postId in PostIds(s.posts) && !(isPost && HasContent(caption)) ==>
              r.response == Render(EditPostPage) && r.store == s
              && r.flashes == if isPost then pending + [Flash("error", "Caption cannot be empty")] else pending
  {
    if FindPost(s, postId).None? then Reply(NotFoundPage, s, session, pending, [])
    else if !isPost then Reply(Render(EditPostPage), s, session, pending, [])
    else if HasContent(caption) then
      Reply(Redirect(ToPost(postId)), SetCaption(s, postId, Strip(caption.value)), session,
            pending + [Flash("success", "Post updated successfully!")], [])
    else Reply(Render(EditPostPage), s, session, pending + [Flash("error", "Caption cannot be empty")], [])
  }

  /** `edit_post` behind `post_owner_required`. Only the author changes the
      caption, only on a POST with a non-blank caption, and the stored
      caption is the stripped one. */
  function EditPostView(s: Store, session: Session, me: Option<User>, pending: seq<Flash>,
                        postId: int, isPost: bool, caption: Option<string>): (r: Reply)
    ensures me.None? ==> r.response == Redirect(ToLogin) && r.store == s
    ensures me.Some? && PostOwner(s, postId).None? ==> r.response == NotFoundPage && r.store == s
    ensures me.Some? && PostOwner(s, postId).Some? && PostOwner(s, postId).value != me.value.id ==>
              r.response == ForbiddenPage && r.store == s && |r.logged| == 1
    ensures me.Some? && PostOwner(s, postId) == Some(me.value.id) ==>
              if isPost && HasContent(caption) then
                r.response == Redirect(ToPost(postId)) && r.store == SetCaption(s, postId, Strip(caption.value))
              else r.store == s && r.response == Render(EditPostPage)
    ensures r.store != s ==> me.Some? && PostOwner(s, postId) == Some(me.value.id)
  {
    var g := PostOwnerRequired(s, me, postId, "edit_post",
                               (id: int) => EditPostBody(s, session, pending, id, isPost, caption));
    Settle(g, s, session, pending)
  }

  /** `delete_post` behind `post_owner_required`: only the author deletes,
      and the post goes with its likes and comments. */
  function DeletePostView(s: Store, session: Session, me: Option<User>, pending: seq<Flash>,
                          postId: int): (r: Reply)
    ensures me.None? ==> r.response == Redirect(ToLogin) && r.store == s
    ensures me.Some? && PostOwner(s, postId).None? ==> r.response == NotFoundPage && r.store == s
    ensures me.Some? && PostOwner(s, postId).Some? && PostOwner(s, postId).value != me.value.id ==>
              r.response == ForbiddenPage && r.store == s && |r.logged| == 1
    ensures me.Some? && PostOwner(s, postId) == Some(me.value.id) ==>
              r.response == Redirect(ToHome) && r.store == DeletePost(s, postId)
              && r.flashes == pending + [Flash("success", "Post deleted successfully!")]
  {
    var g := PostOwnerRequired(s, me, postId, "delete_post",
                               (id: int) => Reply(Redirect(ToHome), DeletePost(s, id), session,
                                                  pending + [Flash("success", "Post deleted successfully!")], []));
    Settle(g, s, session, pending)
  }

  /** Whatever the outcome, `delete_post` keeps the store consistent. */
  lemma DeletePostViewKeepsValid(s: Store, session: Session, me: Option<User>, pending: seq<Flash>,
                                 postId: int)
    requires Valid(s)
    ensures Valid(DeletePostView(s, session, me, pending, postId).store)
  {
    DeletePostKeepsValid(s, postId);
  }

  /** The body of `edit_comment`, run once the owner check has passed: as
      `edit_post`, except that a saved edit goes to the comment's post. */
  function EditCommentBody(s: Store, session: Session, pending: seq<Flash>, commentId: int,
                           isPost: bool, text: Option<string>): (r: Reply)
    ensures r.session == session && r.logged == []
    ensures r.store != s ==> isPost && HasContent(text) && r.store == SetCommentText(s, commentId, Strip(text.value))
    ensures commentId !in CommentIds(s.comments) ==> r.response == NotFoundPage && r.store == s && r.flashes == pending
    ensures commentId in CommentIds(s.comments) && isPost && HasContent(text) ==>
              r.response == Redirect(ToPost(FindComment(s, commentId).value.postId))
              && r.store == SetCommentText(s, commentId, Strip(text.value))
              && r.flashes == pending + [Flash("success", "Comment updated successfully!")]
    ensures commentId in CommentIds(s.comments) && !(isPost && HasContent(text)) ==>
              r.response == Render(EditCommentPage) && r.store == s
              && r.flashes == if isPost then pending + [Flash("error", "Comment cannot be empty")] else pending
  {
    match FindComment(s, commentId)
    case None => Reply(NotFoundPage, s, session, pending, [])
    case Some(c) =>
      if !isPost then Reply(Render(EditCommentPage), s, session, pending, [])
      else if HasContent(text) then
        Reply(Redirect(ToPost(c.postId)), SetCommentText(s, commentId, Strip(text.value)), session,
              pending + [Flash("success", "Comment updated successfully!")], [])
      else Reply(Render(EditCommentPage), s, session, pending + [Flash("error", "Comment cannot be empty")], [])
  }

  /** `edit_comment` behind `comment_owner_required`. */
  function EditCommentView(s: Store, session: Session, me: Option<User>, pending: seq<Flash>,
                           commentId: int, isPost: bool, text: Option<string>): (r: Reply)
    ensures me.None? ==> r.response == Redirect(ToLogin) && r.store == s
    ensures me.Some? && CommentOwner(s, commentId).None? ==> r.response == NotFoundPage && r.store == s
    ensures me.Some? && CommentOwner(s, commentId).Some? && CommentOwner(s, commentId).value != me.value.id ==>
              r.response == ForbiddenPage && r.store == s && |r.logged| == 1
    ensures me.Some? && CommentOwner(s, commentId) == Some(me.value.id) ==>
              if isPost && HasContent(text) then
                r.store == SetCommentText(s, commentId, Strip(text.value))
                && r.response == Redirect(ToPost(FindComment(s, commentId).value.postId))
              else r.store == s && r.response == Render(EditCommentPage)
    ensures r.store != s ==> me.Some? && CommentOwner(s, commentId) == Some(me.value.id)
  {
    var g := CommentOwnerRequired(s, me, commentId, "edit_comment",
                                  (id: int) => EditCommentBody(s, session, pending, id, isPost, text));
    Settle(g, s, session, pending)
  }

  /** The body of `delete_comment`: the post id is read before the delete. */
  function DeleteCommentBody(s: Store, session: Session, pending: seq<Flash>, commentId: int): (r: Reply)
    ensures r.session == session && r.logged == []
    ensures r.store == s || r.store == DeleteComment(s, commentId)
    ensures r.response == NotFoundPage <==> commentId !in CommentIds(s.comments)
    ensures commentId !in CommentIds(s.comments) ==> r.store == s && r.flashes == pending
    ensures commentId in CommentIds(s.comments) ==>
              r.store == DeleteComment(s, commentId) && commentId !in CommentIds(r.store.comments)
              && r.response == Redirect(ToPost(FindComment(s, commentId).value.postId))
              && r.flashes == pending + [Flash("success", "Comment deleted successfully!")]
  {
    match FindComment(s, commentId)
    case None => Reply(NotFoundPage, s, session, pending, [])
    case Some(c) =>
      Reply(Redirect(ToPost(c.postId)), DeleteComment(s, commentId), session,
            pending + [Flash("success", "Comment deleted successfully!")], [])
  }

  /** `delete_comment` behind `comment_owner_required`. */
  function DeleteCommentView(s: Store, session: Session, me: Option<User>, pending: seq<Flash>,
                             commentId: int): (r: Reply)
    ensures me.None? ==> r.response == Redirect(ToLogin) && r.store == s
    ensures me.Some? && CommentOwner(s, commentId).None? ==> r.response == NotFoundPage && r.store == s
    ensures me.Some? && CommentOwner(s, commentId).Some? && CommentOwner(s, commentId).value != me.value.id ==>
              r.response == ForbiddenPage && r.store == s && |r.logged| == 1
    ensures me.Some? && CommentOwner(s, commentId) == Some(me.value.id) ==>
              r.store == DeleteComment(s, commentId)
              && r.response == Redirect(ToPost(FindComment(s, commentId).value.postId))
  {
    var g := CommentOwnerRequired(s, me, commentId, "delete_comment",
                                  (id: int) => DeleteCommentBody(s, session, pending, id));
    Settle(g, s, session, pending)
  }

  /** `index` follows the sign-in state the other views leave behind: after
      a successful login it goes home, after a logout to the login page. */
  lemma IndexFollowsSignIn(s: Store, session: Session, pending: seq<Flash>,
                           username: Option<string>, password: Option<string>)
    ensures var login := LoginView(s, session, pending, true, username, password);
            login.response == Redirect(ToHome) ==> IndexView(login.session) == Redirect(ToHome)
    ensures IndexView(LogoutView(s, session, pending).session) == Redirect(ToLogin)
  {
  }

  /** A logout is complete: the next unguarded view sees no user. */
  lemma LogoutThenHomeRedirects(s: Store, session: Session, pending: seq<Flash>, me: Option<User>)
    ensures var out := LogoutView(s, session, pending);
            HomeView(out.store, out.session, me, out.flashes).response == Redirect(ToLogin)
  {
  }

  /** Unfollowing keeps the store consistent, and it undoes a follow made
      through the view. */
  lemma UnfollowUndoesFollowView(s: Store, session: Session, me: User, pending: seq<Flash>, userId: int)
    requires Valid(s) && !IsFollowing(s, me.id, userId)
    ensures Valid(UnfollowUserView(s, session, Some(me), pending, userId).store)
    ensures var followed := FollowUserView(s, session, Some(me), pending, userId).store;
            UnfollowUserView(followed, session, Some(me), pending, userId).store == s
  {
    UnfollowKeepsValid(s, me.id, userId);
    var followed := FollowUserView(s, session, Some(me), pending, userId).store;
    if followed != s {
      UnfollowUndoesFollow(s, me.id, userId);
    }
  }

  /** A comment edit by its author leaves the comment findable with the
      stripped text and the store consistent. */
  lemma EditCommentStoresStripped(s: Store, session: Session, me: User, pending: seq<Flash>,
                                  c: Comment, text: Option<string>)
    requires Valid(s) && c in s.comments && c.userId == me.id && HasContent(text)
    ensures var t := EditCommentView(s, session, Some(me), pending, c.id, true, text).store;
            FindComment(t, c.id) == Some(c.(text := Strip(text.value))) && Valid(t)
  {
    FindCommentUnique(s, c);
    SetCommentTextFinds(s, c, Strip(text.value));
    SetCommentTextKeepsValid(s, c.id, Strip(text.value));
  }

  /** Whatever the outcome, `delete_comment` keeps the store consistent;
      when the author deletes, the comment is gone and no other comment is. */
  lemma DeleteCommentViewKeepsValid(s: Store, session: Session, me: Option<User>, pending: seq<Flash>,
                                    commentId: int)
    requires Valid(s)
    ensures var t := DeleteCommentView(s, session, me, pending, commentId).store;
            Valid(t)
            && (t != s ==> FindComment(t, commentId).None?
                           && forall c :: c in s.comments && c.id != commentId ==> FindComment(t, c.id) == Some(c))
  {
    DeleteCommentKeepsValid(s, commentId);
  }

  /** A post edit by its author leaves the post findable with the stripped caption. */
  lemma EditPostStoresStripped(s: Store, session: Session, me: User, pending: seq<Flash>,
                               p: Post, caption: Option<string>)
    requires UniquePosts(s.posts) && p in s.posts && p.userId == me.id && HasContent(caption)
    ensures var t := EditPostView(s, session, Some(me), pending, p.id, true, caption).store;
            FindPost(t, p.id) == Some(p.(caption := Strip(caption.value)))
  {
    FindPostUnique(s, p);
    SetCaptionFinds(s, p, Strip(caption.value));
  }
}
