/** The authentication gate: route classification and session resolution
    before every request, the login and logout transitions, and the
    decorators that guard a handler behind a login check or an ownership
    check. Each is a decision function from the request-scoped state to an
    outcome, the new state and the records it logs. */
module Auth {
  import opened Wrappers
  import opened Text
  import opened Json
  import opened Records
  import opened DomainEvents
  import opened Store

  /** The signed session cookie's keys this layer reads and writes. */
  datatype Session = Session(userId: Option<int>, nextUrl: Option<string>)

  /** The request-scoped state: the session and the current user (`g.current_user`). */
  datatype Ctx = Ctx(session: Session, currentUser: Option<User>)

  /** The message flashed with every redirect to the login page. */
  const LoginFlash: string := "Please login to access this page"

  const PublicRoutes: set<string> := {"login", "register", "static", "favicon"}

  /** `_requires_auth`: a missing (or empty) endpoint requires
      authentication; so does every endpoint outside the public routes. */
  function RequiresAuth(endpoint: Option<string>): (r: bool)
    ensures endpoint.None? ==> r
    ensures endpoint.Some? && endpoint.value in PublicRoutes ==> !r
  {
    if endpoint.None? || endpoint.value == [] then true
    else endpoint.value !in PublicRoutes
  }

  /** Exactly the four public endpoints skip authentication. */
  lemma PublicExactly(endpoint: Option<string>)
    ensures !RequiresAuth(endpoint) <==>
              endpoint == Some("login") || endpoint == Some("register")
              || endpoint == Some("static") || endpoint == Some("favicon")
  {
  }

  datatype Gate = Continue | RedirectToLogin

  /** What `before_request` leaves behind: whether the request proceeds, the
      request-scoped state, the flashed messages and the logged records. */
  /** A flashed message with its category (`flash(message, category)`). */
  datatype Flash = Flash(category: string, message: string)

  datatype Before = Before(gate: Gate, ctx: Ctx, flashes: seq<Flash>, records: seq<Record>)

  /** The record logged for a session naming a user that no longer exists.
      The id is removed from the session before it is read, so the record
      always carries `None` for it. */
  function InvalidSessionRecord(request: Request): (r: Record)
    ensures IsSecurityRecord(r) && r.attributes[0].value == Str("invalid_session")
    ensures r.attributes[4].value == Obj([Field("session_user_id", Null)])
  {
    SecurityEvent("invalid_session", "Session contained invalid user_id", None, None,
                  Some(request), Some([Field("session_user_id", Null)]))
  }

  /** Session resolution: the current user, the session with a stale id
      removed, and the records logged. */
  function ResolveSession(s: Store, session: Session, request: Request): (r: (Option<User>, Session, seq<Record>))
    ensures session.userId.None? ==> r == (None, session, [])
    ensures session.userId.Some? && session.userId.value in UserIds(s.users) ==>
              r.0.Some? && r.0.value in s.users && r.0.value.id == session.userId.value
              && r.1 == session && r.2 == []
    ensures session.userId.Some? && session.userId.value !in UserIds(s.users) ==>
              r == (None, session.(userId := None), [InvalidSessionRecord(request)])
  {
    match session.userId
    case None => (None, session, [])
    case Some(id) =>
      match FindUser(s, id)
      case Some(u) => (Some(u), session, [])
      case None => (None, session.(userId := None), [InvalidSessionRecord(request)])
  }

  /** `before_request`. The current user starts cleared; the static endpoint
      stops there. Otherwise the session is resolved, and a protected route
      with no current user records the URL for after login and redirects. */
  function BeforeRequest(s: Store, session: Session, request: Request): (r: Before)
    ensures request.endpoint == Some("static") ==> r == Before(Continue, Ctx(session, None), [], [])
    ensures r.gate == RedirectToLogin <==>
              request.endpoint != Some("static") && RequiresAuth(request.endpoint) && r.ctx.currentUser.None?
    ensures r.gate == RedirectToLogin ==>
              r.ctx.session.nextUrl == Some(request.url) && r.flashes == [Flash("error", LoginFlash)]
    ensures r.gate == Continue ==> r.flashes == [] && r.ctx.session.nextUrl == session.nextUrl
    ensures request.endpoint != Some("static") ==>
              var (user, resolved, logged) := ResolveSession(s, session, request);
              r.ctx.currentUser == user && r.records == logged
              && r.ctx.session.userId == resolved.userId
  {
    if request.endpoint == Some("static") then Before(Continue, Ctx(session, None), [], [])
    else
      var (user, resolved, logged) := ResolveSession(s, session, request);
      if RequiresAuth(request.endpoint) && user.None? then
        Before(RedirectToLogin, Ctx(resolved.(nextUrl := Some(request.url)), None), [Flash("error", LoginFlash)], logged)
      else
        Before(Continue, Ctx(resolved, user), [], logged)
  }

  /** A public endpoint never redirects, whatever the session holds. */
  lemma PublicNeverRedirects(s: Store, session: Session, request: Request)
    requires request.endpoint.Some? && request.endpoint.value in PublicRoutes
    ensures BeforeRequest(s, session, request).gate == Continue
  {
  }

  /** A stale session id is removed and logged exactly once, and on a
      protected route the request is sent to the login page. */
  lemma StaleSessionCleared(s: Store, session: Session, request: Request)
    requires request.endpoint != Some("static")
    requires session.userId.Some? && session.userId.value !in UserIds(s.users)
    ensures var r := BeforeRequest(s, session, request);
            r.ctx.session.userId.None? && r.ctx.currentUser.None?
            && |r.records| == 1 && r.records[0].attributes[0].value == Str("invalid_session")
            && (RequiresAuth(request.endpoint) ==> r.gate == RedirectToLogin)
  {
  }

  /** A request that continues past the gate on a protected route has a
      current user, and that user is the one the session names. */
  lemma ContinueHasSessionUser(s: Store, session: Session, request: Request)
    requires request.endpoint != Some("static") && RequiresAuth(request.endpoint)
    ensures var r := BeforeRequest(s, session, request);
            r.gate == Continue ==>
              r.ctx.currentUser.Some? && session.userId == Some(r.ctx.currentUser.value.id)
              && r.ctx.currentUser.value in s.users
  {
  }

  /** `teardown_request`: the current user is cleared; the session is kept. */
  function Teardown(ctx: Ctx): (r: Ctx)
    ensures r.session == ctx.session && r.currentUser.None?
  {
    ctx.(currentUser := None)
  }

  /** Clearing the user at the end of a request loses nothing: the session
      still names the user, so the next request, against the same store,
      resolves the same current user again. Tearing down twice is tearing
      down once. */
  lemma TeardownKeepsLogin(s: Store, session: Session, request: Request, next: Request)
    requires request.endpoint != Some("static") && next.endpoint != Some("static")
    ensures var ctx := BeforeRequest(s, session, request).ctx;
            var after := Teardown(ctx);
            Teardown(after) == after
            && BeforeRequest(s, after.session, next).ctx.currentUser == ctx.currentUser
  {
  }

  /** `login_user`: the session and the current user name the user, and a
      successful login is logged; `now` is the audit timestamp. */
  function LoginUser(ctx: Ctx, user: User, request: Request, now: string): (r: (Ctx, seq<Record>))
    ensures r.0.session == ctx.session.(userId := Some(user.id))
    ensures r.0.currentUser == Some(user)
    ensures r.1 == LoginAttempt(user.username, true, None, Some(user.id), request, now)
  {
    var session := ctx.session.(userId := Some(user.id));
    (Ctx(session, Some(user)), LoginAttempt(user.username, true, None, session.userId, request, now))
  }

  /** Because the session is written before the login is logged, the audit
      record names the user who logged in. */
  lemma LoginAuditNamesUser(ctx: Ctx, user: User, request: Request, now: string)
    ensures var logged := LoginUser(ctx, user, request, now).1;
            |logged| == 2 && IsAuditRecord(logged[0]) && logged[0].attributes[3].value == Int(user.id)
  {
  }

  /** `logout_user`: the session id and the current user are always cleared;
      a logout is logged only when a user was current. */
  function LogoutUser(ctx: Ctx, now: string): (r: (Ctx, seq<Record>))
    ensures r.0.session == ctx.session.(userId := None) && r.0.currentUser.None?
    ensures r.1 == [] <==> ctx.currentUser.None?
    ensures ctx.currentUser.Some? ==> r.1 == Logout(ctx.currentUser.value.id, ctx.currentUser.value.username, now)
  {
    var logged := match ctx.currentUser
      case None => []
      case Some(u) => Logout(u.id, u.username, now);
    (Ctx(ctx.session.(userId := None), None), logged)
  }

  /** Logging out twice is logging out once, with nothing more logged. */
  lemma LogoutIdempotent(ctx: Ctx, now: string)
    ensures var once := LogoutUser(ctx, now).0;
            LogoutUser(once, now) == (once, [])
  {
  }

  // ---------------------------------------------------------- decorators

  /** The outcome of a guarded handler: a redirect to login, a 404, a 403
      with the security record logged, or the handler's own result. */
  datatype Guarded<R> = LoginRedirect | NotFound | Forbidden(logged: Record) | Ran(result: R)

  /** `require_auth` and `login_required`: the handler runs exactly when a
      user is current. (`g.current_user` is either `None` or a user, which
      is truthy, so the two tests agree.) */
  function LoginRequired<R>(currentUser: Option<User>, handler: R): (r: Guarded<R>)
    ensures r.Ran? <==> currentUser.Some?
    ensures r.Ran? ==> r.result == handler
    ensures !r.Ran? ==> r == LoginRedirect
  {
    if currentUser.None? then LoginRedirect else Ran(handler)
  }

  /** The warning an ownership check logs on the security logger when the
      current user does not own the resource. */
  function UnauthorizedRecord(resourceType: string, resourceId: int, userId: int,
                              ownerId: int, attemptedAction: string): (r: Record)
    ensures r.logger == SecurityLogger && r.level == Warning && r.exception.None?
    ensures r.message == "Unauthorized " + resourceType + " access attempt"
    ensures Keys(r.attributes) ==
              ["event_type", "resource_type", "resource_id", "user_id", "owner_id", "attempted_action"]
    ensures r.attributes[0].value == Str("unauthorized_access")
    ensures r.attributes[1].value == Str(resourceType) && r.attributes[2].value == Int(resourceId)
    ensures r.attributes[3].value == Int(userId) && r.attributes[4].value == Int(ownerId)
    ensures r.attributes[5].value == Str(attemptedAction)
  {
    Record(SecurityLogger, Warning, "Unauthorized " + resourceType + " access attempt",
      [Field("event_type", Str("unauthorized_access")),
       Field("resource_type", Str(resourceType)),
       Field("resource_id", Int(resourceId)),
       Field("user_id", Int(userId)),
       Field("owner_id", Int(ownerId)),
       Field("attempted_action", Str(attemptedAction))],
      None)
  }

  /** The ordered checks shared by both ownership decorators: logged in, then
      the resource exists (its owner is known), then the owner is the
      current user. `handler` is called with the id only when all pass. */
  function OwnerRequired<R>(resourceType: string, currentUser: Option<User>, id: int,
                            owner: Option<int>, attemptedAction: string, handler: int -> R): (r: Guarded<R>)
    ensures currentUser.None? <==> r == LoginRedirect
    ensures r == NotFound <==> currentUser.Some? && owner.None?
    ensures r.Forbidden? <==> currentUser.Some? && owner.Some? && owner.value != currentUser.value.id
    ensures r.Forbidden? ==>
              r.logged == UnauthorizedRecord(resourceType, id, currentUser.value.id, owner.value, attemptedAction)
    ensures r.Ran? <==> currentUser.Some? && owner == Some(currentUser.value.id)
    ensures r.Ran? ==> r.result == handler(id)
  {
    match currentUser
    case None => LoginRedirect
    case Some(u) =>
      match owner
      case None => NotFound
      case Some(o) =>
        if o != u.id then Forbidden(UnauthorizedRecord(resourceType, id, u.id, o, attemptedAction))
        else Ran(handler(id))
  }

  /** The owner of a post, if the post exists (`Post.query.get_or_404`). */
  function PostOwner(s: Store, postId: int): (r: Option<int>)
    ensures r.None? <==> postId !in PostIds(s.posts)
    ensures r.Some? ==> exists p :: p in s.posts && p.id == postId && p.userId == r.value
  {
    match FindPost(s, postId)
    case None => None
    case Some(p) => Some(p.userId)
  }

  function CommentOwner(s: Store, commentId: int): (r: Option<int>)
    ensures r.None? <==> commentId !in CommentIds(s.comments)
    ensures r.Some? ==> exists c :: c in s.comments && c.id == commentId && c.userId == r.value
  {
    match FindComment(s, commentId)
    case None => None
    case Some(c) => Some(c.userId)
  }

  /** `post_owner_required`; `attemptedAction` is the wrapped handler's
      name. An anonymous request goes to the login page; a signed-in user
      gets a 404 for a missing post, a 403 (with the warning naming the
      post's author) for someone else's post, and the handler for their own
      post. */
  function PostOwnerRequired<R>(s: Store, currentUser: Option<User>, postId: int,
                                attemptedAction: string, handler: int -> R): (r: Guarded<R>)
    ensures currentUser.None? <==> r == LoginRedirect
    ensures r == NotFound <==> currentUser.Some? && postId !in PostIds(s.posts)
    ensures r.Forbidden? ==>
              currentUser.Some? && FindPost(s, postId).Some?
              && FindPost(s, postId).value.userId != currentUser.value.id
              && r.logged == UnauthorizedRecord("post", postId, currentUser.value.id,
                                                FindPost(s, postId).value.userId, attemptedAction)
    ensures r.Ran? ==> r.result == handler(postId)
    ensures r.Ran? ==>
              currentUser.Some? && exists p :: p in s.posts && p.id == postId && p.userId == currentUser.value.id
    ensures UniquePosts(s.posts) ==>
              (r.Ran? <==> currentUser.Some?
                           && exists p :: p in s.posts && p.id == postId && p.userId == currentUser.value.id)
  {
    assert UniquePosts(s.posts) ==> forall p :: p in s.posts && p.id == postId ==> FindPost(s, postId) == Some(p) by {
      if UniquePosts(s.posts) {
        forall p | p in s.posts && p.id == postId ensures FindPost(s, postId) == Some(p) {
          FindPostUnique(s, p);
        }
      }
    }
    OwnerRequired("post", currentUser, postId, PostOwner(s, postId), attemptedAction, handler)
  }

  /** `comment_owner_required`: the same checks with `resource_type='comment'`. */
  function CommentOwnerRequired<R>(s: Store, currentUser: Option<User>, commentId: int,
                                   attemptedAction: string, handler: int -> R): (r: Guarded<R>)
    ensures currentUser.None? <==> r == LoginRedirect
    ensures r == NotFound <==> currentUser.Some? && commentId !in CommentIds(s.comments)
    ensures r.Forbidden? ==>
              currentUser.Some? && FindComment(s, commentId).Some?
              && FindComment(s, commentId).value.userId != currentUser.value.id
              && r.logged == UnauthorizedRecord("comment", commentId, currentUser.value.id,
                                                FindComment(s, commentId).value.userId, attemptedAction)
    ensures r.Ran? ==> r.result == handler(commentId)
    ensures r.Ran? ==>
              currentUser.Some? && exists c :: c in s.comments && c.id == commentId && c.userId == currentUser.value.id
    ensures UniqueComments(s.comments) ==>
              (r.Ran? <==> currentUser.Some?
                           && exists c :: c in s.comments && c.id == commentId && c.userId == currentUser.value.id)
  {
    assert UniqueComments(s.comments) ==>
             forall c :: c in s.comments && c.id == commentId ==> FindComment(s, commentId) == Some(c) by {
      if UniqueComments(s.comments) {
        forall c | c in s.comments && c.id == commentId ensures FindComment(s, commentId) == Some(c) {
          FindCommentUnique(s, c);
        }
      }
    }
    OwnerRequired("comment", currentUser, commentId, CommentOwner(s, commentId), attemptedAction, handler)
  }

  /** In a store with unique ids, the post guard runs the handler exactly
      for the post's author. */
  lemma PostGuardAdmitsOwnerOnly<R>(s: Store, u: User, p: Post, action: string, handler: int -> R)
    requires UniquePosts(s.posts) && p in s.posts
    ensures PostOwnerRequired(s, Some(u), p.id, action, handler).Ran? <==> p.userId == u.id
    ensures p.userId != u.id ==>
              PostOwnerRequired(s, Some(u), p.id, action, handler).logged.attributes[4].value == Int(p.userId)
  {
    FindPostUnique(s, p);
  }

  lemma CommentGuardAdmitsOwnerOnly<R>(s: Store, u: User, c: Comment, action: string, handler: int -> R)
    requires UniqueComments(s.comments) && c in s.comments
    ensures CommentOwnerRequired(s, Some(u), c.id, action, handler).Ran? <==> c.userId == u.id
    ensures c.userId != u.id ==>
              CommentOwnerRequired(s, Some(u), c.id, action, handler).logged.attributes[4].value == Int(c.userId)
  {
    FindCommentUnique(s, c);
  }

  /** The decorators' warning and `log_unauthorized_access` describe a
      refusal alike: same logger and level, same event type, and the same
      resource type, attempted action and user. */
  lemma UnauthorizedRecordsAgree(resourceType: string, resourceId: int, userId: int, ownerId: int,
                                 attemptedAction: string, request: Request)
    ensures var d := UnauthorizedRecord(resourceType, resourceId, userId, ownerId, attemptedAction);
            var h := UnauthorizedAccess(resourceType, IntToString(resourceId), attemptedAction,
                                        Some(userId), request)[0];
            d.logger == h.logger && d.level == h.level && d.attributes[0] == h.attributes[0]
            && h.attributes[2].value == d.attributes[3].value
            && Get(h.attributes[4].value.fields, "resource_type") == Some(d.attributes[1].value)
            && Get(h.attributes[4].value.fields, "attempted_action") == Some(d.attributes[5].value)
  {
    var h := UnauthorizedAccess(resourceType, IntToString(resourceId), attemptedAction, Some(userId), request)[0];
    GetFirst(h.attributes[4].value.fields, "attempted_action", 2);
  }

  /** Any outcome other than running the handler is independent of it. */
  lemma RejectionIgnoresHandler<R>(resourceType: string, currentUser: Option<User>, id: int,
                                   owner: Option<int>, action: string, h1: int -> R, h2: int -> R)
    requires !OwnerRequired(resourceType, currentUser, id, owner, action, h1).Ran?
    ensures OwnerRequired(resourceType, currentUser, id, owner, action, h1)
            == OwnerRequired(resourceType, currentUser, id, owner, action, h2)
  {
  }
}
