/** The application's domain-event log: for each user-visible operation, the
    audit, security, business and performance records it emits, and the two
    wrappers that time a call and log its outcome. */
module DomainEvents {
  import opened Wrappers
  import opened Text
  import opened Json
  import opened Records

  /** The module logger the domain events' own records go to. */
  const DomainLogger: string := "social_media_logger"

  /** An elapsed time: its value in milliseconds rounded to two places, and
      that value rendered with two decimals. */
  datatype Duration = Duration(ms: real, text: string)

  // --------------------------------------------------------- authentication

  /** `log_login_attempt`. `sessionUserId` is the session's user id when the
      event is logged. */
  function LoginAttempt(username: string, success: bool, failureReason: Option<string>,
                        sessionUserId: Option<int>, request: Request, now: string): (r: seq<Record>)
    ensures success ==> |r| == 2
    ensures success ==> IsAuditRecord(r[0]) && r[0].attributes[0].value == Str("login")
                        && r[0].attributes[1].value == Str("user_session")
                        && r[0].attributes[3].value == OptInt(sessionUserId)
                        && r[0].attributes[4].value == Obj([Field("status", Str("logged_in"))])
    ensures success ==> r[1].logger == DomainLogger && r[1].level == Info && |r[1].attributes| == 4
                        && r[1].message == "User login successful: " + username
                        && r[1].attributes[0] == Field("event_type", Str("login_success"))
    ensures !success ==> |r| == 1 && IsSecurityRecord(r[0])
                         && r[0].attributes[0].value == Str("failed_login")
                         && r[0].attributes[1].value == Str("Failed login attempt for username: " + username)
                         && r[0].attributes[4].value ==
                              Obj([Field("username", Str(username)),
                                   Field("failure_reason", OptStr(failureReason)),
                                   Field("user_agent", Str(request.userAgent))])
  {
    if success then
      [AuditEvent("login", "user_session", None, sessionUserId,
                  Some([Field("status", Str("logged_in"))]), now),
       Record(DomainLogger, Info, "User login successful: " + username,
         [Field("event_type", Str("login_success")),
          Field("username", Str(username)),
          Field("ip_address", OptStr(request.remoteAddr)),
          Field("user_agent", Str(request.userAgent))],
         None)]
    else
      [SecurityEvent("failed_login", "Failed login attempt for username: " + username, None, None,
                     Some(request),
                     Some([Field("username", Str(username)),
                           Field("failure_reason", OptStr(failureReason)),
                           Field("user_agent", Str(request.userAgent))]))]
  }

  /** A login attempt reaches the security log exactly when it fails. */
  lemma LoginSecurityIffFailure(username: string, success: bool, failureReason: Option<string>,
                                sessionUserId: Option<int>, request: Request, now: string)
    ensures var r := LoginAttempt(username, success, failureReason, sessionUserId, request, now);
            (exists i :: 0 <= i < |r| && r[i].logger == SecurityLogger) <==> !success
  {
    var r := LoginAttempt(username, success, failureReason, sessionUserId, request, now);
    if success {
      assert AuditLogger[0] != SecurityLogger[0];
      assert DomainLogger[1] != SecurityLogger[1];
      assert forall i :: 0 <= i < |r| ==> r[i].logger != SecurityLogger;
    } else {
      assert IsSecurityRecord(r[0]);
    }
  }

  /** `log_logout`. */
  function Logout(userId: int, username: string, now: string): (r: seq<Record>)
    ensures |r| == 2
    ensures IsAuditRecord(r[0]) && r[0].attributes[0].value == Str("logout")
                        && r[0].attributes[1].value == Str("user_session")
    ensures r[0].attributes[3].value == Int(userId)
    ensures r[0].attributes[4].value == Obj([Field("status", Str("logged_out"))])
    ensures r[1].logger == DomainLogger && r[1].message == "User logout: " + username
    ensures r[1].attributes == [Field("event_type", Str("logout")), Field("user_id", Int(userId)),
                                Field("username", Str(username))]
  {
    [AuditEvent("logout", "user_session", None, Some(userId),
                Some([Field("status", Str("logged_out"))]), now),
     Record(DomainLogger, Info, "User logout: " + username,
       [Field("event_type", Str("logout")),
        Field("user_id", Int(userId)),
        Field("username", Str(username))],
       None)]
  }

  /** `log_registration`. The audit record names the new user as its
      resource but, as written, carries no acting user id. */
  function Registration(username: string, userId: int, request: Request, now: string): (r: seq<Record>)
    ensures |r| == 2 && IsBusinessRecord(r[1], DomainLogger)
    ensures IsAuditRecord(r[0]) && r[0].attributes[0].value == Str("create")
                        && r[0].attributes[1].value == Str("user")
    ensures r[0].attributes[2].value == Str(IntToString(userId))
    ensures r[0].attributes[3].value == Null
    ensures r[0].attributes[4].value == Obj([Field("username", Str(username)), Field("status", Str("registered"))])
    ensures IsBusinessRecord(r[1], DomainLogger) && r[1].attributes[1].value == Str("user_registered")
    ensures r[1].attributes[2].value ==
              Obj([Field("user_id", Int(userId)), Field("username", Str(username)),
                   Field("registration_ip", OptStr(request.remoteAddr))])
  {
    [AuditEvent("create", "user", Some(IntToString(userId)), None,
                Some([Field("username", Str(username)), Field("status", Str("registered"))]), now),
     BusinessEvent(DomainLogger, "user_registered",
       [Field("user_id", Int(userId)), Field("username", Str(username)),
        Field("registration_ip", OptStr(request.remoteAddr))])]
  }

  /** A registration's audit record and business event name the same user:
      the audit resource id parses back to the id in the business details,
      and both carry the username. */
  lemma RegistrationRecordsAgree(username: string, userId: int, request: Request, now: string)
    ensures var r := Registration(username, userId, request, now);
            ParseInt(r[0].attributes[2].value.s) == userId
            && Get(r[1].attributes[2].value.fields, "user_id") == Some(Int(userId))
            && Get(r[0].attributes[4].value.fields, "username") == Some(Str(username))
            && Get(r[1].attributes[2].value.fields, "username") == Some(Str(username))
  {
    IntRoundTrip(userId);
  }

  /** The login audit record, written once the session holds the user, and
      the logout audit record of the same user form a pair: same resource
      type, same user id, opposite actions and statuses. */
  lemma LoginLogoutAuditPair(username: string, userId: int, failureReason: Option<string>,
                             request: Request, loginTime: string, logoutTime: string)
    ensures var login := LoginAttempt(username, true, failureReason, Some(userId), request, loginTime)[0];
            var logout := Logout(userId, username, logoutTime)[0];
            login.attributes[1] == logout.attributes[1] && login.attributes[3] == logout.attributes[3]
            && login.attributes[0].value == Str("login") && logout.attributes[0].value == Str("logout")
            && login.attributes[4] != logout.attributes[4]
  {
    var login := LoginAttempt(username, true, failureReason, Some(userId), request, loginTime)[0];
    var logout := Logout(userId, username, logoutTime)[0];
    assert login.attributes[4].value.fields[0].value.s[7] != logout.attributes[4].value.fields[0].value.s[7];
  }

  // ------------------------------------------------------------------ posts

  /** `log_post_creation`. */
  function PostCreation(postId: int, userId: int, captionLength: int, now: string): (r: seq<Record>)
    ensures |r| == 2 && IsBusinessRecord(r[1], DomainLogger)
    ensures IsAuditRecord(r[0]) && r[0].attributes[0].value == Str("create")
                        && r[0].attributes[1].value == Str("post")
    ensures r[0].attributes[2].value == Str(IntToString(postId))
    ensures r[0].attributes[3].value == Int(userId)
    ensures IsBusinessRecord(r[1], DomainLogger) && r[1].attributes[1].value == Str("post_created")
  {
    [AuditEvent("create", "post", Some(IntToString(postId)), Some(userId),
                Some([Field("caption_length", Int(captionLength))]), now),
     BusinessEvent(DomainLogger, "post_created",
       [Field("post_id", Int(postId)), Field("user_id", Int(userId)),
        Field("caption_length", Int(captionLength))])]
  }

  /** The audit resource id of a created post is its id in decimal: it
      parses back to the id, so distinct posts get distinct resource ids. */
  lemma PostResourceIdRoundTrip(postId: int, userId: int, captionLength: int, now: string)
    ensures var id := PostCreation(postId, userId, captionLength, now)[0].attributes[2].value.s;
            |id| > 0 && (IsDigit(id[0]) || id[0] == '-') && forall i :: 0 < i < |id| ==> IsDigit(id[i])
    ensures ParseInt(PostCreation(postId, userId, captionLength, now)[0].attributes[2].value.s) == postId
  {
    IntRoundTrip(postId);
    IntShape(postId);
  }

  /** `log_post_edit`: the records carry the captions' lengths and whether
      the caption changed, never the captions themselves. The clock is read
      twice: `changedAt` for `modified_at` in the changes, then `now` inside
      `log_audit_event` for the audit timestamp. */
  function PostEdit(postId: int, userId: int, oldCaption: string, newCaption: string,
                    changedAt: string, now: string): (r: seq<Record>)
    ensures |r| == 2 && IsBusinessRecord(r[1], DomainLogger)
    ensures IsAuditRecord(r[0]) && r[0].attributes[0].value == Str("update")
                        && r[0].attributes[1].value == Str("post")
    ensures r[0].attributes[4].value ==
              Obj([Field("old_caption_length", Int(|oldCaption|)),
                   Field("new_caption_length", Int(|newCaption|)),
                   Field("modified_at", Str(changedAt))])
    ensures r[0].attributes[5] == Field("timestamp", Str(now))
    ensures r[1].attributes[2].value ==
              Obj([Field("post_id", Int(postId)), Field("user_id", Int(userId)),
                   Field("caption_changed", Bool(oldCaption != newCaption))])
  {
    [AuditEvent("update", "post", Some(IntToString(postId)), Some(userId),
                Some([Field("old_caption_length", Int(|oldCaption|)),
                      Field("new_caption_length", Int(|newCaption|)),
                      Field("modified_at", Str(changedAt))]), now),
     BusinessEvent(DomainLogger, "post_edited",
       [Field("post_id", Int(postId)), Field("user_id", Int(userId)),
        Field("caption_changed", Bool(oldCaption != newCaption))])]
  }

  /** Edit records reveal nothing about the texts beyond their lengths and
      whether they differ: any two edits that agree on those log the same. */
  lemma EditRecordsRevealOnlyLengths(postId: int, userId: int, o1: string, n1: string,
                                     o2: string, n2: string, changedAt: string, now: string)
    requires |o1| == |o2| && |n1| == |n2| && (o1 != n1 <==> o2 != n2)
    ensures PostEdit(postId, userId, o1, n1, changedAt, now) == PostEdit(postId, userId, o2, n2, changedAt, now)
    ensures CommentEdit(postId, userId, o1, n1, changedAt, now) == CommentEdit(postId, userId, o2, n2, changedAt, now)
  {
  }

  /** `log_post_deletion`: the audit trail keeps the engagement the post
      had. `deletedAt` is the helper's own clock read, `now` the later one
      inside `log_audit_event`. */
  function PostDeletion(postId: int, userId: int, likesCount: int, commentsCount: int,
                        deletedAt: string, now: string): (r: seq<Record>)
    ensures |r| == 2 && IsBusinessRecord(r[1], DomainLogger)
    ensures IsAuditRecord(r[0]) && r[0].attributes[0].value == Str("delete")
                        && r[0].attributes[1].value == Str("post")
    ensures r[0].attributes[2].value == Str(IntToString(postId))
    ensures r[0].attributes[3].value == Int(userId)
    ensures r[0].attributes[4].value ==
              Obj([Field("likes_count", Int(likesCount)), Field("comments_count", Int(commentsCount)),
                   Field("deleted_at", Str(deletedAt))])
    ensures r[0].attributes[5] == Field("timestamp", Str(now))
    ensures r[1].attributes[1].value == Str("post_deleted")
    ensures r[1].attributes[2].value ==
              Obj([Field("post_id", Int(postId)), Field("user_id", Int(userId)),
                   Field("engagement_lost", Obj([Field("likes", Int(likesCount)),
                                                 Field("comments", Int(commentsCount))]))])
  {
    [AuditEvent("delete", "post", Some(IntToString(postId)), Some(userId),
                Some([Field("likes_count", Int(likesCount)), Field("comments_count", Int(commentsCount)),
                      Field("deleted_at", Str(deletedAt))]), now),
     BusinessEvent(DomainLogger, "post_deleted",
       [Field("post_id", Int(postId)), Field("user_id", Int(userId)),
        Field("engagement_lost", Obj([Field("likes", Int(likesCount)),
                                      Field("comments", Int(commentsCount))]))])]
  }

  /** A post deletion's audit record and business event agree on the post,
      the user and the engagement lost: the audit resource id parses back to
      the post id, and both carry the same like and comment counts. */
  lemma PostDeletionRecordsAgree(postId: int, userId: int, likesCount: int, commentsCount: int,
                                 deletedAt: string, now: string)
    ensures var r := PostDeletion(postId, userId, likesCount, commentsCount, deletedAt, now);
            var changes := r[0].attributes[4].value.fields;
            var details := r[1].attributes[2].value.fields;
            ParseInt(r[0].attributes[2].value.s) == postId
            && Get(details, "post_id") == Some(Int(postId))
            && Get(details, "user_id") == Some(r[0].attributes[3].value)
            && Get(changes, "likes_count") == Some(Int(likesCount))
            && Get(changes, "comments_count") == Some(Int(commentsCount))
            && Get(details, "engagement_lost")
               == Some(Obj([Field("likes", Int(likesCount)), Field("comments", Int(commentsCount))]))
  {
    IntRoundTrip(postId);
  }

  // ------------------------------------------------------------------ likes

  /** `log_like_action`; `action` is `like` or `unlike` at the call sites. */
  function LikeAction(postId: int, userId: int, action: string, now: string): (r: seq<Record>)
    ensures |r| == 2 && IsBusinessRecord(r[1], DomainLogger)
    ensures IsAuditRecord(r[0]) && r[0].attributes[0].value == Str(action)
    ensures r[0].attributes[1].value == Str("like")
    ensures r[0].attributes[2].value == Str(PairId(userId, postId))
    ensures r[0].attributes[3].value == Int(userId)
    ensures IsBusinessRecord(r[1], DomainLogger) && r[1].attributes[1].value == Str("post_" + action + "d")
  {
    [AuditEvent(action, "like", Some(PairId(userId, postId)), Some(userId),
                Some([Field("post_id", Int(postId)), Field("action", Str(action))]), now),
     BusinessEvent(DomainLogger, "post_" + action + "d",
       [Field("post_id", Int(postId)), Field("user_id", Int(userId)),
        Field("engagement_type", Str("like"))])]
  }

  /** A like's audit resource id identifies the (user, post) pair. */
  lemma LikeResourceIdIdentifiesPair(p1: int, u1: int, a1: string, p2: int, u2: int, a2: string, now: string)
    requires LikeAction(p1, u1, a1, now)[0].attributes[2] == LikeAction(p2, u2, a2, now)[0].attributes[2]
    ensures p1 == p2 && u1 == u2
  {
    PairIdInjective(u1, p1, u2, p2);
  }

  // --------------------------------------------------------------- comments

  /** `log_comment_creation`. */
  function CommentCreation(commentId: int, postId: int, userId: int, textLength: int,
                           now: string): (r: seq<Record>)
    ensures |r| == 2 && IsBusinessRecord(r[1], DomainLogger)
    ensures IsAuditRecord(r[0]) && r[0].attributes[0].value == Str("create")
                        && r[0].attributes[1].value == Str("comment")
    ensures r[0].attributes[2].value == Str(IntToString(commentId))
    ensures r[0].attributes[4].value ==
              Obj([Field("post_id", Int(postId)), Field("text_length", Int(textLength))])
    ensures r[0].attributes[3].value == Int(userId)
    ensures r[1].attributes[1].value == Str("comment_created")
    ensures r[1].attributes[2].value ==
              Obj([Field("comment_id", Int(commentId)), Field("post_id", Int(postId)),
                   Field("user_id", Int(userId)), Field("text_length", Int(textLength)),
                   Field("engagement_type", Str("comment"))])
  {
    [AuditEvent("create", "comment", Some(IntToString(commentId)), Some(userId),
                Some([Field("post_id", Int(postId)), Field("text_length", Int(textLength))]), now),
     BusinessEvent(DomainLogger, "comment_created",
       [Field("comment_id", Int(commentId)), Field("post_id", Int(postId)),
        Field("user_id", Int(userId)), Field("text_length", Int(textLength)),
        Field("engagement_type", Str("comment"))])]
  }

  /** A comment's audit record and business event agree on the comment and
      its author: the audit resource id parses back to the comment id of the
      business details. */
  lemma CommentCreationRecordsAgree(commentId: int, postId: int, userId: int, textLength: int, now: string)
    ensures var r := CommentCreation(commentId, postId, userId, textLength, now);
            var details := r[1].attributes[2].value.fields;
            ParseInt(r[0].attributes[2].value.s) == commentId
            && Get(details, "comment_id") == Some(Int(commentId))
            && Get(details, "user_id") == Some(r[0].attributes[3].value)
  {
    IntRoundTrip(commentId);
  }

  /** ... and on the comment's post and length. */
  lemma CommentCreationContentAgrees(commentId: int, postId: int, userId: int, textLength: int, now: string)
    ensures var r := CommentCreation(commentId, postId, userId, textLength, now);
            var changes := r[0].attributes[4].value.fields;
            var details := r[1].attributes[2].value.fields;
            Get(details, "post_id") == Get(changes, "post_id") == Some(Int(postId))
            && Get(details, "text_length") == Get(changes, "text_length") == Some(Int(textLength))
  {
    var r := CommentCreation(commentId, postId, userId, textLength, now);
    var details := r[1].attributes[2].value.fields;
    GetFirst(details, "post_id", 1);
    GetFirst(details, "text_length", 3);
  }

  /** `log_comment_edit`: lengths and the changed flag, never the text;
      the two clock reads as in `PostEdit`. */
  function CommentEdit(commentId: int, userId: int, oldText: string, newText: string,
                       changedAt: string, now: string): (r: seq<Record>)
    ensures |r| == 2 && IsBusinessRecord(r[1], DomainLogger)
    ensures IsAuditRecord(r[0]) && r[0].attributes[0].value == Str("update")
                        && r[0].attributes[1].value == Str("comment")
    ensures r[0].attributes[4].value ==
              Obj([Field("old_text_length", Int(|oldText|)),
                   Field("new_text_length", Int(|newText|)),
                   Field("modified_at", Str(changedAt))])
    ensures r[0].attributes[5] == Field("timestamp", Str(now))
    ensures r[1].attributes[2].value ==
              Obj([Field("comment_id", Int(commentId)), Field("user_id", Int(userId)),
                   Field("text_changed", Bool(oldText != newText))])
  {
    [AuditEvent("update", "comment", Some(IntToString(commentId)), Some(userId),
                Some([Field("old_text_length", Int(|oldText|)),
                      Field("new_text_length", Int(|newText|)),
                      Field("modified_at", Str(changedAt))]), now),
     BusinessEvent(DomainLogger, "comment_edited",
       [Field("comment_id", Int(commentId)), Field("user_id", Int(userId)),
        Field("text_changed", Bool(oldText != newText))])]
  }

  /** `log_comment_deletion`; the two clock reads as in `PostDeletion`. */
  function CommentDeletion(commentId: int, postId: int, userId: int, deletedAt: string, now: string): (r: seq<Record>)
    ensures |r| == 2 && IsBusinessRecord(r[1], DomainLogger)
    ensures IsAuditRecord(r[0]) && r[0].attributes[0].value == Str("delete")
                        && r[0].attributes[1].value == Str("comment")
    ensures r[0].attributes[2].value == Str(IntToString(commentId))
    ensures r[0].attributes[4].value == Obj([Field("post_id", Int(postId)), Field("deleted_at", Str(deletedAt))])
    ensures r[0].attributes[5] == Field("timestamp", Str(now))
    ensures r[0].attributes[3].value == Int(userId)
    ensures r[1].attributes[1].value == Str("comment_deleted")
    ensures r[1].attributes[2].value ==
              Obj([Field("comment_id", Int(commentId)), Field("post_id", Int(postId)),
                   Field("user_id", Int(userId))])
  {
    [AuditEvent("delete", "comment", Some(IntToString(commentId)), Some(userId),
                Some([Field("post_id", Int(postId)), Field("deleted_at", Str(deletedAt))]), now),
     BusinessEvent(DomainLogger, "comment_deleted",
       [Field("comment_id", Int(commentId)), Field("post_id", Int(postId)),
        Field("user_id", Int(userId))])]
  }

  /** A comment deletion's audit record and business event agree on the
      comment, its post and the user. */
  lemma CommentDeletionRecordsAgree(commentId: int, postId: int, userId: int, deletedAt: string, now: string)
    ensures var r := CommentDeletion(commentId, postId, userId, deletedAt, now);
            var changes := r[0].attributes[4].value.fields;
            var details := r[1].attributes[2].value.fields;
            ParseInt(r[0].attributes[2].value.s) == commentId
            && Get(details, "comment_id") == Some(Int(commentId))
            && Get(details, "user_id") == Some(r[0].attributes[3].value)
            && Get(details, "post_id") == Get(changes, "post_id") == Some(Int(postId))
  {
    IntRoundTrip(commentId);
  }

  // ---------------------------------------------------------------- follows

  /** `log_follow_action`; `action` is `follow` or `unfollow` at the call sites. */
  function FollowAction(followerId: int, followedId: int, action: string, now: string): (r: seq<Record>)
    ensures |r| == 2 && IsBusinessRecord(r[1], DomainLogger)
    ensures IsAuditRecord(r[0]) && r[0].attributes[0].value == Str(action)
    ensures r[0].attributes[1].value == Str("follow_relationship")
    ensures r[0].attributes[2].value == Str(PairId(followerId, followedId))
    ensures r[0].attributes[3].value == Int(followerId)
    ensures r[1].attributes[1].value == Str("user_" + action + "ed")
  {
    [AuditEvent(action, "follow_relationship", Some(PairId(followerId, followedId)), Some(followerId),
                Some([Field("followed_user_id", Int(followedId)), Field("action", Str(action))]), now),
     BusinessEvent(DomainLogger, "user_" + action + "ed",
       [Field("follower_id", Int(followerId)), Field("followed_id", Int(followedId)),
        Field("relationship_action", Str(action))])]
  }

  /** A follow's audit resource id identifies the ordered pair: the edges
      a->b and b->a get different ids unless a == b. */
  lemma FollowResourceIdIdentifiesEdge(a1: int, b1: int, x1: string, a2: int, b2: int, x2: string, now: string)
    requires FollowAction(a1, b1, x1, now)[0].attributes[2] == FollowAction(a2, b2, x2, now)[0].attributes[2]
    ensures a1 == a2 && b1 == b2
  {
    PairIdInjective(a1, b1, a2, b2);
  }

  // --------------------------------------------------------------- security

  /** `log_unauthorized_access`, inside a request. */
  function UnauthorizedAccess(resourceType: string, resourceId: string, attemptedAction: string,
                              userId: Option<int>, request: Request): (r: seq<Record>)
    ensures |r| == 1 && IsSecurityRecord(r[0])
    ensures r[0].attributes[0].value == Str("unauthorized_access")
    ensures r[0].attributes[1].value == Str("Unauthorized " + attemptedAction + " attempt on " + resourceType)
    ensures r[0].attributes[2].value == OptInt(userId)
    ensures r[0].attributes[4].value ==
              Obj([Field("resource_type", Str(resourceType)), Field("resource_id", Str(resourceId)),
                   Field("attempted_action", Str(attemptedAction)),
                   Field("endpoint", OptStr(request.endpoint)), Field("method", Str(request.httpMethod))])
  {
    [SecurityEvent("unauthorized_access",
                   "Unauthorized " + attemptedAction + " attempt on " + resourceType,
                   userId, None, Some(request),
                   Some([Field("resource_type", Str(resourceType)), Field("resource_id", Str(resourceId)),
                         Field("attempted_action", Str(attemptedAction)),
                         Field("endpoint", OptStr(request.endpoint)),
                         Field("method", Str(request.httpMethod))]))]
  }

  /** `log_suspicious_activity`; `referer` is the Referer header, `''` when absent. */
  function SuspiciousActivity(activityType: string, description: string, userId: Option<int>,
                              riskScore: Option<int>, request: Request, referer: string): (r: seq<Record>)
    ensures |r| == 1 && IsSecurityRecord(r[0])
    ensures r[0].attributes[0].value == Str("suspicious_activity")
    ensures r[0].attributes[1].value == Str(description)
    ensures r[0].attributes[4].value ==
              Obj([Field("activity_type", Str(activityType)), Field("risk_score", OptInt(riskScore)),
                   Field("user_agent", Str(request.userAgent)), Field("referer", Str(referer))])
  {
    [SecurityEvent("suspicious_activity", description, userId, None, Some(request),
                   Some([Field("activity_type", Str(activityType)), Field("risk_score", OptInt(riskScore)),
                         Field("user_agent", Str(request.userAgent)), Field("referer", Str(referer))]))]
  }

  /** Every security record a helper writes inside a request takes its IP
      address from the request, since none of them passes one explicitly. */
  lemma SecurityRecordsCarryRemoteAddress(request: Request, username: string, failureReason: Option<string>,
                                          sessionUserId: Option<int>, now: string,
                                          resourceType: string, resourceId: string, attemptedAction: string,
                                          userId: Option<int>, activityType: string, description: string,
                                          riskScore: Option<int>, referer: string)
    ensures LoginAttempt(username, false, failureReason, sessionUserId, request, now)[0].attributes[3].value
         == OptStr(request.remoteAddr)
    ensures UnauthorizedAccess(resourceType, resourceId, attemptedAction, userId, request)[0].attributes[3].value
         == OptStr(request.remoteAddr)
    ensures SuspiciousActivity(activityType, description, userId, riskScore, request, referer)[0].attributes[3].value
         == OptStr(request.remoteAddr)
  {
  }

  // ------------------------------------------------------------ performance

  /** `log_database_query`. */
  function DatabaseQuery(queryType: string, table: string, durationMs: real,
                         recordCount: Option<int>): (r: Record)
    ensures IsPerformanceRecord(r)
    ensures r.attributes[0].value == Str("db_query_" + queryType)
    ensures r.attributes[1].value == Num(durationMs)
    ensures r.attributes[2].value ==
              Obj([Field("table", Str(table)), Field("query_type", Str(queryType)),
                   Field("record_count", OptInt(recordCount))])
  {
    PerformanceMetric("db_query_" + queryType, durationMs,
      Some([Field("table", Str(table)), Field("query_type", Str(queryType)),
            Field("record_count", OptInt(recordCount))]))
  }

  /** `log_page_load`, inside a request. */
  function PageLoad(endpoint: string, durationMs: real, userId: Option<int>, request: Request): (r: Record)
    ensures IsPerformanceRecord(r)
    ensures r.attributes[0].value == Str("page_load")
    ensures r.attributes[2].value ==
              Obj([Field("endpoint", Str(endpoint)), Field("user_id", OptInt(userId)),
                   Field("method", Str(request.httpMethod))])
  {
    PerformanceMetric("page_load", durationMs,
      Some([Field("endpoint", Str(endpoint)), Field("user_id", OptInt(userId)),
            Field("method", Str(request.httpMethod))]))
  }

  /** A metric's name identifies the query type it measures: two query
      metrics have the same name only for the same type, the type is also
      recorded among the metrics, and no query metric is named like a page
      load. */
  lemma MetricNamesIdentifyQueries(q1: string, t1: string, d1: real, c1: Option<int>,
                                   q2: string, t2: string, d2: real, c2: Option<int>,
                                   endpoint: string, d3: real, userId: Option<int>, request: Request)
    ensures DatabaseQuery(q1, t1, d1, c1).attributes[0] == DatabaseQuery(q2, t2, d2, c2).attributes[0]
            <==> q1 == q2
    ensures Get(DatabaseQuery(q1, t1, d1, c1).attributes[2].value.fields, "query_type") == Some(Str(q1))
    ensures DatabaseQuery(q1, t1, d1, c1).attributes[0] != PageLoad(endpoint, d3, userId, request).attributes[0]
  {
    var n1 := "db_query_" + q1;
    var n2 := "db_query_" + q2;
    if n1 == n2 {
      assert n1[9..] == q1 && n2[9..] == q2;
    }
    assert n1[0] != "page_load"[0];
  }

  // --------------------------------------------------------------- wrappers

  /** How a wrapped call ended: with a value, by raising an `Exception`, or
      by raising a `BaseException` that is not an `Exception` (such as
      `SystemExit`, `KeyboardInterrupt` or `GeneratorExit`), which the
      wrappers' `except Exception` clauses do not catch. */
  datatype Outcome<T> = Returned(value: T) | Raised(error: ExcInfo) | Escaped(error: ExcInfo)

  /** `log_execution_time(operation)` around a call that ended with `outcome`
      after `elapsed`: the outcome is passed on unchanged (the exception is
      re-raised, or escapes), and one record is logged unless the exception
      escaped the `except Exception` clause. */
  function ExecutionTime<T>(operation: string, outcome: Outcome<T>, elapsed: Duration): (r: (Outcome<T>, Option<Record>))
    ensures r.0 == outcome
    ensures r.1.None? <==> outcome.Escaped?
    ensures outcome.Returned? ==> r.1.Some? && IsPerformanceRecord(r.1.value)
                                  && r.1.value.attributes[0].value == Str(operation)
                                  && r.1.value.attributes[1].value == Num(elapsed.ms)
    ensures outcome.Raised? ==> r.1.Some? && r.1.value.logger == DomainLogger && r.1.value.level == Error
                                && |r.1.value.attributes| == 3
                                && r.1.value.exception == Some(outcome.error)
                                && r.1.value.message == "Function " + operation + " failed after " + elapsed.text + "ms"
                                && r.1.value.attributes[2] == Field("error_type", Str(outcome.error.typeName))
  {
    match outcome
    case Returned(_) => (outcome, Some(PerformanceMetric(operation, elapsed.ms, None)))
    case Raised(e) =>
      (outcome,
       Some(Record(DomainLogger, Error, "Function " + operation + " failed after " + elapsed.text + "ms",
         [Field("operation", Str(operation)),
          Field("duration_ms", Num(elapsed.ms)),
          Field("error_type", Str(e.typeName))],
         Some(e))))
    case Escaped(_) => (outcome, None)
  }

  /** What a wrapped user action did: its outcome and the session's user id
      afterwards. */
  datatype Run<T> = Run(outcome: Outcome<T>, sessionUserId: Option<int>)

  /** `log_user_action(actionType)` around `action`, started with the
      session user id `sessionUserId`. The id is read before the call, so the
      record names the user as it was before the action ran; an escaping
      `BaseException` is logged by neither branch. */
  function UserAction<T>(actionType: string, sessionUserId: Option<int>,
                         action: Option<int> -> Run<T>, elapsed: Duration): (r: (Run<T>, Option<Record>))
    ensures r.0 == action(sessionUserId)
    ensures r.1.None? <==> r.0.outcome.Escaped?
    ensures r.1.Some? ==> r.1.value.logger == DomainLogger && |r.1.value.attributes| >= 4
                          && r.1.value.attributes[0] == Field("action_type", Str(actionType))
                          && r.1.value.attributes[1] == Field("user_id", OptInt(sessionUserId))
                          && r.1.value.attributes[3].value == Bool(r.0.outcome.Returned?)
    ensures r.0.outcome.Returned? ==> r.1.Some? && r.1.value.level == Info && r.1.value.exception.None?
                                      && r.1.value.message == "User action completed: " + actionType
    ensures r.0.outcome.Raised? ==> r.1.Some? && r.1.value.level == Error
                                    && r.1.value.exception == Some(r.0.outcome.error)
                                    && r.1.value.message == "User action failed: " + actionType
  {
    var run := action(sessionUserId);
    match run.outcome
    case Returned(_) =>
      (run, Some(Record(DomainLogger, Info, "User action completed: " + actionType,
              [Field("action_type", Str(actionType)),
               Field("user_id", OptInt(sessionUserId)),
               Field("duration_ms", Num(elapsed.ms)),
               Field("success", Bool(true))],
              None)))
    case Raised(e) =>
      (run, Some(Record(DomainLogger, Error, "User action failed: " + actionType,
              [Field("action_type", Str(actionType)),
               Field("user_id", OptInt(sessionUserId)),
               Field("duration_ms", Num(elapsed.ms)),
               Field("success", Bool(false)),
               Field("error_type", Str(e.typeName))],
              Some(e))))
    case Escaped(_) => (run, None)
  }

  /** Whatever the action does to the session, the record keeps the user id
      read before it ran: a login action is logged with the previous id. */
  lemma UserActionLogsPriorUser<T>(actionType: string, sessionUserId: Option<int>,
                                   a1: Option<int> -> Run<T>, a2: Option<int> -> Run<T>, elapsed: Duration)
    requires a1(sessionUserId).outcome == a2(sessionUserId).outcome
    ensures UserAction(actionType, sessionUserId, a1, elapsed).1 == UserAction(actionType, sessionUserId, a2, elapsed).1
  {
  }

  /** The two wrappers agree on every outcome: both log exactly when the
      exception (if any) is caught, at the same level and with the same
      exception attached, and both hand the outcome back unchanged. */
  lemma WrappersAgree<T>(operation: string, actionType: string, sessionUserId: Option<int>,
                         action: Option<int> -> Run<T>, elapsed: Duration)
    ensures var timed := ExecutionTime(operation, action(sessionUserId).outcome, elapsed);
            var acted := UserAction(actionType, sessionUserId, action, elapsed);
            timed.0 == acted.0.outcome
            && (timed.1.Some? <==> acted.1.Some?)
            && (timed.1.Some? ==> timed.1.value.level == acted.1.value.level
                                  && timed.1.value.exception == acted.1.value.exception)
  {
  }
}
