# A verified model of a Flask photo-sharing app's logging, auth gate and store

The application is a small social network. Users register and log in, post
captions, like, comment on and follow each other. Four pieces of its logic
are modelled here as pure Dafny functions over immutable data, with their
properties proved:

1. **Structured logging** (`backend/logging_config.py`):
   - the JSON entry a log record is formatted as, including the caller's extra attributes;
   - the security formatter's recursive masking of sensitive keys;
   - the security, audit, performance and business record builders;
   - the request hooks that log the start and end of a request and answer an unhandled exception.
2. **Domain events** (`backend/social_media_logger.py`):
   - the records each `log_*` helper emits for logins, posts, likes, comments, follows, security events and performance;
   - the two wrappers that time a call and log a user action.
3. **The authentication gate** (`backend/auth_middleware.py`, `backend/auth_decorators.py`):
   - route classification and session resolution before every request;
   - login and logout;
   - the login and ownership decorators, as ordered decision functions.
4. **The store and the views** (`backend/models.py`, `backend/app_jinja.py`):
   - users, posts, comments, a set of `(user, post)` likes and a set of directed follow edges;
   - follow/unfollow, like insertion with its unique constraint, and cascading deletes;
   - the `to_dict` projections;
   - every view function as a transition on (store, session, flash queue), returning a response.

Layout, one module per file:

- `wrappers.dfy` holds `Option` and `Result`.
- `seqs.dfy` holds filtering, trimming and `Take` over sequences.
- `text.dfy` holds lower-casing, substring tests, `str.strip`, and decimal rendering and parsing of integers.
- `json.dfy` holds the JSON tree that log entries are built as.
- `attributes.dfy` holds the names a log record reserves for its own attributes.
- `masking.dfy` holds the masking rewrite, plus the unit-test payload as a worked example.
- `records.dfy` holds log records, their builders, the formatter and the request hooks.
- `domain_events.dfy` holds the domain-event helpers and the two wrappers.
- `store.dfy` holds the tables, their invariant and their operations.
- `auth.dfy` holds the gate.
- `feed.dfy` holds the home page's selections.
- `handlers.dfy` holds the views.

Conventions:

- A log call becomes a `Record` value: the logger name, the level, the message, the `extra=` attributes in order, and the exception. Emitting records means returning them.
- The current user, clocks, correlation ids, password salts and durations are explicit parameters.
- `backend/app_jinja.py:4` imports `get_current_user` from `backend/auth_decorators.py`, but that file does not define it. So the views take the current user as an input, `me`.
- Where a view would dereference a missing current user, the model answers `ServerError`.
- The views model the app with `AuthMiddleware` installed, as `backend/tests/test_config.py:43-44` does; `me` is then `g.current_user`. With the middleware in place its gate (`Auth.BeforeRequest`) runs first. It already redirects a protected request without a user, so the views' own `'user_id' not in session` checks only matter for a session whose user the middleware resolved (`Auth.ContinueHasSessionUser`).
- In development the console formatter formats every record that reaches the root logger before the JSON file handler does. That leaves `message` and `asctime` on the record, and the JSON formatter's `extra` then shows them too. `Records.ConsoleStamp` says when this happens.

## Model

| member | source | states |
|---|---|---|
| `Masking.MaskHidesSecretsOnly` | backend/logging_config.py:120-131 | After masking, every entry reachable through non-sensitive keys and list items whose key contains a denylist word holds `***MASKED***`. The tree keeps its shape (same keys in order, same list lengths), and every other scalar is unchanged. |
| `Masking.Mask` | backend/logging_config.py:120-131 | A dict stays a dict with the same keys in the same order, a list stays a list of the same length, and any other value is returned as it is. |
| `Masking.MaskUnique` | backend/logging_config.py:120-131 | Those two properties determine the masked tree: any tree that hides every secret of `v` and agrees with `v` elsewhere equals `Mask(v)`. |
| `Masking.MaskFixesMasked` | backend/logging_config.py:120-131 | A tree that is already fully masked is returned unchanged. |
| `Masking.MaskIdempotent` | backend/logging_config.py:120-131 | Masking twice is masking once. |
| `Masking.MaskField` | backend/logging_config.py:123-127 | The entry keeps its key. A sensitive key's value is replaced wholesale by `***MASKED***`, even a dict or list, with no recursion into it. Any other value is masked inside. |
| `Masking.MaskFields` | backend/logging_config.py:122-127 | A dict keeps its length, and each entry is masked on its own. |
| `Masking.MaskItems` | backend/logging_config.py:128-130 | A list keeps its length and order, and each item is masked on its own. |
| `Masking.IsSensitiveIff` | backend/logging_config.py:105-108 | A key is sensitive iff some denylist word is a substring of its lower-cased form. |
| `Masking.SensitiveIgnoresCase` | backend/logging_config.py:124 | A key and its lower-cased form are judged alike. |
| `MaskingExamples.NestedPayloadExample` | backend/tests/test_logging.py:141-157 | On the test's nested payload, `password_hash` and the nested `api_key` are masked, while `username` and `theme` survive. |
| `MaskingExamples.MaskTwoLevels` | backend/logging_config.py:122-127 | The two-level payload shape masks exactly the sensitive keys at each level. |
| `MaskingExamples.PasswordHashIsSensitive` | backend/logging_config.py:106 | `password_hash` is on the denylist and is masked. |
| `MaskingExamples.ApiKeyIsSensitive` | backend/logging_config.py:107 | `api_key` is on the denylist and is masked. |
| `MaskingExamples.UsernameIsNotSensitive` | backend/tests/test_logging.py:154 | `username` contains no denylist word. |
| `MaskingExamples.ThemeIsNotSensitive` | backend/tests/test_logging.py:157 | `theme` contains no denylist word. |
| `MaskingExamples.PreferencesIsNotSensitive` | backend/tests/test_logging.py:144 | `preferences` contains no denylist word, so masking recurses into it. |
| `Records.SecurityEvent` | backend/logging_config.py:259-273 | It emits one warning on the `security` logger with message `Security Event: <type>`. The attributes are, in order, event_type, description, user_id, ip_address and additional_data. An explicit non-empty IP wins, then the request's remote address, then `None`. A missing additional_data becomes `{}`. |
| `Records.AuditEvent` | backend/logging_config.py:275-290 | It emits one info record on `audit` with message `Audit: <action> <resource_type>`. The six attributes are in order. A missing `changes` becomes `{}`, and the timestamp is the given UTC time. |
| `Records.PerformanceMetric` | backend/logging_config.py:292-302 | It emits one info record on `performance` with message `Performance: <operation>`. The attributes are operation, duration_ms and metrics, and a missing metrics dict becomes `{}`. |
| `Records.BusinessEvent` | backend/logging_config.py:304-313 | It emits one info record on the module logger with message `Business Event: <event>`. The attributes are event_type `business`, event and details. |
| `Records.MissingAndEmptyDictsAgree` | backend/logging_config.py:270-288 | Passing no dict and passing `{}` give the same security and audit records. |
| `Records.SecurityIpFallback` | backend/logging_config.py:270 | `ip_address or request.remote_addr`: an empty IP counts as none, and a non-empty IP makes the request irrelevant. |
| `Records.SecurityEventAdmissible` | backend/logging_config.py:264-273 | No attribute name of a security event collides with a record attribute, `message` or `asctime`, so logging it never raises. |
| `Records.AuditEventAdmissible` | backend/logging_config.py:280-290 | No attribute name of an audit event collides with a record attribute, `message` or `asctime`. |
| `Records.PerformanceMetricAdmissible` | backend/logging_config.py:295-302 | No attribute name of a performance metric collides with a record attribute, `message` or `asctime`. |
| `Records.BusinessEventAdmissible` | backend/logging_config.py:306-313 | No attribute name of a business event collides with a record attribute, `message` or `asctime`. |
| `Records.ConsoleAttributes` | backend/logging_config.py:158-165 | The console formatter leaves nothing behind when it has not run. When it has, it leaves `message` and then `asctime` on the record. |
| `Records.ConsoleStamp` | backend/logging_config.py:158-236 | In development, a record carries the console formatter's fields iff it reaches the root logger. Records of the non-propagating `security`, `audit` and `performance` loggers never carry them. |
| `Records.AttributeDict` | backend/logging_config.py:84-86 | `record.__dict__` holds the record's reserved attributes first. After them come exactly the caller's attributes, then the console fields. |
| `Records.StandardAttributes` | backend/logging_config.py:88-92 | The attributes a record carries itself are exactly the reserved names. |
| `Records.ExtraIsCallerAttributes` | backend/logging_config.py:84-93 | For attributes the logging API admits, the extra-field filter yields exactly the caller's `extra=` attributes, in order. When the console formatter ran first, `message` and `asctime` follow them. |
| `Records.EntryExtraIff` | backend/logging_config.py:84-95 | The entry has an `extra` key iff extra fields are enabled and the caller's attributes plus any console fields are non-empty. `extra` then holds exactly those fields. |
| `Records.DevelopmentEntriesCarryConsoleFields` | backend/logging_config.py:84-95 | In development, a record that reaches the root has `extra` equal to its attributes plus `message` and `asctime`, even with no caller attributes. Outside development, `extra` is present iff there are caller attributes. |
| `Records.Entry` | backend/logging_config.py:27-36 | The entry is an object whose first four fields are the timestamp, the level name, the logger and the message, with at least nine fields in all. |
| `Records.EntryExceptionIff` | backend/logging_config.py:76-81 | The entry has an `exception` key iff the record carries an exception. Its value is then the type name, the message and the traceback. |
| `Records.FixedPartsLackExtra` | backend/logging_config.py:27-81 | No key of the fixed, context or exception parts is `extra`. |
| `Records.EntryUserIff` | backend/logging_config.py:47-67 | The entry has a `user` key iff it is formatted inside a request and there is a loaded user or a session user id. Its value is the loaded user's `{id, username}`, or else the session's `{id}`. |
| `Records.SecureEntry` | backend/logging_config.py:110-118 | The security formatter's entry is the structured entry with every reachable secret masked and nothing else changed. |
| `Records.EntryCarriesCorrelationId` | backend/logging_config.py:39-45 | With a correlation id set, every entry carries it right after the nine fixed fields. |
| `Records.BeginRequest` | backend/logging_config.py:324-339 | The request gets the fresh correlation id, and one `Request started` record with that id is logged. |
| `Records.EndRequest` | backend/logging_config.py:341-357 | The response passes through unchanged. A completion record exists iff the start time was set, and it carries the status code and the correlation id, or `unknown`. |
| `Records.HandleException` | backend/logging_config.py:359-373 | Every unhandled exception is answered with `("Internal Server Error", 500)`. One error record carries the exception, its type name and the correlation id, falling back to `unknown`. |
| `Records.ErrorReplyHidesException` | backend/logging_config.py:359-373 | Any two exceptions get the same reply, while their log records differ. |
| `Records.RequestBracketsShareCorrelationId` | backend/logging_config.py:324-373 | The `Request started` record, the completion record and an error record of the same request carry the same correlation id. |
| `DomainEvents.LoginAttempt` | backend/social_media_logger.py:24-54 | A success emits an audit record (action `login`, resource `user_session`, changes `status=logged_in`) and one info record. A failure emits one `failed_login` security event carrying the username, the failure reason and the user agent. |
| `DomainEvents.LoginSecurityIffFailure` | backend/social_media_logger.py:24-54 | A login attempt reaches the security log iff it fails. |
| `DomainEvents.Logout` | backend/social_media_logger.py:56-71 | It emits an audit `logout` record for the user with `status=logged_out`, plus an info record naming the user. |
| `DomainEvents.LoginLogoutAuditPair` | backend/social_media_logger.py:24-71 | A successful login's audit record and the same user's logout audit record share the resource type and user id, and differ in action and status. |
| `DomainEvents.Registration` | backend/social_media_logger.py:73-88 | It emits an audit `create user` record whose resource id is the new id and whose changes hold the username, followed by a `user_registered` business event. |
| `DomainEvents.RegistrationRecordsAgree` | backend/social_media_logger.py:73-88 | The audit resource id parses back to the user id in the business details, and both records carry the username. |
| `DomainEvents.PostCreation` | backend/social_media_logger.py:92-108 | It emits an audit `create post` record whose resource id is the decimal post id, plus a `post_created` business event. |
| `DomainEvents.PostResourceIdRoundTrip` | backend/social_media_logger.py:97 | The post's resource id parses back to the post id. |
| `DomainEvents.PostEdit` | backend/social_media_logger.py:110-131 | The edit records carry the old and new caption lengths and `caption_changed == (old != new)`, never the text. `modified_at` holds the helper's own clock read, and the audit `timestamp` holds the separate, later read made by `log_audit_event`. |
| `DomainEvents.EditRecordsRevealOnlyLengths` | backend/social_media_logger.py:110-131 | Two post or comment edits with equal lengths and equal change flags produce identical records. |
| `DomainEvents.PostDeletion` | backend/social_media_logger.py:133-157 | It emits an audit `delete post` record with the engagement counts, plus a `post_deleted` event. `deleted_at` and the audit `timestamp` come from two separate clock reads. |
| `DomainEvents.PostDeletionRecordsAgree` | backend/social_media_logger.py:133-157 | The audit record and the business event agree on the post id, the user and the like and comment counts. |
| `DomainEvents.LikeAction` | backend/social_media_logger.py:161-177 | The audit resource id is `<user>_<post>`, and the event is `post_` + action + `d`. |
| `DomainEvents.LikeResourceIdIdentifiesPair` | backend/social_media_logger.py:166 | Equal like resource ids mean the same user and post. |
| `DomainEvents.CommentCreation` | backend/social_media_logger.py:181-203 | It emits an audit `create comment` record with the post id and text length, plus a `comment_created` event. |
| `DomainEvents.CommentCreationRecordsAgree` | backend/social_media_logger.py:181-203 | The audit resource id parses back to the comment id of the business details, and both records name the same user. |
| `DomainEvents.CommentCreationContentAgrees` | backend/social_media_logger.py:181-203 | The audit changes and the business details carry the same post id and text length. |
| `DomainEvents.CommentEdit` | backend/social_media_logger.py:205-226 | The edit records carry the text lengths and `text_changed`, never the text. `modified_at` and the audit `timestamp` come from two separate clock reads. |
| `DomainEvents.CommentDeletion` | backend/social_media_logger.py:228-247 | It emits an audit `delete comment` record with the post id, plus a `comment_deleted` event. `deleted_at` and the audit `timestamp` come from two separate clock reads. |
| `DomainEvents.CommentDeletionRecordsAgree` | backend/social_media_logger.py:228-247 | The audit record and the business event agree on the comment, its post and the user. |
| `DomainEvents.FollowAction` | backend/social_media_logger.py:251-270 | The audit resource id is `<follower>_<followed>`, its user_id is the follower, and the event is `user_` + action + `ed`. |
| `DomainEvents.FollowResourceIdIdentifiesEdge` | backend/social_media_logger.py:256 | Equal follow resource ids mean the same ordered edge. |
| `DomainEvents.UnauthorizedAccess` | backend/social_media_logger.py:274-288 | It emits one `unauthorized_access` security event described as `Unauthorized <action> attempt on <type>`. |
| `DomainEvents.SuspiciousActivity` | backend/social_media_logger.py:290-304 | It emits one `suspicious_activity` security event carrying the activity type, user agent and referer. |
| `DomainEvents.SecurityRecordsCarryRemoteAddress` | backend/social_media_logger.py:24-304 | A failed login, an unauthorized access and suspicious activity all take their IP from the request's remote address. |
| `DomainEvents.DatabaseQuery` | backend/social_media_logger.py:308-319 | It emits one performance metric named `db_query_<type>` with the table. |
| `DomainEvents.PageLoad` | backend/social_media_logger.py:321-332 | It emits one `page_load` performance metric with the endpoint and user. |
| `DomainEvents.MetricNamesIdentifyQueries` | backend/social_media_logger.py:308-332 | Two query metrics have the same name iff their query types are equal. The type is also among the metrics, and no query metric is named `page_load`. |
| `DomainEvents.ExecutionTime` | backend/social_media_logger.py:339-366 | The wrapped outcome is returned or re-raised unchanged. Success emits exactly one performance metric named by the operation. An `Exception` emits one error record with `error_type` and the exception. A `BaseException` that is not an `Exception` escapes with no record. |
| `DomainEvents.UserAction` | backend/social_media_logger.py:369-406 | The outcome passes through. A record is logged iff the call returned or raised an `Exception`. It has the session user id read before the call, and `success` is true iff the call returned. |
| `DomainEvents.UserActionLogsPriorUser` | backend/social_media_logger.py:376-384 | Whatever the action does to the session, the logged user id is the one from before the call. |
| `DomainEvents.WrappersAgree` | backend/social_media_logger.py:339-406 | On the same call, both wrappers hand back the same outcome. Both log iff the exception, if any, is caught, and then at the same level with the same exception. |
| `Text.Strip` | backend/app_jinja.py:189-190 | `str.strip` removes blank runs at both ends, and the result neither starts nor ends with whitespace. |
| `Text.StripEmptyIffBlank` | backend/app_jinja.py:189 | `text.strip()` is empty iff the text is all whitespace. |
| `Text.StripIdempotent` | backend/app_jinja.py:190 | Stripping again changes nothing. |
| `Text.IntRoundTrip` | backend/social_media_logger.py:97 | The decimal rendering of an integer parses back to it. |
| `Text.PairIdInjective` | backend/social_media_logger.py:166 | `f"{a}_{b}"` determines `a` and `b`. |
| `Store.FindUser` | backend/models.py:12-19 | The lookup by primary key finds a user with that id, or `None` iff none exists. |
| `Store.FindUserByName` | backend/app_jinja.py:48 | `filter_by(username).first()` finds a user with that name, or `None` iff none exists. |
| `Store.FindUserByNameUnique` | backend/models.py:14 | With unique usernames, the lookup finds the one user with the name. |
| `Store.FindPost` | backend/app_jinja.py:166 | `Post.query.get_or_404` finds a post with that id, or nothing iff none exists. |
| `Store.FindComment` | backend/app_jinja.py:242 | `Comment.query.get_or_404` finds a comment with that id, or nothing iff none exists. |
| `Store.SetPassword` | backend/models.py:28-32 | After setting a password, the password check accepts exactly that password. |
| `Store.PasswordCheckIffSet` | backend/models.py:28-32 | `check_password(set_password(p), q)` holds iff `q == p`. |
| `Store.Follow` | backend/models.py:34-36 | An existing edge leaves the store unchanged. Otherwise exactly the edge `(self, other)` is added, and nothing else changes. Self-follows are not refused. |
| `Store.Unfollow` | backend/models.py:38-40 | It removes only the edge `(self, other)`, and is a no-op when the edge is absent. |
| `Store.IsFollowing` | backend/models.py:42-43 | The count of matching follow rows is positive iff the edge `(self, other)` is stored. |
| `Store.FollowIdempotent` | backend/models.py:34-36 | Following twice is following once, and the edge is then present. |
| `Store.UnfollowUndoesFollow` | backend/models.py:34-40 | Unfollow after a fresh follow restores the store. |
| `Store.FollowIsDirected` | backend/models.py:42-43 | Following `b` does not make `b` follow back. |
| `Store.FollowKeepsValid` | backend/models.py:7-10 | Follow edges between existing users keep the store valid. |
| `Store.UnfollowKeepsValid` | backend/models.py:38-40 | Unfollowing keeps the store valid. |
| `Store.InsertLike` | backend/models.py:76 | A second like of the same post by the same user is rejected. Otherwise exactly that like is added. |
| `Store.RemoveLike` | backend/app_jinja.py:168-172 | Exactly the like `(user, post)` is gone, every other like stays, and no other table changes. |
| `Store.LikeCountsChangeByOne` | backend/models.py:67 | A like adds one to the post's likes count, and removing it restores the store. |
| `Store.AddUser` | backend/models.py:14 | A taken username violates the unique constraint. Otherwise the user is appended with a fresh id. |
| `Store.AddPost` | backend/models.py:51-55 | The post is appended with a fresh id, the given caption, author and time. |
| `Store.AddComment` | backend/models.py:78-83 | The comment is appended with a fresh id, text, author and post. |
| `Store.AddUserKeepsValid` | backend/models.py:12-14 | Adding a user keeps ids and usernames unique. |
| `Store.AddPostKeepsValid` | backend/models.py:51-55 | Adding a post by an existing user keeps the store valid. |
| `Store.AddCommentKeepsValid` | backend/models.py:78-83 | Adding a comment by an existing user on an existing post keeps the store valid. |
| `Store.SetCaption` | backend/app_jinja.py:221 | Only the caption of the post with that id changes. |
| `Store.SetCaptionFinds` | backend/app_jinja.py:221-222 | With unique post ids, after a caption edit the post is found under its id, carrying the new caption and otherwise unchanged. |
| `Store.SetCommentText` | backend/app_jinja.py:247 | Only the text of the comment with that id changes. |
| `Store.SetCommentTextFinds` | backend/app_jinja.py:247-248 | With unique comment ids, after an edit the comment is found under its id, carrying the new text and otherwise unchanged. |
| `Store.SetCaptionKeepsValid` | backend/models.py:51-58 | Editing a caption keeps the store valid. |
| `Store.DeletePost` | backend/models.py:57-58 | Deleting a post removes it with all of its likes and comments, and nothing else. |
| `Store.DeleteComment` | backend/app_jinja.py:261 | Deleting a comment removes exactly that comment. |
| `Store.DeleteCommentKeepsValid` | backend/app_jinja.py:259-262 | Deleting a comment keeps the store valid. Afterwards the comment is not found, and every other comment still is. |
| `Store.DeleteUser` | backend/models.py:17-19 | Deleting a user removes their posts with those posts' likes and comments, plus their own likes, comments and follow rows. |
| `Store.DeletePostKeepsValid` | backend/models.py:57-58 | After the cascade, no like or comment refers to the deleted post. |
| `Store.DeleteUserKeepsValid` | backend/models.py:17-19 | After the cascade, no row refers to the deleted user or their posts. |
| `Store.UserToDict` | backend/models.py:45-49 | The dict has exactly the keys `id` and `username`. |
| `Store.UserToDictHidesPassword` | backend/models.py:45-49 | The user dict does not depend on the password hash. |
| `Store.PostToDict` | backend/models.py:60-69 | `likes_count` and `comments_count` are the numbers of the post's likes and comments. The author is the post's user, and a missing author fails. |
| `Store.CommentToDict` | backend/models.py:85-93 | The dict has the author's name and the post id, and a missing author fails. |
| `Store.ProjectionsDefined` | backend/models.py:60-93 | In a valid store every post and comment projects. |
| `Auth.RequiresAuth` | backend/auth_middleware.py:66-77 | A missing endpoint requires auth, and the public routes do not. |
| `Auth.PublicExactly` | backend/auth_middleware.py:19-21 | Exactly `login`, `register`, `static` and `favicon` skip authentication. |
| `Auth.ResolveSession` | backend/auth_middleware.py:41-52 | A session id naming a user makes it current. A stale id is removed, with one `invalid_session` record, and no current user. No id changes nothing. |
| `Auth.InvalidSessionRecord` | backend/auth_middleware.py:47-52 | The `invalid_session` security event always carries `session_user_id: None`, because the key is popped before it is read. |
| `Auth.BeforeRequest` | backend/auth_middleware.py:31-60 | `static` only clears the user. A redirect to login happens iff a protected route has no current user, and it then sets `next_url` to the URL and flashes the login notice in the `error` category. |
| `Auth.PublicNeverRedirects` | backend/auth_middleware.py:55-60 | Public endpoints never redirect. |
| `Auth.StaleSessionCleared` | backend/auth_middleware.py:45-52 | A stale id is removed and logged once, and a protected route then redirects. |
| `Auth.ContinueHasSessionUser` | backend/auth_middleware.py:41-60 | A protected request that continues has a current user, and it is the stored user the session names. |
| `Auth.Teardown` | backend/auth_middleware.py:62-64 | The current user is cleared, and the session is kept. |
| `Auth.TeardownKeepsLogin` | backend/auth_middleware.py:41-64 | Teardown clears only the current user: the next request with the same session and store resolves the same user again, and a second teardown changes nothing. |
| `Auth.LoginUser` | backend/auth_middleware.py:87-91 | The session's user id and the current user become the user, and a successful login is logged. |
| `Auth.LoginAuditNamesUser` | backend/auth_middleware.py:89-91 | Since the session is written first, the login audit record names the user. |
| `Auth.LogoutUser` | backend/auth_middleware.py:93-100 | The user id and the current user are always cleared. A logout is logged iff a user was current. |
| `Auth.LogoutIdempotent` | backend/auth_middleware.py:93-100 | A second logout changes nothing and logs nothing. |
| `Auth.LoginRequired` | backend/auth_decorators.py:7-15 | The handler's result is returned iff a user is current, and it redirects to login otherwise. `require_auth` (backend/auth_middleware.py:102-112) makes the same test with the same flash and redirect, so this member models both. |
| `Auth.UnauthorizedRecord` | backend/auth_decorators.py:30-42 | The warning on `security` carries resource_type, resource_id, user_id, owner_id and attempted_action. |
| `Auth.UnauthorizedRecordsAgree` | backend/auth_decorators.py:30-42 | The decorators' warning and `log_unauthorized_access` (backend/social_media_logger.py:274-288) agree on logger, level, event type, resource type, attempted action and user. |
| `Auth.OwnerRequired` | backend/auth_decorators.py:18-45 | The checks run in order: login, then existence (404), then ownership (403 with one warning). The handler runs with the same id iff all pass. |
| `Auth.PostOwner` | backend/auth_decorators.py:26-28 | The post's author id, or nothing iff no post has that id. |
| `Auth.CommentOwner` | backend/auth_decorators.py:56-58 | The comment's author id, or nothing iff no comment has that id. |
| `Auth.PostOwnerRequired` | backend/auth_decorators.py:18-45 | It redirects to login iff no user is current. A signed-in user gets 404 iff no post has the id. A 403 means the post exists, is someone else's, and the warning names its author. A run calls the handler with the post id and means the user wrote the post. With unique post ids, it runs iff the user wrote it. |
| `Auth.CommentOwnerRequired` | backend/auth_decorators.py:48-75 | The same checks for comments: login redirect iff anonymous, 404 iff no comment has the id, and 403 with the true author. With unique comment ids, the handler runs iff the user wrote the comment. |
| `Auth.PostGuardAdmitsOwnerOnly` | backend/auth_decorators.py:28-44 | For a stored post, the handler runs iff the current user is its author. Otherwise the warning carries the true owner. |
| `Auth.CommentGuardAdmitsOwnerOnly` | backend/auth_decorators.py:58-74 | For a stored comment, the handler runs iff the current user wrote it. |
| `Auth.RejectionIgnoresHandler` | backend/auth_decorators.py:21-42 | A rejection does not depend on the handler, which is never called. |
| `Feed.InsertByTime` | backend/app_jinja.py:110 | Insertion adds exactly the one post. |
| `Feed.InsertKeepsNewestFirst` | backend/app_jinja.py:110 | Inserting into a newest-first list keeps it newest first. |
| `Feed.SortNewestFirst` | backend/app_jinja.py:110 | `order_by(timestamp.desc())` returns a newest-first permutation of its input. |
| `Feed.HomeFeed` | backend/app_jinja.py:107-110 | The feed is newest first and a permutation of the posts by the user and those they follow. |
| `Feed.HomeFeedMembers` | backend/app_jinja.py:107-110 | A post is in the feed iff it is stored and written by the user or someone they follow. |
| `Feed.FollowAddsPostsToFeed` | backend/app_jinja.py:107-110 | After following someone, their posts are in the feed. |
| `Feed.LikedPosts` | backend/app_jinja.py:113 | The heart icons show exactly the posts the user likes. |
| `Feed.SuggestedUsers` | backend/app_jinja.py:116-118 | There are at most five suggestions, never the user or anyone they follow, and all candidates appear when fewer than five exist. |
| `Feed.StoryUsers` | backend/app_jinja.py:121 | There are at most six story users, all followed. |
| `Feed.SuggestionsAndStoriesDisjoint` | backend/app_jinja.py:116-121 | No user is both suggested and a story user. |
| `Handlers.IndexView` | backend/app_jinja.py:32-36 | It redirects home iff the session has a user id, and to login otherwise. |
| `Handlers.IndexFollowsSignIn` | backend/app_jinja.py:32-57 | After a successful login, `index` goes home. After a logout it goes to the login page. |
| `Handlers.LoginView` | backend/app_jinja.py:38-57 | A missing field gives "Username and password required" with the session unchanged. The session gains the user's id iff the user found by name accepts the password. An unknown user and a wrong password both give "Invalid credentials". |
| `Handlers.LoginIffCredentials` | backend/app_jinja.py:48-53 | With unique usernames, a login succeeds iff some user has the name and the password checks. The session then names that user. |
| `Handlers.RegisterView` | backend/app_jinja.py:59-88 | The checks run in order: all fields, then passwords match, then username unused. Only then is one user with a matching password hash appended and the session set to its id. Every failure leaves the store and session alone. |
| `Handlers.RegisterKeepsValid` | backend/app_jinja.py:78-82 | Registration keeps the store valid. |
| `Handlers.LogoutView` | backend/app_jinja.py:90-97 | Pending messages are discarded, the user id is removed, and only the logout notice is queued. |
| `Handlers.LogoutThenHomeRedirects` | backend/app_jinja.py:90-103 | After a logout, the home view redirects to login. |
| `Handlers.HomeView` | backend/app_jinja.py:99-127 | The page shows exactly the feed posts, newest first, and exactly the liked post ids. It has at most five suggestions outside the feed's authors, and every such user when there are fewer than five. It has at most six followed users, and every followed user when there are fewer than six. |
| `Handlers.FollowUserView` | backend/app_jinja.py:129-144 | A missing target gives 404, checked before the self check. A self-follow adds no edge and flashes an error. Otherwise the edge is added. |
| `Handlers.SelfFollowRefusedOnlyByView` | backend/app_jinja.py:137-139 | The view refuses a self-follow that the store operation would record. |
| `Handlers.UnfollowUserView` | backend/app_jinja.py:146-158 | A missing target gives 404. Otherwise the edge, if any, is removed. |
| `Handlers.UnfollowUndoesFollowView` | backend/app_jinja.py:129-158 | Unfollowing keeps the store valid, and it undoes a follow made through the view. |
| `Handlers.ToggleLikeView` | backend/app_jinja.py:160-178 | A missing post gives 404. Otherwise the user's like of it is removed if present and inserted if absent, and nothing else changes. |
| `Handlers.ToggleLikeTwice` | backend/app_jinja.py:166-176 | Toggling twice restores the store. |
| `Handlers.ToggleLikeKeepsValid` | backend/app_jinja.py:166-176 | Toggling keeps the store valid. |
| `Handlers.AddCommentView` | backend/app_jinja.py:180-195 | A missing post gives 404. Blank text changes nothing. Otherwise one comment is appended with the stripped text, by the current user, on that post. |
| `Handlers.AddCommentViewKeepsValid` | backend/app_jinja.py:180-195 | Commenting keeps the store valid. |
| `Handlers.CreatePostView` | backend/app_jinja.py:197-211 | Blank captions change nothing. Otherwise one post is appended with the stripped caption, by the current user. |
| `Handlers.CreatePostViewKeepsValid` | backend/app_jinja.py:197-211 | Posting keeps the store valid. |
| `Handlers.StoredTextNotBlank` | backend/app_jinja.py:189-190 | Stored text is non-empty and already stripped. |
| `Handlers.Settle` | backend/auth_decorators.py:21-44 | A rejection leaves the store and session alone. Login redirect, 404 and 403 each have their own response. Only the 403 logs, with the one warning, and only the login redirect flashes. |
| `Handlers.EditPostBody` | backend/app_jinja.py:216-228 | A missing post gives 404. A GET shows the form. A POST with a non-blank caption stores it stripped and goes to the post. A blank caption shows the form with an error. |
| `Handlers.EditPostView` | backend/app_jinja.py:213-228 | Only the author changes a post, and only on a POST with a non-blank caption. The stored caption is stripped. Non-owners get 403 and a missing post 404. |
| `Handlers.EditPostStoresStripped` | backend/app_jinja.py:220-224 | After the author's edit, the post is found with the stripped caption. |
| `Handlers.DeletePostView` | backend/app_jinja.py:230-237 | Only the author deletes a post, together with its likes and comments. |
| `Handlers.DeletePostViewKeepsValid` | backend/app_jinja.py:230-237 | Every outcome of `delete_post` keeps the store valid. |
| `Handlers.EditCommentView` | backend/app_jinja.py:239-254 | Only the commenter changes a comment, and only with non-blank text, which is stored stripped. It then redirects to the comment's post. |
| `Handlers.EditCommentBody` | backend/app_jinja.py:242-254 | As for posts, except that a saved edit goes to the comment's post. |
| `Handlers.EditCommentStoresStripped` | backend/app_jinja.py:245-249 | After the author's edit, the comment is found with the stripped text, and the store stays valid. |
| `Handlers.DeleteCommentView` | backend/app_jinja.py:256-264 | Only the commenter deletes a comment, and the redirect uses the post id read before the delete. |
| `Handlers.DeleteCommentBody` | backend/app_jinja.py:259-264 | A missing comment gives 404. Otherwise the comment is deleted and the redirect goes to its post. |
| `Handlers.DeleteCommentViewKeepsValid` | backend/app_jinja.py:256-264 | Every outcome keeps the store valid. When the author deletes, that comment is gone and every other comment remains. |

## Left out

- `setup_logging` (backend/logging_config.py:138-245): handlers, file rotation, environment variables and directory creation are I/O configuration.
- JSON text serialisation (`json.dumps(default=str)`) is not modelled. Entries are JSON trees.
- UTC timestamps, uuid correlation ids and formatted tracebacks are opaque inputs. Each clock read in the source is its own input, so two reads in one call are not assumed equal.
- Durations, `time.time()` and `round(..., 2)` are floating point. The wrappers take an opaque measured duration and its rendered text.
- Werkzeug password hashing is a foreign library. A hash is an opaque salt plus the secret it checks against.
- SQLAlchemy sessions, transactions and queries are not modelled; the store is immutable. The concurrent double-like race is out too: `InsertLike` models the unique constraint that rejects it.
- A like's own row id is not kept, because likes are identified by their `(user, post)` pair.
- Python 3.12's `taskName` record attribute is not reserved in the formatter. The model's record carries the 20 attributes of earlier versions, so a 3.12 entry's `extra` would also hold `taskName`.
- `Text.Lower` lower-cases ASCII letters only, not full Unicode case folding.
- `Masking.IsSensitiveIff`, `Masking.MaskHidesSecretsOnly`: sensitivity uses the ASCII-only `Text.Lower`. Python's `str.lower` maps some non-ASCII letters to ASCII ones, for example KELVIN SIGN (U+212A) to `k`. A key spelled that way (`\u212Aey`) is masked by the application but not by the model.
- Templates, `url_for` and the rendered page contents are reduced to a template name or a redirect target. Flash messages are kept with their text and category.
- `is_authenticated` and `get_current_user` of the middleware (backend/auth_middleware.py:79-85) only read `g.current_user`. That value is the `currentUser` field of `Auth.Ctx`.
- The JWT setup in `backend/app_jinja.py` is unused by the views.
- `Auth.InvalidSessionRecord`: the stale id is logged as `None`, as written, not the id the session held.
- `DomainEvents.Registration`: the audit record's `user_id` is `None` as written, because `log_registration` never passes one to `log_audit_event` (backend/social_media_logger.py:75-80).
- The views never call the domain-event helpers of `backend/social_media_logger.py`. The helpers are modelled on their own. The only records a view reply carries are the owner guards' 403 warning (`Handlers.Settle`, from backend/auth_decorators.py:30-42 and 60-72).
- `Records.BeginRequest`, `Records.EndRequest`, `Records.HandleException`: `setup_request_logging` (backend/logging_config.py:321-373) is called neither by `backend/app_jinja.py` nor by the test app (backend/tests/test_config.py:33-48). So the request hooks are modelled on their own and never composed with the views. If they were installed, the `errorhandler(Exception)` would also receive the views' `abort(403)` and `get_or_404` errors and answer them with a 500.
- `Store.DeleteUser`: the follow rows that name the user are removed by SQLAlchemy itself, which deletes a deleted object's rows in a many-to-many association table. The model states the result, not the ORM's mechanism.
- `Feed.SortNewestFirst`: posts with equal timestamps come out in no particular order, as in SQL.
- The domain tests expect `User.follow` to refuse a self-follow. The model follows the code, where only the view refuses.
- `backend/tests/test_auth.py:226-231` expects an anonymous `/logout` to show the logout notice. With `AuthMiddleware` installed, `logout` is not a public route (backend/auth_middleware.py:19-21), so `Auth.BeforeRequest` redirects to login before `Handlers.LogoutView` runs.
- As shipped, `backend/app_jinja.py` never installs `AuthMiddleware`, and its import of `get_current_user` fails. So `g.current_user` is never set, and every view behind a decorator would fail. The model repairs this by assuming the middleware is installed, as in the test app.
- `backend/run_tests.py`, `backend/seed_data.py` and `demo/app.py` are test running, random seeding and trivial template routes.
