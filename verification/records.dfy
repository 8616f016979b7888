/** Log records and the structured formatter: the record builders shared by
    every logger of the application, the JSON entry a record is formatted as,
    the masked variant written to the security and audit streams, and the
    request-level records around each request. */
module Records {
  import opened Wrappers
  import opened Seqs
  import opened Json
  import opened Masking
  import opened Attributes

  /** Logger names of the dedicated streams. */
  const SecurityLogger: string := "security"
  const AuditLogger: string := "audit"
  const PerformanceLogger: string := "performance"

  datatype Level = Debug | Info | Warning | Error

  function LevelName(l: Level): string {
    match l
    case Debug => "DEBUG"
    case Info => "INFO"
    case Warning => "WARNING"
    case Error => "ERROR"
  }

  function LevelNumber(l: Level): int {
    match l
    case Debug => 10
    case Info => 20
    case Warning => 30
    case Error => 40
  }

  /** The parts of the current HTTP request that logging reads. */
  datatype Request = Request(
    httpMethod: string,
    url: string,
    remoteAddr: Option<string>,
    userAgent: string,
    endpoint: Option<string>)

  /** The exception being handled: its class name and `str(error)`. */
  datatype ExcInfo = ExcInfo(typeName: string, message: string)

  /** A log record: the logger it was emitted on, its level and message, the
      `extra=` attributes the caller attached, and the exception being handled
      when it was logged with `exc_info=True`. */
  datatype Record = Record(
    logger: string,
    level: Level,
    message: string,
    attributes: seq<Field>,
    exception: Option<ExcInfo>)

  /** Python truthiness of an optional string. */
  predicate Truthy(s: Option<string>) {
    s.Some? && s.value != []
  }

  /** `d or {}` for an optional dict: a missing or empty dict both become `{}`. */
  function OrEmpty(d: Option<seq<Field>>): (r: seq<Field>)
    ensures d.None? ==> r == []
    ensures d.Some? ==> r == d.value
  {
    d.GetOr([])
  }

  // ------------------------------------------------------ record builders

  /** A security record; its attributes are event_type, description,
      user_id, ip_address and additional_data, in that order. */
  predicate IsSecurityRecord(r: Record) {
    r.logger == SecurityLogger && r.level == Warning && r.exception.None? && |r.attributes| == 5
  }

  /** An audit record; its attributes are action, resource_type,
      resource_id, user_id, changes and timestamp, in that order. */
  predicate IsAuditRecord(r: Record) {
    r.logger == AuditLogger && r.level == Info && r.exception.None? && |r.attributes| == 6
  }

  /** A performance record; its attributes are operation, duration_ms and
      metrics, in that order. */
  predicate IsPerformanceRecord(r: Record) {
    r.logger == PerformanceLogger && r.level == Info && r.exception.None? && |r.attributes| == 3
  }

  /** A business event on `owner`'s logger; its attributes are event_type,
      event and details, in that order. */
  predicate IsBusinessRecord(r: Record, owner: string) {
    r.logger == owner && r.level == Info && r.exception.None? && |r.attributes| == 3
  }

  /** `LoggerMixin.log_security_event`: a warning on the security logger. An
      explicit non-empty IP address wins; otherwise the request's remote
      address is used, or `None` outside a request. */
  function SecurityEvent(eventType: string, description: string, userId: Option<int>,
                         ipAddress: Option<string>, request: Option<Request>,
                         additionalData: Option<seq<Field>>): (r: Record)
    ensures IsSecurityRecord(r)
    ensures r.message == "Security Event: " + eventType
    ensures Keys(r.attributes) == ["event_type", "description", "user_id", "ip_address", "additional_data"]
    ensures r.attributes[0].value == Str(eventType) && r.attributes[1].value == Str(description)
    ensures r.attributes[2].value == OptInt(userId)
    ensures Truthy(ipAddress) ==> r.attributes[3].value == Str(ipAddress.value)
    ensures !Truthy(ipAddress) && request.None? ==> r.attributes[3].value == Null
    ensures !Truthy(ipAddress) && request.Some? ==> r.attributes[3].value == OptStr(request.value.remoteAddr)
    ensures r.attributes[4].value == Obj(OrEmpty(additionalData))
  {
    var ip :=
      if Truthy(ipAddress) then Str(ipAddress.value)
      else if request.Some? then OptStr(request.value.remoteAddr)
      else Null;
    Record(SecurityLogger, Warning, "Security Event: " + eventType,
      [Field("event_type", Str(eventType)),
       Field("description", Str(description)),
       Field("user_id", OptInt(userId)),
       Field("ip_address", ip),
       Field("additional_data", Obj(OrEmpty(additionalData)))],
      None)
  }

  /** `LoggerMixin.log_audit_event`: an info record on the audit logger;
      `now` is the UTC time in ISO-8601 form. */
  function AuditEvent(action: string, resourceType: string, resourceId: Option<string>,
                      userId: Option<int>, changes: Option<seq<Field>>, now: string): (r: Record)
    ensures IsAuditRecord(r)
    ensures r.message == "Audit: " + action + " " + resourceType
    ensures Keys(r.attributes) == ["action", "resource_type", "resource_id", "user_id", "changes", "timestamp"]
    ensures r.attributes[0].value == Str(action) && r.attributes[1].value == Str(resourceType)
    ensures r.attributes[2].value == OptStr(resourceId) && r.attributes[3].value == OptInt(userId)
    ensures r.attributes[4].value == Obj(OrEmpty(changes)) && r.attributes[5].value == Str(now)
  {
    Record(AuditLogger, Info, "Audit: " + action + " " + resourceType,
      [Field("action", Str(action)),
       Field("resource_type", Str(resourceType)),
       Field("resource_id", OptStr(resourceId)),
       Field("user_id", OptInt(userId)),
       Field("changes", Obj(OrEmpty(changes))),
       Field("timestamp", Str(now))],
      None)
  }

  /** `LoggerMixin.log_performance_metric`: an info record on the performance logger. */
  function PerformanceMetric(operation: string, durationMs: real,
                             additionalMetrics: Option<seq<Field>>): (r: Record)
    ensures IsPerformanceRecord(r)
    ensures r.message == "Performance: " + operation
    ensures Keys(r.attributes) == ["operation", "duration_ms", "metrics"]
    ensures r.attributes[0].value == Str(operation) && r.attributes[1].value == Num(durationMs)
    ensures r.attributes[2].value == Obj(OrEmpty(additionalMetrics))
  {
    Record(PerformanceLogger, Info, "Performance: " + operation,
      [Field("operation", Str(operation)),
       Field("duration_ms", Num(durationMs)),
       Field("metrics", Obj(OrEmpty(additionalMetrics)))],
      None)
  }

  /** `LoggerMixin.log_business_event`: an info record on the owner's module logger. */
  function BusinessEvent(moduleLogger: string, event: string, details: seq<Field>): (r: Record)
    ensures IsBusinessRecord(r, moduleLogger)
    ensures r.message == "Business Event: " + event
    ensures Keys(r.attributes) == ["event_type", "event", "details"]
    ensures r.attributes[0].value == Str("business") && r.attributes[1].value == Str(event)
    ensures r.attributes[2].value == Obj(details)
  {
    Record(moduleLogger, Info, "Business Event: " + event,
      [Field("event_type", Str("business")),
       Field("event", Str(event)),
       Field("details", Obj(details))],
      None)
  }

  /** Passing no dict and passing an empty dict produce the same record. */
  lemma MissingAndEmptyDictsAgree(eventType: string, description: string, userId: Option<int>,
                                  ip: Option<string>, request: Option<Request>,
                                  action: string, resourceType: string, resourceId: Option<string>,
                                  now: string, operation: string, durationMs: real)
    ensures SecurityEvent(eventType, description, userId, ip, request, None)
         == SecurityEvent(eventType, description, userId, ip, request, Some([]))
    ensures AuditEvent(action, resourceType, resourceId, userId, None, now)
         == AuditEvent(action, resourceType, resourceId, userId, Some([]), now)
    ensures PerformanceMetric(operation, durationMs, None) == PerformanceMetric(operation, durationMs, Some([]))
  {
  }

  /** The IP address is chosen by `ip_address or request.remote_addr`: an
      empty address counts as none, and a non-empty one makes the request
      irrelevant. */
  lemma SecurityIpFallback(eventType: string, description: string, userId: Option<int>,
                           ip: string, request: Option<Request>, other: Option<Request>,
                           additionalData: Option<seq<Field>>)
    ensures SecurityEvent(eventType, description, userId, Some(""), request, additionalData)
         == SecurityEvent(eventType, description, userId, None, request, additionalData)
    ensures ip != "" ==>
              SecurityEvent(eventType, description, userId, Some(ip), request, additionalData)
              == SecurityEvent(eventType, description, userId, Some(ip), other, additionalData)
  {
  }

  /** A record the logging library accepts: `extra=` may not overwrite one of
      the record's own attributes, nor `message` or `asctime`. */
  predicate Admissible(rec: Record) {
    forall f :: f in rec.attributes ==> !IsReserved(f.key) && f.key != "message" && f.key != "asctime"
  }

  /** The logging library accepts every record the builders make: none of
      their attribute names collides with a record attribute, so logging
      them never raises, and (by `ExtraIsCallerAttributes`) the formatted
      `extra` holds exactly their attributes. */
  lemma SecurityEventAdmissible(eventType: string, description: string, userId: Option<int>,
                                ip: Option<string>, request: Option<Request>, additionalData: Option<seq<Field>>)
    ensures Admissible(SecurityEvent(eventType, description, userId, ip, request, additionalData))
  {
    var r := SecurityEvent(eventType, description, userId, ip, request, additionalData);
    forall f | f in r.attributes
      ensures !IsReserved(f.key) && f.key != "message" && f.key != "asctime"
    {
      SecurityKeyAllowed(f.key);
    }
  }

  lemma AuditEventAdmissible(action: string, resourceType: string, resourceId: Option<string>,
                             userId: Option<int>, changes: Option<seq<Field>>, now: string)
    ensures Admissible(AuditEvent(action, resourceType, resourceId, userId, changes, now))
  {
    var r := AuditEvent(action, resourceType, resourceId, userId, changes, now);
    forall f | f in r.attributes
      ensures !IsReserved(f.key) && f.key != "message" && f.key != "asctime"
    {
      AuditKeyAllowed(f.key);
    }
  }

  lemma PerformanceMetricAdmissible(operation: string, durationMs: real, metrics: Option<seq<Field>>)
    ensures Admissible(PerformanceMetric(operation, durationMs, metrics))
  {
    var r := PerformanceMetric(operation, durationMs, metrics);
    forall f | f in r.attributes
      ensures !IsReserved(f.key) && f.key != "message" && f.key != "asctime"
    {
      PerformanceKeyAllowed(f.key);
    }
  }

  lemma BusinessEventAdmissible(moduleLogger: string, event: string, details: seq<Field>)
    ensures Admissible(BusinessEvent(moduleLogger, event, details))
  {
    var r := BusinessEvent(moduleLogger, event, details);
    forall f | f in r.attributes
      ensures !IsReserved(f.key) && f.key != "message" && f.key != "asctime"
    {
      BusinessKeyAllowed(f.key);
    }
  }

  // ------------------------------------------------------------ formatter

  /** Where and when a record was created; opaque to the model. */
  datatype Site = Site(
    pathname: string, filename: string, moduleName: string, funcName: string, lineno: int,
    created: real, msecs: real, relativeCreated: real,
    thread: int, threadName: string, processName: string, process: int)

  /** The application-context state the formatter reads: the request's
      correlation id, the current request, the user loaded for it, and the
      user id stored in the session cookie. */
  datatype Principal = Principal(id: int, username: string)
  datatype Context = Context(
    correlationId: Option<string>,
    request: Option<Request>,
    currentUser: Option<Principal>,
    sessionUserId: Option<int>)

  /** Builds an object's fields from parallel key and value lists. */
  function Zip(ks: seq<string>, vs: seq<Value>): (r: seq<Field>)
    requires |ks| == |vs|
    ensures |r| == |ks| && Keys(r) == ks
    ensures forall i :: 0 <= i < |r| ==> r[i].value == vs[i]
  {
    seq(|ks|, i requires 0 <= i < |ks| => Field(ks[i], vs[i]))
  }

  function ExcValue(e: Option<ExcInfo>): Value {
    if e.None? then Null else Arr([Str(e.value.typeName), Str(e.value.message)])
  }

  /** The record's own attributes, in the order of `ReservedAttributes`. */
  function StandardAttributes(rec: Record, site: Site): (r: seq<Field>)
    ensures Keys(r) == ReservedAttributes
  {
    Zip(ReservedAttributes,
      [Str(rec.logger), Str(rec.message), Arr([]), Str(LevelName(rec.level)),
       Int(LevelNumber(rec.level)), Str(site.pathname), Str(site.filename), Str(site.moduleName),
       Int(site.lineno), Str(site.funcName), Num(site.created), Num(site.msecs),
       Num(site.relativeCreated), Int(site.thread), Str(site.threadName),
       Str(site.processName), Int(site.process), ExcValue(rec.exception), Null, Null])
  }

  /** What a plain `logging.Formatter` leaves on a record it has formatted:
      the rendered `message` and, since the console format shows the time,
      `asctime`. `console` is that time text when the console formatter has
      already run on the record, `None` when it has not. */
  function ConsoleAttributes(rec: Record, console: Option<string>): (r: seq<Field>)
    ensures console.None? <==> r == []
    ensures console.Some? ==> Keys(r) == ["message", "asctime"]
  {
    if console.None? then []
    else [Field("message", Str(rec.message)), Field("asctime", Str(console.value))]
  }

  /** Whether the console formatter has run on a record before the JSON
      handlers format it. In development `setup_logging` puts the console
      handler on the root logger ahead of the JSON file handler, so this holds
      for every record that reaches the root; the security, audit and
      performance loggers do not propagate and have no console handler. */
  predicate ConsoleRunsFirst(development: bool, logger: string) {
    development && logger != SecurityLogger && logger != AuditLogger && logger != PerformanceLogger
  }

  /** The `console` stamp a record of `logger` carries when the JSON
      formatter reads it, given the time text `asctime` the console formatter
      would write. */
  function ConsoleStamp(development: bool, logger: string, asctime: string): (r: Option<string>)
    ensures r.Some? <==> ConsoleRunsFirst(development, logger)
    ensures r.Some? ==> r.value == asctime
  {
    if ConsoleRunsFirst(development, logger) then Some(asctime) else None
  }

  /** The record's attribute dictionary: its own attributes, then the
      caller's `extra=` attributes, then whatever an earlier console
      formatting added. */
  function AttributeDict(rec: Record, site: Site, console: Option<string>): (r: seq<Field>)
    ensures |r| == |ReservedAttributes| + |rec.attributes| + |ConsoleAttributes(rec, console)|
    ensures Keys(r)[..|ReservedAttributes|] == ReservedAttributes
    ensures r[|r| - |rec.attributes + ConsoleAttributes(rec, console)|..] == rec.attributes + ConsoleAttributes(rec, console)
  {
    StandardAttributes(rec, site) + (rec.attributes + ConsoleAttributes(rec, console))
  }

  /** The formatter's extra-field collection. */
  function ExtraFields(dict: seq<Field>): seq<Field> {
    Filter(dict, (f: Field) => !IsReserved(f.key))
  }

  /** The record's own attributes are all reserved. */
  lemma StandardAttributesReserved(rec: Record, site: Site)
    ensures forall i :: 0 <= i < |StandardAttributes(rec, site)| ==>
              IsReserved(StandardAttributes(rec, site)[i].key)
  {
    var std := StandardAttributes(rec, site);
    assert forall i :: 0 <= i < |std| ==> std[i].key == ReservedAttributes[i];
  }

  /** The extra fields the formatter collects are exactly the caller's
      `extra=` attributes, in order, followed by `message` and `asctime` when
      the console formatter ran first. */
  lemma ExtraIsCallerAttributes(rec: Record, site: Site, console: Option<string>)
    requires Admissible(rec)
    ensures ExtraFields(AttributeDict(rec, site, console)) == rec.attributes + ConsoleAttributes(rec, console)
  {
    StandardAttributesReserved(rec, site);
    var keep := (f: Field) => !IsReserved(f.key);
    var added := rec.attributes + ConsoleAttributes(rec, console);
    forall i | 0 <= i < |added| ensures keep(added[i]) {
      if i < |rec.attributes| {
        assert added[i] in rec.attributes;
      } else {
        ConsoleKeyNotReserved(added[i].key);
      }
    }
    FilterDropsPrefix(StandardAttributes(rec, site), added, keep);
  }

  function RequestValue(q: Request): Value {
    Obj([Field("method", Str(q.httpMethod)),
         Field("url", Str(q.url)),
         Field("remote_addr", OptStr(q.remoteAddr)),
         Field("user_agent", Str(q.userAgent)),
         Field("endpoint", OptStr(q.endpoint))])
  }

  /** The `user` part of an entry: the loaded user, else the session's user id. */
  function UserPart(ctx: Context): (r: seq<Field>)
    ensures |r| <= 1
    ensures r != [] <==> ctx.currentUser.Some? || ctx.sessionUserId.Some?
    ensures ctx.currentUser.Some? ==>
              r == [Field("user", Obj([Field("id", Int(ctx.currentUser.value.id)),
                                       Field("username", Str(ctx.currentUser.value.username))]))]
    ensures ctx.currentUser.None? && ctx.sessionUserId.Some? ==>
              r == [Field("user", Obj([Field("id", Int(ctx.sessionUserId.value))]))]
  {
    if ctx.currentUser.Some? then
      [Field("user", Obj([Field("id", Int(ctx.currentUser.value.id)),
                          Field("username", Str(ctx.currentUser.value.username))]))]
    else if ctx.sessionUserId.Some? then
      [Field("user", Obj([Field("id", Int(ctx.sessionUserId.value))]))]
    else []
  }

  /** The request part of an entry: present only inside a request. */
  function RequestPart(ctx: Context): seq<Field> {
    if ctx.request.Some? then [Field("request", RequestValue(ctx.request.value))] + UserPart(ctx)
    else []
  }

  function Strs(xs: seq<string>): (r: seq<Value>)
    ensures |r| == |xs| && forall i :: 0 <= i < |xs| ==> r[i] == Str(xs[i])
  {
    if xs == [] then [] else [Str(xs[0])] + Strs(xs[1..])
  }

  function ExceptionPart(e: Option<ExcInfo>, traceback: seq<string>): seq<Field> {
    if e.None? then []
    else [Field("exception", Obj([Field("type", Str(e.value.typeName)),
                                  Field("message", Str(e.value.message)),
                                  Field("traceback", Arr(Strs(traceback)))]))]
  }

  function ExtraPart(extra: seq<Field>, includeExtra: bool): seq<Field> {
    if includeExtra && extra != [] then [Field("extra", Obj(extra))] else []
  }

  /** The correlation id, when the application context has one. */
  function CorrelationPart(ctx: Context): seq<Field> {
    if ctx.correlationId.Some? then [Field("correlation_id", Str(ctx.correlationId.value))] else []
  }

  /** What the entry says about the request being served. */
  function ContextFields(ctx: Context): seq<Field> {
    CorrelationPart(ctx) + RequestPart(ctx)
  }

  /** The fields every entry starts with. */
  function HeadFields(rec: Record, site: Site, timestamp: string): (r: seq<Field>)
    ensures |r| == 9
    ensures Keys(r) == ["timestamp", "level", "logger", "message", "module",
                        "function", "line", "thread", "process"]
  {
    [Field("timestamp", Str(timestamp)),
     Field("level", Str(LevelName(rec.level))),
     Field("logger", Str(rec.logger)),
     Field("message", Str(rec.message)),
     Field("module", Str(site.moduleName)),
     Field("function", Str(site.funcName)),
     Field("line", Int(site.lineno)),
     Field("thread", Int(site.thread)),
     Field("process", Int(site.process))]
  }

  /** `StructuredFormatter.format`, as the JSON object it serialises;
      `console` says whether the console formatter ran on the record first,
      `timestamp` is the formatting time and `traceback` the formatted
      traceback of the record's exception. */
  function Entry(rec: Record, site: Site, ctx: Context, includeExtra: bool, console: Option<string>,
                 timestamp: string, traceback: seq<string>): (r: Value)
    ensures r.Obj? && |r.fields| >= 9
    ensures r.fields[0] == Field("timestamp", Str(timestamp))
    ensures r.fields[1] == Field("level", Str(LevelName(rec.level)))
    ensures r.fields[2] == Field("logger", Str(rec.logger))
    ensures r.fields[3] == Field("message", Str(rec.message))
  {
    Obj(HeadFields(rec, site, timestamp)
        + ContextFields(ctx)
        + (ExceptionPart(rec.exception, traceback)
           + ExtraPart(ExtraFields(AttributeDict(rec, site, console)), includeExtra)))
  }

  /** `SecurityFormatter.format`: the structured entry with every sensitive
      key masked, at any depth. Its two streams do not propagate, so the
      console formatter never runs on their records first. */
  function SecureEntry(rec: Record, site: Site, ctx: Context,
                       timestamp: string, traceback: seq<string>): (r: Value)
    ensures FullyMasked(r)
    ensures SameOutsideSecrets(Entry(rec, site, ctx, true, None, timestamp, traceback), r)
  {
    var e := Entry(rec, site, ctx, true, None, timestamp, traceback);
    MaskHidesSecretsOnly(e);
    Mask(e)
  }

  /** No entry of `fs` is keyed `k`. */
  predicate Lacks(fs: seq<Field>, k: string) {
    forall i :: 0 <= i < |fs| ==> fs[i].key != k
  }

  lemma LacksAppend(a: seq<Field>, b: seq<Field>, k: string)
    requires Lacks(a, k) && Lacks(b, k)
    ensures Lacks(a + b, k)
  {
    forall i | 0 <= i < |a + b| ensures (a + b)[i].key != k {
      if i >= |a| {
        assert (a + b)[i] == b[i - |a|];
      }
    }
  }

  /** The formatter's own top-level keys never read `extra`. */
  lemma FixedPartsLackExtra(rec: Record, site: Site, ctx: Context, timestamp: string,
                            traceback: seq<string>, x: string)
    requires x == "extra"
    ensures Lacks(HeadFields(rec, site, timestamp), x)
    ensures Lacks(ContextFields(ctx), x)
    ensures Lacks(ExceptionPart(rec.exception, traceback), x)
  {
    assert |x| == 5 && x[0] == 'e';
    LacksAppend(CorrelationPart(ctx), RequestPart(ctx), x);
  }

  /** The entry carries an `extra` object exactly when extra fields are
      enabled and the record has caller attributes or was console-formatted,
      and it then holds those attributes. */
  lemma EntryExtraIff(rec: Record, site: Site, ctx: Context, includeExtra: bool, console: Option<string>,
                      timestamp: string, traceback: seq<string>)
    requires Admissible(rec)
    ensures Get(Entry(rec, site, ctx, includeExtra, console, timestamp, traceback).fields, "extra")
         == if includeExtra && rec.attributes + ConsoleAttributes(rec, console) != []
            then Some(Obj(rec.attributes + ConsoleAttributes(rec, console))) else None
  {
    ExtraIsCallerAttributes(rec, site, console);
    var h := HeadFields(rec, site, timestamp);
    var c := ContextFields(ctx);
    var x := ExceptionPart(rec.exception, traceback);
    var tail := ExtraPart(rec.attributes + ConsoleAttributes(rec, console), includeExtra);
    FixedPartsLackExtra(rec, site, ctx, timestamp, traceback, "extra");
    assert Entry(rec, site, ctx, includeExtra, console, timestamp, traceback).fields == h + c + (x + tail);
    assert h + c + (x + tail) == h + c + x + tail;
    LacksAppend(h, c, "extra");
    LacksAppend(h + c, x, "extra");
    GetAppendMissing(h + c + x, tail, "extra");
  }

  /** In development every entry the application log writes for a
      propagating record has an `extra` object ending in the console's
      `message` and `asctime`, even when the caller attached nothing; in
      production the `extra` object is exactly the caller's attributes. */
  lemma DevelopmentEntriesCarryConsoleFields(rec: Record, site: Site, ctx: Context, development: bool,
                                             asctime: string, timestamp: string, traceback: seq<string>)
    requires Admissible(rec)
    ensures var e := Entry(rec, site, ctx, true, ConsoleStamp(development, rec.logger, asctime), timestamp, traceback);
            ConsoleRunsFirst(development, rec.logger) ==>
              Get(e.fields, "extra") == Some(Obj(rec.attributes + [Field("message", Str(rec.message)),
                                                                   Field("asctime", Str(asctime))]))
    ensures var e := Entry(rec, site, ctx, true, ConsoleStamp(false, rec.logger, asctime), timestamp, traceback);
            Get(e.fields, "extra") == if rec.attributes == [] then None else Some(Obj(rec.attributes))
  {
    EntryExtraIff(rec, site, ctx, true, ConsoleStamp(development, rec.logger, asctime), timestamp, traceback);
    EntryExtraIff(rec, site, ctx, true, ConsoleStamp(false, rec.logger, asctime), timestamp, traceback);
    assert rec.attributes + [] == rec.attributes;
  }

  /** The entry has an `exception` object exactly when the record was logged
      with an exception, and it then holds the type, message and traceback. */
  lemma EntryExceptionIff(rec: Record, site: Site, ctx: Context, includeExtra: bool, console: Option<string>,
                          timestamp: string, traceback: seq<string>)
    ensures Get(Entry(rec, site, ctx, includeExtra, console, timestamp, traceback).fields, "exception")
         == if rec.exception.None? then None
            else Some(Obj([Field("type", Str(rec.exception.value.typeName)),
                           Field("message", Str(rec.exception.value.message)),
                           Field("traceback", Arr(Strs(traceback)))]))
  {
    var h := HeadFields(rec, site, timestamp);
    var c := ContextFields(ctx);
    var x := ExceptionPart(rec.exception, traceback);
    var tail := ExtraPart(ExtraFields(AttributeDict(rec, site, console)), includeExtra);
    FixedPartsLackException(rec, site, ctx, timestamp, "exception");
    assert Entry(rec, site, ctx, includeExtra, console, timestamp, traceback).fields == (h + c) + (x + tail);
    LacksAppend(h, c, "exception");
    GetAppendMissing(h + c, x + tail, "exception");
  }

  /** The entry has a `user` object exactly inside a request whose user is
      loaded or whose session names a user id; it then holds the loaded
      user's id and name, else the session's bare id. */
  lemma EntryUserIff(rec: Record, site: Site, ctx: Context, includeExtra: bool, console: Option<string>,
                     timestamp: string, traceback: seq<string>)
    ensures Get(Entry(rec, site, ctx, includeExtra, console, timestamp, traceback).fields, "user")
         == if ctx.request.None? then None
            else if ctx.currentUser.Some? then
              Some(Obj([Field("id", Int(ctx.currentUser.value.id)),
                        Field("username", Str(ctx.currentUser.value.username))]))
            else if ctx.sessionUserId.Some? then Some(Obj([Field("id", Int(ctx.sessionUserId.value))]))
            else None
  {
    var e := Entry(rec, site, ctx, includeExtra, console, timestamp, traceback);
    var users := if ctx.request.Some? then UserPart(ctx) else [];
    UserLookup(rec, site, ctx, includeExtra, console, timestamp, traceback, "user");
    assert Get(e.fields, "user") == if users == [] then None else Some(users[0].value);
  }

  /** The `user` lookup on an entry reads the first entry of its user part. */
  lemma UserLookup(rec: Record, site: Site, ctx: Context, includeExtra: bool, console: Option<string>,
                   timestamp: string, traceback: seq<string>, k: string)
    requires k == "user"
    ensures var users := if ctx.request.Some? then UserPart(ctx) else [];
            Get(Entry(rec, site, ctx, includeExtra, console, timestamp, traceback).fields, k)
            == if users == [] then None else Some(users[0].value)
  {
    var h := HeadFields(rec, site, timestamp);
    var c := CorrelationPart(ctx);
    var q := if ctx.request.Some? then [Field("request", RequestValue(ctx.request.value))] else [];
    var users := if ctx.request.Some? then UserPart(ctx) else [];
    var x := ExceptionPart(rec.exception, traceback);
    var tail := ExtraPart(ExtraFields(AttributeDict(rec, site, console)), includeExtra);
    EntryAroundUser(rec, site, ctx, includeExtra, console, timestamp, traceback);
    FixedPartsLackUser(rec, site, ctx, timestamp, traceback, tail, k);
    LacksAppend(h, c, k);
    LacksAppend(h + c, q, k);
    LacksAppend(x, tail, k);
    GetBetween(h + c + q, users, x + tail, k);
  }

  /** An entry split around its user part. */
  lemma EntryAroundUser(rec: Record, site: Site, ctx: Context, includeExtra: bool, console: Option<string>,
                        timestamp: string, traceback: seq<string>)
    ensures Entry(rec, site, ctx, includeExtra, console, timestamp, traceback).fields
         == (HeadFields(rec, site, timestamp) + CorrelationPart(ctx)
             + (if ctx.request.Some? then [Field("request", RequestValue(ctx.request.value))] else []))
            + ((if ctx.request.Some? then UserPart(ctx) else [])
               + (ExceptionPart(rec.exception, traceback)
                  + ExtraPart(ExtraFields(AttributeDict(rec, site, console)), includeExtra)))
  {
    var h := HeadFields(rec, site, timestamp);
    var c := CorrelationPart(ctx);
    var q := if ctx.request.Some? then [Field("request", RequestValue(ctx.request.value))] else [];
    var users := if ctx.request.Some? then UserPart(ctx) else [];
    var rest := ExceptionPart(rec.exception, traceback)
                + ExtraPart(ExtraFields(AttributeDict(rec, site, console)), includeExtra);
    assert RequestPart(ctx) == q + users;
    assert Entry(rec, site, ctx, includeExtra, console, timestamp, traceback).fields == h + (c + (q + users)) + rest;
    SeqAssoc4(h, c, q, users, rest);
  }

  lemma SeqAssoc4<T>(a: seq<T>, b: seq<T>, c: seq<T>, d: seq<T>, e: seq<T>)
    ensures a + (b + (c + d)) + e == (a + b + c) + (d + e)
  {
  }

  /** Only the user part of an entry uses the key `user`. */
  lemma FixedPartsLackUser(rec: Record, site: Site, ctx: Context, timestamp: string,
                           traceback: seq<string>, tail: seq<Field>, x: string)
    requires x == "user"
    requires tail == [] || tail == [Field("extra", tail[0].value)]
    ensures Lacks(HeadFields(rec, site, timestamp), x)
    ensures Lacks(CorrelationPart(ctx), x)
    ensures Lacks(if ctx.request.Some? then [Field("request", RequestValue(ctx.request.value))] else [], x)
    ensures Lacks(ExceptionPart(rec.exception, traceback), x)
    ensures Lacks(tail, x)
  {
    assert |x| == 4 && x[0] == 'u';
  }

  /** Between two parts that lack `k`, a lookup of `k` sees only the first
      entry of the middle part, which is keyed `k` when there is one. */
  lemma GetBetween(front: seq<Field>, mid: seq<Field>, rest: seq<Field>, k: string)
    requires Lacks(front, k) && Lacks(rest, k)
    requires mid == [] || mid[0].key == k
    ensures Get(front + (mid + rest), k) == if mid == [] then None else Some(mid[0].value)
  {
    GetAppendMissing(front, mid + rest, k);
    if mid == [] {
      assert mid + rest == rest + [];
      GetAppendMissing(rest, [], k);
    } else {
      GetFirst(mid + rest, k, 0);
    }
  }

  /** The fixed and context parts never use the key `exception`. */
  lemma FixedPartsLackException(rec: Record, site: Site, ctx: Context, timestamp: string, x: string)
    requires x == "exception"
    ensures Lacks(HeadFields(rec, site, timestamp), x)
    ensures Lacks(ContextFields(ctx), x)
  {
    assert |x| == 9 && x[0] == 'e';
    LacksAppend(CorrelationPart(ctx), RequestPart(ctx), x);
  }

  // ------------------------------------------------------- request hooks

  /** `before_request` of the request-logging setup: the request gets the
      fresh correlation id `cid` and a start time, and a start record is
      logged on the application logger. */
  function BeginRequest(appLogger: string, ctx: Context, req: Request, cid: string): (r: (Context, Record))
    ensures r.0 == ctx.(correlationId := Some(cid), request := Some(req))
    ensures r.1.logger == appLogger && r.1.level == Info && r.1.message == "Request started"
    ensures Keys(r.1.attributes) == ["event_type", "method", "url", "correlation_id"]
    ensures r.1.attributes[0].value == Str("request_start")
    ensures r.1.attributes[3].value == Str(cid)
  {
    (ctx.(correlationId := Some(cid), request := Some(req)),
     Record(appLogger, Info, "Request started",
       [Field("event_type", Str("request_start")),
        Field("method", Str(req.httpMethod)),
        Field("url", Str(req.url)),
        Field("correlation_id", Str(cid))],
       None))
  }

  /** Every entry formatted while a correlation id is set carries it right
      after the fixed fields; after `BeginRequest` that is the id its start
      record announced. */
  lemma EntryCarriesCorrelationId(rec: Record, site: Site, ctx: Context, includeExtra: bool,
                                  console: Option<string>, timestamp: string, traceback: seq<string>)
    requires ctx.correlationId.Some?
    ensures var e := Entry(rec, site, ctx, includeExtra, console, timestamp, traceback);
            |e.fields| > 9 && e.fields[9] == Field("correlation_id", Str(ctx.correlationId.value))
  {
    var h := HeadFields(rec, site, timestamp);
    var c := ContextFields(ctx);
    var rest := ExceptionPart(rec.exception, traceback)
                + ExtraPart(ExtraFields(AttributeDict(rec, site, console)), includeExtra);
    assert Entry(rec, site, ctx, includeExtra, console, timestamp, traceback).fields == h + c + rest;
    assert c[0] == Field("correlation_id", Str(ctx.correlationId.value));
    ElementAfterPrefix(h, c, rest);
  }

  lemma ElementAfterPrefix(h: seq<Field>, c: seq<Field>, rest: seq<Field>)
    requires |c| >= 1
    ensures |h + c + rest| > |h| && (h + c + rest)[|h|] == c[0]
  {
  }

  /** `after_request`: the response passes through unchanged; a completion
      record with the (already rounded) duration is logged only when the
      request's start time was recorded. */
  function EndRequest<R>(appLogger: string, response: R, statusCode: int, started: bool,
                         durationMs: real, correlationId: Option<string>): (r: (R, Option<Record>))
    ensures r.0 == response
    ensures r.1.Some? <==> started
    ensures r.1.Some? ==> r.1.value.logger == appLogger && r.1.value.level == Info
                          && r.1.value.message == "Request completed"
                          && Keys(r.1.value.attributes) == ["event_type", "status_code", "duration_ms", "correlation_id"]
                          && r.1.value.attributes[1].value == Int(statusCode)
                          && r.1.value.attributes[3].value == Str(correlationId.GetOr("unknown"))
  {
    if !started then (response, None)
    else
      (response,
       Some(Record(appLogger, Info, "Request completed",
         [Field("event_type", Str("request_end")),
          Field("status_code", Int(statusCode)),
          Field("duration_ms", Num(durationMs)),
          Field("correlation_id", Str(correlationId.GetOr("unknown")))],
         None)))
  }

  /** The records that bracket a request, and the error record of a request
      that fails, all carry the correlation id its start record announced. */
  lemma RequestBracketsShareCorrelationId<R>(appLogger: string, ctx: Context, req: Request, cid: string,
                                             response: R, statusCode: int, durationMs: real, error: ExcInfo)
    ensures var (begun, start) := BeginRequest(appLogger, ctx, req, cid);
            var (_, done) := EndRequest(appLogger, response, statusCode, true, durationMs, begun.correlationId);
            done.Some? && done.value.attributes[3] == start.attributes[3]
            && HandleException(appLogger, error, begun.correlationId).logged.attributes[2] == start.attributes[3]
  {
  }

  /** The generic reply to an unhandled exception, and what is logged about it. */
  datatype ErrorReply = ErrorReply(body: string, status: int, logged: Record)

  /** `handle_exception`: an error record carrying the exception, its type
      name and the correlation id (`unknown` outside a request), and a fixed
      500 reply. */
  function HandleException(appLogger: string, error: ExcInfo, correlationId: Option<string>): (r: ErrorReply)
    ensures r.status == 500 && r.body == "Internal Server Error"
    ensures r.logged.logger == appLogger && r.logged.level == Error
    ensures r.logged.exception == Some(error)
    ensures r.logged.message == "Unhandled exception: " + error.message
    ensures Keys(r.logged.attributes) == ["event_type", "error_type", "correlation_id"]
    ensures r.logged.attributes[1].value == Str(error.typeName)
    ensures correlationId.Some? ==> r.logged.attributes[2].value == Str(correlationId.value)
    ensures correlationId.None? ==> r.logged.attributes[2].value == Str("unknown")
  {
    ErrorReply("Internal Server Error", 500,
      Record(appLogger, Error, "Unhandled exception: " + error.message,
        [Field("event_type", Str("unhandled_exception")),
         Field("error_type", Str(error.typeName)),
         Field("correlation_id", Str(correlationId.GetOr("unknown")))],
        Some(error)))
  }

  /** The client learns nothing about the exception: any two exceptions get
      the same reply, while the log tells them apart. */
  lemma ErrorReplyHidesException(appLogger: string, e1: ExcInfo, e2: ExcInfo, cid: Option<string>)
    ensures HandleException(appLogger, e1, cid).body == HandleException(appLogger, e2, cid).body
    ensures HandleException(appLogger, e1, cid).status == HandleException(appLogger, e2, cid).status
    ensures e1 != e2 ==> HandleException(appLogger, e1, cid).logged != HandleException(appLogger, e2, cid).logged
  {
  }
}
