/** The attribute names of a Python log record, and the names a caller may
    attach with `extra=` without colliding with them. */
module Attributes {

  /** The attributes every log record carries itself; the formatter drops
      exactly these when it collects the caller's extra attributes. */
  const ReservedAttributes: seq<string> :=
    ["name", "msg", "args", "levelname", "levelno", "pathname",
     "filename", "module", "lineno", "funcName", "created",
     "msecs", "relativeCreated", "thread", "threadName",
     "processName", "process", "exc_info", "exc_text", "stack_info"]

  predicate IsReserved(k: string) {
    k in ReservedAttributes
  }

  /** A key `extra=` may use. */
  predicate AllowedKey(k: string) {
    !IsReserved(k) && k != "message" && k != "asctime"
  }

  /** The attribute names each record builder uses may be passed with `extra=`. */
  lemma SecurityKeyAllowed(k: string)
    requires k == "event_type" || k == "description" || k == "user_id"
             || k == "ip_address" || k == "additional_data"
    ensures AllowedKey(k)
  {
  }

  lemma AuditKeyAllowed(k: string)
    requires k == "action" || k == "resource_type" || k == "resource_id"
             || k == "user_id" || k == "changes" || k == "timestamp"
    ensures AllowedKey(k)
  {
  }

  lemma PerformanceKeyAllowed(k: string)
    requires k == "operation" || k == "duration_ms" || k == "metrics"
    ensures AllowedKey(k)
  {
  }

  lemma BusinessKeyAllowed(k: string)
    requires k == "event_type" || k == "event" || k == "details"
    ensures AllowedKey(k)
  {
  }

  /** The two attributes a plain formatter sets are not record attributes. */
  lemma ConsoleKeyNotReserved(k: string)
    requires k == "message" || k == "asctime"
    ensures !IsReserved(k)
  {
  }
}
