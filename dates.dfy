/**
 * Due dates. A due date is text in one of two forms: an RFC 3339 section 5.6
 * `date-time` (with an offset), or the `%Y-%m-%dT%H:%M` wall-clock form an
 * HTML `datetime-local` input produces. Parsing, the local time zone and the
 * clock are not modelled; they are the fields of a `Clock`. Instants are whole
 * numbers on one time line, wall-clock readings numbers on another.
 */
module Dates {
  import opened Wrappers

  /** An RFC 3339 timestamp: the wall-clock reading it was written with, and the instant it denotes. */
  datatype Stamp = Stamp(wall: int, instant: int)

  datatype Clock = Clock(
    /** `DateTime::parse_from_rfc3339`. */
    rfc3339: string -> Option<Stamp>,
    /** `NaiveDateTime::parse_from_str(_, "%Y-%m-%dT%H:%M")`. */
    wallClock: string -> Option<int>,
    /** `Local.from_local_datetime(_).single()`: `None` when the reading is ambiguous or skipped in the local zone. */
    local: int -> Option<int>,
    /** `format("%Y-%m-%d %H:%M")` of a wall-clock reading. */
    formatWall: int -> string,
    /** `with_timezone(&Utc).to_rfc3339()` of an instant. */
    utcRfc3339: int -> string,
    /** `Utc::now()`. */
    now: int)

  /** The instant a due date denotes: an RFC 3339 stamp, or a wall-clock reading with a single local instant. */
  function DueInstant(c: Clock, s: string): Option<int> {
    if c.rfc3339(s).Some? then Some(c.rfc3339(s).value.instant)
    else if c.wallClock(s).Some? then c.local(c.wallClock(s).value)
    else None
  }

  /** `convert_datetime_local_to_rfc3339`. */
  function ConvertToRfc3339(c: Clock, s: string): (r: string)
    ensures r != s ==> s != [] && c.wallClock(s).Some? && c.local(c.wallClock(s).value).Some?
  {
    if s == [] then []
    else if c.wallClock(s).Some? && c.local(c.wallClock(s).value).Some? then
      c.utcRfc3339(c.local(c.wallClock(s).value).value)
    else s
  }

  /** `format_date`: either form as "YYYY-MM-DD HH:MM" of its own wall clock; any other text unchanged. */
  function FormatDate(c: Clock, s: string): (r: string)
    ensures r != s ==> c.rfc3339(s).Some? || c.wallClock(s).Some?
  {
    if c.rfc3339(s).Some? then c.formatWall(c.rfc3339(s).value.wall)
    else if c.wallClock(s).Some? then c.formatWall(c.wallClock(s).value)
    else s
  }

  /** `parse_date_for_sort`: the instant of the date, and the present for text without a single instant. */
  function SortInstant(c: Clock, s: string): (t: int)
    ensures t == DueInstant(c, s).GetOr(c.now)
  {
    if c.rfc3339(s).Some? then c.rfc3339(s).value.instant
    else if c.wallClock(s).Some? && c.local(c.wallClock(s).value).Some? then c.local(c.wallClock(s).value).value
    else c.now
  }

  // ---------------------------------------------------------------------------
  // Properties

  /** Conversion: "" stays "", a wall-clock reading with one local instant becomes that instant in UTC, and anything else is kept. */
  lemma ConvertCases(c: Clock, s: string)
    ensures s == [] ==> ConvertToRfc3339(c, s) == []
    ensures s != [] && c.wallClock(s).Some? && c.local(c.wallClock(s).value).Some? ==>
      ConvertToRfc3339(c, s) == c.utcRfc3339(c.local(c.wallClock(s).value).value)
    ensures c.wallClock(s).None? || c.local(c.wallClock(s).value).None? ==> ConvertToRfc3339(c, s) == s
  {
  }

  /**
   * A wall-clock reading converted to RFC 3339 denotes the same instant, so
   * conversion keeps the sort position, provided the renderer writes what the
   * parser reads.
   */
  lemma ConvertKeepsInstant(c: Clock, s: string)
    requires s != [] && c.wallClock(s).Some? && c.local(c.wallClock(s).value).Some?
    requires c.rfc3339(s).None?
    requires var t := c.local(c.wallClock(s).value).value;
      c.rfc3339(c.utcRfc3339(t)).Some? && c.rfc3339(c.utcRfc3339(t)).value.instant == t
    ensures DueInstant(c, ConvertToRfc3339(c, s)) == DueInstant(c, s)
    ensures SortInstant(c, ConvertToRfc3339(c, s)) == SortInstant(c, s)
  {
  }

  /** Text that is neither form is shown as written. */
  lemma FormatKeepsOtherText(c: Clock, s: string)
    requires c.rfc3339(s).None? && c.wallClock(s).None?
    ensures FormatDate(c, s) == s
  {
  }
}
