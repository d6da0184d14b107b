/**
 * The parts of js-joda that the parsers call, as values.
 *
 * The repository delegates all calendar and time-zone arithmetic to js-joda.
 * Its value types (LocalDate, Instant, ZoneId, ZonedDateTime, ...) become
 * datatypes here, and every library call the parsers make becomes a field of
 * the record `JsJoda`: a function value that the parsers receive as a
 * parameter and never look inside. Failures, both the parsers' own and
 * js-joda's, are the outcome datatype `Failure`.
 */
module JsJoda {

  /** A year/month/day with no time of day and no zone. */
  datatype LocalDate = LocalDate(year: int, month: int, day: int)

  /** A point on the UTC time-line, counted in seconds from 1970-01-01T00:00:00Z. */
  datatype Instant = Instant(epochSecond: int)

  /** A zone: the host's own (ZoneId.SYSTEM), or a named region such as "Europe/London". */
  datatype ZoneId = SystemDefault | Region(id: string)

  /** ZoneId.toString and ZoneId.id(): the region name, or "SYSTEM" for the host's zone. */
  function ZoneText(z: ZoneId): string {
    match z
    case SystemDefault => "SYSTEM"
    case Region(id) => id
  }

  /** A date and time of day as seen in a zone. */
  datatype ZonedDateTime = ZonedDateTime(date: LocalDate, secondOfDay: int, zone: ZoneId)

  /** A date and time of day with no zone. */
  datatype LocalDateTime = LocalDateTime(date: LocalDate, secondOfDay: int)

  datatype Locale = Locale(tag: string)

  datatype ResolverStyle = Strict | Smart | Lenient

  /** A pattern-based formatter; `locale == None` stands for js-joda's default locale. */
  datatype DateTimeFormatter = DateTimeFormatter(pattern: string, locale: Option<Locale>, resolverStyle: ResolverStyle)
  {
    function WithLocale(l: Locale): DateTimeFormatter {
      this.(locale := Some(l))
    }

    function WithResolverStyle(style: ResolverStyle): DateTimeFormatter {
      this.(resolverStyle := style)
    }
  }

  /** DateTimeFormatter.ofPattern: js-joda's default locale and the SMART resolver style. */
  function OfPattern(pattern: string): DateTimeFormatter {
    DateTimeFormatter(pattern, None, Smart)
  }

  datatype Option<+T> = None | Some(value: T)

  /** Why a call failed. Every failure ends the call; none carries a partial result. */
  datatype Failure =
    | ShapeError(msg: string)                       // the input has the wrong shape for the target type
    | ZoneMismatch(expected: ZoneId, given: ZoneId, msg: string) // the observer zone is not the configured one
    | NotImplemented(msg: string)                   // the operation is deliberately unsupported
    | ConfigError(msg: string)                      // a test-only setting outside a test run
    | ParseError(msg: string)                       // raised by js-joda itself

  datatype Result<+T> = Ok(value: T) | Err(failure: Failure)

  /**
   * The js-joda calls the parsers make, each as a total function value:
   * Instant.parse, LocalDate.parse (ISO form), ZonedDateTime.ofInstant and
   * LocalDate.parse with a formatter. Each may fail, ofInstant for instance
   * when the local date-time falls outside LocalDateTime's range. Pattern errors that
   * DateTimeFormatter.ofPattern would raise are part of `parseWithFormatter`.
   */
  datatype JsJoda = JsJoda(
    instantParse: string -> Result<Instant>,
    localDateParse: string -> Result<LocalDate>,
    ofInstant: (Instant, ZoneId) -> Result<ZonedDateTime>,
    parseWithFormatter: (string, DateTimeFormatter) -> Result<LocalDate>)

  function DigitChar(n: int): (c: char)
    requires 0 <= n <= 9
    ensures '0' <= c <= '9' && c as int - '0' as int == n
  {
    ('0' as int + n) as char
  }

  /** Two decimal digits, with a leading zero. */
  function TwoDigits(n: int): (s: string)
    requires 0 <= n <= 99
    ensures |s| == 2
  {
    [DigitChar(n / 10), DigitChar(n % 10)]
  }

  /**
   * LocalDate.toString for years 0..9999: the year padded to four digits,
   * then "-MM-DD".
   */
  function IsoFormat(d: LocalDate): (s: string)
    requires 0 <= d.year <= 9999 && 0 <= d.month <= 99 && 0 <= d.day <= 99
    ensures |s| == 10 && s[4] == '-' && s[7] == '-'
  {
    TwoDigits(d.year / 100) + TwoDigits(d.year % 100) + "-" + TwoDigits(d.month) + "-" + TwoDigits(d.day)
  }
}
