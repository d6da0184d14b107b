/**
 * FromServerParser: strings sent by a backend.
 *
 * A backend may send exactly two shapes: an RFC 3339 instant ending in the
 * Zulu marker `Z` (section 5.6 of RFC 3339), or a bare calendar date
 * `YYYY-MM-DD`. The parser sniffs the shape with two cheap predicates and
 * only then hands the string to js-joda, which has the last word. Deriving a
 * day from an instant is allowed only in the observer zone the parser was
 * configured with.
 */
module FromServer {
  import opened JsJoda
  import opened Text

  // ---------------------------------------------------------------------
  // Shape sniffing
  // ---------------------------------------------------------------------

  predicate IsDigit(c: char) {
    '0' <= c <= '9'
  }

  function DigitValue(c: char): int {
    c as int - '0' as int
  }

  /** smellsLikeAnInstantString: the input ends with `Z`. */
  predicate IsInstantShaped(input: string) {
    |input| > 0 && input[|input| - 1] == 'Z'
  }

  /** The year alternative of the date regex: `19[0-9]{2}` or `2[0-9]{3}`. */
  predicate YearMatches(a: char, b: char, c: char, d: char) {
    || (a == '1' && b == '9' && IsDigit(c) && IsDigit(d))
    || (a == '2' && IsDigit(b) && IsDigit(c) && IsDigit(d))
  }

  /** The month alternative: `0[1-9]` or `1[012]`. */
  predicate MonthMatches(a: char, b: char) {
    || (a == '0' && '1' <= b <= '9')
    || (a == '1' && (b == '0' || b == '1' || b == '2'))
  }

  /** The day alternative: `[123]0`, `[012][1-9]` or `31`. */
  predicate DayMatches(a: char, b: char) {
    || ((a == '1' || a == '2' || a == '3') && b == '0')
    || ((a == '0' || a == '1' || a == '2') && '1' <= b <= '9')
    || (a == '3' && b == '1')
  }

  /**
   * smellsLikeALocalDateString: the anchored regular expression
   * `^(year)-(month)-(day)$`, one character class at a time.
   */
  predicate IsDateShaped(input: string) {
    && |input| == 10
    && YearMatches(input[0], input[1], input[2], input[3])
    && input[4] == '-'
    && MonthMatches(input[5], input[6])
    && input[7] == '-'
    && DayMatches(input[8], input[9])
  }

  // A reference reading of the same shape: ten characters `DDDD-DD-DD`
  // whose numeric fields lie in the accepted ranges.

  function Year(s: string): int
    requires |s| == 10
  {
    1000 * DigitValue(s[0]) + 100 * DigitValue(s[1]) + 10 * DigitValue(s[2]) + DigitValue(s[3])
  }

  function Month(s: string): int
    requires |s| == 10
  {
    10 * DigitValue(s[5]) + DigitValue(s[6])
  }

  function Day(s: string): int
    requires |s| == 10
  {
    10 * DigitValue(s[8]) + DigitValue(s[9])
  }

  predicate IsIsoDateInRange(s: string) {
    && |s| == 10
    && s[4] == '-' && s[7] == '-'
    && (forall i :: 0 <= i < 10 && i != 4 && i != 7 ==> IsDigit(s[i]))
    && 1900 <= Year(s) <= 2999
    && 1 <= Month(s) <= 12
    && 1 <= Day(s) <= 31
  }

  /** The calendar fields a date-shaped string spells out. */
  function DecodeIsoDate(s: string): LocalDate
    requires |s| == 10
  {
    LocalDate(Year(s), Month(s), Day(s))
  }

  lemma YearMatchesIff(a: char, b: char, c: char, d: char)
    ensures YearMatches(a, b, c, d) <==>
      (IsDigit(a) && IsDigit(b) && IsDigit(c) && IsDigit(d) &&
       1900 <= 1000 * DigitValue(a) + 100 * DigitValue(b) + 10 * DigitValue(c) + DigitValue(d) <= 2999)
  {
  }

  lemma MonthMatchesIff(a: char, b: char)
    ensures MonthMatches(a, b) <==>
      (IsDigit(a) && IsDigit(b) && 1 <= 10 * DigitValue(a) + DigitValue(b) <= 12)
  {
  }

  lemma DayMatchesIff(a: char, b: char)
    ensures DayMatches(a, b) <==>
      (IsDigit(a) && IsDigit(b) && 1 <= 10 * DigitValue(a) + DigitValue(b) <= 31)
  {
  }

  /**
   * The regex accepts exactly the ten-character strings `DDDD-DD-DD` with
   * year 1900..2999, month 1..12 and day 1..31.
   */
  lemma DateShapeIff(s: string)
    ensures IsDateShaped(s) <==> IsIsoDateInRange(s)
  {
  }

  /** A date-shaped string ends in a digit, so it is never instant-shaped. */
  lemma ShapesAreDisjoint(s: string)
    ensures !(IsDateShaped(s) && IsInstantShaped(s))
  {
  }

  /** Printing the decoded date gives back the input (LocalDate.toString). */
  lemma DecodeThenFormat(s: string)
    requires IsDateShaped(s)
    ensures var d := DecodeIsoDate(s);
      0 <= d.year <= 9999 && 0 <= d.month <= 99 && 0 <= d.day <= 99 && IsoFormat(d) == s
  {
    DateShapeIff(s);
    var y := Year(s);
    assert y / 100 == 10 * DigitValue(s[0]) + DigitValue(s[1]);
    assert y % 100 == 10 * DigitValue(s[2]) + DigitValue(s[3]);
    TwoDigitsOfDigits(s[0], s[1]);
    TwoDigitsOfDigits(s[2], s[3]);
    TwoDigitsOfDigits(s[5], s[6]);
    TwoDigitsOfDigits(s[8], s[9]);
    assert IsoFormat(DecodeIsoDate(s)) == [s[0], s[1]] + [s[2], s[3]] + "-" + [s[5], s[6]] + "-" + [s[8], s[9]];
  }

  /** Two digit characters print back as themselves. */
  lemma TwoDigitsOfDigits(a: char, b: char)
    requires IsDigit(a) && IsDigit(b)
    ensures TwoDigits(10 * DigitValue(a) + DigitValue(b)) == [a, b]
  {
  }

  /** Every date in the accepted ranges prints as a date-shaped string that decodes back to it. */
  lemma FormatThenDecode(d: LocalDate)
    requires 1900 <= d.year <= 2999 && 1 <= d.month <= 12 && 1 <= d.day <= 31
    ensures IsDateShaped(IsoFormat(d)) && DecodeIsoDate(IsoFormat(d)) == d
  {
  }

  // ---------------------------------------------------------------------
  // How js-joda is assumed to behave on ISO dates
  // ---------------------------------------------------------------------

  /**
   * LocalDate.parse either rejects a date-shaped string (for instance
   * 2023-02-30) or returns exactly the date it spells out.
   */
  ghost predicate FaithfulIsoDateParser(parse: string -> Result<LocalDate>) {
    forall s :: IsDateShaped(s) && parse(s).Ok? ==> parse(s).value == DecodeIsoDate(s)
  }

  // ---------------------------------------------------------------------
  // Messages
  // ---------------------------------------------------------------------

  const NotZuluMessage := "It's not an Instant if the Z for Zulu isn't present"

  const NotADayPrefix := "The input (\""
  const NotADaySuffix := "\") was not in ISO-8601 format for a day type."

  const NeitherShapePrefix :=
    "this function only supports converting a stringified LocalDate or a stringified Instant to LocalDate, but we got "
  const NeitherShapeSuffix := " instead"

  const ZonedDateTimeUnsupported :=
    "this method is not supported until the Temporal proposal is widely adopted. Use toInstant instead"

  const LocalDateTimeUnsupported :=
    "date strings without a zone or Z cannot be placed on the time-line. Use toInstant or toZonedDateTime instead"

  const MismatchLead :=
    "Since this function uses zoneOfTheObserver to determine how to accurately convert an Instant "
    + "(from the server) to a LocalDate in the user's time, the zoneOfTheObserver must be the user's "
  const MismatchUse := ". Use '"
  const MismatchInsteadOf := "' instead of '"
  const MismatchEnd := "'"

  /**
   * The mismatch message as intended: it names the configured zone and the
   * zone the caller gave.
   */
  function MismatchMessage(expected: ZoneId, given: ZoneId): string {
    MismatchLead + "ZoneId" + MismatchUse + ZoneText(expected) + MismatchInsteadOf + ZoneText(given) + MismatchEnd
  }

  lemma MismatchMessageNamesBothZones(expected: ZoneId, given: ZoneId)
    ensures Contains(MismatchMessage(expected, given), ZoneText(expected))
    ensures Contains(MismatchMessage(expected, given), ZoneText(given))
    ensures Contains(MismatchMessage(expected, given), "ZoneId")
  {
    ContainsAlternateParts(MismatchLead, "ZoneId", MismatchUse, ZoneText(expected),
                           MismatchInsteadOf, ZoneText(given), MismatchEnd);
  }

  /**
   * What `${zoneOfTheObserver.id}` renders as written: `id` is a method of
   * js-joda's ZoneId, so the template shows the method's source text, which
   * is the same for every zone of one class. The exact text is not modelled.
   */
  function RenderedIdMember(z: ZoneId): string {
    match z
    case SystemDefault => "<source text of SystemDefaultZoneId.prototype.id>"
    case Region(_) => "<source text of ZoneRegion.prototype.id>"
  }

  /** The mismatch message as the source builds it. */
  function MismatchMessageAsWritten(expected: ZoneId, given: ZoneId): string {
    MismatchLead + "ZoneId" + MismatchUse + ZoneText(expected) + MismatchInsteadOf + RenderedIdMember(given) + MismatchEnd
  }

  /**
   * As written, the message cannot tell two given regions apart: the
   * cited test's parser (SYSTEM) reports the same text whether it was asked
   * with America/New_York or with Europe/London.
   */
  lemma MismatchMessageAsWrittenOmitsGivenZone(expected: ZoneId, a: string, b: string)
    ensures MismatchMessageAsWritten(expected, Region(a)) == MismatchMessageAsWritten(expected, Region(b))
    ensures MismatchMessageAsWritten(SystemDefault, Region("America/New_York"))
         == MismatchMessageAsWritten(SystemDefault, Region("Europe/London"))
    ensures MismatchMessage(SystemDefault, Region("America/New_York"))
         != MismatchMessage(SystemDefault, Region("Europe/London"))
  {
    var head := MismatchLead + "ZoneId" + MismatchUse + "SYSTEM" + MismatchInsteadOf;
    assert MismatchMessage(SystemDefault, Region("America/New_York"))[|head|] == 'A';
    assert MismatchMessage(SystemDefault, Region("Europe/London"))[|head|] == 'E';
  }

  const ProductionOverrideMessage :=
    "You can not set the user's ZoneId unless you are running in a test"

  // ---------------------------------------------------------------------
  // Construction
  // ---------------------------------------------------------------------

  /**
   * The observer zone a parser is built with. A zone may be supplied only
   * in test mode; without one the parser uses the host's zone.
   */
  function ConfiguredZone(isTestMode: bool, zoneOverride: Option<ZoneId>): (r: Result<ZoneId>)
    ensures r.Err? <==> !isTestMode && zoneOverride.Some?
    ensures r.Err? ==> r.failure.ConfigError?
    ensures zoneOverride.None? ==> r == Ok(SystemDefault)
    ensures isTestMode && zoneOverride.Some? ==> r == Ok(zoneOverride.value)
  {
    if isTestMode then
      Ok(if zoneOverride.Some? then zoneOverride.value else SystemDefault)
    else if zoneOverride.Some? then
      Err(ConfigError(ProductionOverrideMessage))
    else
      Ok(SystemDefault)
  }

  class FromServerParser {
    /** zoneIdOfUserForTestPurposes: assigned once, never changed. */
    const zoneOfUser: ZoneId

    /**
     * The single field assignment, unchecked: any zone is accepted. Create
     * decides which zone it is given.
     */
    constructor WithZone(zone: ZoneId)
      ensures zoneOfUser == zone
    {
      zoneOfUser := zone;
    }

    /** The source's constructor: the mode gate, then the single field assignment. */
    static method Create(isTestMode: bool, zoneOverride: Option<ZoneId>) returns (r: Result<FromServerParser>)
      ensures r.Err? <==> ConfiguredZone(isTestMode, zoneOverride).Err?
      ensures r.Err? ==> r.failure == ConfiguredZone(isTestMode, zoneOverride).failure
      ensures r.Ok? ==> fresh(r.value) && r.value.zoneOfUser == ConfiguredZone(isTestMode, zoneOverride).value
    {
      var zone: ZoneId;
      if isTestMode {
        zone := if zoneOverride.Some? then zoneOverride.value else SystemDefault;
      } else {
        if zoneOverride.Some? {
          r := Err(ConfigError(ProductionOverrideMessage));
          return;
        }
        zone := SystemDefault;
      }
      var parser := new FromServerParser.WithZone(zone);
      r := Ok(parser);
    }

    /** Unsupported: always fails, whatever the state. */
    function ToZonedDateTime(): (r: Result<ZonedDateTime>)
      ensures r.Err? && r.failure.NotImplemented?
    {
      Err(NotImplemented(ZonedDateTimeUnsupported))
    }

    /** Rejects any string without the Zulu marker; hands the rest to Instant.parse. */
    function ToInstant(lib: JsJoda, input: string): (r: Result<Instant>)
      ensures !IsInstantShaped(input) ==> r == Err(ShapeError(NotZuluMessage))
      ensures IsInstantShaped(input) ==> r == lib.instantParse(input)
    {
      if !IsInstantShaped(input) then Err(ShapeError(NotZuluMessage))
      else lib.instantParse(input)
    }

    /** Rejects, naming the input, any string that is not date-shaped; hands the rest to LocalDate.parse. */
    function ToLocalDate(lib: JsJoda, input: string): (r: Result<LocalDate>)
      ensures !IsDateShaped(input) ==> r.Err? && r.failure.ShapeError? && Contains(r.failure.msg, input)
      ensures IsDateShaped(input) ==> r == lib.localDateParse(input)
    {
      if !IsDateShaped(input) then
        ContainsMiddle(NotADayPrefix, input, NotADaySuffix);
        Err(ShapeError(NotADayPrefix + input + NotADaySuffix))
      else
        lib.localDateParse(input)
    }

    /**
     * The day on which an instant falls for the observer. The zone gate comes
     * first; a date-shaped input short-circuits to ToLocalDate; anything else
     * must be an instant, which is projected into the observer zone.
     */
    function ToLocalDateDANGEROUS(lib: JsJoda, input: string, observer: ZoneId): (r: Result<LocalDate>)
      ensures observer != zoneOfUser ==> r.Err? && r.failure.ZoneMismatch?
      ensures observer != zoneOfUser ==> r.failure.expected == zoneOfUser && r.failure.given == observer
      ensures observer != zoneOfUser ==>
        Contains(r.failure.msg, ZoneText(zoneOfUser)) && Contains(r.failure.msg, ZoneText(observer))
      ensures observer == zoneOfUser && IsDateShaped(input) ==> r == lib.localDateParse(input)
      ensures observer == zoneOfUser && !IsDateShaped(input) && !IsInstantShaped(input) ==>
        r.Err? && r.failure.ShapeError? && Contains(r.failure.msg, input)
      ensures observer == zoneOfUser && IsInstantShaped(input) ==>
        r == match lib.instantParse(input)
             case Err(e) => Err(e)
             case Ok(instant) =>
               match lib.ofInstant(instant, observer)
               case Err(e) => Err(e)
               case Ok(zoned) => Ok(zoned.date)
    {
      if zoneOfUser != observer then
        MismatchMessageNamesBothZones(zoneOfUser, observer);
        Err(ZoneMismatch(zoneOfUser, observer, MismatchMessage(zoneOfUser, observer)))
      else if IsDateShaped(input) then
        ToLocalDate(lib, input)
      else if !IsInstantShaped(input) then
        ContainsMiddle(NeitherShapePrefix, input, NeitherShapeSuffix);
        Err(ShapeError(NeitherShapePrefix + input + NeitherShapeSuffix))
      else
        match ToInstant(lib, input)
        case Err(e) => Err(e)
        case Ok(instant) =>
          var inputAsZoned := lib.ofInstant(instant, observer);
          match inputAsZoned
          case Err(e) => Err(e)
          case Ok(zoned) => Ok(zoned.date)
    }

    /** Unsupported: always fails, whatever the state. */
    function ToLocalDateTime(): (r: Result<LocalDateTime>)
      ensures r.Err? && r.failure.NotImplemented?
    {
      Err(NotImplemented(LocalDateTimeUnsupported))
    }
  }

  // ---------------------------------------------------------------------
  // Properties of the dispatch
  // ---------------------------------------------------------------------

  /**
   * js-joda reports its own failures as ParseError only (its
   * DateTimeException family), never with a tag the parsers use for their
   * own checks.
   */
  ghost predicate OnlyParseErrors(lib: JsJoda) {
    && (forall s :: lib.instantParse(s).Err? ==> lib.instantParse(s).failure.ParseError?)
    && (forall s :: lib.localDateParse(s).Err? ==> lib.localDateParse(s).failure.ParseError?)
    && (forall i, z :: lib.ofInstant(i, z).Err? ==> lib.ofInstant(i, z).failure.ParseError?)
  }

  /** With such a js-joda, a shape error from toInstant means exactly that the `Z` is missing. */
  lemma ToInstantShapeErrorIff(p: FromServerParser, lib: JsJoda, s: string)
    requires OnlyParseErrors(lib)
    ensures var r := p.ToInstant(lib, s);
      (r.Err? && r.failure.ShapeError?) <==> !IsInstantShaped(s)
  {
  }

  /** With such a js-joda, a shape error from toLocalDate means exactly that the input is not date-shaped. */
  lemma ToLocalDateShapeErrorIff(p: FromServerParser, lib: JsJoda, s: string)
    requires OnlyParseErrors(lib)
    ensures var r := p.ToLocalDate(lib, s);
      (r.Err? && r.failure.ShapeError?) <==> !IsDateShaped(s)
  {
  }

  /**
   * With such a js-joda, the failure tag of toLocalDateDANGEROUS tells which
   * check fired: a mismatch exactly when the observer zone is wrong, a
   * shape error exactly when the zone is right and the input has neither shape.
   */
  lemma DangerousFailureTells(p: FromServerParser, lib: JsJoda, s: string, observer: ZoneId)
    requires OnlyParseErrors(lib)
    ensures var r := p.ToLocalDateDANGEROUS(lib, s, observer);
      (r.Err? && r.failure.ZoneMismatch?) <==> observer != p.zoneOfUser
    ensures var r := p.ToLocalDateDANGEROUS(lib, s, observer);
      (r.Err? && r.failure.ShapeError?) <==>
        observer == p.zoneOfUser && !IsDateShaped(s) && !IsInstantShaped(s)
  {
  }

  /** With the wrong observer zone the outcome is the same for every input and every library. */
  lemma ZoneGateIgnoresInput(p: FromServerParser, lib1: JsJoda, lib2: JsJoda, s1: string, s2: string, observer: ZoneId)
    requires observer != p.zoneOfUser
    ensures p.ToLocalDateDANGEROUS(lib1, s1, observer) == p.ToLocalDateDANGEROUS(lib2, s2, observer)
    ensures p.ToLocalDateDANGEROUS(lib1, s1, observer).failure ==
      ZoneMismatch(p.zoneOfUser, observer, MismatchMessage(p.zoneOfUser, observer))
  {
  }

  /** A string without `Z` is rejected before js-joda is consulted: the library is irrelevant. */
  lemma ToInstantRejectsBeforeParsing(p: FromServerParser, lib1: JsJoda, lib2: JsJoda, s: string)
    requires !IsInstantShaped(s)
    ensures p.ToInstant(lib1, s) == p.ToInstant(lib2, s)
    ensures p.ToInstant(lib1, s).Err?
  {
  }

  /** In the observer's own zone, a date-shaped input gets the same answer on both date paths. */
  lemma DangerousAgreesOnDates(p: FromServerParser, lib: JsJoda, s: string)
    requires IsDateShaped(s)
    ensures p.ToLocalDateDANGEROUS(lib, s, p.zoneOfUser) == p.ToLocalDate(lib, s)
  {
  }

  /** Every date that ToLocalDate returns prints back as the input string. */
  lemma ToLocalDateRoundTrip(p: FromServerParser, lib: JsJoda, s: string)
    requires FaithfulIsoDateParser(lib.localDateParse)
    requires p.ToLocalDate(lib, s).Ok?
    ensures IsDateShaped(s)
    ensures var d := p.ToLocalDate(lib, s).value;
      0 <= d.year <= 9999 && 0 <= d.month <= 99 && 0 <= d.day <= 99 && IsoFormat(d) == s
  {
    DecodeThenFormat(s);
  }

  /** "2023-08-22" becomes the 22nd of August 2023, printed as "2023-08-22". */
  lemma ToLocalDateExample(p: FromServerParser, lib: JsJoda)
    requires FaithfulIsoDateParser(lib.localDateParse)
    requires lib.localDateParse("2023-08-22").Ok?
    ensures p.ToLocalDate(lib, "2023-08-22") == Ok(LocalDate(2023, 8, 22))
    ensures IsoFormat(LocalDate(2023, 8, 22)) == "2023-08-22"
  {
  }

  /** Malformed backend strings never produce a value on any path. */
  lemma MalformedInputsAreRejected(p: FromServerParser, lib: JsJoda, observer: ZoneId)
    ensures p.ToLocalDate(lib, "2023-13-40").failure.ShapeError?
    ensures p.ToLocalDate(lib, "not-a-date").failure.ShapeError?
    ensures p.ToInstant(lib, "2023-08-22T10:00:00-05:00").failure.ShapeError?
    ensures p.ToLocalDate(lib, "2023-08-22T10:00:00-05:00").failure.ShapeError?
    ensures p.ToLocalDateDANGEROUS(lib, "2023-08-22T10:00:00-05:00", observer).Err?
    ensures p.ToInstant(lib, "2023-13-40").failure.ShapeError?
    ensures p.ToInstant(lib, "not-a-date").failure.ShapeError?
    ensures p.ToLocalDateDANGEROUS(lib, "2023-13-40", observer).Err?
    ensures p.ToLocalDateDANGEROUS(lib, "not-a-date", observer).Err?
  {
  }

  /** A parser built with the host zone refuses America/New_York, naming both and saying "ZoneId". */
  lemma MismatchNamesBothZones(p: FromServerParser, lib: JsJoda, s: string)
    requires p.zoneOfUser == SystemDefault
    ensures var r := p.ToLocalDateDANGEROUS(lib, s, Region("America/New_York"));
      && r.Err? && r.failure.ZoneMismatch?
      && r.failure.expected == SystemDefault && r.failure.given == Region("America/New_York")
      && Contains(r.failure.msg, "SYSTEM") && Contains(r.failure.msg, "America/New_York")
      && Contains(r.failure.msg, "ZoneId")
  {
    MismatchMessageNamesBothZones(SystemDefault, Region("America/New_York"));
  }
}
