/**
 * A fixed-offset stand-in for ZonedDateTime.ofInstant(...).toLocalDate().
 *
 * For a zone whose offset from UTC is `offset` seconds, the local epoch day
 * of an instant is floor((epochSecond + offset) / 86400). Turning an epoch
 * day into year/month/day is left to js-joda (`ofEpochDay`), so no calendar
 * arithmetic happens here. With this model the day that
 * FromServerParser.toLocalDateDANGEROUS reports can be pinned down at the
 * edges of a local day.
 */
module FixedOffset {
  import opened JsJoda
  import opened FromServer

  const SecondsPerDay := 86400

  /** floor((epochSecond + offset) / 86400); Dafny's division is floor division for a positive divisor. */
  function LocalEpochDay(instant: Instant, offset: int): int {
    (instant.epochSecond + offset) / SecondsPerDay
  }

  /** The first UTC second of local day `day` in a zone `offset` seconds ahead of UTC. */
  function LocalMidnight(day: int, offset: int): int {
    day * SecondsPerDay - offset
  }

  /** An instant falls on local day `day` exactly when it lies in that day's 86400 seconds. */
  lemma LocalEpochDayIff(instant: Instant, offset: int, day: int)
    ensures LocalEpochDay(instant, offset) == day <==>
      LocalMidnight(day, offset) <= instant.epochSecond < LocalMidnight(day, offset) + SecondsPerDay
  {
  }

  /**
   * js-joda projects every instant into `zone` with the fixed offset
   * `offset`, and none of them falls outside its range.
   */
  ghost predicate ProjectsWithFixedOffset(lib: JsJoda, zone: ZoneId, offset: int, ofEpochDay: int -> LocalDate) {
    forall instant ::
      && lib.ofInstant(instant, zone).Ok?
      && lib.ofInstant(instant, zone).value.date == ofEpochDay(LocalEpochDay(instant, offset))
  }

  /** Instant.parse reads `s` as the instant `epochSecond`. */
  predicate ReadsInstant(lib: JsJoda, s: string, epochSecond: int) {
    lib.instantParse(s) == Ok(Instant(epochSecond))
  }

  /**
   * In the parser's own zone, an instant string is reported on the local day
   * whose 86400 seconds contain it, whatever the offset.
   */
  lemma DangerousReportsLocalDay(p: FromServerParser, lib: JsJoda, ofEpochDay: int -> LocalDate,
                                 offset: int, s: string, epochSecond: int, day: int)
    requires ProjectsWithFixedOffset(lib, p.zoneOfUser, offset, ofEpochDay)
    requires IsInstantShaped(s) && ReadsInstant(lib, s, epochSecond)
    requires LocalMidnight(day, offset) <= epochSecond < LocalMidnight(day, offset) + SecondsPerDay
    ensures p.ToLocalDateDANGEROUS(lib, s, p.zoneOfUser) == Ok(ofEpochDay(day))
  {
    LocalEpochDayIff(Instant(epochSecond), offset, day);
  }

  /**
   * Around local day `day`: its midnight and its last second are reported
   * on it, one second after its end on the next day, and one second before
   * its midnight on the day before.
   */
  lemma DangerousDayBoundaries(p: FromServerParser, lib: JsJoda, ofEpochDay: int -> LocalDate, offset: int, day: int,
                               atMidnight: string, lastSecond: string, afterEnd: string, beforeMidnight: string)
    requires ProjectsWithFixedOffset(lib, p.zoneOfUser, offset, ofEpochDay)
    requires IsInstantShaped(atMidnight) && IsInstantShaped(lastSecond)
    requires IsInstantShaped(afterEnd) && IsInstantShaped(beforeMidnight)
    requires ReadsInstant(lib, atMidnight, LocalMidnight(day, offset))
    requires ReadsInstant(lib, lastSecond, LocalMidnight(day, offset) + SecondsPerDay - 1)
    requires ReadsInstant(lib, afterEnd, LocalMidnight(day, offset) + SecondsPerDay + 1)
    requires ReadsInstant(lib, beforeMidnight, LocalMidnight(day, offset) - 1)
    ensures p.ToLocalDateDANGEROUS(lib, atMidnight, p.zoneOfUser) == Ok(ofEpochDay(day))
    ensures p.ToLocalDateDANGEROUS(lib, lastSecond, p.zoneOfUser) == Ok(ofEpochDay(day))
    ensures p.ToLocalDateDANGEROUS(lib, afterEnd, p.zoneOfUser) == Ok(ofEpochDay(day + 1))
    ensures p.ToLocalDateDANGEROUS(lib, beforeMidnight, p.zoneOfUser) == Ok(ofEpochDay(day - 1))
  {
    var midnight := LocalMidnight(day, offset);
    DangerousReportsLocalDay(p, lib, ofEpochDay, offset, atMidnight, midnight, day);
    DangerousReportsLocalDay(p, lib, ofEpochDay, offset, lastSecond, midnight + SecondsPerDay - 1, day);
    assert LocalMidnight(day + 1, offset) == midnight + SecondsPerDay;
    DangerousReportsLocalDay(p, lib, ofEpochDay, offset, afterEnd, midnight + SecondsPerDay + 1, day + 1);
    assert LocalMidnight(day - 1, offset) == midnight - SecondsPerDay;
    DangerousReportsLocalDay(p, lib, ofEpochDay, offset, beforeMidnight, midnight - 1, day - 1);
  }

  const AugustTwentySecond := LocalDate(2023, 8, 22)
  const AugustTwentyThird := LocalDate(2023, 8, 23)

  /** Epoch day 19591 is 2023-08-22; its UTC midnight is second 1692662400. */
  const AugustTwentySecondEpochDay := 19591

  /**
   * The shape of each row of the boundary test: the instant at local
   * midnight of 2023-08-22, one day less one second later, and one day and
   * one second later, read in the parser's own zone.
   */
  lemma AugustTwentySecondBoundaries(p: FromServerParser, lib: JsJoda, ofEpochDay: int -> LocalDate,
                                     offset: int, startOfDay: string, endOfDay: string, startOfNextDay: string)
    requires ProjectsWithFixedOffset(lib, p.zoneOfUser, offset, ofEpochDay)
    requires ofEpochDay(AugustTwentySecondEpochDay) == AugustTwentySecond
    requires ofEpochDay(AugustTwentySecondEpochDay + 1) == AugustTwentyThird
    requires IsInstantShaped(startOfDay) && IsInstantShaped(endOfDay) && IsInstantShaped(startOfNextDay)
    requires ReadsInstant(lib, startOfDay, LocalMidnight(AugustTwentySecondEpochDay, offset))
    requires ReadsInstant(lib, endOfDay, LocalMidnight(AugustTwentySecondEpochDay, offset) + SecondsPerDay - 1)
    requires ReadsInstant(lib, startOfNextDay, LocalMidnight(AugustTwentySecondEpochDay, offset) + SecondsPerDay + 1)
    ensures p.ToLocalDateDANGEROUS(lib, startOfDay, p.zoneOfUser) == Ok(AugustTwentySecond)
    ensures p.ToLocalDateDANGEROUS(lib, endOfDay, p.zoneOfUser) == Ok(AugustTwentySecond)
    ensures p.ToLocalDateDANGEROUS(lib, startOfNextDay, p.zoneOfUser) == Ok(AugustTwentyThird)
  {
    var day := AugustTwentySecondEpochDay;
    var midnight := LocalMidnight(day, offset);
    DangerousReportsLocalDay(p, lib, ofEpochDay, offset, startOfDay, midnight, day);
    DangerousReportsLocalDay(p, lib, ofEpochDay, offset, endOfDay, midnight + SecondsPerDay - 1, day);
    assert LocalMidnight(day + 1, offset) == midnight + SecondsPerDay;
    DangerousReportsLocalDay(p, lib, ofEpochDay, offset, startOfNextDay, midnight + SecondsPerDay + 1, day + 1);
  }

  /** Pacific/Honolulu, UTC-10: local midnight of 2023-08-22 is 10:00 UTC. */
  lemma HonoluluBoundaries(p: FromServerParser, lib: JsJoda, ofEpochDay: int -> LocalDate)
    requires p.zoneOfUser == Region("Pacific/Honolulu")
    requires ProjectsWithFixedOffset(lib, p.zoneOfUser, -36000, ofEpochDay)
    requires ofEpochDay(19591) == AugustTwentySecond && ofEpochDay(19592) == AugustTwentyThird
    requires ReadsInstant(lib, "2023-08-22T10:00:00Z", 1692698400)
    requires ReadsInstant(lib, "2023-08-23T09:59:59Z", 1692784799)
    requires ReadsInstant(lib, "2023-08-23T10:00:01Z", 1692784801)
    ensures p.ToLocalDateDANGEROUS(lib, "2023-08-22T10:00:00Z", Region("Pacific/Honolulu")) == Ok(AugustTwentySecond)
    ensures p.ToLocalDateDANGEROUS(lib, "2023-08-23T09:59:59Z", Region("Pacific/Honolulu")) == Ok(AugustTwentySecond)
    ensures p.ToLocalDateDANGEROUS(lib, "2023-08-23T10:00:01Z", Region("Pacific/Honolulu")) == Ok(AugustTwentyThird)
  {
    AugustTwentySecondBoundaries(p, lib, ofEpochDay, -36000,
      "2023-08-22T10:00:00Z", "2023-08-23T09:59:59Z", "2023-08-23T10:00:01Z");
  }

  /** America/New_York in August, UTC-4: local midnight is 04:00 UTC. */
  lemma NewYorkBoundaries(p: FromServerParser, lib: JsJoda, ofEpochDay: int -> LocalDate)
    requires p.zoneOfUser == Region("America/New_York")
    requires ProjectsWithFixedOffset(lib, p.zoneOfUser, -14400, ofEpochDay)
    requires ofEpochDay(19591) == AugustTwentySecond && ofEpochDay(19592) == AugustTwentyThird
    requires ReadsInstant(lib, "2023-08-22T04:00:00Z", 1692676800)
    requires ReadsInstant(lib, "2023-08-23T03:59:59Z", 1692763199)
    requires ReadsInstant(lib, "2023-08-23T04:00:01Z", 1692763201)
    ensures p.ToLocalDateDANGEROUS(lib, "2023-08-22T04:00:00Z", Region("America/New_York")) == Ok(AugustTwentySecond)
    ensures p.ToLocalDateDANGEROUS(lib, "2023-08-23T03:59:59Z", Region("America/New_York")) == Ok(AugustTwentySecond)
    ensures p.ToLocalDateDANGEROUS(lib, "2023-08-23T04:00:01Z", Region("America/New_York")) == Ok(AugustTwentyThird)
  {
    AugustTwentySecondBoundaries(p, lib, ofEpochDay, -14400,
      "2023-08-22T04:00:00Z", "2023-08-23T03:59:59Z", "2023-08-23T04:00:01Z");
  }

  /** Europe/London in August, UTC+1: local midnight is 23:00 UTC of the day before. */
  lemma LondonBoundaries(p: FromServerParser, lib: JsJoda, ofEpochDay: int -> LocalDate)
    requires p.zoneOfUser == Region("Europe/London")
    requires ProjectsWithFixedOffset(lib, p.zoneOfUser, 3600, ofEpochDay)
    requires ofEpochDay(19591) == AugustTwentySecond && ofEpochDay(19592) == AugustTwentyThird
    requires ReadsInstant(lib, "2023-08-21T23:00:00Z", 1692658800)
    requires ReadsInstant(lib, "2023-08-22T22:59:59Z", 1692745199)
    requires ReadsInstant(lib, "2023-08-22T23:00:01Z", 1692745201)
    ensures p.ToLocalDateDANGEROUS(lib, "2023-08-21T23:00:00Z", Region("Europe/London")) == Ok(AugustTwentySecond)
    ensures p.ToLocalDateDANGEROUS(lib, "2023-08-22T22:59:59Z", Region("Europe/London")) == Ok(AugustTwentySecond)
    ensures p.ToLocalDateDANGEROUS(lib, "2023-08-22T23:00:01Z", Region("Europe/London")) == Ok(AugustTwentyThird)
  {
    AugustTwentySecondBoundaries(p, lib, ofEpochDay, 3600,
      "2023-08-21T23:00:00Z", "2023-08-22T22:59:59Z", "2023-08-22T23:00:01Z");
  }

  /** Australia/Sydney in August, UTC+10: local midnight is 14:00 UTC of the day before. */
  lemma SydneyBoundaries(p: FromServerParser, lib: JsJoda, ofEpochDay: int -> LocalDate)
    requires p.zoneOfUser == Region("Australia/Sydney")
    requires ProjectsWithFixedOffset(lib, p.zoneOfUser, 36000, ofEpochDay)
    requires ofEpochDay(19591) == AugustTwentySecond && ofEpochDay(19592) == AugustTwentyThird
    requires ReadsInstant(lib, "2023-08-21T14:00:00Z", 1692626400)
    requires ReadsInstant(lib, "2023-08-22T13:59:59Z", 1692712799)
    requires ReadsInstant(lib, "2023-08-22T14:00:01Z", 1692712801)
    ensures p.ToLocalDateDANGEROUS(lib, "2023-08-21T14:00:00Z", Region("Australia/Sydney")) == Ok(AugustTwentySecond)
    ensures p.ToLocalDateDANGEROUS(lib, "2023-08-22T13:59:59Z", Region("Australia/Sydney")) == Ok(AugustTwentySecond)
    ensures p.ToLocalDateDANGEROUS(lib, "2023-08-22T14:00:01Z", Region("Australia/Sydney")) == Ok(AugustTwentyThird)
  {
    AugustTwentySecondBoundaries(p, lib, ofEpochDay, 36000,
      "2023-08-21T14:00:00Z", "2023-08-22T13:59:59Z", "2023-08-22T14:00:01Z");
  }
}
