# js-joda-usher policy layer, modelled in Dafny

js-joda-usher sits on top of the js-joda date library and decides which date
strings may reach which js-joda conversion. It has two parsers:

- `FromServerParser` handles strings from a backend. A string ending in `Z`
  is an instant (section 5.6 of RFC 3339). A string matching the fixed
  pattern `YYYY-MM-DD` is a calendar date: year 1900..2999, month 01..12,
  day 01..31. Deriving a day from an instant needs the observer's zone.
  The parser accepts only the zone it was built with. It may be built with
  an explicit zone only in test mode. `toZonedDateTime` and
  `toLocalDateTime` always fail.
- `FromUserInputParser` reads user text with a pattern and locale from the
  caller. It first rewrites every `y` in the pattern to `u`, then parses
  strictly through js-joda.

The model has five modules:

- `JsJoda` (`joda.dfy`) holds js-joda's value types and the outcome
  datatype `Failure`/`Result`. It also holds the record `JsJoda`, whose
  fields are the library calls the parsers make: `Instant.parse`,
  `LocalDate.parse`, `ZonedDateTime.ofInstant`, and `LocalDate.parse` with
  a formatter. Every operation takes that record as a parameter and never
  looks inside it. So each contract says exactly when js-joda is consulted,
  with what arguments, and that its result, failures included, comes back
  unchanged.
- `FromServer` (`server_parser.dfy`) holds the two shape predicates and a
  reference reading of the date shape. It also holds the class
  `FromServerParser`: a `const` zone set once by the construction gate, and
  functions for the conversions.
- `FromUserInput` (`user_input_parser.dfy`) holds the pattern rewrite and
  the strict delegation.
- `FixedOffset` (`fixed_offset.dfy`) projects an instant into a zone with a
  fixed UTC offset: local day = floor((epochSecond + offset) / 86400). It
  proves the midnight-boundary behaviour of `toLocalDateDANGEROUS`, and the
  test table's rows for Honolulu, New York, London and Sydney.
- `Text` (`text.dfy`) defines substring containment, which the contracts use
  to say what a message names.

The test-mode flag (`process.env.NODE_ENV === "test"`) is the boolean
`isTestMode`. An optional zone argument is an `Option<ZoneId>`. `ZoneId.SYSTEM`
is the constructor `SystemDefault`. Zones compare by value (datatype equality).

`Create` is the source's constructor. It branches on the mode and the zone
argument as the source does, and its contract proves it agrees with the pure
gate function `ConfiguredZone`. When the gate admits the call, `Create` performs
the plain field assignment `WithZone`, which accepts any zone.

The parsers' own failures carry the tags `ShapeError`, `ZoneMismatch`,
`NotImplemented` and `ConfigError`. The source throws these as `Error`s of its own (`NotImplementedError` for the
two unsupported conversions is a subclass of `Error`),
while js-joda throws its `DateTimeException` family. The predicate
`OnlyParseErrors` states that js-joda fails only with `ParseError`. Under it,
the failure tag tells which of the parsers' checks fired.

The rewrite is a plain global replace, as written. So a `y` inside a quoted
literal of a pattern (`'year'`) is rewritten too.

## Model

| member | source | states |
|---|---|---|
| `FromServer.ConfiguredZone` | src/internals/FromServerParser.ts:18-31 | Construction fails exactly when a zone is supplied outside test mode, with a configuration error. With no zone the stored zone is SYSTEM. In test mode a supplied zone is stored as given. |
| `FromServer.FromServerParser.WithZone` | src/internals/FromServerParser.ts:20-29 | Stores the given zone as the parser's one field, unchecked. |
| `FromServer.FromServerParser.Create` | src/internals/FromServerParser.ts:18-31 | The constructor fails with the gate's error exactly when the gate refuses. Otherwise it returns a new parser whose one field is the gate's zone. |
| `FromServer.FromServerParser.ToZonedDateTime` | src/internals/FromServerParser.ts:35-39 | Always fails with a NotImplemented outcome and never yields a value. |
| `FromServer.IsInstantShaped` | src/internals/FromServerParser.ts:46-51 | A string is instant-shaped when it is non-empty and its last character is `Z`. |
| `FromServer.FromServerParser.ToInstant` | src/internals/FromServerParser.ts:53-58 | A string not ending in `Z` fails with the "no Zulu" shape error. Any other string gets exactly what `Instant.parse` returns. |
| `FromServer.ToInstantShapeErrorIff` | src/internals/FromServerParser.ts:53-58 | If js-joda fails only with parse errors, `toInstant` fails with a shape error if and only if the string does not end in `Z`. |
| `FromServer.ToInstantRejectsBeforeParsing` | src/internals/FromServerParser.ts:54-57 | On a string without `Z` the outcome is a failure and does not depend on js-joda at all, so the parser is never consulted. |
| `FromServer.IsDateShaped` | src/internals/FromServerParser.ts:65-69 | The anchored date regex, one character class per position: ten characters, the year alternatives, `-`, the month alternatives, `-`, the day alternatives. |
| `FromServer.DateShapeIff` | src/internals/FromServerParser.ts:65-69 | The date regex accepts exactly the 10-character strings `DDDD-DD-DD` with year 1900..2999, month 1..12 and day 1..31. Both directions are proved. |
| `FromServer.YearMatchesIff` | src/internals/FromServerParser.ts:66 | The year alternative `19[0-9]{2}` or `2[0-9]{3}` matches exactly four digits whose value is 1900..2999. |
| `FromServer.MonthMatchesIff` | src/internals/FromServerParser.ts:66 | The month alternative `0[1-9]` or `1[012]` matches exactly two digits whose value is 1..12. |
| `FromServer.DayMatchesIff` | src/internals/FromServerParser.ts:66 | The day alternative `[123]0`, `[012][1-9]` or `31` matches exactly two digits whose value is 1..31. |
| `FromServer.ShapesAreDisjoint` | src/internals/FromServerParser.ts:46-69 | No string is both date-shaped and instant-shaped, because a date-shaped string ends in a digit. |
| `JsJoda.IsoFormat` | src/internals/FromServerParser.spec.ts:49 | `LocalDate.toString`, which the tests compare at lines 49 and 207, for years 0..9999: ten characters with `-` at positions 4 and 7. |
| `FromServer.DecodeThenFormat` | src/internals/FromServerParser.ts:66-77 | Every date-shaped string spells out a date that LocalDate's ISO printing turns back into the same string. |
| `FromServer.FormatThenDecode` | src/internals/FromServerParser.ts:66-77 | Every date with year 1900..2999, month 1..12 and day 1..31 prints as a date-shaped string that decodes back to it. |
| `FromServer.FromServerParser.ToLocalDate` | src/internals/FromServerParser.ts:71-78 | A string that is not date-shaped fails with a shape error whose message contains the input. Any other string gets exactly what `LocalDate.parse` returns. |
| `FromServer.ToLocalDateShapeErrorIff` | src/internals/FromServerParser.ts:71-78 | If js-joda fails only with parse errors, `toLocalDate` fails with a shape error if and only if the string is not date-shaped. |
| `FromServer.ToLocalDateRoundTrip` | src/internals/FromServerParser.ts:71-78 | If js-joda reads a date-shaped string faithfully, every date `toLocalDate` returns prints as its input. |
| `FromServer.ToLocalDateExample` | src/internals/FromServerParser.spec.ts:36-51 | "2023-08-22" yields the date 2023-08-22, which prints as "2023-08-22". |
| `FromServer.FromServerParser.ToLocalDateDANGEROUS` | src/internals/FromServerParser.ts:86-107 | An observer zone unequal to the stored one fails with a mismatch that records both zones and whose message contains the text of each (the corrected message, see Findings). With equal zones: a date-shaped input gets `LocalDate.parse`'s answer. An input that is neither shape fails with a shape error naming the input. An instant-shaped input gets the date of `ofInstant(Instant.parse(input), zone)`; a failure of either call comes back unchanged. |
| `FromServer.DangerousFailureTells` | src/internals/FromServerParser.ts:86-107 | If js-joda fails only with parse errors, `toLocalDateDANGEROUS` fails with a mismatch if and only if the observer zone is wrong. It fails with a shape error if and only if the zone is right and the input is neither date-shaped nor instant-shaped. |
| `FromServer.ZoneGateIgnoresInput` | src/internals/FromServerParser.ts:87-91 | With a wrong observer zone the outcome is the same mismatch for every input and every js-joda, so the zone gate runs before any shape check. |
| `FromServer.DangerousAgreesOnDates` | src/internals/FromServerParser.ts:92-94 | In the stored zone a date-shaped input gets exactly the `toLocalDate` outcome. |
| `FromServer.MalformedInputsAreRejected` | src/internals/FromServerParser.ts:53-99 | "2023-13-40" and "not-a-date" fail `toLocalDate` and `toInstant` with a shape error, and fail `toLocalDateDANGEROUS` for every observer zone. The offset instant "2023-08-22T10:00:00-05:00" fails `toInstant` and `toLocalDate` with a shape error and fails `toLocalDateDANGEROUS` for every observer zone. |
| `FromServer.MismatchNamesBothZones` | src/internals/FromServerParser.spec.ts:55-69 | A parser built with SYSTEM, asked with America/New_York, fails with a mismatch carrying both zones. Its message contains "SYSTEM", "America/New_York" and "ZoneId". |
| `FromServer.MismatchMessageNamesBothZones` | src/internals/FromServerParser.ts:89 | The corrected mismatch message contains the configured zone's text, the given zone's text and "ZoneId". |
| `FromServer.MismatchMessageAsWrittenOmitsGivenZone` | src/internals/FromServerParser.ts:89 | The message as written is the same for any two given regions, SYSTEM with America/New_York and with Europe/London among them, while the corrected messages differ. |
| `FromServer.FromServerParser.ToLocalDateTime` | src/internals/FromServerParser.ts:112-116 | Always fails with a NotImplemented outcome and never yields a value. |
| `FromUserInput.RewriteYearSymbol` | src/internals/FromUserInputParser.ts:22 | The rewritten pattern has the input's length. At each position a `y` becomes `u` and any other character is kept. |
| `FromUserInput.RewriteLeavesNoYearOfEra` | src/internals/FromUserInputParser.ts:22 | No `y` is left in the rewritten pattern. |
| `FromUserInput.RewriteFixesExactlyPatternsWithoutY` | src/internals/FromUserInputParser.ts:22 | The rewrite leaves a pattern unchanged if and only if the pattern holds no `y`. |
| `FromUserInput.RewriteIdempotent` | src/internals/FromUserInputParser.ts:22 | Rewriting an already rewritten pattern changes nothing. |
| `FromUserInput.RewriteCounts` | src/internals/FromUserInputParser.ts:22 | The output's count of `u` is the input's count of `u` plus its count of `y`. The output's count of `y` is zero. |
| `FromUserInput.RewriteExamples` | src/internals/FromUserInputParser.ts:22 | `yy` becomes `uu` and `dd/MM/yyyy` becomes `dd/MM/uuuu`. |
| `FromUserInput.ToLocalDate` | src/internals/FromUserInputParser.ts:22-27 | The result is exactly the formatter parse of the caller's text. That formatter has the rewritten pattern, the caller's locale and STRICT resolution, and its failures are passed on as they are. |
| `FromUserInput.ToLocalDateIgnoresPriorRewrite` | src/internals/FromUserInputParser.ts:22-27 | Parsing with an already rewritten pattern gives the same outcome as parsing with the original. |
| `FromUserInput.ToLocalDateNeverParsesWithY` | src/internals/FromUserInputParser.ts:22-27 | When the caller's pattern holds a `y`, js-joda is asked with a STRICT formatter whose pattern differs from the caller's and holds no `y`. |
| `FixedOffset.LocalEpochDayIff` | src/internals/FromServerParser.ts:101-106 | Under a fixed offset, an instant falls on local day `d` if and only if it lies in the 86400 seconds starting at that day's local midnight. |
| `FixedOffset.DangerousReportsLocalDay` | src/internals/FromServerParser.ts:100-106 | In the stored zone, an instant string is reported on the local day whose 86400 seconds contain the instant. |
| `FixedOffset.DangerousDayBoundaries` | src/internals/FromServerParser.spec.ts:108-181 | For every offset and day, `toLocalDateDANGEROUS` in the stored zone reports local midnight and the day's last second on that day, one second past the day's end on the next day, and one second before midnight on the previous day. |
| `FixedOffset.AugustTwentySecondBoundaries` | src/internals/FromServerParser.spec.ts:194-209 | For any offset: the instant at local midnight of 2023-08-22 and the one a day less a second later give 2023-08-22. The one a day and a second later gives 2023-08-23. |
| `FixedOffset.HonoluluBoundaries` | src/internals/FromServerParser.spec.ts:77-181 | At UTC-10, 2023-08-22T10:00:00Z and 2023-08-23T09:59:59Z give 2023-08-22, and 2023-08-23T10:00:01Z gives 2023-08-23. |
| `FixedOffset.NewYorkBoundaries` | src/internals/FromServerParser.spec.ts:77-181 | At UTC-4, 2023-08-22T04:00:00Z and 2023-08-23T03:59:59Z give 2023-08-22, and 2023-08-23T04:00:01Z gives 2023-08-23. |
| `FixedOffset.LondonBoundaries` | src/internals/FromServerParser.spec.ts:77-181 | At UTC+1, 2023-08-21T23:00:00Z and 2023-08-22T22:59:59Z give 2023-08-22, and 2023-08-22T23:00:01Z gives 2023-08-23. |
| `FixedOffset.SydneyBoundaries` | src/internals/FromServerParser.spec.ts:77-181 | At UTC+10, 2023-08-21T14:00:00Z and 2023-08-22T13:59:59Z give 2023-08-22, and 2023-08-22T14:00:01Z gives 2023-08-23. |

## Findings

| source | as written | input that shows it | evidently intended | confidence | as-written member | corrected member |
|---|---|---|---|---|---|---|
| src/internals/FromServerParser.ts:89 | The message interpolates `${zoneOfTheObserver.id}`. In js-joda `id` is a method, so the template renders the function's source text, not the zone. | A SYSTEM parser asked with America/New_York and one asked with Europe/London give the same message. | Interpolate the zone itself (or `id()`), so the message names the zone the caller gave. | medium, not executed | `FromServer.MismatchMessageAsWrittenOmitsGivenZone` | `FromServer.MismatchMessageNamesBothZones` |

The rest of the model uses the corrected message `MismatchMessage`.

## Left out

- js-joda itself is left out. `Instant.parse`, `LocalDate.parse`, `ZonedDateTime.ofInstant` and `LocalDate.parse` with a formatter are the four fields of the `JsJoda` record, and the model never looks inside them. `DateTimeFormatter.ofPattern`, `withLocale` and `withResolverStyle` are modelled as building a formatter description (`OfPattern`, `WithLocale`, `WithResolverStyle`), which never fails.
- `DateTimeFormatter.ofPattern` refusing a malformed pattern is not a separate step. That failure belongs to the formatter-parse field.
- Gregorian and time-zone-database arithmetic are left out. The date lemmas assume only `FaithfulIsoDateParser`: when `LocalDate.parse` succeeds on a date-shaped string, it returns the date the string spells out. The boundary lemmas take three things as assumptions: a fixed offset for the zone, `ofEpochDay` for turning an epoch day into a date, and, through `ReadsInstant`, that `Instant.parse` reads each test string as the stated epoch second. DST transitions are therefore not modelled.
- Reading `process.env.NODE_ENV` is an ambient environment read. The mode is passed in as a boolean. So the configuration error message does not include the environment's value.
- `ZoneId.SYSTEM` is the opaque value `SystemDefault`. Zone equality is datatype equality. Whether js-joda's `equals` treats SYSTEM as equal to a region with the same rules is not modelled.
- An instant is modelled by its epoch second alone. The nanosecond part never changes the local day.
- `IsoFormat` models `LocalDate.toString` only for years 0..9999. The `+`/`-` year prefixes outside that range are not modelled.
- Exact message texts are modelled only in part. The two shape messages and the mismatch message keep the source's wording around the input and the zones. The NotImplemented and configuration messages are shortened. Contracts state only that the date and neither-shape errors contain the input, and that the mismatch message contains both zones' texts and "ZoneId".
- `MismatchMessageAsWritten` stands for the text a function renders to by a placeholder per zone class, not the exact JavaScript source text; the finding only needs that the text is the same for every region.
- `toLocalTime` on both parsers, and `toZonedDateTime`, `toInstant` and `toLocalDateTime` on `FromUserInputParser`, are `unknown`-typed placeholders with no behaviour.
- The `makeParser` factory in src/js-joda-usher.ts is left out. It is one-line wiring that builds a `FromServerParser` without a zone and a `FromUserInputParser`.
- `NotImplementedError` is the outcome tag `NotImplemented`. src/internals/VirtualDateStringParser.d.ts is type-only.
- Formatting a date with a user pattern and parsing it back is left out. The repository does no formatting, so the user-input round trip lies wholly inside js-joda.
- The test harness's `Instant.now()` and its Jest table plumbing are left out. The boundary rows appear as concrete lemmas instead.
