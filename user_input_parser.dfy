/**
 * FromUserInputParser: text typed or picked by a user, read with a pattern
 * and a locale the caller supplies.
 *
 * Before the pattern reaches js-joda, every year-of-era letter `y` is
 * rewritten to the proleptic-year letter `u`: under the STRICT resolver style
 * js-joda cannot resolve a `y` year without an era field, so a plain `yyyy`
 * pattern would reject every input. The parse is then done by js-joda alone.
 */
module FromUserInput {
  import opened JsJoda

  /** How often `c` occurs in `s`. */
  function Count(s: string, c: char): nat {
    if s == [] then 0 else (if s[0] == c then 1 else 0) + Count(s[1..], c)
  }

  /** `pattern.replace(/y/g, "u")`: every `y` becomes `u`, nothing else moves. */
  function RewriteYearSymbol(pattern: string): (r: string)
    ensures |r| == |pattern|
    ensures forall i :: 0 <= i < |pattern| ==> r[i] == (if pattern[i] == 'y' then 'u' else pattern[i])
  {
    if pattern == [] then []
    else [if pattern[0] == 'y' then 'u' else pattern[0]] + RewriteYearSymbol(pattern[1..])
  }

  /** No `y` survives the rewrite. */
  lemma RewriteLeavesNoYearOfEra(pattern: string)
    ensures 'y' !in RewriteYearSymbol(pattern)
  {
  }

  /** A pattern is left unchanged exactly when it holds no `y`. */
  lemma RewriteFixesExactlyPatternsWithoutY(pattern: string)
    ensures RewriteYearSymbol(pattern) == pattern <==> 'y' !in pattern
  {
  }

  /** Rewriting twice is rewriting once. */
  lemma RewriteIdempotent(pattern: string)
    ensures RewriteYearSymbol(RewriteYearSymbol(pattern)) == RewriteYearSymbol(pattern)
  {
  }

  /** The `u`s of the result are the `u`s and the `y`s of the pattern. */
  lemma {:induction false} RewriteCounts(pattern: string)
    ensures Count(RewriteYearSymbol(pattern), 'u') == Count(pattern, 'u') + Count(pattern, 'y')
    ensures Count(RewriteYearSymbol(pattern), 'y') == 0
  {
    if pattern != [] {
      RewriteCounts(pattern[1..]);
      var r := RewriteYearSymbol(pattern);
      assert r[1..] == RewriteYearSymbol(pattern[1..]);
    }
  }

  lemma RewriteExamples()
    ensures RewriteYearSymbol("yy") == "uu"
    ensures RewriteYearSymbol("dd/MM/yyyy") == "dd/MM/uuuu"
  {
  }

  /**
   * toLocalDate: builds a formatter from the rewritten pattern, the caller's
   * locale and STRICT resolution, and returns whatever js-joda's parse
   * returns, failures included.
   */
  function ToLocalDate(lib: JsJoda, dateStr: string, pattern: string, locale: Locale): (r: Result<LocalDate>)
    ensures r == lib.parseWithFormatter(dateStr, DateTimeFormatter(RewriteYearSymbol(pattern), Some(locale), Strict))
  {
    var replacedPattern := RewriteYearSymbol(pattern);
    var formatter := OfPattern(replacedPattern).WithLocale(locale).WithResolverStyle(Strict);
    lib.parseWithFormatter(dateStr, formatter)
  }

  /** Handing in an already rewritten pattern changes nothing. */
  lemma ToLocalDateIgnoresPriorRewrite(lib: JsJoda, dateStr: string, pattern: string, locale: Locale)
    ensures ToLocalDate(lib, dateStr, RewriteYearSymbol(pattern), locale) == ToLocalDate(lib, dateStr, pattern, locale)
  {
    RewriteIdempotent(pattern);
  }

  /**
   * The parse never sees the caller's pattern when it holds a `y`: js-joda
   * is asked with a pattern that differs from it and holds no `y`.
   */
  lemma ToLocalDateNeverParsesWithY(lib: JsJoda, dateStr: string, pattern: string, locale: Locale)
    requires 'y' in pattern
    ensures exists f: DateTimeFormatter ::
              && f.pattern != pattern && 'y' !in f.pattern && f.resolverStyle == Strict
              && ToLocalDate(lib, dateStr, pattern, locale) == lib.parseWithFormatter(dateStr, f)
  {
    var f := DateTimeFormatter(RewriteYearSymbol(pattern), Some(locale), Strict);
    RewriteLeavesNoYearOfEra(pattern);
    RewriteFixesExactlyPatternsWithoutY(pattern);
    assert f.pattern != pattern && 'y' !in f.pattern && f.resolverStyle == Strict;
  }
}
