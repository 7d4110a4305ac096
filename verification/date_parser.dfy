/**
 * `parse_date`: a German release date such as "14. August 2025 (Mariä
 * Himmelfahrt/Fr)" becomes a calendar date, or fails the way the script's
 * `int`, indexing, `MONTH_MAP` lookup or `datetime` constructor would raise.
 */
module DateParser {
  import opened Wrappers
  import opened Text
  import opened Calendar

  /** `MONTH_MAP`: the twelve German month names. */
  const MonthMap: map<string, int> := map[
    "Januar" := 1, "Februar" := 2, "März" := 3, "April" := 4,
    "Mai" := 5, "Juni" := 6, "Juli" := 7, "August" := 8,
    "September" := 9, "Oktober" := 10, "November" := 11, "Dezember" := 12]

  /** The same names in month order, for writing dates. */
  const MonthNames: seq<string> := [
    "Januar", "Februar", "März", "April", "Mai", "Juni",
    "Juli", "August", "September", "Oktober", "November", "Dezember"]

  /** The exception each failing step of `parse_date` raises. */
  datatype ParseError =
    | MissingToken  // IndexError: fewer tokens than `parts[0]`, `parts[1]`, `parts[2]` need
    | NotANumber    // ValueError from `int` on the day or year token
    | UnknownMonth  // KeyError from `MONTH_MAP`
    | InvalidDate   // from `datetime`: ValueError for a year, month or day out of range,
                    // OverflowError for a year or day beyond a C int

  /** `date_str.split('(')[0].strip().split()` */
  function Tokens(text: string): seq<string> {
    Words(Trim(BeforeFirst(text, '(')))
  }

  /** `parse_date`; the exception it would raise becomes a `Failure`. */
  function ParseDate(text: string): Result<Date, ParseError> {
    ParseFields(Tokens(text))
  }

  /** The body of `parse_date` after its split: day, month name and year from the tokens. */
  function ParseFields(parts: seq<string>): Result<Date, ParseError> {
    if |parts| == 0 then Failure(MissingToken)
    else
      match ParseInt(RemoveAll(parts[0], '.'))
      case None => Failure(NotANumber)
      case Some(day) =>
        if |parts| < 3 then Failure(MissingToken)
        else
          match ParseInt(parts[2])
          case None => Failure(NotANumber)
          case Some(year) =>
            if parts[1] !in MonthMap then Failure(UnknownMonth)
            else
              var month := MonthMap[parts[1]];
              if IsValidDate(year, month, day) then Success(Ymd(year, month, day))
              else Failure(InvalidDate)
  }

  /** The three tokens of a date written in German: "D.", the month name, "YYYY". */
  function DateTokens(d: Date): seq<string> {
    [Decimal(d.day) + ".", MonthNames[d.month - 1], Decimal(d.year)]
  }

  /** "D. Monatsname YYYY", optionally followed by " (annotation)". */
  function FormatGerman(d: Date, note: Option<string>): string {
    JoinSpace(DateTokens(d)) + (match note case None => "" case Some(a) => " (" + a + ")")
  }

  // ---------------------------------------------------------------------
  // Lemmas

  /** Each month name is a single word that `MONTH_MAP` maps back to its month. */
  lemma MonthName(m: int)
    requires 1 <= m <= 12
    ensures MonthNames[m - 1] in MonthMap && MonthMap[MonthNames[m - 1]] == m
    ensures MonthNames[m - 1] != [] && NoSpace(MonthNames[m - 1]) && '(' !in MonthNames[m - 1]
  {
  }

  /** The keys of `MONTH_MAP` are exactly the twelve month names. */
  lemma MonthMapKeys()
    ensures forall name :: name in MonthMap <==> name in MonthNames
  {
  }

  /**
   * `parse_date` never returns a wrong date: a success is exactly the date the
   * first three tokens spell (day token without its dots, month name, year).
   */
  lemma ParseDateSound(parts: seq<string>)
    ensures ParseFields(parts).Success? ==>
      var d := ParseFields(parts).value;
      && |parts| >= 3
      && ParseInt(RemoveAll(parts[0], '.')) == Some(d.day)
      && parts[1] in MonthMap && MonthMap[parts[1]] == d.month
      && ParseInt(parts[2]) == Some(d.year)
  {
  }

  /** `parse_date` succeeds whenever the first three tokens spell a real date. */
  lemma ParseDateComplete(parts: seq<string>, day: int, year: int)
    requires |parts| >= 3 && parts[1] in MonthMap
    requires ParseInt(RemoveAll(parts[0], '.')) == Some(day)
    requires ParseInt(parts[2]) == Some(year)
    requires IsValidDate(year, MonthMap[parts[1]], day)
    ensures ParseFields(parts) == Success(Ymd(year, MonthMap[parts[1]], day))
  {
  }

  /** `parse_date` fails, and so returns no date, in each of the script's error cases. */
  lemma ParseDateFails(parts: seq<string>)
    ensures |parts| < 3 ==> ParseFields(parts).Failure?
    ensures |parts| >= 3 && parts[1] !in MonthMap ==> ParseFields(parts).Failure?
    ensures |parts| >= 3 && ParseInt(parts[2]).None? ==> ParseFields(parts).Failure?
    ensures |parts| >= 1 && ParseInt(RemoveAll(parts[0], '.')).None? ==> ParseFields(parts).Failure?
  {
  }

  /**
   * A year token of more than 4300 digits, however many of them are leading
   * zeros, makes `int` raise, so the row's date does not parse.
   */
  lemma ParseDateRejectsLongYear(parts: seq<string>)
    requires |parts| >= 3 && AllDigits(parts[2]) && |parts[2]| > MaxStrDigits
    ensures ParseFields(parts).Failure?
  {
    ParseIntTooLong(parts[2]);
  }

  /** A day the month does not have (31. Februar, 29. Februar of a common year) is rejected. */
  lemma ParseDateRejectsMissingDay(parts: seq<string>, day: int, year: int)
    requires |parts| >= 3 && parts[1] in MonthMap
    requires ParseInt(RemoveAll(parts[0], '.')) == Some(day)
    requires ParseInt(parts[2]) == Some(year)
    requires !IsValidDate(year, MonthMap[parts[1]], day)
    ensures ParseFields(parts) == Failure(InvalidDate)
  {
  }

  lemma DateTokensShape(d: Date)
    ensures forall k :: 0 <= k < 3 ==> DateTokens(d)[k] != [] && NoSpace(DateTokens(d)[k])
    ensures forall k :: 0 <= k < 3 ==> '(' !in DateTokens(d)[k]
  {
    MonthName(d.month);
    var t := DateTokens(d);
    assert forall i :: 0 <= i < |Decimal(d.day)| ==> IsDigit(t[0][i]);
    assert forall i :: 0 <= i < |t[2]| ==> IsDigit(t[2][i]);
  }

  lemma {:induction false} JoinNoParen(ws: seq<string>)
    requires forall k :: 0 <= k < |ws| ==> '(' !in ws[k]
    ensures '(' !in JoinSpace(ws)
  {
    if |ws| > 1 {
      JoinNoParen(ws[1..]);
    }
  }

  /** The date's three tokens joined by spaces: no "(" and no whitespace at either end. */
  lemma DateCoreShape(d: Date)
    ensures var core := JoinSpace(DateTokens(d));
      '(' !in core && Trim(core) == core
  {
    var t := DateTokens(d);
    var core := JoinSpace(t);
    DateTokensShape(d);
    JoinNoParen(t);
    assert t[1..] == [t[1], t[2]] && [t[1], t[2]][1..] == [t[2]];
    assert Join([t[2]], " ") == t[2];
    assert Join([t[1], t[2]], " ") == t[1] + " " + t[2];
    assert core == t[0] + " " + Join([t[1], t[2]], " ");
    assert core[0] == t[0][0] && core[|core| - 1] == t[2][|t[2]| - 1];
    TrimUnchanged(core);
  }

  /** Cutting at the first "(" and stripping leaves the date's three space-joined tokens. */
  lemma DateCoreOfFormat(d: Date, note: Option<string>)
    ensures Trim(BeforeFirst(FormatGerman(d, note), '(')) == JoinSpace(DateTokens(d))
  {
    var core := JoinSpace(DateTokens(d));
    DateCoreShape(d);
    var text := FormatGerman(d, note);
    match note {
      case None =>
        assert text == core;
        assert BeforeFirst(text, '(') == core;
      case Some(a) =>
        assert text == (core + " ") + ['('] + (a + ")");
        BeforeFirstOf(core + " ", '(', a + ")");
        TrimDropsTrailingSpace(core, ' ');
    }
  }

  /** The annotation and the whitespace around it vanish: the tokens are the date's three. */
  lemma TokensOfFormat(d: Date, note: Option<string>)
    ensures Tokens(FormatGerman(d, note)) == DateTokens(d)
  {
    DateCoreOfFormat(d, note);
    DateTokensShape(d);
    WordsOfJoin(DateTokens(d));
  }

  /** The day token "D." reads back as the day once its dot is removed. */
  lemma DayTokenValue(day: nat)
    requires |Decimal(day)| <= MaxStrDigits
    ensures ParseInt(RemoveAll(Decimal(day) + ".", '.')) == Some(day)
  {
    var t := Decimal(day);
    RemoveAllAppend(t, ".", '.');
    assert RemoveAll(".", '.') == [] by {
      assert "."[1..] == [];
    }
    assert '.' !in t by {
      assert forall i :: 0 <= i < |t| ==> IsDigit(t[i]);
    }
    RemoveAllAbsent(t, '.');
    assert RemoveAll(t + ".", '.') == t + [] == t;
    ParseDecimal(day);
  }

  /** Text whose tokens are a date's three German tokens parses to that date. */
  lemma ParseDateTokens(text: string, d: Date)
    requires Tokens(text) == DateTokens(d)
    ensures ParseDate(text) == Success(d)
  {
    assert Pow10(4) == 10000;
    DecimalLength(d.day, 4);
    DecimalLength(d.year, 4);
    DayTokenValue(d.day);
    ParseDecimal(d.year);
    MonthName(d.month);
  }

  /** Any real date written in German, with or without an annotation, parses back to itself. */
  lemma ParseFormatRoundTrip(d: Date, note: Option<string>)
    ensures ParseDate(FormatGerman(d, note)) == Success(d)
  {
    TokensOfFormat(d, note);
    ParseDateTokens(FormatGerman(d, note), d);
  }
}
