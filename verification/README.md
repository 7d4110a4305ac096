# Kinostarts calendar: a Dafny model

`update_kinostarts_calendar.py` reads the German cinema release plan
published by InsideKino and turns it into an iCalendar feed. The page is a
table. Some cells hold a release date such as "14. August 2025 (Mariä
Himmelfahrt/Fr)". The row after each date cell holds the films starting that
day, one cell per category and one line per title or title fragment. The
script does five things:

- it keeps date cells whose text mentions one of the ten years from today's on;
- it parses those dates with `parse_date` and drops those that fail or lie in the past;
- it splits every category cell into titles with `parse_titles`;
- it glues a title fragment without "(" to a following fragment that has one;
- it writes one all-day `VEVENT` per (date, title) pair.

This project models that core in Dafny and proves what it promises.

- `wrappers.dfy`: `Option` and `Result`.
- `text.dfy`: the Python string operations the script relies on, each with
  its own contract. These are `strip`, `split()`, `split('(')[0]`,
  `replace('.', '')`, `startswith`, `in` on strings, `' '.join`,
  `'\n'.join`, `int()` and `str()` of an integer. Whitespace is the set
  `str.isspace` accepts. `int()` takes an optional sign and digits grouped by
  single underscores, and rejects more than 4300 digits as Python does by
  default.
- `calendar.dfy`: `datetime.date` as a subset type of real Gregorian days in
  years 1 to 9999, its ordering, `toordinal`, and `date + timedelta(days=1)`.
  The last is proved to be the immediate successor.
- `date_parser.dfy`: `MONTH_MAP` and `parse_date`. Each exception the
  function can raise is a `Failure` with its cause.
- `titles.dfy`: `parse_titles`, as a method with the loop of the source,
  proved against the function `GroupLines`.
- `harvest.dfy`: the loop of `fetch_events` over date cells, with its three
  `continue`s, the title collection, the fragment merge and the event
  emission. Each is a method proved against a specification function.
- `ics.dfy`: the line building of `write_ics`, as a method with the loop of
  the source, and the text it writes.

Two behaviours of the source are kept as written:

- A line that starts with "WA" continues the previous title. This holds for
  the re-release marker "WA" and also for any title such as "WALL·E".
- Title text goes into `SUMMARY:` without iCalendar escaping or line folding.

## Model

| member | source | states |
|---|---|---|
| Calendar.DaysInMonth | update_kinostarts_calendar.py:67 | a month has 28 to 31 days, and 29 exactly for February of a leap year (the check `datetime(...)` makes) |
| Calendar.NextDay | update_kinostarts_calendar.py:173 | `date + timedelta(days=1)` fails exactly on 31 December 9999; otherwise its ordinal is one more and it is later |
| Calendar.OrdinalOrder | update_kinostarts_calendar.py:127 | comparing dates field by field agrees with comparing their ordinals, and equal ordinals mean equal dates |
| Calendar.NextDayImmediate | update_kinostarts_calendar.py:173 | no date lies strictly between a date and the next day |
| Text.ParseDecimal | update_kinostarts_calendar.py:63-65 | `int(str(n)) == n` for every natural number of at most 4300 digits |
| Text.ParseIntTooLong | update_kinostarts_calendar.py:63-65 | `int` raises on a digit string longer than 4300 digits, leading zeros included |
| Text.ParseSigned | update_kinostarts_calendar.py:63-65 | `int` accepts a leading "+" or "-" on a decimal number of at most 4300 digits and applies it |
| Text.WordsOfJoin | update_kinostarts_calendar.py:61 | `split()` of non-empty words without whitespace, joined by single spaces, gives the words back |
| Text.TrimStripped | update_kinostarts_calendar.py:60 | `strip()` leaves no whitespace at either end |
| Text.BeforeFirstOf | update_kinostarts_calendar.py:60 | `split('(')[0]` is everything before the first "(" |
| DateParser.MonthName | update_kinostarts_calendar.py:28-41 | each of the twelve month names maps to its number and is one word without "(" |
| DateParser.MonthMapKeys | update_kinostarts_calendar.py:28-41 | the keys of `MONTH_MAP` are exactly the twelve month names |
| DateParser.ParseDateSound | update_kinostarts_calendar.py:63-67 | after the split, a parsed date is exactly the date spelled by the first three tokens (dotless day, month name, year) |
| DateParser.ParseDateComplete | update_kinostarts_calendar.py:63-67 | after the split, parsing succeeds whenever the first three tokens spell a real date, and gives that date |
| DateParser.ParseDateFails | update_kinostarts_calendar.py:63-66 | parsing fails with fewer than three tokens, with an unknown month name, or with a day or year that `int` rejects |
| DateParser.ParseDateRejectsLongYear | update_kinostarts_calendar.py:65 | a year token of more than 4300 digits makes parsing fail, even when it is "2025" behind leading zeros |
| DateParser.ParseDateRejectsMissingDay | update_kinostarts_calendar.py:63-67 | a day the month does not have (31. Februar, 29. Februar of a common year) fails with the `datetime` error |
| DateParser.TokensOfFormat | update_kinostarts_calendar.py:60-61 | an annotation in parentheses and the whitespace around it are dropped, so the tokens of a German date are its three words |
| DateParser.ParseFormatRoundTrip | update_kinostarts_calendar.py:59-67 | every real date written as "D. Monatsname YYYY", with or without " (annotation)", parses back to itself |
| Titles.CleanLines | update_kinostarts_calendar.py:84 | the stripped non-blank lines are no more than the raw lines, each non-empty and without whitespace at either end |
| Titles.ParseTitles | update_kinostarts_calendar.py:84-95 | the loop yields `GroupLines` of the clean lines; its titles space-join to the same text as the lines; there are no more titles than lines; no title is empty |
| Titles.GroupStep | update_kinostarts_calendar.py:86-94 | one more line either extends the last title by " " + line (continuation and a title exists) or appends the line as a new title |
| Titles.GroupConservesText | update_kinostarts_calendar.py:86-94 | grouping only regroups: titles and lines space-join to the same text |
| Titles.GroupCount | update_kinostarts_calendar.py:86-94 | the number of titles is the number of lines that start a title, plus one when the first line is a continuation; never more than the lines |
| Titles.GroupShape | update_kinostarts_calendar.py:86-94 | titles are non-empty, and no title after the first starts like a continuation |
| Titles.GroupEmpty | update_kinostarts_calendar.py:85-95 | there are no titles exactly when there are no lines |
| Harvest.MergeFragments | update_kinostarts_calendar.py:136-146 | the `while` loop computes `Merge`; the space-joined text is unchanged; n fragments give between ⌈n/2⌉ and n titles |
| Harvest.MergeConservesText | update_kinostarts_calendar.py:136-146 | merging only regroups: merged titles and fragments space-join to the same text |
| Harvest.MergeCount | update_kinostarts_calendar.py:136-146 | n fragments merge into at least ⌈n/2⌉ and at most n titles |
| Harvest.MergeEmpty | update_kinostarts_calendar.py:136-146 | the merge is empty exactly when there are no fragments |
| Harvest.MergeIdentity | update_kinostarts_calendar.py:141-146 | without an adjacent pair whose left part lacks "(" and whose right part has one, the merge returns the fragments unchanged |
| Harvest.MergeShape | update_kinostarts_calendar.py:139-143 | every merged title is one fragment, or two adjacent fragments joined by one space where the left has no "(" and the right has one |
| Harvest.CollectTitles | update_kinostarts_calendar.py:132-134 | the titles of all category cells, cell after cell |
| Harvest.RowTitlesConserveText | update_kinostarts_calendar.py:132-134 | the collected titles space-join to the text of the cells' clean lines, and are empty exactly when those lines are |
| Harvest.TagTitles | update_kinostarts_calendar.py:147-148 | the events made from the merged titles carry those titles in order, one each, all on the row's date |
| Harvest.AppendEvents | update_kinostarts_calendar.py:147-148 | one event per merged title is appended, all on the parsed date, titles in order |
| Harvest.HarvestRow | update_kinostarts_calendar.py:117-148 | one pass of the date-cell loop appends exactly that row's events to the list and leaves the earlier events in place |
| Harvest.RowEventsSpec | update_kinostarts_calendar.py:117-148 | a row yields events only if its text mentions one of the ten years from today's, its date parses and is not before today; then every event has that date, the titles are the merged titles of its cells, they keep the cells' text, there are ⌈n/2⌉ to n of them, and there is at least one as soon as the cells hold a non-blank line |
| Harvest.FetchEvents | update_kinostarts_calendar.py:114-149 | the loop over date cells yields `PageEvents`: each row's events, rows in document order |
| Harvest.PageEventsAppend | update_kinostarts_calendar.py:116-148 | document order: the events of two runs of rows are those of the first run followed by those of the second |
| Harvest.PageEventsStep | update_kinostarts_calendar.py:116-148 | one more date row adds its events after those of the rows before it |
| Harvest.PageEventsSound | update_kinostarts_calendar.py:116-148 | every event carries the parsed date of some row that mentions a year in range, and no event lies before today |
| Ics.DateStamp | update_kinostarts_calendar.py:172-173 | a `%Y%m%d` stamp is eight decimal digits |
| Ics.DateStampRoundTrip | update_kinostarts_calendar.py:172-173 | reading a stamp back as year, month and day gives the date it was made from |
| Ics.DateStampInjective | update_kinostarts_calendar.py:172-173 | distinct dates get distinct stamps |
| Ics.EventBlock | update_kinostarts_calendar.py:171-179 | an event's block fails exactly for 31 December 9999 and otherwise has six lines |
| Ics.EventBlockDates | update_kinostarts_calendar.py:172-179 | the block is BEGIN:VEVENT, DTSTART, DTEND, SUMMARY, UID:uid, END:VEVENT; DTSTART holds the event's date and DTEND the next real day (ordinal plus one), both as eight digits after their prefixes; SUMMARY holds the title verbatim |
| Ics.AppendBlock | update_kinostarts_calendar.py:174-179 | the six appends add exactly the event's block |
| Ics.BlocksStep | update_kinostarts_calendar.py:170-179 | one more event adds its block after those of the events before it |
| Ics.BuildCalendar | update_kinostarts_calendar.py:163-180 | the lines are the header, each event's block in input order, then `END:VCALENDAR`; it fails exactly when an event falls on 31 December 9999, reporting the first such event |
| Ics.BlocksLayout | update_kinostarts_calendar.py:170-179 | n events give 6n block lines, and block k is event k's six lines |
| Ics.CalendarLayout | update_kinostarts_calendar.py:163-180 | n events give 6 + 6n lines: `BEGIN:VCALENDAR` first, the five header lines, event k's block at lines 5 + 6k to 10 + 6k, `END:VCALENDAR` last |
| Ics.DocumentStart | update_kinostarts_calendar.py:181 | the written text starts with "BEGIN:VCALENDAR" and a line feed |
| Ics.DocumentEnd | update_kinostarts_calendar.py:181 | the written text ends with a line feed and "END:VCALENDAR", with no line break after it |

## Left out

- The HTTP request and its status check (lines 110-112) are not modelled; the page arrives as a list of date rows.
- The HTML parsing (lines 113, 116-117, 130-133) is not modelled. Each date row is given as the stripped text of the date cell plus the cells of the following table row. Each cell is given as its text split at line breaks (`get_text("\n").split('\n')`).
- The `AttributeError` raised when a date cell has no following table row is not modelled: every date row carries its cells.
- `datetime.now()` becomes the `today` parameter. Only its year and its date are used.
- `uuid.uuid4()` becomes the `uids` parameter, one string per event. The model says nothing about uniqueness.
- The file write, its UTF-8 encoding, `main` and its console message are not modelled. `Ics.Document` stands for the written text.
- `Text.ParseInt`: non-ASCII decimal digits, which Python's `int` also accepts, are not modelled. The digit limit is the default one; a program that changes it with `sys.set_int_max_str_digits` is not modelled. The tokens it reads never carry whitespace, so `int`'s own stripping is not needed.
- `Ics.DateStamp`: the year is always written with four zero-padded digits. For years before 1000, `%Y` depends on the platform's `strftime` and the Python version: glibc does not pad it, so some Pythons write "999" where the model writes "0999".
