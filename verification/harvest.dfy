/**
 * The event harvesting of `fetch_events`, from the point where the page has
 * been reduced to its date rows: the year pre-filter, the date parse, the
 * past-date filter, the flattening of the category cells' titles, the
 * cross-fragment merge and the emission of (date, title) events.
 */
module Harvest {
  import opened Wrappers
  import opened Text
  import opened Calendar
  import opened DateParser
  import opened Titles

  /**
   * A date cell's text (as `get_text(strip=True)` gives it) with the cells of
   * the table row that follows it, each cell as its raw text lines.
   */
  datatype DateRow = DateRow(dateText: string, cells: seq<seq<string>>)

  /** A `(date, title)` tuple of the event list. */
  datatype Event = Event(date: Date, title: string)

  /** `any(str(year) in date_text for year in range(today.year, today.year + 10))` */
  predicate MentionsYear(text: string, today: Date) {
    exists y: nat | today.year <= y < today.year + 10 :: IsSubstring(Decimal(y), text)
  }

  /** The merge test: the left fragment has no "(" and the right one has. */
  predicate Mergeable(left: string, right: string) {
    '(' !in left && '(' in right
  }

  /** What the `while` loop leaves in `merged` for the flattened title list `ts`. */
  function Merge(ts: seq<string>): seq<string>
    decreases |ts|
  {
    if ts == [] then []
    else if |ts| >= 2 && Mergeable(ts[0], ts[1]) then [ts[0] + " " + ts[1]] + Merge(ts[2..])
    else [ts[0]] + Merge(ts[1..])
  }

  /** The titles of all category cells of a row, in cell order. */
  function RowTitles(cells: seq<seq<string>>): seq<string> {
    if cells == [] then []
    else RowTitles(cells[..|cells| - 1]) + GroupLines(CleanLines(cells[|cells| - 1]))
  }

  /** The trimmed non-blank lines of all category cells of a row, in cell order. */
  function RowLines(cells: seq<seq<string>>): seq<string> {
    if cells == [] then []
    else RowLines(cells[..|cells| - 1]) + CleanLines(cells[|cells| - 1])
  }

  /** One event per title, all on `date`. */
  function Tag(date: Date, titles: seq<string>): seq<Event> {
    seq(|titles|, k requires 0 <= k < |titles| => Event(date, titles[k]))
  }

  /** The events one date row contributes. */
  function RowEvents(row: DateRow, today: Date): seq<Event> {
    if !MentionsYear(row.dateText, today) then []
    else
      match ParseDate(row.dateText)
      case Failure(_) => []
      case Success(date) =>
        if Before(date, today) then [] else Tag(date, Merge(RowTitles(row.cells)))
  }

  /** The concatenation of `f` over `xs`, in order. */
  function FlatMap<T>(xs: seq<T>, f: T -> seq<Event>): seq<Event> {
    if xs == [] then [] else FlatMap(xs[..|xs| - 1], f) + f(xs[|xs| - 1])
  }

  /** The events of a page: each row's events, rows in document order. */
  function PageEvents(page: seq<DateRow>, today: Date): seq<Event> {
    FlatMap(page, row => RowEvents(row, today))
  }

  /** The cross-fragment merge loop of `fetch_events`. */
  method MergeFragments(titles: seq<string>) returns (merged: seq<string>)
    ensures merged == Merge(titles)
    ensures JoinSpace(merged) == JoinSpace(titles)
    ensures (|titles| + 1) / 2 <= |merged| <= |titles|
  {
    merged := [];
    var i := 0;
    while i < |titles|
      invariant 0 <= i <= |titles|
      invariant merged + Merge(titles[i..]) == Merge(titles)
    {
      var rest := titles[i..];
      if i + 1 < |titles| && '(' !in titles[i] && '(' in titles[i + 1] {
        assert rest[2..] == titles[i + 2..];
        assert Merge(rest) == [titles[i] + " " + titles[i + 1]] + Merge(titles[i + 2..]);
        merged := merged + [titles[i] + " " + titles[i + 1]];
        i := i + 2;
      } else {
        assert rest[1..] == titles[i + 1..];
        assert Merge(rest) == [titles[i]] + Merge(titles[i + 1..]);
        merged := merged + [titles[i]];
        i := i + 1;
      }
    }
    MergeConservesText(titles);
    MergeCount(titles);
  }

  /** `fetch_events` after the page has been fetched and reduced to its date rows. */
  method FetchEvents(page: seq<DateRow>, today: Date) returns (events: seq<Event>)
    ensures events == PageEvents(page, today)
  {
    events := [];
    for i := 0 to |page|
      invariant events == PageEvents(page[..i], today)
    {
      PageEventsStep(page, i, today);
      events := HarvestRow(page[i], today, events);
    }
    assert page[..|page|] == page;
  }

  /**
   * One pass of the loop over date cells in `fetch_events`: the events of
   * `row` are appended to `events` (each `continue` leaves it unchanged).
   */
  method HarvestRow(row: DateRow, today: Date, events: seq<Event>) returns (events': seq<Event>)
    ensures events' == events + RowEvents(row, today)
  {
    events' := events;
    if !MentionsYear(row.dateText, today) {
      return;
    }
    var parsed := ParseDate(row.dateText);
    if parsed.Failure? {
      return;
    }
    var date := parsed.value;
    if Before(date, today) {
      return;
    }
    var titles := CollectTitles(row.cells);
    var merged := MergeFragments(titles);
    events' := AppendEvents(events', date, merged);
  }

  /** The `for td in next_tr.find_all('td')` loop: every category cell's titles, flattened. */
  method CollectTitles(cells: seq<seq<string>>) returns (titles: seq<string>)
    ensures titles == RowTitles(cells)
  {
    titles := [];
    for j := 0 to |cells|
      invariant titles == RowTitles(cells[..j])
    {
      var cellTitles := ParseTitles(cells[j]);
      assert cells[..j + 1][..j] == cells[..j];
      titles := titles + cellTitles;
    }
    assert cells[..|cells|] == cells;
  }

  /** `for title in merged: events.append((date, title))` */
  method AppendEvents(events: seq<Event>, date: Date, titles: seq<string>) returns (events': seq<Event>)
    ensures events' == events + Tag(date, titles)
  {
    events' := events;
    for k := 0 to |titles|
      invariant events' == events + Tag(date, titles[..k])
    {
      events' := events' + [Event(date, titles[k])];
    }
    assert titles[..|titles|] == titles;
  }

  // ---------------------------------------------------------------------
  // Lemmas about the merge

  /** The merge only regroups: the space-joined text is unchanged. */
  lemma {:induction false} MergeConservesText(ts: seq<string>)
    ensures JoinSpace(Merge(ts)) == JoinSpace(ts)
    decreases |ts|
  {
    if ts != [] {
      if |ts| >= 2 && Mergeable(ts[0], ts[1]) {
        var rest := ts[2..];
        MergeConservesText(rest);
        MergeEmpty(rest);
        assert ts == [ts[0], ts[1]] + rest;
        JoinAppend([ts[0], ts[1]], rest, " ");
        JoinAppend([ts[0] + " " + ts[1]], Merge(rest), " ");
        assert [ts[0], ts[1]][1..] == [ts[1]];
      } else {
        var rest := ts[1..];
        MergeConservesText(rest);
        MergeEmpty(rest);
        assert ts == [ts[0]] + rest;
        JoinAppend([ts[0]], rest, " ");
        JoinAppend([ts[0]], Merge(rest), " ");
      }
    }
  }

  lemma {:induction false} MergeEmpty(ts: seq<string>)
    ensures Merge(ts) == [] <==> ts == []
  {
  }

  /** n fragments merge into at least ⌈n/2⌉ and at most n titles. */
  lemma {:induction false} MergeCount(ts: seq<string>)
    ensures (|ts| + 1) / 2 <= |Merge(ts)| <= |ts|
    decreases |ts|
  {
    if ts != [] {
      if |ts| >= 2 && Mergeable(ts[0], ts[1]) {
        MergeCount(ts[2..]);
      } else {
        MergeCount(ts[1..]);
      }
    }
  }

  /** Without an adjacent mergeable pair the merge changes nothing. */
  lemma {:induction false} MergeIdentity(ts: seq<string>)
    requires forall i :: 0 <= i < |ts| - 1 ==> !Mergeable(ts[i], ts[i + 1])
    ensures Merge(ts) == ts
    decreases |ts|
  {
    if ts != [] {
      assert |ts| >= 2 ==> !Mergeable(ts[0], ts[1]);
      var rest := ts[1..];
      assert forall i :: 0 <= i < |rest| - 1 ==> !Mergeable(rest[i], rest[i + 1]) by {
        forall i | 0 <= i < |rest| - 1
          ensures !Mergeable(rest[i], rest[i + 1])
        {
          assert rest[i] == ts[i + 1] && rest[i + 1] == ts[i + 2];
        }
      }
      MergeIdentity(rest);
      assert ts == [ts[0]] + rest;
    }
  }

  /** `out` is fragment `j` alone, or fragments `j` and `j + 1` joined where they are mergeable. */
  predicate MergedFrom(ts: seq<string>, out: string, j: nat) {
    j < |ts| && (out == ts[j] || (j + 1 < |ts| && Mergeable(ts[j], ts[j + 1]) && out == ts[j] + " " + ts[j + 1]))
  }

  /** `out` is made of one fragment of `ts`, or of two adjacent ones that may be merged. */
  predicate HasOrigin(ts: seq<string>, out: string) {
    exists j: nat | j < |ts| :: MergedFrom(ts, out, j)
  }

  /**
   * Every merged title is one fragment, or two adjacent fragments of which
   * the left has no "(" and the right has one, joined by one space.
   */
  lemma {:induction false} MergeShape(ts: seq<string>)
    ensures forall k :: 0 <= k < |Merge(ts)| ==> HasOrigin(ts, Merge(ts)[k])
    decreases |ts|
  {
    if ts != [] {
      var step := if |ts| >= 2 && Mergeable(ts[0], ts[1]) then 2 else 1;
      var rest := ts[step..];
      MergeShape(rest);
      var out := Merge(ts);
      assert out == [out[0]] + Merge(rest);
      forall k | 0 <= k < |out|
        ensures HasOrigin(ts, out[k])
      {
        if k == 0 {
          assert MergedFrom(ts, out[0], 0);
        } else {
          assert out[k] == Merge(rest)[k - 1];
          assert HasOrigin(rest, out[k]);
          var j: nat :| j < |rest| && MergedFrom(rest, out[k], j);
          assert rest[j] == ts[j + step];
          assert j + 1 < |rest| ==> rest[j + 1] == ts[j + step + 1];
          assert MergedFrom(ts, out[k], j + step);
        }
      }
    }
  }

  // ---------------------------------------------------------------------
  // Lemmas about rows and pages

  /** Flattening the cells' titles keeps the cells' text: titles and lines space-join alike. */
  lemma {:induction false} RowTitlesConserveText(cells: seq<seq<string>>)
    ensures JoinSpace(RowTitles(cells)) == JoinSpace(RowLines(cells))
    ensures RowTitles(cells) == [] <==> RowLines(cells) == []
    decreases |cells|
  {
    if cells != [] {
      var init, last := cells[..|cells| - 1], cells[|cells| - 1];
      RowTitlesConserveText(init);
      GroupConservesText(CleanLines(last));
      GroupEmpty(CleanLines(last));
      JoinAppend(RowTitles(init), GroupLines(CleanLines(last)), " ");
      JoinAppend(RowLines(init), CleanLines(last), " ");
    }
  }

  /**
   * A date row yields events only if its text mentions one of the ten years
   * from `today`'s on, its date parses and that date is not before `today`
   * (a release on `today` is kept). Then every event carries that date, the
   * titles are the merged titles of its cells in order, their space-joined
   * text is that of the cells' lines, there are between half as many and as
   * many events as titles, and there is at least one event as soon as the
   * cells hold a non-blank line.
   */
  lemma RowEventsSpec(row: DateRow, today: Date)
    ensures RowEvents(row, today) != [] ==>
      && MentionsYear(row.dateText, today)
      && ParseDate(row.dateText).Success?
      && !Before(ParseDate(row.dateText).value, today)
    ensures MentionsYear(row.dateText, today) && ParseDate(row.dateText).Success?
            && !Before(ParseDate(row.dateText).value, today) ==>
      var date, es := ParseDate(row.dateText).value, RowEvents(row, today);
      var n := |RowTitles(row.cells)|;
      && (forall k :: 0 <= k < |es| ==> es[k].date == date)
      && TitlesOf(es) == Merge(RowTitles(row.cells))
      && JoinSpace(TitlesOf(es)) == JoinSpace(RowLines(row.cells))
      && (n + 1) / 2 <= |es| <= n
      && (RowLines(row.cells) != [] ==> es != [])
  {
    if MentionsYear(row.dateText, today) && ParseDate(row.dateText).Success?
       && !Before(ParseDate(row.dateText).value, today)
    {
      var date, ts := ParseDate(row.dateText).value, RowTitles(row.cells);
      var es := RowEvents(row, today);
      assert es == Tag(date, Merge(ts));
      TagTitles(date, Merge(ts));
      MergeConservesText(ts);
      MergeCount(ts);
      RowTitlesConserveText(row.cells);
    }
  }

  /** The titles of an event list, in order. */
  function TitlesOf(es: seq<Event>): seq<string> {
    seq(|es|, k requires 0 <= k < |es| => es[k].title)
  }

  /** Tagging titles with a date gives one event per title, in order, all on that date. */
  lemma TagTitles(date: Date, titles: seq<string>)
    ensures TitlesOf(Tag(date, titles)) == titles
    ensures forall e :: e in Tag(date, titles) ==> e.date == date
  {
  }

  lemma {:induction false} FlatMapAppend<T>(a: seq<T>, b: seq<T>, f: T -> seq<Event>)
    ensures FlatMap(a + b, f) == FlatMap(a, f) + FlatMap(b, f)
    decreases |b|
  {
    if b == [] {
      assert a + b == a;
    } else {
      var init := b[..|b| - 1];
      assert (a + b)[..|a + b| - 1] == a + init;
      FlatMapAppend(a, init, f);
    }
  }

  /** Document order: the events of a page are those of its first part, then those of the rest. */
  lemma PageEventsAppend(a: seq<DateRow>, b: seq<DateRow>, today: Date)
    ensures PageEvents(a + b, today) == PageEvents(a, today) + PageEvents(b, today)
  {
    FlatMapAppend(a, b, row => RowEvents(row, today));
  }

  /** One more date row: its events follow those of the rows before it. */
  lemma PageEventsStep(page: seq<DateRow>, i: nat, today: Date)
    requires i < |page|
    ensures PageEvents(page[..i + 1], today) == PageEvents(page[..i], today) + RowEvents(page[i], today)
  {
    var f := row => RowEvents(row, today);
    assert page[..i + 1][..i] == page[..i];
    assert FlatMap(page[..i + 1], f) == FlatMap(page[..i], f) + f(page[i]);
  }

  /**
   * Every event of a page comes from a date row that passed both filters and
   * whose parsed date the event carries; so no event lies before `today`.
   */
  lemma {:induction false} PageEventsSound(page: seq<DateRow>, today: Date)
    ensures forall e :: e in PageEvents(page, today) ==>
      && !Before(e.date, today)
      && exists i :: 0 <= i < |page| && MentionsYear(page[i].dateText, today)
                  && ParseDate(page[i].dateText) == Success(e.date)
    decreases |page|
  {
    if page != [] {
      var init, last := page[..|page| - 1], page[|page| - 1];
      PageEventsSound(init, today);
      forall e | e in PageEvents(page, today)
        ensures !Before(e.date, today)
        ensures exists i :: 0 <= i < |page| && MentionsYear(page[i].dateText, today)
                         && ParseDate(page[i].dateText) == Success(e.date)
      {
        if e in PageEvents(init, today) {
          var i :| 0 <= i < |init| && MentionsYear(init[i].dateText, today)
                && ParseDate(init[i].dateText) == Success(e.date);
          assert page[i] == init[i];
        } else {
          assert e in RowEvents(last, today);
          RowEventsSpec(last, today);
          var k :| 0 <= k < |RowEvents(last, today)| && RowEvents(last, today)[k] == e;
          assert page[|page| - 1] == last;
        }
      }
    }
  }
}
