/**
 * The line building of `write_ics`: a fixed calendar header, six lines per
 * event (an all-day VEVENT whose exclusive end is the following day), and
 * the closing line, joined with LF. TEXT values are not escaped and lines
 * are not folded, exactly as the script writes them.
 */
module Ics {
  import opened Wrappers
  import opened Text
  import opened Calendar
  import opened Harvest

  const Header: seq<string> := [
    "BEGIN:VCALENDAR",
    "VERSION:2.0",
    "CALSCALE:GREGORIAN",
    "X-WR-CALNAME:Deutsche Kinostarts",
    "X-WR-TIMEZONE:Europe/Berlin"]

  const Footer: string := "END:VCALENDAR"

  const StartPrefix: string := "DTSTART;VALUE=DATE:"
  const EndPrefix: string := "DTEND;VALUE=DATE:"

  /** `date.strftime('%Y%m%d')`: the DATE value form YYYYMMDD. */
  function DateStamp(d: Date): (s: string)
    ensures |s| == 8 && AllDigits(s)
  {
    Padded(d.year, 4) + Padded(d.month, 2) + Padded(d.day, 2)
  }

  /** Reads a YYYYMMDD value back into its year, month and day. */
  function ReadStamp(s: string): Ymd
    requires |s| == 8 && AllDigits(s)
  {
    Ymd(DecimalValue(s[..4]), DecimalValue(s[4..6]), DecimalValue(s[6..]))
  }

  /** The six lines of one event; `None` where `date + timedelta(days=1)` overflows. */
  function EventBlock(e: Event, uid: string): (block: Option<seq<string>>)
    ensures block.None? <==> e.date == MaxDate
    ensures block.Some? ==> |block.value| == 6
  {
    match NextDay(e.date)
    case None => None
    case Some(end) =>
      Some([
        "BEGIN:VEVENT",
        StartPrefix + DateStamp(e.date),
        EndPrefix + DateStamp(end),
        "SUMMARY:" + e.title,
        "UID:" + uid,
        "END:VEVENT"])
  }

  /** `'\n'.join(lines)`: the text written to the output file. */
  function Document(lines: seq<string>): string {
    Join(lines, "\n")
  }

  /** Why `write_ics` stops: `OverflowError` at the event with this index (dated 31 December 9999). */
  datatype WriteError = DateOverflow(index: nat)

  predicate NoOverflow(events: seq<Event>) {
    forall k :: 0 <= k < |events| ==> events[k].date != MaxDate
  }

  /** Event `e`'s lines, or none where its block cannot be built. */
  function EventLines(e: Event, uid: string): seq<string> {
    match EventBlock(e, uid)
    case Some(block) => block
    case None => []
  }

  /** The concatenation of `f(xs[k], ys[k])` for k in order. */
  function Chunks<T, U>(xs: seq<T>, ys: seq<U>, f: (T, U) -> seq<string>): seq<string>
    requires |ys| == |xs|
  {
    if xs == [] then []
    else
      var n := |xs| - 1;
      Chunks(xs[..n], ys[..n], f) + f(xs[n], ys[n])
  }

  /** The event blocks of `events`, in order. */
  function Blocks(events: seq<Event>, uids: seq<string>): seq<string>
    requires |uids| == |events|
  {
    Chunks(events, uids, EventLines)
  }

  /**
   * `write_ics` without the file write, with the `uuid4()` values given as
   * `uids`, one per event. It fails exactly when some event falls on the last
   * representable day, at the first such event; otherwise the lines are the
   * header, each event's block in input order, and the footer.
   */
  method BuildCalendar(events: seq<Event>, uids: seq<string>) returns (r: Result<seq<string>, WriteError>)
    requires |uids| == |events|
    ensures r.Success? <==> NoOverflow(events)
    ensures r.Failure? ==>
      && r.error.index < |events| && events[r.error.index].date == MaxDate
      && NoOverflow(events[..r.error.index])
    ensures r.Success? ==> r.value == Header + Blocks(events, uids) + [Footer]
  {
    var lines := Header;
    for i := 0 to |events|
      invariant NoOverflow(events[..i])
      invariant lines == Header + Blocks(events[..i], uids[..i])
    {
      var end := NextDay(events[i].date);
      if end.None? {
        return Failure(DateOverflow(i));
      }
      BlocksStep(events, uids, i);
      lines := AppendBlock(lines, events[i], uids[i], end.value);
    }
    assert events[..|events|] == events && uids[..|uids|] == uids;
    lines := lines + [Footer];
    return Success(lines);
  }

  /** The six `lines.append` calls for one event. */
  method AppendBlock(lines: seq<string>, event: Event, uid: string, end: Date) returns (lines': seq<string>)
    requires NextDay(event.date) == Some(end)
    ensures lines' == lines + EventLines(event, uid)
  {
    lines' := lines + ["BEGIN:VEVENT"];
    lines' := lines' + [StartPrefix + DateStamp(event.date)];
    lines' := lines' + [EndPrefix + DateStamp(end)];
    lines' := lines' + ["SUMMARY:" + event.title];
    lines' := lines' + ["UID:" + uid];
    lines' := lines' + ["END:VEVENT"];
  }

  /** Extending the processed prefix by one event appends that event's block. */
  lemma BlocksStep(events: seq<Event>, uids: seq<string>, i: nat)
    requires |uids| == |events| && i < |events| && NoOverflow(events[..i]) && events[i].date != MaxDate
    ensures NoOverflow(events[..i + 1])
    ensures Blocks(events[..i + 1], uids[..i + 1])
      == Blocks(events[..i], uids[..i]) + EventLines(events[i], uids[i])
  {
    assert events[..i + 1][..i] == events[..i] && uids[..i + 1][..i] == uids[..i];
  }

  // ---------------------------------------------------------------------
  // Lemmas

  /** When every chunk has six lines, chunk `k` sits at line `6 * k` of the concatenation. */
  lemma {:induction false} ChunksLayout<T, U>(xs: seq<T>, ys: seq<U>, f: (T, U) -> seq<string>, k: nat)
    requires |ys| == |xs| && k < |xs|
    requires forall i :: 0 <= i < |xs| ==> |f(xs[i], ys[i])| == 6
    ensures |Chunks(xs, ys, f)| == 6 * |xs|
    ensures Chunks(xs, ys, f)[6 * k .. 6 * k + 6] == f(xs[k], ys[k])
    decreases |xs|
  {
    var n := |xs| - 1;
    var front := Chunks(xs[..n], ys[..n], f);
    ChunksLength(xs[..n], ys[..n], f);
    if k < n {
      ChunksLayout(xs[..n], ys[..n], f, k);
      assert xs[..n][k] == xs[k] && ys[..n][k] == ys[k];
      assert Chunks(xs, ys, f)[6 * k .. 6 * k + 6] == front[6 * k .. 6 * k + 6];
    }
  }

  /** When every chunk has six lines, n chunks concatenate to `6 * n` lines. */
  lemma {:induction false} ChunksLength<T, U>(xs: seq<T>, ys: seq<U>, f: (T, U) -> seq<string>)
    requires |ys| == |xs|
    requires forall i :: 0 <= i < |xs| ==> |f(xs[i], ys[i])| == 6
    ensures |Chunks(xs, ys, f)| == 6 * |xs|
    decreases |xs|
  {
    if xs != [] {
      var n := |xs| - 1;
      assert forall i :: 0 <= i < n ==> xs[..n][i] == xs[i] && ys[..n][i] == ys[i];
      ChunksLength(xs[..n], ys[..n], f);
    }
  }

  /** Block `k` of `Blocks` is event `k`'s six lines. */
  lemma BlocksLayout(events: seq<Event>, uids: seq<string>, k: nat)
    requires |uids| == |events| && NoOverflow(events) && k < |events|
    ensures |Blocks(events, uids)| == 6 * |events|
    ensures Blocks(events, uids)[6 * k .. 6 * k + 6] == EventBlock(events[k], uids[k]).value
  {
    forall i | 0 <= i < |events|
      ensures |EventLines(events[i], uids[i])| == 6
    {
    }
    ChunksLayout(events, uids, EventLines, k);
  }

  /**
   * The output for n events has 6 + 6n lines: `BEGIN:VCALENDAR` first,
   * `END:VCALENDAR` last, the header's fixed properties, and event k's block
   * at lines 5 + 6k to 10 + 6k.
   */
  lemma CalendarLayout(events: seq<Event>, uids: seq<string>, k: nat)
    requires |uids| == |events| && NoOverflow(events) && k < |events|
    ensures var lines := Header + Blocks(events, uids) + [Footer];
      && |lines| == 6 + 6 * |events|
      && lines[0] == "BEGIN:VCALENDAR" && lines[|lines| - 1] == "END:VCALENDAR"
      && lines[..5] == Header
      && Some(lines[5 + 6 * k .. 11 + 6 * k]) == EventBlock(events[k], uids[k])
  {
    BlocksLayout(events, uids, k);
    Framed(Header, Blocks(events, uids), [Footer], 6 * k, 6 * k + 6);
  }

  /** A slice of the middle part of `head + body + tail`, read at its offset. */
  lemma Framed<T>(head: seq<T>, body: seq<T>, tail: seq<T>, i: nat, j: nat)
    requires i <= j <= |body|
    ensures (head + body + tail)[|head| + i .. |head| + j] == body[i..j]
  {
  }

  /** A DATE stamp reads back as the date it was made from. */
  lemma DateStampRoundTrip(d: Date)
    ensures ReadStamp(DateStamp(d)) == d
  {
    var s := DateStamp(d);
    assert s[..4] == Padded(d.year, 4);
    assert s[4..6] == Padded(d.month, 2);
    assert s[6..] == Padded(d.day, 2);
    PaddedValue(d.year, 4);
    PaddedValue(d.month, 2);
    PaddedValue(d.day, 2);
  }

  /** Distinct dates get distinct stamps. */
  lemma DateStampInjective(a: Date, b: Date)
    requires DateStamp(a) == DateStamp(b)
    ensures a == b
  {
    DateStampRoundTrip(a);
    DateStampRoundTrip(b);
  }

  /**
   * Every event block opens with BEGIN:VEVENT and closes with the UID line and
   * END:VEVENT. DTSTART is the event's date and DTEND is the next
   * Gregorian day (ordinal plus one, with month, year and 29 February
   * rollover), both as 8-digit YYYYMMDD; SUMMARY is the title verbatim.
   */
  lemma EventBlockDates(e: Event, uid: string)
    requires EventBlock(e, uid).Some?
    ensures
      var block := EventBlock(e, uid).value;
      && block[0] == "BEGIN:VEVENT" && block[4] == "UID:" + uid && block[5] == "END:VEVENT"
      && StartsWith(block[1], StartPrefix) && |block[1]| == |StartPrefix| + 8
      && StartsWith(block[2], EndPrefix) && |block[2]| == |EndPrefix| + 8
      && AllDigits(block[1][|StartPrefix|..]) && AllDigits(block[2][|EndPrefix|..])
      && ReadStamp(block[1][|StartPrefix|..]) == e.date
      && block[3] == "SUMMARY:" + e.title
      && var end := ReadStamp(block[2][|EndPrefix|..]);
         IsValidDate(end.year, end.month, end.day) && Ordinal(end) == Ordinal(e.date) + 1
  {
    var block := EventBlock(e, uid).value;
    var next := NextDay(e.date).value;
    assert block[1][|StartPrefix|..] == DateStamp(e.date);
    assert block[2][|EndPrefix|..] == DateStamp(next);
    DateStampRoundTrip(e.date);
    DateStampRoundTrip(next);
  }

  /** The written text opens with the calendar's first line. */
  lemma DocumentStart(lines: seq<string>)
    requires |lines| >= 2 && lines[0] == "BEGIN:VCALENDAR"
    ensures StartsWith(Document(lines), "BEGIN:VCALENDAR\n")
  {
    var text := Document(lines);
    assert text == lines[0] + "\n" + Document(lines[1..]);
    assert text[..16] == "BEGIN:VCALENDAR\n";
  }

  /** The written text closes with the calendar's last line, with no line break after it. */
  lemma DocumentEnd(lines: seq<string>)
    requires |lines| >= 2 && lines[|lines| - 1] == Footer
    ensures var text := Document(lines);
      |text| >= |Footer| + 1 && text[|text| - |Footer| - 1..] == "\n" + Footer
  {
    var init := lines[..|lines| - 1];
    assert lines == init + [Footer];
    JoinAppend(init, [Footer], "\n");
  }
}
