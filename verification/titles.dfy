/**
 * `parse_titles`: the lines of one table cell become film titles. A line
 * that starts with "(" (a distributor code) or with "WA" (the re-release
 * marker, but also any title such as "WALL-E") continues the title before it.
 */
module Titles {
  import opened Text

  /** `[l.strip() for l in lines if l.strip()]`: trimmed, non-blank lines in order. */
  function CleanLines(raw: seq<string>): (r: seq<string>)
    ensures |r| <= |raw|
    ensures forall k :: 0 <= k < |r| ==> r[k] != [] && Stripped(r[k])
  {
    if raw == [] then []
    else
      var t := Trim(raw[0]);
      var rest := CleanLines(raw[1..]);
      TrimStripped(raw[0]);
      if t == [] then rest else [t] + rest
  }

  /** The test `parse_titles` applies to a line. */
  predicate IsContinuation(line: string) {
    StartsWith(line, "(") || StartsWith(line, "WA") || line == "WA"
  }

  /** The titles list after the `for` loop of `parse_titles` has consumed `lines`. */
  function GroupLines(lines: seq<string>): seq<string>
    decreases |lines|
  {
    if lines == [] then []
    else
      var prev := GroupLines(lines[..|lines| - 1]);
      var line := lines[|lines| - 1];
      if IsContinuation(line) && prev != [] then
        prev[..|prev| - 1] + [prev[|prev| - 1] + " " + line]
      else
        prev + [line]
  }

  /** Number of lines that start a new title. */
  function CountStarts(lines: seq<string>): (n: nat)
    ensures n <= |lines|
  {
    if lines == [] then 0
    else CountStarts(lines[..|lines| - 1]) + (if IsContinuation(lines[|lines| - 1]) then 0 else 1)
  }

  /** `parse_titles(cell)`, with the cell given as its raw text lines. */
  method ParseTitles(cell: seq<string>) returns (titles: seq<string>)
    ensures titles == GroupLines(CleanLines(cell))
    ensures JoinSpace(titles) == JoinSpace(CleanLines(cell))
    ensures |titles| <= |CleanLines(cell)|
    ensures forall k :: 0 <= k < |titles| ==> titles[k] != []
  {
    var lines := CleanLines(cell);
    titles := [];
    for i := 0 to |lines|
      invariant titles == GroupLines(lines[..i])
    {
      var line := lines[i];
      GroupStep(lines, i);
      if IsContinuation(line) {
        if |titles| > 0 {
          titles := titles[..|titles| - 1] + [titles[|titles| - 1] + " " + line];
        } else {
          titles := titles + [line];
        }
      } else {
        titles := titles + [line];
      }
    }
    assert lines[..|lines|] == lines;
    GroupConservesText(lines);
    GroupCount(lines);
    GroupShape(lines);
  }

  // ---------------------------------------------------------------------
  // Lemmas

  /** One more line: `GroupLines` extends its result as the loop body of `parse_titles` does. */
  lemma GroupStep(lines: seq<string>, i: nat)
    requires i < |lines|
    ensures var prev := GroupLines(lines[..i]);
      GroupLines(lines[..i + 1]) ==
        if IsContinuation(lines[i]) && prev != [] then prev[..|prev| - 1] + [prev[|prev| - 1] + " " + lines[i]]
        else prev + [lines[i]]
  {
    assert lines[..i + 1][..i] == lines[..i];
  }

  lemma GroupEmpty(lines: seq<string>)
    ensures GroupLines(lines) == [] <==> lines == []
  {
  }

  /** Nothing is lost or reordered: the titles, space-joined, are the lines, space-joined. */
  lemma {:induction false} GroupConservesText(lines: seq<string>)
    ensures JoinSpace(GroupLines(lines)) == JoinSpace(lines)
    decreases |lines|
  {
    if lines != [] {
      var init, line := lines[..|lines| - 1], lines[|lines| - 1];
      var prev := GroupLines(init);
      GroupConservesText(init);
      GroupEmpty(init);
      assert lines == init + [line];
      JoinAppend(init, [line], " ");
      JoinAppend(prev, [line], " ");
      if IsContinuation(line) && prev != [] {
        JoinExtendLast(prev, line);
      }
    }
  }

  /** Appending `" " + line` to the last title appends it to the joined text. */
  lemma JoinExtendLast(prev: seq<string>, line: string)
    requires prev != []
    ensures JoinSpace(prev[..|prev| - 1] + [prev[|prev| - 1] + " " + line]) == JoinSpace(prev) + " " + line
  {
    var k := |prev| - 1;
    assert prev == prev[..k] + [prev[k]];
    JoinAppend(prev[..k], [prev[k]], " ");
    JoinAppend(prev[..k], [prev[k] + " " + line], " ");
  }

  /**
   * One title per line that is not a continuation, plus one when the first
   * line is a continuation with nothing before it to attach to.
   */
  lemma {:induction false} GroupCount(lines: seq<string>)
    ensures |GroupLines(lines)| ==
      CountStarts(lines) + (if lines != [] && IsContinuation(lines[0]) then 1 else 0)
    ensures |GroupLines(lines)| <= |lines|
    decreases |lines|
  {
    if lines != [] {
      var init := lines[..|lines| - 1];
      GroupCount(init);
      GroupEmpty(init);
      if init != [] {
        assert init[0] == lines[0];
      }
    }
  }

  /** A title that starts like a new title still does after continuations are appended. */
  lemma ExtendKeepsStart(a: string, b: string)
    requires a != [] && !IsContinuation(a)
    ensures !IsContinuation(a + " " + b)
  {
    var t := a + " " + b;
    assert t[0] == a[0];
    if |a| >= 2 {
      assert t[..2] == a[..2];
    } else {
      assert t[1] == ' ';
    }
  }

  /**
   * Every title is non-empty when the lines are, and every title after the
   * first starts like a new title (a continuation never stands alone there).
   */
  lemma {:induction false} GroupShape(lines: seq<string>)
    requires forall k :: 0 <= k < |lines| ==> lines[k] != []
    ensures forall k :: 0 <= k < |GroupLines(lines)| ==> GroupLines(lines)[k] != []
    ensures forall k :: 1 <= k < |GroupLines(lines)| ==> !IsContinuation(GroupLines(lines)[k])
    decreases |lines|
  {
    if lines != [] {
      var init, line := lines[..|lines| - 1], lines[|lines| - 1];
      GroupShape(init);
      var prev := GroupLines(init);
      if IsContinuation(line) && prev != [] && |prev| >= 2 {
        ExtendKeepsStart(prev[|prev| - 1], line);
      }
    }
  }
}
