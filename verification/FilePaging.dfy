/** Paged reading of a file (crates/agents/src/builtins.rs): numbered lines, cut at
    a byte cap, and the promise that reading on shows every line once. */
module FilePaging {
  import opened Text

  const READ_FILE_MAX_BYTES: nat := 48 * 1024
  const USIZE_MAX: nat := 0xFFFF_FFFF_FFFF_FFFF

  // ------------------------------------------------------------------ formatting

  function Spaces(n: nat): string { if n == 0 then "" else " " + Spaces(n - 1) }

  /** `{n:>5}` */
  function Padded(n: nat): string {
    var d := Decimal(n);
    if |d| < 5 then Spaces(5 - |d|) + d else d
  }

  function RowHead(n: nat, line: string): string { Padded(n) + "\t" + line }

  function Row(n: nat, line: string): string { RowHead(n, line) + "\n" }

  /** Every line as the row it is shown as. */
  function Formatted(lines: seq<string>): (rows: seq<string>)
    ensures |rows| == |lines| && forall i :: 0 <= i < |rows| ==> rows[i] != ""
  {
    if lines == [] then []
    else Formatted(lines[..|lines| - 1]) + [Row(|lines|, lines[|lines| - 1])]
  }

  /** The `n`th row is line `n` under its number. */
  lemma {:induction false} FormattedRow(lines: seq<string>, n: nat)
    requires 1 <= n <= |lines|
    ensures Formatted(lines)[n - 1] == Row(n, lines[n - 1])
    decreases |lines|
  {
    if n < |lines| { FormattedRow(lines[..|lines| - 1], n); }
  }

  /** The rows `from..=to`. */
  function Rows(rows: seq<string>, from: nat, to: nat): string
    requires 1 <= from && to <= |rows|
    decreases (to)
  {
    if to < from then "" else Rows(rows, from, to - 1) + rows[to - 1]
  }

  function RangeHeader(from: nat, to: nat, total: nat): string {
    "[lines " + Decimal(from) + "-" + Decimal(to) + " of " + Decimal(total) + "]\n"
  }

  function PastEnd(from: nat, total: nat): string {
    "[line " + Decimal(from) + " is past the end of the file (" + Decimal(total) + " lines)]"
  }

  function EmptyRange(from: nat, to: nat): string {
    "[the range is empty: start " + Decimal(from) + " is after end " + Decimal(to) + "]"
  }

  function From(start: Option<nat>): nat {
    if start.Some? && start.value > 1 then start.value else 1
  }

  function To(end: Option<nat>, total: nat): nat {
    if end.Some? && end.value < total then end.value else total
  }

  /** The line before the rows, which only a ranged read has. */
  function Opening(start: Option<nat>, end: Option<nat>, total: nat): string {
    if start.Some? || end.Some? then RangeHeader(From(start), To(end, total), total) else ""
  }

  function RangeText(lines: seq<string>, start: Option<nat>, end: Option<nat>): string {
    var total := |lines|;
    var from, to := From(start), To(end, total);
    if from > total then Opening(start, end, total) + PastEnd(from, total)
    else if from > to then Opening(start, end, total) + EmptyRange(from, to)
    else WithoutLast(Opening(start, end, total) + Rows(Formatted(lines), from, to))
  }

  /** `pop` */
  function WithoutLast(s: string): string { if s == "" then "" else s[..|s| - 1] }

  /** The row loop of `numbered_range`. */
  method JoinRows(rows: seq<string>, from: nat, to: nat) returns (out: string)
    requires 1 <= from <= to <= |rows|
    ensures out == Rows(rows, from, to)
  {
    out := "";
    var n := from;
    while n <= to
      invariant from <= n <= to + 1
      invariant out == Rows(rows, from, n - 1)
    {
      out := out + rows[n - 1];
      n := n + 1;
    }
  }

  method NumberedRange(lines: seq<string>, start: Option<nat>, end: Option<nat>) returns (out: string)
    ensures out == RangeText(lines, start, end)
  {
    var total := |lines|;
    var from, to := From(start), To(end, total);
    var opening := Opening(start, end, total);
    if from > total { return opening + PastEnd(from, total); }
    if from > to { return opening + EmptyRange(from, to); }
    var body := JoinRows(Formatted(lines), from, to);
    out := opening + body;
    out := WithoutLast(out);
  }

  // ------------------------------------------------------------- lengths in bytes

  lemma {:induction false} Utf8Concat(a: string, b: string)
    ensures Utf8Len(a + b) == Utf8Len(a) + Utf8Len(b)
    decreases |b|
  {
    if b == "" {
      assert a + b == a;
    } else {
      assert (a + b)[..|a + b| - 1] == a + b[..|b| - 1];
      Utf8Concat(a, b[..|b| - 1]);
    }
  }

  lemma {:induction false} Utf8Ascii(s: string)
    requires forall i :: 0 <= i < |s| ==> s[i] < '\U{0080}'
    ensures Utf8Len(s) == |s|
  {
    if s != "" { Utf8Ascii(s[..|s| - 1]); }
  }

  /** `utf8_head`: the longest prefix of at most `max` bytes. */
  function Utf8Head(s: string, max: nat): (r: string)
    ensures r <= s && Utf8Len(r) <= max
    ensures r != s ==> Utf8Len(s[..|r| + 1]) > max
    decreases |s|
  {
    if Utf8Len(s) <= max then s
    else
      var r := Utf8Head(s[..|s| - 1], max);
      assert r != s[..|s| - 1] ==> s[..|s| - 1][..|r| + 1] == s[..|r| + 1];
      assert r == s[..|s| - 1] ==> s[..|r| + 1] == s;
      r
  }

  function Pow10(k: nat): nat { if k == 0 then 1 else 10 * Pow10(k - 1) }

  lemma {:induction false} DecimalLength(n: nat, k: nat)
    requires k >= 1 && n < Pow10(k)
    ensures |Decimal(n)| <= k
  {
    if n >= 10 {
      assert k > 1 by { assert Pow10(1) == 10; }
      DecimalLength(n / 10, k - 1);
    }
  }

  lemma {:induction false} UsizeLength(n: nat)
    requires n <= USIZE_MAX
    ensures |Decimal(n)| <= 20 && Utf8Len(Decimal(n)) <= 20
  {
    assert Pow10(20) == 100_000_000_000_000_000_000 by {
      assert Pow10(4) == 10_000;
      assert Pow10(8) == 100_000_000;
      assert Pow10(12) == 1_000_000_000_000;
      assert Pow10(16) == 10_000_000_000_000_000;
    }
    DecimalLength(n, 20);
    Utf8Ascii(Decimal(n));
  }

  lemma {:induction false} HeaderIsShort(from: nat, to: nat, total: nat)
    requires from <= USIZE_MAX && to <= USIZE_MAX && total <= USIZE_MAX
    ensures Utf8Len(RangeHeader(from, to, total)) <= 80
  {
    UsizeLength(from);
    UsizeLength(to);
    UsizeLength(total);
    Utf8Ascii(RangeHeader(from, to, total));
  }

  lemma {:induction false} NoticesAreShort(from: nat, to: nat, total: nat)
    requires from <= USIZE_MAX && to <= USIZE_MAX && total <= USIZE_MAX
    ensures Utf8Len(PastEnd(from, total)) <= 100 && Utf8Len(EmptyRange(from, to)) <= 100
  {
    PastEndIsShort(from, total);
    EmptyRangeIsShort(from, to);
  }

  lemma {:induction false} PastEndIsShort(from: nat, total: nat)
    requires from <= USIZE_MAX && total <= USIZE_MAX
    ensures Utf8Len(PastEnd(from, total)) <= 100
  {
    UsizeLength(from);
    UsizeLength(total);
    Utf8Ascii(PastEnd(from, total));
  }

  lemma {:induction false} EmptyRangeIsShort(from: nat, to: nat)
    requires from <= USIZE_MAX && to <= USIZE_MAX
    ensures Utf8Len(EmptyRange(from, to)) <= 100
  {
    UsizeLength(from);
    UsizeLength(to);
    Utf8Ascii(EmptyRange(from, to));
  }

  /** A read that shows no line always fits, so what follows never indexes past the
      end of the file. */
  lemma {:induction false} NothingShownFits(lines: seq<string>, start: Option<nat>, end: Option<nat>)
    requires |lines| <= USIZE_MAX && From(start) <= USIZE_MAX
    requires From(start) > To(end, |lines|)
    ensures Utf8Len(RangeText(lines, start, end)) <= READ_FILE_MAX_BYTES
  {
    var from, to, total := From(start), To(end, |lines|), |lines|;
    HeaderIsShort(from, to, total);
    NoticesAreShort(from, to, total);
    Utf8Concat(Opening(start, end, total), PastEnd(from, total));
    Utf8Concat(Opening(start, end, total), EmptyRange(from, to));
  }

  // ---------------------------------------------------------------------- a page

  /** What one read returns, with the lines it shows: a notice that there is nothing
      to show, the whole range, the rows that fit together with the range its last
      line suggests to read next, or the head of one over-long line. */
  datatype Page =
    | Notice
    | Whole(from: nat, last: nat)
    | Cut(from: nat, last: nat, body: string, next: nat, nextEnd: nat)
    | Head(from: nat, head: string)

  function LastShown(p: Page): nat
    requires !p.Notice?
  {
    match p case Whole(_, last) => last case Cut(_, last, _, _, _) => last case Head(from, _) => from
  }

  /** What the page of `from..=to` is, `full` being the text of the whole range. */
  ghost predicate IsPage(rows: seq<string>, full: string, from: nat, to: nat, p: Page)
    requires 1 <= from && to <= |rows|
  {
    var cap := READ_FILE_MAX_BYTES;
    match p
    case Notice => from > to && Utf8Len(full) <= cap
    case Whole(f, last) => f == from <= to == last && Utf8Len(full) <= cap
    case Cut(f, last, body, next, nextEnd) =>
      && f == from <= last <= to && Utf8Len(full) > cap
      && body == Rows(rows, from, last) && Utf8Len(body) <= cap
      && (last < to ==> Utf8Len(Rows(rows, from, last + 1)) > cap)
      && next == last + 1
      && nextEnd == Min(next + (last - from), to)
    case Head(f, head) =>
      && f == from <= to && Utf8Len(full) > cap && Utf8Len(rows[from - 1]) > cap
      && head <= WithoutLast(rows[from - 1]) && Utf8Len(head) <= cap
      && (head != WithoutLast(rows[from - 1]) ==> Utf8Len(rows[from - 1][..|head| + 1]) > cap)
  }

  lemma {:induction false} HeadOfRow(row: string, cap: nat)
    requires row != ""
    ensures var head := Utf8Head(WithoutLast(row), cap);
            head != WithoutLast(row) ==> |head| < |row| && Utf8Len(row[..|head| + 1]) > cap
  {
    var head := Utf8Head(WithoutLast(row), cap);
    assert head != WithoutLast(row) ==> WithoutLast(row)[..|head| + 1] == row[..|head| + 1];
  }

  lemma {:induction false} HeadIsPage(rows: seq<string>, full: string, from: nat, to: nat)
    requires 1 <= from <= to <= |rows| && Utf8Len(full) > READ_FILE_MAX_BYTES
    requires rows[from - 1] != "" && Utf8Len(rows[from - 1]) > READ_FILE_MAX_BYTES
    ensures IsPage(rows, full, from, to, Head(from, Utf8Head(WithoutLast(rows[from - 1]), READ_FILE_MAX_BYTES)))
  {
    HeadOfRow(rows[from - 1], READ_FILE_MAX_BYTES);
  }

  /** The row loop of `numbered_page`: as many rows as fit. */
  method TakeRows(rows: seq<string>, from: nat, to: nat) returns (last: nat, body: string)
    requires 1 <= from <= to <= |rows|
    ensures from - 1 <= last <= to
    ensures body == Rows(rows, from, last) && Utf8Len(body) <= READ_FILE_MAX_BYTES
    ensures last < to ==> Utf8Len(Rows(rows, from, last + 1)) > READ_FILE_MAX_BYTES
  {
    body, last := "", from - 1;
    for n := from to to + 1
      invariant last == n - 1
      invariant body == Rows(rows, from, last) && Utf8Len(body) <= READ_FILE_MAX_BYTES
    {
      var row := rows[n - 1];
      Utf8Concat(body, row);
      if Utf8Len(body) + Utf8Len(row) > READ_FILE_MAX_BYTES { break; }
      body := body + row;
      last := n;
    }
  }

  /** The part of `numbered_page` behind its length check. */
  method FitRows(rows: seq<string>, ghost full: string, from: nat, to: nat) returns (p: Page)
    requires 1 <= from <= to <= |rows| && Utf8Len(full) > READ_FILE_MAX_BYTES && rows[from - 1] != ""
    ensures IsPage(rows, full, from, to, p) && !p.Notice?
  {
    var last, body := TakeRows(rows, from, to);
    if last < from {
      OneRow(rows, from);
      HeadIsPage(rows, full, from, to);
      return Head(from, Utf8Head(WithoutLast(rows[from - 1]), READ_FILE_MAX_BYTES));
    }
    var next := last + 1;
    return Cut(from, last, body, next, Min(next + (last - from), to));
  }

  // ---------------------------------------------------------------- a page's text

  const READ_FILE_CAP_MARK := "[read-file: output capped"

  /** The path as it stands between single quotes in a suggested call. */
  function QuotePath(path: string): string {
    if path == "" then ""
    else (if path[0] == '\'' then "\\'" else [path[0]]) + QuotePath(path[1..])
  }

  /** `read-file '<path>' 'start=<n>'` */
  function Suggestion(path: string, n: nat): string {
    "read-file '" + QuotePath(path) + "' 'start=" + Decimal(n) + "'"
  }

  /** `read-file '<path>' 'start=<n>' 'end=<m>'` */
  function RangeSuggestion(path: string, n: nat, m: nat): string {
    Suggestion(path, n) + (" 'end=" + Decimal(m) + "'")
  }

  /** What follows the mark in the last line of a page that is cut. */
  function CutNote(path: string, to: nat, next: nat, nextEnd: nat): string {
    " at 48 KB \U{2014} lines " + Decimal(next) + "-" + Decimal(to) + " are not shown; read on with "
    + RangeSuggestion(path, next, nextEnd) + "]"
  }

  /** The same where one line is over the cap. */
  function HeadNote(path: string, line: string, from: nat, to: nat, head: string): string {
    HeadSize(line, from, head) + (SEARCH_INSTEAD + (NextLines(path, from, to) + "]"))
  }

  function HeadSize(line: string, from: nat, head: string): string {
    " at 48 KB \U{2014} line " + Decimal(from) + " is " + Decimal(Utf8Len(line)) + " bytes long and only its first "
    + Decimal(Utf8Len(head))
  }

  const SEARCH_INSTEAD := " are shown; search it " + "with grep or run-pwsh instead"

  function NextLines(path: string, from: nat, to: nat): string {
    if from < to then "; the next lines start with " + Suggestion(path, from + 1) else ""
  }

  /** The page as the model reads it. */
  function PageText(lines: seq<string>, path: string, full: string, to: nat, p: Page): string
    requires p.Head? ==> 1 <= p.from <= |lines|
  {
    match p
    case Cut(from, last, body, next, nextEnd) =>
      RangeHeader(from, last, |lines|) + body + (READ_FILE_CAP_MARK + CutNote(path, to, next, nextEnd))
    case Head(from, head) =>
      LineHeader(from, |lines|) + head + "\n" + (READ_FILE_CAP_MARK + HeadNote(path, lines[from - 1], from, to, head))
    case _ => full
  }

  function LineHeader(from: nat, total: nat): string {
    "[line " + Decimal(from) + " of " + Decimal(total) + "]\n"
  }

  method NumberedPage(lines: seq<string>, start: Option<nat>, end: Option<nat>, path: string)
    returns (p: Page, text: string)
    requires |lines| <= USIZE_MAX && From(start) <= USIZE_MAX
    ensures IsPage(Formatted(lines), RangeText(lines, start, end), From(start), To(end, |lines|), p)
    ensures text == PageText(lines, path, RangeText(lines, start, end), To(end, |lines|), p)
  {
    var full := NumberedRange(lines, start, end);
    var from, to := From(start), To(end, |lines|);
    if Utf8Len(full) <= READ_FILE_MAX_BYTES {
      if from > to { return Notice, full; }
      return Whole(from, to), full;
    }
    if from > to { NothingShownFits(lines, start, end); }
    p := FitRows(Formatted(lines), full, from, to);
    text := PageText(lines, path, full, to, p);
  }

  /** The last line that says how to read on. */
  function ReadOnLine(lines: seq<string>): (r: Option<string>)
    ensures r.Some? ==> r.value in lines && StartsWith(r.value, READ_FILE_CAP_MARK)
    ensures r.None? ==> forall i :: 0 <= i < |lines| ==> !StartsWith(lines[i], READ_FILE_CAP_MARK)
  {
    if lines == [] then None
    else if StartsWith(lines[|lines| - 1], READ_FILE_CAP_MARK) then Some(lines[|lines| - 1])
    else ReadOnLine(lines[..|lines| - 1])
  }

  /** What stands behind the last line break is the last line. */
  lemma {:induction false} LastLine(x: string, y: string) returns (front: seq<string>)
    requires '\n' !in y && y != ""
    ensures Lines(x + "\n" + y) == front + [y]
    decreases |x|
  {
    var s := x + "\n" + y;
    BreakAt(x, y);
    var i := Find(s, "\n").value;
    if i == |x| {
      assert s[i + 1..] == y;
      OnlyLine(y);
      front := [StripCr(s[..i])];
    } else {
      assert s[i + 1..] == x[i + 1..] + "\n" + y;
      front := LastLine(x[i + 1..], y);
      front := [StripCr(s[..i])] + front;
    }
  }

  lemma {:induction false} OnlyLine(y: string)
    requires '\n' !in y && y != ""
    ensures Lines(y) == [y]
  {
    forall k: nat | k <= |y|
      ensures !MatchAt(y, k, "\n")
    {
      assert "\n"[0] == '\n';
    }
    assert !Contains(y, "\n");
  }

  lemma {:induction false} BreakAt(x: string, y: string)
    ensures var f := Find(x + "\n" + y, "\n"); f.Some? && f.value <= |x|
  {
    var s := x + "\n" + y;
    assert MatchAt(s, |x|, "\n") by { assert "\n"[0] == '\n' && s[|x|] == '\n'; }
    assert Contains(s, "\n");
  }

  lemma {:induction false} ReadOnLast(x: string, note: string)
    requires '\n' !in note
    ensures ReadOnLine(Lines(x + "\n" + (READ_FILE_CAP_MARK + note))) == Some(READ_FILE_CAP_MARK + note)
  {
    var y := READ_FILE_CAP_MARK + note;
    assert '\n' !in READ_FILE_CAP_MARK;
    var front := LastLine(x, y);
    var all := front + [y];
    assert all[|all| - 1] == y && MatchAt(y, 0, READ_FILE_CAP_MARK);
  }

  lemma {:induction false} NoBreakInDecimal(n: nat)
    ensures '\n' !in Decimal(n)
  {
    assert !IsDigit('\n');
  }

  lemma {:induction false} NoBreakInQuoted(path: string)
    requires '\n' !in path
    ensures '\n' !in QuotePath(path)
    decreases |path|
  {
    if path != "" {
      assert path[0] in path;
      assert forall c :: c in path[1..] ==> c in path;
      NoBreakInQuoted(path[1..]);
    }
  }

  lemma {:induction false} NoBreakInSuggestion(path: string, n: nat)
    requires '\n' !in path
    ensures '\n' !in Suggestion(path, n)
  {
    NoBreakInQuoted(path);
    NoBreakInDecimal(n);
  }

  lemma {:induction false} NoBreakInCutNote(path: string, to: nat, next: nat, nextEnd: nat)
    requires '\n' !in path
    ensures '\n' !in CutNote(path, to, next, nextEnd)
  {
    NoBreakInSuggestion(path, next);
    NoBreakInDecimal(next);
    NoBreakInDecimal(to);
    NoBreakInDecimal(nextEnd);
  }

  lemma {:induction false} NoBreakInSize(line: string, from: nat, head: string)
    ensures '\n' !in HeadSize(line, from, head)
  {
    NoBreakInDecimal(from);
    NoBreakInDecimal(Utf8Len(line));
    NoBreakInDecimal(Utf8Len(head));
    NoBreakInWords();
  }

  lemma {:induction false} NoBreakInWords()
    ensures '\n' !in " at 48 KB \U{2014} line " && '\n' !in " is " && '\n' !in " bytes long and only its first "
  {}

  lemma {:induction false} NoBreakInNext(path: string, from: nat, to: nat)
    requires '\n' !in path
    ensures '\n' !in NextLines(path, from, to)
  {
    NoBreakInSuggestion(path, from + 1);
  }

  lemma {:induction false} NoBreakInAdvice()
    ensures '\n' !in SEARCH_INSTEAD
  {
    assert '\n' !in " are shown; search it ";
    assert '\n' !in "with grep or run-pwsh instead";
  }

  lemma {:induction false} NoBreakJoined(a: string, b: string, c: string, d: string)
    requires '\n' !in a && '\n' !in b && '\n' !in c && '\n' !in d
    ensures '\n' !in a + (b + (c + d))
  {}

  lemma {:induction false} NoBreakInHeadNote(path: string, line: string, from: nat, to: nat, head: string)
    requires '\n' !in path
    ensures '\n' !in HeadNote(path, line, from, to, head)
  {
    NoBreakInSize(line, from, head);
    NoBreakInNext(path, from, to);
    NoBreakInAdvice();
    assert '\n' !in "]";
    NoBreakJoined(HeadSize(line, from, head), SEARCH_INSTEAD, NextLines(path, from, to), "]");
  }

  lemma {:induction false} RowsEndInBreak(lines: seq<string>, from: nat, to: nat)
    requires 1 <= from <= to <= |lines|
    ensures var r := Rows(Formatted(lines), from, to); r != "" && r == WithoutLast(r) + "\n"
  {
    var rows := Formatted(lines);
    FormattedRow(lines, to);
    var row := rows[to - 1];
    assert row[|row| - 1] == '\n';
    var r := Rows(rows, from, to - 1) + row;
    assert r[|r| - 1] == '\n';
    assert r == r[..|r| - 1] + [r[|r| - 1]];
  }

  /** However a page is capped, its last line names the mark and is found by it; it
      suggests to read the same file from the line after the last one shown, if any is
      left. */
  lemma {:induction false} CappedPageNamesTheWay(
    lines: seq<string>, start: Option<nat>, end: Option<nat>, path: string, p: Page)
    requires IsPage(Formatted(lines), RangeText(lines, start, end), From(start), To(end, |lines|), p)
    requires '\n' !in path && (p.Cut? || p.Head?)
    ensures var to := To(end, |lines|);
            NamesTheWay(PageText(lines, path, RangeText(lines, start, end), to, p), path, to, p)
  {
    var full, to := RangeText(lines, start, end), To(end, |lines|);
    if p.Cut? {
      var text := CutPageNames(lines, path, full, to, p);
    } else {
      var text := HeadPageNames(lines, path, full, to, p);
    }
  }

  /** A page whose last line is found and suggests to read on behind it. */
  ghost predicate NamesTheWay(text: string, path: string, to: nat, p: Page)
    requires p.Cut? || p.Head?
  {
    var closing := ReadOnLine(Lines(text));
    && closing.Some?
    && (LastShown(p) < to ==> Contains(closing.value, Suggestion(path, LastShown(p) + 1)))
    && (p.Cut? ==> Contains(closing.value, RangeSuggestion(path, p.last + 1, p.nextEnd)))
  }

  lemma {:induction false} CutPageNames(lines: seq<string>, path: string, full: string, to: nat, p: Page)
    returns (text: string)
    requires p.Cut? && 1 <= p.from <= p.last <= |lines| && p.body == Rows(Formatted(lines), p.from, p.last)
    requires p.next == p.last + 1 && '\n' !in path
    ensures text == PageText(lines, path, full, to, p) && NamesTheWay(text, path, to, p)
  {
    RowsEndInBreak(lines, p.from, p.last);
    var header := RangeHeader(p.from, p.last, |lines|);
    text := header + p.body + (READ_FILE_CAP_MARK + CutNote(path, to, p.next, p.nextEnd));
    CutNamesTheWay(header, p.body, path, to, p.next, p.nextEnd);
  }

  lemma {:induction false} HeadPageNames(lines: seq<string>, path: string, full: string, to: nat, p: Page)
    returns (text: string)
    requires p.Head? && 1 <= p.from <= |lines| && '\n' !in path
    ensures text == PageText(lines, path, full, to, p) && NamesTheWay(text, path, to, p)
  {
    text := PageText(lines, path, full, to, p);
    HeadTextNames(LineHeader(p.from, |lines|), path, lines[p.from - 1], to, p);
  }

  lemma {:induction false} HeadTextNames(header: string, path: string, line: string, to: nat, p: Page)
    requires p.Head? && '\n' !in path
    ensures var last := READ_FILE_CAP_MARK + HeadNote(path, line, p.from, to, p.head);
            NamesTheWay(header + p.head + "\n" + last, path, to, p)
  {
    var last := HeadClosing(header, path, line, p.from, to, p.head);
    ClosingNames(header + p.head + "\n" + last, last, path, to, p);
  }

  lemma {:induction false} ClosingNames(text: string, closing: string, path: string, to: nat, p: Page)
    requires p.Head? && ReadOnLine(Lines(text)) == Some(closing)
    requires p.from < to ==> Contains(closing, Suggestion(path, p.from + 1))
    ensures NamesTheWay(text, path, to, p)
  {}

  lemma {:induction false} CutNamesTheWay(
    header: string, body: string, path: string, to: nat, next: nat, nextEnd: nat)
    requires body == WithoutLast(body) + "\n" && '\n' !in path
    ensures var line := READ_FILE_CAP_MARK + CutNote(path, to, next, nextEnd);
            && ReadOnLine(Lines(header + body + line)) == Some(line)
            && Contains(line, RangeSuggestion(path, next, nextEnd)) && Contains(line, Suggestion(path, next))
  {
    var note := CutNote(path, to, next, nextEnd);
    NoBreakInCutNote(path, to, next, nextEnd);
    CutReadsOn(header, body, note);
    CutNoteSuggests(path, to, next, nextEnd);
    BehindMark(note, RangeSuggestion(path, next, nextEnd));
    BehindMark(note, Suggestion(path, next));
  }

  lemma {:induction false} HeadClosing(
    header: string, path: string, line: string, from: nat, to: nat, head: string) returns (last: string)
    requires '\n' !in path
    ensures last == READ_FILE_CAP_MARK + HeadNote(path, line, from, to, head)
    ensures ReadOnLine(Lines(header + head + "\n" + last)) == Some(last)
    ensures from < to ==> Contains(last, Suggestion(path, from + 1))
  {
    var note := HeadNote(path, line, from, to, head);
    last := READ_FILE_CAP_MARK + note;
    NoBreakInHeadNote(path, line, from, to, head);
    ReadOnLast(header + head, note);
    if from < to {
      HeadNoteSuggests(path, line, from, to, head);
      BehindMark(note, Suggestion(path, from + 1));
    }
  }

  lemma {:induction false} Within(a: string, p: string, b: string)
    ensures Contains(a + (p + b), p)
  {
    assert MatchAt(a + (p + b), |a|, p);
  }

  lemma {:induction false} BehindMark(note: string, p: string)
    requires Contains(note, p)
    ensures Contains(READ_FILE_CAP_MARK + note, p)
  {
    var i: nat :| i <= |note| && MatchAt(note, i, p);
    assert MatchAt(READ_FILE_CAP_MARK + note, |READ_FILE_CAP_MARK| + i, p);
  }

  lemma {:induction false} CutNoteSuggests(path: string, to: nat, next: nat, nextEnd: nat)
    ensures Contains(CutNote(path, to, next, nextEnd), RangeSuggestion(path, next, nextEnd))
    ensures Contains(CutNote(path, to, next, nextEnd), Suggestion(path, next))
  {
    var front := " at 48 KB \U{2014} lines " + Decimal(next) + "-" + Decimal(to) + " are not shown; read on with ";
    Between(front, RangeSuggestion(path, next, nextEnd), "]");
    Between(front, Suggestion(path, next), (" 'end=" + Decimal(nextEnd) + "'") + "]");
    Regroup(front, Suggestion(path, next), " 'end=" + Decimal(nextEnd) + "'", "]");
  }

  lemma {:induction false} Between(a: string, p: string, b: string)
    ensures Contains(a + p + b, p)
  {
    assert MatchAt(a + p + b, |a|, p);
  }

  lemma {:induction false} Regroup(a: string, b: string, c: string, d: string)
    ensures a + (b + c) + d == a + b + (c + d)
  {}

  lemma {:induction false} HeadNoteSuggests(path: string, line: string, from: nat, to: nat, head: string)
    requires from < to
    ensures Contains(HeadNote(path, line, from, to, head), Suggestion(path, from + 1))
  {
    var s := Suggestion(path, from + 1);
    Within("; the next lines start with ", s, "]");
    assert NextLines(path, from, to) + "]" == "; the next lines start with " + (s + "]");
    Prepended(SEARCH_INSTEAD, NextLines(path, from, to) + "]", s);
    Prepended(HeadSize(line, from, head), SEARCH_INSTEAD + (NextLines(path, from, to) + "]"), s);
  }

  lemma {:induction false} Prepended(a: string, b: string, p: string)
    requires Contains(b, p)
    ensures Contains(a + b, p)
  {
    var i: nat :| i <= |b| && MatchAt(b, i, p);
    assert MatchAt(a + b, |a| + i, p);
  }

  lemma {:induction false} CutReadsOn(header: string, body: string, note: string)
    requires body == WithoutLast(body) + "\n" && '\n' !in note
    ensures ReadOnLine(Lines(header + body + (READ_FILE_CAP_MARK + note))) == Some(READ_FILE_CAP_MARK + note)
  {
    ReadOnLast(header + WithoutLast(body), note);
    BodyMoved(header, body, READ_FILE_CAP_MARK + note);
  }

  lemma {:induction false} BodyMoved(header: string, body: string, line: string)
    requires body == WithoutLast(body) + "\n"
    ensures header + body + line == (header + WithoutLast(body)) + "\n" + line
  {}

  /** A page that is cut although all its rows fit: exactly when the rows alone are
      within the cap and the range header pushes the text over it. */
  lemma {:induction false} CutWithNothingLeft(rows: seq<string>, full: string, from: nat, to: nat, p: Page)
    requires 1 <= from <= to <= |rows| && IsPage(rows, full, from, to, p)
    ensures p.Cut? && p.last == to <==> Utf8Len(Rows(rows, from, to)) <= READ_FILE_MAX_BYTES < Utf8Len(full)
  {
    if p.Cut? {
      CutFits(rows, from, to, p.last);
    } else if p.Head? {
      HeadIsTooLong(rows, from, to);
    }
  }

  lemma {:induction false} CutFits(rows: seq<string>, from: nat, to: nat, last: nat)
    requires 1 <= from <= last <= to <= |rows| && Utf8Len(Rows(rows, from, last)) <= READ_FILE_MAX_BYTES
    requires last < to ==> Utf8Len(Rows(rows, from, last + 1)) > READ_FILE_MAX_BYTES
    ensures last == to <==> Utf8Len(Rows(rows, from, to)) <= READ_FILE_MAX_BYTES
  {
    if last < to { TooLongStays(rows, from, last + 1, to); }
  }

  lemma {:induction false} HeadIsTooLong(rows: seq<string>, from: nat, to: nat)
    requires 1 <= from <= to <= |rows| && Utf8Len(rows[from - 1]) > READ_FILE_MAX_BYTES
    ensures Utf8Len(Rows(rows, from, to)) > READ_FILE_MAX_BYTES
  {
    OneRow(rows, from);
    TooLongStays(rows, from, from, to);
  }

  lemma {:induction false} TooLongStays(rows: seq<string>, from: nat, a: nat, b: nat)
    requires 1 <= from <= a <= b <= |rows|
    ensures Utf8Len(Rows(rows, from, a)) > READ_FILE_MAX_BYTES ==> Utf8Len(Rows(rows, from, b)) > READ_FILE_MAX_BYTES
  {
    RowsGrow(rows, from, a, b);
  }

  /** A request is respected: a page starts at the line asked for, goes no further than
      the end asked for or the file, and all the way where it is not cut; and there is
      nothing to show exactly if the start is behind the end or the file. */
  lemma {:induction false} RequestIsRespected(lines: seq<string>, start: Option<nat>, end: Option<nat>, p: Page)
    requires start.Some? ==> start.value >= 1
    requires IsPage(Formatted(lines), RangeText(lines, start, end), From(start), To(end, |lines|), p)
    ensures var first := match start case Some(s) => s case None => 1;
            && (p.Notice? <==> first > |lines| || (end.Some? && first > end.value))
            && (!p.Notice? ==> p.from == first && LastShown(p) <= |lines| && (end.Some? ==> LastShown(p) <= end.value))
            && (p.Whole? ==> LastShown(p) == |lines| || (end.Some? && LastShown(p) == end.value))
  {}

  lemma {:induction false} SpacesAre(n: nat)
    ensures |Spaces(n)| == n && forall i :: 0 <= i < n ==> Spaces(n)[i] == ' '
    decreases n
  {
    if n > 0 { SpacesAre(n - 1); }
  }

  /** A padded number is at least five wide, and blank but for its digits. */
  lemma {:induction false} PaddedIs(n: nat)
    ensures |Padded(n)| >= 5 && '\t' !in Padded(n) && TrimStart(Padded(n)) == Decimal(n)
  {
    var d := Decimal(n);
    NoTabInDecimal(n);
    assert !IsSpace(d[0]) by { assert IsDigit(d[0]); }
    assert TextStart(d, 0) == 0;
    if |d| < 5 {
      SpacesAre(5 - |d|);
      TrimStartPrefix(Spaces(5 - |d|), d);
    }
  }

  lemma {:induction false} NoTabInDecimal(n: nat)
    ensures '\t' !in Decimal(n)
  {
    assert !IsDigit('\t');
  }

  lemma {:induction false} FirstTab(x: string, y: string, x': string, y': string)
    requires '\t' !in x && '\t' !in x' && x + "\t" + y == x' + "\t" + y'
    ensures x == x' && y == y'
  {
    var s, s' := x + "\t" + y, x' + "\t" + y';
    assert s[|x|] == '\t' && s'[|x'|] == '\t';
    assert forall k :: 0 <= k < |x| ==> s[k] == x[k];
    assert forall k :: 0 <= k < |x'| ==> s'[k] == x'[k];
    assert s[..|x|] == x && s'[..|x'|] == x';
    assert s[|x| + 1..] == y && s'[|x'| + 1..] == y';
  }

  /** A row tells its line: its number and its text. */
  lemma {:induction false} RowTells(m: nat, a: string, n: nat, b: string)
    requires Row(m, a) == Row(n, b)
    ensures m == n && a == b
  {
    PaddedIs(m);
    PaddedIs(n);
    var r := Row(m, a);
    assert r[..|r| - 1] == RowHead(m, a) && r[..|r| - 1] == RowHead(n, b);
    FirstTab(Padded(m), a, Padded(n), b);
    DecimalInjective(m, n);
  }

  /** One ASCII line that fills the cap to the last byte under its number. */
  predicate JustFits(line: string) {
    |line| == 49145 && forall i :: 0 <= i < |line| ==> line[i] < '\U{0080}'
  }

  lemma {:induction false} JustFitsRow(line: string)
    requires JustFits(line)
    ensures Utf8Len(Row(1, line)) == READ_FILE_MAX_BYTES && |Row(1, line)| == READ_FILE_MAX_BYTES
  {
    var row := Row(1, line);
    assert Decimal(1) == "1";
    FourSpaces();
    assert Padded(1) == Spaces(4) + "1";
    assert |row| == READ_FILE_MAX_BYTES;
    Utf8Ascii(row);
  }

  lemma {:induction false} FourSpaces()
    ensures Spaces(4) == "    "
  {
    assert Spaces(1) == " ";
    assert Spaces(2) == "  ";
    assert Spaces(3) == "   ";
  }

  lemma {:induction false} HeaderOfOne()
    ensures Utf8Len(Opening(Some(1), None, 1)) > 1
  {
    assert Decimal(1) == "1";
    var s := RangeHeader(1, 1, 1);
    Utf8Ascii(s);
  }

  /** It does happen: a file of one such line, read with `start = 1`, comes back cut,
      with nothing left to read. */
  lemma {:induction false} OneLineCut(line: string, p: Page)
    requires JustFits(line)
    requires IsPage(Formatted([line]), RangeText([line], Some(1), None), 1, 1, p)
    ensures p.Cut? && p.last == 1
  {
    var lines := [line];
    var rows, opening := Formatted(lines), Opening(Some(1), None, 1);
    FormattedRow(lines, 1);
    OneRow(rows, 1);
    JustFitsRow(line);
    var row := Row(1, line);
    assert RangeText(lines, Some(1), None) == WithoutLast(opening + row);
    HeaderOfOne();
    LongerThanRow(opening, row);
    CutWithNothingLeft(rows, WithoutLast(opening + row), 1, 1, p);
  }

  lemma {:induction false} LongerThanRow(opening: string, row: string)
    requires Utf8Len(opening) > 1 && row != "" && row[|row| - 1] == '\n'
    ensures Utf8Len(WithoutLast(opening + row)) > Utf8Len(row)
  {
    var front, last := WithoutLast(row), row[|row| - 1..];
    assert WithoutLast(opening + row) == opening + front;
    Utf8Concat(opening, front);
    assert row == front + last && last == "\n";
    Utf8Ascii(last);
    Utf8Concat(front, last);
  }

  lemma {:induction false} OneRow(rows: seq<string>, from: nat)
    requires 1 <= from <= |rows|
    ensures Rows(rows, from, from) == rows[from - 1]
  {}

  lemma {:induction false} RowsGrow(rows: seq<string>, from: nat, a: nat, b: nat)
    requires 1 <= from <= a <= b <= |rows|
    ensures Utf8Len(Rows(rows, from, a)) <= Utf8Len(Rows(rows, from, b))
    decreases b
  {
    if a < b {
      RowsGrow(rows, from, a, b - 1);
      Utf8Concat(Rows(rows, from, b - 1), rows[b - 1]);
    }
  }

  // ------------------------------------------------------------------- reading on

  /** `from`, `from + 1`, up to `to`. */
  function Count(from: nat, to: nat): (r: seq<nat>)
    ensures from <= to + 1 ==> |r| == to + 1 - from && forall i :: 0 <= i < |r| ==> r[i] == from + i
    decreases (to)
  {
    if to < from then [] else if to == 0 then [0] else Count(from, to - 1) + [to]
  }

  /** The line numbers a page shows. */
  function Shown(p: Page): seq<nat>
    requires !p.Notice?
  {
    Count(p.from, LastShown(p))
  }

  /** What a page shows is the rows of its lines, as whole rows within the cap or,
      for one line longer than the cap, as the head of its row. */
  ghost predicate Fits(rows: seq<string>, p: Page) {
    match p
    case Notice => true
    case Whole(from, last) => 1 <= from <= last <= |rows|
        && Utf8Len(WithoutLast(Rows(rows, from, last))) <= READ_FILE_MAX_BYTES
    case Cut(from, last, body, _, _) =>
      1 <= from <= last <= |rows| && body == Rows(rows, from, last) && Utf8Len(body) <= READ_FILE_MAX_BYTES
    case Head(from, head) =>
      1 <= from <= |rows| && Utf8Len(rows[from - 1]) > READ_FILE_MAX_BYTES && head <= rows[from - 1]
          && Utf8Len(head) <= READ_FILE_MAX_BYTES
  }

  lemma {:induction false} WholeFits(opening: string, r: string, cap: nat)
    requires r != "" && Utf8Len(WithoutLast(opening + r)) <= cap
    ensures Utf8Len(WithoutLast(r)) <= cap
  {
    assert WithoutLast(opening + r) == opening + WithoutLast(r);
    Utf8Concat(opening, WithoutLast(r));
  }

  lemma {:induction false} RowsSome(rows: seq<string>, from: nat, to: nat)
    requires 1 <= from <= to <= |rows| && rows[to - 1] != ""
    ensures Rows(rows, from, to) != ""
  {}

  /** Each page starts where the one before it stopped, the first at line 1. */
  ghost predicate InARow(pages: seq<Page>) {
    pages == [] ||
    (var p, front := pages[|pages| - 1], pages[..|pages| - 1];
     && InARow(front)
     && !p.Notice? && p.from <= LastShown(p) && p.from == Reached(front) + 1)
  }

  /** The last line shown so far. */
  ghost function Reached(pages: seq<Page>): nat {
    if pages == [] || pages[|pages| - 1].Notice? then 0 else LastShown(pages[|pages| - 1])
  }

  ghost predicate AllFit(rows: seq<string>, pages: seq<Page>) {
    pages == [] || (AllFit(rows, pages[..|pages| - 1]) && Fits(rows, pages[|pages| - 1]))
  }

  /** The pages read so far show every line before `next` once. */
  ghost predicate Progress(rows: seq<string>, pages: seq<Page>, shown: seq<nat>, next: nat) {
    next >= 1 && shown == Count(1, next - 1) && InARow(pages) && AllFit(rows, pages) && next == Reached(pages) + 1
  }

  lemma {:induction false} PageAdvances(rows: seq<string>, pages: seq<Page>, shown: seq<nat>, next: nat, p: Page)
    requires Progress(rows, pages, shown, next)
    requires Fits(rows, p) && !p.Notice? && p.from == next <= LastShown(p)
    ensures Progress(rows, pages + [p], shown + Shown(p), LastShown(p) + 1)
  {}

  /** Starting at line 1 and reading on from behind the last line shown, with ends
      chosen by `plan` as the reader likes (for instance as the page suggests),
      ends, and shows every line of the file exactly once and in order, each page
      within the cap. */
  method ReadOn(lines: seq<string>, path: string, plan: nat -> nat) returns (pages: seq<Page>, shown: seq<nat>)
    requires |lines| < USIZE_MAX
    ensures shown == Count(1, |lines|)
    ensures InARow(pages) && AllFit(Formatted(lines), pages)
    ensures Reached(pages) == |lines|
  {
    pages, shown := [], [];
    var next := 1;
    ghost var rows := Formatted(lines);
    while next <= |lines|
      invariant 1 <= next <= |lines| + 1
      invariant Progress(rows, pages, shown, next)
      decreases |lines| + 1 - next
    {
      var page := ReadPage(lines, path, next, plan(next));
      PageAdvances(rows, pages, shown, next, page);
      shown := shown + Shown(page);
      pages := pages + [page];
      next := LastShown(page) + 1;
    }
  }

  /** One call of the reader: it always shows at least the line it starts at. */
  method ReadPage(lines: seq<string>, path: string, next: nat, planned: nat) returns (page: Page)
    requires 1 <= next <= |lines| < USIZE_MAX
    ensures Fits(Formatted(lines), page) && !page.Notice? && page.from == next <= LastShown(page) <= |lines|
  {
    var start := if next == 1 then None else Some(next);
    var end := if planned >= next then Some(planned) else None;
    var text: string;
    page, text := NumberedPage(lines, start, end, path);
    RangePageFits(lines, start, end, page);
  }

  lemma {:induction false} RangePageFits(lines: seq<string>, start: Option<nat>, end: Option<nat>, p: Page)
    requires From(start) <= To(end, |lines|)
    requires IsPage(Formatted(lines), RangeText(lines, start, end), From(start), To(end, |lines|), p)
    ensures Fits(Formatted(lines), p) && !p.Notice? && p.from == From(start) <= LastShown(p) <= |lines|
  {
    PageFits(Formatted(lines), Opening(start, end, |lines|), From(start), To(end, |lines|), p);
  }

  lemma {:induction false} PageFits(rows: seq<string>, opening: string, from: nat, to: nat, p: Page)
    requires 1 <= from <= to <= |rows| && rows[to - 1] != ""
    requires IsPage(rows, WithoutLast(opening + Rows(rows, from, to)), from, to, p)
    ensures Fits(rows, p)
  {
    if p.Whole? {
      RowsSome(rows, from, to);
      WholeFits(opening, Rows(rows, from, to), READ_FILE_MAX_BYTES);
    }
  }
}
