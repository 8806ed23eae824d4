/** The truncation test of PRState (lio/prstate.go:42-102): the kernel renders registrations into
    one page and stops, with no marker, before a line that would not fit. */
module PrState {

  /** prMaxRegLine: the kernel's buffer for one line, its terminator included. */
  const MAX_REG_LINE := 384

  const HEADER := "SPC-3 PR Registrations:\n"

  /** A rendered line fits the kernel's buffer, with room for the terminator, and ends itself. */
  predicate IsLine(l: string) { 0 < |l| < MAX_REG_LINE && l[|l| - 1] == '\n' }

  ghost predicate AllLines(lines: seq<string>) { forall l | l in lines :: IsLine(l) }

  function Concat(lines: seq<string>): string {
    if lines == [] then "" else Concat(lines[..|lines| - 1]) + lines[|lines| - 1]
  }

  /** How many of the lines the loop prints: it breaks before the first that would not fit. */
  function Printed(lines: seq<string>, len: nat, page: nat): (n: nat)
    ensures n <= |lines|
  {
    if lines == [] || len + |lines[0]| >= page then 0
    else 1 + Printed(lines[1..], len + |lines[0]|, page)
  }

  /** The show handler's loop. */
  method Render(lines: seq<string>, page: nat) returns (text: string, n: nat)
    ensures n == Printed(lines, |HEADER|, page)
    ensures text == HEADER + (if n == 0 then "None\n" else Concat(lines[..n]))
    ensures n < |lines| ==> |HEADER + Concat(lines[..n])| + |lines[n]| >= page
  {
    text, n := HEADER, 0;
    while n < |lines| && |text| + |lines[n]| < page
      invariant n <= |lines| && text == HEADER + Concat(lines[..n])
      invariant Printed(lines, |HEADER|, page) == n + Printed(lines[n..], |text|, page)
    {
      assert lines[..n + 1][..n] == lines[..n];
      assert lines[n..][1..] == lines[n + 1..];
      text, n := text + lines[n], n + 1;
    }
    if n == 0 {
      text := text + "None\n";
    }
  }

  /** ReadAttr (lio/configfs/configfs.go:271-281): one trailing newline is dropped. */
  function TrimNewline(s: string): string {
    if s != "" && s[|s| - 1] == '\n' then s[..|s| - 1] else s
  }

  /** st.Truncated (lio/prstate.go:102). */
  predicate Truncated(unparsed: nat, regs: string, page: int) {
    unparsed > 0 || |regs| >= page - MAX_REG_LINE
  }

  /** If the loop stopped before the last line, PRState says so, for every list and page size. */
  lemma StopIsSeen(lines: seq<string>, page: nat, n: nat, text: string, unparsed: nat)
    requires AllLines(lines) && n < |lines| && |HEADER + Concat(lines[..n])| + |lines[n]| >= page
    requires text == HEADER + (if n == 0 then "None\n" else Concat(lines[..n]))
    ensures Truncated(unparsed, TrimNewline(text), page)
  {
    assert lines[n] in lines;
    assert n == 0 ==> Concat(lines[..n]) == "";
  }

  /** PRState as a whole: what it reads of a list, and whether it calls the list cut. */
  method ReadRegistrations(lines: seq<string>, page: nat, unparsed: nat) returns (regs: string, cut: bool)
    requires AllLines(lines)
    ensures !cut ==> unparsed == 0 && Printed(lines, |HEADER|, page) == |lines|
    ensures !cut && lines != [] ==> regs == TrimNewline(HEADER + Concat(lines))
  {
    var text, n := Render(lines, page);
    regs := TrimNewline(text);
    cut := Truncated(unparsed, regs, page);
    if n < |lines| {
      StopIsSeen(lines, page, n, text, unparsed);
    } else {
      assert lines[..n] == lines;
    }
  }

  // ----- the margin is tight -----

  function Repeat(c: char, n: nat): string { if n == 0 then "" else [c] + Repeat(c, n - 1) }

  lemma {:induction false} RepeatLength(c: char, n: nat)
    ensures |Repeat(c, n)| == n
  {
    if n > 0 {
      RepeatLength(c, n - 1);
    }
  }

  function LineOf(n: nat): string
    requires n > 0
  {
    Repeat('x', n - 1) + "\n"
  }

  /** Lines of n bytes in all. */
  function Filler(n: nat): seq<string> {
    if n == 0 then [] else if n < MAX_REG_LINE then [LineOf(n)] else [LineOf(MAX_REG_LINE - 1)] + Filler(n - (MAX_REG_LINE - 1))
  }

  lemma {:induction false} FillerFits(n: nat, len: nat, page: nat, last: string)
    requires len + n < page && len + n + |last| >= page && IsLine(last)
    ensures AllLines(Filler(n) + [last]) && Printed(Filler(n) + [last], len, page) == |Filler(n)|
    ensures |Concat(Filler(n))| == n
  {
    if n > 0 {
      var k := if n < MAX_REG_LINE then n else MAX_REG_LINE - 1;
      RepeatLength('x', k - 1);
      FillerFits(n - k, len + k, page, last);
      assert Filler(n) == [LineOf(k)] + Filler(n - k);
      assert (Filler(n) + [last])[1..] == Filler(n - k) + [last];
      ConcatFront(LineOf(k), Filler(n - k));
    }
  }

  lemma {:induction false} ConcatFront(l: string, rest: seq<string>)
    ensures Concat([l] + rest) == l + Concat(rest)
  {
    if rest == [] {
      assert [l] + rest == [l];
    } else {
      var all := [l] + rest;
      assert all[..|all| - 1] == [l] + rest[..|rest| - 1];
      ConcatFront(l, rest[..|rest| - 1]);
    }
  }

  /** For every page size some list is cut with exactly the margin left: any smaller margin
      would have called it complete. */
  lemma MarginIsTight(page: nat) returns (lines: seq<string>)
    requires page >= |HEADER| + MAX_REG_LINE
    ensures AllLines(lines) && Printed(lines, |HEADER|, page) == |lines| - 1
    ensures |TrimNewline(HEADER + Concat(lines[..|lines| - 1]))| == page - MAX_REG_LINE
  {
    lines := CutBy(page, MAX_REG_LINE - 1);
  }

  /** A list cut by a line of k bytes, with k bytes left in the page. */
  lemma CutBy(page: nat, k: nat) returns (lines: seq<string>)
    requires 0 < k < MAX_REG_LINE && page > |HEADER| + k
    ensures AllLines(lines) && Printed(lines, |HEADER|, page) == |lines| - 1
    ensures |TrimNewline(HEADER + Concat(lines[..|lines| - 1]))| == page - k - 1
  {
    var n := page - k - |HEADER|;
    RepeatLength('x', k - 1);
    FillerFits(n, |HEADER|, page, LineOf(k));
    lines := Filler(n) + [LineOf(k)];
    assert lines[..|lines| - 1] == Filler(n);
    FillerEnds(n);
  }

  lemma {:induction false} FillerEnds(n: nat)
    requires n > 0
    ensures Concat(Filler(n)) != "" && Concat(Filler(n))[|Concat(Filler(n))| - 1] == '\n'
  {
    if n >= MAX_REG_LINE {
      var rest := Filler(n - (MAX_REG_LINE - 1));
      FillerEnds(n - (MAX_REG_LINE - 1));
      ConcatFront(LineOf(MAX_REG_LINE - 1), rest);
    } else {
      assert Filler(n) == [LineOf(n)];
      assert Concat([LineOf(n)]) == LineOf(n);
    }
  }
}
