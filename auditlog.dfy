/** The audit log `/watering.log` and `appendLog`'s retention policy: after
    every append only the 25 most recent lines are kept.

    Two levels are modelled. The controller keeps the log as a sequence of
    lines (`AppendLog`). Below it, the file text is modelled to show what the
    code as written does to that text: `println` ends each line with "\r\n",
    `readStringUntil('\n')` gives the line back with its '\r', and the
    rewrite prints it with `println` again, so every trim adds one '\r' to
    every line it keeps (`AppendAsWritten`). `AppendFixed` writes the lines
    back with "\n" and keeps the file equal to the rendering of the
    line-level log. */
module AuditLog {

  const MaxLines: nat := 25

  /** The most recent `MaxLines` lines, oldest first. */
  function KeepRecent(lines: seq<string>): (r: seq<string>)
    ensures |r| == if |lines| > MaxLines then MaxLines else |lines|
    ensures lines == lines[..|lines| - |r|] + r
  {
    if |lines| > MaxLines then lines[|lines| - MaxLines..] else lines
  }

  /** The log after `appendLog(entry)`: the entry is the newest line, at most
      `MaxLines` lines remain, they are the most recent ones in their
      original order, and nothing is dropped while the log still has room. */
  function AppendLog(log: seq<string>, entry: string): (r: seq<string>)
    ensures 1 <= |r| <= MaxLines && |r| <= |log| + 1 && r[|r| - 1] == entry
    ensures log + [entry] == (log + [entry])[..|log| + 1 - |r|] + r
    ensures |log| < MaxLines ==> r == log + [entry]
    ensures |log| >= MaxLines ==> |r| == MaxLines && r == log[|log| + 1 - MaxLines..] + [entry]
  {
    KeepRecent(log + [entry])
  }

  /** The rewriting loop of `appendLog`: print lines[size - 25 .. size). */
  method TrimLines(lines: seq<string>) returns (kept: seq<string>)
    ensures kept == KeepRecent(lines)
  {
    if |lines| <= MaxLines {
      return lines;
    }
    kept := [];
    var i := |lines| - MaxLines;
    while i < |lines|
      invariant |lines| - MaxLines <= i <= |lines|
      invariant kept == lines[|lines| - MaxLines..i]
    {
      kept := kept + [lines[i]];
      i := i + 1;
    }
  }

  // ---------------------------------------------------------------------
  // The file text.

  predicate NoNewline(s: string) {
    forall k :: 0 <= k < |s| ==> s[k] != '\n'
  }

  predicate NoNewlines(lines: seq<string>) {
    forall i :: 0 <= i < |lines| ==> NoNewline(lines[i])
  }

  /** `println(s)`. */
  function Println(s: string): string {
    s + "\r\n"
  }

  /** The text a sequence of `println` calls writes: at least the two
      characters of "\r\n" per line, so some text for any line at all. */
  function Render(lines: seq<string>): (r: string)
    ensures |r| >= 2 * |lines|
  {
    if lines == [] then [] else Println(lines[0]) + Render(lines[1..])
  }

  /** The text written by printing each line followed by a bare "\n". */
  function Joined(lines: seq<string>): string {
    if lines == [] then [] else lines[0] + "\n" + Joined(lines[1..])
  }

  /** Each line with a '\r' appended. */
  function WithCR(lines: seq<string>): (r: seq<string>)
    ensures |r| == |lines|
    ensures forall i :: 0 <= i < |lines| ==> r[i] == lines[i] + "\r"
  {
    seq(|lines|, i requires 0 <= i < |lines| => lines[i] + "\r")
  }

  /** Index of the first '\n', or the length when there is none. */
  function NewlineIndex(s: string): (r: nat)
    ensures r <= |s| && (r == |s| || s[r] == '\n')
    ensures forall k :: 0 <= k < r ==> s[k] != '\n'
  {
    if s == [] || s[0] == '\n' then 0 else 1 + NewlineIndex(s[1..])
  }

  /** The lines `while (available()) push_back(readStringUntil('\n'))`
      collects: each up to, not including, the next '\n'. */
  function ReadLines(text: string): (r: seq<string>)
    ensures text == [] <==> r == []
    decreases |text|
  {
    if text == [] then []
    else
      var i := NewlineIndex(text);
      if i == |text| then [text] else [text[..i]] + ReadLines(text[i + 1..])
  }

  lemma NewlineIndexAt(s: string, j: nat)
    requires j <= |s| && (j == |s| || s[j] == '\n')
    requires forall k :: 0 <= k < j ==> s[k] != '\n'
    ensures NewlineIndex(s) == j
  {
  }

  /** One pass of the reading loop: the line from `start` to the next '\n'
      at `pos` (or to the end), then the lines after that '\n'. */
  lemma ReadLinesFrom(text: string, start: nat, pos: nat, after: nat)
    requires start < |text| && start <= pos <= |text|
    requires pos == |text| || text[pos] == '\n'
    requires forall k :: start <= k < pos ==> text[k] != '\n'
    requires after == if pos < |text| then pos + 1 else pos
    ensures ReadLines(text[start..]) == [text[start..pos]] + ReadLines(text[after..])
  {
    var rest := text[start..];
    NewlineIndexAt(rest, pos - start);
    assert rest[..pos - start] == text[start..pos];
    if pos < |text| {
      assert rest[pos - start + 1..] == text[pos + 1..];
    } else {
      assert text[start..pos] == rest;
      assert text[after..] == [];
    }
  }

  /** Moving the first of the remaining lines to the collected ones. */
  lemma MoveLine(lines: seq<string>, remaining: seq<string>, line: string, rest: seq<string>)
    requires remaining == [line] + rest
    ensures lines + remaining == (lines + [line]) + rest
  {
  }

  /** The reading loop of `appendLog`, over the file text. */
  method ReadAllLines(text: string) returns (lines: seq<string>)
    ensures lines == ReadLines(text)
  {
    lines := [];
    var pos := 0;
    while pos < |text|
      invariant 0 <= pos <= |text|
      invariant lines + ReadLines(text[pos..]) == ReadLines(text)
      decreases |text| - pos
    {
      var start := pos;
      while pos < |text| && text[pos] != '\n'
        invariant start <= pos <= |text|
        invariant forall k :: start <= k < pos ==> text[k] != '\n'
      {
        pos := pos + 1;
      }
      var after := if pos < |text| then pos + 1 else pos;
      ReadLinesFrom(text, start, pos, after);
      MoveLine(lines, ReadLines(text[start..]), text[start..pos], ReadLines(text[after..]));
      lines := lines + [text[start..pos]];
      pos := after;
    }
  }

  lemma {:induction false} RenderAppend(a: seq<string>, b: seq<string>)
    ensures Render(a + b) == Render(a) + Render(b)
  {
    if a == [] {
      assert a + b == b;
    } else {
      assert (a + b)[0] == a[0] && (a + b)[1..] == a[1..] + b;
      RenderAppend(a[1..], b);
      assert Render(a + b) == Println(a[0]) + (Render(a[1..]) + Render(b));
    }
  }

  /** Reading back what `println` wrote gives every line with its '\r'. */
  lemma {:induction false} ReadRender(lines: seq<string>)
    requires NoNewlines(lines)
    ensures ReadLines(Render(lines)) == WithCR(lines)
  {
    if lines != [] {
      var l := lines[0];
      var text := Render(lines);
      assert text == (l + "\r") + ("\n" + Render(lines[1..]));
      assert text[..|l| + 1] == l + "\r";
      NewlineIndexAt(text, |l| + 1);
      assert text[|l| + 2..] == Render(lines[1..]);
      assert NoNewlines(lines[1..]);
      ReadRender(lines[1..]);
      assert WithCR(lines) == [l + "\r"] + WithCR(lines[1..]);
    }
  }

  lemma {:induction false} JoinedWithCR(lines: seq<string>)
    ensures Joined(WithCR(lines)) == Render(lines)
  {
    if lines != [] {
      assert WithCR(lines)[1..] == WithCR(lines[1..]);
      JoinedWithCR(lines[1..]);
    }
  }

  lemma {:induction false} RenderWithCRLength(lines: seq<string>)
    ensures |Render(WithCR(lines))| == |Render(lines)| + |lines|
  {
    if lines != [] {
      assert WithCR(lines)[1..] == WithCR(lines[1..]);
      RenderWithCRLength(lines[1..]);
    }
  }

  /** `appendLog` on the file text, as written: the entry is printed, and
      only when the text then reads back as more than `MaxLines` lines is
      the file rewritten from its last `MaxLines` lines. */
  function AppendAsWritten(text: string, entry: string): (r: string)
    ensures |ReadLines(text + Println(entry))| <= MaxLines ==> r == text + Println(entry)
  {
    var appended := text + Println(entry);
    var lines := ReadLines(appended);
    if |lines| > MaxLines then Render(lines[|lines| - MaxLines..]) else appended
  }

  /** Past `MaxLines` lines, the file is rewritten from the last of them. */
  lemma AppendAsWrittenTrims(text: string, entry: string)
    requires |ReadLines(text + Println(entry))| > MaxLines
    ensures var lines := ReadLines(text + Println(entry));
      AppendAsWritten(text, entry) == Render(lines[|lines| - MaxLines..])
  {
  }

  /** `appendLog` with the kept lines written back with "\n", so that the
      '\r' read back with each line is not doubled. */
  function AppendFixed(text: string, entry: string): string {
    var appended := text + Println(entry);
    var lines := ReadLines(appended);
    if |lines| > MaxLines then Joined(lines[|lines| - MaxLines..]) else appended
  }

  /** The text `appendLog` reads back after appending is the rendered log
      plus the entry, each line with its '\r'. */
  lemma ReadAppended(log: seq<string>, entry: string)
    requires NoNewlines(log) && NoNewline(entry)
    ensures Render(log) + Println(entry) == Render(log + [entry])
    ensures ReadLines(Render(log) + Println(entry)) == WithCR(log + [entry])
  {
    RenderAppend(log, [entry]);
    assert Render([entry]) == Println(entry) + Render([]);
    assert NoNewlines(log + [entry]);
    ReadRender(log + [entry]);
  }

  /** Trimming commutes with adding the '\r's. */
  lemma KeepRecentWithCR(lines: seq<string>)
    requires |lines| > MaxLines
    ensures WithCR(lines)[|lines| - MaxLines..] == WithCR(KeepRecent(lines))
  {
  }

  /** As written, the file is right until the first trim and, from then on,
      every kept line carries one more '\r' than the entry it came from. */
  lemma AppendAsWrittenAddsCR(log: seq<string>, entry: string)
    requires NoNewlines(log) && NoNewline(entry)
    ensures |log| < MaxLines ==> AppendAsWritten(Render(log), entry) == Render(AppendLog(log, entry))
    ensures |log| >= MaxLines ==> AppendAsWritten(Render(log), entry) == Render(WithCR(AppendLog(log, entry)))
    ensures |log| >= MaxLines ==> AppendAsWritten(Render(log), entry) != Render(AppendLog(log, entry))
  {
    if |log| >= MaxLines {
      AppendAsWrittenTrimmed(log, entry);
    } else {
      ReadAppended(log, entry);
      assert AppendAsWritten(Render(log), entry) == Render(log) + Println(entry);
      assert AppendLog(log, entry) == log + [entry];
    }
  }

  /** The trimming case of `AppendAsWrittenAddsCR`. */
  lemma AppendAsWrittenTrimmed(log: seq<string>, entry: string)
    requires NoNewlines(log) && NoNewline(entry) && |log| >= MaxLines
    ensures AppendAsWritten(Render(log), entry) == Render(WithCR(AppendLog(log, entry)))
    ensures AppendAsWritten(Render(log), entry) != Render(AppendLog(log, entry))
  {
    ReadAppended(log, entry);
    var all := log + [entry];
    var lines := ReadLines(Render(log) + Println(entry));
    var kept := AppendLog(log, entry);
    assert lines == WithCR(all) && |lines| == |all|;
    KeepRecentWithCR(all);
    assert lines[|lines| - MaxLines..] == WithCR(kept);
    AppendAsWrittenTrims(Render(log), entry);
    RenderWithCRLength(kept);
    assert |Render(WithCR(kept))| == |Render(kept)| + MaxLines;
  }

  /** The corrected append keeps the file equal to the rendering of the
      line-level log, whatever its length. */
  lemma AppendFixedMatchesLog(log: seq<string>, entry: string)
    requires NoNewlines(log) && NoNewline(entry)
    ensures AppendFixed(Render(log), entry) == Render(AppendLog(log, entry))
  {
    ReadAppended(log, entry);
    var all := log + [entry];
    var lines := ReadLines(Render(log) + Println(entry));
    assert lines == WithCR(all) && |lines| == |all|;
    if |log| >= MaxLines {
      var kept := AppendLog(log, entry);
      KeepRecentWithCR(all);
      assert lines[|lines| - MaxLines..] == WithCR(kept);
      JoinedWithCR(kept);
      assert AppendFixed(Render(log), entry) == Joined(WithCR(kept));
    } else {
      assert AppendFixed(Render(log), entry) == Render(log) + Println(entry);
      assert AppendLog(log, entry) == all;
    }
  }

  /** `AppendLog` is `AppendFixed` read back line by line. */
  lemma ReadAfterAppendFixed(log: seq<string>, entry: string)
    requires NoNewlines(log) && NoNewline(entry)
    ensures ReadLines(AppendFixed(Render(log), entry)) == WithCR(AppendLog(log, entry))
  {
    AppendFixedMatchesLog(log, entry);
    AppendLogNoNewlines(log, entry);
    ReadRender(AppendLog(log, entry));
  }

  /** The kept lines are lines of the log or the entry, so none has a '\n'. */
  lemma AppendLogNoNewlines(log: seq<string>, entry: string)
    requires NoNewlines(log) && NoNewline(entry)
    ensures NoNewlines(AppendLog(log, entry))
  {
    var all := log + [entry];
    var r := AppendLog(log, entry);
    var k := |all| - |r|;
    assert r == all[k..];
    forall i | 0 <= i < |r|
      ensures NoNewline(r[i])
    {
      assert r[i] == all[k + i];
      if k + i < |log| {
        assert all[k + i] == log[k + i];
      }
    }
  }
}
