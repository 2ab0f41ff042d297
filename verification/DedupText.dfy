/**
 * The dedup log as text: one "<id>\t<value>\n" per accepted tuple, read back at a restart
 * once for the processed IDs and once for the replay. The tasks of module Delivery work on
 * the entries; here the text form is shown to carry them faithfully, with the exact
 * exception that line scanners make for carriage returns.
 */
module DedupText {
  import opened Sequences
  import opened Text
  import opened Delivery

  // ---------------------------------------------------------------- message IDs

  /** The printed form of an ID; `vm` is the name of the source's machine. */
  function Format(vm: string, id: MessageId): string {
    match id
    case SourceId(n) => "src-" + vm + "-" + Decimal(n)
    case OutputId(stage, task, n) => Decimal(stage) + "-" + Decimal(task) + "-" + Decimal(n)
  }

  /** Different messages have different printed IDs. */
  lemma {:induction false} FormatInjective(vm: string, a: MessageId, b: MessageId)
    requires Format(vm, a) == Format(vm, b)
    ensures a == b
  {
    FirstCharacter(vm, a);
    FirstCharacter(vm, b);
    match (a, b)
    case (SourceId(m), SourceId(n)) =>
      assert Format(vm, a) == ("src-" + vm) + ['-'] + Decimal(m);
      assert Format(vm, b) == ("src-" + vm) + ['-'] + Decimal(n);
      SplitAtLastSeparator("src-" + vm, m, "src-" + vm, n, '-');
    case (OutputId(s, t, m), OutputId(s', t', n)) =>
      var p, p' := Decimal(s) + "-" + Decimal(t), Decimal(s') + "-" + Decimal(t');
      assert Format(vm, a) == p + ['-'] + Decimal(m) && Format(vm, b) == p' + ['-'] + Decimal(n);
      SplitAtLastSeparator(p, m, p', n, '-');
      assert p == Decimal(s) + ['-'] + Decimal(t) && p' == Decimal(s') + ['-'] + Decimal(t');
      SplitAtLastSeparator(Decimal(s), t, Decimal(s'), t', '-');
      DecimalInjective(s, s');
    case _ =>
  }

  lemma {:induction false} FirstCharacter(vm: string, id: MessageId)
    ensures Format(vm, id) != "" && (Format(vm, id)[0] == 's' <==> id.SourceId?)
  {
  }

  lemma {:induction false} FormatExamples()
    ensures Format("VM1", SourceId(10)) == "src-VM1-10" && Format("VM1", OutputId(1, 0, 10)) == "1-0-10"
  {
    assert Decimal(1) == "1" && Decimal(0) == "0";
    assert Decimal(10) == Decimal(1) + "0";
  }

  predicate IsSpace(c: char) {
    c == ' ' || c == '\t' || c == '\n' || c == '\r' || c == 11 as char || c == 12 as char
  }

  predicate NoSpace(s: string) {
    forall i :: 0 <= i < |s| ==> !IsSpace(s[i])
  }

  lemma {:induction false} FormatNoSpace(vm: string, id: MessageId)
    requires NoSpace(vm)
    ensures NoSpace(Format(vm, id)) && Format(vm, id) != ""
  {
  }

  // ---------------------------------------------------------------- reading text

  /** bufio.ScanLines drops one carriage return before the line end. */
  function DropCR(line: string): string {
    if line != [] && line[|line| - 1] == '\r' then line[..|line| - 1] else line
  }

  function ScanLines(text: string): seq<string>
    decreases |text|
  {
    match IndexOf(text, '\n')
    case None => if text == [] then [] else [DropCR(text)]
    case Some(i) => [DropCR(text[..i])] + ScanLines(text[i + 1..])
  }

  function TrimSpace(s: string): string {
    if s == [] then s
    else if IsSpace(s[0]) then TrimSpace(s[1..])
    else if IsSpace(s[|s| - 1]) then TrimSpace(s[..|s| - 1])
    else s
  }

  /** Only space is taken away, from both ends, and all of it. */
  lemma {:induction false} TrimSpaceOutcome(s: string) returns (before: string, after: string)
    ensures s == before + TrimSpace(s) + after && AllSpace(before) && AllSpace(after)
    ensures var r := TrimSpace(s); r != "" ==> !IsSpace(r[0]) && !IsSpace(r[|r| - 1])
    decreases |s|
  {
    before, after := "", "";
    if s != [] && IsSpace(s[0]) {
      var b, a := TrimSpaceOutcome(s[1..]);
      before, after := [s[0]] + b, a;
      TrimmedFirst(s, b, TrimSpace(s[1..]), a);
    } else if s != [] && IsSpace(s[|s| - 1]) {
      var n := |s| - 1;
      var b, a := TrimSpaceOutcome(s[..n]);
      before, after := b, a + [s[n]];
      TrimmedLast(s, b, TrimSpace(s[..n]), a);
    }
  }

  lemma {:induction false} TrimmedFirst(s: string, b: string, r: string, a: string)
    requires s != [] && IsSpace(s[0]) && s[1..] == b + r + a && AllSpace(b)
    ensures s == ([s[0]] + b) + r + a && AllSpace([s[0]] + b)
  {
    assert s == [s[0]] + s[1..];
    Reassociate([s[0]], b, r, a);
  }

  lemma {:induction false} TrimmedLast(s: string, b: string, r: string, a: string)
    requires s != [] && IsSpace(s[|s| - 1]) && s[..|s| - 1] == b + r + a && AllSpace(a)
    ensures s == b + r + (a + [s[|s| - 1]]) && AllSpace(a + [s[|s| - 1]])
  {
    assert s == s[..|s| - 1] + [s[|s| - 1]];
    Reassociate(b, r, a, [s[|s| - 1]]);
  }

  lemma {:induction false} Reassociate(a: string, b: string, c: string, d: string)
    ensures a + (b + c + d) == (a + b) + c + d && (a + b + c) + d == a + b + (c + d)
  {
  }

  lemma {:induction false} TrimSpaceExample()
    ensures TrimSpace(" 1-0-10\r") == "1-0-10"
  {
    var s := " 1-0-10\r";
    assert s[1..] == "1-0-10\r" && s[1..][..6] == "1-0-10";
    assert TrimSpace(s) == TrimSpace(s[1..]) == TrimSpace(s[1..][..6]);
  }

  predicate AllSpace(s: string) {
    forall i :: 0 <= i < |s| ==> IsSpace(s[i])
  }

  /** The part before the first tab, and the part after it if there is one. */
  function SplitTab(line: string): (string, Option<string>) {
    match IndexOf(line, '\t')
    case None => (line, None)
    case Some(i) => (line[..i], Some(line[i + 1..]))
  }

  /** The two parts make up the line; a line without a tab is all first part. */
  lemma {:induction false} SplitTabParts(line: string)
    ensures var (id, value) := SplitTab(line);
      '\t' !in id && line == match value case None => id case Some(v) => id + "\t" + v
  {
    if '\t' in line {
      var i := IndexOf(line, '\t').value;
      assert line == line[..i] + [line[i]] + line[i + 1..];
    }
  }

  /** loadDedupLog: the IDs on the lines of the log. */
  function IdsOnLines(lines: seq<string>): set<string> {
    set l | l in lines && TrimSpace(SplitTab(l).0) != "" :: TrimSpace(SplitTab(l).0)
  }

  method LoadIds(text: string) returns (processed: set<string>)
    ensures processed == IdsOnLines(ScanLines(text)) && "" !in processed
    ensures forall l :: l in ScanLines(text) ==> TrimSpace(SplitTab(l).0) in processed + {""}
  {
    processed := {};
    var lines := ScanLines(text);
    for i := 0 to |lines|
      invariant processed == IdsOnLines(lines[..i])
    {
      assert lines[..i + 1] == lines[..i] + [lines[i]];
      var id := TrimSpace(SplitTab(lines[i]).0);
      if id != "" {
        processed := processed + {id};
      }
    }
    assert lines[..|lines|] == lines;
  }

  /** replayLogData: the values written to stdin, in order. */
  function ValuesOnLines(lines: seq<string>): seq<string> {
    if lines == [] then [] else
      var rest, last := ValuesOnLines(lines[..|lines| - 1]), SplitTab(lines[|lines| - 1]).1;
      if last.Some? then rest + [last.value] else rest
  }

  /** A line gives the value behind its first tab; a line without a tab gives none. */
  lemma {:induction false} ValueOfLine(lines: seq<string>, id: string, value: string)
    requires '\t' !in id
    ensures ValuesOnLines(lines + [id + "\t" + value]) == ValuesOnLines(lines) + [value]
    ensures ValuesOnLines(lines + [id]) == ValuesOnLines(lines)
  {
    var l := id + ['\t'] + value;
    assert "\t" == ['\t'] && id + "\t" + value == l;
    IndexOfFirst(id, '\t', value);
    assert l[|id| + 1..] == value;
    assert (lines + [l])[..|lines|] == lines && (lines + [id])[..|lines|] == lines;
  }

  method ReplayText(text: string) returns (written: seq<string>)
    ensures written == ValuesOnLines(ScanLines(text))
  {
    written := [];
    var lines := ScanLines(text);
    for i := 0 to |lines|
      invariant written == ValuesOnLines(lines[..i])
    {
      assert lines[..i + 1][..i] == lines[..i];
      var parts := SplitTab(lines[i]);
      if parts.1.Some? {
        written := written + [parts.1.value];
      }
    }
    assert lines[..|lines|] == lines;
  }

  // ---------------------------------------------------------------- the round trip

  /** What a sequence of io.WriteString(line + "\n") puts into a file or pipe. */
  function Written(lines: seq<string>): string {
    if lines == [] then "" else lines[0] + "\n" + Written(lines[1..])
  }

  predicate SingleLines(lines: seq<string>) {
    forall i :: 0 <= i < |lines| ==> '\n' !in lines[i]
  }

  lemma {:induction false} ScanFirst(line: string, rest: string)
    requires '\n' !in line
    ensures ScanLines(line + "\n" + rest) == [DropCR(line)] + ScanLines(rest)
  {
    var text := line + ['\n'] + rest;
    assert "\n" == ['\n'] && line + "\n" + rest == text;
    IndexOfFirst(line, '\n', rest);
    assert text[..|line|] == line && text[|line| + 1..] == rest;
  }

  lemma {:induction false} ScanWritten(lines: seq<string>)
    requires SingleLines(lines)
    ensures ScanLines(Written(lines)) == Map(DropCR, lines)
  {
    if lines != [] {
      ScanFirst(lines[0], Written(lines[1..]));
      ScanWritten(lines[1..]);
    }
  }

  /** The same text without its last line end. */
  function Unfinished(lines: seq<string>): string {
    if |lines| <= 1 then (if lines == [] then "" else lines[0]) else lines[0] + "\n" + Unfinished(lines[1..])
  }

  /** A last line without its line end counts as a line. */
  lemma {:induction false} ScanUnfinished(lines: seq<string>)
    requires SingleLines(lines) && (lines != [] ==> lines[|lines| - 1] != "")
    ensures ScanLines(Unfinished(lines)) == Map(DropCR, lines)
  {
    if |lines| > 1 {
      ScanFirst(lines[0], Unfinished(lines[1..]));
      ScanUnfinished(lines[1..]);
    }
  }

  function LogLine(vm: string, e: Entry): string {
    Format(vm, e.id) + "\t" + e.value
  }

  function LogLines(vm: string, log: seq<Entry>): seq<string> {
    Map((e: Entry) => LogLine(vm, e), log)
  }

  lemma {:induction false} LogLineParts(vm: string, e: Entry)
    requires NoSpace(vm) && '\n' !in e.value
    ensures '\n' !in LogLine(vm, e)
    ensures SplitTab(DropCR(LogLine(vm, e))) == (Format(vm, e.id), Some(DropCR(e.value)))
    ensures TrimSpace(Format(vm, e.id)) == Format(vm, e.id) != ""
  {
    FormatNoSpace(vm, e.id);
    var id, line := Format(vm, e.id), LogLine(vm, e);
    assert DropCR(line) == id + ['\t'] + DropCR(e.value) by {
      assert line[|line| - 1] == if e.value == [] then '\t' else e.value[|e.value| - 1];
      if e.value != [] {
        assert line[..|line| - 1] == id + ['\t'] + e.value[..|e.value| - 1];
      }
    }
    IndexOfFirst(id, '\t', DropCR(e.value));
    assert (id + ['\t'] + DropCR(e.value))[..|id|] == id;
    assert (id + ['\t'] + DropCR(e.value))[|id| + 1..] == DropCR(e.value);
  }

  /** The lines of the log as the scanner returns them. */
  function StoredLines(vm: string, log: seq<Entry>): seq<string> {
    Map(DropCR, LogLines(vm, log))
  }

  function StoredValues(log: seq<Entry>): seq<string> {
    Map(DropCR, Values(log))
  }

  function FormattedIds(vm: string, log: seq<Entry>): set<string> {
    set e | e in log :: Format(vm, e.id)
  }

  predicate SingleLineValues(log: seq<Entry>) {
    forall i :: 0 <= i < |log| ==> '\n' !in log[i].value
  }

  lemma {:induction false} StoredSnoc(vm: string, log: seq<Entry>, e: Entry)
    ensures StoredLines(vm, log + [e]) == StoredLines(vm, log) + [DropCR(LogLine(vm, e))]
    ensures StoredValues(log + [e]) == StoredValues(log) + [DropCR(e.value)]
    ensures FormattedIds(vm, log + [e]) == FormattedIds(vm, log) + {Format(vm, e.id)}
  {
  }

  lemma {:induction false} ReadSnoc(lines: seq<string>, l: string)
    requires SplitTab(l).1.Some? && TrimSpace(SplitTab(l).0) != ""
    ensures ValuesOnLines(lines + [l]) == ValuesOnLines(lines) + [SplitTab(l).1.value]
    ensures IdsOnLines(lines + [l]) == IdsOnLines(lines) + {TrimSpace(SplitTab(l).0)}
  {
  }

  lemma {:induction false} ReadBack(vm: string, log: seq<Entry>)
    requires NoSpace(vm) && SingleLineValues(log)
    ensures ValuesOnLines(StoredLines(vm, log)) == StoredValues(log)
    ensures IdsOnLines(StoredLines(vm, log)) == FormattedIds(vm, log)
  {
    if log != [] {
      var k := |log| - 1;
      assert log == log[..k] + [log[k]];
      ReadBack(vm, log[..k]);
      LogLineParts(vm, log[k]);
      StoredSnoc(vm, log[..k], log[k]);
      ReadSnoc(StoredLines(vm, log[..k]), DropCR(LogLine(vm, log[k])));
    }
  }

  /** Reading the log text back gives exactly the logged IDs, and the logged values up to one
      trailing carriage return each. */
  lemma {:induction false} LogTextRoundTrip(vm: string, log: seq<Entry>)
    requires NoSpace(vm) && SingleLineValues(log)
    ensures IdsOnLines(ScanLines(Written(LogLines(vm, log)))) == FormattedIds(vm, log)
    ensures ValuesOnLines(ScanLines(Written(LogLines(vm, log)))) == StoredValues(log)
  {
    forall i | 0 <= i < |log| ensures '\n' !in LogLines(vm, log)[i] {
      LogLineParts(vm, log[i]);
    }
    ScanWritten(LogLines(vm, log));
    ReadBack(vm, log);
  }

  predicate EndsWithTwoCR(s: string) {
    |s| >= 2 && s[|s| - 1] == '\r' && s[|s| - 2] == '\r'
  }

  /** The operator reads its stdin with the same scanner. A replay feeds it the same lines as
      the original pushes did exactly when no value ends in two carriage returns. */
  lemma {:induction false} ReplayFeedsSameLinesExactlyWhen(vm: string, log: seq<Entry>)
    requires NoSpace(vm) && SingleLineValues(log)
    ensures var replayed := ValuesOnLines(ScanLines(Written(LogLines(vm, log))));
      ScanLines(Written(replayed)) == ScanLines(Written(Values(log)))
      <==> forall i :: 0 <= i < |log| ==> !EndsWithTwoCR(log[i].value)
  {
    LogTextRoundTrip(vm, log);
    assert SingleLines(Values(log)) && SingleLines(StoredValues(log));
    ScanWritten(Values(log));
    ScanWritten(StoredValues(log));
    SameAfterSecondDrop(Values(log));
    assert forall i :: 0 <= i < |log| ==> Values(log)[i] == log[i].value;
  }

  lemma {:induction false} SameAfterSecondDrop(values: seq<string>)
    ensures Map(DropCR, Map(DropCR, values)) == Map(DropCR, values)
       <==> forall i :: 0 <= i < |values| ==> !EndsWithTwoCR(values[i])
  {
  }
}
