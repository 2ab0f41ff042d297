/**
 * The filter-and-count job end to end: in every run that finishes, the output file holds
 * exactly the lines "k: 1" ... "k: n_k" for each key k, where n_k is the number of source lines
 * that contain the pattern and carry the key.
 */
module FilterCount {
  import opened Sequences
  import opened Text
  import opened Operators
  import opened Delivery
  import opened Pipeline
  import opened JobResults

  /** op1_filter with a column, then op2_count on the same column. */
  function FilterCountJob(
    csv: Csv, pattern: string, col: nat, width: nat, source: seq<string>, hash: string -> nat): Job
  {
    Job(2, width, source, FilterThenCount(csv, pattern, col), hash)
  }

  function FilterThenCount(csv: Csv, pattern: string, col: nat): nat -> Emit {
    (stage: nat) =>
      var emit: Emit := if stage == 1 then FilterEmit(csv, pattern, Some(col)) else CountEmit(KeyColumn(csv, col));
      emit
  }

  /** How many source lines have the pattern and the key. */
  function Matching(csv: Csv, pattern: string, col: nat, source: seq<string>, key: string): nat {
    |set i | 0 <= i < |source| && Contains(source[i], pattern) && HasKey(csv, col, source[i], key)|
  }

  /** No line with the pattern has a tab in its key. Other lines do not matter. */
  ghost predicate NoTabInKeys(csv: Csv, col: nat, pattern: string, lines: multiset<string>) {
    forall line :: line in lines && Contains(line, pattern) ==> '\t' !in Column(csv, col, line)
  }

  // ---------------------------------------------------------------- splitting the source

  function SourceBags(j: Job, lines: seq<string>): nat -> multiset<string>
    requires ValidJob(j)
  {
    (i: nat) => multiset(Values(Routed(j, Node(0, 0), lines, Node(1, i))))
  }

  lemma {:induction false} SourceLineGoesToOne(j: Job, lines: seq<string>, i: nat)
    requires ValidJob(j) && lines != []
    ensures var k := |lines| - 1;
      SourceBags(j, lines)(i)
      == if i == |lines| % j.width then SourceBags(j, lines[..k])(i) + multiset{lines[k]}
         else SourceBags(j, lines[..k])(i)
  {
    var k := |lines| - 1;
    var m := Message(Node(0, 0), |lines|, lines[k]);
    var before := Routed(j, Node(0, 0), lines[..k], Node(1, i));
    if i == |lines| % j.width {
      assert Routed(j, Node(0, 0), lines, Node(1, i)) == before + [MessageEntry(m)];
      MapMultisetSnoc((e: Entry) => e.value, before, MessageEntry(m));
    } else {
      assert Routed(j, Node(0, 0), lines, Node(1, i)) == before;
    }
  }

  /** The stage-1 tasks together receive every source line once. */
  lemma {:induction false} SourceIsSplit(j: Job, lines: seq<string>)
    requires ValidJob(j)
    ensures SumBags(SourceBags(j, lines), j.width) == multiset(lines)
  {
    if lines == [] {
      SumBagsEmpty(SourceBags(j, lines), j.width);
    } else {
      var k := |lines| - 1;
      assert lines == lines[..k] + [lines[k]];
      SourceIsSplit(j, lines[..k]);
      forall i: nat | i < j.width
        ensures SourceBags(j, lines)(i)
             == if i == |lines| % j.width then SourceBags(j, lines[..k])(i) + multiset{lines[k]}
                else SourceBags(j, lines[..k])(i)
      {
        SourceLineGoesToOne(j, lines, i);
      }
      SumBagsAdd(SourceBags(j, lines[..k]), SourceBags(j, lines), j.width, |lines| % j.width, multiset{lines[k]});
    }
  }

  // ---------------------------------------------------------------- filtering and routing

  /** What count task `index` receives from a source line. */
  function Select(csv: Csv, pattern: string, col: nat, j: Job, index: nat): Emit
    requires ValidJob(j)
  {
    (history, line) =>
      if Contains(line, pattern) && j.hash(Column(csv, col, line)) % j.width == index then [line] else []
  }

  /** What the filter prints is taken apart into the key and the line again exactly when the key has no tab. */
  lemma {:induction false} TabSplitsExactlyWhen(key: string, line: string)
    ensures LineKey(key + "\t" + line) == key && LineValue(key + "\t" + line) == line <==> '\t' !in key
  {
    var printed := key + ['\t'] + line;
    assert "\t" == ['\t'];
    assert key + "\t" + line == printed;
    assert printed[|key|] == '\t';
    if '\t' !in key {
      IndexOfFirst(key, '\t', line);
      assert printed[..|key|] == key && printed[|key| + 1..] == line;
    } else {
      assert '\t' !in LineKey(printed);
    }
  }

  lemma {:induction false} FilterThenRoute(
    csv: Csv, pattern: string, col: nat, j: Job, index: nat, lines: seq<string>)
    requires ValidJob(j) && NoTabInKeys(csv, col, pattern, multiset(lines))
    ensures Out(RouteEmit(j, index), Out(FilterEmit(csv, pattern, Some(col)), lines))
         == Out(Select(csv, pattern, col, j, index), lines)
  {
    if lines != [] {
      var k := |lines| - 1;
      assert lines == lines[..k] + [lines[k]];
      MultisetOfSnoc(lines[..k], lines[k]);
      FilterThenRoute(csv, pattern, col, j, index, lines[..k]);
      var printed := FilterEmit(csv, pattern, Some(col))(lines[..k], lines[k]);
      OutConcat(RouteEmit(j, index), Out(FilterEmit(csv, pattern, Some(col)), lines[..k]), printed);
      if Contains(lines[k], pattern) {
        OutSingle(RouteEmit(j, index), Column(csv, col, lines[k]) + "\t" + lines[k]);
        TabSplitsExactlyWhen(Column(csv, col, lines[k]), lines[k]);
      }
    }
  }

  /** A stateless operator applied to the parts of a sequence prints what it prints for the whole. */
  lemma {:induction false} OutOfParts(
    emit: Emit, parts: nat -> seq<string>, bags: nat -> multiset<string>, count: nat)
    requires Stateless(emit)
    requires forall i: nat :: i < count ==> bags(i) == multiset(Out(emit, parts(i)))
    ensures multiset(Out(emit, ConcatAll(parts, count))) == SumBags(bags, count)
  {
    if count > 0 {
      OutOfParts(emit, parts, bags, count - 1);
      OutConcat(emit, ConcatAll(parts, count - 1), parts(count - 1));
      MultisetOfConcat(Out(emit, ConcatAll(parts, count - 1)), Out(emit, parts(count - 1)));
    }
  }

  lemma {:induction false} MapIdentity(s: seq<string>)
    ensures Map((x: string) => x, s) == s
  {
  }

  lemma {:induction false} PartsPermuteWhole(parts: nat -> seq<string>, bags: nat -> multiset<string>, count: nat)
    requires forall i: nat :: i < count ==> bags(i) == multiset(parts(i))
    ensures multiset(ConcatAll(parts, count)) == SumBags(bags, count)
  {
    forall i: nat | i < count ensures bags(i) == multiset(Map((x: string) => x, parts(i))) {
      MapIdentity(parts(i));
    }
    ConcatAllBags((x: string) => x, parts, bags, count);
    MapIdentity(ConcatAll(parts, count));
  }

  // ---------------------------------------------------------------- what the count tasks receive

  function StageOneInputs(j: Job, s: State): nat -> seq<string> {
    (i: nat) => if Node(1, i) in s.slots then Received(j, s, Node(1, i)) else []
  }

  lemma {:induction false} StageOneReceives(j: Job, s: State, i: nat)
    requires ValidJob(j) && Settled(j, s) && i < j.width
    ensures multiset(StageOneInputs(j, s)(i)) == SourceBags(j, j.source)(i)
  {
    var n := Node(1, i);
    assert IsNode(j, n) && IsNode(j, Up(n, 0)) && Up(n, 0) == Node(0, 0);
    OutIdentity(j.source);
    assert Printed(j, s, Node(0, 0)) == j.source;
    assert Shares(j, s, n)(0) == Routed(j, Node(0, 0), j.source, n);
    assert SumBags(ShareBags(j, s, n), 0) == multiset{};
    assert SumBags(ShareBags(j, s, n), 1) == ShareBags(j, s, n)(0);
    assert UpstreamCount(j, 1) == 1;
  }

  /** What a filter task prints for a count task is what is selected for it from the filter's input. */
  lemma {:induction false} ShareIsSelected(
    csv: Csv, pattern: string, col: nat, j: Job, s: State, i: nat, c: nat)
    requires ValidJob(j) && j == FilterCountJob(csv, pattern, col, j.width, j.source, j.hash)
    requires NoTabInKeys(csv, col, pattern, multiset(j.source)) && Settled(j, s) && i < j.width && c < j.width
    ensures ShareBags(j, s, Node(2, i))(c) == multiset(Out(Select(csv, pattern, col, j, i), StageOneInputs(j, s)(c)))
  {
    assert IsNode(j, Node(1, c)) && Up(Node(2, i), c) == Node(1, c);
    ShareBagIsRouted(j, s, Node(2, i), c);
    StageOneReceives(j, s, c);
    SourceIsSplit(j, j.source);
    SummandIsPart(SourceBags(j, j.source), j.width, c);
    FilterThenRoute(csv, pattern, col, j, i, StageOneInputs(j, s)(c));
  }

  lemma {:induction false} StageTwoReceives(
    csv: Csv, pattern: string, col: nat, j: Job, s: State, i: nat)
    requires ValidJob(j) && j == FilterCountJob(csv, pattern, col, j.width, j.source, j.hash)
    requires NoTabInKeys(csv, col, pattern, multiset(j.source)) && Settled(j, s) && i < j.width
    ensures Node(2, i) in s.slots
    ensures multiset(Received(j, s, Node(2, i))) == multiset(Out(Select(csv, pattern, col, j, i), j.source))
  {
    var n := Node(2, i);
    var emit, inputs := Select(csv, pattern, col, j, i), StageOneInputs(j, s);
    assert IsNode(j, n);
    SourceIsSplit(j, j.source);
    forall c: nat | c < j.width ensures SourceBags(j, j.source)(c) == multiset(inputs(c)) {
      StageOneReceives(j, s, c);
    }
    forall c: nat | c < j.width ensures ShareBags(j, s, n)(c) == multiset(Out(emit, inputs(c))) {
      ShareIsSelected(csv, pattern, col, j, s, i, c);
    }
    OutOfParts(emit, inputs, ShareBags(j, s, n), j.width);
    PartsPermuteWhole(inputs, SourceBags(j, j.source), j.width);
    StatelessPermutation(emit, ConcatAll(inputs, j.width), j.source);
  }

  lemma {:induction false} SummandIsPart(f: nat -> multiset<string>, count: nat, i: nat)
    requires i < count
    ensures f(i) <= SumBags(f, count)
  {
    if i < count - 1 {
      SummandIsPart(f, count - 1, i);
    }
  }

  lemma {:induction false} SelectedOccurrences(
    csv: Csv, pattern: string, col: nat, j: Job, i: nat, source: seq<string>, key: string)
    requires ValidJob(j)
    ensures Occurrences(KeyColumn(csv, col), key, Out(Select(csv, pattern, col, j, i), source))
         == if j.hash(key) % j.width == i then Matching(csv, pattern, col, source, key) else 0
  {
    if source == [] {
      OccurrencesSingle(KeyColumn(csv, col), key, "");
    } else {
      var k := |source| - 1;
      SelectedOccurrences(csv, pattern, col, j, i, source[..k], key);
      var keyOf, select := KeyColumn(csv, col), Select(csv, pattern, col, j, i);
      OccurrencesConcat(keyOf, key, Out(select, source[..k]), select(source[..k], source[k]));
      OccurrencesSingle(keyOf, key, source[k]);
      KeyIsColumn(csv, col, source[k], key);
      MatchingSnoc(csv, pattern, col, source, key);
    }
  }

  lemma {:induction false} MatchingSnoc(csv: Csv, pattern: string, col: nat, source: seq<string>, key: string)
    requires source != []
    ensures var k := |source| - 1;
      Matching(csv, pattern, col, source, key) == Matching(csv, pattern, col, source[..k], key)
        + if Contains(source[k], pattern) && HasKey(csv, col, source[k], key) then 1 else 0
  {
    var k := |source| - 1;
    var front := set i | 0 <= i < k && Contains(source[..k][i], pattern) && HasKey(csv, col, source[..k][i], key);
    var all := set i | 0 <= i < |source| && Contains(source[i], pattern) && HasKey(csv, col, source[i], key);
    assert all == if k in all then front + {k} else front;
  }

  lemma {:induction false} OccurrencesConcat(keyOf: string -> string, key: string, a: seq<string>, b: seq<string>)
    ensures Occurrences(keyOf, key, a + b) == Occurrences(keyOf, key, a) + Occurrences(keyOf, key, b)
  {
    MapOfConcat(keyOf, a, b);
  }

  lemma {:induction false} OccurrencesSingle(keyOf: string -> string, key: string, x: string)
    ensures Occurrences(keyOf, key, [x]) == if keyOf(x) == key then 1 else 0
    ensures Occurrences(keyOf, key, []) == 0
  {
  }

  /** Each count task prints its keys' lines and no others. */
  lemma {:induction false} CountTaskPrints(
    csv: Csv, pattern: string, col: nat, j: Job, s: State, i: nat, key: string, n: nat)
    requires ValidJob(j) && j == FilterCountJob(csv, pattern, col, j.width, j.source, j.hash)
    requires NoTabInKeys(csv, col, pattern, multiset(j.source)) && Settled(j, s) && i < j.width
    ensures Node(2, i) in s.slots
    ensures multiset(Printed(j, s, Node(2, i)))[CountLine(key, n)]
         == if j.hash(key) % j.width == i && 1 <= n <= Matching(csv, pattern, col, j.source, key) then 1 else 0
  {
    StageTwoReceives(csv, pattern, col, j, s, i);
    var received := Received(j, s, Node(2, i));
    var selected := Out(Select(csv, pattern, col, j, i), j.source);
    MapPermutation(KeyColumn(csv, col), received, selected);
    SelectedOccurrences(csv, pattern, col, j, i, j.source, key);
    CountMultiplicity(KeyColumn(csv, col), received, key, n);
  }

  // ---------------------------------------------------------------- the theorem

  /** The output file as the count tasks wrote it. */
  ghost predicate Written(j: Job, s: State) {
    && multiset(OutputLines(s.output)) == SumBags(TaskBags(s.output, j.stages), j.width)
    && forall i: nat :: i < j.width ==>
         && Node(j.stages, i) in s.slots
         && TaskBags(s.output, j.stages)(i) == multiset(Printed(j, s, Node(j.stages, i)))
  }

  lemma {:induction false} FinishedIsWritten(j: Job, steps: seq<Step>)
    requires ValidJob(j) && LastStageFinished(j, Run(j, steps))
    ensures Written(j, Run(j, steps)) && Settled(j, Run(j, steps))
  {
    RunKeepsInv(j, steps);
    LastStageFinishesJob(j, Run(j, steps));
    FinalOutput(j, Run(j, steps));
    FinishedIsSettled(j, Run(j, steps));
  }

  lemma {:induction false} WrittenCountLines(
    csv: Csv, pattern: string, col: nat, j: Job, s: State, key: string, n: nat)
    requires ValidJob(j) && j == FilterCountJob(csv, pattern, col, j.width, j.source, j.hash)
    requires NoTabInKeys(csv, col, pattern, multiset(j.source)) && Settled(j, s) && Written(j, s)
    ensures multiset(OutputLines(s.output))[CountLine(key, n)]
         == if 1 <= n <= Matching(csv, pattern, col, j.source, key) then 1 else 0
  {
    var x, bags, home := CountLine(key, n), TaskBags(s.output, 2), j.hash(key) % j.width;
    forall i: nat | i < j.width
      ensures bags(i)[x] == if i == home && 1 <= n <= Matching(csv, pattern, col, j.source, key) then 1 else 0
    {
      CountTaskPrints(csv, pattern, col, j, s, i, key, n);
    }
    SumBagsMultiplicity(bags, j.width, home, x);
  }

  /** Whatever the interleaving, the retries and the crashes of filter tasks, a run in which
      the count tasks have finished leaves each "key: n" with 1 <= n <= n_key exactly once. */
  lemma {:induction false} FilterCountOutput(
    csv: Csv, pattern: string, col: nat, width: nat, source: seq<string>, hash: string -> nat,
    steps: seq<Step>, key: string, n: nat)
    requires width >= 1 && NoTabInKeys(csv, col, pattern, multiset(source))
    requires var j := FilterCountJob(csv, pattern, col, width, source, hash); LastStageFinished(j, Run(j, steps))
    ensures var j := FilterCountJob(csv, pattern, col, width, source, hash);
      multiset(OutputLines(Run(j, steps).output))[CountLine(key, n)]
      == if 1 <= n <= Matching(csv, pattern, col, source, key) then 1 else 0
  {
    var j := FilterCountJob(csv, pattern, col, width, source, hash);
    FinishedIsWritten(j, steps);
    WrittenCountLines(csv, pattern, col, j, Run(j, steps), key, n);
  }

  lemma {:induction false} WrittenOnlyCountLines(csv: Csv, pattern: string, col: nat, j: Job, s: State, x: string)
    requires ValidJob(j) && j == FilterCountJob(csv, pattern, col, j.width, j.source, j.hash)
    requires Written(j, s) && x in OutputLines(s.output)
    ensures exists key, n :: x == CountLine(key, n)
  {
    var i := WrittenByTask(j, s, x);
    CountPrintsCountLines(KeyColumn(csv, col), Received(j, s, Node(2, i)), x);
  }

  lemma {:induction false} WrittenByTask(j: Job, s: State, x: string) returns (i: nat)
    requires ValidJob(j) && Written(j, s) && x in OutputLines(s.output)
    ensures i < j.width && Node(j.stages, i) in s.slots && x in Printed(j, s, Node(j.stages, i))
  {
    assert x in multiset(OutputLines(s.output));
    SumBagsMember(TaskBags(s.output, j.stages), j.width, x);
    i :| i < j.width && x in TaskBags(s.output, j.stages)(i);
    assert x in multiset(Printed(j, s, Node(j.stages, i)));
  }

  /** And nothing else. */
  lemma {:induction false} FilterCountOutputOnly(
    csv: Csv, pattern: string, col: nat, width: nat, source: seq<string>, hash: string -> nat,
    steps: seq<Step>, x: string)
    requires width >= 1
    requires var j := FilterCountJob(csv, pattern, col, width, source, hash);
      LastStageFinished(j, Run(j, steps)) && x in OutputLines(Run(j, steps).output)
    ensures exists key, n :: x == CountLine(key, n)
  {
    var j := FilterCountJob(csv, pattern, col, width, source, hash);
    FinishedIsWritten(j, steps);
    WrittenOnlyCountLines(csv, pattern, col, j, Run(j, steps), x);
  }

  lemma {:induction false} SumBagsMember(f: nat -> multiset<string>, count: nat, x: string)
    requires x in SumBags(f, count)
    ensures exists i: nat :: i < count && x in f(i)
  {
    if x !in f(count - 1) {
      SumBagsMember(f, count - 1, x);
    }
  }
}
