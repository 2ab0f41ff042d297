/**
 * The filter without a column, followed by an operator without state, as in the repository's second
 * application: in every run that finishes, the output file holds what the operator prints
 * for the source lines with the pattern, each without what stands before its first tab, and so
 * for just those lines when they have no tabs.
 */
module FilterJob {
  import opened Sequences
  import opened Operators
  import opened Pipeline
  import opened JobResults
  import opened FilterCount

  function FilterThenJob(
    csv: Csv, pattern: string, emit: Emit, width: nat, source: seq<string>, hash: string -> nat): Job
  {
    Job(2, width, source, FilterThen(csv, pattern, emit), hash)
  }

  function FilterThen(csv: Csv, pattern: string, emit: Emit): nat -> Emit {
    (stage: nat) => if stage == 1 then FilterEmit(csv, pattern, None) else emit
  }

  /** What each task of the second stage prints, when all of these lines have been printed by the first. */
  function SecondBags(j: Job, emit: Emit, lines: seq<string>): nat -> multiset<string>
    requires ValidJob(j)
  {
    (i: nat) => multiset(Out(emit, Out(RouteEmit(j, i), lines)))
  }

  lemma {:induction false} SecondBagNext(j: Job, emit: Emit, lines: seq<string>, i: nat)
    requires ValidJob(j) && Stateless(emit) && lines != []
    ensures var n := |lines| - 1;
      var before := SecondBags(j, emit, lines[..n])(i);
      SecondBags(j, emit, lines)(i) ==
        if i == j.hash(LineKey(lines[n])) % j.width then before + multiset(emit([], LineValue(lines[n]))) else before
  {
    var n := |lines| - 1;
    var routed, next := Out(RouteEmit(j, i), lines[..n]), RouteEmit(j, i)(lines[..n], lines[n]);
    assert lines == lines[..n] + [lines[n]];
    OutSnoc(RouteEmit(j, i), lines[..n], lines[n]);
    OutConcat(emit, routed, next);
    MultisetOfConcat(Out(emit, routed), Out(emit, next));
    if i == j.hash(LineKey(lines[n])) % j.width {
      OutSingle(emit, LineValue(lines[n]));
    }
  }

  /** Every printed line goes on to one task, without what stands before its first tab. */
  lemma {:induction false} RoutedOnce(j: Job, emit: Emit, lines: seq<string>)
    requires ValidJob(j) && Stateless(emit)
    ensures SumBags(SecondBags(j, emit, lines), j.width) == multiset(Out(emit, Map(LineValue, lines)))
  {
    if lines == [] {
      SumBagsEmpty(SecondBags(j, emit, lines), j.width);
    } else {
      var n := |lines| - 1;
      var home, bag := j.hash(LineKey(lines[n])) % j.width, multiset(emit([], LineValue(lines[n])));
      RoutedOnce(j, emit, lines[..n]);
      ValuesNext(emit, lines);
      var before, after := SecondBags(j, emit, lines[..n]), SecondBags(j, emit, lines);
      forall i: nat | i < j.width ensures after(i) == if i == home then before(i) + bag else before(i) {
        SecondBagNext(j, emit, lines, i);
      }
      SumBagsAdd(before, after, j.width, home, bag);
    }
  }

  lemma {:induction false} ValuesNext(emit: Emit, lines: seq<string>)
    requires Stateless(emit) && lines != []
    ensures var n := |lines| - 1;
      multiset(Out(emit, Map(LineValue, lines))) ==
        multiset(Out(emit, Map(LineValue, lines[..n]))) + multiset(emit([], LineValue(lines[n])))
  {
    var n := |lines| - 1;
    var values, value := Map(LineValue, lines[..n]), LineValue(lines[n]);
    assert Map(LineValue, lines) == values + [value];
    OutSnoc(emit, values, value);
    MultisetOfConcat(Out(emit, values), emit([], value));
  }

  function FilterOutputs(j: Job, s: State): nat -> seq<string> {
    (c: nat) => if Node(1, c) in s.slots then Printed(j, s, Node(1, c)) else []
  }

  function FilterBags(j: Job, s: State): nat -> multiset<string> {
    (c: nat) => multiset(FilterOutputs(j, s)(c))
  }

  lemma {:induction false} FilterTaskPrints(csv: Csv, pattern: string, emit: Emit, j: Job, s: State, c: nat)
    requires ValidJob(j) && j == FilterThenJob(csv, pattern, emit, j.width, j.source, j.hash)
    requires Settled(j, s) && c < j.width
    ensures FilterOutputs(j, s)(c) == Out(FilterEmit(csv, pattern, None), StageOneInputs(j, s)(c))
  {
    assert IsNode(j, Node(1, c));
    assert Emitter(j, 1) == FilterEmit(csv, pattern, None);
  }

  /** The filter tasks together print the source lines with the pattern. */
  lemma {:induction false} FilterTasksPrint(csv: Csv, pattern: string, emit: Emit, j: Job, s: State)
    requires ValidJob(j) && j == FilterThenJob(csv, pattern, emit, j.width, j.source, j.hash) && Settled(j, s)
    ensures multiset(ConcatAll(FilterOutputs(j, s), j.width)) == multiset(MatchingLines(pattern, j.source))
  {
    var filter: Emit := FilterEmit(csv, pattern, None);
    var inputs := StageOneInputs(j, s);
    forall c: nat | c < j.width ensures SourceBags(j, j.source)(c) == multiset(inputs(c)) {
      StageOneReceives(j, s, c);
    }
    forall c: nat | c < j.width ensures FilterBags(j, s)(c) == multiset(Out(filter, inputs(c))) {
      FilterTaskPrints(csv, pattern, emit, j, s, c);
    }
    SourceIsSplit(j, j.source);
    PartsPermuteWhole(inputs, SourceBags(j, j.source), j.width);
    OutOfParts(filter, inputs, FilterBags(j, s), j.width);
    PartsPermuteWhole(FilterOutputs(j, s), FilterBags(j, s), j.width);
    StatelessPermutation(filter, ConcatAll(inputs, j.width), j.source);
    FilterPrintsLines(csv, pattern, j.source);
  }

  lemma {:induction false} FilterPrintsLines(csv: Csv, pattern: string, lines: seq<string>)
    ensures Out(FilterEmit(csv, pattern, None), lines) == MatchingLines(pattern, lines)
  {
    FilterPrintsMatching(csv, pattern, None, lines);
  }

  /** A task of the second stage prints its operator's lines for what is routed to it. */
  lemma {:induction false} SecondTaskPrints(csv: Csv, pattern: string, emit: Emit, j: Job, s: State, i: nat)
    requires ValidJob(j) && j == FilterThenJob(csv, pattern, emit, j.width, j.source, j.hash)
    requires Stateless(emit) && Settled(j, s) && i < j.width
    ensures Node(2, i) in s.slots
    ensures multiset(Printed(j, s, Node(2, i))) == SecondBags(j, emit, ConcatAll(FilterOutputs(j, s), j.width))(i)
  {
    var n := Node(2, i);
    assert IsNode(j, n);
    assert Emitter(j, 2) == emit;
    forall c: nat | c < j.width
      ensures ShareBags(j, s, n)(c) == multiset(Out(RouteEmit(j, i), FilterOutputs(j, s)(c)))
    {
      assert IsNode(j, Up(n, c)) && Up(n, c) == Node(1, c);
      ShareBagIsRouted(j, s, n, c);
    }
    OutOfParts(RouteEmit(j, i), FilterOutputs(j, s), ShareBags(j, s, n), j.width);
    StatelessPermutation(emit, Received(j, s, n), Out(RouteEmit(j, i), ConcatAll(FilterOutputs(j, s), j.width)));
  }

  lemma {:induction false} WrittenLines(csv: Csv, pattern: string, emit: Emit, j: Job, s: State)
    requires ValidJob(j) && j == FilterThenJob(csv, pattern, emit, j.width, j.source, j.hash)
    requires Stateless(emit) && Settled(j, s) && Written(j, s)
    ensures multiset(OutputLines(s.output)) ==
      multiset(Out(emit, Map(LineValue, MatchingLines(pattern, j.source))))
  {
    var whole := ConcatAll(FilterOutputs(j, s), j.width);
    forall i: nat | i < j.width ensures TaskBags(s.output, 2)(i) == SecondBags(j, emit, whole)(i) {
      SecondTaskPrints(csv, pattern, emit, j, s, i);
    }
    SumBagsSame(TaskBags(s.output, 2), SecondBags(j, emit, whole), j.width);
    RoutedOnce(j, emit, whole);
    FilterTasksPrint(csv, pattern, emit, j, s);
    MapPermutation(LineValue, whole, MatchingLines(pattern, j.source));
    StatelessPermutation(emit, Map(LineValue, whole), Map(LineValue, MatchingLines(pattern, j.source)));
  }

  ghost predicate NoTabs(lines: seq<string>) {
    forall i :: 0 <= i < |lines| ==> '\t' !in lines[i]
  }

  lemma {:induction false} NoTabsKeepsLines(lines: seq<string>)
    requires NoTabs(lines)
    ensures Map(LineValue, lines) == lines
  {
    forall i | 0 <= i < |lines| ensures LineValue(lines[i]) == lines[i] {
      LineParts(lines[i]);
    }
  }

  /** Whatever the interleaving, the retries and the crashes of filter tasks, a run in which the last stage has
      finished leaves what its operator prints for the source lines with the pattern. */
  lemma {:induction false} FilterOutput(
      csv: Csv, pattern: string, emit: Emit, width: nat, source: seq<string>, hash: string -> nat, steps: seq<Step>)
    requires width >= 1 && Stateless(emit)
    requires var j := FilterThenJob(csv, pattern, emit, width, source, hash); LastStageFinished(j, Run(j, steps))
    ensures var output := OutputLines(Run(FilterThenJob(csv, pattern, emit, width, source, hash), steps).output);
      var matching := MatchingLines(pattern, source);
      && multiset(output) == multiset(Out(emit, Map(LineValue, matching)))
      && (NoTabs(matching) ==> multiset(output) == multiset(Out(emit, matching)))
  {
    var j := FilterThenJob(csv, pattern, emit, width, source, hash);
    FinishedIsWritten(j, steps);
    WrittenLines(csv, pattern, emit, j, Run(j, steps));
    if NoTabs(MatchingLines(pattern, source)) {
      NoTabsKeepsLines(MatchingLines(pattern, source));
    }
  }

  /** With the identity these are the lines with the pattern themselves. */
  lemma {:induction false} FilterIdentityOutput(
      csv: Csv, pattern: string, width: nat, source: seq<string>, hash: string -> nat, steps: seq<Step>)
    requires width >= 1 && NoTabs(MatchingLines(pattern, source))
    requires var j := FilterThenJob(csv, pattern, Identity(), width, source, hash); LastStageFinished(j, Run(j, steps))
    ensures var output := OutputLines(Run(FilterThenJob(csv, pattern, Identity(), width, source, hash), steps).output);
      Permutation(output, MatchingLines(pattern, source))
  {
    FilterOutput(csv, pattern, Identity(), width, source, hash, steps);
    OutIdentity(MatchingLines(pattern, source));
  }

  /** With the transform operator these are the first three fields of their records. */
  lemma {:induction false} FilterTransformOutput(
    csv: Csv, pattern: string, write: seq<string> -> string, width: nat, source: seq<string>, hash: string -> nat,
    steps: seq<Step>) returns (lines: seq<string>)
    requires width >= 1 && NoTabs(MatchingLines(pattern, source))
    requires var j := FilterThenJob(csv, pattern, TransformEmit(csv, write), width, source, hash);
      LastStageFinished(j, Run(j, steps))
    ensures var j := FilterThenJob(csv, pattern, TransformEmit(csv, write), width, source, hash);
      Permutation(OutputLines(Run(j, steps).output), lines)
    ensures Transformed(csv, write, MatchingLines(pattern, source), lines)
  {
    FilterOutput(csv, pattern, TransformEmit(csv, write), width, source, hash, steps);
    lines := Out(TransformEmit(csv, write), MatchingLines(pattern, source));
    TransformPrintsFields(csv, write, MatchingLines(pattern, source));
  }
}
