/**
 * A run that the theorems about jobs apply to: the filter-and-count job with one task per stage
 * and one source line. The append of the line to the filter's log fails, then it is made and reported
 * as failed; the filter dies, is killed and restarted, the line is sent again during the replay, and a
 * reply from the count task is lost. The run finishes, with the count in the output file once.
 */
module ExampleRun {
  import opened Sequences
  import opened Text
  import opened Operators
  import opened Delivery
  import opened Pipeline
  import opened JobResults
  import opened FilterCount

  const SRC := Node(0, 0)
  const FILTER := Node(1, 0)
  const COUNT := Node(2, 0)

  const LINE := Message(SRC, 1, "x")
  const KEYED := Message(FILTER, 1, "x" + "\t" + "x")
  const COUNTED := Message(COUNT, 1, CountLine("x", 1))

  const E1 := Entry(SourceId(1), "x")
  const E2 := Entry(OutputId(1, 0, 1), "x")

  /** A line of one column; the pattern is empty. */
  function OneColumn(): Csv {
    (line: string) => Some([line])
  }

  function Example(): Job {
    FilterCountJob(OneColumn(), "", 0, 1, ["x"], (key: string) => 0)
  }

  function Steps(): seq<Step> {
    [EmitLine(SRC), Deliver(LINE, AppendFailed, false), Deliver(LINE, AppendedWithError, false),
     OperatorDies(FILTER), Kill(FILTER), Restart(FILTER),
     Deliver(LINE, Appended, false), ReplayLine(FILTER), SendEos(SRC, 0), EmitLine(FILTER),
     Deliver(KEYED, Appended, true), Deliver(KEYED, Appended, false), SendEos(FILTER, 0), EmitLine(COUNT)]
  }

  // ---------------------------------------------------------------- the states of the run

  function Fresh(): Task {
    Start([], 1, true)
  }

  /** The filter after the k-th step. */
  function FilterAfter(k: nat): Task {
    if k < 3 then Fresh()
    else if k < 6 then Fresh().(log := [E1], open := k < 4)
    else if k < 8 then Start([E1], 1, true)
    else if k < 9 then Start([E1], 1, true).(stdin := [E1], pos := 1)
    else Start([E1], 1, true).(stdin := [E1], pos := 1, open := false, eosCount := 1, seqNum := if k < 10 then 0 else 1)
  }

  /** The count task. */
  function CountAfter(k: nat): Task {
    if k < 11 then Fresh()
    else
      var t := Fresh().(log := [E2], stdin := [E2], processed := {E2.id}, counter := 1);
      if k < 13 then t else t.(open := false, eosCount := 1, seqNum := if k < 14 then 0 else 1)
  }

  function After(k: nat): State {
    State(
      map[SRC := Slot(if k < 1 then Fresh() else Fresh().(seqNum := 1), true),
          FILTER := Slot(FilterAfter(k), k != 5),
          COUNT := Slot(CountAfter(k), true)],
      (if k < 1 then {} else {LINE}) + (if k < 10 then {} else {KEYED}),
      (if k < 7 then {} else {LINE}) + (if k < 12 then {} else {KEYED}),
      (if k < 9 then {} else {(SRC, FILTER)}) + (if k < 13 then {} else {(FILTER, COUNT)}),
      if k < 14 then [] else [COUNTED])
  }

  lemma {:induction false} FirstState()
    ensures Init(Example()) == After(0)
  {
    assert Nodes(Example()) == {SRC, FILTER, COUNT};
  }

  // ---------------------------------------------------------------- what the operators print

  lemma {:induction false} SourcePrints()
    ensures Out(Emitter(Example(), 0), ["x"]) == ["x"]
  {
    OutIdentity(["x"]);
  }

  lemma {:induction false} EmptyPattern(line: string)
    ensures Contains(line, "")
  {
    assert "" <= line[0..];
  }

  lemma {:induction false} KeyedEntry()
    ensures LineKey(KEYED.line) == "x" && MessageEntry(KEYED) == E2
  {
    assert '\t' !in "x";
    TabSplitsExactlyWhen("x", "x");
  }

  lemma {:induction false} FilterPrints()
    ensures Out(Emitter(Example(), 1), ["x"]) == [KEYED.line]
    ensures Out(FilterEmit(OneColumn(), "", None), ["x"]) == ["x"]
  {
    var filter: Emit := FilterEmit(OneColumn(), "", Some(0));
    assert Emitter(Example(), 1) == filter;
    EmptyPattern("x");
    assert Column(OneColumn(), 0, "x") == "x";
    OutSingle(filter, "x");
    OutSingle(FilterEmit(OneColumn(), "", None), "x");
  }

  lemma {:induction false} CountPrints()
    ensures Out(Emitter(Example(), 2), ["x"]) == [COUNTED.line]
  {
    var keyOf := KeyColumn(OneColumn(), 0);
    assert Emitter(Example(), 2) == CountEmit(keyOf);
    assert keyOf("x") == "x";
    OutSingle(CountEmit(keyOf), "x");
    OccurrencesSingle(keyOf, "x", "x");
  }

  lemma {:induction false} InputsSoFar(k: nat)
    ensures k >= 8 ==> Received(Example(), After(k), FILTER) == ["x"]
    ensures k >= 11 ==> Received(Example(), After(k), COUNT) == ["x"]
  {
    assert Values([E1]) == ["x"] && Values([E2]) == ["x"];
  }

  lemma {:induction false} Printing(k: nat)
    ensures Printed(Example(), After(k), SRC) == ["x"]
    ensures k >= 8 ==> Printed(Example(), After(k), FILTER) == [KEYED.line]
    ensures k >= 11 ==> Printed(Example(), After(k), COUNT) == [COUNTED.line]
  {
    SourcePrints();
    FilterPrints();
    CountPrints();
    InputsSoFar(k);
  }

  // ---------------------------------------------------------------- step by step

  /** A step that changes one task. */
  lemma {:induction false} OneSlot(k: nat, n: Node)
    requires n in After(k).slots
    requires forall x :: x in After(k).slots && x != n ==> After(k + 1).slots[x] == After(k).slots[x]
    ensures After(k).slots[n := After(k + 1).slots[n]] == After(k + 1).slots
  {
  }

  lemma {:induction false} PrintStep(k: nat)
    requires k in {0, 9, 13}
    ensures Next(Example(), After(k), Steps()[k]) == After(k + 1)
  {
    Printing(k);
    OneSlot(k, Steps()[k].node);
  }

  /** The line is pushed to the filter. */
  lemma {:induction false} LineStep(k: nat)
    requires k in {1, 2, 6}
    ensures Next(Example(), After(k), Steps()[k]) == After(k + 1)
  {
    assert [] + [E1] == [E1];
    assert MessageEntry(LINE) == E1 && Target(Example(), LINE) == FILTER;
    assert E1.id in Ids([E1]);
    assert Push(FilterAfter(k), Data(E1.id, E1.value), Steps()[k].outcome).task == FilterAfter(k + 1);
    OneSlot(k, FILTER);
  }

  /** What the filter printed is pushed to the count task. */
  lemma {:induction false} KeyedStep(k: nat)
    requires k in {10, 11}
    ensures Next(Example(), After(k), Steps()[k]) == After(k + 1)
  {
    KeyedEntry();
    assert [] + [E2] == [E2];
    assert Target(Example(), KEYED) == COUNT;
    assert Push(CountAfter(k), Data(E2.id, E2.value), Steps()[k].outcome).task == CountAfter(k + 1);
    OneSlot(k, COUNT);
  }

  lemma {:induction false} EosStep(k: nat)
    requires k in {8, 12}
    ensures Next(Example(), After(k), Steps()[k]) == After(k + 1)
  {
    Printing(k);
    OneSlot(k, if k < 10 then FILTER else COUNT);
  }

  lemma {:induction false} CrashStep(k: nat)
    requires k in {3, 4, 5, 7}
    ensures Next(Example(), After(k), Steps()[k]) == After(k + 1)
  {
    assert [] + [E1] == [E1];
    OneSlot(k, FILTER);
  }

  lemma {:induction false} RunTo(k: nat)
    requires k <= |Steps()|
    ensures Run(Example(), Steps()[..k]) == After(k)
  {
    if k == 0 {
      FirstState();
    } else {
      RunTo(k - 1);
      assert Steps()[..k][..k - 1] == Steps()[..k - 1];
      StepTo(k - 1);
    }
  }

  lemma {:induction false} StepTo(k: nat)
    requires k < |Steps()|
    ensures Next(Example(), After(k), Steps()[k]) == After(k + 1)
  {
    if k in {0, 9, 13} {
      PrintStep(k);
    } else if k in {1, 2, 6} {
      LineStep(k);
    } else if k in {10, 11} {
      KeyedStep(k);
    } else if k in {8, 12} {
      EosStep(k);
    } else {
      CrashStep(k);
    }
  }

  lemma {:induction false} NodeFinishes(n: Node)
    requires IsNode(Example(), n)
    ensures n in After(14).slots && Finished(Example(), After(14), n)
  {
    Printing(14);
  }

  lemma {:induction false} OneMatchingLine()
    ensures Matching(OneColumn(), "", 0, ["x"], "x") == 1
  {
    EmptyPattern("x");
    assert (set i | 0 <= i < |["x"]| && Contains(["x"][i], "") && HasKey(OneColumn(), 0, ["x"][i], "x")) == {0};
  }

  /** The run meets what FilterCountOutput asks for, and has the one line it promises. */
  lemma {:induction false} RunFinishes()
    ensures NoTabInKeys(OneColumn(), 0, "", multiset(["x"]))
    ensures LastStageFinished(Example(), Run(Example(), Steps())) && AllFinished(Example(), Run(Example(), Steps()))
    ensures OutputLines(Run(Example(), Steps()).output) == ["x: 1"]
    ensures Matching(OneColumn(), "", 0, ["x"], "x") == 1
  {
    RunTo(14);
    assert Steps()[..14] == Steps();
    assert Decimal(1) == "1" && CountLine("x", 1) == "x: 1";
    assert OutputLines([COUNTED]) == [CountLine("x", 1)];
    OneMatchingLine();
    forall n | IsNode(Example(), n) ensures n in After(14).slots && Finished(Example(), After(14), n) {
      NodeFinishes(n);
    }
  }
}
