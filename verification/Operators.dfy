/**
 * Operators as line transducers. An operator is given by what it prints for a line after
 * a history of earlier lines; every deterministic program that reads lines and prints
 * after each of them has this form.
 */
module Operators {
  import opened Sequences
  import opened Text

  type Emit = (seq<string>, string) -> seq<string>

  /** The result of the CSV reader on one line; None is a parse error. */
  type Csv = string -> Option<seq<string>>

  /** Everything the operator prints for the given input. */
  function Out(emit: Emit, lines: seq<string>): seq<string> {
    if lines == [] then [] else
      var n := |lines| - 1;
      Out(emit, lines[..n]) + emit(lines[..n], lines[n])
  }

  lemma {:induction false} OutSnoc(emit: Emit, lines: seq<string>, x: string)
    ensures Out(emit, lines + [x]) == Out(emit, lines) + emit(lines, x)
  {
  }

  /** More input never changes what was printed before. */
  lemma {:induction false} OutMonotone(emit: Emit, a: seq<string>, b: seq<string>)
    ensures Out(emit, a) <= Out(emit, a + b)
    decreases |b|
  {
    if b == [] {
      assert a + b == a;
    } else {
      var n := |b| - 1;
      OutMonotone(emit, a, b[..n]);
      assert (a + b)[..|a + b| - 1] == a + b[..n];
    }
  }

  lemma {:induction false} OutPrefix(emit: Emit, a: seq<string>, b: seq<string>)
    requires a <= b
    ensures Out(emit, a) <= Out(emit, b)
  {
    OutMonotone(emit, a, b[|a|..]);
    assert a + b[|a|..] == b;
  }

  /** The printed lines, as a multiset, depend only on the multiset of input lines. */
  ghost predicate OrderInsensitive(emit: Emit) {
    forall xs, ys :: Permutation(xs, ys) ==> Permutation(Out(emit, xs), Out(emit, ys))
  }

  // ---------------------------------------------------------------- operators without state

  ghost predicate Stateless(emit: Emit) {
    forall history, line :: emit(history, line) == emit([], line)
  }

  lemma {:induction false} OutConcat(emit: Emit, a: seq<string>, b: seq<string>)
    requires Stateless(emit)
    ensures Out(emit, a + b) == Out(emit, a) + Out(emit, b)
    decreases |b|
  {
    if b == [] {
      assert a + b == a;
    } else {
      var n := |b| - 1;
      OutConcat(emit, a, b[..n]);
      assert (a + b)[..|a + b| - 1] == a + b[..n];
      assert emit(a + b[..n], b[n]) == emit(b[..n], b[n]);
    }
  }

  lemma {:induction false} OutSingle(emit: Emit, x: string)
    ensures Out(emit, [x]) == emit([], x)
  {
  }

  lemma {:induction false} OutRemove(emit: Emit, s: seq<string>, k: nat)
    requires Stateless(emit) && k < |s|
    ensures multiset(Out(emit, s)) == multiset(Out(emit, Remove(s, k))) + multiset(emit([], s[k]))
  {
    assert s == s[..k] + ([s[k]] + s[k + 1..]);
    OutConcat(emit, s[..k], [s[k]] + s[k + 1..]);
    OutConcat(emit, [s[k]], s[k + 1..]);
    OutConcat(emit, s[..k], s[k + 1..]);
    OutSingle(emit, s[k]);
    var before, line, after := Out(emit, s[..k]), emit([], s[k]), Out(emit, s[k + 1..]);
    assert Out(emit, s) == before + (line + after);
    assert Out(emit, Remove(s, k)) == before + after;
    BagOfThree(before, line, after);
  }

  lemma {:induction false} BagOfThree<T>(a: seq<T>, b: seq<T>, c: seq<T>)
    ensures multiset(a + (b + c)) == multiset(a + c) + multiset(b)
  {
  }

  lemma {:induction false} StatelessPermutation(emit: Emit, a: seq<string>, b: seq<string>)
    requires Stateless(emit) && Permutation(a, b)
    ensures Permutation(Out(emit, a), Out(emit, b))
    decreases |a|
  {
    if a == [] {
      assert |multiset(b)| == 0;
    } else {
      var n := |a| - 1;
      assert a == a[..n] + [a[n]];
      assert a[n] in multiset(b);
      var k :| 0 <= k < |b| && b[k] == a[n];
      MultisetCancel(multiset(Remove(b, k)), multiset(a[..n]), a[n]);
      StatelessPermutation(emit, a[..n], Remove(b, k));
      OutRemove(emit, b, k);
      assert emit(a[..n], a[n]) == emit([], a[n]);
    }
  }

  lemma {:induction false} StatelessIsOrderInsensitive(emit: Emit)
    requires Stateless(emit)
    ensures OrderInsensitive(emit)
  {
    forall xs, ys | Permutation(xs, ys) ensures Permutation(Out(emit, xs), Out(emit, ys)) {
      StatelessPermutation(emit, xs, ys);
    }
  }

  function Identity(): Emit {
    (history, line) => [line]
  }

  lemma {:induction false} OutIdentity(lines: seq<string>)
    ensures Out(Identity(), lines) == lines
  {
    if lines != [] {
      OutIdentity(lines[..|lines| - 1]);
    }
  }

  // ---------------------------------------------------------------- op1: filter

  /** record[col], or "" when the line does not parse or is too short. */
  function Column(csv: Csv, col: nat, line: string): string {
    match csv(line)
    case None => ""
    case Some(record) => if col < |record| then record[col] else ""
  }

  /** "Key\tLine" with a column argument, the bare line without. */
  function FilterEmit(csv: Csv, pattern: string, col: Option<nat>): Emit {
    (history, line) =>
      if !Contains(line, pattern) then []
      else if col.Some? then [Column(csv, col.value, line) + "\t" + line]
      else [line]
  }

  /** The key is the field of the line's record, and empty if the line has no such field. */
  predicate HasKey(csv: Csv, col: nat, line: string, key: string) {
    if csv(line).Some? && col < |csv(line).value| then key == csv(line).value[col] else key == ""
  }

  lemma {:induction false} KeyIsColumn(csv: Csv, col: nat, line: string, key: string)
    ensures HasKey(csv, col, line, key) <==> key == Column(csv, col, line)
  {
  }

  /** The lines with the pattern. */
  function MatchingLines(pattern: string, lines: seq<string>): seq<string> {
    if lines == [] then [] else
      var n := |lines| - 1;
      MatchingLines(pattern, lines[..n]) + if Contains(lines[n], pattern) then [lines[n]] else []
  }

  /** Every line with the pattern is printed, in order, as it is or behind its key and a tab. */
  ghost predicate Filtered(csv: Csv, pattern: string, col: Option<nat>, lines: seq<string>, printed: seq<string>) {
    var matching := MatchingLines(pattern, lines);
    && |printed| == |matching|
    && forall i :: 0 <= i < |matching| ==>
         if col.None? then printed[i] == matching[i]
         else forall key :: HasKey(csv, col.value, matching[i], key) ==> printed[i] == key + "\t" + matching[i]
  }

  lemma {:induction false} FilterPrintsMatching(csv: Csv, pattern: string, col: Option<nat>, lines: seq<string>)
    ensures Filtered(csv, pattern, col, lines, Out(FilterEmit(csv, pattern, col), lines))
  {
    if lines != [] {
      var n := |lines| - 1;
      FilterPrintsMatching(csv, pattern, col, lines[..n]);
      if col.Some? {
        forall key | HasKey(csv, col.value, lines[n], key) ensures key == Column(csv, col.value, lines[n]) {
          KeyIsColumn(csv, col.value, lines[n], key);
        }
      }
    }
  }

  lemma {:induction false} FilterIsOrderInsensitive(csv: Csv, pattern: string, col: Option<nat>)
    ensures OrderInsensitive(FilterEmit(csv, pattern, col))
  {
    StatelessIsOrderInsensitive(FilterEmit(csv, pattern, col));
  }

  method ReadColumn(csv: Csv, col: nat, line: string) returns (key: string)
    ensures key == Column(csv, col, line)
  {
    key := "";
    var record := csv(line);
    if record.Some? && col < |record.value| {
      key := record.value[col];
    }
  }

  method RunFilter(csv: Csv, pattern: string, col: Option<nat>, input: seq<string>)
    returns (printed: seq<string>)
    ensures printed == Out(FilterEmit(csv, pattern, col), input)
    ensures Filtered(csv, pattern, col, input, printed)
  {
    printed := [];
    for i := 0 to |input|
      invariant printed == Out(FilterEmit(csv, pattern, col), input[..i])
    {
      var line := input[i];
      assert input[..i + 1][..i] == input[..i];
      if Contains(line, pattern) {
        if col.Some? {
          var key := ReadColumn(csv, col.value, line);
          printed := printed + [key + "\t" + line];
        } else {
          printed := printed + [line];
        }
      }
    }
    assert input[..|input|] == input;
    FilterPrintsMatching(csv, pattern, col, input);
  }

  // ---------------------------------------------------------------- op3: transform

  /** The first three fields of a line, as the CSV writer prints them; nothing for a line that has fewer, or does
      not parse. */
  function TransformEmit(csv: Csv, write: seq<string> -> string): Emit {
    (history, line) =>
      match csv(line)
      case None => []
      case Some(record) => if |record| >= 3 then [write(record[..3])] else []
  }

  method RunTransform(csv: Csv, write: seq<string> -> string, input: seq<string>) returns (printed: seq<string>)
    ensures printed == Out(TransformEmit(csv, write), input)
    ensures Transformed(csv, write, input, printed)
  {
    printed := [];
    for i := 0 to |input|
      invariant printed == Out(TransformEmit(csv, write), input[..i])
    {
      assert input[..i + 1][..i] == input[..i];
      var record := csv(input[i]);
      if record.Some? && |record.value| >= 3 {
        var outputFields := record.value[..3];
        printed := printed + [write(outputFields)];
      }
    }
    assert input[..|input|] == input;
    TransformPrintsFields(csv, write, input);
  }

  /** The records of three fields and more. */
  function LongRecords(csv: Csv, lines: seq<string>): seq<seq<string>> {
    if lines == [] then [] else
      var n := |lines| - 1;
      LongRecords(csv, lines[..n]) +
        if csv(lines[n]).Some? && |csv(lines[n]).value| >= 3 then [csv(lines[n]).value] else []
  }

  /** Each of them is printed by its first three fields. */
  predicate Transformed(csv: Csv, write: seq<string> -> string, lines: seq<string>, printed: seq<string>) {
    var records := LongRecords(csv, lines);
    && |printed| == |records|
    && forall i :: 0 <= i < |records| ==>
         |records[i]| >= 3 && printed[i] == write([records[i][0], records[i][1], records[i][2]])
  }

  lemma {:induction false} TransformPrintsFields(csv: Csv, write: seq<string> -> string, lines: seq<string>)
    ensures Transformed(csv, write, lines, Out(TransformEmit(csv, write), lines))
  {
    if lines != [] {
      var n := |lines| - 1;
      TransformPrintsFields(csv, write, lines[..n]);
      if csv(lines[n]).Some? && |csv(lines[n]).value| >= 3 {
        var record := csv(lines[n]).value;
        assert record[..3] == [record[0], record[1], record[2]];
      }
    }
  }

  // ---------------------------------------------------------------- op2: count

  function CountLine(key: string, n: nat): string {
    key + ": " + Decimal(n)
  }

  lemma {:induction false} CountLineInjective(k: string, m: nat, l: string, n: nat)
    requires CountLine(k, m) == CountLine(l, n)
    ensures k == l && m == n
  {
    assert k + ": " == (k + ":") + [' '] && l + ": " == (l + ":") + [' '];
    SplitAtLastSeparator(k + ":", m, l + ":", n, ' ');
    assert (k + ":")[..|k|] == k && (l + ":")[..|l|] == l;
  }

  /** How many of the lines carry the key. */
  function Occurrences(keyOf: string -> string, key: string, lines: seq<string>): nat {
    multiset(Map(keyOf, lines))[key]
  }

  function CountEmit(keyOf: string -> string): Emit {
    (history, line) => [CountLine(keyOf(line), Occurrences(keyOf, keyOf(line), history) + 1)]
  }

  function KeyColumn(csv: Csv, col: nat): string -> string {
    line => Column(csv, col, line)
  }

  /** The counts table after the given input. */
  ghost predicate Tallied(keyOf: string -> string, counts: map<string, nat>, lines: seq<string>) {
    forall k :: Occurrences(keyOf, k, lines) == if k in counts then counts[k] else 0
  }

  lemma {:induction false} TallyOne(keyOf: string -> string, counts: map<string, nat>, lines: seq<string>, x: string)
    requires Tallied(keyOf, counts, lines)
    ensures Tallied(keyOf, counts[keyOf(x) := Occurrences(keyOf, keyOf(x), lines) + 1], lines + [x])
  {
    MapMultisetSnoc(keyOf, lines, x);
  }

  /** The counts table and the printed lines after the given input. */
  ghost predicate Counted(
    keyOf: string -> string, counts: map<string, nat>, printed: seq<string>, lines: seq<string>)
  {
    Tallied(keyOf, counts, lines) && printed == Out(CountEmit(keyOf), lines)
  }

  lemma {:induction false} CountNext(
    keyOf: string -> string, counts: map<string, nat>, printed: seq<string>, lines: seq<string>, x: string,
    counts': map<string, nat>)
    requires Counted(keyOf, counts, printed, lines)
    requires counts' == counts[keyOf(x) := (if keyOf(x) in counts then counts[keyOf(x)] else 0) + 1]
    ensures Counted(keyOf, counts', printed + [CountLine(keyOf(x), counts'[keyOf(x)])], lines + [x])
  {
    OutSnoc(CountEmit(keyOf), lines, x);
    TallyOne(keyOf, counts, lines, x);
  }

  lemma {:induction false} NothingCounted(keyOf: string -> string)
    ensures Counted(keyOf, map[], [], [])
  {
  }

  method RunCount(csv: Csv, col: nat, input: seq<string>) returns (printed: seq<string>)
    ensures printed == Out(CountEmit(KeyColumn(csv, col)), input)
    ensures AllCount(csv, col, input, printed)
  {
    ghost var keyOf := KeyColumn(csv, col);
    var counts: map<string, nat> := map[];
    printed := [];
    NothingCounted(keyOf);
    for i := 0 to |input|
      invariant Counted(keyOf, counts, printed, input[..i])
    {
      var line := input[i];
      assert input[..i + 1] == input[..i] + [line];
      var key := ReadColumn(csv, col, line);
      assert key == keyOf(line);
      ghost var before := counts;
      counts := counts[key := (if key in counts then counts[key] else 0) + 1];
      CountNext(keyOf, before, printed, input[..i], line, counts);
      printed := printed + [CountLine(key, counts[key])];
    }
    assert input[..|input|] == input;
    CountPrintsPlaces(csv, col, input);
  }

  /** The places of the lines with the key. */
  function Places(csv: Csv, col: nat, lines: seq<string>, key: string): set<nat> {
    set k: nat | k < |lines| && HasKey(csv, col, lines[k], key)
  }

  lemma {:induction false} PlacesNext(csv: Csv, col: nat, lines: seq<string>, n: nat, key: string)
    requires n < |lines|
    ensures |Places(csv, col, lines[..n + 1], key)| ==
      |Places(csv, col, lines[..n], key)| + if HasKey(csv, col, lines[n], key) then 1 else 0
  {
    var before, after := Places(csv, col, lines[..n], key), Places(csv, col, lines[..n + 1], key);
    if HasKey(csv, col, lines[n], key) {
      assert after == before + {n};
    } else {
      assert after == before;
    }
  }

  lemma {:induction false} OccurrencesArePlaces(csv: Csv, col: nat, lines: seq<string>, key: string)
    ensures Occurrences(KeyColumn(csv, col), key, lines) == |Places(csv, col, lines, key)|
  {
    if lines == [] {
      assert Places(csv, col, lines, key) == {} && Map(KeyColumn(csv, col), lines) == [];
    } else {
      var n := |lines| - 1;
      assert lines[..n + 1] == lines[..n] + [lines[n]] == lines;
      OccurrencesArePlaces(csv, col, lines[..n], key);
      MapMultisetSnoc(KeyColumn(csv, col), lines[..n], lines[n]);
      KeyIsColumn(csv, col, lines[n], key);
      PlacesNext(csv, col, lines, n, key);
    }
  }

  /** The line printed after line i: its key, and how many of the lines so far have that key. */
  ghost predicate CountsAt(csv: Csv, col: nat, lines: seq<string>, i: nat, printed: string) {
    i < |lines| && forall key :: HasKey(csv, col, lines[i], key) ==>
      printed == CountLine(key, |Places(csv, col, lines[..i + 1], key)|)
  }

  ghost predicate AllCount(csv: Csv, col: nat, lines: seq<string>, printed: seq<string>) {
    |printed| == |lines| && forall i: nat :: i < |lines| ==> CountsAt(csv, col, lines, i, printed[i])
  }

  lemma {:induction false} CountPrintsPlaces(csv: Csv, col: nat, lines: seq<string>)
    ensures AllCount(csv, col, lines, Out(CountEmit(KeyColumn(csv, col)), lines))
  {
    if lines != [] {
      var n := |lines| - 1;
      var emit, front := CountEmit(KeyColumn(csv, col)), lines[..n];
      CountPrintsPlaces(csv, col, front);
      assert lines == front + [lines[n]];
      OutSnoc(emit, front, lines[n]);
      LastCounts(csv, col, lines);
      AllCountNext(csv, col, lines, Out(emit, front), emit(front, lines[n])[0]);
    }
  }

  lemma {:induction false} AllCountNext(csv: Csv, col: nat, lines: seq<string>, before: seq<string>, printed: string)
    requires lines != [] && AllCount(csv, col, lines[..|lines| - 1], before)
    requires CountsAt(csv, col, lines, |lines| - 1, printed)
    ensures AllCount(csv, col, lines, before + [printed])
  {
    var n := |lines| - 1;
    forall i: nat | i < n ensures CountsAt(csv, col, lines, i, before[i]) {
      assert CountsAt(csv, col, lines[..n], i, before[i]);
      assert lines[..n][..i + 1] == lines[..i + 1];
    }
  }

  lemma {:induction false} LastCounts(csv: Csv, col: nat, lines: seq<string>)
    requires lines != []
    ensures var n := |lines| - 1;
      CountsAt(csv, col, lines, n, CountEmit(KeyColumn(csv, col))(lines[..n], lines[n])[0])
  {
    var n := |lines| - 1;
    forall key | HasKey(csv, col, lines[n], key)
      ensures CountEmit(KeyColumn(csv, col))(lines[..n], lines[n]) ==
        [CountLine(key, |Places(csv, col, lines[..n + 1], key)|)]
    {
      LastPrinted(csv, col, lines, key);
    }
  }

  lemma {:induction false} LastPrinted(csv: Csv, col: nat, lines: seq<string>, key: string)
    requires lines != [] && HasKey(csv, col, lines[|lines| - 1], key)
    ensures var n := |lines| - 1;
      CountEmit(KeyColumn(csv, col))(lines[..n], lines[n]) ==
        [CountLine(key, |Places(csv, col, lines[..n + 1], key)|)]
  {
    var n := |lines| - 1;
    KeyIsColumn(csv, col, lines[n], key);
    OccurrencesArePlaces(csv, col, lines[..n], key);
    PlacesNext(csv, col, lines, n, key);
  }

  lemma {:induction false} CountMultiplicity(keyOf: string -> string, lines: seq<string>, key: string, n: nat)
    ensures multiset(Out(CountEmit(keyOf), lines))[CountLine(key, n)]
         == if 1 <= n <= Occurrences(keyOf, key, lines) then 1 else 0
  {
    if lines != [] {
      var m := |lines| - 1;
      var x := lines[m];
      assert lines == lines[..m] + [x];
      CountMultiplicity(keyOf, lines[..m], key, n);
      MapMultisetSnoc(keyOf, lines[..m], x);
      PrintsNext(keyOf, lines[..m], x, key, n);
    }
  }

  lemma {:induction false} PrintsNext(keyOf: string -> string, lines: seq<string>, x: string, key: string, n: nat)
    ensures multiset(Out(CountEmit(keyOf), lines + [x]))[CountLine(key, n)]
         == multiset(Out(CountEmit(keyOf), lines))[CountLine(key, n)]
            + if keyOf(x) == key && Occurrences(keyOf, key, lines) + 1 == n then 1 else 0
  {
    var before := Occurrences(keyOf, keyOf(x), lines);
    var printed := CountLine(keyOf(x), before + 1);
    OutSnoc(CountEmit(keyOf), lines, x);
    MultisetOfSnoc(Out(CountEmit(keyOf), lines), printed);
    if printed == CountLine(key, n) {
      CountLineInjective(keyOf(x), before + 1, key, n);
    }
  }

  lemma {:induction false} CountPrintsCountLines(keyOf: string -> string, lines: seq<string>, s: string)
    requires s in Out(CountEmit(keyOf), lines)
    ensures exists key, n :: s == CountLine(key, n)
  {
    if lines != [] && s in Out(CountEmit(keyOf), lines[..|lines| - 1]) {
      CountPrintsCountLines(keyOf, lines[..|lines| - 1], s);
    }
  }

  lemma {:induction false} CountIsOrderInsensitive(keyOf: string -> string)
    ensures OrderInsensitive(CountEmit(keyOf))
  {
    var emit := CountEmit(keyOf);
    forall xs, ys | Permutation(xs, ys) ensures Permutation(Out(emit, xs), Out(emit, ys)) {
      MapPermutation(keyOf, xs, ys);
      forall s ensures multiset(Out(emit, xs))[s] == multiset(Out(emit, ys))[s] {
        if s in Out(emit, xs) || s in Out(emit, ys) {
          if s in Out(emit, xs) {
            CountPrintsCountLines(keyOf, xs, s);
          } else {
            CountPrintsCountLines(keyOf, ys, s);
          }
          var key, n :| s == CountLine(key, n);
          CountMultiplicity(keyOf, xs, key, n);
          CountMultiplicity(keyOf, ys, key, n);
        }
      }
    }
  }
}
