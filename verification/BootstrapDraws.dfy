/** Which pairs the bootstrap draws, said on the state words and the pairs alone. */
module BootstrapDraws {
  import opened Text
  import opened Selection
  import opened Sorting
  import opened SuiteCompare
  import opened Bootstrap

  // ---- state words ----

  /** Three shifts, each mixed into the word. */
  predicate Mixes(x: bv64, a: bv64, b: bv64, y: bv64) {
    a == x ^ (x << 13) && b == a ^ (a >> 7) && y == b ^ (b << 17)
  }

  ghost predicate Follows(x: bv64, y: bv64) {
    exists a, b :: Mixes(x, a, b, y)
  }

  lemma {:induction false} StepFollows(x: bv64)
    ensures Follows(x, XorShift.Step(x))
  {
    var a := XorShift.Left13(x);
    var b := XorShift.Right7(a);
    StepMixes(x, a, b, XorShift.Left17(b));
  }

  lemma {:induction false} StepMixes(x: bv64, a: bv64, b: bv64, y: bv64)
    requires a == XorShift.Left13(x) && b == XorShift.Right7(a) && y == XorShift.Left17(b)
    ensures Mixes(x, a, b, y)
  {
    XorShift.Left13Is(x, a);
    XorShift.Right7Is(a, b);
    XorShift.Left17Is(b, y);
  }

  ghost predicate Chain(words: seq<bv64>) {
    forall k :: 0 <= k < |words| - 1 ==> Follows(words[k], words[k + 1])
  }

  // ---- groups ----

  ghost function OfTask(pairs: seq<Pair>, task: string): nat -> bool {
    (i: nat) => i < |pairs| && pairs[i].base.taskId == task
  }

  ghost predicate PickedAt(pairs: seq<Pair>, at: seq<nat>, group: seq<Pair>) {
    |group| == |at| && forall k :: 0 <= k < |at| ==> at[k] < |pairs| && group[k] == pairs[at[k]]
  }

  /** The group holds the task's pairs in order. */
  ghost predicate IsGroup(pairs: seq<Pair>, task: string, group: seq<Pair>) {
    exists at: seq<nat> :: Picks(at, |pairs|, OfTask(pairs, task)) && PickedAt(pairs, at, group)
  }

  lemma {:induction false} GroupTo(pairs: seq<Pair>, task: string, n: nat) returns (at: seq<nat>)
    requires n <= |pairs|
    ensures Picks(at, n, OfTask(pairs, task)) && PickedAt(pairs, at, ForTask(pairs[..n], task))
  {
    if n == 0 {
      at := [];
    } else {
      var before := GroupTo(pairs, task, n - 1);
      at := GroupNext(pairs, task, n - 1, before);
    }
  }

  lemma {:induction false} GroupNext(pairs: seq<Pair>, task: string, n: nat, before: seq<nat>) returns (at: seq<nat>)
    requires n < |pairs| && Picks(before, n, OfTask(pairs, task))
    requires PickedAt(pairs, before, ForTask(pairs[..n], task))
    ensures Picks(at, n + 1, OfTask(pairs, task)) && PickedAt(pairs, at, ForTask(pairs[..n + 1], task))
  {
    at := if OfTask(pairs, task)(n) then before + [n] else before;
    PicksNext(before, n, OfTask(pairs, task));
    GroupAdded(pairs, task, n, before);
  }

  lemma {:induction false} GroupAdded(pairs: seq<Pair>, task: string, n: nat, at: seq<nat>)
    requires n < |pairs| && PickedAt(pairs, at, ForTask(pairs[..n], task))
    ensures PickedAt(pairs, if OfTask(pairs, task)(n) then at + [n] else at, ForTask(pairs[..n + 1], task))
  {
    assert pairs[..n + 1] == pairs[..n] + [pairs[n]];
    SumsOfSnoc(pairs[..n], pairs[n]);
    assert ForTask(pairs[..n], task) + [] == ForTask(pairs[..n], task);
  }

  /** One group for every task of the pairs, tasks in ascending order. */
  ghost predicate AreGroups(pairs: seq<Pair>, groups: seq<seq<Pair>>) {
    exists tasks: seq<string> :: TasksOf(pairs, tasks) && GroupedBy(pairs, tasks, groups)
  }

  ghost predicate TasksOf(pairs: seq<Pair>, tasks: seq<string>) {
    Ascending(tasks) && forall task :: task in tasks <==> HasTask(pairs, task)
  }

  ghost predicate HasTask(pairs: seq<Pair>, task: string) {
    exists i :: 0 <= i < |pairs| && pairs[i].base.taskId == task
  }

  ghost predicate GroupedBy(pairs: seq<Pair>, tasks: seq<string>, groups: seq<seq<Pair>>) {
    |groups| == |tasks| && forall g :: 0 <= g < |tasks| ==> IsGroup(pairs, tasks[g], groups[g])
  }

  lemma {:induction false} TaskIdsAre(pairs: seq<Pair>)
    ensures TasksOf(pairs, SortedKeys(TaskIdsOf(pairs)))
  {
    var tasks := SortedKeys(TaskIdsOf(pairs));
    forall task ensures task in tasks <==> HasTask(pairs, task) {
      if HasTask(pairs, task) {
        var i :| 0 <= i < |pairs| && pairs[i].base.taskId == task;
        assert TaskIdsOf(pairs)[i] == task;
      }
    }
  }

  lemma {:induction false} GroupsAre(pairs: seq<Pair>)
    ensures AreGroups(pairs, Groups(pairs))
  {
    var tasks := SortedKeys(TaskIdsOf(pairs));
    TaskIdsAre(pairs);
    forall g | 0 <= g < |tasks| ensures IsGroup(pairs, tasks[g], Groups(pairs)[g]) {
      var at := GroupTo(pairs, tasks[g], |pairs|);
      assert pairs[..|pairs|] == pairs;
    }
    assert GroupedBy(pairs, tasks, Groups(pairs));
  }

  // ---- one group ----

  /** The `k`th draw takes the pair that the word after `words[k]` points at. */
  ghost predicate Drawn(group: seq<Pair>, words: seq<bv64>, draws: seq<Pair>) {
    && group != [] && |words| == |draws| + 1 && Chain(words)
    && forall k :: 0 <= k < |draws| ==> draws[k] == group[(words[k + 1] as int) % |group|]
  }

  /** The draws change the state by their amounts and their words. */
  ghost predicate Adds(from: Bootstrap.Drawn, to: Bootstrap.Drawn, words: seq<bv64>, draws: seq<Pair>) {
    && words != [] && words[0] == from.state && words[|words| - 1] == to.state
    && to.baseline == from.baseline + InputOf(draws) && to.candidate == from.candidate + CandidateInputOf(draws)
  }

  /** The total input of the baselines. */
  function InputOf(draws: seq<Pair>): nat {
    if draws == [] then 0 else draws[0].base.totalInput + InputOf(draws[1..])
  }

  function CandidateInputOf(draws: seq<Pair>): nat {
    if draws == [] then 0 else draws[0].cand.totalInput + CandidateInputOf(draws[1..])
  }

  lemma {:induction false} InputsAdd(a: seq<Pair>, b: seq<Pair>)
    ensures InputOf(a + b) == InputOf(a) + InputOf(b)
    ensures CandidateInputOf(a + b) == CandidateInputOf(a) + CandidateInputOf(b)
  {
    if a == [] {
      assert a + b == b;
    } else {
      InputsAdd(a[1..], b);
      assert (a + b)[1..] == a[1..] + b;
    }
  }

  lemma {:induction false} OneInput(p: Pair)
    ensures InputOf([p]) == p.base.totalInput && CandidateInputOf([p]) == p.cand.totalInput
  {
  }

  lemma {:induction false} DrawnPairs(group: seq<Pair>, n: nat, from: Bootstrap.Drawn)
    returns (words: seq<bv64>, draws: seq<Pair>)
    requires group != []
    ensures Drawn(group, words, draws) && |draws| == n && Adds(from, DrawPairs(group, n, from), words, draws)
  {
    if n == 0 {
      words, draws := [from.state], [];
    } else {
      words, draws := DrawnPairs(group, n - 1, from);
      var d := DrawPairs(group, n - 1, from);
      var state := XorShift.Step(d.state);
      StepFollows(d.state);
      var pair := group[(state as int) % |group|];
      DrawnNext(group, words, draws, from, d, state, pair);
      words, draws := words + [state], draws + [pair];
    }
  }

  lemma {:induction false} DrawnNext(group: seq<Pair>, words: seq<bv64>, draws: seq<Pair>, from: Bootstrap.Drawn,
                                     d: Bootstrap.Drawn, state: bv64, pair: Pair)
    requires Drawn(group, words, draws) && Adds(from, d, words, draws) && Follows(d.state, state)
    requires pair == group[(state as int) % |group|]
    ensures Drawn(group, words + [state], draws + [pair])
    ensures Adds(from, Bootstrap.Drawn(d.baseline + pair.base.totalInput, d.candidate + pair.cand.totalInput, state),
                 words + [state], draws + [pair])
  {
    InputsAdd(draws, [pair]);
    OneInput(pair);
  }

  // ---- one sample ----

  /** From each of the first groups as many draws as the group has pairs. */
  ghost predicate DrawnByGroup(groups: seq<seq<Pair>>, words: seq<seq<bv64>>, draws: seq<seq<Pair>>) {
    && |words| == |draws| <= |groups|
    && forall g :: 0 <= g < |draws| ==> |draws[g]| == |groups[g]| && Drawn(groups[g], words[g], draws[g])
  }

  /** The words of each group go on where those of the one before end. */
  ghost predicate Linked(words: seq<seq<bv64>>, from: bv64, to: bv64)
    decreases |words|
  {
    if words == [] then from == to
    else
      var n := |words| - 1;
      words[n] != [] && words[n][|words[n]| - 1] == to && Linked(words[..n], from, words[n][0])
  }

  function Flat(draws: seq<seq<Pair>>): seq<Pair> {
    if draws == [] then [] else Flat(draws[..|draws| - 1]) + draws[|draws| - 1]
  }

  lemma {:induction false} LinkedNext(words: seq<seq<bv64>>, last: seq<bv64>, from: bv64, to: bv64)
    requires last != [] && Linked(words, from, last[0]) && last[|last| - 1] == to
    ensures Linked(words + [last], from, to)
  {
    assert (words + [last])[..|words|] == words;
  }

  lemma {:induction false} FlatNext(draws: seq<seq<Pair>>, taken: seq<Pair>)
    ensures InputOf(Flat(draws + [taken])) == InputOf(Flat(draws)) + InputOf(taken)
    ensures CandidateInputOf(Flat(draws + [taken])) == CandidateInputOf(Flat(draws)) + CandidateInputOf(taken)
  {
    assert (draws + [taken])[..|draws|] == draws;
    InputsAdd(Flat(draws), taken);
  }

  /** The draws lead from one state to the other. */
  ghost predicate Leads(from: Bootstrap.Drawn, to: Bootstrap.Drawn, words: seq<seq<bv64>>, draws: seq<seq<Pair>>) {
    && Linked(words, from.state, to.state) && to.baseline == from.baseline + InputOf(Flat(draws))
    && to.candidate == from.candidate + CandidateInputOf(Flat(draws))
  }

  lemma {:induction false} LeadsOn(from: Bootstrap.Drawn, mid: Bootstrap.Drawn, to: Bootstrap.Drawn,
                                   words: seq<seq<bv64>>, draws: seq<seq<Pair>>, last: seq<bv64>, taken: seq<Pair>)
    requires Leads(from, mid, words, draws) && Adds(mid, to, last, taken)
    ensures Leads(from, to, words + [last], draws + [taken])
  {
    LinkedNext(words, last, from.state, to.state);
    FlatNext(draws, taken);
  }

  lemma {:induction false} DrawnGroups(groups: seq<seq<Pair>>, n: nat, from: Bootstrap.Drawn)
    returns (words: seq<seq<bv64>>, draws: seq<seq<Pair>>)
    requires n <= |groups| && forall k :: 0 <= k < |groups| ==> groups[k] != []
    ensures DrawnByGroup(groups, words, draws) && |draws| == n
    ensures Leads(from, DrawGroups(groups, n, from), words, draws)
  {
    if n == 0 {
      words, draws := [], [];
    } else {
      words, draws := DrawnGroups(groups, n - 1, from);
      var mid := DrawGroups(groups, n - 1, from);
      var last, taken := DrawnPairs(groups[n - 1], |groups[n - 1]|, mid);
      LeadsOn(from, mid, DrawGroups(groups, n, from), words, draws, last, taken);
      words, draws := words + [last], draws + [taken];
    }
  }

  /** A sample: the savings of the draws from all groups. */
  ghost predicate IsSample(pairs: seq<Pair>, sample: real, from: bv64, to: bv64) {
    exists groups, words, draws :: SampleOf(pairs, sample, from, to, groups, words, draws)
  }

  ghost predicate SampleOf(pairs: seq<Pair>, sample: real, from: bv64, to: bv64, groups: seq<seq<Pair>>,
                           words: seq<seq<bv64>>, draws: seq<seq<Pair>>) {
    && AreGroups(pairs, groups) && DrawnByGroup(groups, words, draws) && |draws| == |groups| && Linked(words, from, to)
    && InputOf(Flat(draws)) > 0
    && sample == (InputOf(Flat(draws)) as real - CandidateInputOf(Flat(draws)) as real) / InputOf(Flat(draws)) as real
  }

  lemma {:induction false} DrawAllIsSample(pairs: seq<Pair>, state: bv64)
    requires PositiveBaselines(pairs)
    ensures var d := DrawAll(pairs, state);
            d.baseline > 0 && IsSample(pairs, Savings(d.baseline, d.candidate), state, d.state)
  {
    GroupsHoldPairs(pairs);
    GroupsAre(pairs);
    DrawAllInRange(pairs, state);
    var d := DrawAll(pairs, state);
    var words, draws := DrawnGroups(Groups(pairs), |Groups(pairs)|, Bootstrap.Drawn(0, 0, state));
    IsSampleOf(pairs, d, state, Groups(pairs), words, draws);
  }

  lemma {:induction false} IsSampleOf(pairs: seq<Pair>, d: Bootstrap.Drawn, from: bv64, groups: seq<seq<Pair>>,
                                      words: seq<seq<bv64>>, draws: seq<seq<Pair>>)
    requires AreGroups(pairs, groups) && DrawnByGroup(groups, words, draws) && |draws| == |groups| && d.baseline > 0
    requires Leads(Bootstrap.Drawn(0, 0, from), d, words, draws)
    ensures IsSample(pairs, Savings(d.baseline, d.candidate), from, d.state)
  {
    assert SampleOf(pairs, Savings(d.baseline, d.candidate), from, d.state, groups, words, draws);
  }

  // ---- all samples ----

  /** Sample `i` is drawn from word `at[i]` and leaves word `at[i + 1]`. */
  ghost predicate AllSamples(pairs: seq<Pair>, samples: seq<real>, at: seq<bv64>) {
    |at| == |samples| + 1 && forall i :: 0 <= i < |samples| ==> IsSample(pairs, samples[i], at[i], at[i + 1])
  }

  /** The samples are drawn one after the other from the seed word, or from a constant
      if the seed is zero. */
  lemma {:induction false} SamplesAreDrawn(pairs: seq<Pair>, n: nat, seed: bv64) returns (at: seq<bv64>)
    requires PositiveBaselines(pairs)
    ensures var (samples, last) := Samples(pairs, n, XorShift.Seeded(seed));
            |samples| == n && AllSamples(pairs, samples, at) && at[n] == last
    ensures at[0] == if seed == 0 then 0x9e37_79b9_7f4a_7c15 else seed
  {
    if n == 0 {
      at := [XorShift.Seeded(seed)];
    } else {
      at := SamplesAreDrawn(pairs, n - 1, seed);
      var (samples, now) := Samples(pairs, n - 1, XorShift.Seeded(seed));
      DrawAllIsSample(pairs, now);
      var d := DrawAll(pairs, now);
      SampleAdded(pairs, samples, at, Savings(d.baseline, d.candidate), d.state);
      at := at + [d.state];
    }
  }

  lemma {:induction false} SampleAdded(pairs: seq<Pair>, samples: seq<real>, at: seq<bv64>, sample: real, next: bv64)
    requires AllSamples(pairs, samples, at) && IsSample(pairs, sample, at[|samples|], next)
    ensures AllSamples(pairs, samples + [sample], at + [next])
  {
  }

  /** 10,000 samples, drawn one after the other from the seed word or from a constant if
      it is zero, and the 250th and the 9,750th of them in ascending order. */
  ghost predicate IntervalOf(pairs: seq<Pair>, seed: bv64, r: Interval, samples: seq<real>, at: seq<bv64>,
                             sorted: seq<real>) {
    && |samples| == |sorted| == 10_000 && AllSamples(pairs, samples, at)
    && at[0] == (if seed == 0 then 0x9e37_79b9_7f4a_7c15 else seed)
    && multiset(sorted) == multiset(samples) && SortedReals(sorted)
    && r == Interval(sorted[249], sorted[9_749])
  }

  lemma {:induction false} SortedSize(samples: seq<real>)
    ensures |SortReals(samples)| == |samples| && SortedReals(SortReals(samples))
    ensures forall x :: x in SortReals(samples) ==> x in samples
  {
    SortMembers(samples, RealLess);
    SortRealsSorts(samples);
  }

  lemma {:induction false} IntervalIs(pairs: seq<Pair>, seed: bv64, r: Interval, samples: seq<real>, sorted: seq<real>)
    requires PositiveBaselines(pairs) && |samples| == 10_000
    requires samples == Samples(pairs, |samples|, XorShift.Seeded(seed)).0
    requires sorted == SortReals(samples) && |sorted| == 10_000 && r == Interval(sorted[249], sorted[9_749])
    ensures IsBootstrap(pairs, seed, r)
    ensures r.lower <= r.upper && SavingsBounded(pairs, r.lower) && SavingsBounded(pairs, r.upper)
  {
    SortedSize(samples);
    SortRealsSorts(samples);
    SamplesBounded(pairs, |samples|, XorShift.Seeded(seed));
    var at := SamplesAreDrawn(pairs, |samples|, seed);
    assert IntervalOf(pairs, seed, r, samples, at, sorted);
    assert sorted[249] in sorted && sorted[9_749] in sorted;
  }

  /** Some such samples give this interval. */
  ghost predicate IsBootstrap(pairs: seq<Pair>, seed: bv64, r: Interval) {
    exists samples, at, sorted :: IntervalOf(pairs, seed, r, samples, at, sorted)
  }

  /** `bootstrap_interval`, for a seed word: two order statistics of the samples. Both
      lie between the least and the greatest paired savings, in order. */
  method BootstrapInterval(pairs: seq<Pair>, seed: bv64) returns (r: Interval)
    requires PositiveBaselines(pairs)
    ensures IsBootstrap(pairs, seed, r)
    ensures r.lower <= r.upper
    ensures SavingsBounded(pairs, r.lower) && SavingsBounded(pairs, r.upper)
  {
    var rng := new XorShift.XorShift64(seed);
    var samples := DrawSamples(rng, pairs, 10_000);
    var sorted := SortReals(samples);
    SortedSize(samples);
    r := Interval(sorted[249], sorted[9_749]);
    IntervalIs(pairs, seed, r, samples, sorted);
  }

  /** The sampling loop. */
  method DrawSamples(rng: XorShift.XorShift64, pairs: seq<Pair>, count: nat) returns (samples: seq<real>)
    requires PositiveBaselines(pairs)
    modifies rng
    ensures |samples| == count && (samples, rng.state) == Samples(pairs, count, old(rng.state))
  {
    samples := [];
    var n := 0;
    while n < count
      invariant |samples| == n <= count && (samples, rng.state) == Samples(pairs, n, old(rng.state))
    {
      var sample := DrawSample(rng, pairs);
      samples := samples + [sample];
      n := n + 1;
    }
  }
}
