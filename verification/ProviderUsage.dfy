/** Provider token usage as the multi-agent receipt and the host receipt parse,
    compare and add it up. */
module ProviderUsage {
  import opened Wrappers

  const U64_MAX := 0xffff_ffff_ffff_ffff

  type u64 = n: nat | n <= U64_MAX

  /** The fields of a usage object; `None` when missing or not an unsigned integer. */
  datatype RawUsage = RawUsage(input: Option<u64>, cached: Option<u64>, output: Option<u64>, reasoning: Option<u64>,
                               total: Option<u64>)

  /** Six amounts; `UsageReceipt` is the form whose fields fit u64. */
  datatype Amounts = Amounts(totalInput: nat, uncachedInput: nat, cacheRead: nat, output: nat, reasoning: nat,
                             nonReasoning: nat)

  predicate Fits(u: Amounts) {
    && u.totalInput <= U64_MAX && u.uncachedInput <= U64_MAX && u.cacheRead <= U64_MAX
    && u.output <= U64_MAX && u.reasoning <= U64_MAX && u.nonReasoning <= U64_MAX
  }

  const ZERO := Amounts(0, 0, 0, 0, 0, 0)

  type UsageReceipt = u: Amounts | Fits(u) witness ZERO

  datatype UsageError =
    | Overflow
    | MissingInput
    | MissingCached
    | MissingOutput
    | MissingReasoning
    | MissingTotal
    | Inconsistent

  function CheckedAdd64(a: u64, b: u64): Result<u64, UsageError> {
    if a + b <= U64_MAX then Ok(a + b) else Err(Overflow)
  }

  // ---- codex_multi_agent_receipt.rs ----

  /** `UsageReceipt::parse` */
  function Parse(raw: RawUsage): Result<UsageReceipt, UsageError> {
    if raw.input.None? then Err(MissingInput)
    else if raw.cached.None? then Err(MissingCached)
    else if raw.output.None? then Err(MissingOutput)
    else if raw.reasoning.None? then Err(MissingReasoning)
    else if raw.total.None? then Err(MissingTotal)
    else if raw.cached.value > raw.input.value || raw.reasoning.value > raw.output.value
            || CheckedAdd64(raw.input.value, raw.output.value) != Ok(raw.total.value) then
      Err(Inconsistent)
    else
      var usage: UsageReceipt :=
        Amounts(raw.input.value, raw.input.value - raw.cached.value, raw.cached.value,
                raw.output.value, raw.reasoning.value, raw.output.value - raw.reasoning.value);
      Ok(usage)
  }

  /** `UsageReceipt::checked_add` */
  function CheckedAdd(a: UsageReceipt, b: UsageReceipt): Result<UsageReceipt, UsageError> {
    var totalInput :- CheckedAdd64(a.totalInput, b.totalInput);
    var uncachedInput :- CheckedAdd64(a.uncachedInput, b.uncachedInput);
    var cacheRead :- CheckedAdd64(a.cacheRead, b.cacheRead);
    var output :- CheckedAdd64(a.output, b.output);
    var reasoning :- CheckedAdd64(a.reasoning, b.reasoning);
    var nonReasoning :- CheckedAdd64(a.nonReasoning, b.nonReasoning);
    var sum: UsageReceipt := Amounts(totalInput, uncachedInput, cacheRead, output, reasoning, nonReasoning);
    Ok(sum)
  }

  /** `UsageReceipt::is_monotonic_after` */
  predicate MonotonicAfter(current: Amounts, previous: Amounts) {
    && current.totalInput >= previous.totalInput
    && current.uncachedInput >= previous.uncachedInput
    && current.cacheRead >= previous.cacheRead
    && current.output >= previous.output
    && current.reasoning >= previous.reasoning
    && current.nonReasoning >= previous.nonReasoning
  }

  // ---- codex_host_receipt.rs ----

  datatype UsageNumbers = UsageNumbers(input: u64, cached: u64, output: u64, reasoning: u64, total: u64)

  /** `parse_usage` */
  function ParseNumbers(raw: RawUsage): Result<UsageNumbers, UsageError> {
    if raw.input.None? then Err(MissingInput)
    else if raw.cached.None? then Err(MissingCached)
    else if raw.output.None? then Err(MissingOutput)
    else if raw.reasoning.None? then Err(MissingReasoning)
    else if raw.total.None? then Err(MissingTotal)
    else
      var usage := UsageNumbers(raw.input.value, raw.cached.value, raw.output.value, raw.reasoning.value,
                                raw.total.value);
      if usage.cached > usage.input || usage.reasoning > usage.output
         || CheckedAdd64(usage.input, usage.output) != Ok(usage.total) then
        Err(Inconsistent)
      else Ok(usage)
  }

  /** The test of `validate_monotonic_usage`. */
  predicate NumbersMonotonic(previous: UsageNumbers, current: UsageNumbers) {
    && current.input >= previous.input
    && current.cached >= previous.cached
    && current.output >= previous.output
    && current.reasoning >= previous.reasoning
    && current.total >= previous.total
  }

  datatype HostUsage = HostUsage(uncachedInput: u64, cacheRead: u64, output: u64, reasoning: u64)

  /** `usage_receipt`; `None` is its "cached input exceeds total input" error. */
  function HostUsageReceipt(usage: UsageNumbers): Option<HostUsage> {
    if usage.input < usage.cached then None
    else Some(HostUsage(usage.input - usage.cached, usage.cached, usage.output, usage.reasoning))
  }

  // ---- what parsing guarantees ----

  /** Cached and uncached make up the input, reasoning and the rest the output. */
  predicate Balanced(u: Amounts) {
    u.totalInput == u.uncachedInput + u.cacheRead && u.output == u.reasoning + u.nonReasoning
  }

  /** The object holds these amounts: all five fields are there, the cached input is
      part of the input and the reasoning part of the output, and the total is both. */
  predicate Reads(raw: RawUsage, u: Amounts) {
    && raw.input == Some(u.totalInput) && raw.cached == Some(u.cacheRead)
    && raw.output == Some(u.output) && raw.reasoning == Some(u.reasoning)
    && raw.total == Some(u.totalInput + u.output)
    && u.totalInput == u.uncachedInput + u.cacheRead && u.output == u.reasoning + u.nonReasoning
  }

  /** The parser reads exactly the objects that hold some amounts, as those amounts. */
  lemma {:induction false} ParseIff(raw: RawUsage, u: UsageReceipt)
    ensures Parse(raw) == Ok(u) <==> Reads(raw, u)
  {
  }

  /** Both parsers accept the same objects, and read the same amounts. */
  lemma {:induction false} ParsersAgree(raw: RawUsage)
    ensures Parse(raw).Ok? <==> ParseNumbers(raw).Ok?
    ensures Parse(raw).Ok? ==>
              var u, n := Parse(raw).value, ParseNumbers(raw).value;
              Balanced(u) && u.totalInput == n.input && u.cacheRead == n.cached && u.output == n.output
              && u.reasoning == n.reasoning && u.totalInput + u.output == n.total
              && HostUsageReceipt(n) == Some(HostUsage(u.uncachedInput, u.cacheRead, u.output, u.reasoning))
  {
  }

  /** On parsed snapshots this monotonicity test is the host's test plus two
      conditions the host does not check. */
  lemma {:induction false} MonotonicityCompared(first: RawUsage, second: RawUsage)
    requires Parse(first).Ok? && Parse(second).Ok?
    ensures MonotonicAfter(Parse(second).value, Parse(first).value) <==>
            NumbersMonotonic(ParseNumbers(first).value, ParseNumbers(second).value)
            && Parse(second).value.uncachedInput >= Parse(first).value.uncachedInput
            && Parse(second).value.nonReasoning >= Parse(first).value.nonReasoning
  {
    ParsersAgree(first);
    ParsersAgree(second);
  }

  /** Strictly stronger: the host lets uncached input fall. */
  lemma {:induction false} HostTestIsWeaker() returns (first: RawUsage, second: RawUsage)
    ensures Parse(first).Ok? && Parse(second).Ok?
    ensures NumbersMonotonic(ParseNumbers(first).value, ParseNumbers(second).value)
    ensures !MonotonicAfter(Parse(second).value, Parse(first).value)
  {
    first := RawUsage(Some(1), Some(0), Some(0), Some(0), Some(1));
    second := RawUsage(Some(1), Some(1), Some(0), Some(0), Some(1));
  }

  // ---- the family sum ----

  function Plus(a: Amounts, b: Amounts): Amounts {
    Amounts(a.totalInput + b.totalInput, a.uncachedInput + b.uncachedInput, a.cacheRead + b.cacheRead,
            a.output + b.output, a.reasoning + b.reasoning, a.nonReasoning + b.nonReasoning)
  }

  /** The exact, unbounded sum. */
  function Total(threads: seq<Amounts>): Amounts {
    if threads == [] then ZERO else Plus(Total(threads[..|threads| - 1]), threads[|threads| - 1])
  }

  ghost function SumOver(threads: seq<Amounts>, amount: Amounts -> nat): nat {
    if threads == [] then 0 else amount(threads[0]) + SumOver(threads[1..], amount)
  }

  /** Each amount of the total is the sum of that amount over the threads. */
  lemma {:induction false} TotalIs(threads: seq<Amounts>)
    ensures var t := Total(threads);
            && t.totalInput == SumOver(threads, (u: Amounts) => u.totalInput)
            && t.uncachedInput == SumOver(threads, (u: Amounts) => u.uncachedInput)
            && t.cacheRead == SumOver(threads, (u: Amounts) => u.cacheRead)
            && t.output == SumOver(threads, (u: Amounts) => u.output)
            && t.reasoning == SumOver(threads, (u: Amounts) => u.reasoning)
            && t.nonReasoning == SumOver(threads, (u: Amounts) => u.nonReasoning)
  {
    if threads != [] {
      var front, last := threads[..|threads| - 1], threads[|threads| - 1];
      TotalIs(front);
      assert threads == front + [last];
      SumSnoc(front, last, (u: Amounts) => u.totalInput);
      SumSnoc(front, last, (u: Amounts) => u.uncachedInput);
      SumSnoc(front, last, (u: Amounts) => u.cacheRead);
      SumSnoc(front, last, (u: Amounts) => u.output);
      SumSnoc(front, last, (u: Amounts) => u.reasoning);
      SumSnoc(front, last, (u: Amounts) => u.nonReasoning);
    }
  }

  lemma {:induction false} SumSnoc(threads: seq<Amounts>, last: Amounts, amount: Amounts -> nat)
    ensures SumOver(threads + [last], amount) == SumOver(threads, amount) + amount(last)
  {
    if threads == [] {
      assert threads + [last] == [last] && [last][1..] == [];
    } else {
      SumSnoc(threads[1..], last, amount);
      assert (threads + [last])[1..] == threads[1..] + [last];
    }
  }

  lemma {:induction false} TotalGrows(threads: seq<Amounts>, n: nat)
    requires n <= |threads|
    ensures MonotonicAfter(Total(threads), Total(threads[..n]))
    decreases |threads| - n
  {
    if n == |threads| {
      assert threads[..n] == threads;
    } else {
      assert threads[..n + 1][..n] == threads[..n];
      TotalGrows(threads, n + 1);
    }
  }

  /** The `family_usage` loop of `build_receipt`: it succeeds exactly when the
      exact sums fit, and then yields them. */
  method FamilyUsage(threads: seq<UsageReceipt>) returns (r: Result<UsageReceipt, UsageError>)
    ensures r.Ok? <==> Fits(Total(threads))
    ensures r.Ok? ==> r.value == Total(threads)
  {
    var usage: UsageReceipt := ZERO;
    var n := 0;
    while n < |threads|
      invariant n <= |threads| && usage == Total(threads[..n])
    {
      assert threads[..n + 1][..n] == threads[..n];
      TotalGrows(threads, n + 1);
      var next := CheckedAdd(usage, threads[n]);
      if next.Err? {
        return Err(next.error);
      }
      usage := next.value;
      n := n + 1;
    }
    assert threads[..n] == threads;
    r := Ok(usage);
  }

  lemma {:induction false} TotalBalanced(threads: seq<Amounts>)
    requires forall i :: 0 <= i < |threads| ==> Balanced(threads[i])
    ensures Balanced(Total(threads))
  {
    if threads != [] {
      TotalBalanced(threads[..|threads| - 1]);
    }
  }

  lemma {:induction false} TotalWithout(threads: seq<Amounts>, i: nat)
    requires i < |threads|
    ensures Total(threads) == Plus(Total(threads[..i] + threads[i + 1..]), threads[i])
  {
    var n := |threads| - 1;
    if i == n {
      assert threads[..i] + threads[i + 1..] == threads[..n];
    } else {
      TotalWithout(threads[..n], i);
      var rest := threads[..i] + threads[i + 1..];
      assert rest[..|rest| - 1] == threads[..n][..i] + threads[..n][i + 1..];
      assert rest[|rest| - 1] == threads[n];
    }
  }

  lemma {:induction false} TotalOfPermutation(a: seq<Amounts>, b: seq<Amounts>)
    requires multiset(a) == multiset(b)
    ensures Total(a) == Total(b)
  {
    if a == [] {
      assert |multiset(b)| == |b|;
    } else {
      var n := |a| - 1;
      assert a == a[..n] + [a[n]];
      assert a[n] in multiset(b);
      var i :| 0 <= i < |b| && b[i] == a[n];
      assert b == b[..i] + [b[i]] + b[i + 1..];
      assert multiset(b) == multiset(b[..i]) + multiset{b[i]} + multiset(b[i + 1..]);
      assert multiset(a[..n]) == multiset(a) - multiset{a[n]};
      assert multiset(b[..i] + b[i + 1..]) == multiset(b[..i]) + multiset(b[i + 1..]);
      TotalOfPermutation(a[..n], b[..i] + b[i + 1..]);
      TotalWithout(b, i);
    }
  }

  lemma {:induction false} BalancedFits(u: Amounts)
    requires Balanced(u)
    ensures Fits(u) <==> u.totalInput <= U64_MAX && u.output <= U64_MAX
  {
  }

  /** For parsed usage the checked sum succeeds exactly when the exact input and
      output totals fit u64, in whatever order the threads come, and the sum is
      balanced again. */
  lemma {:induction false} FamilySumFitsIff(threads: seq<Amounts>, reordered: seq<Amounts>)
    requires forall i :: 0 <= i < |threads| ==> Balanced(threads[i])
    requires multiset(threads) == multiset(reordered)
    ensures Total(reordered) == Total(threads) && Balanced(Total(threads))
    ensures Fits(Total(reordered)) <==>
            Total(threads).totalInput <= 0xffff_ffff_ffff_ffff && Total(threads).output <= 0xffff_ffff_ffff_ffff
  {
    TotalBalanced(threads);
    BalancedFits(Total(threads));
    TotalOfPermutation(threads, reordered);
  }
}
