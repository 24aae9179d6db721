/** Day 11: monkeys passing items around in rounds (src/days/day11.rs). */
module Day11 {
  import opened Wrappers
  import opened Text
  import opened Sorting

  /** `u32` values lie below U32. */
  const U32: nat := 0x1_0000_0000

  datatype Exp = Old | Int(value: nat)
  datatype Op = Add | Mul
  datatype Operation = Operation(first: Exp, op: Op, second: Exp)
  datatype Test = Test(divisible: nat, trueCase: nat, falseCase: nat)

  /** A monkey: the worry levels it holds (front first), its rules and how many items
      it has inspected. */
  datatype Monkey = Monkey(items: seq<nat>, op: Operation, test: Test, inspected: nat)

  function Operand(e: Exp, worry: nat): (v: nat)
    ensures e.Old? ==> v == worry
    ensures e.Int? ==> v == e.value
  {
    match e
    case Old => worry
    case Int(x) => x
  }

  /** `Operation::execute`: both operands, with the old value replaced by the worry level,
      added or multiplied. */
  function Execute(o: Operation, worry: nat): (v: nat)
    ensures o.op == Add ==> v == Operand(o.first, worry) + Operand(o.second, worry)
    ensures o.op == Mul ==> v == Operand(o.first, worry) * Operand(o.second, worry)
  {
    var a := Operand(o.first, worry);
    var b := Operand(o.second, worry);
    match o.op
    case Add => a + b
    case Mul => a * b
  }

  /** `Test::test`: where an item with this worry level is thrown. */
  function Target(t: Test, worry: nat): (m: nat)
    requires t.divisible > 0
    ensures m == t.trueCase || m == t.falseCase
    ensures t.trueCase != t.falseCase ==> (m == t.trueCase <==> worry % t.divisible == 0)
  {
    if worry % t.divisible == 0 then t.trueCase else t.falseCase
  }

  // Parsing

  /** `Exp::from_str`. */
  function ParseExp(s: string): (r: Option<Exp>)
    ensures r == Some(Old) <==> s == "old"
    ensures r.Some? && r.value.Int? ==> r.value.value < U32 && ParseUnsigned(s, U32) == Some(r.value.value)
    ensures s != "old" && ParseUnsigned(s, U32).Some? ==> r == Some(Int(ParseUnsigned(s, U32).value))
  {
    if s == "old" then Some(Old)
    else
      match ParseUnsigned(s, U32)
      case None => None
      case Some(x) => Some(Int(x))
  }

  /** `Op::from_str`: anything else is an error. */
  function ParseOp(s: string): (r: Option<Op>)
    ensures r == Some(Add) <==> s == "+"
    ensures r == Some(Mul) <==> s == "*"
    ensures r.None? <==> s != "+" && s != "*"
  {
    if s == "+" then Some(Add) else if s == "*" then Some(Mul) else None
  }

  function PrintExp(e: Exp): string {
    match e
    case Old => "old"
    case Int(x) => Decimal(x)
  }

  function PrintOp(o: Op): string {
    match o
    case Add => "+"
    case Mul => "*"
  }

  /** Printed operands and operators are read back. */
  lemma ExpRoundTrip(e: Exp)
    requires e.Int? ==> e.value < U32
    ensures ParseExp(PrintExp(e)) == Some(e)
  {
    if e.Int? {
      var d := Decimal(e.value);
      assert d != "old" by {
        assert IsDigit(d[0]);
      }
      assert d[0] != '+';
      DecimalRoundTrip(e.value);
    }
  }

  lemma OpRoundTrip(o: Op)
    ensures ParseOp(PrintOp(o)) == Some(o)
  {
  }

  function StripPrefix(s: string, prefix: string): (r: Option<string>)
    ensures r.Some? <==> StartsWith(s, prefix)
    ensures r.Some? ==> s == prefix + r.value
  {
    if StartsWith(s, prefix) then
      assert s == s[..|prefix|] + s[|prefix|..];
      Some(s[|prefix|..])
    else None
  }

  function Prefix(i: nat): string {
    if i == 1 then "Starting items:"
    else if i == 2 then "Operation: new ="
    else if i == 3 then "Test: divisible by"
    else if i == 4 then "If true: throw to monkey"
    else "If false: throw to monkey"
  }

  /** The `filter_map`: line `i` (from 1 to 5) with the prefix expected there removed and
      trimmed; lines without it are dropped. */
  function Attributes(lines: seq<string>, i: nat): (r: seq<string>)
    requires i >= 1
    ensures |r| <= |lines|
    decreases |lines|
  {
    if lines == [] || i > 5 then []
    else
      match StripPrefix(Trim(lines[0]), Prefix(i))
      case None => Attributes(lines[1..], i + 1)
      case Some(a) => [Trim(a)] + Attributes(lines[1..], i + 1)
  }

  function ParseNumbers(pieces: seq<string>): (r: Option<seq<nat>>)
    ensures r.Some? ==> |r.value| == |pieces|
    ensures r.Some? ==> forall k :: 0 <= k < |pieces| ==> ParseUnsigned(pieces[k], U32) == Some(r.value[k])
  {
    if pieces == [] then Some([])
    else
      match (ParseUnsigned(pieces[0], U32), ParseNumbers(pieces[1..]))
      case (Some(x), Some(xs)) => Some([x] + xs)
      case _ => None
  }

  function ParseOperation(s: string): Option<Operation> {
    var parts := SplitN(s, " ", 3);
    if |parts| < 3 then None
    else
      match (ParseExp(parts[0]), ParseOp(parts[1]), ParseExp(parts[2]))
      case (Some(a), Some(o), Some(b)) => Some(Operation(a, o, b))
      case _ => None
  }

  /** One block of the input: no monkey when one of the five attribute lines lacks its
      prefix (the `array_chunks::<5>` leaves no full chunk), `None` where the source's
      `unwrap` panics. */
  function ParseBlock(block: string): (r: Option<seq<Monkey>>)
    ensures r.Some? ==> |r.value| <= 1
  {
    var lines := SplitN(block, "\n", 6);
    var attrs := Attributes(lines[1..], 1);
    if |attrs| < 5 then Some([])
    else
      match (ParseNumbers(Split(attrs[0], ", ")), ParseOperation(attrs[1]),
             ParseUnsigned(attrs[2], U32), ParseUnsigned(attrs[3], U32), ParseUnsigned(attrs[4], U32))
      case (Some(items), Some(op), Some(d), Some(t), Some(f)) => Some([Monkey(items, op, Test(d, t, f), 0)])
      case _ => None
  }

  function ParseBlocks(blocks: seq<string>): (r: Option<seq<Monkey>>)
    ensures r.Some? ==> forall k :: 0 <= k < |r.value| ==> r.value[k].inspected == 0
    ensures r.Some? ==> |r.value| <= |blocks|
  {
    if blocks == [] then Some([])
    else
      match (ParseBlock(blocks[0]), ParseBlocks(blocks[1..]))
      case (Some(m), Some(ms)) => Some(m + ms)
      case _ => None
  }

  /** `parse`: the monkeys of the blocks separated by blank lines. */
  function Parse(input: string): Option<seq<Monkey>> {
    ParseBlocks(Split(input, "\n\n"))
  }

  // Rounds

  /** A test that divides by a positive number and throws to one of `n` monkeys. */
  predicate Usable(t: Test, n: nat) {
    t.divisible > 0 && t.trueCase < n && t.falseCase < n
  }

  /** Every throw reaches an existing monkey and no test divides by zero. */
  predicate Valid(ms: seq<Monkey>) {
    forall k :: 0 <= k < |ms| ==> Usable(ms[k].test, |ms|)
  }

  /** Two troops with the same number of monkeys and the same operations and tests. */
  predicate SameRules(a: seq<Monkey>, b: seq<Monkey>) {
    |a| == |b| && forall k :: 0 <= k < |a| ==> a[k].op == b[k].op && a[k].test == b[k].test
  }

  /** The throws of a monkey's turn, in the order it holds the items: each worry level
      after the operation and the division by 3, with its target. */
  function Throws(m: Monkey): (ts: seq<(nat, nat)>)
    requires m.test.divisible > 0
    ensures |ts| == |m.items|
  {
    seq(|m.items|, k requires 0 <= k < |m.items| =>
      (Target(m.test, Execute(m.op, m.items[k]) / 3), Execute(m.op, m.items[k]) / 3))
  }

  /** Item `k` is thrown with its new worry level, to the monkey its test names. */
  lemma ThrowsAt(m: Monkey, k: nat)
    requires m.test.divisible > 0 && k < |m.items|
    ensures var t := Throws(m)[k];
      t.1 == Execute(m.op, m.items[k]) / 3 && t.0 == Target(m.test, t.1) &&
      (t.0 == m.test.trueCase || t.0 == m.test.falseCase)
  {
  }

  /** The throws of a monkey whose targets exist go to existing monkeys. */
  lemma ThrowsTargets(m: Monkey, n: nat)
    requires m.test.divisible > 0 && m.test.trueCase < n && m.test.falseCase < n
    ensures Targets(Throws(m), n)
  {
    forall k | 0 <= k < |Throws(m)| ensures Throws(m)[k].0 < n {
      ThrowsAt(m, k);
    }
  }

  predicate Targets(ts: seq<(nat, nat)>, n: nat) {
    forall k :: 0 <= k < |ts| ==> ts[k].0 < n
  }

  /** The worry levels thrown to monkey `k`, in order. */
  function Received(ts: seq<(nat, nat)>, k: nat): seq<nat>
    decreases |ts|
  {
    if ts == [] then []
    else (if ts[0].0 == k then [ts[0].1] else []) + Received(ts[1..], k)
  }

  /** One throw: worry level `w` joins the back of monkey `t`'s queue. */
  function Give(ms: seq<Monkey>, t: nat, w: nat): (r: seq<Monkey>)
    requires t < |ms|
    ensures SameRules(ms, r)
  {
    ms[t := ms[t].(items := ms[t].items + [w])]
  }

  lemma GiveAt(ms: seq<Monkey>, t: nat, w: nat, k: nat)
    requires t < |ms| && k < |ms|
    ensures Give(ms, t, w)[k].items == ms[k].items + (if k == t then [w] else [])
    ensures Give(ms, t, w)[k].inspected == ms[k].inspected
  {
  }

  /** Appending the thrown items, one after the other, to their targets' queues. */
  function Deliver(ms: seq<Monkey>, ts: seq<(nat, nat)>): (r: seq<Monkey>)
    requires Targets(ts, |ms|)
    ensures SameRules(ms, r)
    decreases |ts|
  {
    if ts == [] then ms
    else Deliver(Give(ms, ts[0].0, ts[0].1), ts[1..])
  }

  /** Each queue grows by exactly the items thrown to it, in the order thrown, and
      no count changes. */
  lemma {:induction false} DeliverAt(ms: seq<Monkey>, ts: seq<(nat, nat)>, k: nat)
    requires Targets(ts, |ms|) && k < |ms|
    ensures Deliver(ms, ts)[k].items == ms[k].items + Received(ts, k)
    ensures Deliver(ms, ts)[k].inspected == ms[k].inspected
    decreases |ts|
  {
    if ts != [] {
      var (t, w) := ts[0];
      var after := Give(ms, t, w);
      DeliverAt(after, ts[1..], k);
      GiveAt(ms, t, w, k);
      var mine := if k == t then [w] else [];
      assert Received(ts, k) == mine + Received(ts[1..], k);
      assert Deliver(ms, ts)[k].items == (ms[k].items + mine) + Received(ts[1..], k);
    }
  }

  /** Monkey `i`'s turn: its items are thrown, its own queue emptied first, and its
      count of inspected items grows by their number. */
  function Turn(ms: seq<Monkey>, i: nat): (r: seq<Monkey>)
    requires Valid(ms) && i < |ms|
    ensures SameRules(ms, r) && Valid(r)
  {
    Deliver(Cleared(ms, i), Throws(ms[i]))
  }

  /** The thrower's state once it has inspected its items and before they land. */
  function Cleared(ms: seq<Monkey>, i: nat): (r: seq<Monkey>)
    requires Valid(ms) && i < |ms|
    ensures SameRules(ms, r) && Targets(Throws(ms[i]), |r|)
  {
    ThrowsTargets(ms[i], |ms|);
    ms[i := ms[i].(items := [], inspected := ms[i].inspected + |ms[i].items|)]
  }

  /** The first `n` turns of a round, in index order. */
  function Turns(ms: seq<Monkey>, n: nat): (r: seq<Monkey>)
    requires Valid(ms) && n <= |ms|
    ensures |r| == |ms| && Valid(r)
  {
    if n == 0 then ms
    else Turn(Turns(ms, n - 1), n - 1)
  }

  lemma TurnsUnfold(ms: seq<Monkey>, n: nat)
    requires Valid(ms) && 0 < n <= |ms|
    ensures Turns(ms, n) == Turn(Turns(ms, n - 1), n - 1)
  {
  }

  /** `round`: every monkey takes its turn once. */
  function Round(ms: seq<Monkey>): (r: seq<Monkey>)
    requires Valid(ms)
    ensures |r| == |ms| && Valid(r)
  {
    Turns(ms, |ms|)
  }

  function Rounds(ms: seq<Monkey>, n: nat): (r: seq<Monkey>)
    requires Valid(ms)
    ensures |r| == |ms| && Valid(r)
  {
    if n == 0 then ms else Round(Rounds(ms, n - 1))
  }

  /** Rounds change queues and counts only: every monkey keeps its operation and test. */
  lemma {:induction false} RoundsKeepRules(ms: seq<Monkey>, n: nat)
    requires Valid(ms)
    ensures SameRules(ms, Rounds(ms, n))
  {
    if n > 0 {
      RoundsKeepRules(ms, n - 1);
      TurnsKeepRules(Rounds(ms, n - 1), |ms|);
      SameRulesTrans(ms, Rounds(ms, n - 1), Rounds(ms, n));
    }
  }

  lemma {:induction false} TurnsKeepRules(ms: seq<Monkey>, n: nat)
    requires Valid(ms) && n <= |ms|
    ensures SameRules(ms, Turns(ms, n))
  {
    if n > 0 {
      TurnsKeepRules(ms, n - 1);
      SameRulesTrans(ms, Turns(ms, n - 1), Turns(ms, n));
    }
  }

  lemma SameRulesTrans(a: seq<Monkey>, b: seq<Monkey>, c: seq<Monkey>)
    requires SameRules(a, b) && SameRules(b, c)
    ensures SameRules(a, c)
  {
  }

  /** The number of items all monkeys hold. */
  function Total(ms: seq<Monkey>): nat
    decreases |ms|
  {
    if ms == [] then 0 else |ms[0].items| + Total(ms[1..])
  }

  lemma {:induction false} TotalUpdate(ms: seq<Monkey>, i: nat, m: Monkey)
    requires i < |ms|
    ensures Total(ms[i := m]) + |ms[i].items| == Total(ms) + |m.items|
    decreases |ms|
  {
    if i > 0 {
      assert ms[i := m][1..] == ms[1..][i - 1 := m];
      TotalUpdate(ms[1..], i - 1, m);
    } else {
      assert ms[i := m][1..] == ms[1..];
    }
  }

  lemma {:induction false} DeliverTotal(ms: seq<Monkey>, ts: seq<(nat, nat)>)
    requires Targets(ts, |ms|)
    ensures Total(Deliver(ms, ts)) == Total(ms) + |ts|
    decreases |ts|
  {
    if ts != [] {
      var (t, w) := ts[0];
      var after := Give(ms, t, w);
      assert after == ms[t := ms[t].(items := ms[t].items + [w])];
      TotalUpdate(ms, t, after[t]);
      DeliverTotal(after, ts[1..]);
    }
  }

  /** A turn moves items between queues and neither creates nor loses any. */
  lemma TurnPreservesTotal(ms: seq<Monkey>, i: nat)
    requires Valid(ms) && i < |ms|
    ensures Total(Turn(ms, i)) == Total(ms)
  {
    TotalUpdate(ms, i, Cleared(ms, i)[i]);
    DeliverTotal(Cleared(ms, i), Throws(ms[i]));
  }

  lemma {:induction false} TurnsPreserveTotal(ms: seq<Monkey>, n: nat)
    requires Valid(ms) && n <= |ms|
    ensures Total(Turns(ms, n)) == Total(ms)
  {
    if n > 0 {
      TurnsPreserveTotal(ms, n - 1);
      TurnsStepTotal(ms, n);
    }
  }

  lemma TurnsStepTotal(ms: seq<Monkey>, n: nat)
    requires Valid(ms) && 0 < n <= |ms|
    ensures Total(Turns(ms, n)) == Total(Turns(ms, n - 1))
  {
    TurnPreservesTotal(Turns(ms, n - 1), n - 1);
  }

  /** A round preserves the number of items in play. */
  lemma RoundPreservesTotal(ms: seq<Monkey>)
    requires Valid(ms)
    ensures Total(Round(ms)) == Total(ms)
  {
    TurnsPreserveTotal(ms, |ms|);
  }

  /** In a turn every queue but the thrower's grows by exactly the items thrown to it,
      in the order thrown; the thrower keeps only what it throws to itself. */
  lemma TurnQueues(ms: seq<Monkey>, i: nat, k: nat)
    requires Valid(ms) && i < |ms| && k < |ms|
    ensures Turn(ms, i)[k].items == (if k == i then [] else ms[k].items) + Received(Throws(ms[i]), k)
  {
    DeliverAt(Cleared(ms, i), Throws(ms[i]), k);
  }

  /** A turn adds the thrower's items to its count and leaves the other counts alone. */
  lemma TurnInspected(ms: seq<Monkey>, i: nat, k: nat)
    requires Valid(ms) && i < |ms| && k < |ms|
    ensures Turn(ms, i)[k].inspected == ms[k].inspected + if k == i then |ms[i].items| else 0
  {
    DeliverAt(Cleared(ms, i), Throws(ms[i]), k);
  }

  /** Turn `n - 1` of a round adds the items monkey `n - 1` held to its own count
      and leaves the other counts. */
  lemma TurnsStep(ms: seq<Monkey>, n: nat, k: nat)
    requires Valid(ms) && 0 < n <= |ms| && k < |ms|
    ensures Turns(ms, n)[k].inspected ==
      Turns(ms, n - 1)[k].inspected + if k == n - 1 then |Turns(ms, n - 1)[k].items| else 0
  {
    TurnInspected(Turns(ms, n - 1), n - 1, k);
  }

  /** Counts only grow during a round. */
  lemma {:induction false} TurnsInspected(ms: seq<Monkey>, n: nat, k: nat)
    requires Valid(ms) && n <= |ms| && k < |ms|
    ensures Turns(ms, n)[k].inspected >= ms[k].inspected
  {
    if n > 0 {
      TurnsInspected(ms, n - 1, k);
      TurnsStep(ms, n, k);
    }
  }

  /** The counts of monkeys yet to move do not change. */
  lemma {:induction false} TurnsLeaveLater(ms: seq<Monkey>, n: nat, k: nat)
    requires Valid(ms) && n <= k < |ms|
    ensures Turns(ms, n)[k].inspected == ms[k].inspected
  {
    if n > 0 {
      TurnsLeaveLater(ms, n - 1, k);
      TurnsStep(ms, n, k);
    }
  }

  /** A round never lowers a monkey's count. */
  lemma RoundInspectedGrows(ms: seq<Monkey>, k: nat)
    requires Valid(ms) && k < |ms|
    ensures Round(ms)[k].inspected >= ms[k].inspected
  {
    TurnsInspected(ms, |ms|, k);
  }

  function Inspected(ms: seq<Monkey>): (r: seq<int>)
    ensures |r| == |ms| && forall k :: 0 <= k < |ms| ==> r[k] == ms[k].inspected
  {
    seq(|ms|, k requires 0 <= k < |ms| => ms[k].inspected)
  }

  /** The two largest entries multiplied; `None` for fewer than two, where the source's
      slice `[0..2]` panics. */
  function TopTwoProduct(counts: seq<int>): Option<int> {
    var sorted := SortDesc(counts);
    if |sorted| < 2 then None else Some(sorted[0] * sorted[1])
  }

  /** The product's factors: the largest entry, and the largest of the rest once one
      copy of it is removed. */
  lemma TopTwoMeaning(counts: seq<int>)
    requires |counts| >= 2
    ensures var sorted := SortDesc(counts);
      TopTwoProduct(counts) == Some(sorted[0] * sorted[1]) &&
      sorted[0] in counts && (forall k :: 0 <= k < |counts| ==> counts[k] <= sorted[0]) &&
      sorted[1] in multiset(counts) - multiset{sorted[0]} &&
      forall x :: x in multiset(counts) - multiset{sorted[0]} ==> x <= sorted[1]
  {
    SortDescFirstIsMax(counts);
    SecondLargest(SortDesc(counts), counts);
  }

  lemma SecondLargest(sorted: seq<int>, counts: seq<int>)
    requires SortedDesc(sorted) && multiset(sorted) == multiset(counts) && |sorted| >= 2
    ensures sorted[1] in multiset(counts) - multiset{sorted[0]}
    ensures forall x :: x in multiset(counts) - multiset{sorted[0]} ==> x <= sorted[1]
  {
    MultisetTail(sorted);
    var rest := sorted[1..];
    assert rest[0] == sorted[1];
    assert rest[0] in multiset(rest);
    forall x | x in multiset(rest) ensures x <= sorted[1] {
      var k :| 0 <= k < |rest| && rest[k] == x;
      assert sorted[k + 1] == x;
    }
  }

  /** The monkeys, updated in place round after round. */
  class Troop {
    var monkeys: seq<Monkey>

    constructor(ms: seq<Monkey>)
      ensures monkeys == ms
    {
      monkeys := ms;
    }

    /** Appends each thrown item, in order, to its target's queue. */
    method ThrowAll(throws: seq<(nat, nat)>)
      requires Targets(throws, |monkeys|)
      modifies this
      ensures monkeys == Deliver(old(monkeys), throws)
    {
      ghost var start := monkeys;
      var j := 0;
      while j < |throws|
        invariant 0 <= j <= |throws| && |monkeys| == |start|
        invariant Deliver(monkeys, throws[j..]) == Deliver(start, throws)
      {
        var (t, w) := throws[j];
        assert throws[j..][1..] == throws[j + 1..];
        monkeys := monkeys[t := monkeys[t].(items := monkeys[t].items + [w])];
        j := j + 1;
      }
      assert throws[j..] == [];
    }

    /** `round`, mutating the queues and counts one throw at a time. */
    method PlayRound()
      requires Valid(monkeys)
      modifies this
      ensures monkeys == Round(old(monkeys))
    {
      ghost var start := monkeys;
      var i := 0;
      while i < |monkeys|
        invariant 0 <= i <= |start| && Valid(start)
        invariant monkeys == Turns(start, i)
      {
        TakeTurn(i);
        TurnsUnfold(start, i + 1);
        i := i + 1;
      }
    }

    /** Monkey `i` inspects and throws all its items. */
    method TakeTurn(i: nat)
      requires Valid(monkeys) && i < |monkeys|
      modifies this
      ensures monkeys == Turn(old(monkeys), i)
    {
      var m := monkeys[i];
      var throws := Throws(m);
      monkeys := monkeys[i := m.(items := [], inspected := m.inspected + |throws|)];
      assert monkeys == Cleared(old(monkeys), i);
      ThrowAll(throws);
    }

    /** `n` rounds in a row. */
    method PlayRounds(n: nat)
      requires Valid(monkeys)
      modifies this
      ensures monkeys == Rounds(old(monkeys), n)
    {
      ghost var start := monkeys;
      var k := 0;
      while k < n
        invariant 0 <= k <= n && Valid(monkeys)
        invariant monkeys == Rounds(start, k)
      {
        PlayRound();
        k := k + 1;
      }
    }
  }

  /** `part1`: twenty rounds, then the product of the two highest counts. Requires the
      rules to be usable (see `Valid`). */
  method Part1(data: seq<Monkey>) returns (r: Option<int>)
    requires Valid(data)
    ensures r == TopTwoProduct(Inspected(Rounds(data, 20)))
  {
    var troop := new Troop(data);
    troop.PlayRounds(20);
    var ms := troop.monkeys;
    var counts := seq(|ms|, k requires 0 <= k < |ms| => ms[k].inspected);
    assert counts == Inspected(ms);
    var sorted := SortDesc(counts);
    if |sorted| < 2 {
      r := None;
    } else {
      r := Some(sorted[0] * sorted[1]);
    }
  }
}
