/** Day 1: calories carried by each elf (src/days/day1.rs). */
module Day01 {
  import opened Wrappers
  import opened Text
  import opened Sorting

  /** The parsed input: `calories` holds every number of the input in order and
      `elves` the end offset into it of each elf's group. */
  datatype Parsed = Parsed(elves: seq<int>, calories: seq<int>)

  const U32: nat := 0x1_0000_0000

  /** The numbers of the lines that parse as `u32`, in order (the `filter_map`). */
  function Calories(lines: seq<string>): seq<int>
    decreases |lines|
  {
    if lines == [] then []
    else
      var init := Calories(lines[..|lines| - 1]);
      match ParseUnsigned(lines[|lines| - 1], U32)
      case None => init
      case Some(v) => init + [v]
  }

  function EmptyCount(lines: seq<string>): nat
    decreases |lines|
  {
    if lines == [] then 0
    else EmptyCount(lines[..|lines| - 1]) + if lines[|lines| - 1] == [] then 1 else 0
  }

  function NonEmptyCount(lines: seq<string>): nat
    decreases |lines|
  {
    if lines == [] then 0
    else NonEmptyCount(lines[..|lines| - 1]) + if lines[|lines| - 1] == [] then 0 else 1
  }

  /** For each empty line, the number of non-empty lines before it. */
  function Boundaries(lines: seq<string>): seq<int>
    decreases |lines|
  {
    if lines == [] then []
    else
      var init := lines[..|lines| - 1];
      Boundaries(init) + if lines[|lines| - 1] == [] then [NonEmptyCount(init)] else []
  }

  lemma {:induction false} CountsAddUp(lines: seq<string>)
    ensures EmptyCount(lines) + NonEmptyCount(lines) == |lines|
    ensures |Boundaries(lines)| == EmptyCount(lines)
    decreases |lines|
  {
    if lines != [] {
      CountsAddUp(lines[..|lines| - 1]);
    }
  }

  /** Every non-empty line is a `u32`. */
  predicate AllParse(lines: seq<string>) {
    forall i :: 0 <= i < |lines| ==> lines[i] == [] || ParseUnsigned(lines[i], U32).Some?
  }

  /** Group end offsets the slicing in `part1` and `part2` accepts: they never go
      backwards and never pass the end of `calories`. */
  predicate ValidEnds(ends: seq<int>, n: int) {
    (forall e :: 0 <= e < |ends| ==> 0 <= ends[e] <= n) &&
    (forall e, f :: 0 <= e < f < |ends| ==> ends[e] <= ends[f])
  }

  /** When every non-empty line is a number, the offsets that `parse` records count
      exactly the numbers before each blank line, so they form valid groups. */
  lemma {:induction false} WellFormedBoundaries(lines: seq<string>)
    requires AllParse(lines)
    ensures |Calories(lines)| == NonEmptyCount(lines)
    ensures ValidEnds(Boundaries(lines) + [|Calories(lines)|], |Calories(lines)|)
    decreases |lines|
  {
    if lines != [] {
      var init := lines[..|lines| - 1];
      assert AllParse(init) by {
        forall i | 0 <= i < |init| ensures init[i] == [] || ParseUnsigned(init[i], U32).Some? {
          assert init[i] == lines[i];
        }
      }
      WellFormedBoundaries(init);
      assert lines[|lines| - 1] == [] || ParseUnsigned(lines[|lines| - 1], U32).Some?;
      if lines[|lines| - 1] == [] {
        assert ParseUnsigned(lines[|lines| - 1], U32).None?;
      }
      var b := Boundaries(init) + [|Calories(init)|];
      var n := |Calories(lines)|;
      assert |Calories(init)| <= n;
      var ends := Boundaries(lines) + [n];
      if lines[|lines| - 1] == [] {
        assert ends == b + [n];
      } else {
        assert ends == Boundaries(init) + [n];
        assert forall e :: 0 <= e < |Boundaries(init)| ==> Boundaries(init)[e] == b[e];
      }
    }
  }

  /** `parse`: one pass over the lines of the input; a blank line at index `i`
      records `i - elves.len()` as an elf's end, every line that parses as `u32`
      is kept, and the number of kept values closes the last elf. */
  method Parse(input: string) returns (p: Parsed)
    ensures p.calories == Calories(Split(input, "\n"))
    ensures p.elves == Boundaries(Split(input, "\n")) + [|p.calories|]
  {
    var lines := Split(input, "\n");
    var elves: seq<int> := [];
    var calories: seq<int> := [];
    var i := 0;
    while i < |lines|
      invariant 0 <= i <= |lines|
      invariant calories == Calories(lines[..i])
      invariant elves == Boundaries(lines[..i])
    {
      assert lines[..i + 1][..i] == lines[..i];
      CountsAddUp(lines[..i]);
      var val := ParseUnsigned(lines[i], U32);
      if lines[i] == [] {
        elves := elves + [i - |elves|];
      }
      if val.Some? {
        calories := calories + [val.value];
      }
      i := i + 1;
    }
    assert lines[..i] == lines;
    elves := elves + [|calories|];
    p := Parsed(elves, calories);
  }

  function Sum(s: seq<int>): int
    decreases |s|
  {
    if s == [] then 0 else s[0] + Sum(s[1..])
  }

  /** The total of each elf's group, the groups running from the previous end (first
      `start`) to the next; `None` where a slice would be out of range. */
  function GroupSums(ends: seq<int>, calories: seq<int>, start: int): Option<seq<int>>
    decreases |ends|
  {
    if ends == [] then Some([])
    else if !(0 <= start <= ends[0] <= |calories|) then None
    else
      match GroupSums(ends[1..], calories, ends[0])
      case None => None
      case Some(rest) => Some([Sum(calories[start..ends[0]])] + rest)
  }

  /** With valid ends every group is there. */
  lemma {:induction false} ValidEndsGroupSums(ends: seq<int>, calories: seq<int>, start: int)
    requires ValidEnds(ends, |calories|)
    requires 0 <= start && (ends != [] ==> start <= ends[0])
    ensures GroupSums(ends, calories, start).Some?
    ensures |GroupSums(ends, calories, start).value| == |ends|
    decreases |ends|
  {
    if ends != [] {
      assert ValidEnds(ends[1..], |calories|) by {
        forall e, f | 0 <= e < f < |ends[1..]| ensures ends[1..][e] <= ends[1..][f] {
          assert ends[1..][e] == ends[e + 1] && ends[1..][f] == ends[f + 1];
        }
      }
      if |ends| > 1 {
        assert ends[1..][0] == ends[1];
      }
      ValidEndsGroupSums(ends[1..], calories, ends[0]);
    }
  }

  /** Prefixing known group totals to an optional list of the remaining totals. */
  function Prepend(done: seq<int>, rest: Option<seq<int>>): Option<seq<int>> {
    match rest
    case None => None
    case Some(t) => Some(done + t)
  }

  /** The loop shared by `part1` and `part2`: the running start `i` is set to each end
      in turn and the slice between is summed; `None` where the slice panics. */
  method ElfTotals(data: Parsed) returns (r: Option<seq<int>>)
    ensures r == GroupSums(data.elves, data.calories, 0)
  {
    var i := 0;
    var k := 0;
    var totals: seq<int> := [];
    assert data.elves[0..] == data.elves;
    match GroupSums(data.elves, data.calories, 0) {
      case None =>
      case Some(t) => assert [] + t == t;
    }
    while k < |data.elves|
      invariant 0 <= k <= |data.elves|
      invariant GroupSums(data.elves, data.calories, 0) == Prepend(totals, GroupSums(data.elves[k..], data.calories, i))
    {
      var end := data.elves[k];
      assert data.elves[k..][0] == end && data.elves[k..][1..] == data.elves[k + 1..];
      if !(0 <= i <= end <= |data.calories|) {
        return None;
      }
      var sum := Sum(data.calories[i..end]);
      match GroupSums(data.elves[k + 1..], data.calories, end) {
        case None =>
        case Some(t) => assert totals + ([sum] + t) == (totals + [sum]) + t;
      }
      totals := totals + [sum];
      i := end;
      k := k + 1;
    }
    assert data.elves[k..] == [];
    assert totals + [] == totals;
    return Some(totals);
  }

  /** `part1`: the largest group total; `None` where a slice panics or there is no
      group for `max` to return. */
  method Part1(data: Parsed) returns (r: Option<int>)
    ensures r.Some? <==> GroupSums(data.elves, data.calories, 0).Some? && |GroupSums(data.elves, data.calories, 0).value| > 0
    ensures r.Some? ==> r.value in GroupSums(data.elves, data.calories, 0).value
    ensures r.Some? ==> forall t :: t in GroupSums(data.elves, data.calories, 0).value ==> t <= r.value
  {
    var totals := ElfTotals(data);
    if totals.None? || |totals.value| == 0 {
      return None;
    }
    var s := totals.value;
    var best := s[0];
    var k := 1;
    while k < |s|
      invariant 1 <= k <= |s|
      invariant best in s[..k]
      invariant forall j :: 0 <= j < k ==> s[j] <= best
    {
      if s[k] > best {
        best := s[k];
      }
      k := k + 1;
    }
    assert s[..k] == s;
    return Some(best);
  }

  /** `part2`: the totals sorted from largest to smallest, and the sum of the first
      three; `None` where a slice panics or there are fewer than three elves. */
  method Part2(data: Parsed) returns (r: Option<int>)
    ensures r.Some? <==> GroupSums(data.elves, data.calories, 0).Some? && |GroupSums(data.elves, data.calories, 0).value| >= 3
    ensures r.Some? ==> var t := SortDesc(GroupSums(data.elves, data.calories, 0).value); r.value == t[0] + t[1] + t[2]
  {
    var totals := ElfTotals(data);
    if totals.None? || |totals.value| < 3 {
      return None;
    }
    var sorted := SortDesc(totals.value);
    return Some(sorted[0] + sorted[1] + sorted[2]);
  }

  /** Part two's first summand is part one's answer, and with non-negative totals the
      three largest together are at least the largest. */
  lemma TopThreeCoversMaximum(totals: seq<int>)
    requires |totals| >= 3
    requires forall i :: 0 <= i < |totals| ==> totals[i] >= 0
    ensures var t := SortDesc(totals);
      (forall i :: 0 <= i < |totals| ==> totals[i] <= t[0]) && t[0] in totals &&
      t[0] + t[1] + t[2] >= t[0]
  {
    SortDescFirstIsMax(totals);
    var t := SortDesc(totals);
    assert t[1] in multiset(t) && t[2] in multiset(t);
    assert t[1] in multiset(totals) && t[2] in multiset(totals);
  }

  /** The example: five elves; the fourth carries the most (24000), the top three 45000. */
  lemma SampleTotals()
    ensures GroupSums([3, 4, 6, 9, 10], [1000, 2000, 3000, 4000, 5000, 6000, 7000, 8000, 9000, 10000], 0)
            == Some([6000, 4000, 11000, 24000, 10000])
  {
    var c := [1000, 2000, 3000, 4000, 5000, 6000, 7000, 8000, 9000, 10000];
    assert c[0..3] == [1000, 2000, 3000];
    assert c[3..4] == [4000];
    assert c[4..6] == [5000, 6000];
    assert c[6..9] == [7000, 8000, 9000];
    assert c[9..10] == [10000];
    assert Sum([1000, 2000, 3000]) == 6000;
    assert Sum([4000]) == 4000;
    assert Sum([5000, 6000]) == 11000;
    assert Sum([7000, 8000, 9000]) == 24000;
    assert Sum([10000]) == 10000;
    assert [3, 4, 6, 9, 10][1..] == [4, 6, 9, 10] && [4, 6, 9, 10][1..] == [6, 9, 10];
    assert [6, 9, 10][1..] == [9, 10] && [9, 10][1..] == [10] && [10][1..] == [];
    assert GroupSums([], c, 10) == Some([]);
    assert [10000] + [] == [10000];
    assert GroupSums([10], c, 9) == Some([Sum(c[9..10])] + []);
    assert GroupSums([10], c, 9) == Some([10000]);
    assert [24000] + [10000] == [24000, 10000];
    assert GroupSums([9, 10], c, 6) == Some([24000, 10000]);
    assert [11000] + [24000, 10000] == [11000, 24000, 10000];
    assert GroupSums([6, 9, 10], c, 4) == Some([11000, 24000, 10000]);
    assert [4000] + [11000, 24000, 10000] == [4000, 11000, 24000, 10000];
    assert GroupSums([4, 6, 9, 10], c, 3) == Some([4000, 11000, 24000, 10000]);
    assert [6000] + [4000, 11000, 24000, 10000] == [6000, 4000, 11000, 24000, 10000];
  }

  /** The example's totals in descending order; the top three carry 45000. */
  lemma SampleSorted()
    ensures SortDesc([6000, 4000, 11000, 24000, 10000]) == [24000, 11000, 10000, 6000, 4000]
  {
    var s := [6000, 4000, 11000, 24000, 10000];
    var t := [24000, 11000, 10000, 6000, 4000];
    assert multiset(s) == multiset(t);
    assert SortedDesc(t);
    SortDescIs(s, t);
  }
}
