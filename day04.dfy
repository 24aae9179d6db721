/** Day 4: pairs of section-assignment ranges (src/days/day4.rs). */
module Day04 {
  import opened Wrappers
  import opened Text

  /** `RangeInclusive<u8>`: `lo..=hi`, empty when `lo > hi`. */
  datatype Range = Range(lo: nat, hi: nat) {
    predicate Contains(x: int) { lo <= x <= hi }
    predicate NonEmpty() { lo <= hi }
  }

  /** The numbers of one line: at most four pieces split at `,` or `-`, each a `u8`. */
  function LineNumbers(line: string): (r: Option<seq<nat>>)
    ensures r.Some? ==> |r.value| <= 4 && forall i :: 0 <= i < |r.value| ==> r.value[i] < 256
  {
    ParseAll(SplitNAny(line, {',', '-'}, 4))
  }

  /** Every piece parsed as a `u8`; `None` where the source's `unwrap` panics. */
  function ParseAll(pieces: seq<string>): (r: Option<seq<nat>>)
    ensures r.Some? ==> |r.value| == |pieces|
    ensures r.Some? ==> forall i :: 0 <= i < |pieces| ==> ParseUnsigned(pieces[i], 256) == Some(r.value[i])
  {
    if pieces == [] then Some([])
    else
      match ParseUnsigned(pieces[0], 256)
      case None => None
      case Some(v) =>
        match ParseAll(pieces[1..])
        case None => None
        case Some(vs) => Some([v] + vs)
  }

  function AllNumbers(lines: seq<string>): Option<seq<nat>> {
    if lines == [] then Some([])
    else
      match LineNumbers(lines[0])
      case None => None
      case Some(vs) =>
        match AllNumbers(lines[1..])
        case None => None
        case Some(ws) => Some(vs + ws)
  }

  /** `array_chunks::<2>` turning the numbers into ranges `a..=b`. */
  function ToRanges(ns: seq<nat>): (r: seq<Range>)
    ensures |r| == |ns| / 2
    ensures forall i :: 0 <= i < |r| ==> r[i] == Range(ns[2 * i], ns[2 * i + 1])
    decreases |ns|
  {
    if |ns| < 2 then []
    else
      var rest := ToRanges(ns[2..]);
      assert forall i :: 0 <= i < |rest| ==> rest[i] == Range(ns[2 * (i + 1)], ns[2 * (i + 1) + 1]);
      [Range(ns[0], ns[1])] + rest
  }

  /** `parse`: each line "a-b,c-d" gives two consecutive ranges. */
  function Parse(input: string): Option<seq<Range>> {
    match AllNumbers(Lines(input))
    case None => None
    case Some(ns) => Some(ToRanges(ns))
  }

  /** The filter of part 1: one range holds both endpoints of the other. */
  predicate OneContainsOther(a: Range, b: Range) {
    (a.Contains(b.lo) && a.Contains(b.hi)) || (b.Contains(a.lo) && b.Contains(a.hi))
  }

  /** The filter of part 2: some endpoint of one range lies in the other. */
  predicate Overlap(a: Range, b: Range) {
    a.Contains(b.lo) || a.Contains(b.hi) || b.Contains(a.lo) || b.Contains(a.hi)
  }

  /** For non-empty ranges the endpoint test is set inclusion, in one direction or the other. */
  lemma ContainmentIsInclusion(a: Range, b: Range)
    requires a.NonEmpty() && b.NonEmpty()
    ensures OneContainsOther(a, b) <==>
      (forall x :: b.Contains(x) ==> a.Contains(x)) || (forall x :: a.Contains(x) ==> b.Contains(x))
  {
    if forall x :: b.Contains(x) ==> a.Contains(x) {
      assert b.Contains(b.lo) && b.Contains(b.hi);
    }
    if forall x :: a.Contains(x) ==> b.Contains(x) {
      assert a.Contains(a.lo) && a.Contains(a.hi);
    }
  }

  /** For non-empty ranges the endpoint test is a common section. */
  lemma OverlapIsCommonSection(a: Range, b: Range)
    requires a.NonEmpty() && b.NonEmpty()
    ensures Overlap(a, b) <==> exists x :: a.Contains(x) && b.Contains(x)
  {
    if exists x :: a.Contains(x) && b.Contains(x) {
      var x :| a.Contains(x) && b.Contains(x);
      if a.lo <= b.lo {
        assert a.Contains(b.lo);
      } else {
        assert b.Contains(a.lo);
      }
    }
  }

  /** Both filters are symmetric, and containment implies overlap. */
  lemma FiltersSymmetric(a: Range, b: Range)
    ensures OneContainsOther(a, b) == OneContainsOther(b, a)
    ensures Overlap(a, b) == Overlap(b, a)
    ensures OneContainsOther(a, b) ==> Overlap(a, b)
  {
  }

  /** Pairs of consecutive ranges (`array_chunks::<2>`) satisfying a filter. */
  function CountContained(rs: seq<Range>): nat
    decreases |rs|
  {
    if |rs| < 2 then 0 else (if OneContainsOther(rs[0], rs[1]) then 1 else 0) + CountContained(rs[2..])
  }

  function CountOverlapping(rs: seq<Range>): nat
    decreases |rs|
  {
    if |rs| < 2 then 0 else (if Overlap(rs[0], rs[1]) then 1 else 0) + CountOverlapping(rs[2..])
  }

  /** `part1` counts the pairs in which one range contains the other; no more
      than there are pairs, and no more than `part2`. */
  function Part1(rs: seq<Range>): (r: nat)
    ensures r <= |rs| / 2
    ensures r <= Part2(rs)
  {
    CountsOrdered(rs);
    CountContained(rs)
  }

  /** `part2` counts the overlapping pairs. */
  function Part2(rs: seq<Range>): (r: nat)
    ensures r <= |rs| / 2
  {
    CountsOrdered(rs);
    CountOverlapping(rs)
  }

  lemma {:induction false} CountsOrdered(rs: seq<Range>)
    ensures CountContained(rs) <= CountOverlapping(rs) <= |rs| / 2
    decreases |rs|
  {
    if |rs| >= 2 {
      CountsOrdered(rs[2..]);
    }
  }

  function Sample(): seq<Range> {
    [Range(2, 4), Range(6, 8), Range(2, 3), Range(4, 5), Range(5, 7), Range(7, 9),
     Range(2, 8), Range(3, 7), Range(6, 6), Range(4, 6), Range(2, 6), Range(4, 8)]
  }

  /** The six sample pairs give 2 and 4. */
  lemma SampleAnswers()
    ensures Part1(Sample()) == 2 && Part2(Sample()) == 4
  {
  }
}
