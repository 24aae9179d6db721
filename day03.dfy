/** Day 3: rucksack item priorities (src/days/day3.rs). */
module Day03 {
  import opened Wrappers
  import opened Text

  predicate IsLower(c: char) { 'a' <= c <= 'z' }
  predicate IsUpper(c: char) { 'A' <= c <= 'Z' }

  /** `get_priority`: the code point minus `'a' - 1` for a lower-case letter,
      otherwise minus `'A' - 27`. */
  function Priority(c: char): int {
    c as int - if IsLower(c) then 'a' as int - 1 else 'A' as int - 27
  }

  /** The letter with priority `p`: the `p`-th lower-case letter, then the upper-case ones. */
  function LetterOf(p: int): (c: char)
    requires 1 <= p <= 52
    ensures IsLower(c) || IsUpper(c)
  {
    if p <= 26 then ('a' as int + p - 1) as char else ('A' as int + p - 27) as char
  }

  /** Lower-case letters get 1..26 and upper-case letters 27..52, one priority each. */
  lemma PriorityBijection(c: char, p: int)
    ensures IsLower(c) ==> 1 <= Priority(c) <= 26
    ensures IsUpper(c) ==> 27 <= Priority(c) <= 52
    ensures (IsLower(c) || IsUpper(c)) ==> LetterOf(Priority(c)) == c
    ensures 1 <= p <= 52 ==> Priority(LetterOf(p)) == p
  {
  }

  /** The first character of `a` that also occurs in `b`
      (`a.chars().filter(|c| b.contains(c)).nth(0)`). */
  function FirstCommon(a: string, b: string): (r: Option<char>)
    ensures r.None? <==> forall i :: 0 <= i < |a| ==> a[i] !in b
    ensures r.Some? ==> exists k :: 0 <= k < |a| && a[k] == r.value && r.value in b &&
                                   forall j :: 0 <= j < k ==> a[j] !in b
  {
    if a == [] then None
    else if a[0] in b then
      assert a[0] == a[0];
      Some(a[0])
    else
      var r := FirstCommon(a[1..], b);
      assert r.Some? ==> exists k :: 0 <= k < |a| && a[k] == r.value && r.value in b &&
                                     forall j :: 0 <= j < k ==> a[j] !in b by {
        if r.Some? {
          var k :| 0 <= k < |a[1..]| && a[1..][k] == r.value && r.value in b &&
                   forall j :: 0 <= j < k ==> a[1..][j] !in b;
          assert a[k + 1] == r.value && forall j :: 0 <= j < k + 1 ==> a[j] !in b;
        }
      }
      r
  }

  /** The first character of `a` that occurs in both `b` and `c`. */
  function FirstCommon3(a: string, b: string, c: string): (r: Option<char>)
    ensures r.None? <==> forall i :: 0 <= i < |a| ==> !(a[i] in b && a[i] in c)
    ensures r.Some? ==> exists k :: 0 <= k < |a| && a[k] == r.value && r.value in b && r.value in c &&
                                   forall j :: 0 <= j < k ==> !(a[j] in b && a[j] in c)
  {
    if a == [] then None
    else if a[0] in b && a[0] in c then
      assert a[0] == a[0];
      Some(a[0])
    else
      var r := FirstCommon3(a[1..], b, c);
      assert r.Some? ==> exists k :: 0 <= k < |a| && a[k] == r.value && r.value in b && r.value in c &&
                                     forall j :: 0 <= j < k ==> !(a[j] in b && a[j] in c) by {
        if r.Some? {
          var k :| 0 <= k < |a[1..]| && a[1..][k] == r.value && r.value in b && r.value in c &&
                   forall j :: 0 <= j < k ==> !(a[1..][j] in b && a[1..][j] in c);
          assert a[k + 1] == r.value && forall j :: 0 <= j < k + 1 ==> !(a[j] in b && a[j] in c);
        }
      }
      r
  }

  /** `parse`: the input split at every newline (a final newline gives an empty line). */
  function Parse(input: string): seq<string> {
    Split(input, "\n")
  }

  /** One rucksack: the priority of the first item of the first half that the
      second half (from `len / 2` on) also holds; `None` where the source panics. */
  function RucksackPriority(line: string): (r: Option<int>)
    ensures r.Some? <==> exists i, j :: 0 <= i < |line| / 2 <= j < |line| && line[i] == line[j]
  {
    var half := |line| / 2;
    var first, second := line[..half], line[half..];
    match FirstCommon(first, second)
    case None =>
      assert forall i, j :: 0 <= i < half <= j < |line| ==> line[i] != line[j] by {
        forall i, j | 0 <= i < half <= j < |line| ensures line[i] != line[j] {
          assert first[i] !in second;
          assert second[j - half] == line[j];
        }
      }
      None
    case Some(c) =>
      var k :| 0 <= k < |first| && first[k] == c && c in second;
      var m :| 0 <= m < |second| && second[m] == c;
      assert line[k] == line[half + m];
      Some(Priority(c))
  }

  /** `part1`: the sum over all rucksacks; `None` when some rucksack has no common item. */
  function Part1(lines: seq<string>): (r: Option<int>)
    ensures r.Some? <==> forall i :: 0 <= i < |lines| ==> RucksackPriority(lines[i]).Some?
  {
    if lines == [] then Some(0)
    else
      match RucksackPriority(lines[0])
      case None => None
      case Some(p) =>
        match Part1(lines[1..])
        case None =>
          var i :| 0 <= i < |lines[1..]| && RucksackPriority(lines[1..][i]).None?;
          assert RucksackPriority(lines[i + 1]).None?;
          None
        case Some(rest) =>
          assert forall i :: 0 < i < |lines| ==> lines[i] == lines[1..][i - 1];
          Some(p + rest)
  }

  /** One group of three elves: the priority of the first item of the first line that the other two also hold. */
  function BadgePriority(a: string, b: string, c: string): Option<int> {
    match FirstCommon3(a, b, c)
    case None => None
    case Some(x) => Some(Priority(x))
  }

  /** Group `g` of three consecutive lines has a badge. */
  predicate GroupOk(lines: seq<string>, g: int)
    requires 0 <= g < |lines| / 3
  {
    BadgePriority(lines[3 * g], lines[3 * g + 1], lines[3 * g + 2]).Some?
  }

  lemma GroupShift(lines: seq<string>, g: int)
    requires |lines| >= 3 && 0 < g < |lines| / 3
    ensures GroupOk(lines, g) <==> GroupOk(lines[3..], g - 1)
  {
    assert lines[3 * g] == lines[3..][3 * (g - 1)];
    assert lines[3 * g + 1] == lines[3..][3 * (g - 1) + 1];
    assert lines[3 * g + 2] == lines[3..][3 * (g - 1) + 2];
  }

  /** `part2`: the sum over consecutive groups of three lines (`array_chunks::<3>`,
      an incomplete last group dropped). */
  function Part2(lines: seq<string>): (r: Option<int>)
    ensures r.Some? <==> forall g :: 0 <= g < |lines| / 3 ==> GroupOk(lines, g)
    decreases |lines|
  {
    if |lines| < 3 then Some(0)
    else
      var rest := Part2(lines[3..]);
      assert forall g :: 0 < g < |lines| / 3 ==> (GroupOk(lines, g) <==> GroupOk(lines[3..], g - 1)) by {
        forall g | 0 < g < |lines| / 3 ensures GroupOk(lines, g) <==> GroupOk(lines[3..], g - 1) {
          GroupShift(lines, g);
        }
      }
      match BadgePriority(lines[0], lines[1], lines[2])
      case None =>
        assert !GroupOk(lines, 0);
        None
      case Some(p) =>
        match rest
        case None =>
          var g :| 0 <= g < |lines[3..]| / 3 && !GroupOk(lines[3..], g);
          assert !GroupOk(lines, g + 1);
          None
        case Some(q) => Some(p + q)
  }

  /** The priorities of the unit test (`a` 1, `z` 26, `A` 27, `Z` 52) and those the
      example's rucksacks share: `p` 16, `L` 38, `P` 42, `v` 22, `t` 20, `s` 19. */
  lemma SamplePriorities()
    ensures Priority('a') == 1 && Priority('z') == 26 && Priority('A') == 27 && Priority('Z') == 52
    ensures Priority('p') == 16 && Priority('L') == 38 && Priority('P') == 42
    ensures Priority('v') == 22 && Priority('t') == 20 && Priority('s') == 19
  {
  }
}
