/** Day 2: rock-paper-scissors strategy guide (src/days/day2.rs). */
module Day02 {
  import opened Wrappers
  import opened Text

  datatype Choice = Rock | Paper | Scissor

  /** The enum discriminant, `choice as u32`. */
  function Index(c: Choice): nat {
    match c
    case Rock => 0
    case Paper => 1
    case Scissor => 2
  }

  /** `Choice::try_from`: `None` stands for the `Err` the source returns. */
  function ParseChoice(s: string): Option<Choice> {
    if s == "A" || s == "X" then Some(Rock)
    else if s == "B" || s == "Y" then Some(Paper)
    else if s == "C" || s == "Z" then Some(Scissor)
    else None
  }

  /** Exactly the six one-letter codes parse, and the letters `A`..`C` and
      `X`..`Z` name the choices in discriminant order. */
  lemma ParseChoiceAccepts(s: string)
    ensures ParseChoice(s).Some? <==> |s| == 1 && s[0] in "ABCXYZ"
    ensures ParseChoice(s).Some? ==> Index(ParseChoice(s).value) == (s[0] as int - 'A' as int) % 23
  {
    if |s| == 1 && s[0] in "ABCXYZ" {
      assert s == [s[0]];
    }
  }

  /** `combine(a, b) = a + 3 * b`. */
  function Combine(a: Choice, b: Choice): (r: nat)
    ensures r < 9
  {
    Index(a) + 3 * Index(b)
  }

  lemma CombineInjective(a: Choice, b: Choice, c: Choice, d: Choice)
    ensures Combine(a, b) == Combine(c, d) <==> a == c && b == d
  {
  }

  /** The rule of the game, independent of `combine`: `x` wins against `y`. */
  predicate Beats(x: Choice, y: Choice) {
    (x == Rock && y == Scissor) || (x == Paper && y == Rock) || (x == Scissor && y == Paper)
  }

  /** `score`: the second choice's value plus the outcome, decided by matching
      `combine` against the winning and the drawn pairs. */
  function Score(first: Choice, second: Choice): nat {
    var selected := Index(second) + 1;
    var c := Combine(first, second);
    var outcome :=
      if c == Combine(Rock, Paper) || c == Combine(Paper, Scissor) || c == Combine(Scissor, Rock) then 6
      else if c == Combine(Rock, Rock) || c == Combine(Paper, Paper) || c == Combine(Scissor, Scissor) then 3
      else 0;
    selected + outcome
  }

  /** The score is the value of the own choice plus 6 for a win, 3 for a draw,
      0 for a loss, so it lies in 1..9. */
  lemma ScoreMeaning(first: Choice, second: Choice)
    ensures Score(first, second) ==
      Index(second) + 1 + (if Beats(second, first) then 6 else if first == second then 3 else 0)
    ensures 1 <= Score(first, second) <= 9
    ensures Beats(second, first) <==> (Index(second) - Index(first)) % 3 == 1
  {
  }

  /** The valid choices among the (at most two) space-separated pieces of one line. */
  function LineChoices(line: string): (r: seq<Choice>)
    ensures |r| <= 2
  {
    var pieces := SplitN(line, " ", 2);
    ValidChoices(pieces)
  }

  /** The pieces that parse, in order; the others are dropped. */
  function ValidChoices(pieces: seq<string>): (r: seq<Choice>)
    ensures |r| <= |pieces|
    ensures forall c :: c in r ==> exists p :: p in pieces && ParseChoice(p) == Some(c)
    ensures forall p :: p in pieces && ParseChoice(p).Some? ==> ParseChoice(p).value in r
  {
    if pieces == [] then []
    else
      var rest := ValidChoices(pieces[1..]);
      match ParseChoice(pieces[0])
      case None => rest
      case Some(c) => [c] + rest
  }

  /** Keeping the valid pieces works piece by piece: the pieces of `a + b` keep
      their order, those of `a` before those of `b`. */
  lemma {:induction false} ValidChoicesAppend(a: seq<string>, b: seq<string>)
    ensures ValidChoices(a + b) == ValidChoices(a) + ValidChoices(b)
  {
    if a == [] {
      assert a + b == b;
    } else {
      assert (a + b)[1..] == a[1..] + b;
      ValidChoicesAppend(a[1..], b);
    }
  }

  /** One piece gives its choice when it parses and nothing otherwise. */
  lemma ValidChoicesOne(p: string)
    ensures ValidChoices([p]) == if ParseChoice(p).Some? then [ParseChoice(p).value] else []
  {
    assert [p][1..] == [];
  }

  function AllChoices(lines: seq<string>): seq<Choice> {
    if lines == [] then [] else LineChoices(lines[0]) + AllChoices(lines[1..])
  }

  /** `array_chunks::<2>`: consecutive pairs, an odd element at the end dropped. */
  function Pairs(cs: seq<Choice>): (r: seq<(Choice, Choice)>)
    ensures |r| == |cs| / 2
    ensures forall i :: 0 <= i < |r| ==> r[i] == (cs[2 * i], cs[2 * i + 1])
    decreases |cs|
  {
    if |cs| < 2 then []
    else
      var rest := Pairs(cs[2..]);
      assert forall i :: 0 <= i < |rest| ==> rest[i] == (cs[2 * (i + 1)], cs[2 * (i + 1) + 1]);
      [(cs[0], cs[1])] + rest
  }

  /** `parse`: the input split at newlines, invalid tokens dropped, then paired. */
  function Parse(input: string): seq<(Choice, Choice)> {
    Pairs(AllChoices(Split(input, "\n")))
  }

  function TotalScore(rounds: seq<(Choice, Choice)>): nat {
    if rounds == [] then 0 else Score(rounds[0].0, rounds[0].1) + TotalScore(rounds[1..])
  }

  /** `part1`: the sum of the round scores, between one and nine points per round. */
  function Part1(rounds: seq<(Choice, Choice)>): (r: nat)
    ensures |rounds| <= r <= 9 * |rounds|
  {
    TotalBounds(rounds);
    TotalScore(rounds)
  }

  lemma {:induction false} TotalBounds(rounds: seq<(Choice, Choice)>)
    ensures |rounds| <= TotalScore(rounds) <= 9 * |rounds|
  {
    if rounds != [] {
      ScoreMeaning(rounds[0].0, rounds[0].1);
      TotalBounds(rounds[1..]);
    }
  }

  /** The sample guide "A Y / B X / C Z" scores 8 + 1 + 6 = 15. */
  lemma SamplePart1()
    ensures Part1([(Rock, Paper), (Paper, Rock), (Scissor, Scissor)]) == 15
  {
  }

  lemma SampleLine()
    ensures LineChoices("A Y") == [Rock, Paper]
  {
    assert IndexOf("A Y", " ") == Some(1) by {
      assert OccursAt("A Y", " ", 1);
      assert "A Y"[0..1][0] == 'A';
    }
    assert "A Y"[..1] == "A" && "A Y"[2..] == "Y";
  }
}
