/** Day 5: a crane moving containers between stacks (src/days/day5.rs). */
module Day05 {
  import opened Wrappers
  import opened Text
  import opened Seqs

  /** A move of `count` containers from stack `from` to stack `to` (both 0-based). */
  datatype Move = Move(count: nat, from: nat, to: nat)

  /** A move the crane can carry out: both stacks exist and the source holds enough. */
  predicate CanMove(stacks: seq<seq<char>>, m: Move) {
    m.from < |stacks| && m.to < |stacks| && m.count <= |stacks[m.from]|
  }

  /** The top `count` containers of a stack, bottom first. */
  function Top(stack: seq<char>, count: nat): seq<char>
    requires count <= |stack|
  {
    stack[|stack| - count..]
  }

  /** The stacks after a move: the block leaves the source and lands on the target,
      reversed for the first crane (one container at a time) and in order for the
      second one; with `from == to` the block goes back onto the same stack. */
  function Moved(stacks: seq<seq<char>>, m: Move, reversed: bool): (r: seq<seq<char>>)
    requires CanMove(stacks, m)
    ensures |r| == |stacks|
    ensures forall i :: 0 <= i < |stacks| && i != m.from && i != m.to ==> r[i] == stacks[i]
  {
    var source := stacks[m.from];
    var rest := source[..|source| - m.count];
    var block := if reversed then Reverse(Top(source, m.count)) else Top(source, m.count);
    var drained := stacks[m.from := rest];
    drained[m.to := drained[m.to] + block]
  }

  /** What a move does to its two stacks. */
  lemma MovedStacks(stacks: seq<seq<char>>, m: Move, reversed: bool)
    requires CanMove(stacks, m)
    ensures var source := stacks[m.from];
      var block := if reversed then Reverse(Top(source, m.count)) else Top(source, m.count);
      var r := Moved(stacks, m, reversed);
      (m.from != m.to ==> r[m.from] == source[..|source| - m.count] && r[m.to] == stacks[m.to] + block) &&
      (m.from == m.to ==> r[m.to] == source[..|source| - m.count] + block)
  {
  }

  /** The number of containers on all stacks. */
  function Total(stacks: seq<seq<char>>): nat
    decreases |stacks|
  {
    if stacks == [] then 0 else Total(stacks[..|stacks| - 1]) + |stacks[|stacks| - 1]|
  }

  lemma {:induction false} TotalUpdate(stacks: seq<seq<char>>, i: nat, s: seq<char>)
    requires i < |stacks|
    ensures Total(stacks[i := s]) + |stacks[i]| == Total(stacks) + |s|
    decreases |stacks|
  {
    var n := |stacks| - 1;
    if i < n {
      assert stacks[i := s][..n] == stacks[..n][i := s];
      TotalUpdate(stacks[..n], i, s);
    } else {
      assert stacks[i := s][..n] == stacks[..n];
    }
  }

  /** A move neither creates nor destroys containers. */
  lemma MovePreservesTotal(stacks: seq<seq<char>>, m: Move, reversed: bool)
    requires CanMove(stacks, m)
    ensures Total(Moved(stacks, m, reversed)) == Total(stacks)
  {
    var source := stacks[m.from];
    var rest := source[..|source| - m.count];
    var block := if reversed then Reverse(Top(source, m.count)) else Top(source, m.count);
    var drained := stacks[m.from := rest];
    TotalUpdate(stacks, m.from, rest);
    TotalUpdate(drained, m.to, drained[m.to] + block);
  }

  /** Moving a single container is the same for both cranes. */
  lemma SingleMoveSameForBothCranes(stacks: seq<seq<char>>, m: Move)
    requires CanMove(stacks, m) && m.count <= 1
    ensures Moved(stacks, m, true) == Moved(stacks, m, false)
  {
    var t := Top(stacks[m.from], m.count);
    assert Reverse(t) == t;
  }

  /** The stacks of the harbour, bottom container first. */
  class Port {
    var stacks: seq<seq<char>>

    constructor(stacks: seq<seq<char>>)
      ensures this.stacks == stacks
    {
      this.stacks := stacks;
    }

    /** `Move::execute`: drain the top `count` containers of `from` and push them,
        last one first, onto `to`. */
    method Execute(m: Move)
      requires CanMove(stacks, m)
      modifies this
      ensures stacks == Moved(old(stacks), m, true)
    {
      var source := stacks[m.from];
      var i := |source| - m.count;
      var drain := Reverse(source[i..]);
      stacks := stacks[m.from := source[..i]];
      stacks := stacks[m.to := stacks[m.to] + drain];
    }

    /** `Move::execute_9001`: the same block, keeping its order. */
    method Execute9001(m: Move)
      requires CanMove(stacks, m)
      modifies this
      ensures stacks == Moved(old(stacks), m, false)
    {
      var source := stacks[m.from];
      var i := |source| - m.count;
      var drain := source[i..];
      stacks := stacks[m.from := source[..i]];
      stacks := stacks[m.to := stacks[m.to] + drain];
    }
  }

  /** The stacks after all moves; `None` if some move cannot be carried out
      (the source panics on its assertion or on an index out of range). */
  function RunMoves(stacks: seq<seq<char>>, moves: seq<Move>, reversed: bool): Option<seq<seq<char>>>
    decreases |moves|
  {
    if moves == [] then Some(stacks)
    else if !CanMove(stacks, moves[0]) then None
    else RunMoves(Moved(stacks, moves[0], reversed), moves[1..], reversed)
  }

  /** Every move keeps the total, so a full run does. */
  lemma {:induction false} RunPreservesTotal(stacks: seq<seq<char>>, moves: seq<Move>, reversed: bool)
    requires RunMoves(stacks, moves, reversed).Some?
    ensures Total(RunMoves(stacks, moves, reversed).value) == Total(stacks)
    ensures |RunMoves(stacks, moves, reversed).value| == |stacks|
    decreases |moves|
  {
    if moves != [] {
      MovePreservesTotal(stacks, moves[0], reversed);
      RunPreservesTotal(Moved(stacks, moves[0], reversed), moves[1..], reversed);
    }
  }

  /** The mark on top of each stack; `None` if a stack is empty. */
  function Tops(stacks: seq<seq<char>>): (r: Option<string>)
    ensures r.Some? <==> forall i :: 0 <= i < |stacks| ==> stacks[i] != []
    ensures r.Some? ==> |r.value| == |stacks| && forall i :: 0 <= i < |stacks| ==> r.value[i] == stacks[i][|stacks[i]| - 1]
    decreases |stacks|
  {
    if stacks == [] then Some([])
    else if stacks[0] == [] then None
    else
      match Tops(stacks[1..])
      case None => None
      case Some(rest) => Some([stacks[0][|stacks[0]| - 1]] + rest)
  }

  /** Both parts: apply every move to the port with the chosen crane, then read the
      top marks; `None` where the source panics. */
  method Run(port: Port, moves: seq<Move>, reversed: bool) returns (r: Option<string>)
    modifies port
    ensures match RunMoves(old(port.stacks), moves, reversed)
      case None => r.None?
      case Some(final) => port.stacks == final && r == Tops(final)
  {
    var k := 0;
    while k < |moves|
      invariant 0 <= k <= |moves|
      invariant RunMoves(old(port.stacks), moves, reversed) == RunMoves(port.stacks, moves[k..], reversed)
    {
      assert moves[k..][0] == moves[k] && moves[k..][1..] == moves[k + 1..];
      if !CanMove(port.stacks, moves[k]) {
        return None;
      }
      if reversed {
        port.Execute(moves[k]);
      } else {
        port.Execute9001(moves[k]);
      }
      k := k + 1;
    }
    assert moves[k..] == [];
    r := Tops(port.stacks);
  }

  /** `part1`: the first crane, which moves one container at a time. */
  method Part1(stacks: seq<seq<char>>, moves: seq<Move>) returns (r: Option<string>)
    ensures match RunMoves(stacks, moves, true)
      case None => r.None?
      case Some(final) => r == Tops(final)
  {
    var port := new Port(stacks);
    r := Run(port, moves, true);
  }

  /** `part2`: the CrateMover 9001, which moves blocks keeping their order. */
  method Part2(stacks: seq<seq<char>>, moves: seq<Move>) returns (r: Option<string>)
    ensures match RunMoves(stacks, moves, false)
      case None => r.None?
      case Some(final) => r == Tops(final)
  {
    var port := new Port(stacks);
    r := Run(port, moves, false);
  }

  // Parsing the drawing

  /** The characters of a drawing line whose position `i` (from `start`) has
      `(i + 1) % 4 != 0`: the separators between columns are dropped. */
  function KeepColumns(line: string, start: nat): string
    decreases |line|
  {
    if line == [] then []
    else (if (start + 1) % 4 != 0 then [line[0]] else []) + KeepColumns(line[1..], start + 1)
  }

  /** `array_chunks::<3>` over the kept characters, each chunk's middle character
      being a container mark, or no container when it is a space. */
  function Cells(kept: string): (r: seq<Option<char>>)
    ensures |r| == |kept| / 3
    ensures forall k :: 0 <= k < |r| ==> r[k] == if kept[3 * k + 1] == ' ' then None else Some(kept[3 * k + 1])
    decreases |kept|
  {
    if |kept| < 3 then []
    else
      var rest := Cells(kept[3..]);
      assert forall k :: 1 <= k < |kept| / 3 ==> kept[3 * k + 1] == kept[3..][3 * (k - 1) + 1];
      [if kept[1] == ' ' then None else Some(kept[1])] + rest
  }

  /** The cells of every drawing line, one line after another (the `flat_map`). */
  function DrawingCells(lines: seq<string>): seq<Option<char>>
    decreases |lines|
  {
    if lines == [] then [] else Cells(KeepColumns(lines[0], 0)) + DrawingCells(lines[1..])
  }

  /** The containers that the fold pushes onto stack `j`, bottom first: the cells
      before position `n` with index `i % count == j`, taken from the highest index
      (the lowest drawn row) down. */
  function Column(cells: seq<Option<char>>, count: nat, j: nat, n: nat): seq<char>
    requires count > 0 && n <= |cells|
  {
    if n == 0 then []
    else
      var i := n - 1;
      (if i % count == j && cells[i].Some? then [cells[i].value] else []) + Column(cells, count, j, n - 1)
  }

  /** The number of cells the fold visits: all but the last `count` (the stack
      numbers), none when there are fewer cells than that. */
  function Visited(cells: seq<Option<char>>, count: nat): (n: nat)
    ensures n <= |cells| && (count <= |cells| ==> n + count == |cells|)
  {
    if count <= |cells| then |cells| - count else 0
  }

  /** The fold of `parse`: every cell except the last `count` (the stack numbers),
      visited from the end, pushes its container onto stack `i % count`. */
  method BuildStacks(cells: seq<Option<char>>, count: nat) returns (stacks: seq<seq<char>>)
    requires count > 0
    ensures |stacks| == count
    ensures forall j :: 0 <= j < count ==> stacks[j] == Column(cells, count, j, Visited(cells, count))
  {
    stacks := seq(count, _ => []);
    var i := Visited(cells, count);
    while i > 0
      invariant 0 <= i <= Visited(cells, count) && |stacks| == count
      invariant forall j :: 0 <= j < count ==> Column(cells, count, j, Visited(cells, count)) == stacks[j] + Column(cells, count, j, i)
    {
      i := i - 1;
      ghost var prev := stacks;
      if cells[i].Some? {
        stacks := stacks[i % count := stacks[i % count] + [cells[i].value]];
      }
      forall j | 0 <= j < count
        ensures Column(cells, count, j, Visited(cells, count)) == stacks[j] + Column(cells, count, j, i)
      {
        var pushed := if i % count == j && cells[i].Some? then [cells[i].value] else [];
        assert stacks[j] == prev[j] + pushed;
        PushedAbove(prev[j], pushed, Column(cells, count, j, i));
      }
    }
  }

  lemma PushedAbove(below: seq<char>, pushed: seq<char>, rest: seq<char>)
    ensures below + (pushed + rest) == (below + pushed) + rest
  {
  }

  /** The number of stacks: the digit in the drawing's last cell; `None` where the
      source unwraps a missing cell or a non-digit. */
  function StackCount(cells: seq<Option<char>>): Option<nat> {
    if cells == [] then None
    else
      match cells[|cells| - 1]
      case None => None
      case Some(c) => if IsDigit(c) then Some(DigitValue(c)) else None
  }

  /** One move line `move N from N to N`, the stack numbers made 0-based; `None`
      where the source unwraps (a missing part, a number not a `u8`, stack 0). */
  function ParseMove(line: string): (r: Option<Move>)
    ensures r.Some? ==> r.value.count < 256 && r.value.from < 255 && r.value.to < 255
  {
    if !StartsWith(line, "move ") then None
    else
      match SplitOnce(line[5..], " from ")
      case None => None
      case Some((count, rest)) =>
        match SplitOnce(rest, " to ")
        case None => None
        case Some((from, to)) =>
          match (ParseDigitsU8(count), ParseDigitsU8(from), ParseDigitsU8(to))
          case (Some(c), Some(f), Some(t)) =>
            if f == 0 || t == 0 then None else Some(Move(c, f - 1, t - 1))
          case _ => None
  }

  /** A `\d+` group parsed as `u8`. */
  function ParseDigitsU8(s: string): (r: Option<nat>)
    ensures r.Some? ==> r.value < 256
  {
    if s != [] && AllDigits(s) then ParseUnsigned(s, 256) else None
  }

  function ParseMoves(lines: seq<string>): (r: Option<seq<Move>>)
    ensures r.Some? ==> |r.value| == |lines|
    decreases |lines|
  {
    if lines == [] then Some([])
    else
      match (ParseMove(lines[0]), ParseMoves(lines[1..]))
      case (Some(m), Some(rest)) => Some([m] + rest)
      case _ => None
  }

  /** The stacks that the cells of a drawing stand for: the last cell names a
      positive number of stacks and each stack holds its column. */
  ghost predicate Stacked(cells: seq<Option<char>>, stacks: seq<seq<char>>) {
    StackCount(cells).Some? && 0 < StackCount(cells).value &&
    |stacks| == StackCount(cells).value &&
    forall j :: 0 <= j < |stacks| ==> stacks[j] == Column(cells, |stacks|, j, Visited(cells, |stacks|))
  }

  /** The stacks and moves that a drawing and a move text stand for; every move
      line parses. */
  ghost predicate Describes(drawing: string, moveText: string, stacks: seq<seq<char>>, moves: seq<Move>) {
    Stacked(DrawingCells(Lines(drawing)), stacks) && ParseMoves(Lines(moveText)) == Some(moves)
  }

  /** `parse`: the drawing and the moves, separated by the first blank line. */
  method Parse(input: string) returns (r: Option<(seq<seq<char>>, seq<Move>)>)
    ensures r.Some? ==> exists drawing, moveText ::
      SplitOnce(input, "\n\n") == Some((drawing, moveText)) && Describes(drawing, moveText, r.value.0, r.value.1)
    ensures (exists drawing, moveText, stacks, moves ::
      SplitOnce(input, "\n\n") == Some((drawing, moveText)) && Describes(drawing, moveText, stacks, moves)) ==> r.Some?
  {
    var parts := SplitOnce(input, "\n\n");
    if parts.None? {
      return None;
    }
    var stacks := StacksFrom(DrawingCells(Lines(parts.value.0)));
    var moves := ParseMoves(Lines(parts.value.1));
    if stacks.None? || moves.None? {
      return None;
    }
    return Some((stacks.value, moves.value));
  }

  /** The stacks of a drawing's cells; `None` where the source panics on the stack
      count (a missing cell, a non-digit, or `i % 0` for the digit 0). */
  method StacksFrom(cells: seq<Option<char>>) returns (r: Option<seq<seq<char>>>)
    ensures r.Some? ==> Stacked(cells, r.value)
    ensures r.None? <==> StackCount(cells).None? || StackCount(cells).value == 0
  {
    var count := StackCount(cells);
    if count.None? || count.value == 0 {
      return None;
    }
    var stacks := BuildStacks(cells, count.value);
    return Some(stacks);
  }

  // The example, one move at a time.

  lemma SampleMove1()
    ensures Moved([['Z', 'N'], ['M', 'C', 'D'], ['P']], Move(1, 1, 0), true) == [['Z', 'N', 'D'], ['M', 'C'], ['P']]
    ensures Moved([['Z', 'N'], ['M', 'C', 'D'], ['P']], Move(1, 1, 0), false) == [['Z', 'N', 'D'], ['M', 'C'], ['P']]
  {
    assert Top(['M', 'C', 'D'], 1) == ['D'] && Reverse(['D']) == ['D'];
    assert ['M', 'C', 'D'][..2] == ['M', 'C'];
    assert ['Z', 'N'] + ['D'] == ['Z', 'N', 'D'];
  }

  lemma SampleMove2()
    ensures Moved([['Z', 'N', 'D'], ['M', 'C'], ['P']], Move(3, 0, 2), true) == [[], ['M', 'C'], ['P', 'D', 'N', 'Z']]
    ensures Moved([['Z', 'N', 'D'], ['M', 'C'], ['P']], Move(3, 0, 2), false) == [[], ['M', 'C'], ['P', 'Z', 'N', 'D']]
  {
    assert Top(['Z', 'N', 'D'], 3) == ['Z', 'N', 'D'] && ['Z', 'N', 'D'][..0] == [];
    assert Reverse(['Z', 'N', 'D']) == ['D', 'N', 'Z'];
    assert ['P'] + ['D', 'N', 'Z'] == ['P', 'D', 'N', 'Z'];
    assert ['P'] + ['Z', 'N', 'D'] == ['P', 'Z', 'N', 'D'];
  }

  lemma SampleMove3()
    ensures Moved([[], ['M', 'C'], ['P', 'D', 'N', 'Z']], Move(2, 1, 0), true) == [['C', 'M'], [], ['P', 'D', 'N', 'Z']]
    ensures Moved([[], ['M', 'C'], ['P', 'Z', 'N', 'D']], Move(2, 1, 0), false) == [['M', 'C'], [], ['P', 'Z', 'N', 'D']]
  {
    assert Top(['M', 'C'], 2) == ['M', 'C'] && ['M', 'C'][..0] == [] && Reverse(['M', 'C']) == ['C', 'M'];
    assert [] + ['C', 'M'] == ['C', 'M'] && [] + ['M', 'C'] == ['M', 'C'];
  }

  lemma SampleMove4()
    ensures Moved([['C', 'M'], [], ['P', 'D', 'N', 'Z']], Move(1, 0, 1), true) == [['C'], ['M'], ['P', 'D', 'N', 'Z']]
    ensures Moved([['M', 'C'], [], ['P', 'Z', 'N', 'D']], Move(1, 0, 1), false) == [['M'], ['C'], ['P', 'Z', 'N', 'D']]
  {
    assert Top(['C', 'M'], 1) == ['M'] && ['C', 'M'][..1] == ['C'];
    assert Top(['M', 'C'], 1) == ['C'] && ['M', 'C'][..1] == ['M'];
    assert Reverse(['M']) == ['M'] && [] + ['M'] == ['M'] && [] + ['C'] == ['C'];
  }

  /** The example with the first crane: stacks `ZN`, `MCD`, `P` end as `C`, `M`, `PDNZ`. */
  lemma SampleFirstCrane()
    ensures RunMoves([['Z', 'N'], ['M', 'C', 'D'], ['P']], [Move(1, 1, 0), Move(3, 0, 2), Move(2, 1, 0), Move(1, 0, 1)], true)
            == Some([['C'], ['M'], ['P', 'D', 'N', 'Z']])
  {
    var moves := [Move(1, 1, 0), Move(3, 0, 2), Move(2, 1, 0), Move(1, 0, 1)];
    assert moves[1..] == [Move(3, 0, 2), Move(2, 1, 0), Move(1, 0, 1)];
    assert moves[1..][1..] == [Move(2, 1, 0), Move(1, 0, 1)];
    assert moves[1..][1..][1..] == [Move(1, 0, 1)];
    SampleMove1();
    SampleMove2();
    SampleMove3();
    SampleMove4();
  }

  /** The example with the CrateMover 9001: the stacks end as `M`, `C`, `PZND`. */
  lemma SampleSecondCrane()
    ensures RunMoves([['Z', 'N'], ['M', 'C', 'D'], ['P']], [Move(1, 1, 0), Move(3, 0, 2), Move(2, 1, 0), Move(1, 0, 1)], false)
            == Some([['M'], ['C'], ['P', 'Z', 'N', 'D']])
  {
    var moves := [Move(1, 1, 0), Move(3, 0, 2), Move(2, 1, 0), Move(1, 0, 1)];
    assert moves[1..] == [Move(3, 0, 2), Move(2, 1, 0), Move(1, 0, 1)];
    assert moves[1..][1..] == [Move(2, 1, 0), Move(1, 0, 1)];
    assert moves[1..][1..][1..] == [Move(1, 0, 1)];
    SampleMove1();
    SampleMove2();
    SampleMove3();
    SampleMove4();
  }

  /** The example's top marks. */
  lemma SampleTops()
    ensures Tops([['C'], ['M'], ['P', 'D', 'N', 'Z']]) == Some("CMZ")
    ensures Tops([['M'], ['C'], ['P', 'Z', 'N', 'D']]) == Some("MCD")
  {
    var a := [['C'], ['M'], ['P', 'D', 'N', 'Z']];
    var b := [['M'], ['C'], ['P', 'Z', 'N', 'D']];
    assert a[0] != [] && a[1] != [] && a[2] != [];
    assert b[0] != [] && b[1] != [] && b[2] != [];
    var ra, rb := Tops(a).value, Tops(b).value;
    assert ra[0] == 'C' && ra[1] == 'M' && ra[2] == 'Z';
    assert rb[0] == 'M' && rb[1] == 'C' && rb[2] == 'D';
    assert ra == "CMZ" && rb == "MCD";
  }

  /** The example's drawing: twelve cells, three stacks, pushed bottom-up. */
  lemma SampleStacks()
    ensures var cells := [None, Some('D'), None, Some('N'), Some('C'), None, Some('Z'), Some('M'), Some('P'), Some('1'), Some('2'), Some('3')];
      StackCount(cells) == Some(3) &&
      Column(cells, 3, 0, 9) == ['Z', 'N'] && Column(cells, 3, 1, 9) == ['M', 'C', 'D'] && Column(cells, 3, 2, 9) == ['P']
  {
  }
}
