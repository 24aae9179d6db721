/** Day 9: the knots of a rope following its head (src/days/day9.rs). */
module Day09 {
  import opened Wrappers
  import opened Text

  datatype Direction = Right | Up | Left | Down

  /** A motion: a direction and how many unit steps to take. */
  datatype Motion = Motion(dir: Direction, amount: int)

  type Pos = (int, int)

  const I32: nat := 0x8000_0000

  /** `Direction::from_str`: one of the four letters, anything else an error. */
  function ParseDirection(s: string): (r: Option<Direction>)
    ensures r.Some? <==> s in {"R", "U", "L", "D"}
  {
    if s == "R" then Some(Right)
    else if s == "U" then Some(Up)
    else if s == "L" then Some(Left)
    else if s == "D" then Some(Down)
    else None
  }

  /** The vector of a motion (`From<Motion> for Vector2`): along the direction's axis,
      `Up` being +y. */
  function Vector(m: Motion): (v: Pos)
    ensures v.0 == 0 || v.1 == 0
    ensures Abs(v.0) + Abs(v.1) == Abs(m.amount)
  {
    match m.dir
    case Right => (m.amount, 0)
    case Up => (0, m.amount)
    case Left => (-m.amount, 0)
    case Down => (0, -m.amount)
  }

  function Abs(x: int): nat { if x < 0 then -x else x }

  /** `parse`: the lines that contain a space, as direction and `i32` amount;
      `None` where the source unwraps a bad direction or number. */
  function Parse(input: string): Option<seq<Motion>> {
    ParseLines(Lines(input))
  }

  function ParseLines(lines: seq<string>): (r: Option<seq<Motion>>)
    ensures r.Some? ==> |r.value| <= |lines|
    decreases |lines|
  {
    if lines == [] then Some([])
    else
      match ParseLines(lines[1..])
      case None => None
      case Some(rest) =>
        match SplitOnce(lines[0], " ")
        case None => Some(rest)
        case Some((d, n)) =>
          match (ParseDirection(d), ParseSigned(n, I32))
          case (Some(dir), Some(amount)) => Some([Motion(dir, amount)] + rest)
          case _ => None
  }

  function Add(p: Pos, v: Pos): Pos { (p.0 + v.0, p.1 + v.1) }
  function Sub(p: Pos, q: Pos): Pos { (p.0 - q.0, p.1 - q.1) }

  /** The dot product of a vector with itself (`diff.dot(&diff)`). */
  function Dot(v: Pos): int {
    v.0 * v.0 + v.1 * v.1
  }

  /** The squared distance between two cells. */
  function Dist2(p: Pos, q: Pos): int {
    Dot(Sub(p, q))
  }

  /** Two knots touch when they are in the same or in adjacent cells, diagonals included. */
  predicate Touching(p: Pos, q: Pos) {
    Abs(p.0 - q.0) <= 1 && Abs(p.1 - q.1) <= 1
  }

  /** The source's test `diff.dot(&diff) > 2` is exactly "not touching". */
  lemma TouchingIffNear(p: Pos, q: Pos)
    ensures Touching(p, q) <==> Dist2(p, q) <= 2
  {
    var d := Sub(p, q);
    if Abs(d.0) >= 2 {
      assert d.0 * d.0 >= 4 by { SquareAtLeast(d.0); }
      assert d.1 * d.1 >= 0;
    } else if Abs(d.1) >= 2 {
      assert d.1 * d.1 >= 4 by { SquareAtLeast(d.1); }
      assert d.0 * d.0 >= 0;
    }
  }

  lemma SquareAtLeast(x: int)
    requires Abs(x) >= 2
    ensures x * x >= 4
  {
    if x >= 2 {
      assert x * x >= 2 * x;
    } else {
      assert x * x >= -2 * x;
    }
  }

  /** One unit step: the motion of length one in the direction (the `.map` to `amount: 1`). */
  function Step(p: Pos, d: Direction): Pos {
    Add(p, Vector(Motion(d, 1)))
  }

  /** The unit steps of a list of motions, in order (a range `0..amount` with a
      negative amount is empty). */
  function Steps(motions: seq<Motion>): seq<Direction>
    decreases |motions|
  {
    if motions == [] then []
    else
      var m := motions[|motions| - 1];
      Steps(motions[..|motions| - 1]) + seq(if m.amount < 0 then 0 else m.amount, _ => m.dir)
  }

  /** Part one's step: the head moves, and a tail that no longer touches it jumps to
      the head's previous cell (the source tests `diff.dot(&diff) > 2`, which
      `TouchingIffNear` shows to mean "not touching"). */
  function Step1(rope: (Pos, Pos), d: Direction): (Pos, Pos) {
    var (head, tail) := rope;
    var head' := Step(head, d);
    if !Touching(head', tail) then (head', head) else (head', tail)
  }

  /** Head and tail after the given unit steps, both starting at the origin. */
  function Run1(steps: seq<Direction>): (Pos, Pos)
    decreases |steps|
  {
    if steps == [] then ((0, 0), (0, 0)) else Step1(Run1(steps[..|steps| - 1]), steps[|steps| - 1])
  }

  /** Every cell the tail occupies at some point of the given steps. */
  function Visited1(steps: seq<Direction>): set<Pos>
    decreases |steps|
  {
    if steps == [] then {(0, 0)} else Visited1(steps[..|steps| - 1]) + {Run1(steps).1}
  }

  function Clamp(x: int): int { if x < -1 then -1 else if x > 1 then 1 else x }

  /** A move of at most one cell along each axis. */
  predicate KingMove(p: Pos, q: Pos) {
    Touching(p, q)
  }

  /** Part one's jump keeps the tail touching, and it is the same as moving the tail by
      its clamped difference to the head, the rule part two uses. */
  lemma Step1KeepsTouching(rope: (Pos, Pos), d: Direction)
    requires Touching(rope.0, rope.1)
    ensures Touching(Step1(rope, d).0, Step1(rope, d).1)
    ensures Step1(rope, d).1 == Pull(Step(rope.0, d), rope.1)
  {
    var (head, tail) := rope;
    var head' := Step(head, d);
    TouchingIffNear(head', tail);
    TouchingIffNear(head', head);
  }

  lemma {:induction false} Run1Touching(steps: seq<Direction>)
    ensures Touching(Run1(steps).0, Run1(steps).1)
    ensures Run1(steps).1 in Visited1(steps)
    decreases |steps|
  {
    if steps != [] {
      Run1Touching(steps[..|steps| - 1]);
      Step1KeepsTouching(Run1(steps[..|steps| - 1]), steps[|steps| - 1]);
    }
  }

  lemma {:induction false} TailVisited(steps: seq<Direction>, k: nat)
    requires k <= |steps|
    ensures Run1(steps[..k]).1 in Visited1(steps)
    decreases |steps|
  {
    if k == |steps| {
      assert steps[..k] == steps;
      Run1Touching(steps);
    } else {
      var init := steps[..|steps| - 1];
      assert init[..k] == steps[..k];
      TailVisited(init, k);
    }
  }

  lemma {:induction false} VisitedWasTail(steps: seq<Direction>, p: Pos)
    requires p in Visited1(steps)
    ensures exists k :: 0 <= k <= |steps| && Run1(steps[..k]).1 == p
    decreases |steps|
  {
    if steps == [] {
      assert steps[..0] == steps;
    } else if p == Run1(steps).1 {
      assert steps[..|steps|] == steps;
    } else {
      var init := steps[..|steps| - 1];
      VisitedWasTail(init, p);
      var k :| 0 <= k <= |init| && Run1(init[..k]).1 == p;
      assert init[..k] == steps[..k];
    }
  }

  /** The visited set holds the origin, and it is exactly the set of cells the tail
      occupies at some point. */
  lemma Visited1Meaning(steps: seq<Direction>)
    ensures (0, 0) in Visited1(steps)
    ensures forall p :: p in Visited1(steps) <==> exists k :: 0 <= k <= |steps| && Run1(steps[..k]).1 == p
  {
    forall p ensures p in Visited1(steps) <==> exists k :: 0 <= k <= |steps| && Run1(steps[..k]).1 == p {
      if p in Visited1(steps) {
        VisitedWasTail(steps, p);
      }
      if exists k :: 0 <= k <= |steps| && Run1(steps[..k]).1 == p {
        var k :| 0 <= k <= |steps| && Run1(steps[..k]).1 == p;
        TailVisited(steps, k);
      }
    }
    TailVisited(steps, 0);
    assert steps[..0] == [];
  }

  /** `part1`: head and tail start at the origin, each motion runs as unit steps,
      and the tail's cell is inserted into `visited` whenever it jumps. */
  method Part1(data: seq<Motion>) returns (r: nat)
    ensures r == |Visited1(Steps(data))|
  {
    var head: Pos := (0, 0);
    var tail: Pos := (0, 0);
    var visited: set<Pos> := {tail};
    ghost var done: seq<Direction> := [];
    var m := 0;
    while m < |data|
      invariant 0 <= m <= |data|
      invariant done == Steps(data[..m])
      invariant (head, tail) == Run1(done) && visited == Visited1(done)
    {
      var motion := data[m];
      var n := if motion.amount < 0 then 0 else motion.amount;
      var j := 0;
      ghost var before := done;
      while j < n
        invariant 0 <= j <= n
        invariant done == before + seq(j, _ => motion.dir)
        invariant (head, tail) == Run1(done) && visited == Visited1(done)
      {
        Run1Snoc(done, motion.dir);
        head, tail, visited := TailStep(head, tail, visited, motion.dir);
        RepeatSnoc(before, motion.dir, j);
        done := done + [motion.dir];
        j := j + 1;
      }
      assert data[..m + 1][..m] == data[..m];
      m := m + 1;
    }
    assert data[..m] == data;
    return |visited|;
  }

  /** One unit step of part one (the body of the inner `for_each`): the head moves,
      and a tail that no longer touches it jumps to the head's previous cell, which
      is then inserted into `visited`. */
  method TailStep(head: Pos, tail: Pos, visited: set<Pos>, d: Direction)
    returns (head': Pos, tail': Pos, visited': set<Pos>)
    requires tail in visited
    ensures (head', tail') == Step1((head, tail), d) && visited' == visited + {tail'}
  {
    head', tail', visited' := Add(head, Vector(Motion(d, 1))), tail, visited;
    var diff := Sub(head', tail);
    TouchingIffNear(head', tail);
    if Dot(diff) > 2 {
      tail' := head;
      visited' := visited' + {tail'};
    }
  }

  lemma Run1Snoc(done: seq<Direction>, d: Direction)
    ensures Run1(done + [d]) == Step1(Run1(done), d)
    ensures Visited1(done + [d]) == Visited1(done) + {Step1(Run1(done), d).1}
    ensures Run1(done).1 in Visited1(done)
  {
    Run1Touching(done);
    assert (done + [d])[..|done|] == done;
  }

  /** Part two's rule for one knot: one that no longer touches the knot ahead moves
      by their difference clamped to [-1, 1] on each axis. */
  function Pull(lead: Pos, knot: Pos): Pos {
    var diff := Sub(lead, knot);
    if !Touching(lead, knot) then Add(knot, (Clamp(diff.0), Clamp(diff.1))) else knot
  }

  const Knots: nat := 10

  /** The inner `(0..9).for_each`: knots `i + 1` to 9 are pulled in turn. */
  function FollowFrom(rope: seq<Pos>, i: nat): (r: seq<Pos>)
    requires i < |rope|
    ensures |r| == |rope|
    decreases |rope| - i
  {
    if i + 1 == |rope| then rope
    else FollowFrom(rope[i + 1 := Pull(rope[i], rope[i + 1])], i + 1)
  }

  lemma FollowFromUnfold(rope: seq<Pos>, i: nat)
    requires |rope| == Knots && i < Knots - 1
    ensures FollowFrom(rope, i) == FollowFrom(rope[i + 1 := Pull(rope[i], rope[i + 1])], i + 1)
  {
  }

  /** Part two's step: the head moves and the other knots follow one after another. */
  function Step2(rope: seq<Pos>, d: Direction): (r: seq<Pos>)
    requires |rope| == Knots
    ensures |r| == Knots
  {
    FollowFrom(rope[0 := Step(rope[0], d)], 0)
  }

  function Run2(steps: seq<Direction>): (r: seq<Pos>)
    ensures |r| == Knots
    decreases |steps|
  {
    if steps == [] then seq(Knots, _ => (0, 0)) else Step2(Run2(steps[..|steps| - 1]), steps[|steps| - 1])
  }

  /** Every cell the last knot occupies at some point of the given steps. */
  function Visited2(steps: seq<Direction>): set<Pos>
    decreases |steps|
  {
    if steps == [] then {(0, 0)} else Visited2(steps[..|steps| - 1]) + {Last(steps)}
  }

  /** The last knot after the given steps. */
  function Last(steps: seq<Direction>): Pos {
    Run2(steps)[Knots - 1]
  }

  /** Each knot touches the one ahead of it. */
  predicate RopeTouching(rope: seq<Pos>) {
    forall i :: 0 <= i < |rope| - 1 ==> Touching(rope[i], rope[i + 1])
  }

  /** A knot that touched its leader before the leader made a king move ends up
      touching it again, itself moving by at most one cell per axis. */
  lemma PullAfterKingMove(leadBefore: Pos, lead: Pos, knot: Pos)
    requires Touching(leadBefore, knot) && KingMove(leadBefore, lead)
    ensures Touching(lead, Pull(lead, knot)) && KingMove(knot, Pull(lead, knot))
  {
    TouchingIffNear(lead, knot);
  }

  lemma {:induction false} FollowFromKeepsTouching(rope: seq<Pos>, i: nat, leadBefore: Pos)
    requires |rope| == Knots && i < Knots
    requires forall j :: 0 <= j < i ==> Touching(rope[j], rope[j + 1])
    requires forall j :: i < j < Knots - 1 ==> Touching(rope[j], rope[j + 1])
    requires i < Knots - 1 ==> Touching(leadBefore, rope[i + 1]) && KingMove(leadBefore, rope[i])
    ensures RopeTouching(FollowFrom(rope, i))
    decreases Knots - i
  {
    if i < Knots - 1 {
      var next := rope[i + 1 := Pull(rope[i], rope[i + 1])];
      PullAfterKingMove(leadBefore, rope[i], rope[i + 1]);
      FollowFromKeepsTouching(next, i + 1, rope[i + 1]);
    }
  }

  lemma {:induction false} Run2Touching(steps: seq<Direction>)
    ensures RopeTouching(Run2(steps))
    ensures Last(steps) in Visited2(steps)
    decreases |steps|
  {
    if steps != [] {
      var before := Run2(steps[..|steps| - 1]);
      Run2Touching(steps[..|steps| - 1]);
      var moved := before[0 := Step(before[0], steps[|steps| - 1])];
      FollowFromKeepsTouching(moved, 0, before[0]);
    } else {
      assert Run2(steps) == seq(Knots, _ => (0, 0));
    }
  }

  /** One unit step of part two (the body of the inner `for_each`): the head moves,
      knots 1 to 9 are pulled in turn, and the last knot's new cell is inserted
      into `visited` exactly when it moves. */
  method StepRope(rope: seq<Pos>, visited: set<Pos>, d: Direction) returns (rope': seq<Pos>, visited': set<Pos>)
    requires |rope| == Knots
    ensures rope' == Step2(rope, d)
    ensures visited' == if rope'[Knots - 1] != rope[Knots - 1] then visited + {rope'[Knots - 1]} else visited
  {
    rope' := rope[0 := Add(rope[0], Vector(Motion(d, 1)))];
    visited' := visited;
    var i := 0;
    while i < Knots - 1
      invariant 0 <= i <= Knots - 1 && |rope'| == Knots
      invariant FollowFrom(rope', i) == Step2(rope, d)
      invariant i < Knots - 1 ==> rope'[Knots - 1] == rope[Knots - 1]
      invariant visited' == if rope'[Knots - 1] != rope[Knots - 1] then visited + {rope'[Knots - 1]} else visited
    {
      var diff := Sub(rope'[i], rope'[i + 1]);
      ghost var pulled := Pull(rope'[i], rope'[i + 1]);
      ghost var prev := rope';
      FollowFromUnfold(rope', i);
      TouchingIffNear(rope'[i], rope'[i + 1]);
      if Dot(diff) > 2 {
        rope' := rope'[i + 1 := Add(rope'[i + 1], (Clamp(diff.0), Clamp(diff.1)))];
        if i == Knots - 2 {
          assert diff != (0, 0);
          visited' := visited' + {rope'[i + 1]};
        }
      }
      assert rope' == prev[i + 1 := pulled];
      i := i + 1;
    }
  }

  lemma Run2Snoc(done: seq<Direction>, d: Direction)
    ensures Run2(done + [d]) == Step2(Run2(done), d)
    ensures Visited2(done + [d]) == Visited2(done) + {Step2(Run2(done), d)[Knots - 1]}
    ensures Run2(done)[Knots - 1] in Visited2(done)
  {
    Run2Touching(done);
    assert (done + [d])[..|done|] == done;
  }

  /** One more repetition of a step is one more step at the end. */
  lemma RepeatSnoc(done: seq<Direction>, d: Direction, j: nat)
    ensures done + seq(j + 1, _ => d) == (done + seq(j, _ => d)) + [d]
  {
    assert seq(j + 1, _ => d) == seq(j, _ => d) + [d];
  }

  /** A unit step of part two, in terms of the steps done so far. */
  method StepAfter(rope: seq<Pos>, visited: set<Pos>, d: Direction, ghost done: seq<Direction>)
    returns (rope': seq<Pos>, visited': set<Pos>)
    requires rope == Run2(done) && visited == Visited2(done)
    ensures rope' == Run2(done + [d]) && visited' == Visited2(done + [d])
  {
    Run2Snoc(done, d);
    rope', visited' := StepRope(rope, visited, d);
  }

  /** One motion of part two: `amount` unit steps of `StepRope`. */
  method Motion2(rope: seq<Pos>, visited: set<Pos>, motion: Motion, ghost done: seq<Direction>)
    returns (rope': seq<Pos>, visited': set<Pos>)
    requires rope == Run2(done) && visited == Visited2(done)
    ensures var after := done + seq(if motion.amount < 0 then 0 else motion.amount, _ => motion.dir);
      rope' == Run2(after) && visited' == Visited2(after)
  {
    rope', visited' := rope, visited;
    var n := if motion.amount < 0 then 0 else motion.amount;
    var j := 0;
    ghost var steps := done;
    while j < n
      invariant 0 <= j <= n
      invariant steps == done + seq(j, _ => motion.dir)
      invariant rope' == Run2(steps) && visited' == Visited2(steps)
    {
      rope', visited' := StepAfter(rope', visited', motion.dir, steps);
      RepeatSnoc(done, motion.dir, j);
      steps := steps + [motion.dir];
      j := j + 1;
    }
  }

  /** `part2`: ten knots at the origin, each motion run as unit steps of `StepRope`. */
  method Part2(data: seq<Motion>) returns (r: nat)
    ensures r == |Visited2(Steps(data))|
  {
    var rope: seq<Pos> := seq(Knots, _ => (0, 0));
    var visited: set<Pos> := {rope[Knots - 1]};
    var m := 0;
    while m < |data|
      invariant 0 <= m <= |data|
      invariant rope == Run2(Steps(data[..m])) && visited == Visited2(Steps(data[..m]))
    {
      assert data[..m + 1][..m] == data[..m];
      rope, visited := Motion2(rope, visited, data[m], Steps(data[..m]));
      m := m + 1;
    }
    assert data[..m] == data;
    return |visited|;
  }

  lemma {:induction false} LastVisited(steps: seq<Direction>, k: nat)
    requires k <= |steps|
    ensures Last(steps[..k]) in Visited2(steps)
    decreases |steps|
  {
    if k == |steps| {
      assert steps[..k] == steps;
      Run2Touching(steps);
    } else {
      var init := steps[..|steps| - 1];
      assert init[..k] == steps[..k];
      LastVisited(init, k);
    }
  }

  lemma {:induction false} VisitedWasLast(steps: seq<Direction>, p: Pos)
    requires p in Visited2(steps)
    ensures exists k :: 0 <= k <= |steps| && Last(steps[..k]) == p
    decreases |steps|
  {
    if steps == [] {
      assert steps[..0] == steps;
      assert Last(steps[..0]) == (0, 0);
    } else if p == Last(steps) {
      assert steps[..|steps|] == steps;
    } else {
      var init := steps[..|steps| - 1];
      VisitedWasLast(init, p);
      var k :| 0 <= k <= |init| && Last(init[..k]) == p;
      assert init[..k] == steps[..k];
    }
  }

  /** The visited set of part two holds the origin, and it is exactly the set of cells
      the last knot occupies at some point. */
  lemma Visited2Meaning(steps: seq<Direction>)
    ensures (0, 0) in Visited2(steps)
    ensures forall p :: p in Visited2(steps) <==> exists k :: 0 <= k <= |steps| && Last(steps[..k]) == p
  {
    forall p ensures p in Visited2(steps) <==> exists k :: 0 <= k <= |steps| && Last(steps[..k]) == p {
      if p in Visited2(steps) {
        VisitedWasLast(steps, p);
      }
      if exists k :: 0 <= k <= |steps| && Last(steps[..k]) == p {
        var k :| 0 <= k <= |steps| && Last(steps[..k]) == p;
        LastVisited(steps, k);
      }
    }
    LastVisited(steps, 0);
    assert steps[..0] == [];
    assert Last([]) == (0, 0);
  }
}
