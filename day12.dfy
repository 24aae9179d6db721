/** Day 12: the fewest steps across a heightmap (src/days/day12.rs). */
module Day12 {
  import opened Wrappers
  import opened Text
  import opened Seqs

  /** A cell `(x, y)`: column, then row. */
  type Pos = (int, int)

  // ---------------------------------------------------------------------------
  // Heights and the parsed map

  /** `Height::value`: 'S' stands as low as 'a', 'E' as high as 'z', and every other
      character counts up from 'a'. */
  function HeightValue(c: char): (v: int)
    ensures c == 'S' ==> v == 0
    ensures c == 'E' ==> v == 25
    ensures c != 'S' && c != 'E' ==> v == c as int - 'a' as int
  {
    var h := if c == 'S' then 'a' else if c == 'E' then 'z' else c;
    h as int - 'a' as int
  }

  /** The start and the end have the heights of the letters they stand on, and the
      letters climb from 0 to 25. */
  lemma LetterHeights(c: char, d: char)
    requires 'a' <= c <= 'z' && 'a' <= d <= 'z'
    ensures 0 <= HeightValue(c) <= 25
    ensures HeightValue(c) < HeightValue(d) <==> c < d
    ensures HeightValue('S') == HeightValue('a') && HeightValue('E') == HeightValue('z')
  {
  }

  /** `Heightmap` without its closures: the rows of height characters and the cells of
      the start `S` and the end `E`. */
  datatype Heightmap = Heightmap(start: Pos, end: Pos, grid: seq<string>)

  /** At least one row, every row as long as the first, which is not empty. */
  predicate Rectangular(grid: seq<string>) {
    |grid| > 0 && |grid[0]| > 0 && forall y :: 0 <= y < |grid| ==> |grid[y]| == |grid[0]|
  }

  /** `0 <= x < cols` and `0 <= y < rows`. */
  predicate InBounds(grid: seq<string>, p: Pos)
    requires |grid| > 0
  {
    0 <= p.0 < |grid[0]| && 0 <= p.1 < |grid|
  }

  predicate WellFormed(hm: Heightmap) {
    Rectangular(hm.grid) && InBounds(hm.grid, hm.start) && InBounds(hm.grid, hm.end)
  }

  /** `Heightmap::height`. */
  function Height(hm: Heightmap, p: Pos): int
    requires Rectangular(hm.grid) && InBounds(hm.grid, p)
  {
    HeightValue(hm.grid[p.1][p.0])
  }

  // ---------------------------------------------------------------------------
  // The two searches: the `goal` and `valid_height` closures that `part1` and
  // `part2` install

  /** `part1` climbs from S to E; `part2` walks back down from E to any lowest cell. */
  datatype Mode = Climb | Descend

  /** `valid_height(new_pos, pos)`: part 1 may climb at most one, part 2 may
      descend at most one. */
  predicate ValidStep(hm: Heightmap, mode: Mode, from: Pos, to: Pos)
    requires Rectangular(hm.grid) && InBounds(hm.grid, from) && InBounds(hm.grid, to)
  {
    match mode
    case Climb => Height(hm, to) - Height(hm, from) <= 1
    case Descend => Height(hm, from) - Height(hm, to) <= 1
  }

  /** `goal`: part 1 stops at E, part 2 at any cell as low as 'a'. */
  predicate Goal(hm: Heightmap, mode: Mode, p: Pos)
    requires Rectangular(hm.grid) && InBounds(hm.grid, p)
  {
    match mode
    case Climb => p == hm.end
    case Descend => Height(hm, p) == HeightValue('a')
  }

  /** A step of part 2 is a step of part 1 taken backwards. */
  lemma DescendIsClimbBack(hm: Heightmap, p: Pos, q: Pos)
    requires Rectangular(hm.grid) && InBounds(hm.grid, p) && InBounds(hm.grid, q)
    ensures ValidStep(hm, Descend, p, q) <==> ValidStep(hm, Climb, q, p)
  {
  }

  function Abs(a: int): nat { if a < 0 then -a else a }

  /** `p` and `q` are one step apart along an axis. */
  predicate Adjacent(p: Pos, q: Pos) {
    Abs(p.0 - q.0) + Abs(p.1 - q.1) == 1
  }

  /** The four offsets of `get_neighbours`, in its order: left, up, down, right. */
  function Offsets(p: Pos): seq<Pos> {
    [(p.0 - 1, p.1), (p.0, p.1 - 1), (p.0, p.1 + 1), (p.0 + 1, p.1)]
  }

  lemma OffsetsAreAdjacent(p: Pos)
    ensures forall q :: q in Offsets(p) <==> Adjacent(p, q)
  {
    forall q | Adjacent(p, q) ensures q in Offsets(p) {
      if q.0 == p.0 {
        assert q == (p.0, p.1 - 1) || q == (p.0, p.1 + 1);
      } else {
        assert q == (p.0 - 1, p.1) || q == (p.0 + 1, p.1);
      }
    }
  }

  /** The candidates, in order, that lie on the map and pass `valid_height`. */
  function Keep(hm: Heightmap, mode: Mode, p: Pos, cands: seq<Pos>): seq<Pos>
    requires Rectangular(hm.grid) && InBounds(hm.grid, p)
  {
    if cands == [] then []
    else
      var rest := Keep(hm, mode, p, cands[1..]);
      var q := cands[0];
      if InBounds(hm.grid, q) && ValidStep(hm, mode, p, q) then [q] + rest else rest
  }

  lemma {:induction false} KeepHas(hm: Heightmap, mode: Mode, p: Pos, cands: seq<Pos>)
    requires Rectangular(hm.grid) && InBounds(hm.grid, p)
    ensures forall q :: q in Keep(hm, mode, p, cands) <==>
      q in cands && InBounds(hm.grid, q) && ValidStep(hm, mode, p, q)
  {
    if cands != [] {
      KeepHas(hm, mode, p, cands[1..]);
      assert forall c :: c in cands <==> c == cands[0] || c in cands[1..];
    }
  }

  /** `get_neighbours`. */
  function Neighbours(hm: Heightmap, mode: Mode, p: Pos): seq<Pos>
    requires Rectangular(hm.grid) && InBounds(hm.grid, p)
  {
    Keep(hm, mode, p, Offsets(p))
  }

  /** The neighbours are exactly the cells one axis step away that lie on the map and
      may be stepped to. */
  lemma NeighboursMeaning(hm: Heightmap, mode: Mode, p: Pos)
    requires Rectangular(hm.grid) && InBounds(hm.grid, p)
    ensures forall q :: q in Neighbours(hm, mode, p) <==>
      Adjacent(p, q) && InBounds(hm.grid, q) && ValidStep(hm, mode, p, q)
  {
    OffsetsAreAdjacent(p);
    KeepHas(hm, mode, p, Offsets(p));
  }

  /** `heuristic`: the Manhattan distance to the end. */
  function Heuristic(hm: Heightmap, p: Pos): nat {
    Abs(p.0 - hm.end.0) + Abs(p.1 - hm.end.1)
  }

  /** The estimate is zero exactly at the end and changes by one with each step, so it
      never overestimates the steps left. */
  lemma HeuristicMeaning(hm: Heightmap, p: Pos, q: Pos)
    ensures Heuristic(hm, p) == 0 <==> p == hm.end
    ensures Adjacent(p, q) ==> Heuristic(hm, q) == Heuristic(hm, p) + 1 || Heuristic(hm, p) == Heuristic(hm, q) + 1
  {
  }

  // ---------------------------------------------------------------------------
  // Walks

  /** A walk: cells on the map, each one axis step from the last and allowed by the
      mode. */
  predicate IsWalk(hm: Heightmap, mode: Mode, w: seq<Pos>)
    requires Rectangular(hm.grid)
  {
    |w| > 0 && (forall k :: 0 <= k < |w| ==> InBounds(hm.grid, w[k])) &&
    forall k :: 0 <= k < |w| - 1 ==> Adjacent(w[k], w[k + 1]) && ValidStep(hm, mode, w[k], w[k + 1])
  }

  ghost predicate Reachable(hm: Heightmap, mode: Mode, from: Pos, to: Pos)
    requires Rectangular(hm.grid)
  {
    exists w :: IsWalk(hm, mode, w) && w[0] == from && w[|w| - 1] == to
  }

  /** Read backwards, a walk of part 2 is a walk of part 1, and the other way round. */
  lemma WalkBackwards(hm: Heightmap, w: seq<Pos>)
    requires Rectangular(hm.grid)
    ensures IsWalk(hm, Descend, w) <==> IsWalk(hm, Climb, Reverse(w))
  {
    var r := Reverse(w);
    if IsWalk(hm, Descend, w) {
      forall k | 0 <= k < |r| - 1 ensures Adjacent(r[k], r[k + 1]) && ValidStep(hm, Climb, r[k], r[k + 1]) {
        var j := |w| - 2 - k;
        assert r[k] == w[j + 1] && r[k + 1] == w[j];
        DescendIsClimbBack(hm, w[j], w[j + 1]);
      }
    }
    if IsWalk(hm, Climb, r) {
      forall k | 0 <= k < |w| ensures InBounds(hm.grid, w[k]) {
        assert w[k] == r[|w| - 1 - k];
      }
      forall j | 0 <= j < |w| - 1 ensures Adjacent(w[j], w[j + 1]) && ValidStep(hm, Descend, w[j], w[j + 1]) {
        var k := |w| - 2 - j;
        assert r[k] == w[j + 1] && r[k + 1] == w[j];
        DescendIsClimbBack(hm, w[j], w[j + 1]);
      }
    }
  }

  /** Whatever climbs from `p` to `q` can be walked back down from `q` to `p`. */
  lemma ReachableBack(hm: Heightmap, p: Pos, q: Pos)
    requires Rectangular(hm.grid)
    ensures Reachable(hm, Climb, p, q) ==> Reachable(hm, Descend, q, p)
  {
    if Reachable(hm, Climb, p, q) {
      var w :| IsWalk(hm, Climb, w) && w[0] == p && w[|w| - 1] == q;
      var r := Reverse(w);
      ReverseReverse(w);
      WalkBackwards(hm, r);
      assert IsWalk(hm, Descend, r) && r[0] == q && r[|r| - 1] == p;
    }
  }

  // ---------------------------------------------------------------------------
  // Search states

  /** The start's estimate is `f32::INFINITY`; every other one is a distance. */
  datatype Estimate = Finite(n: nat) | Infinite

  /** `State`, its parent a link into the arena of all states created so far (the
      source shares them through `Rc`). */
  datatype State = State(pos: Pos, cost: nat, heuristic: Estimate, parent: Option<nat>)

  /** `State::new_start`. */
  function StartState(p: Pos): State {
    State(p, 0, Infinite, None)
  }

  /** `cost`: one more than the state it is called on. */
  function Cost(s: State): (c: nat)
    ensures c > s.cost
  {
    s.cost + 1
  }

  function EstimateLe(a: Estimate, b: Estimate): bool {
    b.Infinite? || (a.Finite? && a.n <= b.n)
  }

  /** The heap's order: the `<=` and `>=` that `BinaryHeap` sifts with come from the
      derived field-by-field `PartialOrd`, so a state of lower cost is popped first,
      and among equal costs one of lower estimate. */
  predicate PopsFirst(a: State, b: State) {
    a.cost < b.cost || (a.cost == b.cost && EstimateLe(a.heuristic, b.heuristic))
  }

  /** Any two states can be ordered. */
  lemma PopsFirstTotal(a: State, b: State)
    ensures PopsFirst(a, b) || PopsFirst(b, a)
  {
  }

  lemma PopsFirstTrans(a: State, b: State, c: State)
    requires PopsFirst(a, b) && PopsFirst(b, c)
    ensures PopsFirst(a, c)
  {
  }

  /** State `i` of the frontier pops no later than any other state of it. */
  predicate Least(arena: seq<State>, frontier: set<nat>, i: nat)
    requires forall j :: j in frontier ==> j < |arena|
  {
    i in frontier && forall j :: j in frontier ==> PopsFirst(arena[i], arena[j])
  }

  /** A non-empty frontier has a state that pops first. */
  lemma {:induction false} MinExists(arena: seq<State>, frontier: set<nat>)
    requires frontier != {} && forall i :: i in frontier ==> i < |arena|
    ensures exists i: nat :: Least(arena, frontier, i)
    decreases |frontier|
  {
    var e :| e in frontier;
    if frontier == {e} {
      assert Least(arena, frontier, e);
    } else {
      var rest := frontier - {e};
      MinExists(arena, rest);
      var m: nat :| Least(arena, rest, m);
      if PopsFirst(arena[m], arena[e]) {
        forall j | j in frontier ensures PopsFirst(arena[m], arena[j]) {
          if j != e {
            assert j in rest;
          }
        }
        assert Least(arena, frontier, m);
      } else {
        PopsFirstTotal(arena[m], arena[e]);
        forall j | j in frontier ensures PopsFirst(arena[e], arena[j]) {
          if j != e {
            assert j in rest;
            PopsFirstTrans(arena[e], arena[m], arena[j]);
          }
        }
        assert Least(arena, frontier, e);
      }
    }
  }

  /** Every parent link leads to an earlier state. */
  predicate Linked(arena: seq<State>) {
    forall i :: 0 <= i < |arena| && arena[i].parent.Some? ==> arena[i].parent.value < i
  }

  /** State `i` was pushed from its parent: one step further, one more in cost. */
  predicate Link(hm: Heightmap, mode: Mode, arena: seq<State>, i: int)
    requires Rectangular(hm.grid) && 0 <= i < |arena|
  {
    arena[i].parent.Some? && arena[i].parent.value < i &&
    var from, to := arena[arena[i].parent.value], arena[i];
    to.cost == from.cost + 1 && Adjacent(from.pos, to.pos) &&
    InBounds(hm.grid, from.pos) && InBounds(hm.grid, to.pos) && ValidStep(hm, mode, from.pos, to.pos)
  }

  /** The states the search has created: the start first, every other one pushed from
      its parent, no cell twice. */
  predicate ArenaOk(hm: Heightmap, mode: Mode, start: Pos, arena: seq<State>)
    requires Rectangular(hm.grid)
  {
    |arena| > 0 && arena[0] == StartState(start) && InBounds(hm.grid, start) &&
    (forall i :: 0 <= i < |arena| ==> InBounds(hm.grid, arena[i].pos)) &&
    (forall i :: 0 < i < |arena| ==> Link(hm, mode, arena, i)) &&
    forall i, j :: 0 <= i < j < |arena| ==> arena[i].pos != arena[j].pos
  }

  lemma ArenaLinked(hm: Heightmap, mode: Mode, start: Pos, arena: seq<State>)
    requires Rectangular(hm.grid) && ArenaOk(hm, mode, start, arena)
    ensures Linked(arena)
  {
    forall i | 0 <= i < |arena| && arena[i].parent.Some? ensures arena[i].parent.value < i {
      if i > 0 {
        assert Link(hm, mode, arena, i);
      }
    }
  }

  /** The states from the start to state `i` along the parent links. */
  function Chain(arena: seq<State>, i: nat): (c: seq<State>)
    requires i < |arena| && Linked(arena)
    ensures |c| > 0 && c[|c| - 1] == arena[i]
    decreases i
  {
    match arena[i].parent
    case None => [arena[i]]
    case Some(j) => Chain(arena, j) + [arena[i]]
  }

  function Positions(states: seq<State>): (ps: seq<Pos>)
    ensures |ps| == |states| && forall k :: 0 <= k < |states| ==> ps[k] == states[k].pos
  {
    seq(|states|, k requires 0 <= k < |states| => states[k].pos)
  }

  /** What `shortest_path` returns: a walk from the start state, which has no parent,
      through states whose costs count the steps, never through a cell twice. */
  predicate PathOk(hm: Heightmap, mode: Mode, start: Pos, path: seq<State>)
    requires Rectangular(hm.grid)
  {
    |path| > 0 && path[0] == StartState(start) &&
    (forall k :: 0 < k < |path| ==> path[k].parent.Some?) &&
    (forall k :: 0 <= k < |path| ==> path[k].cost == k) &&
    IsWalk(hm, mode, Positions(path)) &&
    forall k, l :: 0 <= k < l < |path| ==> path[k].pos != path[l].pos
  }

  /** Every state of the chain to `i` is a state at or before `i`. */
  lemma {:induction false} ChainFrom(arena: seq<State>, i: nat)
    requires i < |arena| && Linked(arena)
    ensures forall k :: 0 <= k < |Chain(arena, i)| ==>
      exists j :: 0 <= j <= i && Chain(arena, i)[k] == arena[j]
    decreases i
  {
    var c := Chain(arena, i);
    match arena[i].parent
    case None =>
    case Some(p) =>
      ChainFrom(arena, p);
      forall k | 0 <= k < |c| ensures exists j :: 0 <= j <= i && c[k] == arena[j] {
        if k < |c| - 1 {
          assert c[k] == Chain(arena, p)[k];
          var j :| 0 <= j <= p && Chain(arena, p)[k] == arena[j];
          assert 0 <= j <= i && c[k] == arena[j];
        } else {
          assert c[k] == arena[i];
        }
      }
  }

  /** The chain to any state of the arena is a path as `shortest_path` promises. */
  lemma {:induction false} ChainOk(hm: Heightmap, mode: Mode, start: Pos, arena: seq<State>, i: nat)
    requires Rectangular(hm.grid) && ArenaOk(hm, mode, start, arena) && Linked(arena) && i < |arena|
    ensures PathOk(hm, mode, start, Chain(arena, i))
    decreases i
  {
    var c := Chain(arena, i);
    if i == 0 {
      assert c == [arena[0]];
    } else {
      assert Link(hm, mode, arena, i);
      var p := arena[i].parent.value;
      ChainOk(hm, mode, start, arena, p);
      ChainFrom(arena, p);
      var b := Chain(arena, p);
      assert c == b + [arena[i]];
      assert b[|b| - 1] == arena[p];
      forall k | 0 <= k < |b| ensures b[k].pos != arena[i].pos {
        var j :| 0 <= j <= p && b[k] == arena[j];
      }
      PathSnoc(hm, mode, start, b, arena[i]);
    }
  }

  /** A path extended by a state pushed from its last one, at a cell it has not
      visited, is still a path. */
  lemma PathSnoc(hm: Heightmap, mode: Mode, start: Pos, b: seq<State>, s: State)
    requires Rectangular(hm.grid) && PathOk(hm, mode, start, b)
    requires var last := b[|b| - 1];
      s.parent.Some? && s.cost == last.cost + 1 && Adjacent(last.pos, s.pos) &&
      InBounds(hm.grid, last.pos) && InBounds(hm.grid, s.pos) && ValidStep(hm, mode, last.pos, s.pos)
    requires forall k :: 0 <= k < |b| ==> b[k].pos != s.pos
    ensures PathOk(hm, mode, start, b + [s])
  {
    var c := b + [s];
    forall k | 0 < k < |c| ensures c[k].parent.Some? {
      if k < |b| {
        assert c[k] == b[k];
      }
    }
    forall k | 0 <= k < |c| ensures c[k].cost == k {
      if k < |b| {
        assert c[k] == b[k];
      }
    }
    var w, wb := Positions(c), Positions(b);
    forall k | 0 <= k < |w| - 1 ensures Adjacent(w[k], w[k + 1]) && ValidStep(hm, mode, w[k], w[k + 1]) {
      if k < |b| - 1 {
        assert w[k] == wb[k] && w[k + 1] == wb[k + 1];
      } else {
        assert w[k] == b[|b| - 1].pos && w[k + 1] == s.pos;
      }
    }
    forall k | 0 <= k < |w| ensures InBounds(hm.grid, w[k]) {
      if k < |b| {
        assert w[k] == wb[k];
      }
    }
    forall k, l | 0 <= k < l < |c| ensures c[k].pos != c[l].pos {
      if l < |b| {
        assert c[k] == b[k] && c[l] == b[l];
      }
    }
  }

  /** `solution`: push the state, then each parent in turn, and reverse. */
  method Solution(arena: seq<State>, i: nat) returns (path: seq<State>)
    requires i < |arena| && Linked(arena)
    ensures path == Chain(arena, i)
  {
    var rev := [arena[i]];
    var cur := i;
    while arena[cur].parent.Some?
      invariant cur < |arena| && |rev| > 0 && rev[|rev| - 1] == arena[cur]
      invariant Chain(arena, i) == Chain(arena, cur)[..|Chain(arena, cur)| - 1] + Reverse(rev)
      decreases cur
    {
      var c := Chain(arena, cur);
      cur := arena[cur].parent.value;
      var b := Chain(arena, cur);
      assert c[..|c| - 1] == b;
      assert b == b[..|b| - 1] + [arena[cur]];
      ReverseAppend(rev, arena[cur]);
      rev := rev + [arena[cur]];
    }
    assert Chain(arena, cur) == [arena[cur]];
    path := Reverse(rev);
  }

  // ---------------------------------------------------------------------------
  // The search

  /** Every cell of the map. */
  function AllCells(grid: seq<string>): set<Pos>
    requires |grid| > 0
  {
    set x: int, y: int | 0 <= x < |grid[0]| && 0 <= y < |grid| :: (x, y)
  }

  lemma InAllCells(grid: seq<string>, p: Pos)
    requires |grid| > 0 && InBounds(grid, p)
    ensures p in AllCells(grid)
  {
    var (x, y) := p;
    assert (x, y) in AllCells(grid);
  }

  lemma AddOne(all: set<Pos>, v: set<Pos>, q: Pos)
    requires q in all && q !in v
    ensures |all - (v + {q})| < |all - v|
  {
    assert all - v == (all - (v + {q})) + {q};
  }

  lemma Shrinks(all: set<Pos>, v: set<Pos>, w: set<Pos>)
    requires v <= w
    ensures |all - w| <= |all - v|
  {
    assert all - v == (all - w) + ((all - v) * w);
  }

  /** The cells of the states created so far. */
  function PosSet(arena: seq<State>): set<Pos> {
    set i | 0 <= i < |arena| :: arena[i].pos
  }

  /** A popped cell is not the goal, and every cell it may step to has been pushed. */
  predicate Closed(hm: Heightmap, mode: Mode, visited: set<Pos>, p: Pos)
    requires Rectangular(hm.grid) && InBounds(hm.grid, p)
  {
    !Goal(hm, mode, p) && forall q :: q in Neighbours(hm, mode, p) ==> q in visited
  }

  /** Cells of a set that is closed under every step hold every walk from a cell in it. */
  lemma {:induction false} WalkStaysIn(hm: Heightmap, mode: Mode, visited: set<Pos>, w: seq<Pos>, k: nat)
    requires Rectangular(hm.grid) && IsWalk(hm, mode, w) && w[0] in visited && k < |w|
    requires forall p :: p in visited ==> InBounds(hm.grid, p) && Closed(hm, mode, visited, p)
    ensures w[k] in visited
    decreases k
  {
    if k > 0 {
      WalkStaysIn(hm, mode, visited, w, k - 1);
      assert Adjacent(w[k - 1], w[k]) && ValidStep(hm, mode, w[k - 1], w[k]);
      NeighboursMeaning(hm, mode, w[k - 1]);
    }
  }

  /** When the frontier runs dry every pushed state has been popped, so no goal can be
      reached from the start. */
  lemma Exhausted(hm: Heightmap, mode: Mode, start: Pos, arena: seq<State>)
    requires Rectangular(hm.grid) && ArenaOk(hm, mode, start, arena)
    requires forall i :: 0 <= i < |arena| ==> Closed(hm, mode, PosSet(arena), arena[i].pos)
    ensures forall q :: InBounds(hm.grid, q) && Reachable(hm, mode, start, q) ==> !Goal(hm, mode, q)
  {
    var visited := PosSet(arena);
    AllClosed(hm, mode, start, arena);
    assert start in visited by {
      assert arena[0].pos == start;
    }
    forall q | InBounds(hm.grid, q) && Reachable(hm, mode, start, q) ensures !Goal(hm, mode, q) {
      var w :| IsWalk(hm, mode, w) && w[0] == start && w[|w| - 1] == q;
      WalkStaysIn(hm, mode, visited, w, |w| - 1);
    }
  }

  lemma AllClosed(hm: Heightmap, mode: Mode, start: Pos, arena: seq<State>)
    requires Rectangular(hm.grid) && ArenaOk(hm, mode, start, arena)
    requires forall i :: 0 <= i < |arena| ==> Closed(hm, mode, PosSet(arena), arena[i].pos)
    ensures forall p :: p in PosSet(arena) ==> InBounds(hm.grid, p) && Closed(hm, mode, PosSet(arena), p)
  {
    forall p | p in PosSet(arena) ensures InBounds(hm.grid, p) && Closed(hm, mode, PosSet(arena), p) {
      var i :| 0 <= i < |arena| && arena[i].pos == p;
    }
  }

  /** What holds between the rounds of `shortest_path`: the arena is sound, `visited`
      holds exactly its cells, the frontier holds states of the arena, and every state
      that has left the frontier is closed. */
  predicate Searching(hm: Heightmap, mode: Mode, start: Pos, arena: seq<State>, visited: set<Pos>, frontier: set<nat>)
    requires Rectangular(hm.grid)
  {
    ArenaOk(hm, mode, start, arena) &&
    visited == PosSet(arena) && visited <= AllCells(hm.grid) &&
    (forall i :: i in frontier ==> i < |arena|) &&
    forall i :: 0 <= i < |arena| && i !in frontier ==> Closed(hm, mode, visited, arena[i].pos)
  }

  /** `shortest_path` from `start`: `Some` path as soon as a popped state is a goal,
      `None` when the frontier empties first, which happens only when no goal can be
      reached. */
  method ShortestPath(hm: Heightmap, mode: Mode, start: Pos) returns (path: Option<seq<State>>)
    requires Rectangular(hm.grid) && InBounds(hm.grid, start)
    ensures path.Some? ==>
      (PathOk(hm, mode, start, path.value) && Goal(hm, mode, path.value[|path.value| - 1].pos))
    ensures path.None? ==> forall q :: InBounds(hm.grid, q) && Reachable(hm, mode, start, q) ==> !Goal(hm, mode, q)
  {
    var visited := {start};
    var arena := [StartState(start)];
    var frontier: set<nat> := {0};
    assert PosSet(arena) == {start} by {
      assert arena[0].pos == start;
    }
    InAllCells(hm.grid, start);
    while true
      invariant Searching(hm, mode, start, arena, visited, frontier)
      decreases |AllCells(hm.grid) - visited|, |frontier|
    {
      if frontier == {} {
        Exhausted(hm, mode, start, arena);
        return None;
      }
      MinExists(arena, frontier);
      var i: nat :| Least(arena, frontier, i);
      if Goal(hm, mode, arena[i].pos) {
        ArenaLinked(hm, mode, start, arena);
        var s := Solution(arena, i);
        ChainOk(hm, mode, start, arena, i);
        return Some(s);
      }
      arena, visited, frontier := Expand(hm, mode, start, arena, visited, frontier, i);
    }
  }

  /** What holds while the neighbours of the popped state `i` are pushed: as between
      rounds, except that `i` is not yet closed; and the visited cells only grow,
      newly visited ones shrinking the unvisited rest. */
  predicate Expanding(hm: Heightmap, mode: Mode, start: Pos, i: nat, current: State, visited0: set<Pos>,
                      frontier0: set<nat>, arena: seq<State>, visited: set<Pos>, frontier: set<nat>)
    requires Rectangular(hm.grid)
  {
    ArenaOk(hm, mode, start, arena) && i < |arena| && arena[i] == current &&
    visited == PosSet(arena) && visited0 <= visited <= AllCells(hm.grid) &&
    FrontierOk(arena, frontier, i) && ClosedBut(hm, mode, arena, visited, frontier, i) &&
    (visited == visited0 ==> frontier == frontier0 - {i}) &&
    (visited != visited0 ==> |AllCells(hm.grid) - visited| < |AllCells(hm.grid) - visited0|)
  }

  predicate FrontierOk(arena: seq<State>, frontier: set<nat>, i: nat) {
    (forall j :: j in frontier ==> j < |arena|) && i !in frontier
  }

  /** All states that have left the frontier, except `i`, are closed. */
  predicate ClosedBut(hm: Heightmap, mode: Mode, arena: seq<State>, visited: set<Pos>, frontier: set<nat>, i: nat)
    requires Rectangular(hm.grid) && forall j :: 0 <= j < |arena| ==> InBounds(hm.grid, arena[j].pos)
  {
    forall j :: 0 <= j < |arena| && j !in frontier && j != i ==> Closed(hm, mode, visited, arena[j].pos)
  }

  /** One round of `shortest_path` after popping state `i`, which is not a goal: push
      each of its neighbours not yet visited, marking it visited. Either some cell is
      newly visited, or the frontier has lost `i`. */
  method Expand(hm: Heightmap, mode: Mode, start: Pos, arena: seq<State>, visited: set<Pos>, frontier: set<nat>, i: nat)
    returns (arena': seq<State>, visited': set<Pos>, frontier': set<nat>)
    requires Rectangular(hm.grid) && Searching(hm, mode, start, arena, visited, frontier)
    requires i in frontier && !Goal(hm, mode, arena[i].pos)
    ensures Searching(hm, mode, start, arena', visited', frontier')
    ensures |AllCells(hm.grid) - visited'| < |AllCells(hm.grid) - visited| ||
      (visited' == visited && frontier' == frontier - {i})
  {
    arena', visited', frontier' := arena, visited, frontier - {i};
    var current := arena[i];
    var ns := Neighbours(hm, mode, current.pos);
    for k := 0 to |ns|
      invariant Expanding(hm, mode, start, i, current, visited, frontier, arena', visited', frontier')
      invariant forall l :: 0 <= l < k ==> ns[l] in visited'
    {
      ghost var before := visited';
      arena', visited', frontier' := Push(hm, mode, start, i, current, visited, frontier, arena', visited', frontier', ns[k]);
      PrefixVisited(ns, k, before, visited');
    }
    assert Closed(hm, mode, visited', current.pos);
  }

  lemma PrefixVisited(ns: seq<Pos>, k: nat, before: set<Pos>, after: set<Pos>)
    requires k < |ns| && after == before + {ns[k]}
    requires forall l :: 0 <= l < k ==> ns[l] in before
    ensures forall l :: 0 <= l < k + 1 ==> ns[l] in after
  {
  }

  /** The body of the `extend`: `visited.insert(q)`, and if `q` is new, a state for it
      pushed from `current`. */
  method Push(hm: Heightmap, mode: Mode, start: Pos, i: nat, current: State, visited0: set<Pos>,
              frontier0: set<nat>, arena: seq<State>, visited: set<Pos>, frontier: set<nat>, q: Pos)
    returns (arena': seq<State>, visited': set<Pos>, frontier': set<nat>)
    requires Rectangular(hm.grid) && Expanding(hm, mode, start, i, current, visited0, frontier0, arena, visited, frontier)
    requires q in Neighbours(hm, mode, current.pos)
    ensures Expanding(hm, mode, start, i, current, visited0, frontier0, arena', visited', frontier')
    ensures visited' == visited + {q}
  {
    arena', visited', frontier' := arena, visited, frontier;
    if q !in visited {
      var s := State(q, Cost(current), Finite(Heuristic(hm, q)), Some(i));
      PushKeeps(hm, mode, start, i, current, visited0, frontier0, arena, visited, frontier, q);
      var idx: nat := |arena|;
      visited', frontier', arena' := visited + {q}, frontier + {idx}, arena + [s];
    }
  }

  lemma PushKeeps(hm: Heightmap, mode: Mode, start: Pos, i: nat, current: State, visited0: set<Pos>,
                  frontier0: set<nat>, arena: seq<State>, visited: set<Pos>, frontier: set<nat>, q: Pos)
    requires Rectangular(hm.grid) && Expanding(hm, mode, start, i, current, visited0, frontier0, arena, visited, frontier)
    requires q in Neighbours(hm, mode, current.pos) && q !in visited
    ensures var s := State(q, Cost(current), Finite(Heuristic(hm, q)), Some(i));
      Expanding(hm, mode, start, i, current, visited0, frontier0, arena + [s], visited + {q}, frontier + {|arena|})
  {
    var s := State(q, Cost(current), Finite(Heuristic(hm, q)), Some(i));
    PushState(hm, mode, start, arena, visited, i, q);
    NeighboursMeaning(hm, mode, current.pos);
    PushClosed(hm, mode, arena, visited, frontier, i, s);
    PushShrinks(hm.grid, visited0, visited, q);
    PushFrontier(arena, frontier, i, s);
  }

  lemma PushFrontier(arena: seq<State>, frontier: set<nat>, i: nat, s: State)
    requires FrontierOk(arena, frontier, i) && i < |arena|
    ensures FrontierOk(arena + [s], frontier + {|arena|}, i)
  {
  }

  lemma PushShrinks(grid: seq<string>, visited0: set<Pos>, visited: set<Pos>, q: Pos)
    requires |grid| > 0 && visited0 <= visited <= AllCells(grid) && q !in visited && InBounds(grid, q)
    ensures visited + {q} <= AllCells(grid)
    ensures |AllCells(grid) - (visited + {q})| < |AllCells(grid) - visited0|
  {
    Shrinks(AllCells(grid), visited0, visited);
    InAllCells(grid, q);
    AddOne(AllCells(grid), visited, q);
  }

  /** Pushing an unvisited step from state `i` keeps the arena as the search needs it. */
  lemma PushState(hm: Heightmap, mode: Mode, start: Pos, arena: seq<State>, visited: set<Pos>, i: nat, q: Pos)
    requires Rectangular(hm.grid) && ArenaOk(hm, mode, start, arena) && visited == PosSet(arena)
    requires i < |arena| && q in Neighbours(hm, mode, arena[i].pos) && q !in visited
    ensures var next := arena + [State(q, Cost(arena[i]), Finite(Heuristic(hm, q)), Some(i))];
      ArenaOk(hm, mode, start, next) && PosSet(next) == visited + {q}
  {
    var next := arena + [State(q, Cost(arena[i]), Finite(Heuristic(hm, q)), Some(i))];
    NeighboursMeaning(hm, mode, arena[i].pos);
    forall j | 0 <= j < |arena| ensures arena[j].pos != q {
      assert arena[j].pos in PosSet(arena);
    }
    forall j | 0 < j < |next| ensures Link(hm, mode, next, j) {
      if j < |arena| {
        assert Link(hm, mode, arena, j);
      }
    }
    assert PosSet(next) == visited + {q} by {
      forall p | p in PosSet(next) ensures p in visited + {p} {
      }
      assert next[|arena|].pos == q;
      forall p | p in visited ensures p in PosSet(next) {
        var j :| 0 <= j < |arena| && arena[j].pos == p;
        assert next[j].pos == p;
      }
    }
  }

  /** A closed cell stays closed as more cells are visited. */
  lemma PushClosed(hm: Heightmap, mode: Mode, arena: seq<State>, visited: set<Pos>, frontier: set<nat>, i: nat, s: State)
    requires Rectangular(hm.grid) && forall j :: 0 <= j < |arena| ==> InBounds(hm.grid, arena[j].pos)
    requires InBounds(hm.grid, s.pos)
    requires ClosedBut(hm, mode, arena, visited, frontier, i)
    ensures ClosedBut(hm, mode, arena + [s], visited + {s.pos}, frontier + {|arena|}, i)
  {
    var next := arena + [s];
    forall j | 0 <= j < |arena| && j !in frontier + {|arena|} && j != i
      ensures Closed(hm, mode, visited + {s.pos}, next[j].pos)
    {
      assert next[j] == arena[j] && Closed(hm, mode, visited, arena[j].pos);
    }
  }

  // ---------------------------------------------------------------------------
  // Parsing

  function Concat(rows: seq<string>): string {
    if rows == [] then [] else rows[0] + Concat(rows[1..])
  }

  /** `Grid::from_vec(heights, cols)`: rows of `cols` cells; `None` where the cells do
      not fill the last row (the grid crate's assertion). */
  function Chunks(h: string, cols: nat): (r: Option<seq<string>>)
    requires cols > 0
    ensures r.Some? ==> Concat(r.value) == h
    ensures r.Some? ==> forall y :: 0 <= y < |r.value| ==> |r.value[y]| == cols
    decreases |h|
  {
    if h == [] then Some([])
    else if |h| < cols then None
    else
      match Chunks(h[cols..], cols)
      case None => None
      case Some(rows) =>
        assert ([h[..cols]] + rows)[1..] == rows;
        Some([h[..cols]] + rows)
  }

  /** When every line is as long as the first, the grid's rows are the lines. */
  lemma {:induction false} ChunksOfLines(ls: seq<string>, cols: nat)
    requires cols > 0 && forall y :: 0 <= y < |ls| ==> |ls[y]| == cols
    ensures Chunks(Concat(ls), cols) == Some(ls)
  {
    if ls != [] {
      var h := Concat(ls);
      assert h == ls[0] + Concat(ls[1..]);
      assert h[..cols] == ls[0] && h[cols..] == Concat(ls[1..]);
      ChunksOfLines(ls[1..], cols);
      assert [ls[0]] + ls[1..] == ls;
    }
  }

  /** The first cell holding `c`, row by row (`iter().position`, then the `%` and `/`
      by `cols`). */
  function Find(grid: seq<string>, c: char): (r: Option<Pos>)
    ensures r.Some? ==>
      (0 <= r.value.1 < |grid| && 0 <= r.value.0 < |grid[r.value.1]| && grid[r.value.1][r.value.0] == c)
    ensures r.Some? ==> forall x :: 0 <= x < r.value.0 ==> grid[r.value.1][x] != c
    ensures r.Some? ==> forall y, x :: 0 <= y < r.value.1 && 0 <= x < |grid[y]| ==> grid[y][x] != c
    ensures r.None? ==> forall y, x :: 0 <= y < |grid| && 0 <= x < |grid[y]| ==> grid[y][x] != c
    decreases |grid|
  {
    if grid == [] then None
    else
      match IndexOfAny(grid[0], {c})
      case Some(x) => Some((x, 0))
      case None =>
        match Find(grid[1..], c)
        case None => None
        case Some((x, y)) => Some((x, y + 1))
  }

  /** `parse`: the lines' characters cut into rows as long as the first line; `None`
      where there is no line, no `S` or no `E`, or the rows do not come out even. */
  function Parse(input: string): (r: Option<Heightmap>)
    ensures r.Some? ==> WellFormed(r.value)
    ensures r.Some? ==> r.value.grid[r.value.start.1][r.value.start.0] == 'S'
    ensures r.Some? ==> r.value.grid[r.value.end.1][r.value.end.0] == 'E'
  {
    var ls := Lines(input);
    if ls == [] || |ls[0]| == 0 then None
    else
      match Chunks(Concat(ls), |ls[0]|)
      case None => None
      case Some(grid) =>
        match (Find(grid, 'S'), Find(grid, 'E'))
        case (Some(s), Some(e)) => Some(Heightmap(s, e, grid))
        case _ => None
  }

  /** A map whose lines are all as long as the first is parsed line for line. */
  lemma ParseLines(input: string)
    requires var ls := Lines(input);
      (ls != [] && |ls[0]| > 0 && forall y :: 0 <= y < |ls| ==> |ls[y]| == |ls[0]|)
    ensures Parse(input).Some? ==> Parse(input).value.grid == Lines(input)
  {
    var ls := Lines(input);
    ChunksOfLines(ls, |ls[0]|);
  }

  // ---------------------------------------------------------------------------
  // The parts

  /** `part1`: the steps of the path found from S to E, or `None` where there is
      none (the source panics). */
  method Part1(hm: Heightmap) returns (answer: Option<nat>)
    requires WellFormed(hm)
    ensures answer.Some? ==> exists w ::
      (IsWalk(hm, Climb, w) && w[0] == hm.start && w[|w| - 1] == hm.end && |w| == answer.value + 1)
    ensures answer.None? ==> !Reachable(hm, Climb, hm.start, hm.end)
  {
    var path := ShortestPath(hm, Climb, hm.start);
    match path
    case None =>
      answer := None;
    case Some(p) =>
      var w := Positions(p);
      assert IsWalk(hm, Climb, w) && w[0] == hm.start && w[|w| - 1] == hm.end;
      answer := Some(|p| - 1);
  }

  /** `part2`: the steps of the path found down from E to a cell as low as 'a'; read
      backwards, it climbs from such a cell to E. `None` where no such cell can
      climb to E. */
  method Part2(hm: Heightmap) returns (answer: Option<nat>)
    requires WellFormed(hm)
    ensures answer.Some? ==> exists w ::
      (IsWalk(hm, Climb, w) && Height(hm, w[0]) == HeightValue('a') && w[|w| - 1] == hm.end &&
       |w| == answer.value + 1)
    ensures answer.None? ==> forall q :: InBounds(hm.grid, q) && Height(hm, q) == HeightValue('a') ==>
      !Reachable(hm, Climb, q, hm.end)
  {
    var path := ShortestPath(hm, Descend, hm.end);
    match path
    case None =>
      forall q | InBounds(hm.grid, q) && Height(hm, q) == HeightValue('a') ensures !Reachable(hm, Climb, q, hm.end) {
        ReachableBack(hm, q, hm.end);
      }
      answer := None;
    case Some(p) =>
      var d := Positions(p);
      var w := Reverse(d);
      WalkBackwards(hm, d);
      assert IsWalk(hm, Climb, w) && w[0] == d[|d| - 1] && w[|w| - 1] == hm.end;
      answer := Some(|p| - 1);
  }
}
