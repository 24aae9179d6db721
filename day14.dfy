/** Day 14: sand falling through a cave of rock paths (src/days/day14.rs). */
module Day14 {
  import opened Wrappers
  import opened Text

  /** A point `(x, y)`; `y` grows downwards. */
  type Point = (int, int)

  /** A rock path: the corners of its straight segments, in order. */
  type Path = seq<Point>

  /** Coordinates are `u16`. */
  const U16Bound: nat := 65536

  /** The sand pours in at (500, 0). */
  const Source: Point := (500, 0)

  predicate U16Point(p: Point) { 0 <= p.0 < U16Bound && 0 <= p.1 < U16Bound }

  predicate U16Path(path: Path) { forall k :: 0 <= k < |path| ==> U16Point(path[k]) }

  /** What a line of the input can hold: at least one `u16` point. */
  predicate ValidPath(path: Path) { |path| > 0 && U16Path(path) }

  // ---------------------------------------------------------------------------
  // Input

  /** Two `u16`s separated by a comma. */
  function ParsePoint(s: string): (r: Option<(Point, string)>)
    ensures r.Some? ==> U16Point(r.value.0) && |r.value.1| < |s|
  {
    match ParseUnsignedPrefix(s, U16Bound)
    case None => None
    case Some((x, rest)) =>
      if rest != [] && rest[0] == ',' then
        match ParseUnsignedPrefix(rest[1..], U16Bound)
        case None => None
        case Some((y, rest')) => Some(((x, y), rest'))
      else None
  }

  /** The points after the first of a path, each preceded by " -> "; the list ends,
      without consuming the separator, where a separator or a point is missing. */
  function MorePoints(s: string): (r: (Path, string))
    ensures U16Path(r.0) && |r.1| <= |s|
    decreases |s|
  {
    if StartsWith(s, " -> ") then
      match ParsePoint(s[4..])
      case None => ([], s)
      case Some((p, rest)) =>
        var (ps, rest') := MorePoints(rest);
        U16Cons(p, ps);
        ([p] + ps, rest')
    else ([], s)
  }

  lemma U16Cons(p: Point, ps: Path)
    requires U16Point(p) && U16Path(ps)
    ensures U16Path([p] + ps)
  {
  }

  /** One line: at least one point. */
  function ParsePath(s: string): (r: Option<(Path, string)>)
    ensures r.Some? ==> |r.value.0| > 0 && U16Path(r.value.0) && |r.value.1| < |s|
  {
    match ParsePoint(s)
    case None => None
    case Some((p, rest)) =>
      var (ps, rest') := MorePoints(rest);
      Some(([p] + ps, rest'))
  }

  /** The paths after the first, each on a new line. */
  function MorePaths(s: string): (r: seq<Path>)
    ensures forall i :: 0 <= i < |r| ==> ValidPath(r[i])
    decreases |s|
  {
    if s != [] && s[0] == '\n' then
      match ParsePath(s[1..])
      case None => []
      case Some((path, rest)) => [path] + MorePaths(rest)
    else []
  }

  /** `parse`: at least one path; whatever follows the last one is ignored. */
  function Parse(s: string): (r: Option<seq<Path>>)
    ensures r.Some? ==> |r.value| > 0
    ensures r.Some? ==> forall i :: 0 <= i < |r.value| ==> ValidPath(r.value[i])
  {
    match ParsePath(s)
    case None => None
    case Some((path, rest)) => Some([path] + MorePaths(rest))
  }

  function FormatPoint(p: Point): string
    requires U16Point(p)
  {
    Decimal(p.0) + "," + Decimal(p.1)
  }

  function FormatMore(ps: Path): string
    requires U16Path(ps)
  {
    if ps == [] then "" else " -> " + FormatPoint(ps[0]) + FormatMore(ps[1..])
  }

  function FormatPath(path: Path): string
    requires ValidPath(path)
  {
    FormatPoint(path[0]) + FormatMore(path[1..])
  }

  function FormatLines(paths: seq<Path>): string
    requires forall i :: 0 <= i < |paths| ==> ValidPath(paths[i])
  {
    if paths == [] then "" else "\n" + (FormatPath(paths[0]) + FormatLines(paths[1..]))
  }

  /** The puzzle input that describes `paths`. */
  function FormatInput(paths: seq<Path>): string
    requires |paths| > 0
    requires forall i :: 0 <= i < |paths| ==> ValidPath(paths[i])
  {
    FormatPath(paths[0]) + FormatLines(paths[1..])
  }

  lemma PointRoundTrip(p: Point, rest: string)
    requires U16Point(p) && (rest == [] || !IsDigit(rest[0]))
    ensures ParsePoint(FormatPoint(p) + rest) == Some((p, rest))
  {
    var tail := "," + (Decimal(p.1) + rest);
    assert FormatPoint(p) + rest == Decimal(p.0) + tail;
    PrintedNumberParses(p.0, U16Bound, tail);
    assert tail[1..] == Decimal(p.1) + rest;
    PrintedNumberParses(p.1, U16Bound, rest);
    PointUnfold(Decimal(p.0) + tail, p, tail, rest);
  }

  lemma PointUnfold(s: string, p: Point, tail: string, rest: string)
    requires ParseUnsignedPrefix(s, U16Bound) == Some((p.0, tail))
    requires tail != [] && tail[0] == ',' && ParseUnsignedPrefix(tail[1..], U16Bound) == Some((p.1, rest))
    ensures ParsePoint(s) == Some((p, rest))
  {
  }

  lemma {:induction false} MoreRoundTrip(ps: Path, rest: string)
    requires U16Path(ps) && (rest == [] || rest[0] == '\n')
    ensures MorePoints(FormatMore(ps) + rest) == (ps, rest)
  {
    if ps != [] {
      MoreRoundTrip(ps[1..], rest);
      MoreStep(ps[0], ps[1..], rest);
      assert [ps[0]] + ps[1..] == ps;
    } else {
      assert FormatMore(ps) + rest == rest;
      assert !StartsWith(rest, " -> ") by {
        if |rest| >= 4 {
          assert rest[..4][0] == rest[0];
        }
      }
    }
  }

  lemma MoreStep(p: Point, ps: Path, rest: string)
    requires U16Point(p) && U16Path(ps) && (rest == [] || rest[0] == '\n')
    requires MorePoints(FormatMore(ps) + rest) == (ps, rest)
    ensures MorePoints(FormatMore([p] + ps) + rest) == ([p] + ps, rest)
  {
    var after := FormatMore(ps) + rest;
    FormatMoreCons(p, ps, rest);
    NotDigitAfterPoint(ps, rest);
    PointRoundTrip(p, after);
    MoreUnfold(FormatMore([p] + ps) + rest, FormatPoint(p), after, p);
  }

  lemma FormatMoreCons(p: Point, ps: Path, rest: string)
    requires U16Point(p) && U16Path(ps)
    ensures FormatMore([p] + ps) + rest == " -> " + (FormatPoint(p) + (FormatMore(ps) + rest))
  {
    assert ([p] + ps)[1..] == ps;
  }

  lemma MoreUnfold(s: string, point: string, after: string, p: Point)
    requires s == " -> " + (point + after) && ParsePoint(point + after) == Some((p, after))
    ensures MorePoints(s) == ([p] + MorePoints(after).0, MorePoints(after).1)
  {
    assert StartsWith(s, " -> ") && s[4..] == point + after;
  }

  lemma NotDigitAfterPoint(ps: Path, rest: string)
    requires U16Path(ps) && (rest == [] || rest[0] == '\n')
    ensures var after := FormatMore(ps) + rest; after == [] || !IsDigit(after[0])
  {
  }

  lemma PathRoundTrip(path: Path, rest: string)
    requires ValidPath(path) && (rest == [] || rest[0] == '\n')
    ensures ParsePath(FormatPath(path) + rest) == Some((path, rest))
  {
    var after := FormatMore(path[1..]) + rest;
    assert FormatPath(path) + rest == FormatPoint(path[0]) + after;
    NotDigitAfterPoint(path[1..], rest);
    PointRoundTrip(path[0], after);
    MoreRoundTrip(path[1..], rest);
    assert [path[0]] + path[1..] == path;
  }

  lemma {:induction false} LinesRoundTrip(paths: seq<Path>)
    requires forall i :: 0 <= i < |paths| ==> ValidPath(paths[i])
    ensures MorePaths(FormatLines(paths)) == paths
  {
    if paths != [] {
      var after := FormatLines(paths[1..]);
      LinesCons(paths);
      PathRoundTrip(paths[0], after);
      LinesUnfold(FormatLines(paths), paths[0], after);
      LinesRoundTrip(paths[1..]);
      assert [paths[0]] + paths[1..] == paths;
    }
  }

  lemma LinesCons(paths: seq<Path>)
    requires |paths| > 0 && forall i :: 0 <= i < |paths| ==> ValidPath(paths[i])
    ensures var s := FormatLines(paths);
      s != [] && s[0] == '\n' && s[1..] == FormatPath(paths[0]) + FormatLines(paths[1..])
  {
    DropHead('\n', FormatPath(paths[0]) + FormatLines(paths[1..]));
  }

  lemma DropHead(c: char, t: string)
    ensures ([c] + t)[0] == c && ([c] + t)[1..] == t
  {
  }

  lemma LinesUnfold(s: string, path: Path, after: string)
    requires s != [] && s[0] == '\n' && ParsePath(s[1..]) == Some((path, after))
    ensures MorePaths(s) == [path] + MorePaths(after)
  {
  }

  lemma ParseUnfold(s: string, path: Path, after: string)
    requires ParsePath(s) == Some((path, after))
    ensures Parse(s) == Some([path] + MorePaths(after))
  {
  }

  /** Parsing the printed form of a cave gives back its paths. */
  lemma ParseRoundTrip(paths: seq<Path>)
    requires |paths| > 0
    requires forall i :: 0 <= i < |paths| ==> ValidPath(paths[i])
    ensures Parse(FormatInput(paths)) == Some(paths)
  {
    var after := FormatLines(paths[1..]);
    PathRoundTrip(paths[0], after);
    ParseUnfold(FormatInput(paths), paths[0], after);
    LinesRoundTrip(paths[1..]);
    assert [paths[0]] + paths[1..] == paths;
  }

  // ---------------------------------------------------------------------------
  // Rock

  function Min(a: int, b: int): int { if a <= b then a else b }
  function Max(a: int, b: int): int { if a <= b then b else a }

  /** `p` lies in the rectangle spanned by `a` and `b`, borders included. */
  predicate InRect(a: Point, b: Point, p: Point) {
    Min(a.0, b.0) <= p.0 <= Max(a.0, b.0) && Min(a.1, b.1) <= p.1 <= Max(a.1, b.1)
  }

  /** `p` is rock: it lies in the rectangle of two consecutive corners of a path. */
  predicate IsRock(paths: seq<Path>, p: Point) {
    exists i, k :: 0 <= i < |paths| && 0 <= k < |paths[i]| - 1 && InRect(paths[i][k], paths[i][k + 1], p)
  }

  /** The points `(x, lo) .. (x, hi)`. */
  function Column(x: int, lo: int, hi: int): seq<Point> {
    if hi < lo then [] else seq(hi - lo + 1, j => (x, lo + j))
  }

  /** Columns `x ..= maxX` of the rectangle, each top to bottom. */
  function Columns(x: int, maxX: int, lo: int, hi: int): seq<Point>
    decreases maxX - x
  {
    if x > maxX then [] else Column(x, lo, hi) + Columns(x + 1, maxX, lo, hi)
  }

  /** The rectangle of one segment, in the order its nested ranges produce it. */
  function RectPoints(a: Point, b: Point): seq<Point> {
    Columns(Min(a.0, b.0), Max(a.0, b.0), Min(a.1, b.1), Max(a.1, b.1))
  }

  /** The rock of one path: its segments (`array_windows::<2>`) in order. */
  function PathPoints(path: Path): seq<Point> {
    if |path| < 2 then [] else RectPoints(path[0], path[1]) + PathPoints(path[1..])
  }

  /** Every rock point of every path, with repetitions, in the order the source's
      iterator chain yields them. */
  function RockPoints(paths: seq<Path>): seq<Point> {
    if paths == [] then [] else PathPoints(paths[0]) + RockPoints(paths[1..])
  }

  lemma ColumnHas(x: int, lo: int, hi: int, p: Point)
    ensures p in Column(x, lo, hi) <==> p.0 == x && lo <= p.1 <= hi
  {
    if p.0 == x && lo <= p.1 <= hi {
      assert Column(x, lo, hi)[p.1 - lo] == p;
    }
  }

  lemma {:induction false} ColumnsHas(x: int, maxX: int, lo: int, hi: int, p: Point)
    ensures p in Columns(x, maxX, lo, hi) <==> x <= p.0 <= maxX && lo <= p.1 <= hi
    decreases maxX - x
  {
    if x <= maxX {
      ColumnHas(x, lo, hi, p);
      ColumnsHas(x + 1, maxX, lo, hi, p);
    }
  }

  lemma RectHas(a: Point, b: Point, p: Point)
    ensures p in RectPoints(a, b) <==> InRect(a, b, p)
  {
    ColumnsHas(Min(a.0, b.0), Max(a.0, b.0), Min(a.1, b.1), Max(a.1, b.1), p);
  }

  lemma {:induction false} PathHas(path: Path, p: Point)
    ensures p in PathPoints(path) <==> exists k :: 0 <= k < |path| - 1 && InRect(path[k], path[k + 1], p)
    decreases |path|
  {
    if |path| >= 2 {
      RectHas(path[0], path[1], p);
      PathHas(path[1..], p);
      if p in PathPoints(path[1..]) {
        var k :| 0 <= k < |path[1..]| - 1 && InRect(path[1..][k], path[1..][k + 1], p);
        assert path[1..][k] == path[k + 1] && path[1..][k + 1] == path[k + 2];
      }
      if exists k :: 0 <= k < |path| - 1 && InRect(path[k], path[k + 1], p) {
        var k :| 0 <= k < |path| - 1 && InRect(path[k], path[k + 1], p);
        if k > 0 {
          assert path[1..][k - 1] == path[k] && path[1..][k] == path[k + 1];
        }
      }
    }
  }

  /** The generated rock points are exactly the points on some segment's rectangle. */
  lemma {:induction false} RockPointsAreRock(paths: seq<Path>, p: Point)
    ensures p in RockPoints(paths) <==> IsRock(paths, p)
    decreases |paths|
  {
    if paths != [] {
      PathHas(paths[0], p);
      RockPointsAreRock(paths[1..], p);
      if p in RockPoints(paths[1..]) {
        var i, k :| 0 <= i < |paths[1..]| && 0 <= k < |paths[1..][i]| - 1 &&
          InRect(paths[1..][i][k], paths[1..][i][k + 1], p);
        assert paths[1..][i] == paths[i + 1];
      }
      if IsRock(paths, p) {
        var i, k :| 0 <= i < |paths| && 0 <= k < |paths[i]| - 1 && InRect(paths[i][k], paths[i][k + 1], p);
        if i > 0 {
          assert paths[1..][i - 1] == paths[i];
        }
      }
    }
  }

  /** All corners of all paths. */
  function Flatten(paths: seq<Path>): seq<Point> {
    if paths == [] then [] else paths[0] + Flatten(paths[1..])
  }

  lemma {:induction false} FlattenHas(paths: seq<Path>, i: nat, k: nat)
    requires i < |paths| && k < |paths[i]|
    ensures paths[i][k] in Flatten(paths)
    decreases i
  {
    if i > 0 {
      FlattenHas(paths[1..], i - 1, k);
      assert paths[1..][i - 1] == paths[i];
    }
  }

  // ---------------------------------------------------------------------------
  // Part 1: a grid over the bounding box; sand that leaves it falls into the abyss

  /** The least coordinates among the points and the source (the fold with `inf`). */
  function Lo(pts: seq<Point>): (lo: Point)
    ensures lo.0 <= Source.0 && lo.1 <= Source.1
    ensures forall q :: q in pts ==> lo.0 <= q.0 && lo.1 <= q.1
  {
    if pts == [] then Source
    else
      var rest := Lo(pts[1..]);
      (Min(pts[0].0, rest.0), Min(pts[0].1, rest.1))
  }

  /** The greatest coordinates among the points and the source (the fold with `sup`). */
  function Hi(pts: seq<Point>): (hi: Point)
    ensures Source.0 <= hi.0 && Source.1 <= hi.1
    ensures forall q :: q in pts ==> q.0 <= hi.0 && q.1 <= hi.1
  {
    if pts == [] then Source
    else
      var rest := Hi(pts[1..]);
      (Max(pts[0].0, rest.0), Max(pts[0].1, rest.1))
  }

  /** Every rock point lies in the bounding box. */
  lemma RockInBox(paths: seq<Path>, p: Point)
    requires p in RockPoints(paths)
    ensures Lo(Flatten(paths)).0 <= p.0 <= Hi(Flatten(paths)).0
    ensures Lo(Flatten(paths)).1 <= p.1 <= Hi(Flatten(paths)).1
  {
    RockPointsAreRock(paths, p);
    var i, k :| 0 <= i < |paths| && 0 <= k < |paths[i]| - 1 && InRect(paths[i][k], paths[i][k + 1], p);
    FlattenHas(paths, i, k);
    FlattenHas(paths, i, k + 1);
  }

  /** Rows of cells: '.' air, '#' rock, '+' the source, 'o' sand at rest. */
  type Cells = seq<seq<char>>

  predicate InGrid(cells: Cells, x: int, y: int) {
    0 <= y < |cells| && 0 <= x < |cells[y]|
  }

  /** Sand falls through air and through the source. */
  predicate Free(cells: Cells, x: int, y: int) {
    InGrid(cells, x, y) && (cells[y][x] == '.' || cells[y][x] == '+')
  }

  /** A grain may move to a cell that is free or outside the grid. */
  predicate Open(cells: Cells, x: int, y: int) {
    !InGrid(cells, x, y) || Free(cells, x, y)
  }

  /** The number of free cells in column `x` going down from row `y`, up to the first
      one that is not free. */
  function Run(cells: Cells, x: int, y: int): (n: nat)
    ensures forall j :: y <= j < y + n ==> Free(cells, x, j)
    ensures !Free(cells, x, y + n)
    decreases |cells| - y
  {
    if Free(cells, x, y) then 1 + Run(cells, x, y + 1) else 0
  }

  /** Where one grain ends: at rest in the grid, in the abyss, or nowhere because the
      cell it starts in is sand already (the source's `count() - 1` underflows). */
  datatype Landing = Rest(x: int, y: int) | Abyss | Stuck

  /** One grain from `(x, y)`: it falls straight down as far as it can, then tries the
      cell down and to the left, then down and to the right, and rests where none of
      the three is open. */
  function GridDrop(cells: Cells, x: int, y: int): (l: Landing)
    ensures l.Rest? ==> Free(cells, l.x, l.y) && !Free(cells, l.x, l.y + 1)
    ensures l.Rest? ==> !Open(cells, l.x - 1, l.y + 1) && !Open(cells, l.x + 1, l.y + 1)
    ensures l.Stuck? <==> InGrid(cells, x, y) && !Free(cells, x, y)
    decreases |cells| - y
  {
    if !InGrid(cells, x, y) then Abyss
    else
      var n := Run(cells, x, y);
      if n == 0 then Stuck
      else
        var bottom := y + n - 1;
        if Open(cells, x - 1, bottom + 1) then GridDrop(cells, x - 1, bottom + 1)
        else if Open(cells, x + 1, bottom + 1) then GridDrop(cells, x + 1, bottom + 1)
        else if n == 1 then Rest(x, bottom)
        else GridDrop(cells, x, bottom)
  }

  /** A grain at rest is drawn as 'o'. */
  function Mark(cells: Cells, x: int, y: int): Cells
    requires InGrid(cells, x, y)
  {
    cells[y := cells[y][x := 'o']]
  }

  lemma MarkFree(cells: Cells, x: int, y: int)
    requires InGrid(cells, x, y)
    ensures forall u, v :: Free(Mark(cells, x, y), u, v) <==> (u, v) != (x, y) && Free(cells, u, v)
  {
  }

  function RowFree(row: seq<char>): nat {
    if row == [] then 0 else (if row[0] == '.' || row[0] == '+' then 1 else 0) + RowFree(row[1..])
  }

  /** The number of free cells: it bounds how many grains can still come to rest. */
  function FreeCount(cells: Cells): nat {
    if cells == [] then 0 else RowFree(cells[0]) + FreeCount(cells[1..])
  }

  lemma {:induction false} RowMark(row: seq<char>, x: nat)
    requires x < |row| && (row[x] == '.' || row[x] == '+')
    ensures RowFree(row[x := 'o']) + 1 == RowFree(row)
  {
    if x == 0 {
      assert row[x := 'o'][1..] == row[1..];
    } else {
      assert row[x := 'o'][1..] == row[1..][x - 1 := 'o'];
      RowMark(row[1..], x - 1);
    }
  }

  lemma {:induction false} MarkCount(cells: Cells, x: int, y: int)
    requires Free(cells, x, y)
    ensures FreeCount(Mark(cells, x, y)) + 1 == FreeCount(cells)
  {
    if y == 0 {
      assert Mark(cells, x, y)[1..] == cells[1..];
      RowMark(cells[0], x);
    } else {
      assert Mark(cells, x, y)[1..] == Mark(cells[1..], x, y - 1);
      MarkCount(cells[1..], x, y - 1);
    }
  }

  /** Grains from `(sx, sy)` until one falls into the abyss: the cells where the others
      came to rest, in order; `None` where the source panics. Each rests in a cell that
      was free at the start, and no two rest in the same cell. */
  function GridPour(cells: Cells, sx: int, sy: int): (r: Option<seq<Point>>)
    ensures r.Some? ==> forall i :: 0 <= i < |r.value| ==> Free(cells, r.value[i].0, r.value[i].1)
    ensures r.Some? ==> forall i, j :: 0 <= i < j < |r.value| ==> r.value[i] != r.value[j]
    decreases FreeCount(cells)
  {
    match GridDrop(cells, sx, sy)
    case Abyss => Some([])
    case Stuck => None
    case Rest(x, y) =>
      MarkCount(cells, x, y);
      MarkFree(cells, x, y);
      match GridPour(Mark(cells, x, y), sx, sy)
      case None => None
      case Some(ps) => Some([(x, y)] + ps)
  }

  /** What a cell shows before the first grain, as `part1` draws it: the source is
      drawn over any rock. */
  function StartCell(rocks: seq<Point>, p: Point): char {
    if p == Source then '+' else RockCell(rocks, p)
  }

  function RockCell(rocks: seq<Point>, p: Point): char {
    if p in rocks then '#' else '.'
  }

  /** The grid over the box from `lo` to `hi` before the first grain. */
  function StartGrid(rocks: seq<Point>, lo: Point, hi: Point): (cells: Cells)
    requires lo.0 <= hi.0 && lo.1 <= hi.1
    ensures |cells| == hi.1 - lo.1 + 1
    ensures forall i :: 0 <= i < |cells| ==> |cells[i]| == hi.0 - lo.0 + 1
    ensures forall i, j :: 0 <= i < |cells| && 0 <= j < |cells[i]| ==>
      cells[i][j] == StartCell(rocks, (lo.0 + j, lo.1 + i))
  {
    seq(hi.1 - lo.1 + 1, i => seq(hi.0 - lo.0 + 1, j => StartCell(rocks, (lo.0 + j, lo.1 + i))))
  }

  /** The starting grid of `part1`, over the bounding box of the paths and the source. */
  function InitialGrid(paths: seq<Path>): Cells {
    StartGrid(RockPoints(paths), Lo(Flatten(paths)), Hi(Flatten(paths)))
  }

  /** The source in grid coordinates. */
  function SourceCell(paths: seq<Path>): Point {
    var lo := Lo(Flatten(paths));
    (Source.0 - lo.0, Source.1 - lo.1)
  }

  /** `Some(|ps|)` for `Some(ps)`. */
  function Count(r: Option<seq<Point>>): Option<nat> {
    match r
    case None => None
    case Some(ps) => Some(|ps|)
  }

  /** `part1`: the number of grains at rest when the first one falls out of the grid. */
  function Part1Answer(paths: seq<Path>): Option<nat> {
    var src := SourceCell(paths);
    Count(GridPour(InitialGrid(paths), src.0, src.1))
  }

  /** A free cell of a starting grid drawn from the rock of `paths` is not rock. */
  lemma StartFree(paths: seq<Path>, rocks: seq<Point>, lo: Point, hi: Point, x: int, y: int)
    requires forall q :: q in rocks <==> IsRock(paths, q)
    requires lo.0 <= hi.0 && lo.1 <= hi.1
    requires Free(StartGrid(rocks, lo, hi), x, y)
    ensures (x + lo.0, y + lo.1) == Source || !IsRock(paths, (x + lo.0, y + lo.1))
  {
    assert StartGrid(rocks, lo, hi)[y][x] == StartCell(rocks, (x + lo.0, y + lo.1));
  }

  /** No grain comes to rest on rock in part 1: `GridPour` rests grains only in cells
      free at the start, and, shifted back to cave coordinates, a free cell of the
      starting grid is not rock, or is the source. */
  lemma Part1NotOnRock(paths: seq<Path>, x: int, y: int)
    requires Free(InitialGrid(paths), x, y)
    ensures var lo := Lo(Flatten(paths)); var p := (x + lo.0, y + lo.1);
      p == Source || !IsRock(paths, p)
  {
    forall q {
      RockPointsAreRock(paths, q);
    }
    StartFree(paths, RockPoints(paths), Lo(Flatten(paths)), Hi(Flatten(paths)), x, y);
  }

  /** The array holds the rows `cells`. */
  predicate CellsAre(grid: array2<char>, cells: Cells)
    reads grid
  {
    grid.Length0 == |cells| &&
    (forall i :: 0 <= i < |cells| ==> |cells[i]| == grid.Length1) &&
    forall i, j :: 0 <= i < grid.Length0 && 0 <= j < grid.Length1 ==> grid[i, j] == cells[i][j]
  }

  /** The `take_while(..).count()` down a column. */
  method ColumnRun(grid: array2<char>, ghost cells: Cells, x: int, y: int) returns (n: nat)
    requires CellsAre(grid, cells) && 0 <= x < grid.Length1 && 0 <= y < grid.Length0
    ensures n == Run(cells, x, y)
  {
    n := 0;
    while y + n < grid.Length0 && (grid[y + n, x] == '.' || grid[y + n, x] == '+')
      invariant y + n <= grid.Length0
      invariant Run(cells, x, y) == n + Run(cells, x, y + n)
      decreases grid.Length0 - (y + n)
    {
      n := n + 1;
    }
  }

  /** `grid.get(y, x).map_or(true, ..)`: outside the grid, or air, or the source. */
  method IsOpen(grid: array2<char>, ghost cells: Cells, x: int, y: int) returns (open: bool)
    requires CellsAre(grid, cells)
    ensures open == Open(cells, x, y)
  {
    open := y < 0 || y >= grid.Length0 || x < 0 || x >= grid.Length1 ||
      grid[y, x] == '.' || grid[y, x] == '+';
  }

  /** The inner `loop` of `part1`: one grain's fall. */
  method DropGrain(grid: array2<char>, ghost cells: Cells, sx: int, sy: int) returns (l: Landing)
    requires CellsAre(grid, cells)
    ensures l == GridDrop(cells, sx, sy)
  {
    var x, y := sx, sy;
    while true
      invariant GridDrop(cells, x, y) == GridDrop(cells, sx, sy)
      decreases grid.Length0 - y
    {
      var x', y', landed := Fall(grid, cells, x, y);
      if landed.Some? {
        return landed.value;
      }
      x, y := x', y';
    }
  }

  /** One pass of that loop's body from `(x, y)`: the grain lands, or it goes on from
      a lower cell where it ends as it would have from `(x, y)`. */
  method Fall(grid: array2<char>, ghost cells: Cells, x: int, y: int) returns (x': int, y': int, landed: Option<Landing>)
    requires CellsAre(grid, cells)
    ensures landed.Some? ==> landed.value == GridDrop(cells, x, y)
    ensures landed.None? ==> GridDrop(cells, x', y') == GridDrop(cells, x, y) && y' > y && y < grid.Length0
  {
    x', y' := x, y;
    if x < 0 || y < 0 || x >= grid.Length1 || y >= grid.Length0 {
      return x', y', Some(Abyss);
    }
    var n := ColumnRun(grid, cells, x, y);
    if n == 0 {
      return x', y', Some(Stuck);
    }
    var down := n - 1;
    y' := y + down;
    var left := IsOpen(grid, cells, x - 1, y' + 1);
    if left {
      DropLeft(cells, x, y);
      return x - 1, y' + 1, None;
    }
    var right := IsOpen(grid, cells, x + 1, y' + 1);
    if right {
      DropRight(cells, x, y);
      return x + 1, y' + 1, None;
    }
    DropDown(cells, x, y);
    if down == 0 {
      return x', y', Some(Rest(x, y'));
    }
    landed := None;
  }

  /** After falling straight down from a free cell, a grain goes on from the cell down
      and to the left when it is open, ... */
  lemma DropLeft(cells: Cells, x: int, y: int)
    requires InGrid(cells, x, y) && Run(cells, x, y) > 0
    requires Open(cells, x - 1, y + Run(cells, x, y))
    ensures GridDrop(cells, x - 1, y + Run(cells, x, y)) == GridDrop(cells, x, y)
  {
  }

  /** ... else from the cell down and to the right when that one is, ... */
  lemma DropRight(cells: Cells, x: int, y: int)
    requires InGrid(cells, x, y) && Run(cells, x, y) > 0
    requires !Open(cells, x - 1, y + Run(cells, x, y)) && Open(cells, x + 1, y + Run(cells, x, y))
    ensures GridDrop(cells, x + 1, y + Run(cells, x, y)) == GridDrop(cells, x, y)
  {
  }

  /** ... and else it rests, when it did not fall at all, or starts over from the
      bottom of its fall. */
  lemma DropDown(cells: Cells, x: int, y: int)
    requires InGrid(cells, x, y) && Run(cells, x, y) > 0
    requires !Open(cells, x - 1, y + Run(cells, x, y)) && !Open(cells, x + 1, y + Run(cells, x, y))
    ensures Run(cells, x, y) == 1 ==> GridDrop(cells, x, y) == Rest(x, y)
    ensures Run(cells, x, y) > 1 ==> GridDrop(cells, x, y + Run(cells, x, y) - 1) == GridDrop(cells, x, y)
  {
  }

  /** `for_each` over the rock points: each drawn as '#', relative to the corner `lo`. */
  method DrawRock(grid: array2<char>, rocks: seq<Point>, lo: Point)
    requires forall i, j :: 0 <= i < grid.Length0 && 0 <= j < grid.Length1 ==> grid[i, j] == '.'
    requires forall q :: q in rocks ==>
      0 <= q.1 - lo.1 < grid.Length0 && 0 <= q.0 - lo.0 < grid.Length1
    modifies grid
    ensures forall i, j :: 0 <= i < grid.Length0 && 0 <= j < grid.Length1 ==>
      grid[i, j] == RockCell(rocks, (lo.0 + j, lo.1 + i))
  {
    var k := 0;
    while k < |rocks|
      invariant 0 <= k <= |rocks|
      invariant forall i, j :: 0 <= i < grid.Length0 && 0 <= j < grid.Length1 ==>
        grid[i, j] == RockCell(rocks[..k], (lo.0 + j, lo.1 + i))
    {
      var q := rocks[k];
      grid[q.1 - lo.1, q.0 - lo.0] := '#';
      assert rocks[..k + 1] == rocks[..k] + [q];
      k := k + 1;
    }
    assert rocks[..k] == rocks;
  }

  /** The first half of `part1`: a grid over the box from `lo` to `hi` with the rock
      drawn in, then the source. */
  method DrawCave(rocks: seq<Point>, lo: Point, hi: Point) returns (grid: array2<char>)
    requires lo.0 <= Source.0 <= hi.0 && lo.1 <= Source.1 <= hi.1
    requires forall q :: q in rocks ==> lo.0 <= q.0 <= hi.0 && lo.1 <= q.1 <= hi.1
    ensures fresh(grid) && CellsAre(grid, StartGrid(rocks, lo, hi))
  {
    var rows, cols := hi.1 - lo.1 + 1, hi.0 - lo.0 + 1;
    grid := new char[rows, cols]((i, j) => '.');
    DrawRock(grid, rocks, lo);
    var src := (Source.0 - lo.0, Source.1 - lo.1);
    label drawn:
    grid[src.1, src.0] := '+';
    forall i, j | 0 <= i < rows && 0 <= j < cols
      ensures grid[i, j] == StartCell(rocks, (lo.0 + j, lo.1 + i))
    {
      if (i, j) != (src.1, src.0) {
        assert grid[i, j] == old@drawn(grid[i, j]);
      }
    }
  }

  /** `ps` after `rested`, if there is a `ps`. */
  function Prepend(rested: seq<Point>, r: Option<seq<Point>>): Option<seq<Point>> {
    match r
    case None => None
    case Some(ps) => Some(rested + ps)
  }

  /** The second half of `part1`: grains from `(sx, sy)`, each marked 'o' where it
      rests, until one falls out of the grid. */
  method PourGrains(grid: array2<char>, ghost cells: Cells, sx: int, sy: int) returns (answer: Option<nat>)
    requires CellsAre(grid, cells)
    modifies grid
    ensures answer == Count(GridPour(cells, sx, sy))
  {
    ghost var now := cells;
    var count := 0;
    ghost var rested: seq<Point> := [];
    var done := false;
    answer := None;
    if GridPour(cells, sx, sy).Some? {
      assert [] + GridPour(cells, sx, sy).value == GridPour(cells, sx, sy).value;
    }
    while !done
      invariant CellsAre(grid, now)
      invariant count == |rested|
      invariant !done ==> Prepend(rested, GridPour(now, sx, sy)) == GridPour(cells, sx, sy)
      invariant done ==> answer == Count(GridPour(cells, sx, sy))
      decreases if done then 0 else 1 + FreeCount(now)
    {
      var l := DropGrain(grid, now, sx, sy);
      match l
      case Abyss =>
        PourAbyss(cells, now, rested, sx, sy);
        answer := Some(count);
        done := true;
      case Stuck =>
        PourStuck(cells, now, rested, sx, sy);
        answer := None;
        done := true;
      case Rest(x, y) =>
        PourRest(cells, now, rested, sx, sy, x, y);
        grid[y, x] := 'o';
        now := Mark(now, x, y);
        rested := rested + [(x, y)];
        count := count + 1;
    }
  }

  lemma PourAbyss(cells: Cells, now: Cells, rested: seq<Point>, sx: int, sy: int)
    requires Prepend(rested, GridPour(now, sx, sy)) == GridPour(cells, sx, sy)
    requires GridDrop(now, sx, sy) == Abyss
    ensures Count(GridPour(cells, sx, sy)) == Some(|rested|)
  {
    assert rested + [] == rested;
  }

  lemma PourStuck(cells: Cells, now: Cells, rested: seq<Point>, sx: int, sy: int)
    requires Prepend(rested, GridPour(now, sx, sy)) == GridPour(cells, sx, sy)
    requires GridDrop(now, sx, sy) == Stuck
    ensures Count(GridPour(cells, sx, sy)) == None
  {
  }

  lemma PourRest(cells: Cells, now: Cells, rested: seq<Point>, sx: int, sy: int, x: int, y: int)
    requires Prepend(rested, GridPour(now, sx, sy)) == GridPour(cells, sx, sy)
    requires GridDrop(now, sx, sy) == Rest(x, y)
    ensures Free(now, x, y) && FreeCount(Mark(now, x, y)) < FreeCount(now)
    ensures Prepend(rested + [(x, y)], GridPour(Mark(now, x, y), sx, sy)) == GridPour(cells, sx, sy)
  {
    MarkCount(now, x, y);
    PourStep(now, sx, sy, x, y);
    PrependTwice(rested, [(x, y)], GridPour(Mark(now, x, y), sx, sy));
  }

  /** Where a grain rests, the cells the later grains rest in follow it. */
  lemma PourStep(cells: Cells, sx: int, sy: int, x: int, y: int)
    requires GridDrop(cells, sx, sy) == Rest(x, y)
    ensures Free(cells, x, y)
    ensures GridPour(cells, sx, sy) == Prepend([(x, y)], GridPour(Mark(cells, x, y), sx, sy))
  {
  }

  lemma PrependTwice(a: seq<Point>, b: seq<Point>, r: Option<seq<Point>>)
    ensures Prepend(a, Prepend(b, r)) == Prepend(a + b, r)
  {
    if r.Some? {
      assert a + (b + r.value) == (a + b) + r.value;
    }
  }

  lemma RocksInBox(paths: seq<Path>)
    ensures var lo, hi := Lo(Flatten(paths)), Hi(Flatten(paths));
      forall q :: q in RockPoints(paths) ==> lo.0 <= q.0 <= hi.0 && lo.1 <= q.1 <= hi.1
  {
    forall q | q in RockPoints(paths) {
      RockInBox(paths, q);
    }
  }

  /** `part1`. */
  method Part1(paths: seq<Path>) returns (answer: Option<nat>)
    ensures answer == Part1Answer(paths)
  {
    var pts := Flatten(paths);
    var lo, hi := Lo(pts), Hi(pts);
    var rocks := RockPoints(paths);
    RocksInBox(paths);
    var grid := DrawCave(rocks, lo, hi);
    var src := SourceCell(paths);
    answer := PourGrains(grid, StartGrid(rocks, lo, hi), src.0, src.1);
  }

  // ---------------------------------------------------------------------------
  // Part 2: sets of rock and sand over an endless floor two below the lowest rock

  /** A cell a grain cannot enter: rock, sand, or at or below the floor. */
  predicate Taken(rocks: set<Point>, sand: set<Point>, floor: int, p: Point) {
    p in rocks || p in sand || p.1 >= floor
  }

  /** The inner `loop` of `part2`: a grain from `p` falls down, else down and to the
      left, else down and to the right, and rests where all three are taken. */
  function FloorDrop(rocks: set<Point>, sand: set<Point>, floor: int, p: Point): (r: Point)
    requires 0 <= p.1 < floor
    ensures p.1 <= r.1 < floor && p.0 - (r.1 - p.1) <= r.0 <= p.0 + (r.1 - p.1)
    ensures Taken(rocks, sand, floor, (r.0, r.1 + 1))
    ensures Taken(rocks, sand, floor, (r.0 - 1, r.1 + 1))
    ensures Taken(rocks, sand, floor, (r.0 + 1, r.1 + 1))
    ensures r != p ==> !Taken(rocks, sand, floor, r)
    decreases floor - p.1
  {
    var down, left, right := (p.0, p.1 + 1), (p.0 - 1, p.1 + 1), (p.0 + 1, p.1 + 1);
    if !Taken(rocks, sand, floor, down) then FloorDrop(rocks, sand, floor, down)
    else if !Taken(rocks, sand, floor, left) then FloorDrop(rocks, sand, floor, left)
    else if !Taken(rocks, sand, floor, right) then FloorDrop(rocks, sand, floor, right)
    else p
  }

  /** The cells a grain from the source can reach above the floor. */
  function Triangle(floor: int): set<Point> {
    set x: int, y: int | 0 <= y < floor && Source.0 - y <= x <= Source.0 + y :: (x, y)
  }

  lemma InTriangle(floor: int, p: Point)
    requires 0 <= p.1 < floor && Source.0 - p.1 <= p.0 <= Source.0 + p.1
    ensures p in Triangle(floor)
  {
    var (x, y) := p;
    assert (x, y) in Triangle(floor);
  }

  lemma RemoveOne(a: set<Point>, b: set<Point>, r: Point)
    requires r in a && r !in b
    ensures |a - (b + {r})| < |a - b|
  {
    assert a - b == (a - (b + {r})) + {r};
  }

  /** Grains from the source until one rests at the source: the cells they rest in, in
      order. All but the last are new cells, free of rock and of earlier sand, above
      the floor; the last is the source. */
  function FloorPour(rocks: set<Point>, sand: set<Point>, floor: int): (r: seq<Point>)
    requires floor > 0
    ensures |r| > 0 && r[|r| - 1] == Source
    ensures forall i :: 0 <= i < |r| - 1 ==> r[i] != Source && r[i] !in rocks && r[i] !in sand
    ensures forall i :: 0 <= i < |r| ==> r[i] in Triangle(floor)
    ensures forall i, j :: 0 <= i < j < |r| ==> r[i] != r[j]
    decreases |Triangle(floor) - sand|
  {
    var c := FloorDrop(rocks, sand, floor, Source);
    InTriangle(floor, c);
    if c == Source then [c]
    else
      RemoveOne(Triangle(floor), sand, c);
      [c] + FloorPour(rocks, sand + {c}, floor)
  }

  /** The distinct points of `ps` all lie in `s`, so there are at most `|s|` of them. */
  lemma {:induction false} DistinctWithin(ps: seq<Point>, s: set<Point>)
    requires forall i :: 0 <= i < |ps| ==> ps[i] in s
    requires forall i, j :: 0 <= i < j < |ps| ==> ps[i] != ps[j]
    ensures |ps| <= |s|
    decreases |ps|
  {
    if ps != [] {
      assert ps[0] in s;
      forall i | 0 <= i < |ps[1..]| ensures ps[1..][i] in s - {ps[0]} {
        assert ps[1..][i] == ps[i + 1];
      }
      DistinctWithin(ps[1..], s - {ps[0]});
    }
  }

  /** The largest `y` among the points (`max().unwrap()`). */
  function MaxY(pts: seq<Point>): (m: int)
    requires |pts| > 0
    ensures forall q :: q in pts ==> q.1 <= m
    ensures exists q :: q in pts && q.1 == m
  {
    if |pts| == 1 then pts[0].1
    else
      var init := pts[..|pts| - 1];
      assert forall q :: q in pts ==> q in init || q == pts[|pts| - 1];
      assert forall q :: q in init ==> q in pts;
      Max(MaxY(init), pts[|pts| - 1].1)
  }

  function RockSet(pts: seq<Point>): set<Point> {
    set q | q in pts
  }

  lemma RockSetEmpty(pts: seq<Point>)
    ensures RockSet(pts) == {} <==> pts == []
  {
    if pts != [] {
      assert pts[0] in RockSet(pts);
    }
  }

  /** `part2`: the grains until the source itself is covered, that last one included;
      `None` where there is no rock at all (`max().unwrap()` panics). */
  function Part2Answer(paths: seq<Path>): Option<nat>
    requires forall i :: 0 <= i < |paths| ==> U16Path(paths[i])
  {
    var pts := RockPoints(paths);
    if pts == [] then None
    else
      var floor := MaxY(pts) + 2;
      RockPointsU16(paths);
      Some(|FloorPour(RockSet(pts), {}, floor)|)
  }

  /** Rock lies at `u16` coordinates. */
  lemma RockPointsU16(paths: seq<Path>)
    requires forall i :: 0 <= i < |paths| ==> U16Path(paths[i])
    ensures forall q :: q in RockPoints(paths) ==> 0 <= q.1
  {
    forall q | q in RockPoints(paths) ensures 0 <= q.1 {
      RockPointsAreRock(paths, q);
      var i, k :| 0 <= i < |paths| && 0 <= k < |paths[i]| - 1 && InRect(paths[i][k], paths[i][k + 1], q);
      assert U16Point(paths[i][k]) && U16Point(paths[i][k + 1]);
    }
  }

  /** Every grain of part 2 rests in a different cell of the triangle below the
      source, none on rock, so the answer is at most the triangle's size. */
  lemma Part2Bound(paths: seq<Path>)
    requires forall i :: 0 <= i < |paths| ==> U16Path(paths[i])
    requires RockPoints(paths) != []
    ensures Part2Answer(paths).Some?
    ensures Part2Answer(paths).value <= |Triangle(MaxY(RockPoints(paths)) + 2)|
  {
    var pts := RockPoints(paths);
    RockPointsU16(paths);
    var floor := MaxY(pts) + 2;
    var r := FloorPour(RockSet(pts), {}, floor);
    DistinctWithin(r, Triangle(floor));
  }

  /** The inner `loop` of `part2`. */
  method DropOnFloor(rocks: set<Point>, sand: set<Point>, floor: int) returns (coord: Point)
    requires floor > 0
    ensures coord == FloorDrop(rocks, sand, floor, Source)
  {
    coord := Source;
    while true
      invariant 0 <= coord.1 < floor
      invariant FloorDrop(rocks, sand, floor, coord) == FloorDrop(rocks, sand, floor, Source)
      decreases floor - coord.1
    {
      var down, left, right := (coord.0, coord.1 + 1), (coord.0 - 1, coord.1 + 1), (coord.0 + 1, coord.1 + 1);
      var downTaken := down in rocks || down in sand || down.1 >= floor;
      var leftTaken := left in rocks || left in sand || left.1 >= floor;
      var rightTaken := right in rocks || right in sand || right.1 >= floor;
      if downTaken && leftTaken && rightTaken {
        return;
      } else if !downTaken {
        coord := down;
      } else if !leftTaken {
        coord := left;
      } else {
        coord := right;
      }
    }
  }

  /** The `for_each` that collects the rock into a set, with the greatest `y`. */
  method CollectRock(pts: seq<Point>) returns (rocks: set<Point>, top: int)
    ensures rocks == RockSet(pts)
    ensures pts != [] ==> top == MaxY(pts)
  {
    rocks, top := {}, 0;
    for k := 0 to |pts|
      invariant forall q :: q in rocks <==> q in pts[..k]
      invariant k > 0 ==> top == MaxY(pts[..k])
    {
      assert pts[..k + 1] == pts[..k] + [pts[k]];
      top := if k == 0 then pts[k].1 else Max(top, pts[k].1);
      rocks := rocks + {pts[k]};
    }
    assert pts[..|pts|] == pts;
  }

  /** The grains of `part2`, counted until one rests at the source, that one included. */
  method PourOnFloor(rocks: set<Point>, floor: int) returns (count: nat)
    requires floor > 0
    ensures count == |FloorPour(rocks, {}, floor)|
  {
    var sand: set<Point> := {};
    var n := 0;
    while true
      invariant n + |FloorPour(rocks, sand, floor)| == |FloorPour(rocks, {}, floor)|
      decreases |Triangle(floor) - sand|
    {
      var coord := DropOnFloor(rocks, sand, floor);
      InTriangle(floor, coord);
      if coord == Source {
        FloorLast(rocks, sand, floor);
        sand := sand + {coord};
        break;
      }
      FloorStep(rocks, sand, floor, coord);
      sand := sand + {coord};
      n := n + 1;
    }
    count := n + 1;
  }

  lemma FloorLast(rocks: set<Point>, sand: set<Point>, floor: int)
    requires floor > 0 && FloorDrop(rocks, sand, floor, Source) == Source
    ensures |FloorPour(rocks, sand, floor)| == 1
  {
  }

  /** A grain that rests below the source leaves one grain fewer to pour. */
  lemma FloorStep(rocks: set<Point>, sand: set<Point>, floor: int, c: Point)
    requires floor > 0
    requires c == FloorDrop(rocks, sand, floor, Source) && c != Source
    ensures |Triangle(floor) - (sand + {c})| < |Triangle(floor) - sand|
    ensures |FloorPour(rocks, sand, floor)| == 1 + |FloorPour(rocks, sand + {c}, floor)|
  {
    InTriangle(floor, c);
    RemoveOne(Triangle(floor), sand, c);
  }

  /** `part2`. */
  method Part2(paths: seq<Path>) returns (answer: Option<nat>)
    requires forall i :: 0 <= i < |paths| ==> U16Path(paths[i])
    ensures answer == Part2Answer(paths)
  {
    var pts := RockPoints(paths);
    var rocks, top := CollectRock(pts);
    RockSetEmpty(pts);
    if rocks == {} {
      return None;
    }
    RockPointsU16(paths);
    var count := PourOnFloor(rocks, top + 2);
    answer := Some(count);
  }
}
