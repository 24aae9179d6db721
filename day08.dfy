/** Day 8: tree visibility and scenic scores on a grid (src/days/day8.rs). */
module Day08 {
  import opened Wrappers
  import opened Text
  import opened Seqs

  /** A tree with the coordinates it was read at (stored as `u8`) and its height. */
  datatype Tree = Tree(x: nat, y: nat, height: nat)

  type Grid = seq<seq<Tree>>

  /** `Tree::from`: the coordinates truncated to `u8`, the digit's value as height;
      `None` where the source unwraps a non-digit. */
  function MakeTree(x: nat, y: nat, c: char): (r: Option<Tree>)
    ensures r.Some? <==> IsDigit(c)
    ensures r.Some? ==> r.value.x == x % 256 && r.value.y == y % 256 && r.value.height < 10
  {
    if IsDigit(c) then Some(Tree(x % 256, y % 256, DigitValue(c))) else None
  }

  /** The trees of line `y`, from character `x` on. */
  function RowTrees(line: string, x: nat, y: nat): (r: Option<seq<Tree>>)
    ensures r.Some? ==> |r.value| == |line|
    ensures r.Some? ==> forall i :: 0 <= i < |line| ==> MakeTree(x + i, y, line[i]) == Some(r.value[i])
    decreases |line|
  {
    if line == [] then Some([])
    else
      match (MakeTree(x, y, line[0]), RowTrees(line[1..], x + 1, y))
      case (Some(t), Some(rest)) =>
        assert forall i :: 1 <= i < |line| ==> line[i] == line[1..][i - 1];
        Some([t] + rest)
      case _ => None
  }

  /** All trees of the lines from `y` on, row after row (the `flat_map`). */
  function Flat(lines: seq<string>, y: nat): Option<seq<Tree>>
    decreases |lines|
  {
    if lines == [] then Some([])
    else
      match (RowTrees(lines[0], 0, y), Flat(lines[1..], y + 1))
      case (Some(row), Some(rest)) => Some(row + rest)
      case _ => None
  }

  /** `n` is a multiple of `cols`. */
  predicate Multiple(n: nat, cols: nat)
    requires cols > 0
    decreases n
  {
    n == 0 || (n >= cols && Multiple(n - cols, cols))
  }

  /** `Grid::from_vec`: consecutive runs of `cols` trees as rows. */
  function Chunk(trees: seq<Tree>, cols: nat): (g: Grid)
    requires cols > 0 && Multiple(|trees|, cols)
    ensures forall r :: 0 <= r < |g| ==> |g[r]| == cols
    decreases |trees|
  {
    if trees == [] then []
    else [trees[..cols]] + Chunk(trees[cols..], cols)
  }

  /** `parse`: the grid as wide as the first line; `None` where the source panics
      (no line, a non-digit, an empty first line, or a length that is not a multiple
      of the width). */
  function Parse(input: string): Option<Grid> {
    var lines := Lines(input);
    if lines == [] || |lines[0]| == 0 then None
    else
      match Flat(lines, 0)
      case None => None
      case Some(trees) =>
        var cols := |lines[0]|;
        if !Multiple(|trees|, cols) then None else Some(Chunk(trees, cols))
  }

  /** All rows as wide as the first, and at least one tree. */
  predicate Rect(g: Grid) {
    |g| > 0 && |g[0]| > 0 && forall r :: 0 <= r < |g| ==> |g[r]| == |g[0]|
  }

  /** Every tree carries its own position in the grid. */
  predicate Placed(g: Grid)
    requires Rect(g)
  {
    forall r, c :: 0 <= r < |g| && 0 <= c < |g[0]| ==> g[r][c].x == c && g[r][c].y == r
  }

  /** Every tree's stored coordinates lie inside the grid (so the row and column
      lookups made from them succeed). */
  predicate InRange(g: Grid)
    requires Rect(g)
  {
    forall r, c :: 0 <= r < |g| && 0 <= c < |g[0]| ==> g[r][c].x < |g[0]| && g[r][c].y < |g|
  }

  lemma {:induction false} ChunkOfRows(rows: seq<seq<Tree>>, cols: nat, flat: seq<Tree>)
    requires cols > 0 && forall r :: 0 <= r < |rows| ==> |rows[r]| == cols
    requires flat == Concat(rows)
    ensures Multiple(|flat|, cols) && Chunk(flat, cols) == rows
    decreases |rows|
  {
    if rows != [] {
      assert flat[..cols] == rows[0] && flat[cols..] == Concat(rows[1..]);
      ChunkOfRows(rows[1..], cols, flat[cols..]);
    }
  }

  function Concat(rows: seq<seq<Tree>>): seq<Tree>
    decreases |rows|
  {
    if rows == [] then [] else rows[0] + Concat(rows[1..])
  }

  /** The rows `RowTrees` reads from lines of digits starting at line `y`. */
  function DigitRows(lines: seq<string>, y: nat): (rows: seq<seq<Tree>>)
    requires forall r :: 0 <= r < |lines| ==> AllDigits(lines[r])
    ensures |rows| == |lines|
    ensures forall r :: 0 <= r < |lines| ==> RowTrees(lines[r], 0, y + r) == Some(rows[r])
    decreases |lines|
  {
    if lines == [] then []
    else
      RowOfDigits(lines[0], 0, y);
      var rest := DigitRows(lines[1..], y + 1);
      assert forall r :: 1 <= r < |lines| ==> lines[r] == lines[1..][r - 1];
      [RowTrees(lines[0], 0, y).value] + rest
  }

  lemma {:induction false} FlatRows(lines: seq<string>, y: nat)
    requires forall r :: 0 <= r < |lines| ==> AllDigits(lines[r])
    ensures Flat(lines, y) == Some(Concat(DigitRows(lines, y)))
    decreases |lines|
  {
    if lines != [] {
      FlatRows(lines[1..], y + 1);
      assert DigitRows(lines, y)[1..] == DigitRows(lines[1..], y + 1);
    }
  }

  lemma {:induction false} RowOfDigits(line: string, x: nat, y: nat)
    requires AllDigits(line)
    ensures RowTrees(line, x, y).Some?
    decreases |line|
  {
    if line != [] {
      RowOfDigits(line[1..], x + 1, y);
    }
  }

  lemma SmallCoordinate(n: nat)
    requires n < 256
    ensures n % 256 == n
  {
  }

  /** On a rectangular input of digits at most 256 wide and high, `parse` builds the
      row-major grid of its lines, each tree carrying its own position. */
  lemma ParseWellFormed(input: string)
    requires var lines := Lines(input);
      |lines| > 0 && 0 < |lines[0]| &&
      (forall r :: 0 <= r < |lines| ==> |lines[r]| == |lines[0]| && AllDigits(lines[r])) &&
      |lines| <= 256 && |lines[0]| <= 256
    ensures var lines := Lines(input);
      Parse(input).Some? && Rect(Parse(input).value) && Placed(Parse(input).value) &&
      |Parse(input).value| == |lines| &&
      forall r, c :: 0 <= r < |lines| && 0 <= c < |lines[0]| ==> Parse(input).value[r][c].height == DigitValue(lines[r][c])
  {
    var lines := Lines(input);
    var cols := |lines[0]|;
    FlatRows(lines, 0);
    var rows := DigitRows(lines, 0);
    ChunkOfRows(rows, cols, Concat(rows));
    var g: Grid := Parse(input).value;
    assert g == rows;
    forall r, c | 0 <= r < |lines| && 0 <= c < cols
      ensures g[r][c].x == c && g[r][c].y == r && g[r][c].height == DigitValue(lines[r][c])
    {
      var row := rows[r];
      assert RowTrees(lines[r], 0, 0 + r) == Some(row);
      assert MakeTree(0 + c, r, lines[r][c]) == Some(row[c]);
      SmallCoordinate(c);
      SmallCoordinate(r);
    }
  }

  /** Column `c` of the grid, top to bottom. */
  function Column(g: Grid, c: nat): (col: seq<Tree>)
    requires Rect(g) && c < |g[0]|
    ensures |col| == |g| && forall r :: 0 <= r < |g| ==> col[r] == g[r][c]
  {
    seq(|g|, r requires 0 <= r < |g| => g[r][c])
  }

  predicate AllLower(trees: seq<Tree>, h: nat) {
    forall i :: 0 <= i < |trees| ==> trees[i].height < h
  }

  /** `Tree::is_visible`: on the border, or lower trees only in one of the four
      directions, looked up by the tree's stored coordinates. */
  predicate IsVisible(t: Tree, g: Grid)
    requires Rect(g) && t.x < |g[0]| && t.y < |g|
  {
    var row := g[t.y];
    var col := Column(g, t.x);
    t.x == 0 || t.x == |g[0]| - 1 || t.y == 0 || t.y == |g| - 1 ||
    AllLower(row[..t.x], t.height) || AllLower(row[t.x + 1..], t.height) ||
    AllLower(col[..t.y], t.height) || AllLower(col[t.y + 1..], t.height)
  }

  /** Seen along a straight line from position (c, r) in a direction, every tree up to
      the edge is lower than `h`. */
  predicate ClearLeft(g: Grid, c: nat, r: nat, h: nat)
    requires Rect(g) && r < |g| && c < |g[0]|
  {
    forall i :: 0 <= i < c ==> g[r][i].height < h
  }

  predicate ClearRight(g: Grid, c: nat, r: nat, h: nat)
    requires Rect(g) && r < |g| && c < |g[0]|
  {
    forall i :: c < i < |g[0]| ==> g[r][i].height < h
  }

  predicate ClearUp(g: Grid, c: nat, r: nat, h: nat)
    requires Rect(g) && r < |g| && c < |g[0]|
  {
    forall j :: 0 <= j < r ==> g[j][c].height < h
  }

  predicate ClearDown(g: Grid, c: nat, r: nat, h: nat)
    requires Rect(g) && r < |g| && c < |g[0]|
  {
    forall j :: r < j < |g| ==> g[j][c].height < h
  }

  /** Border trees are visible, and an interior tree is visible exactly when every
      tree between it and the edge is lower in at least one direction. */
  lemma VisibleMeaning(g: Grid, r: nat, c: nat)
    requires Rect(g) && Placed(g) && r < |g| && c < |g[0]|
    ensures var t := g[r][c];
      (r == 0 || c == 0 || r == |g| - 1 || c == |g[0]| - 1 ==> IsVisible(t, g)) &&
      (IsVisible(t, g) <==>
        r == 0 || c == 0 || r == |g| - 1 || c == |g[0]| - 1 ||
        ClearLeft(g, c, r, t.height) || ClearRight(g, c, r, t.height) ||
        ClearUp(g, c, r, t.height) || ClearDown(g, c, r, t.height))
  {
    var t := g[r][c];
    var row := g[r];
    var col := Column(g, c);
    assert AllLower(row[..c], t.height) <==> ClearLeft(g, c, r, t.height) by {
      assert forall i :: 0 <= i < c ==> row[..c][i] == g[r][i];
    }
    assert AllLower(row[c + 1..], t.height) <==> ClearRight(g, c, r, t.height) by {
      assert forall i :: c < i < |g[0]| ==> row[c + 1..][i - c - 1] == g[r][i];
    }
    assert AllLower(col[..r], t.height) <==> ClearUp(g, c, r, t.height) by {
      assert forall j :: 0 <= j < r ==> col[..r][j] == g[j][c];
    }
    assert AllLower(col[r + 1..], t.height) <==> ClearDown(g, c, r, t.height) by {
      assert forall j :: r < j < |g| ==> col[r + 1..][j - r - 1] == g[j][c];
    }
  }

  /** The number of trees at the front of the view that are lower than `h` (`take_while`). */
  function LowerRun(view: seq<Tree>, h: nat): (n: nat)
    ensures n <= |view| && AllLower(view[..n], h) && (n < |view| ==> view[n].height >= h)
    decreases |view|
  {
    if view == [] || view[0].height >= h then 0
    else
      var k := LowerRun(view[1..], h);
      assert view[..k + 1] == [view[0]] + view[1..][..k];
      k + 1
  }

  /** The viewing distance the puzzle intends: the trees up to and including the
      first one at least as tall, or up to the edge. */
  function ViewDistance(view: seq<Tree>, h: nat): (d: nat)
    ensures d <= |view| && (view != [] <==> d >= 1)
    ensures AllLower(view[..if d == 0 then 0 else d - 1], h)
    ensures d == |view| || view[d - 1].height >= h
  {
    var n := LowerRun(view, h);
    if n < |view| then n + 1 else n
  }

  function AbsDiff(a: int, b: int): nat { if a < b then b - a else a - b }

  /** The four views from a tree, nearest tree first. */
  function LeftView(t: Tree, g: Grid): seq<Tree>
    requires Rect(g) && t.x < |g[0]| && t.y < |g|
  {
    Reverse(g[t.y][..t.x])
  }

  function RightView(t: Tree, g: Grid): seq<Tree>
    requires Rect(g) && t.x < |g[0]| && t.y < |g|
  {
    g[t.y][t.x + 1..]
  }

  function UpView(t: Tree, g: Grid): seq<Tree>
    requires Rect(g) && t.x < |g[0]| && t.y < |g|
  {
    Reverse(Column(g, t.x)[..t.y])
  }

  function DownView(t: Tree, g: Grid): seq<Tree>
    requires Rect(g) && t.x < |g[0]| && t.y < |g|
  {
    Column(g, t.x)[t.y + 1..]
  }

  /** One directional value of `scenic_score` as written: zero when the `take_while`
      is empty, otherwise the distance to the last lower tree (by its stored
      coordinate `i`) plus one unless that tree is on the edge (`atEdge(i)`). */
  function AsWrittenValue(view: seq<Tree>, h: nat, here: nat, horizontal: bool, towardStart: bool, last: nat): nat {
    var n := LowerRun(view, h);
    if n == 0 then 0
    else
      var i := if horizontal then view[n - 1].x else view[n - 1].y;
      AbsDiff(here, i) + if (if towardStart then i > 0 else i < last) then 1 else 0
  }

  /** The product of the four directional values; zero exactly when one of them is. */
  function Product(a: nat, b: nat, c: nat, d: nat): (p: nat)
    ensures p == 0 <==> a == 0 || b == 0 || c == 0 || d == 0
  {
    var ab: nat := a * b;
    var abc: nat := ab * c;
    assert ab == 0 <==> a == 0 || b == 0;
    assert abc == 0 <==> ab == 0 || c == 0;
    assert abc * d == 0 <==> abc == 0 || d == 0;
    abc * d
  }

  /** `Tree::scenic_score` as written. */
  function ScenicAsWritten(t: Tree, g: Grid): nat
    requires Rect(g) && t.x < |g[0]| && t.y < |g|
  {
    Product(AsWrittenValue(LeftView(t, g), t.height, t.x, true, true, |g[0]| - 1),
            AsWrittenValue(RightView(t, g), t.height, t.x, true, false, |g[0]| - 1),
            AsWrittenValue(UpView(t, g), t.height, t.y, false, true, |g| - 1),
            AsWrittenValue(DownView(t, g), t.height, t.y, false, false, |g| - 1))
  }

  /** The scenic score as the puzzle states it: the product of the four viewing distances. */
  function Scenic(t: Tree, g: Grid): (s: nat)
    requires Rect(g) && t.x < |g[0]| && t.y < |g|
  {
    Product(ViewDistance(LeftView(t, g), t.height), ViewDistance(RightView(t, g), t.height),
            ViewDistance(UpView(t, g), t.height), ViewDistance(DownView(t, g), t.height))
  }

  /** Each view reaches the edge: its length is the distance to it. */
  lemma ViewLengths(g: Grid, r: nat, c: nat)
    requires Rect(g) && Placed(g) && r < |g| && c < |g[0]|
    ensures var t := g[r][c];
      |LeftView(t, g)| == c && |RightView(t, g)| == |g[0]| - 1 - c &&
      |UpView(t, g)| == r && |DownView(t, g)| == |g| - 1 - r
  {
  }

  /** Every viewing distance is at most the distance to that edge, so a border tree
      scores 0, and an interior tree scores at least 1. */
  lemma ScenicBounds(g: Grid, r: nat, c: nat)
    requires Rect(g) && Placed(g) && r < |g| && c < |g[0]|
    ensures var t := g[r][c];
      ViewDistance(LeftView(t, g), t.height) <= c &&
      ViewDistance(RightView(t, g), t.height) <= |g[0]| - 1 - c &&
      ViewDistance(UpView(t, g), t.height) <= r &&
      ViewDistance(DownView(t, g), t.height) <= |g| - 1 - r &&
      (r == 0 || c == 0 || r == |g| - 1 || c == |g[0]| - 1 <==> Scenic(t, g) == 0)
  {
    ViewLengths(g, r, c);
  }

  /** With the trees in their places, a direction scores as written exactly the
      intended distance, except when the adjacent tree already blocks the view:
      there the source scores 0. */
  lemma AsWrittenAgreesUnlessBlocked(g: Grid, r: nat, c: nat)
    requires Rect(g) && Placed(g) && r < |g| && c < |g[0]|
    ensures var t := g[r][c];
      var h := t.height;
      AsWrittenValue(LeftView(t, g), h, c, true, true, |g[0]| - 1) ==
        (if LowerRun(LeftView(t, g), h) == 0 then 0 else ViewDistance(LeftView(t, g), h)) &&
      AsWrittenValue(RightView(t, g), h, c, true, false, |g[0]| - 1) ==
        (if LowerRun(RightView(t, g), h) == 0 then 0 else ViewDistance(RightView(t, g), h)) &&
      AsWrittenValue(UpView(t, g), h, r, false, true, |g| - 1) ==
        (if LowerRun(UpView(t, g), h) == 0 then 0 else ViewDistance(UpView(t, g), h)) &&
      AsWrittenValue(DownView(t, g), h, r, false, false, |g| - 1) ==
        (if LowerRun(DownView(t, g), h) == 0 then 0 else ViewDistance(DownView(t, g), h))
  {
    AgreesLeft(g, r, c);
    AgreesRight(g, r, c);
    AgreesUp(g, r, c);
    AgreesDown(g, r, c);
  }

  lemma AgreesLeft(g: Grid, r: nat, c: nat)
    requires Rect(g) && Placed(g) && r < |g| && c < |g[0]|
    ensures var t := g[r][c];
      var v := LeftView(t, g);
      AsWrittenValue(v, t.height, c, true, true, |g[0]| - 1) ==
        (if LowerRun(v, t.height) == 0 then 0 else ViewDistance(v, t.height))
  {
    var t := g[r][c];
    var n := LowerRun(LeftView(t, g), t.height);
    if n > 0 {
      assert LeftView(t, g)[n - 1] == g[r][c - n];
    }
  }

  lemma AgreesRight(g: Grid, r: nat, c: nat)
    requires Rect(g) && Placed(g) && r < |g| && c < |g[0]|
    ensures var t := g[r][c];
      var v := RightView(t, g);
      AsWrittenValue(v, t.height, c, true, false, |g[0]| - 1) ==
        (if LowerRun(v, t.height) == 0 then 0 else ViewDistance(v, t.height))
  {
    var t := g[r][c];
    var n := LowerRun(RightView(t, g), t.height);
    if n > 0 {
      assert RightView(t, g)[n - 1] == g[r][c + n];
    }
  }

  lemma AgreesUp(g: Grid, r: nat, c: nat)
    requires Rect(g) && Placed(g) && r < |g| && c < |g[0]|
    ensures var t := g[r][c];
      var v := UpView(t, g);
      AsWrittenValue(v, t.height, r, false, true, |g| - 1) ==
        (if LowerRun(v, t.height) == 0 then 0 else ViewDistance(v, t.height))
  {
    var t := g[r][c];
    var n := LowerRun(UpView(t, g), t.height);
    if n > 0 {
      assert UpView(t, g)[n - 1] == g[r - n][c];
    }
  }

  lemma AgreesDown(g: Grid, r: nat, c: nat)
    requires Rect(g) && Placed(g) && r < |g| && c < |g[0]|
    ensures var t := g[r][c];
      var v := DownView(t, g);
      AsWrittenValue(v, t.height, r, false, false, |g| - 1) ==
        (if LowerRun(v, t.height) == 0 then 0 else ViewDistance(v, t.height))
  {
    var t := g[r][c];
    var n := LowerRun(DownView(t, g), t.height);
    if n > 0 {
      assert DownView(t, g)[n - 1] == g[r + n][c];
    }
  }

  /** `part1`: the number of visible trees. */
  function Part1(g: Grid): (n: nat)
    requires Rect(g) && InRange(g)
    ensures n <= |g| * |g[0]|
  {
    CountRows(g, |g|)
  }

  function CountRows(g: Grid, rows: nat): (n: nat)
    requires Rect(g) && InRange(g) && rows <= |g|
    ensures n <= rows * |g[0]|
  {
    if rows == 0 then 0
    else CountRows(g, rows - 1) + CountInRow(g, rows - 1, |g[0]|)
  }

  function CountInRow(g: Grid, r: nat, cols: nat): (n: nat)
    requires Rect(g) && InRange(g) && r < |g| && cols <= |g[0]|
    ensures n <= cols
  {
    if cols == 0 then 0
    else CountInRow(g, r, cols - 1) + if IsVisible(g[r][cols - 1], g) then 1 else 0
  }

  /** The score of a tree, as written or as intended. */
  function Score(t: Tree, g: Grid, asWritten: bool): nat
    requires Rect(g) && t.x < |g[0]| && t.y < |g|
  {
    if asWritten then ScenicAsWritten(t, g) else Scenic(t, g)
  }

  /** The largest value of a non-empty sequence (`Iterator::max`). */
  function Max(s: seq<nat>): (m: nat)
    requires s != []
    ensures (exists i :: 0 <= i < |s| && s[i] == m) && forall i :: 0 <= i < |s| ==> s[i] <= m
    decreases |s|
  {
    if |s| == 1 then s[0]
    else
      var rest := Max(s[1..]);
      assert forall i :: 1 <= i < |s| ==> s[i] == s[1..][i - 1];
      if s[0] > rest then s[0] else rest
  }

  /** The largest entry of a table with non-empty rows. */
  function TableMax(t: seq<seq<nat>>): (m: nat)
    requires t != [] && forall r :: 0 <= r < |t| ==> t[r] != []
    ensures exists r, c :: 0 <= r < |t| && 0 <= c < |t[r]| && t[r][c] == m
    ensures forall r, c :: 0 <= r < |t| && 0 <= c < |t[r]| ==> t[r][c] <= m
  {
    var bests := seq(|t|, r requires 0 <= r < |t| => Max(t[r]));
    var m := Max(bests);
    var r :| 0 <= r < |t| && bests[r] == m;
    assert exists c :: 0 <= c < |t[r]| && t[r][c] == m;
    forall r', c | 0 <= r' < |t| && 0 <= c < |t[r']| ensures t[r'][c] <= m {
      assert t[r'][c] <= bests[r'];
    }
    m
  }

  /** The scores of all trees, row by row. */
  function Scores(g: Grid, asWritten: bool): (t: seq<seq<nat>>)
    requires Rect(g) && InRange(g)
    ensures |t| == |g| && forall r :: 0 <= r < |g| ==> |t[r]| == |g[0]|
  {
    seq(|g|, r requires 0 <= r < |g| =>
      seq(|g[0]|, c requires 0 <= c < |g[0]| => Score(g[r][c], g, asWritten)))
  }

  /** Entry (r, c) of the table is the score of the tree there. */
  lemma ScoresAt(g: Grid, asWritten: bool, r: nat, c: nat)
    requires Rect(g) && InRange(g) && r < |g| && c < |g[0]|
    ensures Scores(g, asWritten)[r][c] == Score(g[r][c], g, asWritten)
  {
  }

  /** `part2`: the best score in the grid (the grid is never empty, so the source's
      `unwrap` always succeeds). With `asWritten` the source's own scores, without it
      the intended ones. */
  function Best(g: Grid, asWritten: bool): (best: nat)
    requires Rect(g) && InRange(g)
    ensures exists r, c :: 0 <= r < |g| && 0 <= c < |g[0]| && best == Score(g[r][c], g, asWritten)
    ensures forall r, c :: 0 <= r < |g| && 0 <= c < |g[0]| ==> Score(g[r][c], g, asWritten) <= best
  {
    var t := Scores(g, asWritten);
    var best := TableMax(t);
    ScoresMax(g, asWritten, t, best);
    best
  }

  /** The maximum of the score table is a tree's score and no tree scores more. */
  lemma ScoresMax(g: Grid, asWritten: bool, t: seq<seq<nat>>, m: nat)
    requires Rect(g) && InRange(g) && t == Scores(g, asWritten) && m == TableMax(t)
    ensures exists r, c :: 0 <= r < |g| && 0 <= c < |g[0]| && m == Score(g[r][c], g, asWritten)
    ensures forall r, c :: 0 <= r < |g| && 0 <= c < |g[0]| ==> Score(g[r][c], g, asWritten) <= m
  {
    var r, c :| 0 <= r < |t| && 0 <= c < |t[r]| && t[r][c] == m;
    ScoresAt(g, asWritten, r, c);
    forall r, c | 0 <= r < |g| && 0 <= c < |g[0]| ensures Score(g[r][c], g, asWritten) <= m {
      ScoresAt(g, asWritten, r, c);
      assert t[r][c] <= m;
    }
  }

  /** `part2` through the table of scores. */
  lemma BestIsTableMax(g: Grid, asWritten: bool)
    requires Rect(g) && InRange(g)
    ensures Best(g, asWritten) == TableMax(Scores(g, asWritten))
  {
  }

  function Part2(g: Grid): nat
    requires Rect(g) && InRange(g)
  {
    Best(g, false)
  }

  function Part2AsWritten(g: Grid): nat
    requires Rect(g) && InRange(g)
  {
    Best(g, true)
  }

  /** Both versions score a border tree 0: one of its views is empty. */
  lemma BorderScoresZero(g: Grid, r: nat, c: nat)
    requires Rect(g) && Placed(g) && r < |g| && c < |g[0]|
    requires r == 0 || c == 0 || r == |g| - 1 || c == |g[0]| - 1
    ensures Scenic(g[r][c], g) == 0 && ScenicAsWritten(g[r][c], g) == 0
  {
    ViewLengths(g, r, c);
  }

  /** An interior tree whose four neighbours are at least as tall sees exactly one tree
      in each direction, so it scores 1; the source scores it 0. */
  lemma BlockedOnAllSides(g: Grid, r: nat, c: nat)
    requires Rect(g) && Placed(g) && 0 < r < |g| - 1 && 0 < c < |g[0]| - 1
    requires var h := g[r][c].height;
      g[r][c - 1].height >= h && g[r][c + 1].height >= h &&
      g[r - 1][c].height >= h && g[r + 1][c].height >= h
    ensures Scenic(g[r][c], g) == 1 && ScenicAsWritten(g[r][c], g) == 0
  {
    var t := g[r][c];
    assert LeftView(t, g)[0] == g[r][c - 1];
    assert RightView(t, g)[0] == g[r][c + 1];
    assert UpView(t, g)[0] == g[r - 1][c];
    assert DownView(t, g)[0] == g[r + 1][c];
  }

  /** The heights of the grid `999 / 919 / 999`. */
  predicate IsPit(g: Grid) {
    Rect(g) && |g| == 3 && |g[0]| == 3 && Placed(g) &&
    forall r, c :: 0 <= r < 3 && 0 <= c < 3 ==> g[r][c].height == if r == 1 && c == 1 then 1 else 9
  }

  /** On `999 / 919 / 999` the source answers part 2 with 0; the intended answer is 1,
      the low centre tree that sees one tree in each direction. */
  lemma PitCounterexample(g: Grid)
    requires IsPit(g)
    ensures InRange(g) && Part2AsWritten(g) == 0 && Part2(g) == 1
  {
    PitIntended(g);
    PitAsWritten(g);
  }

  lemma PitIntended(g: Grid)
    requires IsPit(g)
    ensures InRange(g) && Part2(g) == 1
  {
    PitScores(g);
    TableMaxIs(Scores(g, false), 1, 1, 1);
    BestIsTableMax(g, false);
  }

  lemma PitAsWritten(g: Grid)
    requires IsPit(g)
    ensures InRange(g) && Part2AsWritten(g) == 0
  {
    PitScores(g);
    TableMaxIs(Scores(g, true), 0, 0, 0);
    BestIsTableMax(g, true);
  }

  lemma PitScores(g: Grid)
    requires IsPit(g)
    ensures InRange(g)
    ensures forall r, c :: 0 <= r < 3 && 0 <= c < 3 ==>
      Scores(g, false)[r][c] == (if r == 1 && c == 1 then 1 else 0) && Scores(g, true)[r][c] == 0
  {
    forall r, c | 0 <= r < 3 && 0 <= c < 3
      ensures Scores(g, false)[r][c] == (if r == 1 && c == 1 then 1 else 0) && Scores(g, true)[r][c] == 0
    {
      ScoresAt(g, false, r, c);
      ScoresAt(g, true, r, c);
      if r == 1 && c == 1 {
        BlockedOnAllSides(g, 1, 1);
      } else {
        BorderScoresZero(g, r, c);
      }
    }
  }

  /** A table whose entry at (r, c) is `v` and whose others are at most `v` has maximum `v`. */
  lemma TableMaxIs(t: seq<seq<nat>>, v: nat, r: nat, c: nat)
    requires t != [] && forall i :: 0 <= i < |t| ==> t[i] != []
    requires r < |t| && c < |t[r]| && t[r][c] == v
    requires forall i, j :: 0 <= i < |t| && 0 <= j < |t[i]| ==> t[i][j] <= v
    ensures TableMax(t) == v
  {
  }

  /** Such a grid exists. */
  lemma PitExists()
    ensures IsPit([[Tree(0, 0, 9), Tree(1, 0, 9), Tree(2, 0, 9)],
                   [Tree(0, 1, 9), Tree(1, 1, 1), Tree(2, 1, 9)],
                   [Tree(0, 2, 9), Tree(1, 2, 9), Tree(2, 2, 9)]])
  {
  }
}
