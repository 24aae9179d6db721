/** Day 15: sensors, their beacons and the cells their Manhattan radius covers
    (src/days/day15.rs). */
module Day15 {
  import opened Wrappers
  import opened Text

  datatype Point = Point(x: int, y: int)

  /** One line of the report: a sensor and the closest beacon it detects. */
  datatype Report = Report(sensor: Point, beacon: Point)

  /** `i32` values lie in [-I32, I32). */
  const I32: nat := 0x8000_0000

  function Abs(a: int): nat { if a < 0 then -a else a }

  /** `(a - b).abs().sum()`: the Manhattan distance. */
  function Dist(a: Point, b: Point): nat {
    Abs(a.x - b.x) + Abs(a.y - b.y)
  }

  /** The radius of a sensor: the distance to its beacon. */
  function Radius(r: Report): nat { Dist(r.sensor, r.beacon) }

  // Parsing

  /** `tag(lit)`: the rest after the literal, or `None`. */
  function Tag(s: string, lit: string): (r: Option<string>)
    ensures r.Some? ==> s == lit + r.value
  {
    if StartsWith(s, lit) then
      assert s == s[..|lit|] + s[|lit|..];
      Some(s[|lit|..])
    else None
  }

  /** `complete::i32`. */
  function I32Prefix(s: string): Option<(int, string)> {
    ParseSignedPrefix(s, I32)
  }

  /** `x=…, y=…` after the given tag: a point. */
  function PointPrefix(s: string, lead: string): Option<(Point, string)> {
    match Tag(s, lead)
    case None => None
    case Some(s1) =>
      match I32Prefix(s1)
      case None => None
      case Some((x, s2)) =>
        match Tag(s2, ", y=")
        case None => None
        case Some(s3) =>
          match I32Prefix(s3)
          case None => None
          case Some((y, s4)) => Some((Point(x, y), s4))
  }

  /** One report line: `Sensor at x=…, y=…: closest beacon is at x=…, y=…`. */
  function ReportPrefix(s: string): (r: Option<(Report, string)>)
    ensures r.Some? ==> |r.value.1| < |s|
  {
    match PointPrefix(s, "Sensor at x=")
    case None => None
    case Some((sensor, s1)) =>
      match PointPrefix(s1, ": closest beacon is at x=")
      case None => None
      case Some((beacon, s2)) => Some((Report(sensor, beacon), s2))
  }

  /** The tail of `separated_list1(newline, …)`: further reports, each after a newline,
      until a newline is not followed by a report. */
  function MoreReports(s: string): seq<Report>
    decreases |s|
  {
    match Tag(s, "\n")
    case None => []
    case Some(s1) =>
      match ReportPrefix(s1)
      case None => []
      case Some((r, s2)) => [r] + MoreReports(s2)
  }

  /** `parse`: at least one report; `None` where the source's `unwrap` panics.
      Whatever follows the last report is ignored. */
  function Parse(input: string): (r: Option<seq<Report>>)
    ensures r.Some? ==> r.value != []
  {
    match ReportPrefix(input)
    case None => None
    case Some((first, rest)) => Some([first] + MoreReports(rest))
  }

  /** `Display` of an `i32`. */
  function Signed(n: int): string {
    if n < 0 then "-" + Decimal(-n) else Decimal(n)
  }

  lemma SignedParses(n: int, rest: string)
    requires -(I32 as int) <= n < I32
    requires rest == [] || !IsDigit(rest[0])
    ensures I32Prefix(Signed(n) + rest) == Some((n, rest))
  {
    if n < 0 {
      NegativeParses(-n, rest);
    } else {
      NonNegativeParses(n, rest);
    }
  }

  lemma NegativeParses(m: nat, rest: string)
    requires 0 < m <= I32
    requires rest == [] || !IsDigit(rest[0])
    ensures I32Prefix("-" + Decimal(m) + rest) == Some((-(m as int), rest))
  {
    var s := "-" + Decimal(m) + rest;
    assert s[0] == '-' && s[1..] == Decimal(m) + rest;
    DigitRunOfDecimal(Decimal(m), rest);
    DecimalRoundTrip(m);
  }

  lemma NonNegativeParses(n: nat, rest: string)
    requires n < I32
    requires rest == [] || !IsDigit(rest[0])
    ensures I32Prefix(Decimal(n) + rest) == Some((n, rest))
  {
    var d := Decimal(n);
    assert d[0] != '-' && d[0] != '+';
    PrintedNumberParses(n, I32, rest);
  }

  /** How the puzzle prints one report. */
  function Format(r: Report): string {
    "Sensor at x=" + Signed(r.sensor.x) + ", y=" + Signed(r.sensor.y) +
    ": closest beacon is at x=" + Signed(r.beacon.x) + ", y=" + Signed(r.beacon.y)
  }

  predicate InI32(p: Point) {
    -(I32 as int) <= p.x < I32 && -(I32 as int) <= p.y < I32
  }

  lemma TagOf(lit: string, rest: string)
    ensures Tag(lit + rest, lit) == Some(rest)
  {
    assert (lit + rest)[..|lit|] == lit;
    assert (lit + rest)[|lit|..] == rest;
  }

  lemma PointParses(lead: string, p: Point, rest: string)
    requires InI32(p)
    requires rest == [] || !IsDigit(rest[0])
    ensures PointPrefix(lead + Signed(p.x) + ", y=" + Signed(p.y) + rest, lead) == Some((p, rest))
  {
    var tail := Signed(p.y) + rest;
    var mid := ", y=" + tail;
    assert lead + Signed(p.x) + ", y=" + Signed(p.y) + rest == lead + (Signed(p.x) + mid);
    TagOf(lead, Signed(p.x) + mid);
    SignedParses(p.x, mid);
    TagOf(", y=", tail);
    SignedParses(p.y, rest);
  }

  /** A printed report is read back, whatever non-digit text follows it. */
  lemma ReportRoundTrip(r: Report, rest: string)
    requires InI32(r.sensor) && InI32(r.beacon)
    requires rest == [] || !IsDigit(rest[0])
    ensures ReportPrefix(Format(r) + rest) == Some((r, rest))
  {
    var b := r.beacon;
    var second := ": closest beacon is at x=" + Signed(b.x) + ", y=" + Signed(b.y) + rest;
    assert Format(r) + rest ==
      "Sensor at x=" + Signed(r.sensor.x) + ", y=" + Signed(r.sensor.y) + second;
    assert second[0] == ':';
    PointParses("Sensor at x=", r.sensor, second);
    PointParses(": closest beacon is at x=", b, rest);
  }

  /** The reports printed one per line. */
  function FormatAll(rs: seq<Report>): string
    requires rs != []
    decreases |rs|
  {
    if |rs| == 1 then Format(rs[0]) else Format(rs[0]) + "\n" + FormatAll(rs[1..])
  }

  /** What follows the first report in the printed list. */
  function Tail(rs: seq<Report>): string
    requires rs != []
  {
    if |rs| == 1 then [] else "\n" + FormatAll(rs[1..])
  }

  lemma {:induction false} HeadParses(rs: seq<Report>)
    requires rs != []
    requires forall i :: 0 <= i < |rs| ==> InI32(rs[i].sensor) && InI32(rs[i].beacon)
    ensures ReportPrefix(FormatAll(rs)) == Some((rs[0], Tail(rs)))
  {
    FormatAllHead(rs);
    ReportRoundTrip(rs[0], Tail(rs));
  }

  lemma FormatAllHead(rs: seq<Report>)
    requires rs != []
    ensures FormatAll(rs) == Format(rs[0]) + Tail(rs)
    ensures Tail(rs) == [] || Tail(rs)[0] == '\n'
  {
    if |rs| == 1 {
      assert Format(rs[0]) + [] == Format(rs[0]);
    }
  }

  lemma {:induction false} TailParses(rs: seq<Report>)
    requires rs != []
    requires forall i :: 0 <= i < |rs| ==> InI32(rs[i].sensor) && InI32(rs[i].beacon)
    ensures MoreReports(Tail(rs)) == rs[1..]
    decreases |rs|
  {
    if |rs| > 1 {
      var more := rs[1..];
      HeadParses(more);
      TailParses(more);
      MoreOfHead(Tail(rs), FormatAll(more), more[0], Tail(more));
      ConsSplit(more);
    }
  }

  lemma MoreOfHead(s: string, text: string, r: Report, rest: string)
    requires s == "\n" + text && ReportPrefix(text) == Some((r, rest))
    ensures MoreReports(s) == [r] + MoreReports(rest)
  {
    TagOf("\n", text);
  }

  lemma ConsSplit<T>(s: seq<T>)
    requires |s| > 0
    ensures [s[0]] + s[1..] == s
  {
  }

  /** `parse` reads back any non-empty list of reports printed one per line. */
  lemma {:induction false} ParseRoundTrip(rs: seq<Report>)
    requires rs != []
    requires forall i :: 0 <= i < |rs| ==> InI32(rs[i].sensor) && InI32(rs[i].beacon)
    ensures Parse(FormatAll(rs)) == Some(rs)
  {
    HeadParses(rs);
    TailParses(rs);
    ParseOfHead(FormatAll(rs), rs[0], Tail(rs));
    ConsSplit(rs);
  }

  lemma ParseOfHead(text: string, r: Report, rest: string)
    requires ReportPrefix(text) == Some((r, rest))
    ensures Parse(text) == Some([r] + MoreReports(rest))
  {
  }

  // Part 1

  /** Some sensor's radius reaches `p`. */
  predicate Covered(data: seq<Report>, p: Point) {
    exists i :: 0 <= i < |data| && Dist(p, data[i].sensor) <= Radius(data[i])
  }

  /** `p` is one of the reported sensors or beacons. */
  predicate Occupied(data: seq<Report>, p: Point) {
    exists i :: 0 <= i < |data| && (p == data[i].sensor || p == data[i].beacon)
  }

  /** A cell counted by part 1: covered, and holding neither a sensor nor a beacon. */
  predicate Excluded(data: seq<Report>, p: Point) {
    !Occupied(data, p) && Covered(data, p)
  }

  /** The smallest `s.x - d` over the reports. */
  function MinLeft(data: seq<Report>): (m: int)
    requires data != []
    ensures exists i :: 0 <= i < |data| && m == data[i].sensor.x - Radius(data[i])
    ensures forall i :: 0 <= i < |data| ==> m <= data[i].sensor.x - Radius(data[i])
    decreases |data|
  {
    var here := data[0].sensor.x - Radius(data[0]);
    if |data| == 1 then here
    else
      var rest := MinLeft(data[1..]);
      assert forall i :: 1 <= i < |data| ==> data[i] == data[1..][i - 1];
      if here < rest then here else rest
  }

  /** The largest `s.x + d` over the reports. */
  function MaxRight(data: seq<Report>): (m: int)
    requires data != []
    ensures exists i :: 0 <= i < |data| && m == data[i].sensor.x + Radius(data[i])
    ensures forall i :: 0 <= i < |data| ==> data[i].sensor.x + Radius(data[i]) <= m
    decreases |data|
  {
    var here := data[0].sensor.x + Radius(data[0]);
    if |data| == 1 then here
    else
      var rest := MaxRight(data[1..]);
      assert forall i :: 1 <= i < |data| ==> data[i] == data[1..][i - 1];
      if here > rest then here else rest
  }

  /** The excluded cells `(x, y)` with `lo <= x <= hi`, by their `x`. */
  function RowCells(data: seq<Report>, y: int, lo: int, hi: int): set<int> {
    set x | lo <= x <= hi && Excluded(data, Point(x, y))
  }

  lemma RowEmpty(data: seq<Report>, y: int, lo: int, hi: int)
    requires lo > hi
    ensures RowCells(data, y, lo, hi) == {}
  {
  }

  /** The row from `lo` is the cell at `lo`, when excluded, and the row from `lo + 1`. */
  lemma RowStep(data: seq<Report>, y: int, lo: int, hi: int)
    requires lo <= hi
    ensures |RowCells(data, y, lo, hi)| ==
      |RowCells(data, y, lo + 1, hi)| + if Excluded(data, Point(lo, y)) then 1 else 0
  {
    var all, tail := RowCells(data, y, lo, hi), RowCells(data, y, lo + 1, hi);
    if Excluded(data, Point(lo, y)) {
      assert all == {lo} + tail;
      assert lo !in tail;
    } else {
      assert all == tail;
    }
  }

  /** The number of excluded cells `(x, y)` with `lo <= x <= hi`. */
  function CountRow(data: seq<Report>, y: int, lo: int, hi: int): (n: nat)
    ensures n == |RowCells(data, y, lo, hi)|
    decreases hi - lo
  {
    if lo > hi then
      RowEmpty(data, y, lo, hi);
      0
    else
      RowStep(data, y, lo, hi);
      CountRow(data, y, lo + 1, hi) + if Excluded(data, Point(lo, y)) then 1 else 0
  }

  /** `part1` on row `y` (the source picks the row from the first sensor): the cells
      between the leftmost and rightmost reach of any sensor that are excluded.
      `None` for no reports, where the source's `unwrap` panics. */
  function Part1(data: seq<Report>, y: int): (r: Option<nat>)
    ensures r.None? <==> data == []
    ensures r.Some? ==> r.value == |RowCells(data, y, MinLeft(data), MaxRight(data))|
  {
    if data == [] then None else Some(CountRow(data, y, MinLeft(data), MaxRight(data)))
  }

  /** The scanned interval misses nothing: every covered cell of the row lies in it,
      so part 1 counts all excluded cells of the row. */
  lemma CoveredWithinReach(data: seq<Report>, p: Point)
    requires data != [] && Covered(data, p)
    ensures MinLeft(data) <= p.x <= MaxRight(data)
  {
    var i :| 0 <= i < |data| && Dist(p, data[i].sensor) <= Radius(data[i]);
    assert Abs(p.x - data[i].sensor.x) <= Radius(data[i]);
  }

  lemma Part1CountsRow(data: seq<Report>, y: int)
    requires data != []
    ensures Part1(data, y) == Some(|RowCells(data, y, MinLeft(data), MaxRight(data))|)
    ensures forall x :: Excluded(data, Point(x, y)) ==> MinLeft(data) <= x <= MaxRight(data)
  {
    forall x | Excluded(data, Point(x, y)) ensures MinLeft(data) <= x <= MaxRight(data) {
      CoveredWithinReach(data, Point(x, y));
    }
  }

  // Part 2

  function Offset(p: Point, dx: int, dy: int): Point { Point(p.x + dx, p.y + dy) }

  /** The four points the source generates for step `x` of the ring of size `d`
      around `s`. */
  function RingStepAsWritten(s: Point, d: int, x: int): seq<Point> {
    [Offset(s, x, -(d - x)), Offset(s, d - x, x), Offset(s, -x, d - x), Offset(s, -(d - x), x)]
  }

  /** The four sides of the diamond of size `d`: the last point mirrors the first. */
  function RingStep(s: Point, d: int, x: int): seq<Point> {
    [Offset(s, x, -(d - x)), Offset(s, d - x, x), Offset(s, -x, d - x), Offset(s, -(d - x), -x)]
  }

  /** The points of steps `x` to `d - 1`, step by step (the inner `flat_map`). */
  function Ring(s: Point, d: int, x: int, asWritten: bool): (r: seq<Point>)
    requires 0 <= x <= d
    ensures |r| == 4 * (d - x)
    ensures forall i :: 0 <= i < |r| ==> Dist(r[i], s) == d
    decreases d - x
  {
    if x == d then []
    else
      var step := if asWritten then RingStepAsWritten(s, d, x) else RingStep(s, d, x);
      step + Ring(s, d, x + 1, asWritten)
  }

  lemma RingUnfold(s: Point, d: int, x: int, asWritten: bool)
    requires 0 <= x < d
    ensures Ring(s, d, x, asWritten) ==
      (if asWritten then RingStepAsWritten(s, d, x) else RingStep(s, d, x)) + Ring(s, d, x + 1, asWritten)
  {
  }

  /** Step `x` holds the four points at distance `d` whose offset along the side's
      direction is `x`. */
  lemma StepMeaning(s: Point, d: int, x: int, p: Point)
    requires 0 <= x < d
    ensures p in RingStep(s, d, x) <==>
      Dist(p, s) == d && (var a, b := p.x - s.x, p.y - s.y;
        (a >= 0 && b < 0 && x == a) || (a > 0 && b >= 0 && x == b) ||
        (a <= 0 && b > 0 && x == -a) || (a < 0 && b <= 0 && x == -b))
  {
  }

  /** The intended ring is exactly the set of points at distance `d`. */
  lemma {:induction false} RingIsDiamond(s: Point, d: int, x: int, p: Point)
    requires 0 <= x <= d
    ensures p in Ring(s, d, x, false) <==>
      Dist(p, s) == d && (var a, b := p.x - s.x, p.y - s.y;
        (a >= 0 && b < 0 && x <= a) || (a > 0 && b >= 0 && x <= b) ||
        (a <= 0 && b > 0 && x <= -a) || (a < 0 && b <= 0 && x <= -b))
    decreases d - x
  {
    if x < d {
      RingIsDiamond(s, d, x + 1, p);
      RingUnfold(s, d, x, false);
      StepMeaning(s, d, x, p);
    }
  }

  lemma RingHasAllAtDistance(s: Point, d: int, p: Point)
    requires d >= 1
    ensures p in Ring(s, d, 0, false) <==> Dist(p, s) == d
  {
    RingIsDiamond(s, d, 0, p);
  }

  /** The ring the source builds misses the quadrant where both offsets are negative. */
  lemma RingAsWrittenMisses()
    ensures Dist(Point(-1, -1), Point(0, 0)) == 2 && Point(-1, -1) !in Ring(Point(0, 0), 2, 0, true)
  {
    var s := Point(0, 0);
    RingUnfold(s, 2, 0, true);
    RingUnfold(s, 2, 1, true);
    assert Ring(s, 2, 2, true) == [];
    assert RingStepAsWritten(s, 2, 0) == [Point(0, -2), Point(2, 0), Point(0, 2), Point(-2, 0)];
    assert RingStepAsWritten(s, 2, 1) == [Point(1, -1), Point(1, 1), Point(-1, 1), Point(-1, 1)];
  }

  /** All candidates: the ring at radius + 1 around each sensor, sensor by sensor. */
  function Candidates(data: seq<Report>, asWritten: bool): (r: seq<Point>)
    ensures forall p :: p in r ==> exists i :: 0 <= i < |data| && Dist(p, data[i].sensor) == Radius(data[i]) + 1
    decreases |data|
  {
    if data == [] then []
    else
      var rest := Candidates(data[1..], asWritten);
      assert forall p :: p in rest ==> exists i :: 1 <= i < |data| && Dist(p, data[i].sensor) == Radius(data[i]) + 1 by {
        forall p | p in rest ensures exists i :: 1 <= i < |data| && Dist(p, data[i].sensor) == Radius(data[i]) + 1 {
          var j :| 0 <= j < |data[1..]| && Dist(p, data[1..][j].sensor) == Radius(data[1..][j]) + 1;
          assert data[j + 1] == data[1..][j];
        }
      }
      Ring(data[0].sensor, Radius(data[0]) + 1, 0, asWritten) + rest
  }

  /** A cell the distress beacon may occupy: in `[0, max]²` and outside every radius. */
  predicate Free(data: seq<Report>, max: int, p: Point) {
    0 <= p.x <= max && 0 <= p.y <= max &&
    forall i :: 0 <= i < |data| ==> Dist(p, data[i].sensor) > Radius(data[i])
  }

  /** The tuning frequency. */
  function Frequency(p: Point): int { p.x * 4000000 + p.y }

  /** The index of the last candidate `Free` keeps (`filter` then `last`). */
  function LastFree(data: seq<Report>, max: int, cs: seq<Point>): (r: Option<nat>)
    ensures r.Some? ==> r.value < |cs| && Free(data, max, cs[r.value])
    ensures r.Some? ==> forall j :: r.value < j < |cs| ==> !Free(data, max, cs[j])
    ensures r.None? <==> forall j :: 0 <= j < |cs| ==> !Free(data, max, cs[j])
    decreases |cs|
  {
    if cs == [] then None
    else if Free(data, max, cs[|cs| - 1]) then Some(|cs| - 1)
    else
      match LastFree(data, max, cs[..|cs| - 1])
      case None => None
      case Some(i) => Some(i)
  }

  /** `part2` with bound `max` (the source picks it from the first sensor): the tuning
      frequency of the last free candidate; `None` where the source's `unwrap`
      panics for want of one. With `asWritten` the source's rings, without it the
      intended ones. */
  function Search(data: seq<Report>, max: int, asWritten: bool): (r: Option<int>)
    ensures r.Some? ==> exists p :: p in Candidates(data, asWritten) && Free(data, max, p) && r.value == Frequency(p)
    ensures r.None? <==> forall p :: p in Candidates(data, asWritten) ==> !Free(data, max, p)
  {
    var cs := Candidates(data, asWritten);
    match LastFree(data, max, cs)
    case None => None
    case Some(i) => Some(Frequency(cs[i]))
  }

  function Part2(data: seq<Report>, max: int): Option<int> {
    Search(data, max, false)
  }

  function Part2AsWritten(data: seq<Report>, max: int): Option<int> {
    Search(data, max, true)
  }

  /** Why the search is complete: a free cell next to a covered cell lies on the ring
      of the sensor covering that neighbour, so the intended part 2 finds a free cell. */
  lemma FreeNextToCoveredIsCandidate(data: seq<Report>, max: int, p: Point, q: Point, i: nat)
    requires Free(data, max, p) && Dist(p, q) == 1
    requires i < |data| && Dist(q, data[i].sensor) <= Radius(data[i])
    ensures p in Candidates(data, false)
    ensures Part2(data, max).Some?
  {
    CandidatesContain(data, i, p);
  }

  lemma {:induction false} CandidatesContain(data: seq<Report>, i: nat, p: Point)
    requires i < |data| && Dist(p, data[i].sensor) == Radius(data[i]) + 1
    ensures p in Candidates(data, false)
    decreases i
  {
    RingHasAllAtDistance(data[0].sensor, Radius(data[0]) + 1, p);
    if i > 0 {
      assert data[1..][i - 1] == data[i];
      CandidatesContain(data[1..], i - 1, p);
    }
  }

  /** The frequency identifies the cell when `y` stays below 4000000. */
  lemma FrequencyDecodes(p: Point)
    requires 0 <= p.y < 4000000
    ensures Frequency(p) / 4000000 == p.x && Frequency(p) % 4000000 == p.y
  {
  }

  /** One sensor at (4000001, 4000001) whose beacon lies one step below it. */
  predicate IsCorner(data: seq<Report>) {
    data == [Report(Point(4000001, 4000001), Point(4000001, 4000002))]
  }

  /** The source's ring of size 2 around that sensor. */
  lemma CornerCandidates(data: seq<Report>)
    requires IsCorner(data)
    ensures Candidates(data, true) ==
      [Point(4000001, 3999999), Point(4000003, 4000001), Point(4000001, 4000003), Point(3999999, 4000001),
       Point(4000002, 4000000), Point(4000002, 4000002), Point(4000000, 4000002), Point(4000000, 4000002)]
  {
    var s := data[0].sensor;
    assert Radius(data[0]) == 1;
    RingUnfold(s, 2, 0, true);
    RingUnfold(s, 2, 1, true);
    assert Ring(s, 2, 2, true) == [];
    assert Candidates(data, true) == Ring(s, 2, 0, true) + [];
  }

  /** With the source's bound 4000000 every candidate the source generates lies outside
      the square, so it panics; the intended search finds the free corner (4000000,
      4000000), which lies on the missing quadrant of the ring. */
  lemma CornerCounterexample(data: seq<Report>)
    requires IsCorner(data)
    ensures Part2AsWritten(data, 4000000).None?
    ensures Part2(data, 4000000).Some?
  {
    CornerNoneAsWritten(data);
    assert Radius(data[0]) == 1;
    assert Free(data, 4000000, Point(4000000, 4000000));
    FreeNextToCoveredIsCandidate(data, 4000000, Point(4000000, 4000000), Point(4000001, 4000000), 0);
  }

  lemma CornerNoneAsWritten(data: seq<Report>)
    requires IsCorner(data)
    ensures forall p :: p in Candidates(data, true) ==> !Free(data, 4000000, p)
  {
    CornerCandidates(data);
    var cs := Candidates(data, true);
    forall j | 0 <= j < |cs| ensures cs[j].x > 4000000 || cs[j].y > 4000000 {
      if j < 4 {
        assert cs[j] in cs[..4];
      } else {
        assert cs[j] in cs[4..];
      }
    }
  }
}
