/** Day 6: the first start-of-packet and start-of-message markers (src/days/day6.rs). */
module Day06 {
  import opened Wrappers
  import opened Text

  /** No character occurs twice in `w`. */
  predicate AllDistinct(w: seq<char>) {
    forall a, b :: 0 <= a < b < |w| ==> w[a] != w[b]
  }

  /** The set of characters of `w`, collected from left to right as `HashSet::extend` does. */
  function Elements(w: seq<char>): (r: set<char>)
    ensures forall c :: c in r <==> c in w
    decreases |w|
  {
    if w == [] then {}
    else
      var p := w[..|w| - 1];
      assert w == p + [w[|w| - 1]];
      Elements(p) + {w[|w| - 1]}
  }

  lemma DistinctSnoc(p: seq<char>, c: char)
    ensures AllDistinct(p + [c]) <==> AllDistinct(p) && c !in p
  {
    var w := p + [c];
    if AllDistinct(p) && c !in p {
      forall a, b | 0 <= a < b < |w| ensures w[a] != w[b] {
        if b == |p| {
          assert w[a] == p[a];
        } else {
          assert w[a] == p[a] && w[b] == p[b];
        }
      }
    }
    if AllDistinct(w) {
      forall a, b | 0 <= a < b < |p| ensures p[a] != p[b] {
        assert w[a] == p[a] && w[b] == p[b];
      }
      forall a | 0 <= a < |p| ensures p[a] != c {
        assert w[a] == p[a] && w[|p|] == c;
      }
    }
  }

  /** The set collected from a window has as many elements as the window exactly when the
      window has no repeated character (the test `set.len() < n` relies on this). */
  lemma {:induction false} DistinctIffFullSet(w: seq<char>)
    ensures |Elements(w)| <= |w|
    ensures |Elements(w)| == |w| <==> AllDistinct(w)
    decreases |w|
  {
    if w != [] {
      var p := w[..|w| - 1];
      var c := w[|w| - 1];
      DistinctIffFullSet(p);
      assert w == p + [c];
      DistinctSnoc(p, c);
      assert Elements(w) == Elements(p) + {c};
      if c in p {
        assert Elements(w) == Elements(p);
      } else {
        assert |Elements(w)| == |Elements(p)| + 1;
      }
    }
  }

  /** The `n` characters ending just before position `k` are all different. */
  predicate MarkerAt(data: seq<char>, n: nat, k: int) {
    n <= k <= |data| && AllDistinct(data[k - n..k])
  }

  /** `k` is the position the puzzle asks for: the first marker end. */
  predicate IsFirstMarker(data: seq<char>, n: nat, k: int) {
    MarkerAt(data, n, k) && forall j :: 0 <= j < k ==> !MarkerAt(data, n, j)
  }

  /** `parse`: the input without surrounding whitespace. */
  function Parse(input: string): string {
    Trim(input)
  }

  /** `set.clear(); set.extend(window)`: the characters of the window, added one by one. */
  method CollectSet(window: seq<char>) returns (seen: set<char>)
    ensures seen == Elements(window)
  {
    seen := {};
    var j := 0;
    while j < |window|
      invariant 0 <= j <= |window|
      invariant seen == Elements(window[..j])
    {
      assert window[..j + 1][..j] == window[..j];
      seen := seen + {window[j]};
      j := j + 1;
    }
    assert window[..j] == window;
  }

  /** One window of the scan: the set is cleared and refilled, and the window is a marker
      exactly when the set has `n` elements. */
  method IsMarker(data: seq<char>, n: nat, i: nat) returns (b: bool)
    requires i + n <= |data|
    ensures b == MarkerAt(data, n, i + n)
  {
    var seen := CollectSet(data[i..i + n]);
    DistinctIffFullSet(data[i..i + n]);
    b := |seen| == n;
  }

  /** The scan over `data.windows(n)`: the first window that is a marker gives its end
      index; `None` where the source unwraps an exhausted iterator. */
  method FirstMarker(data: seq<char>, n: nat) returns (r: Option<nat>)
    requires n > 0
    ensures r.Some? ==> IsFirstMarker(data, n, r.value)
    ensures r.None? <==> forall k :: !MarkerAt(data, n, k)
  {
    var i := 0;
    while i + n <= |data|
      invariant forall j :: 0 <= j < i + n ==> !MarkerAt(data, n, j)
    {
      var found := IsMarker(data, n, i);
      if found {
        return Some(i + n);
      }
      i := i + 1;
    }
    forall k ensures !MarkerAt(data, n, k) {
      if 0 <= k < i + n {
      }
    }
    return None;
  }

  /** `part1`: the end of the first window of four different characters. */
  method Part1(data: seq<char>) returns (r: Option<nat>)
    ensures r.Some? ==> IsFirstMarker(data, 4, r.value)
    ensures r.None? <==> forall k :: !MarkerAt(data, 4, k)
  {
    r := FirstMarker(data, 4);
  }

  /** `part2`: the end of the first window of fourteen different characters. */
  method Part2(data: seq<char>) returns (r: Option<nat>)
    ensures r.Some? ==> IsFirstMarker(data, 14, r.value)
    ensures r.None? <==> forall k :: !MarkerAt(data, 14, k)
  {
    r := FirstMarker(data, 14);
  }

  /** There is at most one first marker, so the answers above are determined. */
  lemma FirstMarkerUnique(data: seq<char>, n: nat, k1: int, k2: int)
    requires IsFirstMarker(data, n, k1) && IsFirstMarker(data, n, k2)
    ensures k1 == k2
  {
  }

  /** The first example of part one: the marker ends after the seventh character. */
  lemma SamplePart1()
    ensures IsFirstMarker("mjqjpqmgbljsphdztnvjfqwrcgsmlb", 4, 7)
  {
    var d := "mjqjpqmgbljsphdztnvjfqwrcgsmlb";
    assert d[..7] == "mjqjpqm";
    assert d[0..4][1] == d[0..4][3];
    assert d[1..5][0] == d[1..5][2];
    assert d[2..6][0] == d[2..6][3];
    assert AllDistinct(d[3..7]);
  }
}
