/** Day 13: distress-signal packets, their order and their equality (src/days/day13.rs). */
module Day13 {
  import opened Wrappers
  import opened Text

  /** A packet: a `u8` or a list of packets. The parser only builds integers below 256. */
  datatype Packet = Int(n: nat) | List(items: seq<Packet>)

  /** `std::cmp::Ordering`. */
  datatype Ordering = Less | Equal | Greater

  function Flip(o: Ordering): Ordering {
    match o
    case Less => Greater
    case Equal => Equal
    case Greater => Less
  }

  /** `Ordering::then`: the first comparison unless it is `Equal`. */
  function Then(first: Ordering, second: Ordering): Ordering {
    if first == Equal then second else first
  }

  /** `Ord::cmp` on unsigned integers. */
  function CmpNat(a: nat, b: nat): (o: Ordering)
    ensures o == Less <==> a < b
    ensures o == Equal <==> a == b
    ensures o == Greater <==> a > b
  {
    if a < b then Less else if a == b then Equal else Greater
  }

  // ---------------------------------------------------------------------------
  // Order and equality

  /** `Ord for Packet`: integers numerically, lists lexicographically; an integer
      against a list is compared with the list's first element and then, on a tie,
      one element against the list's length (and the other way round). */
  function Cmp(a: Packet, b: Packet): Ordering
    decreases a, b
  {
    if a.Int? && b.Int? then CmpNat(a.n, b.n)
    else if a.List? && b.List? then CmpList(a.items, b.items)
    else if a.Int? then
      if b.items != [] && Cmp(a, b.items[0]) != Equal then Cmp(a, b.items[0])
      else CmpNat(1, |b.items|)
    else
      if a.items != [] && Cmp(a.items[0], b) != Equal then Cmp(a.items[0], b)
      else CmpNat(|a.items|, 1)
  }

  /** The list arm: the first elementwise comparison that is not `Equal`, else the lengths. */
  function CmpList(xs: seq<Packet>, ys: seq<Packet>): Ordering
    decreases xs, ys
  {
    if xs == [] || ys == [] then CmpNat(|xs|, |ys|)
    else if Cmp(xs[0], ys[0]) != Equal then Cmp(xs[0], ys[0])
    else CmpList(xs[1..], ys[1..])
  }

  /** The number of constructors in a packet, a termination measure for the proofs. */
  function Size(p: Packet): (n: nat)
    ensures n >= 1
    decreases p
  {
    match p
    case Int(_) => 1
    case List(xs) => 1 + SizeOf(xs)
  }

  function SizeOf(xs: seq<Packet>): (n: nat)
    ensures xs != [] ==> n >= Size(xs[0]) + 1 || (|xs| == 1 && n == Size(xs[0]))
    decreases xs
  {
    if xs == [] then 0 else Size(xs[0]) + SizeOf(xs[1..])
  }

  /** `PartialEq for Packet`: structural, except that an integer equals the list that
      holds just that integer, in either order. Lists use the element equality. */
  predicate Eq(a: Packet, b: Packet)
    decreases Size(a) + Size(b), 0
  {
    if a.Int? && b.Int? then a.n == b.n
    else if a.List? && b.List? then EqList(a.items, b.items)
    else if a.Int? then |b.items| == 1 && Eq(a, b.items[0])
    else |a.items| == 1 && Eq(b, a.items[0])
  }

  /** `Vec<Packet>`'s equality: equal lengths and pairwise `Eq`. */
  predicate EqList(xs: seq<Packet>, ys: seq<Packet>)
    decreases SizeOf(xs) + SizeOf(ys), 1
  {
    if xs == [] || ys == [] then xs == [] && ys == []
    else Eq(xs[0], ys[0]) && EqList(xs[1..], ys[1..])
  }

  /** The list an operand stands for: an integer behaves as the list holding only it. */
  function Items(p: Packet): (xs: seq<Packet>)
    ensures p.Int? ==> SizeOf(xs) == Size(p)
    ensures p.List? ==> SizeOf(xs) == Size(p) - 1
  {
    if p.Int? then [p] else p.items
  }

  /** Every comparison is the list comparison of the operands seen as lists. */
  lemma CmpAsLists(a: Packet, b: Packet)
    ensures Cmp(a, b) == CmpList(Items(a), Items(b))
  {
    var xs, ys := Items(a), Items(b);
    if a.Int? {
      assert xs[1..] == [];
    }
    if b.Int? {
      assert ys[1..] == [];
    }
  }

  /** Swapping the operands reverses the result. */
  lemma {:induction false} CmpFlip(a: Packet, b: Packet)
    ensures Cmp(b, a) == Flip(Cmp(a, b))
    decreases Size(a) + Size(b), 0
  {
    if !(a.Int? && b.Int?) {
      CmpAsLists(a, b);
      CmpAsLists(b, a);
      CmpListFlip(Items(a), Items(b));
    }
  }

  lemma {:induction false} CmpListFlip(xs: seq<Packet>, ys: seq<Packet>)
    ensures CmpList(ys, xs) == Flip(CmpList(xs, ys))
    decreases SizeOf(xs) + SizeOf(ys), 1
  {
    if xs != [] && ys != [] {
      CmpFlip(xs[0], ys[0]);
      CmpListFlip(xs[1..], ys[1..]);
    }
  }

  /** Every packet is `Equal` to itself. */
  lemma {:induction false} CmpRefl(a: Packet)
    ensures Cmp(a, a) == Equal
    decreases a, 1
  {
    if a.List? {
      CmpListRefl(a.items);
    }
  }

  lemma {:induction false} CmpListRefl(xs: seq<Packet>)
    ensures CmpList(xs, xs) == Equal
    decreases xs, 0
  {
    if xs != [] {
      CmpRefl(xs[0]);
      CmpListRefl(xs[1..]);
    }
  }

  /** The order is transitive: two steps that do not go down do not go down, and the
      result is `Equal` only when both steps are. */
  lemma {:induction false} CmpTrans(a: Packet, b: Packet, c: Packet)
    requires Cmp(a, b) != Greater && Cmp(b, c) != Greater
    ensures Cmp(a, c) == Then(Cmp(a, b), Cmp(b, c))
    decreases Size(a) + Size(b) + Size(c), 0
  {
    if !(a.Int? && b.Int? && c.Int?) {
      CmpAsLists(a, b);
      CmpAsLists(b, c);
      CmpAsLists(a, c);
      CmpListTrans(Items(a), Items(b), Items(c));
    }
  }

  lemma {:induction false} CmpListTrans(xs: seq<Packet>, ys: seq<Packet>, zs: seq<Packet>)
    requires CmpList(xs, ys) != Greater && CmpList(ys, zs) != Greater
    ensures CmpList(xs, zs) == Then(CmpList(xs, ys), CmpList(ys, zs))
    decreases SizeOf(xs) + SizeOf(ys) + SizeOf(zs), 1
  {
    if xs != [] && ys != [] && zs != [] {
      CmpTrans(xs[0], ys[0], zs[0]);
      if Cmp(xs[0], ys[0]) == Equal && Cmp(ys[0], zs[0]) == Equal {
        CmpListTrans(xs[1..], ys[1..], zs[1..]);
      }
    }
  }

  /** `Less` followed by anything not `Greater` is `Less`. */
  lemma LessTrans(a: Packet, b: Packet, c: Packet)
    requires (Cmp(a, b) == Less && Cmp(b, c) != Greater) || (Cmp(a, b) != Greater && Cmp(b, c) == Less)
    ensures Cmp(a, c) == Less
  {
    CmpTrans(a, b, c);
  }

  /** The hand-written equality is exactly the order's `Equal`, in both directions. */
  lemma {:induction false} EqIffCmpEqual(a: Packet, b: Packet)
    ensures Eq(a, b) <==> Cmp(a, b) == Equal
    decreases Size(a) + Size(b), 0
  {
    if a.List? && b.List? {
      EqListIffCmpEqual(a.items, b.items);
    } else if a.Int? && b.List? {
      if b.items != [] {
        EqIffCmpEqual(a, b.items[0]);
      }
    } else if a.List? && b.Int? {
      if a.items != [] {
        EqIffCmpEqual(b, a.items[0]);
        CmpFlip(b, a.items[0]);
      }
    }
  }

  lemma {:induction false} EqListIffCmpEqual(xs: seq<Packet>, ys: seq<Packet>)
    ensures EqList(xs, ys) <==> CmpList(xs, ys) == Equal
    decreases SizeOf(xs) + SizeOf(ys), 1
  {
    if xs != [] && ys != [] {
      EqIffCmpEqual(xs[0], ys[0]);
      EqListIffCmpEqual(xs[1..], ys[1..]);
    }
  }

  /** `Ord::cmp` as the source runs it: a loop over the zipped lists that returns the
      first comparison that is not `Equal`, and the length comparison after it. */
  method Compare(a: Packet, b: Packet) returns (o: Ordering)
    ensures o == Cmp(a, b)
    decreases a, b
  {
    if a.Int? && b.Int? {
      o := CmpNat(a.n, b.n);
    } else if a.List? && b.List? {
      var xs, ys := a.items, b.items;
      var i := 0;
      while i < |xs| && i < |ys|
        invariant 0 <= i <= |xs| && i <= |ys|
        invariant CmpList(xs[i..], ys[i..]) == Cmp(a, b)
      {
        assert xs[i..][1..] == xs[i + 1..] && ys[i..][1..] == ys[i + 1..];
        var ord := Compare(xs[i], ys[i]);
        if ord != Equal {
          return ord;
        }
        i := i + 1;
      }
      o := CmpNat(|xs|, |ys|);
    } else if a.Int? {
      if |b.items| > 0 {
        var ord := Compare(a, b.items[0]);
        if ord != Equal {
          return ord;
        }
      }
      o := CmpNat(1, |b.items|);
    } else {
      if |a.items| > 0 {
        var ord := Compare(a.items[0], b);
        if ord != Equal {
          return ord;
        }
      }
      o := CmpNat(|a.items|, 1);
    }
  }

  // ---------------------------------------------------------------------------
  // Printing and parsing

  /** Every integer in the packet fits a `u8`. */
  predicate Small(p: Packet) {
    match p
    case Int(n) => n < 256
    case List(xs) => forall i :: 0 <= i < |xs| ==> Small(xs[i])
  }

  predicate AllSmall(xs: seq<Packet>) {
    forall i :: 0 <= i < |xs| ==> Small(xs[i])
  }

  /** `Display for Packet`: the number, or the elements between brackets separated by commas. */
  function Format(p: Packet): (s: string)
    ensures |s| > 0 && (p.Int? ==> IsDigit(s[0]) && AllDigits(s)) && (p.List? ==> s[0] == '[')
    decreases p
  {
    match p
    case Int(n) => Decimal(n)
    case List(xs) => "[" + Join(xs) + "]"
  }

  /** The elements, the first one bare and each later one after a comma. */
  function Join(xs: seq<Packet>): string
    decreases xs
  {
    if xs == [] then "" else Format(xs[0]) + Commas(xs[1..])
  }

  function Commas(xs: seq<Packet>): (s: string)
    ensures s == [] || s[0] == ','
    decreases xs
  {
    if xs == [] then "" else "," + Format(xs[0]) + Commas(xs[1..])
  }

  /** `Display` as the source writes it: the first element, then a loop writing each
      further element after a comma. */
  method Write(p: Packet) returns (s: string)
    ensures s == Format(p)
    decreases p
  {
    match p
    case Int(n) =>
      s := Decimal(n);
    case List(xs) =>
      s := "[";
      if |xs| > 0 {
        var first := Write(xs[0]);
        Regroup(s, first, Commas(xs[1..]));
        s := s + first;
        var k := 1;
        while k < |xs|
          invariant 1 <= k <= |xs|
          invariant s + Commas(xs[k..]) == "[" + Join(xs)
        {
          var next := Write(xs[k]);
          CommasStep(xs, k);
          Regroup(s, "," + next, Commas(xs[k + 1..]));
          s := s + ("," + next);
          k := k + 1;
        }
        assert xs[k..] == [];
      }
      s := s + "]";
  }

  lemma Regroup(a: string, b: string, c: string)
    ensures a + (b + c) == (a + b) + c
  {
  }

  lemma CommasStep(xs: seq<Packet>, k: nat)
    requires k < |xs|
    ensures Commas(xs[k..]) == "," + Format(xs[k]) + Commas(xs[k + 1..])
  {
    assert xs[k..][1..] == xs[k + 1..];
  }

  /** `parse_packet`: `alt((parse_int, parse_list))`, the byte-sized number first. */
  function ParsePacket(s: string): (r: Option<(Packet, string)>)
    ensures r.Some? ==> Small(r.value.0) && |r.value.1| < |s|
    decreases |s|, 0
  {
    match ParseUnsignedPrefix(s, 256)
    case Some((n, rest)) => Some((Int(n), rest))
    case None =>
      if s == [] || s[0] != '[' then None
      else
        var (xs, rest) := ParseSeq(s[1..]);
        if rest == [] || rest[0] != ']' then None
        else Some((List(xs), rest[1..]))
  }

  /** `separated_list0(tag(","), parse_packet)`: no element at all when the first one
      does not parse; otherwise as many comma-led elements as parse. */
  function ParseSeq(s: string): (r: (seq<Packet>, string))
    ensures AllSmall(r.0) && |r.1| <= |s|
    decreases |s|, 1
  {
    match ParsePacket(s)
    case None => ([], s)
    case Some((p, rest)) =>
      var (ps, rest') := ParseTail(rest);
      ([p] + ps, rest')
  }

  function ParseTail(s: string): (r: (seq<Packet>, string))
    ensures AllSmall(r.0) && |r.1| <= |s|
    decreases |s|, 1
  {
    if s == [] || s[0] != ',' then ([], s)
    else
      match ParsePacket(s[1..])
      case None => ([], s)
      case Some((p, rest)) =>
        var (ps, rest') := ParseTail(rest);
        ([p] + ps, rest')
  }

  /** What follows a printed packet inside the input never extends its last number. */
  predicate Delimited(rest: string) {
    rest == [] || !IsDigit(rest[0])
  }

  /** Parsing a printed packet gives it back, with the rest of the input untouched. */
  lemma {:induction false} PacketRoundTrip(p: Packet, rest: string)
    requires Small(p) && Delimited(rest)
    ensures ParsePacket(Format(p) + rest) == Some((p, rest))
    decreases p, 1
  {
    match p
    case Int(n) =>
      PrintedNumberParses(n, 256, rest);
    case List(xs) =>
      var s := Format(p) + rest;
      assert s[0] == '[' && !IsDigit(s[0]);
      assert DigitRun(s) == 0;
      assert s[1..] == Join(xs) + ("]" + rest);
      JoinRoundTrip(xs, "]" + rest);
  }

  lemma {:induction false} JoinRoundTrip(xs: seq<Packet>, rest: string)
    requires AllSmall(xs) && rest != [] && rest[0] == ']'
    ensures ParseSeq(Join(xs) + rest) == (xs, rest)
    decreases xs, 0
  {
    if xs == [] {
      assert DigitRun(rest) == 0;
    } else {
      var tail := Commas(xs[1..]) + rest;
      assert Join(xs) + rest == Format(xs[0]) + tail;
      PacketRoundTrip(xs[0], tail);
      CommasRoundTrip(xs[1..], rest);
      assert [xs[0]] + xs[1..] == xs;
    }
  }

  lemma {:induction false} CommasRoundTrip(xs: seq<Packet>, rest: string)
    requires AllSmall(xs) && rest != [] && rest[0] == ']'
    ensures ParseTail(Commas(xs) + rest) == (xs, rest)
    decreases xs, 1
  {
    if xs != [] {
      CommasRoundTrip(xs[1..], rest);
      CommasHead(xs, rest);
    } else {
      assert Commas(xs) + rest == rest;
    }
  }

  lemma CommasHead(xs: seq<Packet>, rest: string)
    requires AllSmall(xs) && xs != [] && rest != [] && rest[0] == ']'
    requires ParseTail(Commas(xs[1..]) + rest) == (xs[1..], rest)
    ensures ParseTail(Commas(xs) + rest) == (xs, rest)
    decreases xs, 0
  {
    var tail := Commas(xs[1..]) + rest;
    CommasSplit(xs, rest);
    CommasDelimited(xs[1..], rest);
    PacketRoundTrip(xs[0], tail);
    TailStep(Commas(xs) + rest, xs, tail, rest);
  }

  lemma CommasDelimited(xs: seq<Packet>, rest: string)
    requires rest != [] && rest[0] == ']'
    ensures Delimited(Commas(xs) + rest)
  {
    if xs == [] {
      assert Commas(xs) + rest == rest;
    } else {
      CommasSplit(xs, rest);
    }
  }

  lemma CommasSplit(xs: seq<Packet>, rest: string)
    requires xs != []
    ensures (Commas(xs) + rest)[0] == ','
    ensures (Commas(xs) + rest)[1..] == Format(xs[0]) + (Commas(xs[1..]) + rest)
  {
    assert Commas(xs) + rest == [','] + (Format(xs[0]) + (Commas(xs[1..]) + rest));
  }

  /** One comma-led element parsed, then the rest of the list. */
  lemma TailStep(s: string, xs: seq<Packet>, tail: string, rest: string)
    requires s != [] && s[0] == ',' && xs != []
    requires ParsePacket(s[1..]) == Some((xs[0], tail)) && ParseTail(tail) == (xs[1..], rest)
    ensures ParseTail(s) == (xs, rest)
  {
    assert [xs[0]] + xs[1..] == xs;
  }

  /** `parse_pair`: two packets separated by a newline. */
  function ParsePair(s: string): (r: Option<((Packet, Packet), string)>)
    ensures r.Some? ==> Small(r.value.0.0) && Small(r.value.0.1) && |r.value.1| < |s|
  {
    match ParsePacket(s)
    case None => None
    case Some((left, rest)) =>
      if rest == [] || rest[0] != '\n' then None
      else
        match ParsePacket(rest[1..])
        case None => None
        case Some((right, rest')) => Some(((left, right), rest'))
  }

  /** The pairs after the first in `separated_list1(tag("\n\n"), parse_pair)`: each led by
      a blank line; the list stops at the first one that does not parse. */
  function MorePairs(s: string): seq<(Packet, Packet)>
    decreases |s|
  {
    if !StartsWith(s, "\n\n") then []
    else
      match ParsePair(s[2..])
      case None => []
      case Some((pair, rest)) => [pair] + MorePairs(rest)
  }

  /** `parse`: at least one pair, or `None` where the source's `unwrap` panics. Text after
      the last pair that parses is ignored. */
  function Parse(input: string): (r: Option<seq<(Packet, Packet)>>)
    ensures r.Some? ==> |r.value| > 0
  {
    match ParsePair(input)
    case None => None
    case Some((pair, rest)) => Some([pair] + MorePairs(rest))
  }

  function FormatPair(pair: (Packet, Packet)): string {
    Format(pair.0) + "\n" + Format(pair.1)
  }

  /** The puzzle input for the given pairs: one pair after another, with a blank line
      between two pairs. */
  function FormatInput(pairs: seq<(Packet, Packet)>): string
    requires pairs != []
  {
    FormatPair(pairs[0]) + Blanks(pairs[1..])
  }

  function Blanks(pairs: seq<(Packet, Packet)>): (s: string)
    ensures s == [] || s[0] == '\n'
  {
    if pairs == [] then "" else "\n\n" + FormatPair(pairs[0]) + Blanks(pairs[1..])
  }

  predicate SmallPairs(pairs: seq<(Packet, Packet)>) {
    forall i :: 0 <= i < |pairs| ==> Small(pairs[i].0) && Small(pairs[i].1)
  }

  lemma PairRoundTrip(pair: (Packet, Packet), rest: string)
    requires Small(pair.0) && Small(pair.1) && Delimited(rest)
    ensures ParsePair(FormatPair(pair) + rest) == Some((pair, rest))
  {
    var second := "\n" + Format(pair.1) + rest;
    assert FormatPair(pair) + rest == Format(pair.0) + second;
    PacketRoundTrip(pair.0, second);
    assert second[1..] == Format(pair.1) + rest;
    PacketRoundTrip(pair.1, rest);
  }

  lemma {:induction false} BlanksRoundTrip(pairs: seq<(Packet, Packet)>)
    requires SmallPairs(pairs)
    ensures MorePairs(Blanks(pairs)) == pairs
  {
    if pairs != [] {
      var s := Blanks(pairs);
      var tail := Blanks(pairs[1..]);
      assert s == "\n\n" + (FormatPair(pairs[0]) + tail);
      assert StartsWith(s, "\n\n") && s[2..] == FormatPair(pairs[0]) + tail;
      PairRoundTrip(pairs[0], tail);
      BlanksRoundTrip(pairs[1..]);
      assert [pairs[0]] + pairs[1..] == pairs;
    }
  }

  /** Parsing the printed pairs gives them back. */
  lemma ParseRoundTrip(pairs: seq<(Packet, Packet)>)
    requires pairs != [] && SmallPairs(pairs)
    ensures Parse(FormatInput(pairs)) == Some(pairs)
  {
    PairRoundTrip(pairs[0], Blanks(pairs[1..]));
    BlanksRoundTrip(pairs[1..]);
    assert [pairs[0]] + pairs[1..] == pairs;
  }

  // ---------------------------------------------------------------------------
  // Part 1

  predicate RightOrder(pair: (Packet, Packet)) {
    Cmp(pair.0, pair.1) == Less
  }

  /** The indices, counted from `first`, of the pairs in the right order. */
  function RightOrdered(pairs: seq<(Packet, Packet)>, first: nat): (r: seq<nat>)
    ensures forall x :: x in r <==> first <= x < first + |pairs| && RightOrder(pairs[x - first])
    ensures forall i, j :: 0 <= i < j < |r| ==> r[i] < r[j]
    ensures forall i :: 0 <= i < |r| ==> first <= r[i]
  {
    if pairs == [] then []
    else
      var rest := RightOrdered(pairs[1..], first + 1);
      var r := (if RightOrder(pairs[0]) then [first] else []) + rest;
      assert forall x :: x in r <==> first <= x < first + |pairs| && RightOrder(pairs[x - first]) by {
        forall x ensures x in r <==> first <= x < first + |pairs| && RightOrder(pairs[x - first]) {
          if first < x < first + |pairs| {
            assert pairs[1..][x - first - 1] == pairs[x - first];
          }
        }
      }
      r
  }

  function Sum(xs: seq<nat>): nat {
    if xs == [] then 0 else xs[0] + Sum(xs[1..])
  }

  /** `part1`: the sum of the 1-based indices of the pairs whose left packet is `Less`. */
  function Part1(pairs: seq<(Packet, Packet)>): nat {
    Sum(RightOrdered(pairs, 1))
  }

  lemma {:induction false} SumAppend(xs: seq<nat>, ys: seq<nat>)
    ensures Sum(xs + ys) == Sum(xs) + Sum(ys)
  {
    if xs != [] {
      assert (xs + ys)[1..] == xs[1..] + ys;
      SumAppend(xs[1..], ys);
    } else {
      assert xs + ys == ys;
    }
  }

  lemma {:induction false} RightOrderedAppend(pairs: seq<(Packet, Packet)>, more: seq<(Packet, Packet)>, first: nat)
    ensures RightOrdered(pairs + more, first) == RightOrdered(pairs, first) + RightOrdered(more, first + |pairs|)
  {
    if pairs != [] {
      assert (pairs + more)[1..] == pairs[1..] + more;
      RightOrderedAppend(pairs[1..], more, first + 1);
    } else {
      assert pairs + more == more;
    }
  }

  /** A further pair adds its 1-based index exactly when it is in the right order. */
  lemma Part1Append(pairs: seq<(Packet, Packet)>, pair: (Packet, Packet))
    ensures Part1(pairs + [pair]) == Part1(pairs) + if RightOrder(pair) then |pairs| + 1 else 0
  {
    RightOrderedAppend(pairs, [pair], 1);
    SumAppend(RightOrdered(pairs, 1), RightOrdered([pair], 1 + |pairs|));
  }

  // ---------------------------------------------------------------------------
  // Part 2

  /** A `BTreeSet<Packet>` in iteration order: strictly increasing. */
  predicate Increasing(s: seq<Packet>) {
    forall i, j :: 0 <= i < j < |s| ==> Cmp(s[i], s[j]) == Less
  }

  /** Some element of `s` is `Equal` to `p`, so the set already holds its key. */
  predicate Represented(s: seq<Packet>, p: Packet) {
    exists i :: 0 <= i < |s| && Cmp(s[i], p) == Equal
  }

  /** `BTreeSet::insert`: kept after the smaller keys; no change when an `Equal` key is
      present. */
  function Insert(s: seq<Packet>, p: Packet): (r: seq<Packet>)
    ensures forall x :: x in r ==> x in s || x == p
    ensures forall x :: x in s ==> x in r
    ensures r == s || multiset(r) == multiset(s) + multiset{p}
    ensures Represented(r, p)
  {
    if s == [] then
      CmpRefl(p);
      assert [p][0] == p;
      [p]
    else
      match Cmp(s[0], p)
      case Less =>
        var rest := Insert(s[1..], p);
        InsertBehind(s[0], s[1..], rest, p);
        assert s == [s[0]] + s[1..];
        [s[0]] + rest
      case Equal => s
      case Greater =>
        CmpRefl(p);
        assert ([p] + s)[0] == p;
        [p] + s
  }

  /** Keeping a smaller key in front of an insertion into the rest. */
  lemma InsertBehind(h: Packet, t: seq<Packet>, rest: seq<Packet>, p: Packet)
    requires forall x :: x in rest ==> x in t || x == p
    requires forall x :: x in t ==> x in rest
    requires rest == t || multiset(rest) == multiset(t) + multiset{p}
    requires Represented(rest, p)
    ensures forall x :: x in [h] + rest ==> x in [h] + t || x == p
    ensures forall x :: x in [h] + t ==> x in [h] + rest
    ensures [h] + rest == [h] + t || multiset([h] + rest) == multiset([h] + t) + multiset{p}
    ensures Represented([h] + rest, p)
  {
    var r := [h] + rest;
    assert multiset(r) == multiset{h} + multiset(rest);
    assert multiset([h] + t) == multiset{h} + multiset(t);
    var i :| 0 <= i < |rest| && Cmp(rest[i], p) == Equal;
    assert r[i + 1] == rest[i];
  }

  lemma {:induction false} InsertIncreasing(s: seq<Packet>, p: Packet)
    requires Increasing(s)
    ensures Increasing(Insert(s, p))
  {
    if s != [] {
      var r := Insert(s, p);
      match Cmp(s[0], p)
      case Less =>
        InsertIncreasing(s[1..], p);
        var rest := Insert(s[1..], p);
        forall j | 0 < j < |r| ensures Cmp(s[0], r[j]) == Less {
          assert r[j] == rest[j - 1];
          assert r[j] in s[1..] || r[j] == p;
        }
      case Equal =>
      case Greater =>
        CmpFlip(s[0], p);
        forall j | 0 < j < |r| ensures Cmp(p, r[j]) == Less {
          if j > 1 {
            LessTrans(p, s[0], s[j - 1]);
          }
        }
    }
  }

  /** Inserting into a strictly increasing sequence adds the key exactly when no `Equal`
      key is present. */
  lemma {:induction false} InsertNew(s: seq<Packet>, p: Packet)
    requires Increasing(s)
    ensures Represented(s, p) ==> Insert(s, p) == s
    ensures !Represented(s, p) ==> multiset(Insert(s, p)) == multiset(s) + multiset{p}
  {
    if s != [] {
      if Cmp(s[0], p) == Less {
        assert Represented(s[1..], p) <==> Represented(s, p) by {
          if Represented(s, p) {
            var i :| 0 <= i < |s| && Cmp(s[i], p) == Equal;
            assert i > 0 && s[1..][i - 1] == s[i];
          }
          if Represented(s[1..], p) {
            var i :| 0 <= i < |s[1..]| && Cmp(s[1..][i], p) == Equal;
            assert s[i + 1] == s[1..][i];
          }
        }
        InsertNew(s[1..], p);
        assert s == [s[0]] + s[1..];
      } else if Cmp(s[0], p) == Greater {
        forall i | 0 <= i < |s| ensures Cmp(s[i], p) == Greater {
          if i > 0 {
            CmpFlip(s[0], p);
            LessTrans(p, s[0], s[i]);
            CmpFlip(p, s[i]);
          }
        }
      }
    }
  }

  /** The packets inserted one after another. `collect` into a `BTreeSet` builds
      the same set of keys, though it may keep a different one of two `Equal`
      packets; `EqIffCmpEqual` makes that choice irrelevant to the positions. */
  function Fill(s: seq<Packet>, ps: seq<Packet>): (r: seq<Packet>)
    ensures forall x :: x in r ==> x in s || x in ps
    ensures forall x :: x in s ==> x in r
    decreases |ps|
  {
    if ps == [] then s else Fill(Insert(s, ps[0]), ps[1..])
  }

  lemma {:induction false} FillIncreasing(s: seq<Packet>, ps: seq<Packet>)
    requires Increasing(s)
    ensures Increasing(Fill(s, ps))
    ensures forall i :: 0 <= i < |ps| ==> Represented(Fill(s, ps), ps[i])
    decreases |ps|
  {
    if ps != [] {
      InsertIncreasing(s, ps[0]);
      FillIncreasing(Insert(s, ps[0]), ps[1..]);
      var r := Fill(s, ps);
      forall i | 0 <= i < |ps| ensures Represented(r, ps[i]) {
        if i == 0 {
          var t := Insert(s, ps[0]);
          var k :| 0 <= k < |t| && Cmp(t[k], ps[0]) == Equal;
          FillKeeps(t, ps[1..], t[k]);
          var m :| 0 <= m < |r| && r[m] == t[k];
        } else {
          assert ps[i] == ps[1..][i - 1];
        }
      }
    }
  }

  lemma FillKeeps(s: seq<Packet>, ps: seq<Packet>, x: Packet)
    requires x in s
    ensures x in Fill(s, ps)
  {
  }

  function Flatten(pairs: seq<(Packet, Packet)>): (r: seq<Packet>)
    ensures |r| == 2 * |pairs|
    ensures forall i :: 0 <= i < |pairs| ==> r[2 * i] == pairs[i].0 && r[2 * i + 1] == pairs[i].1
  {
    if pairs == [] then []
    else [pairs[0].0, pairs[0].1] + Flatten(pairs[1..])
  }

  /** The divider packets `[[2]]` and `[[6]]`. */
  function Divider(n: nat): Packet {
    List([List([Int(n)])])
  }

  /** The set of part 2: every packet of every pair, then both dividers. */
  function Packets(pairs: seq<(Packet, Packet)>): seq<Packet> {
    Insert(Insert(Fill([], Flatten(pairs)), Divider(2)), Divider(6))
  }

  /** `Iterator::position` with the packets' own equality. */
  function Position(s: seq<Packet>, d: Packet): (r: Option<nat>)
    ensures r.Some? ==> r.value < |s| && Eq(s[r.value], d) && forall j :: 0 <= j < r.value ==> !Eq(s[j], d)
    ensures r.None? ==> forall j :: 0 <= j < |s| ==> !Eq(s[j], d)
  {
    if s == [] then None
    else if Eq(s[0], d) then Some(0)
    else
      match Position(s[1..], d)
      case None => None
      case Some(i) => Some(i + 1)
  }

  /** `part2`: the product of the two dividers' 1-based positions; `None` where the
      source's `unwrap` would panic. */
  function Part2(pairs: seq<(Packet, Packet)>): Option<nat> {
    DividerProduct(Packets(pairs))
  }

  /** The dividers' 1-based positions among the keys, multiplied. */
  function DividerProduct(keys: seq<Packet>): Option<nat> {
    match (Position(keys, Divider(2)), Position(keys, Divider(6)))
    case (Some(i), Some(j)) => Some(Product(i + 1, j + 1))
    case _ => None
  }

  function Product(a: nat, b: nat): nat {
    a * b
  }

  /** The number of keys below `d`. */
  function CountLess(s: seq<Packet>, d: Packet): nat {
    if s == [] then 0 else (if Cmp(s[0], d) == Less then 1 else 0) + CountLess(s[1..], d)
  }

  lemma {:induction false} CountPrefix(s: seq<Packet>, d: Packet, k: nat)
    requires k <= |s|
    requires forall j :: 0 <= j < k ==> Cmp(s[j], d) == Less
    requires forall j :: k <= j < |s| ==> Cmp(s[j], d) != Less
    ensures CountLess(s, d) == k
  {
    if s != [] {
      CountPrefix(s[1..], d, if k == 0 then 0 else k - 1);
    }
  }

  /** In a strictly increasing sequence holding a key `Equal` to `d`, `d` is found at the
      position that counts the keys below it. */
  lemma PositionCountsBelow(s: seq<Packet>, d: Packet)
    requires Increasing(s) && Represented(s, d)
    ensures Position(s, d) == Some(CountLess(s, d))
  {
    var k :| 0 <= k < |s| && Cmp(s[k], d) == Equal;
    forall j | 0 <= j < k ensures Cmp(s[j], d) == Less {
      LessTrans(s[j], s[k], d);
    }
    forall j | k < j < |s| ensures Cmp(s[j], d) == Greater {
      CmpFlip(s[k], d);
      LessTrans(d, s[k], s[j]);
      CmpFlip(d, s[j]);
    }
    CountPrefix(s, d, k);
    EqIffCmpEqual(s[k], d);
    forall j | 0 <= j < |s| && j != k ensures !Eq(s[j], d) {
      EqIffCmpEqual(s[j], d);
    }
  }

  /** The set is strictly increasing and holds a key for both dividers. */
  lemma PacketsSorted(pairs: seq<(Packet, Packet)>)
    ensures Increasing(Packets(pairs))
    ensures Represented(Packets(pairs), Divider(2)) && Represented(Packets(pairs), Divider(6))
  {
    var base := Fill([], Flatten(pairs));
    FillIncreasing([], Flatten(pairs));
    var with2 := Insert(base, Divider(2));
    InsertIncreasing(base, Divider(2));
    var keys := Insert(with2, Divider(6));
    InsertIncreasing(with2, Divider(6));
    assert Represented(keys, Divider(2)) by {
      var k :| 0 <= k < |with2| && Cmp(with2[k], Divider(2)) == Equal;
      assert with2[k] in keys;
      var m :| 0 <= m < |keys| && keys[m] == with2[k];
    }
  }

  /** Besides, it holds a key for every packet, and keeps no packet that is in neither
      a pair nor the dividers. */
  lemma PacketsMeaning(pairs: seq<(Packet, Packet)>)
    ensures Increasing(Packets(pairs))
    ensures forall i :: 0 <= i < |pairs| ==>
      Represented(Packets(pairs), pairs[i].0) && Represented(Packets(pairs), pairs[i].1)
    ensures Represented(Packets(pairs), Divider(2)) && Represented(Packets(pairs), Divider(6))
    ensures forall x :: x in Packets(pairs) ==> x in Flatten(pairs) || x == Divider(2) || x == Divider(6)
  {
    PacketsSorted(pairs);
    var ps := Flatten(pairs);
    var base := Fill([], ps);
    FillIncreasing([], ps);
    var with2 := Insert(base, Divider(2));
    var keys := Insert(with2, Divider(6));
    forall i | 0 <= i < |pairs|
      ensures Represented(keys, pairs[i].0) && Represented(keys, pairs[i].1)
    {
      assert ps[2 * i] == pairs[i].0 && ps[2 * i + 1] == pairs[i].1;
      KeptRepresented(base, with2, keys, ps[2 * i]);
      KeptRepresented(base, with2, keys, ps[2 * i + 1]);
    }
  }

  /** Part 2 multiplies one plus the number of keys below each divider. */
  lemma Part2Meaning(pairs: seq<(Packet, Packet)>)
    ensures Part2(pairs) ==
      Some(Product(CountLess(Packets(pairs), Divider(2)) + 1, CountLess(Packets(pairs), Divider(6)) + 1))
  {
    PacketsSorted(pairs);
    DividerPositions(Packets(pairs));
  }

  lemma DividerPositions(keys: seq<Packet>)
    requires Increasing(keys) && Represented(keys, Divider(2)) && Represented(keys, Divider(6))
    ensures DividerProduct(keys) ==
      Some(Product(CountLess(keys, Divider(2)) + 1, CountLess(keys, Divider(6)) + 1))
  {
    PositionCountsBelow(keys, Divider(2));
    PositionCountsBelow(keys, Divider(6));
  }

  lemma KeptRepresented(base: seq<Packet>, with2: seq<Packet>, keys: seq<Packet>, p: Packet)
    requires Represented(base, p)
    requires forall x :: x in base ==> x in with2
    requires forall x :: x in with2 ==> x in keys
    ensures Represented(keys, p)
  {
    var k :| 0 <= k < |base| && Cmp(base[k], p) == Equal;
    assert base[k] in base;
    assert base[k] in keys;
    var m :| 0 <= m < |keys| && keys[m] == base[k];
  }

  /** The comparisons of the source's unit tests. */
  lemma CmpSamples()
    ensures Cmp(Int(0), Int(1)) == Less && Cmp(Int(1), Int(1)) == Equal && Cmp(Int(2), Int(1)) == Greater
    ensures Cmp(Int(0), List([Int(1)])) == Less && Cmp(Int(1), List([Int(1)])) == Equal
    ensures Cmp(Int(2), List([Int(1)])) == Greater
    ensures Cmp(Int(0), List([])) == Greater
    ensures Cmp(Int(0), List([Int(1), Int(0)])) == Less && Cmp(Int(1), List([Int(1), Int(0)])) == Less
    ensures Cmp(List([Int(2)]), List([Int(1), Int(0)])) == Greater
    ensures Cmp(List([Int(0), Int(0)]), List([Int(1)])) == Less
    ensures Cmp(List([Int(1), Int(0)]), List([Int(1)])) == Greater
    ensures Cmp(List([List([Int(1)]), List([Int(2), Int(3), Int(4)])]), List([List([Int(1)]), Int(4)])) == Less
  {
  }
}
