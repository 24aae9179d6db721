/** Day 10: the signal strength of a two-instruction CPU (src/days/day10.rs). */
module Day10 {
  import opened Wrappers
  import opened Text

  /** An instruction: how many cycles it takes and what it adds to the register. */
  datatype Command = Command(cycle: nat, val: int)

  const I32: nat := 0x8000_0000

  /** One line of the program: exactly `noop`, or anything whose part after the first
      space is an `i32` (the instruction name is not checked); `None` where the
      source unwraps. */
  function ParseLine(line: string): (r: Option<Command>)
    ensures line == "noop" ==> r == Some(Command(1, 0))
    ensures line != "noop" && r.Some? ==>
              r.value.cycle == 2 &&
              exists name, arg :: line == name + " " + arg && ParseSigned(arg, I32) == Some(r.value.val)
  {
    if line == "noop" then Some(Command(1, 0))
    else
      match SplitOnce(line, " ")
      case None => None
      case Some((name, arg)) =>
        match ParseSigned(arg, I32)
        case None => None
        case Some(v) => Some(Command(2, v))
  }

  /** An `addx` line with an `i32` argument parses to a two-cycle instruction adding it. */
  lemma AddxParses(arg: string)
    requires ParseSigned(arg, I32).Some?
    ensures ParseLine("addx " + arg) == Some(Command(2, ParseSigned(arg, I32).value))
  {
    var line := "addx " + arg;
    assert line[0] == 'a' && line[1] == 'd' && line[2] == 'd' && line[3] == 'x' && line[4] == ' ';
    assert OccursAt(line, " ", 4);
    assert forall j :: 0 <= j < 4 ==> !OccursAt(line, " ", j) by {
      forall j | 0 <= j < 4 ensures !OccursAt(line, " ", j) {
        assert line[j..j + 1][0] == line[j];
      }
    }
    assert line[..4] + " " + line[5..] == line;
    assert line[5..] == arg;
    assert |line| > 4;
  }

  /** `parse`: every line of the input; `None` if any line fails. */
  function Parse(input: string): Option<seq<Command>> {
    ParseLines(Lines(input))
  }

  function ParseLines(lines: seq<string>): (r: Option<seq<Command>>)
    ensures r.Some? ==> |r.value| == |lines| && forall i :: 0 <= i < |lines| ==> ParseLine(lines[i]) == Some(r.value[i])
    decreases |lines|
  {
    if lines == [] then Some([])
    else
      match (ParseLine(lines[0]), ParseLines(lines[1..]))
      case (Some(c), Some(rest)) =>
        assert forall i :: 0 < i < |lines| ==> lines[i] == lines[1..][i - 1];
        Some([c] + rest)
      case _ => None
  }

  /** The cycles taken by the first `k` commands. */
  function End(cmds: seq<Command>, k: nat): nat
    requires k <= |cmds|
  {
    if k == 0 then 0 else End(cmds, k - 1) + cmds[k - 1].cycle
  }

  /** The register after the first `k` commands; it starts at 1. */
  function XAfter(cmds: seq<Command>, k: nat): int
    requires k <= |cmds|
  {
    if k == 0 then 1 else XAfter(cmds, k - 1) + cmds[k - 1].val
  }

  /** How many of the first `k` commands have finished before cycle `c` (counted from 1) starts. */
  function Finished(cmds: seq<Command>, k: nat, c: int): (n: nat)
    requires k <= |cmds|
    ensures n <= k
  {
    if k == 0 then 0
    else if End(cmds, k) < c then k
    else Finished(cmds, k - 1, c)
  }

  /** The register's value during cycle `c`: the instruction running then has not
      yet added its value. */
  function XDuring(cmds: seq<Command>, k: nat, c: int): int
    requires k <= |cmds|
  {
    XAfter(cmds, Finished(cmds, k, c))
  }

  /** The `j`-th checkpoint: cycles 20, 60, 100, ... */
  function Checkpoint(j: nat): nat {
    20 + 40 * j
  }

  /** The fold's state after the first `k` commands: the next checkpoint and the
      recorded (checkpoint, register) pairs. */
  function Fold(cmds: seq<Command>, k: nat): (st: (int, seq<(int, int)>))
    requires k <= |cmds|
  {
    if k == 0 then (20, [])
    else
      var (signal, recorded) := Fold(cmds, k - 1);
      if End(cmds, k) >= signal then (signal + 40, recorded + [(signal, XAfter(cmds, k - 1))])
      else (signal, recorded)
  }

  function SignalSum(recorded: seq<(int, int)>): int {
    if recorded == [] then 0 else SignalSum(recorded[..|recorded| - 1]) + recorded[|recorded| - 1].0 * recorded[|recorded| - 1].1
  }

  /** No instruction longer than the gap between two checkpoints (parsed instructions
      take one or two cycles). */
  predicate ShortCommands(cmds: seq<Command>) {
    forall i :: 0 <= i < |cmds| ==> cmds[i].cycle <= 40
  }

  /** What the fold computes: after any prefix the next checkpoint lies beyond the
      elapsed cycles, every checkpoint reached so far is recorded once, in order, with
      the register's value during that cycle. */
  lemma {:induction false} FoldMeaning(cmds: seq<Command>, k: nat)
    requires k <= |cmds| && ShortCommands(cmds)
    ensures Fold(cmds, k).0 == Checkpoint(|Fold(cmds, k).1|)
    ensures Fold(cmds, k).0 - 40 <= End(cmds, k) < Fold(cmds, k).0
    ensures forall j :: 0 <= j < |Fold(cmds, k).1| ==> Fold(cmds, k).1[j] == (Checkpoint(j), XDuring(cmds, k, Checkpoint(j)))
  {
    if k > 0 {
      FoldMeaning(cmds, k - 1);
      var (signal, recorded) := Fold(cmds, k - 1);
      forall j | 0 <= j < |recorded| ensures XDuring(cmds, k, Checkpoint(j)) == XDuring(cmds, k - 1, Checkpoint(j)) {
        assert Checkpoint(j) <= signal - 40;
      }
      if End(cmds, k) >= signal {
        assert Finished(cmds, k, signal) == k - 1;
      }
    }
  }

  /** The fold's answer: the sum of checkpoint times recorded register value. */
  function Strength(cmds: seq<Command>): int {
    SignalSum(Fold(cmds, |cmds|).1)
  }

  /** The puzzle's answer, independently of the fold: the checkpoints up to the last
      elapsed cycle, each weighted by the register during that cycle. */
  function CheckpointSum(cmds: seq<Command>, n: nat): int {
    if n == 0 then 0 else CheckpointSum(cmds, n - 1) + Checkpoint(n - 1) * XDuring(cmds, |cmds|, Checkpoint(n - 1))
  }

  lemma {:induction false} SignalSumIsCheckpointSum(cmds: seq<Command>, recorded: seq<(int, int)>)
    requires forall j :: 0 <= j < |recorded| ==> recorded[j] == (Checkpoint(j), XDuring(cmds, |cmds|, Checkpoint(j)))
    ensures SignalSum(recorded) == CheckpointSum(cmds, |recorded|)
    decreases |recorded|
  {
    if recorded != [] {
      var init := recorded[..|recorded| - 1];
      assert forall j :: 0 <= j < |init| ==> init[j] == recorded[j];
      SignalSumIsCheckpointSum(cmds, init);
    }
  }

  /** With short instructions the fold's answer covers exactly the checkpoints
      20, 60, ... that the program reaches. */
  lemma StrengthMeaning(cmds: seq<Command>)
    requires ShortCommands(cmds)
    ensures var n := |Fold(cmds, |cmds|).1|;
      Strength(cmds) == CheckpointSum(cmds, n) &&
      (forall j :: 0 <= j < n ==> Checkpoint(j) <= End(cmds, |cmds|)) &&
      End(cmds, |cmds|) < Checkpoint(n)
  {
    FoldMeaning(cmds, |cmds|);
    SignalSumIsCheckpointSum(cmds, Fold(cmds, |cmds|).1);
  }

  /** `part1`: the fold over the commands with a mutable state (next checkpoint,
      elapsed cycles, register), recording the state whenever an instruction's end
      reaches the checkpoint, then summing checkpoint times register. */
  method Part1(data: seq<Command>) returns (r: int)
    ensures r == Strength(data)
    ensures ShortCommands(data) ==> r == CheckpointSum(data, |Fold(data, |data|).1|)
  {
    var signal := 20;
    var pos := 0;
    var x := 1;
    var strengths: seq<(int, int)> := [];
    var k := 0;
    while k < |data|
      invariant 0 <= k <= |data|
      invariant (signal, strengths) == Fold(data, k)
      invariant pos == End(data, k) && x == XAfter(data, k)
    {
      var cmd := data[k];
      var newPos := pos + cmd.cycle;
      if newPos >= signal {
        strengths := strengths + [(signal, x)];
        signal := signal + 40;
      }
      x := x + cmd.val;
      pos := newPos;
      k := k + 1;
    }
    r := 0;
    var i := 0;
    while i < |strengths|
      invariant 0 <= i <= |strengths|
      invariant r == SignalSum(strengths[..i])
    {
      assert strengths[..i + 1][..i] == strengths[..i];
      r := r + strengths[i].0 * strengths[i].1;
      i := i + 1;
    }
    assert strengths[..i] == strengths;
    if ShortCommands(data) {
      StrengthMeaning(data);
    }
  }

  /** A short program: `noop`, `addx 3`, `addx -5` runs five cycles and reaches no checkpoint;
      the register is 1, then 4 from the end of cycle 3, then -1. */
  lemma SmallProgram()
    ensures var cmds := [Command(1, 0), Command(2, 3), Command(2, -5)];
      End(cmds, 3) == 5 && XAfter(cmds, 3) == -1 && XDuring(cmds, 3, 4) == 4 && Strength(cmds) == 0
  {
  }

  /** Twenty one-cycle instructions adding 1 each reach the first checkpoint while the
      twentieth runs, when the register is 20: strength 20 * 20. */
  lemma FirstCheckpoint()
    ensures var cmds := seq(20, _ => Command(1, 1)); Strength(cmds) == 400
  {
    var cmds := seq(20, _ => Command(1, 1));
    assert ShortCommands(cmds);
    StrengthMeaning(cmds);
    forall k | 0 <= k <= 20 ensures End(cmds, k) == k && XAfter(cmds, k) == 1 + k {
      EndOfUnitSteps(cmds, k);
    }
    assert |Fold(cmds, 20).1| == 1;
    assert Finished(cmds, 20, 20) == 19;
  }

  lemma {:induction false} EndOfUnitSteps(cmds: seq<Command>, k: nat)
    requires k <= |cmds| && forall i :: 0 <= i < |cmds| ==> cmds[i] == Command(1, 1)
    ensures End(cmds, k) == k && XAfter(cmds, k) == 1 + k
  {
    if k > 0 {
      EndOfUnitSteps(cmds, k - 1);
    }
  }
}
