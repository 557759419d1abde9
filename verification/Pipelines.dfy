/** The gate checkers: what the out-of-order and missing reports say about a pipeline's commands. */
module Pipelines {
  import opened Common

  const REQUIRED_GATES: seq<string> := [
    "./scripts/bootstrap.sh",
    "./scripts/terra.sh doctor",
    "./scripts/terra.sh validate",
    "./scripts/terra.sh traceability",
    "./scripts/terra.sh test unit",
    "./scripts/terra.sh test contract --mode static",
    "./scripts/terra.sh test security",
    "./scripts/terra.sh test pipeline",
    "./scripts/terra.sh up",
    "./scripts/terra.sh status",
    "./scripts/terra.sh test integration",
    "./scripts/terra.sh procedure run TP-ING-002",
    "./scripts/terra.sh procedure run TP-API-004",
    "./scripts/terra.sh procedure run TP-SYS-001",
    "./scripts/terra.sh test contract --mode postman",
    "./scripts/terra.sh test performance",
    "./scripts/terra.sh procedure run TP-RES-003",
    "./scripts/terra.sh test resilience",
    "./scripts/terra.sh procedure run TP-EVD-005",
    "./scripts/terra.sh evidence"]

  lemma {:induction false} RequiredGatesDistinct()
    ensures Distinct(REQUIRED_GATES)
  {
  }

  /** Where a command first runs. */
  function First(commands: seq<string>, gate: string): (i: nat)
    requires gate in commands
    ensures i < |commands| && commands[i] == gate && gate !in commands[..i]
  {
    if commands[0] == gate then 0
    else
      assert commands == [commands[0]] + commands[1..];
      var i := First(commands[1..], gate) + 1;
      assert commands[..i] == [commands[0]] + commands[1..][..i - 1];
      i
  }

  predicate RunsBefore(commands: seq<string>, a: string, b: string) {
    a in commands && b in commands && First(commands, a) < First(commands, b)
  }

  /** Each gate before the next ones, by where it first runs. */
  ghost predicate InOrder(commands: seq<string>, gates: seq<string>) {
    forall i, j | 0 <= i < j < |gates| :: RunsBefore(commands, gates[i], gates[j])
  }

  function Absent(commands: seq<string>): string -> bool {
    gate => gate !in commands
  }

  function Present(commands: seq<string>): string -> bool {
    gate => gate in commands
  }

  /** The required gates that run, in required order. */
  function PresentGates(required: seq<string>, commands: seq<string>): seq<string> {
    Filter(Present(commands), required)
  }

  datatype Problem = RunsTooEarly(later: string, earlier: string)

  /** `gate_sequence`: the required gates in the order in which each first runs. */
  method GateSequence(required: seq<string>, commands: seq<string>) returns (seen: seq<string>)
    ensures InOrder(commands, seen)
    ensures forall gate :: gate in seen <==> gate in required && gate in commands
  {
    seen := [];
    for i := 0 to |commands|
      invariant forall gate :: gate in seen <==> gate in required && gate in commands[..i]
      invariant InOrder(commands, seen)
    {
      PrefixStep(commands, i);
      if commands[i] in required && commands[i] !in seen {
        FirstHere(commands, i, seen);
        seen := seen + [commands[i]];
      }
    }
    assert commands[..|commands|] == commands;
  }

  /** A command not run earlier runs first here, after every gate already seen. */
  lemma {:induction false} FirstHere(commands: seq<string>, i: nat, seen: seq<string>)
    requires i < |commands| && commands[i] !in commands[..i]
    requires InOrder(commands, seen) && forall gate | gate in seen :: gate in commands[..i]
    ensures InOrder(commands, seen + [commands[i]])
  {
    assert First(commands, commands[i]) == i;
    forall k | 0 <= k < |seen| ensures RunsBefore(commands, seen[k], commands[i]) {
      assert seen[k] in seen;
      var j :| 0 <= j < i && commands[..i][j] == seen[k];
      assert commands[j] == seen[k] && First(commands, seen[k]) <= j;
    }
  }

  /** `missing_gates` */
  method MissingGates(required: seq<string>, commands: seq<string>) returns (missing: seq<string>)
    ensures forall gate :: gate in missing <==> gate in required && gate !in commands
    ensures missing == Filter(Absent(commands), required)
  {
    missing := [];
    for i := 0 to |required|
      invariant forall gate :: gate in missing <==> gate in required[..i] && gate !in commands
      invariant missing == Filter(Absent(commands), required[..i])
    {
      PrefixStep(required, i);
      FilterAppend(Absent(commands), required[..i], required[i]);
      if required[i] !in commands {
        missing := missing + [required[i]];
      }
    }
    assert required[..|required|] == required;
  }

  /** `gates_out_of_order`: one report for each adjacent pair of present gates that runs the wrong way round. */
  method GatesOutOfOrder(required: seq<string>, commands: seq<string>) returns (problems: seq<Problem>)
    ensures var ordered := PresentGates(required, commands);
      forall p :: p in problems <==>
        exists i | 0 < i < |ordered| :: Misplaced(commands, ordered, i) && p == RunsTooEarly(ordered[i], ordered[i - 1])
  {
    var ordered := PresentGates(required, commands);
    problems := [];
    var k := 1;
    while k < |ordered|
      invariant 1 <= k && (k <= |ordered| || k == 1)
      invariant forall p :: p in problems <==>
        exists i | 0 < i < k && i < |ordered| :: Misplaced(commands, ordered, i) && p == RunsTooEarly(ordered[i], ordered[i - 1])
    {
      assert ordered[k] in ordered && ordered[k - 1] in ordered;
      if First(commands, ordered[k - 1]) > First(commands, ordered[k]) {
        problems := problems + [RunsTooEarly(ordered[k], ordered[k - 1])];
      }
      k := k + 1;
    }
  }

  ghost predicate Misplaced(commands: seq<string>, ordered: seq<string>, i: nat) {
    0 < i < |ordered| && RunsBefore(commands, ordered[i], ordered[i - 1])
  }

  /** What `gate_sequence` returns, as its contract states it. */
  ghost predicate IsGateSequence(required: seq<string>, commands: seq<string>, seen: seq<string>) {
    InOrder(commands, seen) && forall gate :: gate in seen <==> gate in required && gate in commands
  }

  ghost predicate NoneMisplaced(required: seq<string>, commands: seq<string>) {
    var ordered := PresentGates(required, commands);
    forall i | 0 < i < |ordered| :: !Misplaced(commands, ordered, i)
  }

  ghost predicate SameGates(a: seq<string>, b: seq<string>) {
    forall gate :: gate in a <==> gate in b
  }

  lemma {:induction false} BothEmpty(a: seq<string>, b: seq<string>)
    requires SameGates(a, b)
    ensures a == [] <==> b == []
  {
    if a != [] {
      assert a[0] in a;
    }
    if b != [] {
      assert b[0] in b;
    }
  }

  /** Two listings of the same gates, both in order of first run, are the same listing. */
  lemma {:induction false} SameOrder(commands: seq<string>, a: seq<string>, b: seq<string>)
    requires InOrder(commands, a) && InOrder(commands, b)
    requires SameGates(a, b) && forall gate | gate in a :: gate in commands
    ensures a == b
  {
    BothEmpty(a, b);
    if a != [] {
      var m, n := |a| - 1, |b| - 1;
      assert a[m] == b[n] by {
        assert a[m] in b && b[n] in a;
        var j :| 0 <= j < |b| && b[j] == a[m];
        var i :| 0 <= i < |a| && a[i] == b[n];
        assert j < n ==> RunsBefore(commands, b[j], b[n]);
        assert i < m ==> RunsBefore(commands, a[i], a[m]);
      }
      SamePrefix(commands, a, b);
      SameOrder(commands, a[..m], b[..n]);
      assert a == a[..m] + [a[m]] && b == b[..n] + [b[n]];
    }
  }

  lemma {:induction false} SamePrefix(commands: seq<string>, a: seq<string>, b: seq<string>)
    requires InOrder(commands, a) && InOrder(commands, b) && a != [] && b != [] && a[|a| - 1] == b[|b| - 1]
    requires SameGates(a, b)
    ensures InOrder(commands, a[..|a| - 1]) && InOrder(commands, b[..|b| - 1])
    ensures SameGates(a[..|a| - 1], b[..|b| - 1])
  {
    LastOnce(commands, a);
    LastOnce(commands, b);
    var a', b' := a[..|a| - 1], b[..|b| - 1];
    forall gate ensures gate in a' <==> gate in b' {
      assert gate in a <==> gate in b;
    }
  }

  lemma {:induction false} LastOnce(commands: seq<string>, a: seq<string>)
    requires InOrder(commands, a) && a != []
    ensures InOrder(commands, a[..|a| - 1])
    ensures forall gate :: gate in a[..|a| - 1] <==> gate in a && gate != a[|a| - 1]
  {
    var m := |a| - 1;
    forall i | 0 <= i < m ensures a[i] != a[m] {
      assert RunsBefore(commands, a[i], a[m]);
    }
    assert a == a[..m] + [a[m]];
  }

  /** Adjacent pairs in order put every pair in order. */
  lemma {:induction false} Chained(commands: seq<string>, ordered: seq<string>, i: nat, j: nat)
    requires Distinct(ordered) && i < j < |ordered|
    requires forall gate | gate in ordered :: gate in commands
    requires forall k | 0 < k < |ordered| :: !Misplaced(commands, ordered, k)
    ensures RunsBefore(commands, ordered[i], ordered[j])
  {
    assert ordered[j] in ordered && ordered[j - 1] in ordered && ordered[j - 1] != ordered[j];
    assert !Misplaced(commands, ordered, j);
    if i < j - 1 {
      Chained(commands, ordered, i, j - 1);
    }
  }

  /**
   No out-of-order report exactly when the gates first run in the required order: the
   first-appearance sequence is the required list restricted to the gates present.
   */
  lemma {:induction false} NoReportIff(required: seq<string>, commands: seq<string>, seen: seq<string>)
    requires Distinct(required) && IsGateSequence(required, commands, seen)
    ensures NoneMisplaced(required, commands) <==> seen == PresentGates(required, commands)
  {
    var ordered := PresentGates(required, commands);
    FilterDistinct(Present(commands), required);
    if NoneMisplaced(required, commands) {
      forall i, j | 0 <= i < j < |ordered| ensures RunsBefore(commands, ordered[i], ordered[j]) {
        Chained(commands, ordered, i, j);
      }
      SameOrder(commands, seen, ordered);
    } else {
      var i :| 0 < i < |ordered| && Misplaced(commands, ordered, i);
      assert !RunsBefore(commands, ordered[i - 1], ordered[i]);
    }
  }

  /** Nothing missing and nothing misplaced exactly when the sequence is the whole required list. */
  lemma {:induction false} ParityIff(required: seq<string>, commands: seq<string>, seen: seq<string>)
    requires Distinct(required) && IsGateSequence(required, commands, seen)
    ensures (NoneMisplaced(required, commands) && forall gate | gate in required :: gate in commands) <==> seen == required
  {
    NoReportIff(required, commands, seen);
    if forall gate | gate in required :: gate in commands {
      AllPresent(required, commands);
    } else {
      var gate :| gate in required && gate !in commands;
      assert gate !in seen;
    }
  }

  lemma {:induction false} AllPresent(required: seq<string>, commands: seq<string>)
    requires forall gate | gate in required :: gate in commands
    ensures PresentGates(required, commands) == required
  {
    if required != [] {
      var n := |required| - 1;
      AllPresent(required[..n], commands);
      assert required == required[..n] + [required[n]];
    }
  }

  /** The three checkers together, as a pipeline check calls them. */
  method CheckParity(required: seq<string>, commands: seq<string>) returns (parity: bool)
    requires Distinct(required)
    ensures parity <==> IsGateSequence(required, commands, required)
  {
    var seen := GateSequence(required, commands);
    var missing := MissingGates(required, commands);
    var problems := GatesOutOfOrder(required, commands);
    parity := missing == [] && problems == [];
    ParityIff(required, commands, seen);
    NoReports(required, commands, problems);
    assert IsGateSequence(required, commands, seen);
    assert missing == [] <==> forall gate | gate in required :: gate in commands by {
      if missing != [] {
        assert missing[0] in missing;
      }
    }
    if IsGateSequence(required, commands, required) {
      SameOrder(commands, required, seen);
    }
  }

  lemma {:induction false} NoReports(required: seq<string>, commands: seq<string>, problems: seq<Problem>)
    requires var ordered := PresentGates(required, commands);
      forall p :: p in problems <==>
        exists i | 0 < i < |ordered| :: Misplaced(commands, ordered, i) && p == RunsTooEarly(ordered[i], ordered[i - 1])
    ensures problems == [] <==> NoneMisplaced(required, commands)
  {
    var ordered := PresentGates(required, commands);
    if problems != [] {
      assert problems[0] in problems;
    }
    if !NoneMisplaced(required, commands) {
      var i :| 0 < i < |ordered| && Misplaced(commands, ordered, i);
      assert RunsTooEarly(ordered[i], ordered[i - 1]) in problems;
    }
  }
}
