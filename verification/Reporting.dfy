/** From JUnit cases to verification records: nothing can promote a missing or failing case into a pass. */
module Reporting {
  import opened Common
  import opened Records

  // ------------------------------------------------------------- node ids

  function Replaced(s: string, a: char, b: char): (r: string)
    ensures |r| == |s|
    ensures forall i | 0 <= i < |s| :: r[i] == if s[i] == a then b else s[i]
  {
    seq(|s|, i requires 0 <= i < |s| => if s[i] == a then b else s[i])
  }

  /** Where a match of the parameter suffix must end: at the end, or before one final line break. */
  function SuffixEnd(s: string): (e: Option<nat>)
    ensures e.Some? ==> 0 < e.value <= |s| && s[e.value - 1] == ']'
  {
    if |s| >= 1 && s[|s| - 1] == ']' then Some(|s|)
    else if |s| >= 2 && s[|s| - 1] == '\n' && s[|s| - 2] == ']' then Some(|s| - 1)
    else None
  }

  /** The leftmost opening bracket from `i` on with no line break between it and the closing one. */
  function SuffixStart(s: string, i: nat, e: nat): (start: Option<nat>)
    requires i < e <= |s|
    ensures start.Some? ==> i <= start.value < e - 1 && s[start.value] == '[' && '\n' !in s[start.value..e]
    ensures forall k | i <= k < (if start.Some? then start.value else e - 1) :: s[k] != '[' || '\n' in s[k..e]
    decreases e - i
  {
    if i == e - 1 then None
    else if s[i] == '[' && '\n' !in s[i..e] then Some(i)
    else SuffixStart(s, i + 1, e)
  }

  /** `PARAMETER_SUFFIX.sub('', name)` */
  function StripParameters(name: string): string {
    match SuffixEnd(name)
    case None => name
    case Some(e) =>
      match SuffixStart(name, 0, e)
      case None => name
      case Some(start) => name[..start] + name[e..]
  }

  function NodeId(classname: string, name: string): string {
    Replaced(classname, '.', '/') + ".py::" + StripParameters(name)
  }

  /** Every parameter case folds into the id of its function. */
  lemma {:induction false} ParametersFold(classname: string, function_: string, parameters: string)
    requires '[' !in function_ && '\n' !in parameters
    ensures NodeId(classname, function_ + "[" + parameters + "]") == Replaced(classname, '.', '/') + ".py::" + function_
  {
    var name := function_ + "[" + parameters + "]";
    var e, start := |name|, |function_|;
    assert SuffixEnd(name) == Some(e);
    assert name[start] == '[' && name[start..e] == "[" + parameters + "]";
    assert forall k | 0 <= k < start :: name[k] == function_[k];
    assert SuffixStart(name, 0, e) == Some(start);
    assert name[..start] + name[e..] == function_;
  }

  // What a node id is, in terms of positions in the class name and the case name.

  /** From an opening bracket at `i` to a closing one before `e`, with no line break between, at the end of the name. */
  predicate SuffixAt(name: string, i: nat, e: nat) {
    && i + 1 < e <= |name| && name[i] == '[' && name[e - 1] == ']'
    && (e == |name| || (e + 1 == |name| && name[e] == '\n'))
    && forall k | i <= k < e :: name[k] != '\n'
  }

  /** No bracketed suffix ends the name. */
  ghost predicate Plain(name: string) {
    forall i: nat, e: nat :: !SuffixAt(name, i, e)
  }

  ghost predicate FirstSuffixAt(name: string, i: nat, e: nat) {
    SuffixAt(name, i, e) && forall h: nat | h < i :: !SuffixAt(name, h, e)
  }

  /** The suffix that starts first is cut out; a plain name stays. */
  ghost predicate Strips(name: string, base: string) {
    if Plain(name) then base == name
    else exists i: nat, e: nat :: FirstSuffixAt(name, i, e) && base == name[..i] + name[e..]
  }

  /** The path of a module: its dotted name with slashes for dots. */
  predicate IsPath(classname: string, path: string) {
    |path| == |classname| && forall i | 0 <= i < |path| :: path[i] == if classname[i] == '.' then '/' else classname[i]
  }

  /** The id names the case: path, `.py::`, and the case name without its parameters. */
  ghost predicate Names(classname: string, name: string, id: string) {
    exists path, base :: IsPath(classname, path) && Strips(name, base) && id == path + ".py::" + base
  }

  lemma {:induction false} SuffixEndOf(name: string, i: nat, e: nat)
    requires SuffixAt(name, i, e)
    ensures SuffixEnd(name) == Some(e)
  {
  }

  lemma {:induction false} NoBreakWithin(name: string, i: nat, e: nat)
    requires i <= e <= |name|
    ensures '\n' !in name[i..e] <==> forall k | i <= k < e :: name[k] != '\n'
  {
    forall k | i <= k < e && '\n' !in name[i..e] ensures name[k] != '\n' {
      assert name[i..e][k - i] == name[k];
    }
  }

  lemma {:induction false} StripMeans(name: string)
    ensures Strips(name, StripParameters(name))
  {
    if SuffixEnd(name).Some? {
      var e := SuffixEnd(name).value;
      match SuffixStart(name, 0, e)
      case Some(i) =>
        NoBreakWithin(name, i, e);
        assert SuffixAt(name, i, e);
        forall h: nat | h < i ensures !SuffixAt(name, h, e) {
          NoBreakWithin(name, h, e);
        }
        assert FirstSuffixAt(name, i, e);
      case None =>
        forall h: nat, d: nat ensures !SuffixAt(name, h, d) {
          if SuffixAt(name, h, d) {
            SuffixEndOf(name, h, d);
            NoBreakWithin(name, h, e);
          }
        }
    } else {
      forall h: nat, d: nat ensures !SuffixAt(name, h, d) {
        if SuffixAt(name, h, d) {
          SuffixEndOf(name, h, d);
        }
      }
    }
  }

  lemma {:induction false} StripsUnique(name: string, a: string, b: string)
    requires Strips(name, a) && Strips(name, b)
    ensures a == b
  {
    if !Plain(name) {
      var i: nat, e: nat :| FirstSuffixAt(name, i, e) && a == name[..i] + name[e..];
      var j: nat, d: nat :| FirstSuffixAt(name, j, d) && b == name[..j] + name[d..];
      SuffixEndOf(name, i, e);
      SuffixEndOf(name, j, d);
      assert i == j;
    }
  }

  /** A node id names its case, and nothing else does. */
  lemma {:induction false} NodeIdNames(classname: string, name: string, id: string)
    ensures Names(classname, name, id) <==> id == NodeId(classname, name)
  {
    StripMeans(name);
    var path := Replaced(classname, '.', '/');
    assert IsPath(classname, path);
    if Names(classname, name, id) {
      var other, base :| IsPath(classname, other) && Strips(name, base) && id == other + ".py::" + base;
      StripsUnique(name, base, StripParameters(name));
      assert other == path;
    }
  }

  /** A plain case is observed under its own name, character for character, and under no other id. */
  lemma {:induction false} PlainNamesItself(classname: string, name: string, path: string, id: string)
    requires Plain(name) && IsPath(classname, path)
    ensures Names(classname, name, id) <==> id == path + ".py::" + name
  {
    if Names(classname, name, id) {
      var other, base :| IsPath(classname, other) && Strips(name, base) && id == other + ".py::" + base;
      assert other == path;
    }
    assert Strips(name, name);
  }

  /** Different plain names of a module never fold together. */
  lemma {:induction false} PlainNamesApart(classname: string, a: string, b: string, id: string)
    requires Plain(a) && Plain(b) && Names(classname, a, id) && Names(classname, b, id)
    ensures a == b
  {
    var path := Replaced(classname, '.', '/');
    assert IsPath(classname, path);
    PlainNamesItself(classname, a, path, id);
    PlainNamesItself(classname, b, path, id);
    var n := |path + ".py::"|;
    assert (path + ".py::" + a)[n..] == a && (path + ".py::" + b)[n..] == b;
  }

  /** Any name that ends neither in a bracket nor in a bracket and one line break is plain. */
  lemma {:induction false} PlainEnding(name: string)
    requires name == "" || name[|name| - 1] !in {']', '\n'}
    ensures Plain(name)
  {
  }

  // ------------------------------------------------------------ one file

  /** A test case; `duration` is its time in whole milliseconds. */
  datatype Case = Case(classname: string, name: string, failed: bool, skipped: bool, duration: nat)
  datatype JunitFile = JunitFile(name: string, cases: seq<Case>)
  datatype Outcome = Outcome(nodeId: string, passed: bool, duration: nat, source: string)

  predicate Counted(c: Case) {
    c.classname != "" && c.name != ""
  }

  predicate CasePasses(c: Case) {
    !c.failed && !c.skipped
  }

  /** The case counts towards the id. */
  ghost predicate CountsFor(c: Case, id: string) {
    c.classname != "" && c.name != "" && Names(c.classname, c.name, id)
  }

  lemma {:induction false} FoldsMeans(c: Case, id: string)
    ensures FoldsTo(id)(c) <==> CountsFor(c, id)
  {
    NodeIdNames(c.classname, c.name, id);
  }

  function FoldsTo(id: string): Case -> bool {
    c => Counted(c) && NodeId(c.classname, c.name) == id
  }

  /** The cases that count towards one id. */
  function CasesOf(cases: seq<Case>, id: string): seq<Case> {
    Filter(FoldsTo(id), cases)
  }

  ghost predicate AllPass(cases: seq<Case>) {
    forall c | c in cases :: CasePasses(c)
  }

  function TotalDuration(cases: seq<Case>): nat {
    if cases == [] then 0 else TotalDuration(cases[..|cases| - 1]) + cases[|cases| - 1].duration
  }

  ghost function OutcomeOver(source: string, id: string, cases: seq<Case>): Option<Outcome> {
    if cases == [] then None else Some(Outcome(id, AllPass(cases), TotalDuration(cases), source))
  }

  /** What one file says about one id: nothing, or the conjunction of its cases and their total time. */
  ghost function FileOutcome(file: JunitFile, id: string): Option<Outcome> {
    OutcomeOver(file.name, id, CasesOf(file.cases, id))
  }

  function Lookup(outcomes: map<string, Outcome>, id: string): Option<Outcome> {
    if id in outcomes then Some(outcomes[id]) else None
  }

  ghost predicate Parsed(file: JunitFile, outcomes: map<string, Outcome>) {
    forall id :: Lookup(outcomes, id) == FileOutcome(file, id)
  }

  /** `parse_junit`; `order` is the insertion order of the dictionary. */
  method ParseJunit(file: JunitFile) returns (outcomes: map<string, Outcome>, order: seq<string>)
    ensures Parsed(file, outcomes)
    ensures Distinct(order) && forall id :: id in order <==> id in outcomes
  {
    hide NodeId, FileOutcome, Parsed;
    outcomes, order := map[], [];
    NothingParsed(file.name);
    assert file.cases[..0] == [];
    for i := 0 to |file.cases|
      invariant Parsed(JunitFile(file.name, file.cases[..i]), outcomes)
      invariant Distinct(order) && forall id :: id in order <==> id in outcomes
    {
      var c := file.cases[i];
      PrefixStep(file.cases, i);
      ghost var was := outcomes;
      if Counted(c) {
        var id := NodeId(c.classname, c.name);
        var passed, duration := !c.failed && !c.skipped, c.duration;
        if id in outcomes {
          passed := outcomes[id].passed && passed;
          duration := outcomes[id].duration + duration;
        } else {
          order := order + [id];
        }
        outcomes := outcomes[id := Outcome(id, passed, duration, file.name)];
      }
      OneMoreCase(file.name, file.cases[..i], c, was, outcomes);
    }
    assert file.cases[..|file.cases|] == file.cases;
  }

  lemma {:induction false} NothingParsed(name: string)
    ensures Parsed(JunitFile(name, []), map[])
  {
  }

  /** What the loop of `parse_junit` does with one case. */
  ghost predicate FoldedIn(name: string, c: Case, was: map<string, Outcome>, outcomes: map<string, Outcome>) {
    if !Counted(c) then outcomes == was
    else
      var id := NodeId(c.classname, c.name);
      outcomes == was[id :=
        if id in was then Outcome(id, was[id].passed && CasePasses(c), was[id].duration + c.duration, name)
        else Outcome(id, CasePasses(c), c.duration, name)]
  }

  lemma {:induction false} OneMoreCase(name: string, done: seq<Case>, c: Case, was: map<string, Outcome>, outcomes: map<string, Outcome>)
    requires Parsed(JunitFile(name, done), was) && FoldedIn(name, c, was, outcomes)
    ensures Parsed(JunitFile(name, done + [c]), outcomes)
  {
    hide FileOutcome, NodeId, CasePasses;
    forall id ensures Lookup(outcomes, id) == FileOutcome(JunitFile(name, done + [c]), id) {
      assert Lookup(was, id) == FileOutcome(JunitFile(name, done), id);
      OutcomeNext(name, done, c, id);
    }
  }

  /** An outcome with one more case counted in. */
  function Extended(was: Option<Outcome>, source: string, id: string, c: Case): Option<Outcome> {
    match was
    case None => Some(Outcome(id, CasePasses(c), c.duration, source))
    case Some(o) => Some(Outcome(id, o.passed && CasePasses(c), o.duration + c.duration, source))
  }

  lemma {:induction false} OutcomeNext(name: string, done: seq<Case>, c: Case, id: string)
    ensures var was := FileOutcome(JunitFile(name, done), id);
      FileOutcome(JunitFile(name, done + [c]), id) == if FoldsTo(id)(c) then Extended(was, name, id, c) else was
  {
    hide FoldsTo, OutcomeOver;
    FilterAppend(FoldsTo(id), done, c);
    if FoldsTo(id)(c) {
      OutcomeGrows(name, id, CasesOf(done, id), c);
    } else {
      assert CasesOf(done, id) + [] == CasesOf(done, id);
    }
  }

  lemma {:induction false} OutcomeGrows(source: string, id: string, cases: seq<Case>, c: Case)
    ensures OutcomeOver(source, id, cases + [c]) == Extended(OutcomeOver(source, id, cases), source, id, c)
  {
    hide AllPass, CasePasses, TotalDuration;
    OneMorePass(cases, c);
    OneMoreDuration(cases, c);
    NoCases();
  }

  lemma {:induction false} NoCases()
    ensures AllPass([]) && TotalDuration([]) == 0
  {
  }

  lemma {:induction false} OneMorePass(cases: seq<Case>, c: Case)
    ensures AllPass(cases + [c]) <==> AllPass(cases) && CasePasses(c)
  {
    hide CasePasses;
    assert forall x :: x in cases + [c] <==> x in cases || x == c;
  }

  lemma {:induction false} OneMoreDuration(cases: seq<Case>, c: Case)
    ensures TotalDuration(cases + [c]) == TotalDuration(cases) + c.duration
  {
    var more := cases + [c];
    assert more[..|more| - 1] == cases && more[|more| - 1] == c;
  }

  // ------------------------------------------------------------ all files

  /** At least one case in some file counts for the id. */
  ghost predicate Observed(files: seq<JunitFile>, id: string) {
    exists i, k | 0 <= i < |files| && 0 <= k < |files[i].cases| :: CountsFor(files[i].cases[k], id)
  }

  /** No case in any file that counts for the id failed, errored or was skipped. */
  ghost predicate EveryCasePasses(files: seq<JunitFile>, id: string) {
    forall i, k | 0 <= i < |files| && 0 <= k < |files[i].cases| && CountsFor(files[i].cases[k], id) ::
      !files[i].cases[k].failed && !files[i].cases[k].skipped
  }

  predicate Failing(says: Option<Outcome>) {
    says.Some? && !says.value.passed
  }

  /** What each file says about an id. */
  ghost function Says(files: seq<JunitFile>, id: string): (says: seq<Option<Outcome>>)
    ensures |says| == |files| && forall i | 0 <= i < |files| :: says[i] == FileOutcome(files[i], id)
  {
    seq(|files|, i requires 0 <= i < |files| => FileOutcome(files[i], id))
  }

  /** The i-th file speaks for the id: it is the first that fails, or, when none does, the first that mentions it. */
  ghost predicate Speaks(says: seq<Option<Outcome>>, i: nat) {
    && i < |says| && says[i].Some?
    && if Failing(says[i]) then forall j | 0 <= j < i :: !Failing(says[j])
       else (forall j | 0 <= j < |says| :: !Failing(says[j])) && forall j | 0 <= j < i :: says[j].None?
  }

  ghost predicate Settled(says: seq<Option<Outcome>>, outcome: Option<Outcome>) {
    match outcome
    case None => forall j | 0 <= j < |says| :: says[j].None?
    case Some(_) => exists i: nat :: Speaks(says, i) && says[i] == outcome
  }

  ghost predicate Collected(files: seq<JunitFile>, merged: map<string, Outcome>) {
    forall id :: Settled(Says(files, id), Lookup(merged, id))
  }

  /** One more file: a failure replaces a pass, and anything replaces nothing. */
  function Merge(previous: Option<Outcome>, next: Option<Outcome>): Option<Outcome> {
    if next.Some? && (previous.None? || (previous.value.passed && !next.value.passed)) then next else previous
  }

  lemma {:induction false} SettledNext(says: seq<Option<Outcome>>, next: Option<Outcome>, previous: Option<Outcome>)
    requires Settled(says, previous)
    ensures Settled(says + [next], Merge(previous, next))
  {
    var all := says + [next];
    if previous.Some? {
      var i: nat :| Speaks(says, i) && says[i] == previous;
      assert all[i] == previous;
      if Merge(previous, next) == previous && Merge(previous, next) != next {
        assert Speaks(all, i);
      } else if Failing(previous) {
        assert Speaks(all, i);
      } else if next == previous {
        assert Speaks(all, i);
      } else {
        assert Speaks(all, |says|);
      }
    } else if next.Some? {
      assert Speaks(all, |says|);
    }
  }

  /** The inner loop of `collect_outcomes`: one file's outcomes merged into the rest. */
  method MergeFile(merged: map<string, Outcome>, parsed: map<string, Outcome>, order: seq<string>)
    returns (outcomes: map<string, Outcome>)
    requires Distinct(order) && forall id :: id in order <==> id in parsed
    ensures forall id :: Lookup(outcomes, id) == Merge(Lookup(merged, id), Lookup(parsed, id))
  {
    outcomes := merged;
    for k := 0 to |order|
      invariant forall id :: if id in order[..k] then Lookup(outcomes, id) == Merge(Lookup(merged, id), Lookup(parsed, id))
                             else Lookup(outcomes, id) == Lookup(merged, id)
    {
      PrefixStep(order, k);
      var id := order[k];
      assert id in order && id !in order[..k];
      var outcome := parsed[id];
      assert Lookup(outcomes, id) == Lookup(merged, id);
      if id !in outcomes || (outcomes[id].passed && !outcome.passed) {
        outcomes := outcomes[id := outcome];
      }
    }
    assert order[..|order|] == order;
  }

  /** `collect_outcomes` on the files in sorted order; `None` where it raises. */
  method CollectOutcomes(files: seq<JunitFile>) returns (merged: Option<map<string, Outcome>>)
    ensures merged.None? <==> files == []
    ensures merged.Some? ==> Collected(files, merged.value)
  {
    if files == [] {
      return None;
    }
    hide FileOutcome, Settled, Merge;
    var outcomes: map<string, Outcome> := map[];
    NothingCollected();
    assert files[..0] == [];
    for i := 0 to |files|
      invariant Collected(files[..i], outcomes)
    {
      var parsed, order := ParseJunit(files[i]);
      ghost var was := outcomes;
      outcomes := MergeFile(outcomes, parsed, order);
      PrefixStep(files, i);
      forall id ensures Settled(Says(files[..i + 1], id), Lookup(outcomes, id)) {
        assert Settled(Says(files[..i], id), Lookup(was, id));
        SettledNext(Says(files[..i], id), FileOutcome(files[i], id), Lookup(was, id));
        assert Says(files[..i + 1], id) == Says(files[..i], id) + [FileOutcome(files[i], id)];
        assert FileOutcome(files[i], id) == Lookup(parsed, id);
      }
    }
    assert files[..|files|] == files;
    merged := Some(outcomes);
  }

  lemma {:induction false} NothingCollected()
    ensures Collected([], map[])
  {
  }

  ghost predicate Mentions(file: JunitFile, id: string) {
    exists k :: 0 <= k < |file.cases| && CountsFor(file.cases[k], id)
  }

  ghost predicate HoldsFailure(file: JunitFile, id: string) {
    exists k :: 0 <= k < |file.cases| && CountsFor(file.cases[k], id) && !CasePasses(file.cases[k])
  }

  lemma {:induction false} FileSays(file: JunitFile, id: string)
    ensures FileOutcome(file, id).Some? <==> Mentions(file, id)
    ensures Failing(FileOutcome(file, id)) <==> HoldsFailure(file, id)
  {
    hide CountsFor, FoldsTo;
    var cases := CasesOf(file.cases, id);
    forall c ensures FoldsTo(id)(c) <==> CountsFor(c, id) {
      FoldsMeans(c, id);
    }
    if cases != [] {
      assert cases[0] in cases;
    }
    if k :| 0 <= k < |file.cases| && CountsFor(file.cases[k], id) {
      assert file.cases[k] in cases;
    }
    if k :| 0 <= k < |file.cases| && CountsFor(file.cases[k], id) && !CasePasses(file.cases[k]) {
      assert file.cases[k] in cases;
    }
  }

  /** What a settled outcome means in terms of the raw cases. */
  lemma {:induction false} SettledMeans(files: seq<JunitFile>, id: string, outcome: Option<Outcome>)
    requires Settled(Says(files, id), outcome)
    ensures outcome.Some? <==> Observed(files, id)
    ensures (outcome.Some? && outcome.value.passed) <==> Observed(files, id) && EveryCasePasses(files, id)
  {
    hide FileOutcome, CountsFor;
    forall i | 0 <= i < |files|
      ensures FileOutcome(files[i], id).Some? <==> Mentions(files[i], id)
      ensures Failing(FileOutcome(files[i], id)) <==> HoldsFailure(files[i], id)
    {
      FileSays(files[i], id);
    }
    FilesSay(files, id);
  }

  lemma {:induction false} FilesSay(files: seq<JunitFile>, id: string)
    ensures Observed(files, id) <==> exists i :: 0 <= i < |files| && Mentions(files[i], id)
    ensures EveryCasePasses(files, id) <==> forall i | 0 <= i < |files| :: !HoldsFailure(files[i], id)
  {
    hide CountsFor;
    if i :| 0 <= i < |files| && Mentions(files[i], id) {
      var k :| 0 <= k < |files[i].cases| && CountsFor(files[i].cases[k], id);
    }
    if i :| 0 <= i < |files| && HoldsFailure(files[i], id) {
      var k :| 0 <= k < |files[i].cases| && CountsFor(files[i].cases[k], id) && !CasePasses(files[i].cases[k]);
    }
    if i, k :| 0 <= i < |files| && 0 <= k < |files[i].cases| && CountsFor(files[i].cases[k], id) {
      assert Mentions(files[i], id);
    }
  }

  // -------------------------------------------------------- the summary

  datatype Requirement = Requirement(id: string, statement: string, procedureIds: seq<string>, tests: seq<string>)

  /** One automated test of one requirement. */
  datatype Check = Check(requirement: Requirement, nodeId: string)

  function ChecksOf(requirement: Requirement, tests: seq<string>): seq<Check> {
    Map(test => Check(requirement, test), tests)
  }

  function Checks(requirements: seq<Requirement>): seq<Check> {
    if requirements == [] then []
    else
      var n := |requirements| - 1;
      Checks(requirements[..n]) + ChecksOf(requirements[n], requirements[n].tests)
  }

  /** The record of a check, in terms of the raw JUnit cases. */
  ghost predicate RecordFits(files: seq<JunitFile>, check: Check, r: Record) {
    var id, says := check.nodeId, Says(files, check.nodeId);
    && r.requirementId == check.requirement.id && r.checkId == id && r.expected == check.requirement.statement
    && r.procedureId == (if check.requirement.procedureIds == [] then "not observed" else check.requirement.procedureIds[0])
    && (r.passed <==> Observed(files, id) && EveryCasePasses(files, id))
    && (r.status == Seen <==> Observed(files, id))
    && r.observed == (if !Observed(files, id) then None else Some(if r.passed then "passed" else "failed"))
    && if Observed(files, id)
       then exists i: nat :: Speaks(says, i) && r.duration == says[i].value.duration
                             && r.evidencePath == "artifacts/junit/" + files[i].name
       else r.duration == 0 && r.evidencePath == "artifacts/junit/"
  }

  /** The record `build_summary` constructs from what the merged outcomes say. */
  function RecordOf(check: Check, outcome: Option<Outcome>): Record {
    Validated(Record(
      check.requirement.id,
      if check.requirement.procedureIds == [] then "not observed" else check.requirement.procedureIds[0],
      check.nodeId, check.requirement.statement,
      if outcome.Some? then Some(if outcome.value.passed then "passed" else "failed") else None,
      if outcome.Some? then Seen else NotObserved,
      outcome.Some? && outcome.value.passed,
      if outcome.Some? then outcome.value.duration else 0,
      if outcome.Some? then "artifacts/junit/" + outcome.value.source else "artifacts/junit/"))
  }

  /** The record of a check passed exactly when some case was seen for it and every case passed. */
  lemma {:induction false} RecordCannotPromote(files: seq<JunitFile>, check: Check, outcome: Option<Outcome>)
    requires Settled(Says(files, check.nodeId), outcome)
    ensures RecordFits(files, check, RecordOf(check, outcome)) && RecordOf(check, outcome).Valid()
  {
    var id := check.nodeId;
    var says := Says(files, id);
    SettledMeans(files, id, outcome);
    hide Observed, EveryCasePasses;
    if outcome.Some? {
      var i: nat :| Speaks(says, i) && says[i] == outcome;
      assert says[i] == FileOutcome(files[i], id);
      assert outcome.value.source == files[i].name;
    }
  }

  /** `build_summary`; `None` where it raises. */
  method BuildSummary(runId: string, generatedAt: string, files: seq<JunitFile>, requirements: seq<Requirement>)
    returns (summary: Option<Summary>)
    ensures summary.None? <==> files == [] || Checks(requirements) == []
    ensures summary.Some? ==> summary.value.Valid() && summary.value.runId == runId && summary.value.generatedAt == generatedAt
    ensures summary.Some? ==> |summary.value.records| == |Checks(requirements)|
    ensures summary.Some? ==> forall i | 0 <= i < |Checks(requirements)| ::
      RecordFits(files, Checks(requirements)[i], summary.value.records[i])
  {
    var collected := CollectOutcomes(files);
    if collected.None? || requirements == [] {
      return None;
    }
    hide RecordFits, Collected;
    var records: seq<Record> := [];
    assert requirements[..0] == [];
    for n := 0 to |requirements|
      invariant AllFit(files, Checks(requirements[..n]), records)
    {
      records := AppendRecords(files, collected.value, requirements[n], Checks(requirements[..n]), records);
      assert requirements[..n + 1][..n] == requirements[..n];
    }
    assert requirements[..|requirements|] == requirements;
    summary := if records == [] then None else Some(Summary(runId, generatedAt, records));
  }

  /** The inner loop of `build_summary`: the records of one requirement. */
  method AppendRecords(ghost files: seq<JunitFile>, outcomes: map<string, Outcome>, requirement: Requirement,
                       ghost earlier: seq<Check>, records: seq<Record>)
    returns (more: seq<Record>)
    requires Collected(files, outcomes) && AllFit(files, earlier, records)
    ensures AllFit(files, earlier + ChecksOf(requirement, requirement.tests), more)
  {
    hide RecordFits, Settled, RecordOf;
    more := records;
    assert earlier + ChecksOf(requirement, []) == earlier;
    assert requirement.tests[..0] == [];
    for k := 0 to |requirement.tests|
      invariant AllFit(files, earlier + ChecksOf(requirement, requirement.tests[..k]), more)
    {
      var check := Check(requirement, requirement.tests[k]);
      assert Settled(Says(files, check.nodeId), Lookup(outcomes, check.nodeId));
      RecordCannotPromote(files, check, Lookup(outcomes, check.nodeId));
      OneMoreCheck(earlier, requirement, k);
      more := more + [RecordOf(check, Lookup(outcomes, check.nodeId))];
    }
    assert requirement.tests[..|requirement.tests|] == requirement.tests;
  }

  lemma {:induction false} OneMoreCheck(earlier: seq<Check>, requirement: Requirement, k: nat)
    requires k < |requirement.tests|
    ensures earlier + ChecksOf(requirement, requirement.tests[..k + 1])
         == earlier + ChecksOf(requirement, requirement.tests[..k]) + [Check(requirement, requirement.tests[k])]
  {
  }

  ghost predicate AllFit(files: seq<JunitFile>, checks: seq<Check>, records: seq<Record>) {
    && |records| == |checks|
    && forall i | 0 <= i < |checks| :: RecordFits(files, checks[i], records[i]) && records[i].Valid()
  }
}
