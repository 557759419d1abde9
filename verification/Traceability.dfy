/** The traceability gate: what its pass means for the requirement and matrix documents. */
module Traceability {
  import opened Common

  // ------------------------------------------------------------ documents

  /** One entry of the requirements list; `fields` are the keys present. */
  datatype Entry = NotAnEntry | Entry(id: string, fields: set<string>, tests: seq<string>)

  /** One entry of the mappings list; `activities` is its number of verification activities, if that is a list. */
  datatype Mapping = NotAMapping | Mapping(id: string, activities: Option<nat>, procedures: seq<string>)

  /** The two documents; `None` where the value is not a list. */
  datatype Documents = Documents(requirements: Option<seq<Entry>>, mappings: Option<seq<Mapping>>)

  /** What the references point into: test functions by file, and procedure ids. */
  datatype Repo = Repo(tests: map<string, set<string>>, procedures: set<string>)

  const FIELDS: seq<string> := ["statement", "rationale", "verification_method", "procedure_ids",
                                "automated_tests", "status", "evidence_location"]

  lemma {:induction false} FieldsAre(field: string)
    ensures field in FIELDS <==>
      || field == "statement" || field == "rationale" || field == "verification_method" || field == "procedure_ids"
      || field == "automated_tests" || field == "status" || field == "evidence_location"
  {
  }

  datatype Problem =
    | NotLists
    | NotAnObject
    | NoId
    | DuplicateId(id: string)
    | MissingField(id: string, field: string)
    | MalformedTest(reference: string)
    | MissingFile(reference: string)
    | NoSuchTest(reference: string)
    | UnknownRequirement(id: string)
    | NoActivity(id: string)
    | MissingProcedure(id: string, procedure: string)
    | Unmapped(id: string)
    | Stale(id: string)

  // ------------------------------------------------------ test references

  /** The text before and after the first "::". */
  function Split(text: string): (parts: Option<(string, string)>)
    ensures parts.Some? ==> text == parts.value.0 + "::" + parts.value.1
    ensures parts.None? ==> forall i | 0 <= i < |text| - 1 :: !(text[i] == ':' && text[i + 1] == ':')
  {
    if |text| < 2 then None
    else if text[0] == ':' && text[1] == ':' then
      assert text == "" + "::" + text[2..];
      Some(("", text[2..]))
    else
      var rest := Split(text[1..]);
      assert text == [text[0]] + text[1..];
      if rest.None? then None else Some(([text[0]] + rest.value.0, rest.value.1))
  }

  /** The text before the first "[". */
  function Base(name: string): (base: string)
    ensures IsBase(name, base)
  {
    if name == "" || name[0] == '[' then "" else [name[0]] + Base(name[1..])
  }

  /** Everything up to the first "[", or, without one, everything. */
  predicate IsBase(name: string, base: string) {
    base <= name && '[' !in base && (base == name || name[|base|] == '[')
  }

  lemma {:induction false} BaseUnique(name: string, base: string)
    requires IsBase(name, base)
    ensures base == Base(name)
  {
    var other := Base(name);
    forall i | 0 <= i < |base| ensures name[i] == base[i] && name[i] != '[' {
      assert base[i] in base;
    }
    forall i | 0 <= i < |other| ensures name[i] == other[i] && name[i] != '[' {
      assert other[i] in other;
    }
    assert |base| == |other|;
  }

  /** What is wrong with a test reference, if anything. */
  function Fault(repo: Repo, reference: string): Option<Problem> {
    match Split(reference)
    case None => Some(MalformedTest(reference))
    case Some((file, name)) =>
      if file !in repo.tests then Some(MissingFile(reference))
      else if Base(name) !in repo.tests[file] then Some(NoSuchTest(reference))
      else None
  }

  /** The reference names a file that exists and a function defined in it, parameters aside. */
  ghost predicate Resolves(repo: Repo, reference: string) {
    exists file, name :: Names(reference, file, name) && file in repo.tests && Defined(repo.tests[file], name)
  }

  /** A function of the set is the name without its parameters. */
  ghost predicate Defined(functions: set<string>, name: string) {
    exists base :: base in functions && IsBase(name, base)
  }

  lemma {:induction false} DefinedIff(functions: set<string>, name: string)
    ensures Defined(functions, name) <==> Base(name) in functions
  {
    if base :| base in functions && IsBase(name, base) {
      BaseUnique(name, base);
    }
  }

  ghost predicate Names(reference: string, file: string, name: string) {
    reference == file + "::" + name && forall i | 0 <= i < |file| :: !(reference[i] == ':' && reference[i + 1] == ':')
  }

  lemma {:induction false} SplitNames(reference: string, file: string, name: string)
    ensures Split(reference) == Some((file, name)) <==> Names(reference, file, name)
  {
    var text := reference;
    if |text| < 2 {
    } else if text[0] == ':' && text[1] == ':' {
      assert Names(text, file, name) ==> file == "" && name == text[2..];
    } else {
      if file != "" {
        SplitNames(text[1..], file[1..], name);
        assert text == [text[0]] + text[1..] && file == [file[0]] + file[1..];
        NamesTail(text, file, name);
      }
    }
  }

  lemma {:induction false} NamesTail(text: string, file: string, name: string)
    requires |text| >= 2 && !(text[0] == ':' && text[1] == ':') && file != ""
    ensures Names(text, file, name) <==> file[0] == text[0] && Names(text[1..], file[1..], name)
  {
    var tail, rest := text[1..], file[1..];
    if Names(text, file, name) {
      assert tail == rest + "::" + name;
      forall i | 0 <= i < |rest| ensures !(tail[i] == ':' && tail[i + 1] == ':') {
        assert tail[i] == text[i + 1] && tail[i + 1] == text[i + 2];
      }
    }
    if file[0] == text[0] && Names(tail, rest, name) {
      assert text == [text[0]] + tail && file == [file[0]] + rest;
      assert text == file + "::" + name;
      forall i | 0 <= i < |file| ensures !(text[i] == ':' && text[i + 1] == ':') {
        if i > 0 {
          assert text[i] == tail[i - 1] && text[i + 1] == tail[i];
        }
      }
    }
  }

  /** Which fault: no separator, no such file, or no such function in the file. */
  ghost predicate TestSays(repo: Repo, reference: string, p: Problem) {
    match p
    case MalformedTest(text) =>
      text == reference && forall i | 0 <= i < |reference| - 1 :: !(reference[i] == ':' && reference[i + 1] == ':')
    case MissingFile(text) =>
      text == reference && exists file, name :: Names(reference, file, name) && file !in repo.tests
    case NoSuchTest(text) =>
      text == reference && exists file, name :: Names(reference, file, name) && file in repo.tests && !Defined(repo.tests[file], name)
    case _ => false
  }

  lemma {:induction false} FaultIff(repo: Repo, reference: string)
    ensures Fault(repo, reference).None? <==> Resolves(repo, reference)
    ensures Fault(repo, reference).Some? ==> TestSays(repo, reference, Fault(repo, reference).value)
  {
    hide Base, IsBase;
    if Split(reference).Some? {
      var (file, name) := Split(reference).value;
      SplitNames(reference, file, name);
      if file in repo.tests {
        DefinedIff(repo.tests[file], name);
      }
    }
    if file, name :| Names(reference, file, name) && file in repo.tests && Defined(repo.tests[file], name) {
      SplitNames(reference, file, name);
      DefinedIff(repo.tests[file], name);
    }
  }

  /** `unresolved_tests` */
  method UnresolvedTests(repo: Repo, tests: seq<string>) returns (problems: seq<Problem>)
    ensures forall p :: p in problems <==> exists t :: t in tests && Fault(repo, t) == Some(p)
    ensures problems == [] <==> forall t | t in tests :: Resolves(repo, t)
  {
    problems := [];
    for i := 0 to |tests|
      invariant forall p :: p in problems <==> exists t :: t in tests[..i] && Fault(repo, t) == Some(p)
      invariant problems == [] <==> forall t | t in tests[..i] :: Resolves(repo, t)
    {
      PrefixStep(tests, i);
      FaultIff(repo, tests[i]);
      var parts := Split(tests[i]);
      if parts.None? {
        problems := problems + [MalformedTest(tests[i])];
      } else if parts.value.0 !in repo.tests {
        problems := problems + [MissingFile(tests[i])];
      } else if Base(parts.value.1) !in repo.tests[parts.value.0] {
        problems := problems + [NoSuchTest(tests[i])];
      }
    }
    assert tests[..|tests|] == tests;
  }

  // ----------------------------------------------------------- validation

  datatype Result = Result(requirements: nat, mapped: nat, errors: seq<Problem>) {
    /** `TraceabilityResult.passed` */
    predicate Passed() {
      errors == [] && requirements > 0 && requirements == mapped
    }
  }

  ghost predicate EntryFine(repo: Repo, e: Entry) {
    && e.Entry? && e.id != "" && (forall f | f in FIELDS :: f in e.fields)
    && forall t | t in e.tests :: Resolves(repo, t)
  }

  /** An error of one requirement entry, `known` being the ids before it. */
  ghost predicate EntrySays(repo: Repo, known: set<string>, e: Entry, p: Problem) {
    match p
    case NotAnObject => e.NotAnEntry?
    case NoId => e.Entry? && e.id == ""
    case DuplicateId(id) => e.Entry? && e.id != "" && id == e.id && id in known
    case MissingField(id, field) => e.Entry? && e.id != "" && id == e.id && field in FIELDS && field !in e.fields
    case _ => e.Entry? && e.id != "" && exists t :: t in e.tests && Fault(repo, t) == Some(p)
  }

  /** An error of one mapping entry. */
  ghost predicate MappingSays(repo: Repo, ids: set<string>, m: Mapping, p: Problem) {
    match p
    case NotAnObject => m.NotAMapping?
    case UnknownRequirement(id) => m.Mapping? && id == m.id && id !in ids
    case NoActivity(id) => m.Mapping? && id == m.id && id in ids && (m.activities.None? || m.activities.value == 0)
    case MissingProcedure(id, procedure) =>
      m.Mapping? && id == m.id && id in ids && procedure in m.procedures && procedure !in repo.procedures
    case _ => false
  }

  ghost predicate EntriesSay(repo: Repo, entries: seq<Entry>, p: Problem) {
    exists i | 0 <= i < |entries| :: EntrySays(repo, IdsOf(entries[..i]), entries[i], p)
  }

  ghost predicate MappingsSay(repo: Repo, ids: set<string>, mappings: seq<Mapping>, p: Problem) {
    exists i | 0 <= i < |mappings| :: MappingSays(repo, ids, mappings[i], p)
  }

  /** Everything there is to report about two lists. */
  ghost predicate Reported(repo: Repo, entries: seq<Entry>, mappings: seq<Mapping>, p: Problem) {
    || EntriesSay(repo, entries, p)
    || MappingsSay(repo, IdsOf(entries), mappings, p)
    || (p.Unmapped? && p.id in IdsOf(entries) && p.id !in MappedOf(IdsOf(entries), mappings))
  }

  ghost predicate IdsDistinct(entries: seq<Entry>) {
    forall i, j | 0 <= i < j < |entries| && entries[i].Entry? && entries[j].Entry? && entries[i].id != "" ::
      entries[i].id != entries[j].id
  }

  /** The ids the requirements loop collects. */
  function IdsOf(entries: seq<Entry>): set<string> {
    set e | e in entries && e.Entry? && e.id != "" :: e.id
  }

  ghost predicate MappingFine(repo: Repo, ids: set<string>, m: Mapping) {
    m.Mapping? && m.id in ids && m.activities.Some? && m.activities.value > 0 && forall p | p in m.procedures :: p in repo.procedures
  }

  /** The ids the mappings loop collects: only those of known requirements. */
  function MappedOf(ids: set<string>, mappings: seq<Mapping>): set<string> {
    set m | m in mappings && m.Mapping? && m.id in ids :: m.id
  }

  /** What a pass is supposed to mean. */
  ghost predicate Traceable(repo: Repo, d: Documents) {
    && d.requirements.Some? && d.mappings.Some? && d.requirements.value != []
    && IdsDistinct(d.requirements.value) && (forall e | e in d.requirements.value :: EntryFine(repo, e))
    && (forall m | m in d.mappings.value :: MappingFine(repo, IdsOf(d.requirements.value), m))
    && MappedOf(IdsOf(d.requirements.value), d.mappings.value) == IdsOf(d.requirements.value)
  }

  /** The errors of one requirement entry, `known` being the ids before it. */
  method CheckEntry(repo: Repo, known: set<string>, e: Entry) returns (problems: seq<Problem>)
    ensures problems == [] <==> EntryFine(repo, e) && e.id !in known
    ensures forall p :: p in problems <==> EntrySays(repo, known, e, p)
  {
    if e.NotAnEntry? {
      return [NotAnObject];
    }
    if e.id == "" {
      return [NoId];
    }
    problems := if e.id in known then [DuplicateId(e.id)] else [];
    for i := 0 to |FIELDS|
      invariant problems == [] <==> e.id !in known && forall f | f in FIELDS[..i] :: f in e.fields
      invariant forall p :: p in problems <==>
        || (p == DuplicateId(e.id) && e.id in known)
        || (p.MissingField? && p.id == e.id && p.field in FIELDS[..i] && p.field !in e.fields)
    {
      PrefixStep(FIELDS, i);
      if FIELDS[i] !in e.fields {
        problems := problems + [MissingField(e.id, FIELDS[i])];
      }
    }
    assert FIELDS[..|FIELDS|] == FIELDS;
    var unresolved := UnresolvedTests(repo, e.tests);
    problems := problems + unresolved;
  }

  /** The requirements loop. */
  method CheckRequirements(repo: Repo, entries: seq<Entry>) returns (ids: set<string>, errors: seq<Problem>)
    ensures ids == IdsOf(entries)
    ensures errors == [] <==> IdsDistinct(entries) && forall e | e in entries :: EntryFine(repo, e)
    ensures forall p :: p in errors <==> EntriesSay(repo, entries, p)
  {
    hide EntryFine, EntrySays, EntriesSay;
    NothingSaid(repo);
    assert entries[..0] == [];
    ids, errors := {}, [];
    for i := 0 to |entries|
      invariant ids == IdsOf(entries[..i])
      invariant errors == [] <==> IdsDistinct(entries[..i]) && forall e | e in entries[..i] :: EntryFine(repo, e)
      invariant forall p :: p in errors <==> EntriesSay(repo, entries[..i], p)
    {
      var problems := CheckEntry(repo, ids, entries[i]);
      PrefixStep(entries, i);
      OneMoreEntry(repo, entries[..i], entries[i]);
      OneMoreSays(repo, entries[..i], entries[i]);
      errors := errors + problems;
      if entries[i].Entry? && entries[i].id != "" {
        ids := ids + {entries[i].id};
      }
    }
    assert entries[..|entries|] == entries;
  }

  lemma {:induction false} NothingSaid(repo: Repo)
    ensures forall p :: !EntriesSay(repo, [], p)
  {
  }

  lemma {:induction false} OneMoreSays(repo: Repo, done: seq<Entry>, e: Entry)
    ensures forall p :: EntriesSay(repo, done + [e], p) <==> EntriesSay(repo, done, p) || EntrySays(repo, IdsOf(done), e, p)
  {
    hide EntrySays, IdsOf;
    var more, n := done + [e], |done|;
    assert more[..n] == done && more[n] == e;
    forall i | 0 <= i < n ensures more[..i] == done[..i] && more[i] == done[i] {
    }
  }

  lemma {:induction false} OneMoreEntry(repo: Repo, done: seq<Entry>, e: Entry)
    ensures IdsOf(done + [e]) == IdsOf(done) + if e.Entry? && e.id != "" then {e.id} else {}
    ensures e.Entry? && e.id != "" ==> (IdsDistinct(done + [e]) <==> IdsDistinct(done) && e.id !in IdsOf(done))
    ensures IdsDistinct(done + [e]) ==> IdsDistinct(done)
    ensures EntryFine(repo, e) ==> e.Entry? && e.id != ""
  {
    var more := done + [e];
    assert forall i | 0 <= i < |done| :: more[i] == done[i];
    assert more[|done|] == e;
    assert forall x :: x in more <==> x in done || x == e;
    if e.Entry? && e.id != "" && e.id in IdsOf(done) {
      var x :| x in done && x.Entry? && x.id != "" && x.id == e.id;
      var i :| 0 <= i < |done| && done[i] == x;
      assert !IdsDistinct(more) by {
        assert more[i].id == more[|done|].id;
      }
    }
    if IdsDistinct(more) {
      forall i, j | 0 <= i < j < |done| && done[i].Entry? && done[j].Entry? && done[i].id != "" ensures done[i].id != done[j].id {
        assert more[i].id != more[j].id;
      }
    }
  }

  /** The errors of one mapping entry. */
  method CheckMapping(repo: Repo, ids: set<string>, m: Mapping) returns (problems: seq<Problem>)
    ensures problems == [] <==> MappingFine(repo, ids, m)
    ensures forall p :: p in problems <==> MappingSays(repo, ids, m, p)
  {
    if m.NotAMapping? {
      return [NotAnObject];
    }
    if m.id !in ids {
      return [UnknownRequirement(m.id)];
    }
    problems := if m.activities.None? || m.activities.value == 0 then [NoActivity(m.id)] else [];
    for i := 0 to |m.procedures|
      invariant problems == []
           <==> m.activities.Some? && m.activities.value > 0 && forall p | p in m.procedures[..i] :: p in repo.procedures
      invariant forall p :: p in problems <==>
        || (p == NoActivity(m.id) && (m.activities.None? || m.activities.value == 0))
        || (p.MissingProcedure? && p.id == m.id && p.procedure in m.procedures[..i] && p.procedure !in repo.procedures)
    {
      PrefixStep(m.procedures, i);
      if m.procedures[i] !in repo.procedures {
        problems := problems + [MissingProcedure(m.id, m.procedures[i])];
      }
    }
    assert m.procedures[..|m.procedures|] == m.procedures;
  }

  /** The mappings loop. */
  method CheckMappings(repo: Repo, ids: set<string>, mappings: seq<Mapping>) returns (mapped: set<string>, errors: seq<Problem>)
    ensures mapped == MappedOf(ids, mappings)
    ensures errors == [] <==> forall m | m in mappings :: MappingFine(repo, ids, m)
    ensures forall p :: p in errors <==> MappingsSay(repo, ids, mappings, p)
  {
    hide MappingFine, MappingSays;
    mapped, errors := {}, [];
    for i := 0 to |mappings|
      invariant mapped == MappedOf(ids, mappings[..i])
      invariant errors == [] <==> forall m | m in mappings[..i] :: MappingFine(repo, ids, m)
      invariant forall p :: p in errors <==> MappingsSay(repo, ids, mappings[..i], p)
    {
      PrefixStep(mappings, i);
      var problems := CheckMapping(repo, ids, mappings[i]);
      errors := errors + problems;
      if mappings[i].Mapping? && mappings[i].id in ids {
        mapped := mapped + {mappings[i].id};
      }
    }
    assert mappings[..|mappings|] == mappings;
  }

  /** One error for each id of a set, in some order. */
  method Report(ids: set<string>, problem: string -> Problem) returns (errors: seq<Problem>)
    ensures |errors| == |ids| && forall p :: p in errors <==> exists id :: id in ids && p == problem(id)
  {
    errors := [];
    var rest := ids;
    while rest != {}
      invariant |errors| + |rest| == |ids| && rest <= ids
      invariant forall p :: p in errors <==> exists id :: id in ids - rest && p == problem(id)
      decreases |rest|
    {
      var id :| id in rest;
      errors := errors + [problem(id)];
      rest := rest - {id};
    }
  }

  /** `validate_traceability`: a pass is exactly traceability, and two of its checks decide nothing. */
  method ValidateTraceability(repo: Repo, d: Documents) returns (result: Result, ghost stale: set<string>)
    ensures result.Passed() <==> Traceable(repo, d)
    ensures stale == {}
    ensures result.errors == [] ==> result.requirements == result.mapped
    ensures d.requirements.None? || d.mappings.None? ==> result == Result(0, 0, [NotLists])
    ensures d.requirements.Some? && d.mappings.Some? ==>
      && (forall p :: p in result.errors <==> Reported(repo, d.requirements.value, d.mappings.value, p))
      && result.requirements == |IdsOf(d.requirements.value)|
      && result.mapped == |MappedOf(IdsOf(d.requirements.value), d.mappings.value)|
  {
    hide EntryFine, MappingFine, IdsDistinct, EntriesSay, MappingsSay;
    stale := {};
    if d.requirements.None? || d.mappings.None? {
      return Result(0, 0, [NotLists]), stale;
    }
    var ids, errors := CheckRequirements(repo, d.requirements.value);
    var mapped, mappingErrors := CheckMappings(repo, ids, d.mappings.value);
    var missing, excess := ids - mapped, mapped - ids;
    stale := excess;
    var unmapped := Report(missing, id => Unmapped(id));
    var staleErrors := Report(excess, id => Stale(id));
    result := Result(|ids|, |mapped|, errors + mappingErrors + unmapped + staleErrors);
    Counted(ids, mapped);
    forall p ensures p in unmapped <==> p.Unmapped? && p.id in missing {
      if p.Unmapped? {
        assert p == Unmapped(p.id);
      }
    }
    assert staleErrors == [];
    if errors == [] {
      NoIds(repo, d.requirements.value);
    }
  }

  lemma {:induction false} Counted(ids: set<string>, mapped: set<string>)
    requires mapped <= ids
    ensures |ids - mapped| == 0 <==> mapped == ids
    ensures mapped - ids == {}
  {
    if |ids - mapped| == 0 {
      assert ids - mapped == {};
      assert forall id | id in ids :: id !in ids - mapped;
    }
  }

  /** Requirements that are all fine are counted, each of them. */
  lemma {:induction false} NoIds(repo: Repo, entries: seq<Entry>)
    requires forall e | e in entries :: EntryFine(repo, e)
    ensures |IdsOf(entries)| > 0 <==> entries != []
  {
    if entries != [] {
      assert entries[0] in entries && EntryFine(repo, entries[0]);
      assert entries[0].id in IdsOf(entries);
    }
  }
}
